/**
 * Which handler answers an incoming message. `main()` registers the handlers
 * in one group, and the first handler whose filter accepts a message is the
 * only one that runs, so the registration order is the routing rule.
 */
module Routing {

  /**
   * An incoming message: a bot command (text starting with "/", its name
   * without the slash), any other text, or a message with no text at all.
   */
  datatype Incoming = Command(name: string) | TextMessage(text: string) | NoText

  datatype Handler =
    | Start | Help
    | Menu2D | Menu3D | Back | Clear
    | AddExplicit | AddImplicit | Add3D
    | FunctionInput | Unknown
    | Unhandled
  {
    /** The handlers registered with a `filters.Regex('^label$')`. */
    predicate IsMenu() {
      Menu2D? || Menu3D? || Back? || Clear? || AddExplicit? || AddImplicit? || Add3D?
    }
  }

  /** The menu label each regex handler matches. */
  function MenuLabel(h: Handler): string
    requires h.IsMenu()
  {
    match h
    case Menu2D => "2D Графика"
    case Menu3D => "3D Графика"
    case Back => "Назад"
    case Clear => "Очистить"
    case AddExplicit => "Добавить Явную Функцию"
    case AddImplicit => "Добавить Неявную Функцию"
    case Add3D => "Добавить 3D Функцию"
  }

  /**
   * `re.search('^' + label + '$', text)`: without MULTILINE, `$` also matches
   * just before a final newline, so the label followed by one "\n" matches too.
   */
  predicate MatchesLabel(text: string, caption: string) {
    text == caption || text == caption + "\n"
  }

  /** The anchored regex: the text starts with the label and nothing but an optional "\n" follows. */
  lemma MatchesLabelIsAnchored(text: string, caption: string)
    ensures MatchesLabel(text, caption) <==>
              |caption| <= |text| && text[..|caption|] == caption && text[|caption|..] in {"", "\n"}
  {
  }

  /** ASCII lower-casing; CommandHandler compares `command.lower()`. */
  function LowerAscii(s: string): (r: string)
    ensures |r| == |s|
    ensures forall i :: 0 <= i < |r| ==> !('A' <= r[i] <= 'Z')
    ensures forall i :: 0 <= i < |s| && !('A' <= s[i] <= 'Z') ==> r[i] == s[i]
    ensures forall i :: 0 <= i < |s| && 'A' <= s[i] <= 'Z' ==> r[i] as int == s[i] as int + 32
  {
    seq(|s|, i requires 0 <= i < |s| =>
          if 'A' <= s[i] <= 'Z' then (s[i] as int + 32) as char else s[i])
  }

  /** The first regex handler, in registration order, that matches `text`. */
  function MenuFor(text: string): (h: Handler)
    ensures h.IsMenu() ==> MatchesLabel(text, MenuLabel(h))
    ensures !h.IsMenu() ==> h == FunctionInput
    ensures h == FunctionInput ==> forall g: Handler :: g.IsMenu() ==> !MatchesLabel(text, MenuLabel(g))
  {
    if MatchesLabel(text, "2D Графика") then Menu2D
    else if MatchesLabel(text, "3D Графика") then Menu3D
    else if MatchesLabel(text, "Назад") then Back
    else if MatchesLabel(text, "Очистить") then Clear
    else if MatchesLabel(text, "Добавить Явную Функцию") then AddExplicit
    else if MatchesLabel(text, "Добавить Неявную Функцию") then AddImplicit
    else if MatchesLabel(text, "Добавить 3D Функцию") then Add3D
    else FunctionInput
  }

  /**
   * The handler order of `main()`: /start, /help, the seven menu regexes,
   * then any non-command text, then any other command. The regex and text
   * filters test `message.text` for truth, so an empty text reaches no handler.
   */
  function Route(m: Incoming): (h: Handler)
    ensures m.Command? ==> (h == Start <==> LowerAscii(m.name) == "start")
    ensures m.Command? ==> (h == Help <==> LowerAscii(m.name) == "help")
    ensures m.Command? ==> h == Start || h == Help || h == Unknown
    ensures m.TextMessage? && m.text == "" ==> h == Unhandled
    ensures m.TextMessage? && m.text != "" ==> h.IsMenu() || h == FunctionInput
    ensures m.TextMessage? && h.IsMenu() ==> MatchesLabel(m.text, MenuLabel(h))
    ensures m.TextMessage? && h == FunctionInput ==>
              forall g: Handler :: g.IsMenu() ==> !MatchesLabel(m.text, MenuLabel(g))
    ensures m.NoText? ==> h == Unhandled
  {
    match m
    case Command(name) =>
      var c := LowerAscii(name);
      if c == "start" then Start else if c == "help" then Help else Unknown
    case TextMessage(text) => if text == "" then Unhandled else MenuFor(text)
    case NoText => Unhandled
  }

  /** `name` is `word` with any of its ASCII letters written in upper case. */
  predicate CaseVariant(name: string, word: string) {
    |name| == |word| &&
    forall i :: 0 <= i < |word| ==>
      name[i] == word[i] || ('a' <= word[i] <= 'z' && name[i] as int == word[i] as int - 32)
  }

  /** A lower-case word is what `LowerAscii` makes of each of its case variants. */
  lemma {:induction false} LowerOfCaseVariant(name: string, word: string)
    requires CaseVariant(name, word)
    requires forall i :: 0 <= i < |word| ==> !('A' <= word[i] <= 'Z')
    ensures LowerAscii(name) == word
  {
    var r := LowerAscii(name);
    forall i | 0 <= i < |word|
      ensures r[i] == word[i]
    {
      if 'A' <= name[i] <= 'Z' {
        assert name[i] != word[i];
        assert r[i] as int == word[i] as int;
      }
    }
  }

  /** "/START", "/Help", ...: the command filters ignore the case of the name. */
  lemma CommandCaseIgnored(name: string)
    ensures CaseVariant(name, "start") ==> Route(Command(name)) == Start
    ensures CaseVariant(name, "help") ==> Route(Command(name)) == Help
  {
    if CaseVariant(name, "start") {
      LowerOfCaseVariant(name, "start");
    }
    if CaseVariant(name, "help") {
      LowerOfCaseVariant(name, "help");
    }
  }

  /**
   * A menu label, with or without a final newline, goes to its own handler
   * and to no other: no label matches another's regex.
   */
  lemma MenuLabelRoutesToItsHandler(h: Handler)
    requires h.IsMenu()
    ensures Route(TextMessage(MenuLabel(h))) == h
    ensures Route(TextMessage(MenuLabel(h) + "\n")) == h
  {
    match h
    case Menu2D =>
    case Menu3D =>
      assert ("3D Графика" + "\n")[0] == '3';
    case Back =>
    case Clear =>
    case AddExplicit =>
    case AddImplicit =>
    case Add3D =>
  }

  /** The reply keyboards, by their button rows. */
  datatype Keyboard = NoKeyboard | MainKeyboard | Keyboard2D | Keyboard3D

  function Buttons(k: Keyboard): seq<string> {
    match k
    case NoKeyboard => []
    case MainKeyboard => ["2D Графика", "3D Графика", "Помощь"]
    case Keyboard2D => ["Добавить Явную Функцию", "Добавить Неявную Функцию", "Очистить", "Назад"]
    case Keyboard3D => ["Добавить 3D Функцию", "Назад"]
  }

  /**
   * Every button of the 2D and 3D keyboards reaches its menu handler, but the
   * main keyboard's "Помощь" button has no handler of its own: pressing it is
   * ordinary text for `handle_function_input`, not /help.
   */
  lemma KeyboardButtonRoutes(k: Keyboard, b: string)
    requires b in Buttons(k)
    ensures b == "Помощь" <==> Route(TextMessage(b)) == FunctionInput
    ensures b != "Помощь" ==> Route(TextMessage(b)).IsMenu() && MenuLabel(Route(TextMessage(b))) == b
  {
    if b == "Помощь" {
      forall g: Handler | g.IsMenu()
        ensures !MatchesLabel(b, MenuLabel(g))
      {
        assert (MenuLabel(g) + "\n")[0] == MenuLabel(g)[0] != b[0];
      }
    }
  }
}
