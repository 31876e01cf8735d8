/**
 * The per-user conversation state machine of main.py: each handler as a method
 * of `Bot`, which keeps every user's `context.user_data['state']`, and the
 * function `Respond` that says what one message does to one user's state.
 */
module Controller {
  import opened Wrappers
  import opened Text
  import opened Routing
  import opened Render

  type UserId = int

  /**
   * A user's `state`: `None` (also when the key is missing), 'add_explicit',
   * 'add_implicit' or 'add_3d'.
   */
  datatype Mode = Idle | AwaitExplicit | AwaitImplicit | Await3D

  const Greeting := "Привет! Это бот для построения графиков. Выберите категорию:"
  const HelpText := "Команды:\n- /start: Запуск бота\n- /help: Получить помощь\n- Используйте кнопки для работы с графиками."
  const ChooseGraphFirst := "Сначала выберите тип графика, например, '2D Графика' или '3D Графика'."
  const UnknownFormula := "Неизвестная функция. Попробуйте другую."
  const UnknownCommand := "Я не понимаю эту команду. Попробуйте снова."
  const ErrorPrefix := "Ошибка: "

  /** The reply of each handler that only answers, without touching the state. */
  function StatelessReply(h: Handler): Reply
    requires IsStateless(h)
  {
    match h
    case Start => Message(Greeting, MainKeyboard)
    case Help => Message(HelpText, NoKeyboard)
    case Menu2D => Message("Вы выбрали 2D графику. Что хотите сделать?", Keyboard2D)
    case Menu3D => Message("Вы выбрали 3D графику. Что хотите сделать?", Keyboard3D)
    case Back => Message("Вы вернулись в главное меню.", MainKeyboard)
    case Clear => Message("График очищен. Вы можете добавить новые функции.", NoKeyboard)
    case Unknown => Message(UnknownCommand, NoKeyboard)
  }

  predicate IsStateless(h: Handler) {
    h.Start? || h.Help? || h.Menu2D? || h.Menu3D? || h.Back? || h.Clear? || h.Unknown?
  }

  predicate IsAddMenu(h: Handler) {
    h.AddExplicit? || h.AddImplicit? || h.Add3D?
  }

  /** The mode each "add" menu handler stores, and the prompt it sends first. */
  function ModeSelected(h: Handler): Mode
    requires IsAddMenu(h)
  {
    match h
    case AddExplicit => AwaitExplicit
    case AddImplicit => AwaitImplicit
    case Add3D => Await3D
  }

  function AddPrompt(h: Handler): string
    requires IsAddMenu(h)
  {
    match h
    case AddExplicit => "Введите явную функцию в формате: y = x**2 или y = sin(x)."
    case AddImplicit => "Введите неявную функцию в формате: x**2 + y**2 - 1 = 0."
    case Add3D => "Введите 3D функцию в формате: z = sin(x) * cos(y)."
  }

  /** The `except` clause: any exception becomes the text "Ошибка: " + str(e). */
  function Outcome(attempt: Result<Reply>): (r: Reply)
    ensures attempt.Ok? ==> r == attempt.value
    ensures attempt.Err? ==> r == Message(ErrorPrefix + attempt.message, NoKeyboard)
    ensures r.Photo? ==> attempt == Ok(r)
  {
    match attempt
    case Ok(reply) => reply
    case Err(m) => Message(ErrorPrefix + m, NoKeyboard)
  }

  /**
   * What one message does for one user: the value the handler assigns to
   * `user_data['state']`, if it assigns one, and the reply, if there is one.
   */
  datatype Step = Step(stored: Option<Mode>, reply: Option<Reply>)

  function ModeAfter(mode: Mode, s: Step): Mode {
    if s.stored.Some? then s.stored.value else mode
  }

  /**
   * Whether `handle_function_input` reaches one of its two resets: it does in
   * every pending mode, except when the 3D branch returns early on a formula
   * it does not know.
   */
  predicate ResetsMode(mode: Mode, text: string) {
    mode != Idle && !(mode == Await3D && SurfaceFor(Strip(text)).None?)
  }

  /** The reply of `handle_function_input`. */
  function InputReply(mode: Mode, text: string, libs: Libraries): (r: Reply)
    ensures mode == Idle ==> r == Message(ChooseGraphFirst, NoKeyboard)
    ensures mode == AwaitExplicit ==> r == Outcome(PlotExplicit(text, libs))
    ensures mode == AwaitImplicit ==> r == Outcome(PlotImplicit(text, libs))
    ensures mode == Await3D && SurfaceFor(Strip(text)).Some? ==>
              r == Outcome(PlotSurface(Strip(text), SurfaceFor(Strip(text)).value, libs))
    ensures mode == Await3D ==> (r == Message(UnknownFormula, NoKeyboard) <==> SurfaceFor(Strip(text)).None?)
    ensures r.Photo? ==> mode != Idle
  {
    match mode
    case Idle => Message(ChooseGraphFirst, NoKeyboard)
    case AwaitExplicit => Outcome(PlotExplicit(text, libs))
    case AwaitImplicit => Outcome(PlotImplicit(text, libs))
    case Await3D =>
      var equation := Strip(text);
      match SurfaceFor(equation)
      case None => Message(UnknownFormula, NoKeyboard)
      case Some(surface) =>
        SurfaceReplyIsNoHint(equation, surface, libs);
        Outcome(PlotSurface(equation, surface, libs))
  }

  /** Whatever drawing a known 3D formula does, its reply is not the unknown-formula hint. */
  lemma SurfaceReplyIsNoHint(equation: string, surface: Surface, libs: Libraries)
    ensures Outcome(PlotSurface(equation, surface, libs)) != Message(UnknownFormula, NoKeyboard)
  {
    var attempt := PlotSurface(equation, surface, libs);
    if attempt.Err? {
      assert Outcome(attempt).text[0] == 'О' != UnknownFormula[0];
    } else if attempt.value.Message? {
      assert attempt.value.text[2] == ' ' != UnknownFormula[2];
    }
  }

  /** One message, routed as `main()` registers the handlers, for a user in `mode`. */
  function Respond(mode: Mode, m: Incoming, libs: Libraries): (s: Step)
    ensures IsAddMenu(Route(m)) ==> s.stored == Some(ModeSelected(Route(m)))
    ensures IsStateless(Route(m)) || Route(m) == Unhandled ==> s.stored == None
    ensures Route(m) == Unhandled <==> s.reply == None
    ensures Route(m) == FunctionInput && mode == Idle ==>
              s == Step(None, Some(Message(ChooseGraphFirst, NoKeyboard)))
    ensures Route(m) == FunctionInput && (mode == AwaitExplicit || mode == AwaitImplicit) ==>
              s.stored == Some(Idle)
    ensures Route(m) == FunctionInput && mode == Await3D ==>
              (s.stored == None <==> SurfaceFor(Strip(m.text)).None?) &&
              (s.reply == Some(Message(UnknownFormula, NoKeyboard)) <==> SurfaceFor(Strip(m.text)).None?) &&
              (s.stored.Some? ==> s.stored == Some(Idle))
    ensures Route(m) == FunctionInput ==> s.reply == Some(InputReply(mode, m.text, libs))
    ensures s.reply.Some? && s.reply.value.Photo? ==>
              Route(m) == FunctionInput && mode != Idle && s.stored == Some(Idle)
  {
    var h := Route(m);
    if IsStateless(h) then Step(None, Some(StatelessReply(h)))
    else if IsAddMenu(h) then Step(Some(ModeSelected(h)), Some(Message(AddPrompt(h), NoKeyboard)))
    else if h == FunctionInput then
      Step(if ResetsMode(mode, m.text) then Some(Idle) else None, Some(InputReply(mode, m.text, libs)))
    else Step(None, None)
  }

  /** A message together with how the libraries behave while it is handled. */
  datatype Event = Event(msg: Incoming, libs: Libraries)

  datatype Trace = Trace(final: Mode, replies: seq<Option<Reply>>)

  /**
   * One user's messages handled one after another, starting in `mode`. Only an
   * "add" menu takes an idle user out of `Idle`.
   */
  function Run(mode: Mode, events: seq<Event>): (t: Trace)
    ensures |t.replies| == |events|
    ensures mode == Idle && (forall j :: 0 <= j < |events| ==> !IsAddMenu(Route(events[j].msg))) ==>
              t.final == Idle
    decreases |events|
  {
    if events == [] then Trace(mode, [])
    else
      var s := Respond(mode, events[0].msg, events[0].libs);
      var rest := Run(ModeAfter(mode, s), events[1..]);
      Trace(rest.final, [s.reply] + rest.replies)
  }

  predicate IsPhoto(r: Option<Reply>) {
    r.Some? && r.value.Photo?
  }

  /**
   * No plot without a selection: in a conversation that starts idle, every
   * photo is preceded by a message routed to one of the three "add" menus.
   */
  lemma {:induction false} PhotoFollowsAddMenu(events: seq<Event>, k: nat)
    requires k < |events| && IsPhoto(Run(Idle, events).replies[k])
    ensures exists j :: 0 <= j < k && IsAddMenu(Route(events[j].msg))
  {
    var s := Respond(Idle, events[0].msg, events[0].libs);
    if IsAddMenu(Route(events[0].msg)) {
      assert k != 0;
    } else {
      assert k != 0;
      assert ModeAfter(Idle, s) == Idle;
      assert Run(Idle, events).replies[k] == Run(Idle, events[1..]).replies[k - 1];
      PhotoFollowsAddMenu(events[1..], k - 1);
      var j :| 0 <= j < k - 1 && IsAddMenu(Route(events[1..][j].msg));
      assert events[1..][j] == events[j + 1];
    }
  }

  /**
   * Messages that go to the answering-only handlers (/start, /help, the 2D, 3D,
   * back and clear menus, unknown commands) or to no handler leave any mode in
   * place, a pending one included.
   */
  lemma {:induction false} StatelessMessagesKeepMode(mode: Mode, events: seq<Event>)
    requires forall i :: 0 <= i < |events| ==>
               IsStateless(Route(events[i].msg)) || Route(events[i].msg) == Unhandled
    ensures Run(mode, events).final == mode
  {
    if events != [] {
      assert IsStateless(Route(events[0].msg)) || Route(events[0].msg) == Unhandled;
      StatelessMessagesKeepMode(mode, events[1..]);
    }
  }

  /** Texts that are not a known formula keep a 3D request waiting, each answered with the same hint. */
  lemma {:induction false} UnknownFormulasKeepWaiting(events: seq<Event>)
    requires forall i :: 0 <= i < |events| ==>
               events[i].msg.TextMessage? && Route(events[i].msg) == FunctionInput &&
               SurfaceFor(Strip(events[i].msg.text)).None?
    ensures Run(Await3D, events).final == Await3D
    ensures forall i :: 0 <= i < |events| ==>
              Run(Await3D, events).replies[i] == Some(Message(UnknownFormula, NoKeyboard))
  {
    if events != [] {
      var e := events[0];
      assert e.msg.TextMessage? && Route(e.msg) == FunctionInput && SurfaceFor(Strip(e.msg.text)).None?;
      var s := Respond(Await3D, e.msg, e.libs);
      assert s == Step(None, Some(Message(UnknownFormula, NoKeyboard)));
      UnknownFormulasKeepWaiting(events[1..]);
      var rest := Run(Await3D, events[1..]);
      assert Run(Await3D, events) == Trace(rest.final, [s.reply] + rest.replies);
    }
  }

  /**
   * A pending explicit or implicit request is consumed by the next text, however
   * its evaluation and drawing end: that text is the only one interpreted in
   * that mode, and the one after it is answered as in the idle state.
   */
  lemma OneTextPerExplicitOrImplicitRequest(mode: Mode, t1: string, t2: string, l1: Libraries, l2: Libraries)
    requires mode == AwaitExplicit || mode == AwaitImplicit
    requires Route(TextMessage(t1)) == FunctionInput && Route(TextMessage(t2)) == FunctionInput
    ensures Run(mode, [Event(TextMessage(t1), l1), Event(TextMessage(t2), l2)]) ==
            Trace(Idle, [Some(InputReply(mode, t1, l1)), Some(Message(ChooseGraphFirst, NoKeyboard))])
  {
    var events := [Event(TextMessage(t1), l1), Event(TextMessage(t2), l2)];
    var s1 := Respond(mode, TextMessage(t1), l1);
    assert s1 == Step(Some(Idle), Some(InputReply(mode, t1, l1)));
    var s2 := Respond(Idle, TextMessage(t2), l2);
    assert events[1..] == [Event(TextMessage(t2), l2)];
    assert events[1..][1..] == [];
    assert Run(Idle, events[1..]) == Trace(Idle, [s2.reply]);
  }

  class Bot {
    /** `context.user_data['state']` of every user that has one. */
    var states: map<UserId, Mode>

    constructor()
      ensures states == map[]
    {
      states := map[];
    }

    /** `context.user_data.get('state')`: a missing key reads as `None`. */
    function ModeOf(u: UserId): Mode
      reads this
    {
      if u in states then states[u] else Idle
    }

    method Start() returns (reply: Reply)
      ensures reply == Message(Greeting, MainKeyboard)
    {
      reply := StatelessReply(Handler.Start);
    }

    method HelpCommand() returns (reply: Reply)
      ensures reply == Message(HelpText, NoKeyboard)
    {
      reply := StatelessReply(Handler.Help);
    }

    method Handle2DMenu() returns (reply: Reply)
      ensures reply == Message("Вы выбрали 2D графику. Что хотите сделать?", Keyboard2D)
    {
      reply := StatelessReply(Handler.Menu2D);
    }

    method Handle3DMenu() returns (reply: Reply)
      ensures reply == Message("Вы выбрали 3D графику. Что хотите сделать?", Keyboard3D)
    {
      reply := StatelessReply(Handler.Menu3D);
    }

    /** Answers "cleared" but, changing nothing, leaves a pending mode in place. */
    method HandleClear() returns (reply: Reply)
      ensures reply == Message("График очищен. Вы можете добавить новые функции.", NoKeyboard)
    {
      reply := StatelessReply(Handler.Clear);
    }

    method HandleBack() returns (reply: Reply)
      ensures reply == Message("Вы вернулись в главное меню.", MainKeyboard)
    {
      reply := StatelessReply(Handler.Back);
    }

    method HandleUnknown() returns (reply: Reply)
      ensures reply == Message(UnknownCommand, NoKeyboard)
    {
      reply := StatelessReply(Handler.Unknown);
    }

    method AddExplicitFunction(u: UserId) returns (reply: Reply)
      modifies this
      ensures states == old(states)[u := AwaitExplicit]
      ensures reply == Message(AddPrompt(AddExplicit), NoKeyboard)
    {
      reply := Message(AddPrompt(AddExplicit), NoKeyboard);
      states := states[u := AwaitExplicit];
    }

    method AddImplicitFunction(u: UserId) returns (reply: Reply)
      modifies this
      ensures states == old(states)[u := AwaitImplicit]
      ensures reply == Message(AddPrompt(AddImplicit), NoKeyboard)
    {
      reply := Message(AddPrompt(AddImplicit), NoKeyboard);
      states := states[u := AwaitImplicit];
    }

    method Add3DFunction(u: UserId) returns (reply: Reply)
      modifies this
      ensures states == old(states)[u := Await3D]
      ensures reply == Message(AddPrompt(Add3D), NoKeyboard)
    {
      reply := Message(AddPrompt(Add3D), NoKeyboard);
      states := states[u := Await3D];
    }

    /**
     * `handle_function_input`: answer idle users with a hint and return; run the
     * branch of the pending mode; reset the mode after it, whether it ended
     * normally or by an exception, except when the 3D branch returns early.
     */
    method HandleFunctionInput(u: UserId, text: string, libs: Libraries) returns (reply: Reply)
      modifies this
      ensures reply == InputReply(old(ModeOf(u)), text, libs)
      ensures states == if ResetsMode(old(ModeOf(u)), text) then old(states)[u := Idle] else old(states)
    {
      var state := ModeOf(u);
      if state == Idle {
        reply := Message(ChooseGraphFirst, NoKeyboard);
        return;
      }
      var attempt: Result<Reply>;
      if state == AwaitExplicit {
        attempt := PlotExplicit(text, libs);
      } else if state == AwaitImplicit {
        attempt := PlotImplicit(text, libs);
      } else {
        var equation := Strip(text);
        var surface := SurfaceFor(equation);
        if surface.None? {
          reply := Message(UnknownFormula, NoKeyboard);
          return;
        }
        attempt := PlotSurface(equation, surface.value, libs);
      }
      match attempt {
        case Ok(r) =>
          reply := r;
          states := states[u := Idle];
        case Err(m) =>
          reply := Message(ErrorPrefix + m, NoKeyboard);
          states := states[u := Idle];
      }
    }

    /** The handlers that only answer: none of them has a `modifies` clause. */
    method Answer(h: Handler) returns (reply: Reply)
      requires IsStateless(h)
      ensures reply == StatelessReply(h)
    {
      match h {
        case Start => reply := Start();
        case Help => reply := HelpCommand();
        case Menu2D => reply := Handle2DMenu();
        case Menu3D => reply := Handle3DMenu();
        case Back => reply := HandleBack();
        case Clear => reply := HandleClear();
        case Unknown => reply := HandleUnknown();
      }
    }

    /**
     * One incoming message from user `u`, dispatched to the first handler whose
     * filter accepts it. Only `u`'s state can change.
     */
    method Receive(u: UserId, m: Incoming, libs: Libraries) returns (reply: Option<Reply>)
      modifies this
      ensures var s := Respond(old(ModeOf(u)), m, libs);
              reply == s.reply &&
              states == if s.stored.Some? then old(states)[u := s.stored.value] else old(states)
      ensures forall v :: v != u ==> ModeOf(v) == old(ModeOf(v))
    {
      var h := Route(m);
      var r: Reply;
      if IsStateless(h) {
        r := Answer(h);
      } else if h == AddExplicit {
        r := AddExplicitFunction(u);
      } else if h == AddImplicit {
        r := AddImplicitFunction(u);
      } else if h == Add3D {
        r := Add3DFunction(u);
      } else if h == FunctionInput {
        r := HandleFunctionInput(u, m.text, libs);
      } else {
        reply := None;
        return;
      }
      reply := Some(r);
    }
  }
}
