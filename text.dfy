/**
 * The two Python string operations the bot applies to incoming text:
 * `str.strip()` with no argument and `str.replace(old, new)` with no count.
 */
module Text {

  /** Python's `str.isspace()` for one character: the characters `str.strip()` removes. */
  predicate IsSpace(c: char) {
    ('\t' <= c <= '\r') || ('\U{1C}' <= c <= ' ') ||
    c == '\U{85}' || c == '\U{A0}' || c == '\U{1680}' ||
    ('\U{2000}' <= c <= '\U{200A}') || c == '\U{2028}' || c == '\U{2029}' ||
    c == '\U{202F}' || c == '\U{205F}' || c == '\U{3000}'
  }

  /**
   * On ASCII, the whitespace is `string.whitespace` and the four separators
   * U+001C to U+001F.
   */
  lemma AsciiSpaces(c: char)
    requires c < '\U{80}'
    ensures IsSpace(c) <==> c in " \t\n\r\U{B}\U{C}\U{1C}\U{1D}\U{1E}\U{1F}"
  {
  }

  predicate AllSpace(s: string) {
    forall k :: 0 <= k < |s| ==> IsSpace(s[k])
  }

  /** Every character of `s` from index `lo` up to (not including) `hi` is whitespace. */
  predicate SpacesBetween(s: string, lo: nat, hi: nat)
    requires lo <= hi <= |s|
  {
    forall k :: lo <= k < hi ==> IsSpace(s[k])
  }

  /** Neither the first nor the last character is whitespace. */
  predicate IsStripped(s: string) {
    s == [] || (!IsSpace(s[0]) && !IsSpace(s[|s| - 1]))
  }

  /** The left scan of `strip()`: the first index from `i` on that is not whitespace. */
  function SkipSpaces(s: string, i: nat): (j: nat)
    requires i <= |s|
    ensures i <= j <= |s| && SpacesBetween(s, i, j)
    ensures j == |s| || !IsSpace(s[j])
    decreases |s| - i
  {
    if i < |s| && IsSpace(s[i]) then SkipSpaces(s, i + 1) else i
  }

  /** The right scan of `strip()`: moves `j` left over whitespace, but not below `lo`. */
  function SkipSpacesBack(s: string, lo: nat, j: nat): (k: nat)
    requires lo <= j <= |s|
    ensures lo <= k <= j && SpacesBetween(s, k, j)
    ensures k == lo || !IsSpace(s[k - 1])
    decreases j - lo
  {
    if lo < j && IsSpace(s[j - 1]) then SkipSpacesBack(s, lo, j - 1) else j
  }

  /**
   * `s.strip()`: the part of `s` between its leading and its trailing whitespace.
   * StripPadded shows that any such decomposition determines the result.
   */
  function Strip(s: string): (r: string)
    ensures IsStripped(r)
    ensures var i := SkipSpaces(s, 0);
            i + |r| <= |s| && r == s[i..i + |r|] &&
            SpacesBetween(s, 0, i) && SpacesBetween(s, i + |r|, |s|)
  {
    var i := SkipSpaces(s, 0);
    s[i..SkipSpacesBack(s, i, |s|)]
  }

  lemma {:induction false} SkipSpacesAt(s: string, i: nat, j: nat)
    requires i <= j <= |s| && SpacesBetween(s, i, j)
    requires j == |s| || !IsSpace(s[j])
    ensures SkipSpaces(s, i) == j
    decreases j - i
  {
    if i < j {
      SkipSpacesAt(s, i + 1, j);
    }
  }

  lemma {:induction false} SkipSpacesBackAt(s: string, lo: nat, k: nat, j: nat)
    requires lo <= k <= j <= |s| && SpacesBetween(s, k, j)
    requires k == lo || !IsSpace(s[k - 1])
    ensures SkipSpacesBack(s, lo, j) == k
    decreases j - k
  {
    if k < j {
      SkipSpacesBackAt(s, lo, k, j - 1);
    }
  }

  /** Whitespace around an already stripped text is exactly what `strip()` removes. */
  lemma StripPadded(pre: string, t: string, post: string)
    requires AllSpace(pre) && AllSpace(post) && IsStripped(t)
    ensures Strip(pre + t + post) == t
  {
    var s := pre + t + post;
    var a, b := |pre|, |pre| + |t|;
    assert forall k :: 0 <= k < a ==> s[k] == pre[k];
    assert forall k :: b <= k < |s| ==> s[k] == post[k - b];
    if t == [] {
      SkipSpacesAt(s, 0, |s|);
      SkipSpacesBackAt(s, |s|, |s|, |s|);
    } else {
      assert s[a] == t[0] && s[b - 1] == t[|t| - 1];
      SkipSpacesAt(s, 0, a);
      SkipSpacesBackAt(s, a, b, |s|);
      assert s[a..b] == t;
    }
  }

  /** `strip()` is idempotent. */
  lemma StripIdempotent(s: string)
    ensures Strip(Strip(s)) == Strip(s)
  {
    var r := Strip(s);
    StripPadded([], r, []);
    assert [] + r + [] == r;
  }

  /** `pat` occurs in `s` at position `i`. */
  predicate OccursAt(s: string, pat: string, i: nat) {
    i + |pat| <= |s| && s[i..i + |pat|] == pat
  }

  /**
   * `s.replace(pat, rep)` for a non-empty `pat`: one left-to-right pass that
   * replaces every non-overlapping occurrence of `pat`.
   */
  function Replace(s: string, pat: string, rep: string): (r: string)
    requires pat != []
    ensures |rep| <= |pat| ==> |r| <= |s|
    ensures |pat| <= |rep| ==> |s| <= |r|
    decreases |s|
  {
    if |pat| <= |s| && s[..|pat|] == pat then rep + Replace(s[|pat|..], pat, rep)
    else if s == [] then []
    else [s[0]] + Replace(s[1..], pat, rep)
  }

  /** An occurrence at the front is replaced, and the pass resumes after it. */
  lemma ReplaceAtFront(pat: string, s: string, rep: string)
    requires pat != []
    ensures Replace(pat + s, pat, rep) == rep + Replace(s, pat, rep)
  {
    assert (pat + s)[..|pat|] == pat;
    assert (pat + s)[|pat|..] == s;
  }

  /** A first character that cannot start `pat` is copied. */
  lemma ReplaceCopiesFront(c: char, s: string, pat: string, rep: string)
    requires pat != [] && pat[0] != c
    ensures Replace([c] + s, pat, rep) == [c] + Replace(s, pat, rep)
  {
    assert ([c] + s)[..1] != pat[..1];
    assert ([c] + s)[1..] == s;
  }

  /** Replacing leaves a text in which `pat` never occurs unchanged. */
  lemma {:induction false} ReplaceWithoutOccurrence(s: string, pat: string, rep: string)
    requires pat != []
    requires forall i :: 0 <= i <= |s| ==> !OccursAt(s, pat, i)
    ensures Replace(s, pat, rep) == s
  {
    if s != [] {
      assert !OccursAt(s, pat, 0);
      forall i | 0 <= i <= |s[1..]|
        ensures !OccursAt(s[1..], pat, i)
      {
        assert !OccursAt(s, pat, i + 1);
        if i + |pat| <= |s[1..]| {
          assert s[1..][i..i + |pat|] == s[i + 1..i + 1 + |pat|];
        }
      }
      ReplaceWithoutOccurrence(s[1..], pat, rep);
    }
  }

  /** An occurrence in the tail of `s` is an occurrence in `s` one position later. */
  lemma OccursInTail(s: string, pat: string, i: nat)
    requires s != []
    ensures OccursAt(s[1..], pat, i) <==> OccursAt(s, pat, i + 1)
  {
    if i + |pat| <= |s[1..]| {
      assert s[1..][i..i + |pat|] == s[i + 1..i + 1 + |pat|];
    }
  }

  /**
   * The pass copies everything before the first occurrence, replaces that
   * occurrence, and carries on after it.
   */
  lemma {:induction false} ReplaceFirstOccurrence(a: string, pat: string, b: string, rep: string)
    requires pat != []
    requires forall i :: 0 <= i < |a| ==> !OccursAt(a + pat + b, pat, i)
    ensures Replace(a + pat + b, pat, rep) == a + rep + Replace(b, pat, rep)
    decreases |a|
  {
    var s := a + pat + b;
    if a == [] {
      assert s == pat + b;
      ReplaceAtFront(pat, b, rep);
    } else {
      var t := a[1..] + pat + b;
      assert s[1..] == t;
      forall i | 0 <= i < |a[1..]|
        ensures !OccursAt(t, pat, i)
      {
        assert !OccursAt(s, pat, i + 1);
        OccursInTail(s, pat, i);
      }
      ReplaceFirstOccurrence(a[1..], pat, b, rep);
      assert !OccursAt(s, pat, 0);
      assert Replace(s, pat, rep) == [a[0]] + Replace(t, pat, rep);
      assert [a[0]] + (a[1..] + rep + Replace(b, pat, rep)) == a + rep + Replace(b, pat, rep);
    }
  }

  /**
   * `replace` makes a single pass: removing "y =" from "yy = =" leaves "y =",
   * so a removed pattern can reappear in the result.
   */
  lemma RemoveIsSinglePass()
    ensures Replace("yy = =", "y =", "") == "y ="
  {
    assert "yy = ="[1..] == "y = =";
    assert "y = ="[3..] == " =";
    assert " ="[1..] == "=";
  }
}
