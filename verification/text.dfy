/**
 * The Python string primitives the core relies on: whitespace as `str.split()` and
 * `str.strip()` see it, `strip`, `split`, `" ".join`, `str.replace`, the `in` substring
 * test and `lower`.
 */
module Text {

  /** Python's `str.isspace()` for one character (the set `split()` and `strip()` use). */
  predicate IsSpace(c: char) {
    || c == ' ' || c == '\t' || c == '\n' || c == '\r'
    || c == '\U{000B}' || c == '\U{000C}'
    || ('\U{001C}' <= c <= '\U{001F}')
    || c == '\U{0085}' || c == '\U{00A0}' || c == '\U{1680}'
    || ('\U{2000}' <= c <= '\U{200A}')
    || c == '\U{2028}' || c == '\U{2029}' || c == '\U{202F}' || c == '\U{205F}' || c == '\U{3000}'
  }

  /** Every character is whitespace (this includes the empty string). */
  predicate IsBlank(s: string) {
    forall i :: 0 <= i < |s| ==> IsSpace(s[i])
  }

  /** No character is whitespace. */
  predicate IsWord(s: string) {
    |s| > 0 && forall i :: 0 <= i < |s| ==> !IsSpace(s[i])
  }

  // ---------------------------------------------------------------- strip

  /** `s.lstrip()` */
  function TrimStart(s: string): (r: string)
    ensures |r| <= |s| && r == s[|s| - |r|..]
    ensures r == [] || !IsSpace(r[0])
    ensures IsBlank(s[..|s| - |r|])
    decreases |s|
  {
    if s == [] || !IsSpace(s[0]) then s else TrimStart(s[1..])
  }

  /** `s.rstrip()` */
  function TrimEnd(s: string): (r: string)
    ensures |r| <= |s| && r == s[..|r|]
    ensures r == [] || !IsSpace(r[|r| - 1])
    ensures IsBlank(s[|r|..])
    decreases |s|
  {
    if s == [] || !IsSpace(s[|s| - 1]) then s else TrimEnd(s[..|s| - 1])
  }

  /** `s.strip()` */
  function Strip(s: string): string {
    TrimEnd(TrimStart(s))
  }

  /** `s.strip()` is empty exactly when `s` is all whitespace: the "blank" test of the handlers and endpoints. */
  lemma StripEmptyIffBlank(s: string)
    ensures Strip(s) == [] <==> IsBlank(s)
  {
    var t := TrimStart(s);
    assert s == s[..|s| - |t|] + t;
    if Strip(s) == [] {
      assert t == t[|TrimEnd(t)|..];
      forall i | 0 <= i < |s| ensures IsSpace(s[i]) {
        assert s[i] == s[..|s| - |t|][i];
      }
    } else {
      var k := |s| - |t|;
      assert t != [] && !IsSpace(t[0]);
      assert s[k] == t[0];
    }
  }

  /** A stripped string neither starts nor ends with whitespace. */
  lemma StripHasNoEdgeSpace(s: string)
    ensures var r := Strip(s); r == [] || (!IsSpace(r[0]) && !IsSpace(r[|r| - 1]))
  {
    var t := TrimStart(s);
    var r := TrimEnd(t);
    if r != [] {
      assert r[0] == t[0];
    }
  }

  // ---------------------------------------------------------------- split and join

  /** The longest prefix of `s` holding no whitespace. */
  function TakeWord(s: string): (w: string)
    ensures |w| <= |s| && w == s[..|w|]
    ensures forall i :: 0 <= i < |w| ==> !IsSpace(w[i])
    ensures |w| < |s| ==> IsSpace(s[|w|])
    ensures |s| > 0 && !IsSpace(s[0]) ==> |w| > 0
    decreases |s|
  {
    if s == [] || IsSpace(s[0]) then [] else [s[0]] + TakeWord(s[1..])
  }

  /** `s.split()`: the maximal runs of non-whitespace characters, left to right. */
  function Split(s: string): (ws: seq<string>)
    ensures forall i :: 0 <= i < |ws| ==> IsWord(ws[i])
    decreases |s|
  {
    var t := TrimStart(s);
    if t == [] then []
    else
      var w := TakeWord(t);
      assert |w| > 0 && |t[|w|..]| < |s|;
      assert IsWord(w);
      var rest := Split(t[|w|..]);
      [w] + rest
  }

  /** `s.split()` finds no word exactly when `s` is blank. */
  lemma SplitEmptyIffBlank(s: string)
    ensures Split(s) == [] <==> IsBlank(s)
  {
    var t := TrimStart(s);
    if t == [] {
      assert s == s[..|s|];
    } else {
      assert s[|s| - |t|] == t[0];
    }
  }

  /** `" ".join(ws)` */
  function JoinSpace(ws: seq<string>): string
    decreases |ws|
  {
    if ws == [] then ""
    else if |ws| == 1 then ws[0]
    else ws[0] + " " + JoinSpace(ws[1..])
  }

  /** Whitespace-normal form: the only whitespace is ' ', never at either end and never twice in a row. */
  predicate Normalized(s: string) {
    && PlainSpaces(s)
    && (|s| > 0 ==> s[0] != ' ' && s[|s| - 1] != ' ')
    && NoDoubleSpace(s)
  }

  /** Every whitespace character is the plain space ' '. */
  predicate PlainSpaces(s: string) {
    forall i :: 0 <= i < |s| && IsSpace(s[i]) ==> s[i] == ' '
  }

  /** No two adjacent characters are both ' '. */
  predicate NoDoubleSpace(s: string) {
    forall i :: 0 < i < |s| ==> !(s[i - 1] == ' ' && s[i] == ' ')
  }

  /** Joining non-empty whitespace-free words with single spaces yields a normalized string. */
  lemma {:induction false} JoinWordsNormalized(ws: seq<string>)
    requires forall i :: 0 <= i < |ws| ==> IsWord(ws[i])
    ensures Normalized(JoinSpace(ws))
    ensures |JoinSpace(ws)| > 0 <==> |ws| > 0
    ensures |ws| > 0 ==> JoinSpace(ws)[0] == ws[0][0]
    decreases |ws|
  {
    if |ws| > 1 {
      var w := ws[0];
      var rest := JoinSpace(ws[1..]);
      JoinWordsNormalized(ws[1..]);
      var s := w + " " + rest;
      assert s == JoinSpace(ws);
      assert rest[0] == ws[1][0];
      forall i | 0 <= i < |s| && IsSpace(s[i]) ensures s[i] == ' ' {
        if i > |w| {
          assert s[i] == rest[i - |w| - 1];
        }
      }
      forall i | 0 < i < |s| ensures !(s[i - 1] == ' ' && s[i] == ' ') {
        if i > |w| + 1 {
          assert s[i - 1] == rest[i - 1 - |w| - 1] && s[i] == rest[i - |w| - 1];
        }
      }
      assert s[|s| - 1] == rest[|rest| - 1];
    }
  }

  /** `" ".join(s.split())`: whitespace runs collapsed to one space, ends trimmed. */
  function Collapse(s: string): string {
    JoinSpace(Split(s))
  }

  /** When `s` holds a space at index `k` followed by more text, splitting from `k` skips it. */
  lemma SplitSkipsSpace(s: string)
    requires |s| > 0 && IsSpace(s[0])
    ensures Split(s) == Split(s[1..])
  {
    assert TrimStart(s) == TrimStart(s[1..]);
  }

  /** Collapsing never lengthens a string. */
  lemma {:induction false} CollapseShorter(s: string)
    ensures |Collapse(s)| <= |s|
    decreases |s|
  {
    var t := TrimStart(s);
    if t != [] {
      var w := TakeWord(t);
      var r := t[|w|..];
      var ws := Split(r);
      assert Split(s) == [w] + ws;
      if ws != [] {
        assert r != [] by { SplitEmptyIffBlank(r); }
        assert IsSpace(r[0]);
        SplitSkipsSpace(r);
        CollapseShorter(r[1..]);
        assert Collapse(s) == w + " " + Collapse(r[1..]);
      }
    }
  }

  /** The output of collapsing is normalized, and it is empty exactly for blank input. */
  lemma CollapseNormalized(s: string)
    ensures Normalized(Collapse(s))
    ensures Collapse(s) == "" <==> IsBlank(s)
  {
    JoinWordsNormalized(Split(s));
    SplitEmptyIffBlank(s);
  }

  /** Collapsing leaves a normalized string as it is, so collapsing twice equals collapsing once. */
  lemma {:induction false} CollapseFixesNormalized(s: string)
    requires Normalized(s)
    ensures Collapse(s) == s
    decreases |s|
  {
    if s != [] {
      var w := FirstWordOfNormalized(s);
      if |w| < |s| {
        var r := s[|w| + 1..];
        assert Normalized(r) by { NormalizedAfterFirstWord(s, w); }
        CollapseFixesNormalized(r);
        assert Split(s) == [w] + Split(r) by { SplitAfterFirstWord(s, w); }
        assert Split(r) != [] by {
          SplitEmptyIffBlank(r);
          assert !IsSpace(r[0]);
        }
        SplitAtSpace(s, |w|);
        CollapseCons(s, w, r);
      } else {
        CollapseOneWord(s, w);
      }
    }
  }

  /** A text that is a single word collapses to itself. */
  lemma CollapseOneWord(s: string, w: string)
    requires TrimStart(s) == s && w == TakeWord(s) && |w| == |s| > 0
    ensures Collapse(s) == s
  {
    assert s[|w|..] == [];
    assert Split(s) == [w];
  }

  /** Collapsing a first word, one space and an already collapsed rest gives back the same text. */
  lemma CollapseCons(s: string, w: string, r: string)
    requires |w| <= |s| && s == s[..|w|] + " " + r && w == s[..|w|]
    requires Split(s) == [w] + Split(r) && Split(r) != [] && Collapse(r) == r
    ensures Collapse(s) == s
  {
    JoinCons(w, Split(r));
  }

  /** A string with a space at index `k` is its text before `k`, that space, and its text after. */
  lemma SplitAtSpace(s: string, k: nat)
    requires k < |s| && s[k] == ' '
    ensures s == s[..k] + " " + s[k + 1..]
  {
  }

  /** Joining a word in front of a non-empty list adds the word and one space. */
  lemma JoinCons(w: string, ws: seq<string>)
    requires ws != []
    ensures JoinSpace([w] + ws) == w + " " + JoinSpace(ws)
  {
    assert ([w] + ws)[1..] == ws;
  }

  /** A normalized, non-empty string begins with its first word: no whitespace is skipped. */
  lemma FirstWordOfNormalized(s: string) returns (w: string)
    requires Normalized(s) && s != []
    ensures TrimStart(s) == s && w == TakeWord(s) && |w| > 0
    ensures Split(s) == [w] + Split(s[|w|..])
    ensures |w| < |s| ==> s[|w|] == ' ' && |w| + 1 < |s|
  {
    assert !IsSpace(s[0]);
    w := TakeWord(s);
  }

  /** What follows the first word and its single space in a normalized string is normalized again. */
  lemma NormalizedAfterFirstWord(s: string, w: string)
    requires Normalized(s) && |w| + 1 < |s| && s[|w|] == ' '
    ensures Normalized(s[|w| + 1..])
  {
    var k := |w|;
    var r := s[k + 1..];
    assert r[0] == s[k + 1];
    forall i | 0 <= i < |r| && IsSpace(r[i]) ensures r[i] == ' ' {
      assert r[i] == s[k + 1 + i];
    }
    forall i | 0 < i < |r| ensures !(r[i - 1] == ' ' && r[i] == ' ') {
      assert r[i - 1] == s[k + i] && r[i] == s[k + 1 + i];
    }
    assert r[|r| - 1] == s[|s| - 1];
  }

  /** Splitting the text after the first word skips the single space that follows it. */
  lemma SplitAfterFirstWord(s: string, w: string)
    requires |w| + 1 < |s| && s[|w|] == ' '
    ensures Split(s[|w|..]) == Split(s[|w| + 1..])
  {
    SplitSkipsSpace(s[|w|..]);
    assert s[|w|..][1..] == s[|w| + 1..];
  }

  // ---------------------------------------------------------------- replace

  /** `s.replace(pat, rep)`: every non-overlapping occurrence, scanning left to right. */
  function Replace(s: string, pat: string, rep: string): string
    requires |pat| > 0
    decreases |s|
  {
    if |s| < |pat| then s
    else if s[..|pat|] == pat then rep + Replace(s[|pat|..], pat, rep)
    else [s[0]] + Replace(s[1..], pat, rep)
  }

  /** With no occurrence of the pattern, `replace` returns the text unchanged. */
  lemma {:induction false} ReplaceAbsent(s: string, pat: string, rep: string)
    requires |pat| > 0 && !Contains(s, pat)
    ensures Replace(s, pat, rep) == s
    decreases |s|
  {
    if |s| >= |pat| {
      assert !OccursAt(s, pat, 0);
      assert !Contains(s[1..], pat) by {
        forall i | 0 <= i <= |s[1..]| && OccursAt(s[1..], pat, i) ensures false {
          assert s[i + 1..i + 1 + |pat|] == s[1..][i..i + |pat|];
          assert OccursAt(s, pat, i + 1);
        }
      }
      ReplaceAbsent(s[1..], pat, rep);
    }
  }

  /** A match at the front is replaced and the scan resumes after it. */
  lemma ReplaceAtFront(pat: string, rest: string, rep: string)
    requires |pat| > 0
    ensures Replace(pat + rest, pat, rep) == rep + Replace(rest, pat, rep)
  {
    assert (pat + rest)[..|pat|] == pat;
    assert (pat + rest)[|pat|..] == rest;
  }

  /** Replacing a pattern by a string no longer than it never lengthens the text. */
  lemma {:induction false} ReplaceShorter(s: string, pat: string, rep: string)
    requires |pat| > 0 && |rep| <= |pat|
    ensures |Replace(s, pat, rep)| <= |s|
    decreases |s|
  {
    if |s| >= |pat| {
      if s[..|pat|] == pat {
        ReplaceShorter(s[|pat|..], pat, rep);
      } else {
        ReplaceShorter(s[1..], pat, rep);
      }
    }
  }

  /**
   * Replacing a pattern that starts and ends with a non-space by a normalized, non-empty replacement keeps
   * every local whitespace property of the text, and whether it starts or ends with a space.
   */
  lemma {:induction false} ReplaceKeepsSpacing(s: string, pat: string, rep: string)
    requires |pat| > 0 && pat[0] != ' ' && pat[|pat| - 1] != ' '
    requires |rep| > 0 && Normalized(rep)
    requires PlainSpaces(s) && NoDoubleSpace(s)
    ensures var r := Replace(s, pat, rep);
      && PlainSpaces(r) && NoDoubleSpace(r)
      && (|r| > 0 <==> |s| > 0)
      && (|s| > 0 ==> (r[0] == ' ' <==> s[0] == ' '))
      && (|s| > 0 ==> (r[|r| - 1] == ' ' <==> s[|s| - 1] == ' '))
    decreases |s|
  {
    var r := Replace(s, pat, rep);
    if |s| >= |pat| {
      if s[..|pat|] == pat {
        var tail := s[|pat|..];
        SuffixKeepsSpacing(s, |pat|);
        ReplaceKeepsSpacing(tail, pat, rep);
        var rt := Replace(tail, pat, rep);
        assert r == rep + rt;
        assert s[0] == pat[0];
        assert s[|pat| - 1] == pat[|pat| - 1];
        ConcatKeepsSpacing(rep, rt);
        if tail == [] {
          assert r == rep;
          assert s[|s| - 1] == pat[|pat| - 1];
        } else {
          assert r[|r| - 1] == rt[|rt| - 1];
          assert s[|s| - 1] == tail[|tail| - 1];
        }
      } else {
        var tail := s[1..];
        SuffixKeepsSpacing(s, 1);
        ReplaceKeepsSpacing(tail, pat, rep);
        var rt := Replace(tail, pat, rep);
        assert r == [s[0]] + rt;
        if tail != [] {
          assert !(s[0] == ' ' && s[1] == ' ');
          assert tail[0] == s[1];
          assert r[|r| - 1] == rt[|rt| - 1];
          assert s[|s| - 1] == tail[|tail| - 1];
        }
        ConcatKeepsSpacing([s[0]], rt);
      }
    }
  }

  /** A suffix of a string keeps its local whitespace properties. */
  lemma SuffixKeepsSpacing(s: string, k: nat)
    requires k <= |s| && PlainSpaces(s) && NoDoubleSpace(s)
    ensures PlainSpaces(s[k..]) && NoDoubleSpace(s[k..])
  {
    var t := s[k..];
    forall i | 0 <= i < |t| && IsSpace(t[i]) ensures t[i] == ' ' {
      assert t[i] == s[k + i];
    }
    forall i | 0 < i < |t| ensures !(t[i - 1] == ' ' && t[i] == ' ') {
      assert t[i - 1] == s[k + i - 1] && t[i] == s[k + i];
    }
  }

  /** Concatenation keeps the local whitespace properties unless both sides meet in a space. */
  lemma ConcatKeepsSpacing(a: string, b: string)
    requires PlainSpaces(a) && NoDoubleSpace(a) && PlainSpaces(b) && NoDoubleSpace(b)
    requires !(|a| > 0 && |b| > 0 && a[|a| - 1] == ' ' && b[0] == ' ')
    ensures PlainSpaces(a + b) && NoDoubleSpace(a + b)
  {
    var s := a + b;
    forall i | 0 <= i < |s| && IsSpace(s[i]) ensures s[i] == ' ' {
      if i >= |a| { assert s[i] == b[i - |a|]; }
    }
    forall i | 0 < i < |s| ensures !(s[i - 1] == ' ' && s[i] == ' ') {
      if i > |a| { assert s[i - 1] == b[i - 1 - |a|] && s[i] == b[i - |a|]; }
      else if i == |a| { assert s[i] == b[0]; }
    }
  }

  /** Such a pattern and a normalized replacement keep a normalized text normalized. */
  lemma ReplaceKeepsNormalized(s: string, pat: string, rep: string)
    requires |pat| > 0 && pat[0] != ' ' && pat[|pat| - 1] != ' '
    requires |rep| > 0 && Normalized(rep)
    requires Normalized(s)
    ensures Normalized(Replace(s, pat, rep))
  {
    ReplaceKeepsSpacing(s, pat, rep);
  }

  // ---------------------------------------------------------------- substring and case

  /** `sub` occurs in `s` starting at index `i`. */
  predicate OccursAt(s: string, sub: string, i: int) {
    0 <= i <= |s| - |sub| && s[i..i + |sub|] == sub
  }

  /** Python's `sub in s`. */
  predicate Contains(s: string, sub: string) {
    exists i | 0 <= i <= |s| :: OccursAt(s, sub, i)
  }

  /** `lower()` restricted to ASCII letters. */
  function LowerChar(c: char): char {
    if 'A' <= c <= 'Z' then (c as int + 32) as char else c
  }

  /** `s.lower()` restricted to ASCII letters. */
  function Lower(s: string): (r: string)
    ensures |r| == |s|
    ensures forall i :: 0 <= i < |s| ==> r[i] == LowerChar(s[i])
  {
    seq(|s|, i requires 0 <= i < |s| => LowerChar(s[i]))
  }
}
