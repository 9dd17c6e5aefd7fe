/**
 * `compress_response` (backend/agent/runner.py): collapse whitespace, then apply a fixed,
 * ordered list of literal phrase replacements.
 */
module Compress {
  import opened Text

  /**
   * The ordered (pattern, replacement) pairs, applied one after the other to the whole text.
   * The two longest patterns are written as two literals each; the strings are the same.
   */
  const Rules: seq<(string, string)> := [
    ("I have", "I've"),
    ("I would", "I'd"),
    ("you want to", "you"),
    ("the OpenAI API key is not configured", "API key missing"),
    ("Please set the OPENAI_API_KEY " + "environment variable", "Set OPENAI_API_KEY"),
    ("I encountered an error while " + "processing your request", "Error"),
    ("Could you try again", "Retry"),
    ("I am", "I'm"),
    ("that is", "that's"),
    ("would you like", "do you"),
    ("is not", "isn't"),
    ("do not", "don't")
  ]

  /** A rule that can neither lengthen the text nor spoil its whitespace normal form. */
  predicate ShrinkingRule(rule: (string, string)) {
    var (pat, rep) := rule;
    && 0 < |rep| < |pat|
    && pat[0] != ' ' && pat[|pat| - 1] != ' '
    && Normalized(rep)
  }

  /** Printable ASCII: the plain space or a visible character, never any other whitespace. */
  predicate Printable(s: string) {
    forall i :: 0 <= i < |s| ==> ' ' <= s[i] <= '~'
  }

  /** A printable text with no space at either end and none doubled is normalized. */
  lemma PrintableNormalized(s: string)
    requires Printable(s) && NoDoubleSpace(s)
    requires |s| > 0 ==> s[0] != ' ' && s[|s| - 1] != ' '
    ensures Normalized(s)
  {
    forall i | 0 <= i < |s| && IsSpace(s[i]) ensures s[i] == ' ' {
      assert ' ' <= s[i] <= '~';
    }
  }

  /** The replacement texts have no stray whitespace. */
  lemma ReplacementsNormalized0()
    ensures Normalized("I've")
    ensures Normalized("I'd")
  {
    PrintableNormalized("I've");
    PrintableNormalized("I'd");
  }

  lemma ReplacementsNormalized1()
    ensures Normalized("you")
    ensures Normalized("Error")
  {
    PrintableNormalized("you");
    PrintableNormalized("Error");
  }

  lemma ReplacementsNormalized2()
    ensures Normalized("API key missing")
  {
    PrintableNormalized("API key missing");
  }

  lemma ReplacementsNormalized3()
    ensures Normalized("Set OPENAI_API_KEY")
  {
    PrintableNormalized("Set OPENAI_API_KEY");
  }

  lemma ReplacementsNormalized4()
    ensures Normalized("Retry")
    ensures Normalized("I'm")
    ensures Normalized("that's")
  {
    PrintableNormalized("Retry");
    PrintableNormalized("I'm");
    PrintableNormalized("that's");
  }

  lemma ReplacementsNormalized5()
    ensures Normalized("do you")
    ensures Normalized("isn't")
    ensures Normalized("don't")
  {
    PrintableNormalized("do you");
    PrintableNormalized("isn't");
    PrintableNormalized("don't");
  }

  /** Every rule of the table strictly shortens what it matches and keeps single internal spaces. */
  lemma RulesShrink()
    ensures forall k :: 0 <= k < |Rules| ==> ShrinkingRule(Rules[k])
  {
    ReplacementsNormalized0();
    ReplacementsNormalized1();
    ReplacementsNormalized2();
    ReplacementsNormalized3();
    ReplacementsNormalized4();
    ReplacementsNormalized5();
    assert "Please set the OPENAI_API_KEY "[0] == 'P' && "environment variable"[19] == 'e';
    assert "I encountered an error while "[0] == 'I' && "processing your request"[22] == 't';
  }

  /** Each rule in turn, `text = text.replace(old, new)`. */
  function ApplyRules(s: string, rules: seq<(string, string)>): string
    requires forall k :: 0 <= k < |rules| ==> |rules[k].0| > 0
    decreases |rules|
  {
    if rules == [] then s
    else ApplyRules(Replace(s, rules[0].0, rules[0].1), rules[1..])
  }

  /** Shrinking rules keep a normalized text normalized and never make it longer. */
  lemma {:induction false} ApplyShrinkingRules(s: string, rules: seq<(string, string)>)
    requires forall k :: 0 <= k < |rules| ==> ShrinkingRule(rules[k])
    requires Normalized(s)
    requires forall k :: 0 <= k < |rules| ==> |rules[k].0| > 0
    ensures Normalized(ApplyRules(s, rules))
    ensures |ApplyRules(s, rules)| <= |s|
    decreases |rules|
  {
    if rules != [] {
      var (pat, rep) := rules[0];
      assert ShrinkingRule(rules[0]);
      ReplaceKeepsNormalized(s, pat, rep);
      ReplaceShorter(s, pat, rep);
      ApplyShrinkingRules(Replace(s, pat, rep), rules[1..]);
    }
  }

  /** `compress_response(response)` */
  function CompressResponse(response: string): (r: string)
    ensures Normalized(r)
    ensures |r| <= |response|
    ensures IsBlank(response) ==> r == ""
  {
    RulesShrink();
    var collapsed := Collapse(response);
    CollapseNormalized(response);
    CollapseShorter(response);
    ApplyShrinkingRules(collapsed, Rules);
    ApplyRules(collapsed, Rules)
  }

  /** Rules whose patterns do not occur leave the text untouched, in any order. */
  lemma {:induction false} ApplyAbsentRules(s: string, rules: seq<(string, string)>)
    requires forall k :: 0 <= k < |rules| ==> |rules[k].0| > 0
    requires forall k :: 0 <= k < |rules| ==> !Contains(s, rules[k].0)
    ensures ApplyRules(s, rules) == s
    decreases |rules|
  {
    if rules != [] {
      ReplaceAbsent(s, rules[0].0, rules[0].1);
      ApplyAbsentRules(s, rules[1..]);
    }
  }

  /** A reply mentioning none of the phrases only has its whitespace collapsed. */
  lemma CompressWithoutPhrases(response: string)
    requires forall k :: 0 <= k < |Rules| ==> !Contains(Collapse(response), Rules[k].0)
    ensures CompressResponse(response) == Collapse(response)
  {
    RulesShrink();
    ApplyAbsentRules(Collapse(response), Rules);
  }

  /** Collapsing whitespace again changes nothing: the compressed reply is already in normal form. */
  lemma CompressedIsCollapsed(response: string)
    ensures Collapse(CompressResponse(response)) == CompressResponse(response)
  {
    CollapseFixesNormalized(CompressResponse(response));
  }
}
