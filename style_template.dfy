/** Applying a style template to a prompt.

    The same three-step substitution appears three times in the repository
    (`StyleGroup.apply_style_template` in nodes/lib/style_group.py and
    `apply_style_to_prompt` in nodes/styles/style_group.py and
    nodes/styles/base.py); it is modelled once here. */
module StyleTemplate {
  import opened Text

  /** Placeholder for the optional "spicy" dressing. */
  const SpicyPlaceholder: string := "{$spicy-content-with}"

  /** Placeholder for the prompt being styled. */
  const PromptPlaceholder: string := "{$@}"

  /** The text that replaces `SpicyPlaceholder` when the booster is on. */
  const SpicyContent: string := "attractive and spicy content, where any woman is sexy and provocative, with"

  function SpicyText(booster: bool): string {
    if booster then SpicyContent else ""
  }

  /** The three substitutions, in order: the spicy placeholder, then the prompt
      placeholder, then one left-to-right pass turning each pair of spaces
      into one. */
  function Apply(prompt: string, template: string, booster: bool): string {
    var dressed := ReplaceAll(template, SpicyPlaceholder, SpicyText(booster));
    var filled := ReplaceAll(dressed, PromptPlaceholder, prompt);
    ReplaceAll(filled, "  ", " ")
  }

  /** Written with Python's `split`/`join` identity: each step cuts the text at
      the placeholder and glues the pieces back with the replacement. */
  lemma ApplyBySplitJoin(prompt: string, template: string, booster: bool)
    ensures Apply(prompt, template, booster) ==
            Join(Split(Join(Split(Join(Split(template, SpicyPlaceholder), SpicyText(booster)),
                                  PromptPlaceholder), prompt), "  "), " ")
  {
    var dressed := ReplaceAll(template, SpicyPlaceholder, SpicyText(booster));
    var filled := ReplaceAll(dressed, PromptPlaceholder, prompt);
    ReplaceAllIsJoinSplit(template, SpicyPlaceholder, SpicyText(booster));
    ReplaceAllIsJoinSplit(dressed, PromptPlaceholder, prompt);
    ReplaceAllIsJoinSplit(filled, "  ", " ");
  }

  /** The prompt is inserted after the spicy step and is not scanned for
      placeholders again: a template that is only `{$@}` yields the prompt
      itself, with double spaces collapsed, whatever placeholders the prompt
      contains. */
  lemma PromptNotReexpanded(prompt: string, booster: bool)
    ensures Apply(prompt, PromptPlaceholder, booster) == ReplaceAll(prompt, "  ", " ")
  {
    var p := PromptPlaceholder;
    assert ReplaceAll(p, SpicyPlaceholder, SpicyText(booster)) == p;
    assert p[..|p|] == p && p[|p|..] == "";
    assert ReplaceAll(p[|p|..], p, prompt) == "";
    assert ReplaceAll(p, p, prompt) == prompt;
  }

  /** A prompt that holds the spicy placeholder keeps it, even with the booster on. */
  lemma SpicyInPromptSurvives()
    ensures Apply(SpicyPlaceholder, PromptPlaceholder, true) == SpicyPlaceholder
  {
    PromptNotReexpanded(SpicyPlaceholder, true);
    SpicyPlaceholderKeepsSpacing(SpicyPlaceholder);
  }

  /** `SpicyPlaceholder` holds no double space. */
  lemma SpicyPlaceholderKeepsSpacing(s: string)
    requires s == SpicyPlaceholder
    ensures ReplaceAll(s, "  ", " ") == s
  {
    assert !Contains(s, "  ") by {
      forall j: nat | j + 2 <= |s| ensures !OccursAt(s, "  ", j) {
        assert s[j] != ' ';
      }
    }
    ReplaceAbsent(s, "  ", " ");
  }

  /** The booster only matters where the template holds the spicy placeholder. */
  lemma BoosterIrrelevantWithoutPlaceholder(prompt: string, template: string)
    requires !Contains(template, SpicyPlaceholder)
    ensures Apply(prompt, template, true) == Apply(prompt, template, false)
  {
    ReplaceAbsent(template, SpicyPlaceholder, SpicyContent);
    ReplaceAbsent(template, SpicyPlaceholder, "");
  }

  /** A template with neither placeholder nor double space comes back unchanged. */
  lemma PlainTemplateUnchanged(prompt: string, template: string, booster: bool)
    requires !Contains(template, SpicyPlaceholder) && !Contains(template, PromptPlaceholder)
    requires !Contains(template, "  ")
    ensures Apply(prompt, template, booster) == template
  {
    ReplaceAbsent(template, SpicyPlaceholder, SpicyText(booster));
    ReplaceAbsent(template, PromptPlaceholder, prompt);
    ReplaceAbsent(template, "  ", " ");
  }

  /** The double-space fix is one pass: three spaces become two, not one. */
  lemma DoubleSpaceSinglePass(prompt: string)
    ensures Apply(prompt, "   ", false) == "  "
  {
    assert ReplaceAll("   ", SpicyPlaceholder, "") == "   ";
    assert ReplaceAll("   ", PromptPlaceholder, prompt) == "   ";
    assert ReplaceAll(" ", "  ", " ") == " ";
    assert ReplaceAll("   ", "  ", " ") == " " + " ";
  }

  /** The spicy placeholder is removed in one left-to-right pass, so one
      nested inside another survives even with the booster off. */
  lemma NestedSpicySurvives(prompt: string)
    ensures Apply(prompt, "{$" + SpicyPlaceholder + "spicy-content-with}", false) == SpicyPlaceholder
  {
    var p := SpicyPlaceholder;
    NestedSpicyOnePass(p);
    SpicyHoldsNoPromptPlaceholder(p);
    ReplaceAbsent(p, PromptPlaceholder, prompt);
    SpicyPlaceholderKeepsSpacing(p);
  }

  /** One removal pass over the nested placeholder leaves the outer one. */
  lemma NestedSpicyOnePass(p: string)
    requires p == SpicyPlaceholder
    ensures ReplaceAll("{$" + p + "spicy-content-with}", p, "") == p
  {
    var tail := "spicy-content-with}";
    assert ['{', '$'] + tail == p;
    NestedRemoval('{', '$', tail);
  }

  /** Removing `pat` from `[x, y] + pat + tail`, where `pat == [x, y] + tail`,
      leaves `pat`: the scan meets the inner copy only. */
  lemma NestedRemoval(x: char, y: char, tail: string)
    requires x != y && |tail| > 0 && x != tail[0]
    ensures ReplaceAll([x, y] + ([x, y] + tail) + tail, [x, y] + tail, "") == [x, y] + tail
  {
    var pat := [x, y] + tail;
    var t2 := pat + tail;
    var t1 := [y] + t2;
    NestedShape(x, y, tail, pat, t1, t2);
    RemovedAtStart(pat, tail);
    SkipsHead(y, t2, pat, 0);
    SkipsHead(x, t1, pat, 2);
  }

  /** How the text of `NestedRemoval` is put together. */
  lemma NestedShape(x: char, y: char, tail: string, pat: string, t1: string, t2: string)
    requires pat == [x, y] + tail && t2 == pat + tail && t1 == [y] + t2
    ensures [x, y] + pat + tail == [x] + t1
    ensures [x] + ([y] + tail) == pat
    ensures ([y] + t2)[0] == y && ([x] + t1)[2] == x
  {
  }

  /** A text whose first `|pat|` characters differ from `pat` at index `k`
      keeps its first character. */
  lemma SkipsHead(c: char, rest: string, pat: string, k: nat)
    requires k < |pat| <= |rest| + 1 && ([c] + rest)[k] != pat[k]
    ensures ReplaceAll([c] + rest, pat, "") == [c] + ReplaceAll(rest, pat, "")
  {
    var t := [c] + rest;
    assert t[..|pat|] != pat by {
      assert t[..|pat|][k] == t[k];
    }
    assert t[1..] == rest;
  }

  /** `pat` at the start of a text shorter than two copies is removed and the
      rest kept. */
  lemma RemovedAtStart(pat: string, tail: string)
    requires |pat| > |tail|
    ensures ReplaceAll(pat + tail, pat, "") == tail
  {
    var t := pat + tail;
    assert t[..|pat|] == pat;
    assert t[|pat|..] == tail;
  }

  /** `SpicyPlaceholder` holds no prompt placeholder. */
  lemma SpicyHoldsNoPromptPlaceholder(p: string)
    requires p == SpicyPlaceholder
    ensures !Contains(p, PromptPlaceholder)
  {
    forall j: nat | j + 4 <= |p| ensures !OccursAt(p, PromptPlaceholder, j) {
      assert p[j..j + 4][0] == p[j] && p[j..j + 4][2] == p[j + 2];
      if j == 0 {
        assert p[2] == 's';
      } else {
        assert p[j] != '{';
      }
    }
  }
}
