/** nodes/core/helpers.py: case-insensitive replacement (`ireplace`) and the
    `%name%` expander used for file names (`expand_date_and_vars`). The
    clock that the source reads with `time.localtime()` is a parameter. */
module Helpers {
  import opened Wrappers
  import opened Text

  // ---------------------------------------------------------------------
  // ireplace

  /** `re.sub('', repl, s, count)`: the empty pattern matches before every
      character and at the end. */
  function InsertAll(s: string, repl: string, limit: Option<nat>): (r: string)
    ensures |r| == |s| + Insertions(s, limit) * |repl|
  {
    if limit == Some(0) then s
    else if s == [] then repl
    else
      var next := if limit.None? then None else Some(limit.value - 1);
      var rest := InsertAll(s[1..], repl, next);
      MulStep(Insertions(s, limit), |repl|);
      repl + [s[0]] + rest
  }

  /** One factor taken out of a product. */
  lemma MulStep(a: nat, b: nat)
    requires a > 0
    ensures a * b == (a - 1) * b + b
  {
  }

  /** How many of the `|s| + 1` empty matches a count lets `re.sub` replace. */
  function Insertions(s: string, limit: Option<nat>): nat {
    if limit.None? || limit.value > |s| then |s| + 1 else limit.value
  }

  /** The replacement sits before each of the first `Insertions` characters,
      and each of those characters keeps its place after it. */
  lemma {:induction false} InsertAllAt(s: string, repl: string, limit: Option<nat>, i: nat)
    requires i < |s| && i < Insertions(s, limit)
    ensures var r, w := InsertAll(s, repl, limit), |repl| + 1;
            i * w + w <= |r| && r[i * w .. i * w + |repl|] == repl && r[i * w + |repl|] == s[i]
    decreases i, 1
  {
    var r, w := InsertAll(s, repl, limit), |repl| + 1;
    if i == 0 {
      var next := if limit.None? then None else Some(limit.value - 1);
      assert r == (repl + [s[0]]) + InsertAll(s[1..], repl, next);
      assert i * w == 0;
      assert r[..|repl|] == repl;
    } else {
      InsertAllAtLater(s, repl, limit, i);
    }
  }

  /** The step of `InsertAllAt` past the first character: the block of the
      rest of the text moves right by one replacement and one character. */
  lemma {:induction false} InsertAllAtLater(s: string, repl: string, limit: Option<nat>, i: nat)
    requires 0 < i < |s| && i < Insertions(s, limit)
    ensures var r, w := InsertAll(s, repl, limit), |repl| + 1;
            i * w + w <= |r| && r[i * w .. i * w + |repl|] == repl && r[i * w + |repl|] == s[i]
    decreases i, 0
  {
    var w := |repl| + 1;
    var next := if limit.None? then None else Some(limit.value - 1);
    var rest := InsertAll(s[1..], repl, next);
    assert InsertAll(s, repl, limit) == (repl + [s[0]]) + rest;
    InsertAllAt(s[1..], repl, next, i - 1);
    assert s[1..][i - 1] == s[i];
    var q := (i - 1) * w;
    ShiftedBlock(repl + [s[0]], rest, repl, s[i], q);
    MulStep(i, w);
    assert i * w == w + q;
  }

  /** A block found at offset `q` of `rest` is found at offset `|head| + q` of
      `head + rest`. */
  lemma ShiftedBlock(head: string, rest: string, block: string, c: char, q: nat)
    requires q + |block| < |rest| && rest[q .. q + |block|] == block && rest[q + |block|] == c
    ensures var r := head + rest;
            |head| + q + |block| < |r| && r[|head| + q .. |head| + q + |block|] == block && r[|head| + q + |block|] == c
  {
    var r := head + rest;
    assert r[|head| + q .. |head| + q + |block|] == rest[q .. q + |block|];
  }

  /** The suffix of `rest` from `q` is the suffix of `head + rest` from
      `|head| + q`. */
  lemma ShiftedTail(head: string, rest: string, q: nat)
    requires q <= |rest|
    ensures |head| + q <= |head + rest| && (head + rest)[|head| + q ..] == rest[q..]
  {
  }

  /** When every match is replaced, the replacement also ends the result. */
  lemma {:induction false} InsertAllEnd(s: string, repl: string, limit: Option<nat>)
    requires Insertions(s, limit) == |s| + 1
    ensures var r, w := InsertAll(s, repl, limit), |repl| + 1;
            |s| * w <= |r| && r[|s| * w ..] == repl
  {
    var r, w := InsertAll(s, repl, limit), |repl| + 1;
    if s == [] {
      assert |s| * w == 0;
      assert r[0..] == repl;
    } else {
      var next := if limit.None? then None else Some(limit.value - 1);
      var rest := InsertAll(s[1..], repl, next);
      InsertAllEnd(s[1..], repl, next);
      assert r == (repl + [s[0]]) + rest;
      var q := (|s| - 1) * w;
      assert |s[1..]| * w == q;
      assert rest[q..] == repl;
      ShiftedTail(repl + [s[0]], rest, q);
      MulStep(|s|, w);
      assert |s| * w == w + q;
    }
  }

  /** When the count stops short, the rest of the text follows untouched. */
  lemma {:induction false} InsertAllRest(s: string, repl: string, n: nat)
    requires n <= |s|
    ensures var r, w := InsertAll(s, repl, Some(n)), |repl| + 1;
            n * w <= |r| && r[n * w ..] == s[n..]
  {
    var r, w := InsertAll(s, repl, Some(n)), |repl| + 1;
    if n == 0 {
      assert n * w == 0;
    } else {
      var rest := InsertAll(s[1..], repl, Some(n - 1));
      InsertAllRest(s[1..], repl, n - 1);
      assert r == (repl + [s[0]]) + rest;
      assert s[1..][n - 1..] == s[n..];
      var q := (n - 1) * w;
      assert rest[q..] == s[n..];
      ShiftedTail(repl + [s[0]], rest, q);
      MulStep(n, w);
      assert n * w == w + q;
    }
  }

  /** `ireplace(text, old, new, count)`: `old` taken literally, matched without
      regard to case, left to right and without overlapping; `count == 0`
      replaces every match. */
  function IReplace(text: string, pat: string, repl: string, count: nat): string {
    var limit := if count == 0 then None else Some(count);
    if pat == [] then InsertAll(text, repl, limit) else IReplaceUpTo(text, pat, repl, limit)
  }

  /** Lower-casing twice is lower-casing once. */
  lemma {:induction false} LowerIdempotent(s: string)
    ensures Lower(Lower(s)) == Lower(s)
  {
    if s != [] {
      LowerIdempotent(s[1..]);
      assert Lower(s)[1..] == Lower(s[1..]);
    }
  }

  /** Only the lower-cased pattern matters to `ireplace`. */
  lemma {:induction false} IReplacePatternCase(s: string, pat: string, repl: string, limit: Option<nat>)
    requires |pat| > 0
    ensures IReplaceUpTo(s, pat, repl, limit) == IReplaceUpTo(s, Lower(pat), repl, limit)
    decreases |s|
  {
    LowerIdempotent(pat);
    if |s| >= |pat| && limit != Some(0) {
      var next := if limit.None? then None else Some(limit.value - 1);
      if IPrefix(s, pat) {
        IReplacePatternCase(s[|pat|..], pat, repl, next);
      } else {
        IReplacePatternCase(s[1..], pat, repl, limit);
      }
    }
  }

  predicate IsLetter(c: char) {
    ('a' <= c <= 'z') || ('A' <= c <= 'Z')
  }

  predicate NoLetters(s: string) {
    forall i :: 0 <= i < |s| ==> !IsLetter(s[i])
  }

  /** A pattern that starts with a letter never matches in a text without
      letters, whatever the case. */
  lemma {:induction false} IReplaceNoLetters(s: string, pat: string, repl: string, limit: Option<nat>)
    requires |pat| > 0 && IsLetter(pat[0]) && NoLetters(s)
    ensures IReplaceUpTo(s, pat, repl, limit) == s
    decreases |s|
  {
    if |s| >= |pat| && limit != Some(0) {
      LowerAt(s[..|pat|], 0);
      LowerAt(pat, 0);
      assert !IPrefix(s, pat);
      IReplaceNoLetters(s[1..], pat, repl, limit);
    }
  }

  /** The same for the literal replacement. */
  lemma ReplaceNoLetters(s: string, pat: string, repl: string)
    requires |pat| > 0 && IsLetter(pat[0]) && NoLetters(s)
    ensures ReplaceAll(s, pat, repl) == s
  {
    forall j: nat | j <= |s| ensures !OccursAt(s, pat, j) {
      if j + |pat| <= |s| {
        assert s[j..j + |pat|][0] == s[j];
      }
    }
    ReplaceAbsent(s, pat, repl);
  }

  // ---------------------------------------------------------------------
  // The clock and the variables

  /** The fields of `time.struct_time` that the expander reads. */
  datatype Clock = Clock(year: int, month: int, day: int, hour: int, minute: int, second: int)

  /** `str(n).zfill(2)`. */
  function Padded(n: int): string {
    ZFill(IntToString(n), 2)
  }

  /** A `%date:FORMAT%` format with the date and time tokens substituted:
      `yyyy` before `yy`; `MM` (month) and `mm` (minute) match case; `yyyy`,
      `yy`, `dd`, `hh` and `ss` do not. */
  function DateFormat(format: string, now: Clock): string {
    var year := IntToString(now.year);
    var v1 := IReplace(format, "yyyy", year, 0);
    var v2 := IReplace(v1, "yy", LastTwo(year), 0);
    var v3 := ReplaceAll(v2, "MM", Padded(now.month));
    var v4 := IReplace(v3, "dd", Padded(now.day), 0);
    var v5 := IReplace(v4, "hh", Padded(now.hour), 0);
    var v6 := ReplaceAll(v5, "mm", Padded(now.minute));
    IReplace(v6, "ss", Padded(now.second), 0)
  }

  /** `get_var_value(name)`: the text for a variable, `None` when it is not
      one. The user variables in `vars` are looked up but never returned, so
      `vars` plays no part. */
  function VarValue(name: string, now: Clock, vars: map<string, string>): Option<string> {
    var key := Lower(name);
    if key == "" then Some("%")
    else if key == "year" then Some(IntToString(now.year))
    else if key == "month" then Some(Padded(now.month))
    else if key == "day" then Some(Padded(now.day))
    else if key == "hour" then Some(Padded(now.hour))
    else if key == "minute" then Some(Padded(now.minute))
    else if key == "second" then Some(Padded(now.second))
    else if StartsWith(key, "date:") then Some(DateFormat(name[5..], now))
    else None
  }

  // ---------------------------------------------------------------------
  // The expander

  /** The loop variables `output` and `next_token_is_var`. */
  datatype ExpandState = ExpandState(output: string, nextIsVar: bool)

  /** How the expander resolves a name: `get_var_value` at a given time. */
  function Resolver(now: Clock, vars: map<string, string>): string -> Option<string> {
    name => VarValue(name, now, vars)
  }

  /** One token of `string.split("%")`. A token may name a variable only
      right after a `%` that did not end a variable, and only if it has no
      space; when it does not, the `%` before it is put back. */
  function ExpandStep(st: ExpandState, token: string, resolve: string -> Option<string>): ExpandState {
    var current := st.nextIsVar && ' ' !in token;
    var lastWasText := st.nextIsVar;
    var value := if current then resolve(token) else None;
    if value.Some? then ExpandState(st.output + value.value, false)
    else ExpandState(st.output + (if lastWasText then "%" else "") + token, true)
  }

  function ExpandTokens(tokens: seq<string>, resolve: string -> Option<string>): ExpandState {
    if tokens == [] then ExpandState("", false)
    else ExpandStep(ExpandTokens(tokens[..|tokens| - 1], resolve), tokens[|tokens| - 1], resolve)
  }

  /** `expand_date_and_vars(s, vars=vars)` at time `now`. */
  function Expand(s: string, now: Clock, vars: map<string, string>): string {
    ExpandTokens(Split(s, "%"), Resolver(now, vars)).output
  }

  /** The expander's loop. */
  method ExpandDateAndVars(s: string, now: Clock, vars: map<string, string>) returns (output: string)
    ensures output == Expand(s, now, vars)
  {
    var tokens := Split(s, "%");
    output := "";
    var nextTokenIsVar := false;
    var i := 0;
    while i < |tokens|
      invariant i <= |tokens|
      invariant ExpandTokens(tokens[..i], Resolver(now, vars)) == ExpandState(output, nextTokenIsVar)
    {
      ExpandTokensNext(tokens, Resolver(now, vars), i);
      var token := tokens[i];
      var currentTokenIsVar := nextTokenIsVar;
      var lastTokenWasText := currentTokenIsVar;
      if ' ' in token {
        currentTokenIsVar := false;
      }
      var varValue := if currentTokenIsVar then VarValue(token, now, vars) else None;
      if varValue.Some? {
        output := output + varValue.value;
        nextTokenIsVar := false;
      } else {
        output := output + (if lastTokenWasText then "%" else "") + token;
        nextTokenIsVar := true;
      }
      i := i + 1;
    }
    assert tokens[..i] == tokens;
  }

  /** Expanding one more token is one more `ExpandStep`. */
  lemma ExpandTokensNext(tokens: seq<string>, resolve: string -> Option<string>, i: nat)
    requires i < |tokens|
    ensures ExpandTokens(tokens[..i + 1], resolve) == ExpandStep(ExpandTokens(tokens[..i], resolve), tokens[i], resolve)
  {
    assert tokens[..i + 1][..i] == tokens[..i];
  }

  // ---------------------------------------------------------------------
  // Splitting on `%`

  predicate NoPercent(s: string) {
    '%' !in s
  }

  lemma NoPercentSplit(s: string)
    requires NoPercent(s)
    ensures Split(s, "%") == [s]
  {
    forall j: nat | j <= |s| ensures !OccursAt(s, "%", j) {
      if j + 1 <= |s| {
        assert s[j..j + 1][0] == s[j];
      }
    }
    SplitOnAbsent(s, "%");
  }

  lemma SplitPercent(a: string, rest: string)
    requires NoPercent(a)
    ensures Split(a + "%" + rest, "%") == [a] + Split(rest, "%")
  {
    var s := a + "%" + rest;
    assert s[|a|..|a| + 1] == "%";
    forall j: nat | j < |a| ensures !OccursAt(s, "%", j) {
      assert s[j..j + 1][0] == a[j];
    }
    IndexOfFirst(s, "%", |a|);
    SplitAt(s, "%", |a|);
    assert s[..|a|] == a && s[|a| + 1..] == rest;
  }

  lemma SplitThree(a: string, t: string, b: string)
    requires NoPercent(a) && NoPercent(t) && NoPercent(b)
    ensures Split(a + "%" + t + "%" + b, "%") == [a, t, b]
  {
    assert a + "%" + t + "%" + b == a + "%" + (t + "%" + b);
    SplitPercent(a, t + "%" + b);
    SplitPercent(t, b);
    NoPercentSplit(b);
  }

  lemma ExpandThree(a: string, t: string, b: string, resolve: string -> Option<string>)
    ensures ExpandTokens([a, t, b], resolve) == Chain(a, t, b, resolve)
  {
    var s1 := ExpandStep(ExpandState("", false), a, resolve);
    assert [a][..0] == [];
    assert ExpandTokens([a], resolve) == s1;
    assert [a, t][..1] == [a];
    var s2 := ExpandStep(s1, t, resolve);
    assert ExpandTokens([a, t], resolve) == s2;
    assert [a, t, b][..2] == [a, t];
  }

  /** A token read as text: after a variable, or at the start. */
  lemma StepText(st: ExpandState, token: string, resolve: string -> Option<string>)
    requires !st.nextIsVar
    ensures ExpandStep(st, token, resolve) == ExpandState(st.output + token, true)
  {
  }

  /** A token after a `%` that names a variable. */
  lemma StepVariable(st: ExpandState, token: string, resolve: string -> Option<string>)
    requires st.nextIsVar && ' ' !in token && resolve(token).Some?
    ensures ExpandStep(st, token, resolve) == ExpandState(st.output + resolve(token).value, false)
  {
  }

  /** A token after a `%` that does not name a variable: the `%` is put back. */
  lemma StepLiteral(st: ExpandState, token: string, resolve: string -> Option<string>)
    requires st.nextIsVar && (' ' in token || resolve(token).None?)
    ensures ExpandStep(st, token, resolve) == ExpandState(st.output + "%" + token, true)
  {
  }

  // ---------------------------------------------------------------------
  // Properties of the expander

  /** One token is copied. */
  lemma OneToken(a: string, resolve: string -> Option<string>)
    ensures ExpandTokens([a], resolve).output == a
  {
    assert [a][..0] == [];
  }

  /** The loop over three tokens, written out. */
  function Chain(a: string, t: string, b: string, resolve: string -> Option<string>): ExpandState {
    ExpandStep(ExpandStep(ExpandStep(ExpandState("", false), a, resolve), t, resolve), b, resolve)
  }

  lemma ChainVariable(a: string, t: string, b: string, resolve: string -> Option<string>)
    requires ' ' !in t && resolve(t).Some?
    ensures Chain(a, t, b, resolve).output == a + resolve(t).value + b
  {
    StepText(ExpandState("", false), a, resolve);
    StepVariable(ExpandState(a, true), t, resolve);
    StepText(ExpandState(a + resolve(t).value, false), b, resolve);
  }

  lemma ChainLiteral(a: string, t: string, b: string, resolve: string -> Option<string>)
    requires ' ' in t || resolve(t).None?
    ensures Chain(a, t, b, resolve).output ==
            if ' ' !in b && resolve(b).Some? then a + "%" + t + resolve(b).value else a + "%" + t + "%" + b
  {
    StepText(ExpandState("", false), a, resolve);
    StepLiteral(ExpandState(a, true), t, resolve);
    var st2 := ExpandState(a + "%" + t, true);
    if ' ' !in b && resolve(b).Some? {
      StepVariable(st2, b, resolve);
    } else {
      StepLiteral(st2, b, resolve);
    }
  }

  /** Three tokens, as `a%t%b` splits: `t` is replaced when it resolves;
      otherwise its `%` signs are kept, unless `b` resolves and takes the
      place of the second one. */
  lemma ThreeTokens(a: string, t: string, b: string, resolve: string -> Option<string>)
    ensures ExpandTokens([a, t, b], resolve).output ==
            if ' ' !in t && resolve(t).Some? then a + resolve(t).value + b
            else if ' ' !in b && resolve(b).Some? then a + "%" + t + resolve(b).value
            else a + "%" + t + "%" + b
  {
    ExpandThree(a, t, b, resolve);
    if ' ' !in t && resolve(t).Some? {
      ChainVariable(a, t, b, resolve);
    } else {
      ChainLiteral(a, t, b, resolve);
    }
  }

  /** Text without `%` comes back unchanged. */
  lemma NoPercentUnchanged(s: string, now: Clock, vars: map<string, string>)
    requires NoPercent(s)
    ensures Expand(s, now, vars) == s
  {
    NoPercentSplit(s);
    OneToken(s, Resolver(now, vars));
  }

  /** `%%` stands for one `%`. */
  lemma PercentEscape(a: string, b: string, now: Clock, vars: map<string, string>)
    requires NoPercent(a) && NoPercent(b)
    ensures Expand(a + "%%" + b, now, vars) == a + "%" + b
  {
    var resolve := Resolver(now, vars);
    assert a + "%%" + b == a + "%" + "" + "%" + b;
    SplitThree(a, "", b);
    assert Lower("") == "";
    assert resolve("") == Some("%");
    ThreeTokens(a, "", b, resolve);
  }

  /** A known variable between two `%` is replaced by its value. */
  lemma VariableReplaced(a: string, name: string, b: string, now: Clock, vars: map<string, string>)
    requires NoPercent(a) && NoPercent(name) && NoPercent(b)
    requires ' ' !in name && VarValue(name, now, vars).Some?
    ensures Expand(a + "%" + name + "%" + b, now, vars) == a + VarValue(name, now, vars).value + b
  {
    var resolve := Resolver(now, vars);
    assert resolve(name) == VarValue(name, now, vars);
    SplitThree(a, name, b);
    ThreeTokens(a, name, b, resolve);
  }

  /** An unknown name, or text with a space, between two `%` is kept with
      both `%` signs, provided what follows the second `%` is not itself
      taken for a variable. */
  lemma LiteralKept(a: string, t: string, b: string, now: Clock, vars: map<string, string>)
    requires NoPercent(a) && NoPercent(t) && NoPercent(b)
    requires ' ' in t || VarValue(t, now, vars).None?
    requires b == [] || ' ' in b || VarValue(b, now, vars).None?
    ensures Expand(a + "%" + t + "%" + b, now, vars) == a + "%" + t + "%" + b
  {
    var resolve := Resolver(now, vars);
    assert resolve(t) == VarValue(t, now, vars);
    assert resolve(b) == VarValue(b, now, vars);
    if b == [] {
      assert Lower(b) == "";
    }
    SplitThree(a, t, b);
    ThreeTokens(a, t, b, resolve);
  }

  /** When a variable follows an unknown name, the `%` between them is
      consumed: `%foo%year` gives `%foo` followed by the year. */
  lemma ClosingPercentConsumed(a: string, t: string, name: string, now: Clock, vars: map<string, string>)
    requires NoPercent(a) && NoPercent(t) && NoPercent(name)
    requires ' ' !in t && VarValue(t, now, vars).None?
    requires ' ' !in name && VarValue(name, now, vars).Some?
    ensures Expand(a + "%" + t + "%" + name, now, vars) == a + "%" + t + VarValue(name, now, vars).value
  {
    var resolve := Resolver(now, vars);
    assert resolve(t) == VarValue(t, now, vars);
    assert resolve(name) == VarValue(name, now, vars);
    SplitThree(a, t, name);
    ThreeTokens(a, t, name, resolve);
  }

  /** The user variables never change the result. */
  lemma VarsIgnored(s: string, now: Clock, vars1: map<string, string>, vars2: map<string, string>)
    ensures Expand(s, now, vars1) == Expand(s, now, vars2)
  {
    var tokens := Split(s, "%");
    TokensIgnoreVars(tokens, now, vars1, vars2);
  }

  lemma {:induction false} TokensIgnoreVars(tokens: seq<string>, now: Clock, vars1: map<string, string>, vars2: map<string, string>)
    ensures ExpandTokens(tokens, Resolver(now, vars1)) == ExpandTokens(tokens, Resolver(now, vars2))
  {
    if tokens != [] {
      TokensIgnoreVars(tokens[..|tokens| - 1], now, vars1, vars2);
      var token := tokens[|tokens| - 1];
      assert VarValue(token, now, vars1) == VarValue(token, now, vars2);
    }
  }

  /** Variable names other than `date:` formats are matched without regard
      to case. */
  lemma NamesFoldCase(name: string, now: Clock, vars: map<string, string>)
    requires !StartsWith(Lower(name), "date:")
    ensures VarValue(name, now, vars) == VarValue(Lower(name), now, vars)
  {
    LowerIdempotent(name);
  }

  /** `str(n)` has no letters, and neither do its padded form or its last two
      characters. */
  lemma NumbersHaveNoLetters(n: int)
    ensures NoLetters(IntToString(n))
    ensures NoLetters(Padded(n))
    ensures NoLetters(LastTwo(IntToString(n)))
  {
    var s := IntToString(n);
    assert forall i :: 0 <= i < |s| ==> IsDigit(s[i]) || s[i] == '-';
    var p := Padded(n);
    assert forall i :: 0 <= i < |p| ==> IsDigit(p[i]) || p[i] == '-';
  }

  /** A number's text between 0 and 99 pads to two digits. */
  lemma PaddedTwoDigits(n: int)
    requires 0 <= n <= 99
    ensures |Padded(n)| == 2 && IsDigits(Padded(n))
  {
    var s := IntToString(n);
    assert |s| <= 2 by {
      if n >= 10 {
        assert NatToString(n) == NatToString(n / 10) + [DigitChar(n % 10)];
      }
    }
  }

  /** The date variables, in any case, and `%%` for a literal `%`. */
  lemma DateVariables(now: Clock, vars: map<string, string>)
    ensures VarValue("year", now, vars) == Some(IntToString(now.year))
    ensures VarValue("Month", now, vars) == Some(Padded(now.month))
    ensures VarValue("DAY", now, vars) == Some(Padded(now.day))
    ensures VarValue("", now, vars) == Some("%")
  {
    assert Lower("Month") == "month";
    assert Lower("DAY") == "day";
    LowerNoUpper("year");
  }

  /** The time-of-day variables. */
  lemma TimeVariables(now: Clock, vars: map<string, string>)
    ensures VarValue("hour", now, vars) == Some(Padded(now.hour))
    ensures VarValue("minute", now, vars) == Some(Padded(now.minute))
    ensures VarValue("second", now, vars) == Some(Padded(now.second))
  {
    HourVariable(now, vars);
    MinuteVariable(now, vars);
    SecondVariable(now, vars);
  }

  lemma HourVariable(now: Clock, vars: map<string, string>)
    ensures VarValue("hour", now, vars) == Some(Padded(now.hour))
  {
    LowerNoUpper("hour");
  }

  lemma MinuteVariable(now: Clock, vars: map<string, string>)
    ensures VarValue("minute", now, vars) == Some(Padded(now.minute))
  {
    LowerNoUpper("minute");
  }

  lemma SecondVariable(now: Clock, vars: map<string, string>)
    ensures VarValue("second", now, vars) == Some(Padded(now.second))
  {
    LowerNoUpper("second");
  }

  /** The later passes of a date format leave a substituted number alone. */
  lemma LaterPassesKeep(s: string, now: Clock)
    requires NoLetters(s)
    ensures IReplace(s, "yy", LastTwo(IntToString(now.year)), 0) == s
    ensures ReplaceAll(s, "MM", Padded(now.month)) == s
    ensures IReplace(s, "dd", Padded(now.day), 0) == s
    ensures IReplace(s, "hh", Padded(now.hour), 0) == s
    ensures ReplaceAll(s, "mm", Padded(now.minute)) == s
    ensures IReplace(s, "ss", Padded(now.second), 0) == s
  {
    IReplaceNoLetters(s, "yy", LastTwo(IntToString(now.year)), None);
    ReplaceNoLetters(s, "MM", Padded(now.month));
    IReplaceNoLetters(s, "dd", Padded(now.day), None);
    IReplaceNoLetters(s, "hh", Padded(now.hour), None);
    ReplaceNoLetters(s, "mm", Padded(now.minute));
    IReplaceNoLetters(s, "ss", Padded(now.second), None);
  }

  /** A two-character text that does not match a two-character pattern
      (up to case) is left as it is. */
  lemma IReplaceMissTwo(s: string, pat: string, repl: string)
    requires |s| == 2 && |pat| == 2 && Lower(s) != Lower(pat)
    ensures IReplace(s, pat, repl, 0) == s
  {
    assert s[..2] == s;
    assert !IPrefix(s, pat);
    assert IReplaceUpTo(s[1..], pat, repl, None) == s[1..];
    assert IReplaceUpTo(s, pat, repl, None) == [s[0]] + IReplaceUpTo(s[1..], pat, repl, None);
    assert [s[0]] + s[1..] == s;
  }

  /** A two-character text that matches a two-character pattern up to case is
      replaced as a whole. */
  lemma IReplaceHitTwo(s: string, pat: string, repl: string)
    requires |s| == 2 && |pat| == 2 && Lower(s) == Lower(pat)
    ensures IReplace(s, pat, repl, 0) == repl
  {
    assert s[..2] == s;
    IReplaceWhole(s, pat, repl);
  }

  /** The same for the literal replacement. */
  lemma ReplaceMissTwo(s: string, pat: string, repl: string)
    requires |s| == 2 && |pat| == 2 && s != pat
    ensures ReplaceAll(s, pat, repl) == s
  {
    assert s[..2] == s;
    assert [s[0]] + s[1..] == s;
  }

  /** A text replaced by itself as the pattern becomes the replacement. */
  lemma ReplaceWhole(s: string, repl: string)
    requires |s| > 0
    ensures ReplaceAll(s, s, repl) == repl
  {
    assert s[..|s|] == s;
    assert s[|s|..] == [];
    assert repl + [] == repl;
  }

  /** A text shorter than the pattern is left as it is. */
  lemma IReplaceShort(s: string, pat: string, repl: string)
    requires |s| < |pat|
    ensures IReplace(s, pat, repl, 0) == s
  {
  }

  /** `lower()` of a two-character text. */
  lemma LowerTwo(a: char, b: char)
    ensures Lower([a, b]) == [LowerChar(a), LowerChar(b)]
  {
    assert [a, b][1..] == [b];
    assert [b][1..] == [];
  }

  /** The passes of a date format, one by one: with the text after each pass
      given, the format expands to the last one. */
  lemma DatePasses(format: string, now: Clock, v1: string, v2: string, v3: string, v4: string,
                   v5: string, v6: string, r: string)
    requires IReplace(format, "yyyy", IntToString(now.year), 0) == v1
    requires IReplace(v1, "yy", LastTwo(IntToString(now.year)), 0) == v2
    requires ReplaceAll(v2, "MM", Padded(now.month)) == v3
    requires IReplace(v3, "dd", Padded(now.day), 0) == v4
    requires IReplace(v4, "hh", Padded(now.hour), 0) == v5
    requires ReplaceAll(v5, "mm", Padded(now.minute)) == v6
    requires IReplace(v6, "ss", Padded(now.second), 0) == r
    ensures DateFormat(format, now) == r
  {
  }

  /** The passes after the one that substituted `n` leave its digits alone. */
  lemma DigitsKept(n: int, now: Clock)
    ensures IReplace(Padded(n), "yy", LastTwo(IntToString(now.year)), 0) == Padded(n)
    ensures ReplaceAll(Padded(n), "MM", Padded(now.month)) == Padded(n)
    ensures IReplace(Padded(n), "dd", Padded(now.day), 0) == Padded(n)
    ensures IReplace(Padded(n), "hh", Padded(now.hour), 0) == Padded(n)
    ensures ReplaceAll(Padded(n), "mm", Padded(now.minute)) == Padded(n)
    ensures IReplace(Padded(n), "ss", Padded(now.second), 0) == Padded(n)
  {
    NumbersHaveNoLetters(n);
    LaterPassesKeep(Padded(n), now);
  }

  /** `%date:yyyy%` is the whole year, not twice its last two digits. */
  lemma DateYear(now: Clock)
    ensures DateFormat("yyyy", now) == IntToString(now.year)
  {
    var year := IntToString(now.year);
    assert IReplace("yyyy", "yyyy", year, 0) == year by {
      ReplaceWholeCase("yyyy", year);
    }
    NumbersHaveNoLetters(now.year);
    LaterPassesKeep(year, now);
    DatePasses("yyyy", now, year, year, year, year, year, year, year);
  }

  /** A text with no upper-case letter, used as its own case-insensitive
      pattern, becomes the replacement. */
  lemma ReplaceWholeCase(s: string, repl: string)
    requires |s| > 0 && Lower(s) == s
    ensures IReplace(s, s, repl, 0) == repl
  {
    assert s[..|s|] == s;
    IReplaceWhole(s, s, repl);
  }

  /** A text that matches the pattern as a whole, up to case, becomes the
      replacement. */
  lemma IReplaceWhole(s: string, pat: string, repl: string)
    requires |pat| > 0 && |s| == |pat| && IPrefix(s, pat)
    ensures IReplace(s, pat, repl, 0) == repl
  {
    var rest := s[|pat|..];
    assert rest == [];
    assert IReplaceUpTo(rest, pat, repl, None) == rest;
    assert IReplaceUpTo(s, pat, repl, None) == repl + IReplaceUpTo(rest, pat, repl, None);
    assert repl + rest == repl;
  }

  /** `%date:MM%` is the month. */
  lemma DateMonth(now: Clock)
    ensures DateFormat("MM", now) == Padded(now.month)
  {
    var f := "MM";
    var month := Padded(now.month);
    LowerTwo('M', 'M');
    LowerTwo('y', 'y');
    IReplaceShort(f, "yyyy", IntToString(now.year));
    IReplaceMissTwo(f, "yy", LastTwo(IntToString(now.year)));
    ReplaceWhole(f, month);
    DigitsKept(now.month, now);
    DatePasses(f, now, f, f, month, month, month, month, month);
  }

  /** `%date:mm%` is the minute: `MM` and `mm` are told apart by case. */
  lemma DateMinute(now: Clock)
    ensures DateFormat("mm", now) == Padded(now.minute)
  {
    var f := "mm";
    var minute := Padded(now.minute);
    LowerTwo('m', 'm');
    LowerTwo('y', 'y');
    LowerTwo('d', 'd');
    LowerTwo('h', 'h');
    IReplaceShort(f, "yyyy", IntToString(now.year));
    IReplaceMissTwo(f, "yy", LastTwo(IntToString(now.year)));
    ReplaceMissTwo(f, "MM", Padded(now.month));
    IReplaceMissTwo(f, "dd", Padded(now.day));
    IReplaceMissTwo(f, "hh", Padded(now.hour));
    ReplaceWhole(f, minute);
    DigitsKept(now.minute, now);
    DatePasses(f, now, f, f, f, f, f, minute, minute);
  }

  /** `%date:DD%` is the day: `dd` matches in any case. */
  lemma DateDay(now: Clock)
    ensures DateFormat("DD", now) == Padded(now.day)
  {
    var f := "DD";
    var day := Padded(now.day);
    LowerTwo('D', 'D');
    LowerTwo('y', 'y');
    LowerTwo('d', 'd');
    IReplaceShort(f, "yyyy", IntToString(now.year));
    IReplaceMissTwo(f, "yy", LastTwo(IntToString(now.year)));
    ReplaceMissTwo(f, "MM", Padded(now.month));
    IReplaceHitTwo(f, "dd", day);
    DigitsKept(now.day, now);
    DatePasses(f, now, f, f, f, day, day, day, day);
  }
}
