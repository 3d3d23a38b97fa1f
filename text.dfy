/** The string operations of Python's `str` that the modelled code relies on:
    stripping, prefix tests, splitting, joining, literal and case-insensitive
    replacement, line splitting, and conversions between numbers and text.

    Python strings are sequences of Unicode code points; here they are
    `string` (a `seq<char>`). Case mapping is limited to ASCII letters. */
module Text {
  import opened Wrappers

  // ---------------------------------------------------------------------
  // Characters

  /** Python's `str.isspace` on one code point. */
  predicate IsSpace(c: char) {
    c == ' ' || ('\t' <= c <= '\r') || ('\U{1C}' <= c <= '\U{1F}') ||
    c == '\U{85}' || c == '\U{A0}' || c == '\U{1680}' ||
    ('\U{2000}' <= c <= '\U{200A}') || c == '\U{2028}' || c == '\U{2029}' ||
    c == '\U{202F}' || c == '\U{205F}' || c == '\U{3000}'
  }

  /** The code points at which Python's `str.splitlines` ends a line. */
  predicate IsLineBreak(c: char) {
    c == '\n' || c == '\r' || c == '\U{0B}' || c == '\U{0C}' ||
    ('\U{1C}' <= c <= '\U{1E}') || c == '\U{85}' || c == '\U{2028}' || c == '\U{2029}'
  }

  predicate IsDigit(c: char) {
    '0' <= c <= '9'
  }

  predicate IsUpper(c: char) {
    'A' <= c <= 'Z'
  }

  function LowerChar(c: char): char {
    if IsUpper(c) then (c as int + 32) as char else c
  }

  /** `s.lower()` restricted to ASCII letters. */
  function Lower(s: string): (r: string)
    ensures |r| == |s|
  {
    if s == [] then [] else [LowerChar(s[0])] + Lower(s[1..])
  }

  /** `s.lower()` maps each character on its own. */
  lemma {:induction false} LowerAt(s: string, i: nat)
    requires i < |s|
    ensures Lower(s)[i] == LowerChar(s[i])
  {
    if i > 0 {
      LowerAt(s[1..], i - 1);
    }
  }

  /** A text without upper-case letters is its own lower case. */
  lemma LowerNoUpper(s: string)
    requires forall i :: 0 <= i < |s| ==> !IsUpper(s[i])
    ensures Lower(s) == s
  {
    forall i | 0 <= i < |s| ensures Lower(s)[i] == s[i] {
      LowerAt(s, i);
    }
  }

  // ---------------------------------------------------------------------
  // Prefixes, suffixes, stripping

  /** `list.remove(x)`: drop the first occurrence of `x`. (Python raises
      `ValueError` for an absent `x`; the registries only remove names they
      hold.) */
  function RemoveFirst<T(==)>(s: seq<T>, x: T): (r: seq<T>)
    ensures x in s ==> |r| == |s| - 1
    ensures x !in s ==> r == s
  {
    if s == [] then [] else if s[0] == x then s[1..] else [s[0]] + RemoveFirst(s[1..], x)
  }

  /** `list.remove(x)` cuts out exactly the first occurrence of `x`: the
      elements before it and after it stay, in their order. */
  lemma {:induction false} RemoveFirstSplits<T>(s: seq<T>, x: T)
    requires x in s
    ensures exists before, after :: s == before + [x] + after && x !in before &&
                                    RemoveFirst(s, x) == before + after
  {
    if s[0] == x {
      assert s == [] + [x] + s[1..] && RemoveFirst(s, x) == [] + s[1..];
    } else {
      assert s == [s[0]] + s[1..];
      RemoveFirstSplits(s[1..], x);
      var before, after :| s[1..] == before + [x] + after && x !in before &&
                           RemoveFirst(s[1..], x) == before + after;
      ConsSplit(s[0], x, before, after);
    }
  }

  /** The step of `RemoveFirstSplits` past a head other than `x`. */
  lemma ConsSplit<T>(h: T, x: T, before: seq<T>, after: seq<T>)
    requires h != x && x !in before
    ensures [h] + (before + [x] + after) == ([h] + before) + [x] + after
    ensures [h] + (before + after) == ([h] + before) + after
    ensures x !in [h] + before
  {
  }

  predicate StartsWith(s: string, prefix: string) {
    prefix <= s
  }

  predicate EndsWith(s: string, suffix: string) {
    |suffix| <= |s| && s[|s| - |suffix|..] == suffix
  }

  /** `s.rstrip()`: the longest prefix of `s` that does not end in white space. */
  function RStrip(s: string): (r: string)
    ensures r <= s
    ensures r == [] || !IsSpace(r[|r| - 1])
    ensures forall i :: |r| <= i < |s| ==> IsSpace(s[i])
  {
    if s != [] && IsSpace(s[|s| - 1]) then RStrip(s[..|s| - 1]) else s
  }

  /** `s.lstrip()`: the longest suffix of `s` that does not start with white space. */
  function LStrip(s: string): (r: string)
    ensures |r| <= |s| && r == s[|s| - |r|..]
    ensures r == [] || !IsSpace(r[0])
    ensures forall i :: 0 <= i < |s| - |r| ==> IsSpace(s[i])
  {
    if s != [] && IsSpace(s[0]) then LStrip(s[1..]) else s
  }

  /** `s.strip()`. */
  function Strip(s: string): string {
    LStrip(RStrip(s))
  }

  /** A string with no white space at either end is its own `strip()`. */
  lemma StripTrimmed(s: string)
    requires s == [] || (!IsSpace(s[0]) && !IsSpace(s[|s| - 1]))
    ensures Strip(s) == s
  {
  }

  // ---------------------------------------------------------------------
  // Searching, splitting, joining

  /** `sub` occurs in `s` starting at index `i`. */
  predicate OccursAt(s: string, sub: string, i: nat) {
    i + |sub| <= |s| && s[i..i + |sub|] == sub
  }

  /** `sub in s`. */
  predicate Contains(s: string, sub: string) {
    exists i: nat :: i <= |s| && OccursAt(s, sub, i)
  }

  /** The occurrences in `s` after index 0 are those in `s[1..]`, shifted by one. */
  lemma OccursShift(s: string, sub: string)
    requires s != []
    ensures forall j: nat :: 1 <= j ==> (OccursAt(s, sub, j) <==> OccursAt(s[1..], sub, j - 1))
  {
    forall j: nat | 1 <= j
      ensures OccursAt(s, sub, j) <==> OccursAt(s[1..], sub, j - 1)
    {
      if j + |sub| <= |s| {
        assert s[1..][j - 1..j - 1 + |sub|] == s[j..j + |sub|];
      }
    }
  }

  /** `s.find(sub)`, as an option: the first index at which `sub` occurs. */
  function IndexOf(s: string, sub: string): (r: Option<nat>)
    ensures r.Some? ==> OccursAt(s, sub, r.value)
    decreases |s|
  {
    if |s| < |sub| then None
    else if s[..|sub|] == sub then
      assert OccursAt(s, sub, 0);
      Some(0)
    else
      var rest := IndexOf(s[1..], sub);
      OccursShift(s, sub);
      if rest.None? then None else Some(rest.value + 1)
  }

  /** `IndexOf` finds the first occurrence, and finds nothing only when there
      is no occurrence at all. */
  lemma {:induction false} IndexOfLeast(s: string, sub: string)
    ensures IndexOf(s, sub).Some? ==> forall j: nat :: j < IndexOf(s, sub).value ==> !OccursAt(s, sub, j)
    ensures IndexOf(s, sub).None? ==> forall j: nat :: !OccursAt(s, sub, j)
    decreases |s|
  {
    if |s| < |sub| {
    } else if s[..|sub|] == sub {
    } else {
      IndexOfLeast(s[1..], sub);
      OccursShift(s, sub);
      assert !OccursAt(s, sub, 0);
    }
  }

  /** `s.find(sub) == -1` exactly when `sub not in s`. */
  lemma IndexOfNone(s: string, sub: string)
    ensures IndexOf(s, sub).None? <==> !Contains(s, sub)
  {
    IndexOfLeast(s, sub);
  }

  /** `s.split(sep)` for a non-empty separator: the pieces between the
      occurrences of `sep`, found left to right without overlapping. */
  function Split(s: string, sep: string): (r: seq<string>)
    requires |sep| > 0
    ensures |r| >= 1
    decreases |s|
  {
    match IndexOf(s, sep)
    case None => [s]
    case Some(i) => [s[..i]] + Split(s[i + |sep|..], sep)
  }

  /** `sep.join(parts)`. */
  function Join(parts: seq<string>, sep: string): string {
    if parts == [] then ""
    else if |parts| == 1 then parts[0]
    else parts[0] + sep + Join(parts[1..], sep)
  }

  /** `s.partition(sep)[0]`: the text before the first occurrence of `sep`. */
  function Before(s: string, sep: string): (r: string)
    requires |sep| > 0
    ensures r <= s
  {
    match IndexOf(s, sep)
    case None => s
    case Some(i) => s[..i]
  }

  /** `sep.join([a] + tail)` for a non-empty `tail`. */
  lemma JoinCons(a: string, tail: seq<string>, sep: string)
    requires tail != []
    ensures Join([a] + tail, sep) == a + sep + Join(tail, sep)
  {
    assert ([a] + tail)[1..] == tail;
  }

  /** Unfolding `Split` at the first occurrence of the separator. */
  lemma SplitAt(s: string, sep: string, i: nat)
    requires |sep| > 0 && IndexOf(s, sep) == Some(i)
    ensures Split(s, sep) == [s[..i]] + Split(s[i + |sep|..], sep)
  {
    assert OccursAt(s, sep, i);
    SplitAtParts(s, sep, i, s[..i], s[i + |sep|..]);
  }

  lemma SplitAtParts(s: string, sep: string, i: nat, head: string, rest: string)
    requires |sep| > 0 && IndexOf(s, sep) == Some(i)
    requires i + |sep| <= |s| && head == s[..i] && rest == s[i + |sep|..]
    ensures Split(s, sep) == [head] + Split(rest, sep)
  {
  }

  /** Joining the pieces of a split with the same separator gives back the string. */
  lemma {:induction false} JoinSplit(s: string, sep: string)
    requires |sep| > 0
    ensures Join(Split(s, sep), sep) == s
    decreases |s|
  {
    match IndexOf(s, sep)
    case None =>
    case Some(i) =>
      var rest := s[i + |sep|..];
      JoinSplit(rest, sep);
      JoinSplitAt(s, sep, sep, i, s[..i], rest);
      Reassemble(s, sep, i, rest);
  }

  /** A string is the text before an occurrence, the occurrence, and the rest. */
  lemma Reassemble(s: string, sub: string, i: nat, rest: string)
    requires OccursAt(s, sub, i) && rest == s[i + |sub|..]
    ensures s == s[..i] + sub + rest
  {
    assert s == s[..i] + s[i..i + |sub|] + rest;
  }

  /** No piece of a split contains the separator. */
  lemma {:induction false} SplitPiecesFree(s: string, sep: string)
    requires |sep| > 0
    ensures forall p :: p in Split(s, sep) ==> !Contains(p, sep)
    decreases |s|
  {
    IndexOfLeast(s, sep);
    match IndexOf(s, sep)
    case None =>
    case Some(i) =>
      SplitPiecesFree(s[i + |sep|..], sep);
      var head := s[..i];
      forall j: nat | j + |sep| <= |head|
        ensures !OccursAt(head, sep, j)
      {
        OccursInPrefix(s, sep, i, j);
      }
  }

  /** An occurrence that ends within a prefix is an occurrence in the whole string. */
  lemma OccursInPrefix(s: string, sub: string, n: nat, j: nat)
    requires j + |sub| <= n <= |s|
    ensures OccursAt(s[..n], sub, j) <==> OccursAt(s, sub, j)
  {
    assert s[..n][j..j + |sub|] == s[j..j + |sub|];
  }

  /** A string in which the separator does not occur splits into itself. */
  lemma {:induction false} SplitOnAbsent(s: string, sep: string)
    requires |sep| > 0 && !Contains(s, sep)
    ensures Split(s, sep) == [s]
  {
    IndexOfNone(s, sep);
  }

  // ---------------------------------------------------------------------
  // Replacement

  /** `s.replace(pat, repl)`: scan left to right; at each position where `pat`
      starts, emit `repl` and continue after it, otherwise copy one character. */
  function ReplaceAll(s: string, pat: string, repl: string): string
    requires |pat| > 0
    decreases |s|
  {
    if |s| < |pat| then s
    else if s[..|pat|] == pat then repl + ReplaceAll(s[|pat|..], pat, repl)
    else [s[0]] + ReplaceAll(s[1..], pat, repl)
  }

  /** Python's identity `s.replace(pat, repl) == repl.join(s.split(pat))`: the
      scanning replacement agrees with split-then-join. */
  lemma {:induction false} ReplaceAllIsJoinSplit(s: string, pat: string, repl: string)
    requires |pat| > 0
    ensures ReplaceAll(s, pat, repl) == Join(Split(s, pat), repl)
    decreases |s|
  {
    if |s| < |pat| {
      assert IndexOf(s, pat).None?;
    } else if s[..|pat|] == pat {
      var rest := s[|pat|..];
      ReplaceAllIsJoinSplit(rest, pat, repl);
      assert IndexOf(s, pat) == Some(0);
      JoinSplitAt(s, pat, repl, 0, [], rest);
      assert [] + repl == repl;
    } else {
      ReplaceAllIsJoinSplit(s[1..], pat, repl);
      ReplaceSkipStep(s, pat, repl);
    }
  }

  /** The step of `ReplaceAllIsJoinSplit` where no occurrence starts at index 0. */
  lemma ReplaceSkipStep(s: string, pat: string, repl: string)
    requires |pat| > 0 && |s| >= |pat| && s[..|pat|] != pat
    requires ReplaceAll(s[1..], pat, repl) == Join(Split(s[1..], pat), repl)
    ensures ReplaceAll(s, pat, repl) == Join(Split(s, pat), repl)
  {
    var t := s[1..];
    assert ReplaceAll(s, pat, repl) == [s[0]] + ReplaceAll(t, pat, repl);
    var found := IndexOf(t, pat);
    assert IndexOf(s, pat) == if found.None? then None else Some(found.value + 1);
    if found.None? {
      SkipNone(s, pat, repl);
    } else {
      SkipSome(s, pat, repl, found.value);
    }
  }

  /** `ReplaceSkipStep` when `pat` does not occur after index 0 either. */
  lemma SkipNone(s: string, pat: string, repl: string)
    requires |pat| > 0 && s != [] && IndexOf(s, pat).None? && IndexOf(s[1..], pat).None?
    ensures Join(Split(s, pat), repl) == [s[0]] + Join(Split(s[1..], pat), repl)
  {
    assert Split(s[1..], pat) == [s[1..]];
    assert Split(s, pat) == [s];
    assert [s[0]] + s[1..] == s;
  }

  /** `ReplaceSkipStep` when the first occurrence of `pat` in `s[1..]` is at `i`. */
  lemma SkipSome(s: string, pat: string, repl: string, i: nat)
    requires |pat| > 0 && s != []
    requires IndexOf(s[1..], pat) == Some(i) && IndexOf(s, pat) == Some(i + 1)
    ensures Join(Split(s, pat), repl) == [s[0]] + Join(Split(s[1..], pat), repl)
  {
    var t := s[1..];
    var rest := s[i + 1 + |pat|..];
    ShiftSlices(s, i, |pat|);
    JoinSplitAt(s, pat, repl, i + 1, s[..i + 1], rest);
    JoinSplitAt(t, pat, repl, i, t[..i], rest);
    ConsAppend(s[0], t[..i], s[..i + 1], repl, Join(Split(rest, pat), repl));
  }

  /** The slices of `s[1..]` in terms of those of `s`. */
  lemma ShiftSlices(s: string, i: nat, k: nat)
    requires i + 1 + k <= |s|
    ensures s[1..][i + k..] == s[i + 1 + k..]
    ensures [s[0]] + s[1..][..i] == s[..i + 1]
  {
  }

  /** Prepending a character commutes with appending two more strings. */
  lemma ConsAppend(c: char, a: string, b: string, x: string, y: string)
    requires [c] + a == b
    ensures [c] + (a + x + y) == b + x + y
  {
  }

  /** `Join(Split(s, pat), repl)` unfolded at the first occurrence of `pat`,
      which separates `head` from `rest`. */
  lemma JoinSplitAt(s: string, pat: string, repl: string, i: nat, head: string, rest: string)
    requires |pat| > 0 && IndexOf(s, pat) == Some(i)
    requires head == s[..i] && rest == s[i + |pat|..]
    ensures Join(Split(s, pat), repl) == head + repl + Join(Split(rest, pat), repl)
  {
    SplitAt(s, pat, i);
    JoinCons(head, Split(rest, pat), repl);
  }

  /** Replacing a string that does not occur changes nothing. */
  lemma ReplaceAbsent(s: string, pat: string, repl: string)
    requires |pat| > 0 && !Contains(s, pat)
    ensures ReplaceAll(s, pat, repl) == s
  {
    ReplaceAllIsJoinSplit(s, pat, repl);
  }

  /** Case-insensitive match of `pat` at the start of `s`. */
  predicate IPrefix(s: string, pat: string) {
    |pat| <= |s| && Lower(s[..|pat|]) == Lower(pat)
  }

  /** `re.sub(re.escape(pat), repl, s, count=..., flags=re.IGNORECASE)`: like
      `ReplaceAll`, but a position matches when it equals `pat` up to case.
      `limit` is the number of replacements still allowed (`None`: unlimited). */
  function IReplaceUpTo(s: string, pat: string, repl: string, limit: Option<nat>): string
    requires |pat| > 0
    decreases |s|
  {
    if |s| < |pat| || limit == Some(0) then s
    else if IPrefix(s, pat) then
      repl + IReplaceUpTo(s[|pat|..], pat, repl, if limit.None? then None else Some(limit.value - 1))
    else [s[0]] + IReplaceUpTo(s[1..], pat, repl, limit)
  }

  /** A pattern with no ASCII letter matches case-insensitively exactly where
      it matches literally. */
  lemma IPrefixLiteral(s: string, pat: string)
    requires forall i :: 0 <= i < |pat| ==> !IsUpper(pat[i]) && !('a' <= pat[i] <= 'z')
    ensures IPrefix(s, pat) <==> (|pat| <= |s| && s[..|pat|] == pat)
  {
    if |pat| <= |s| && Lower(s[..|pat|]) == Lower(pat) {
      forall i | 0 <= i < |pat| ensures s[i] == pat[i] {
        LowerAt(s[..|pat|], i);
        LowerAt(pat, i);
        assert LowerChar(s[i]) == LowerChar(pat[i]);
      }
    }
  }

  /** With no letters in `pat`, the unlimited case-insensitive replacement is
      the literal one. */
  lemma {:induction false} IReplaceLiteral(s: string, pat: string, repl: string)
    requires |pat| > 0
    requires forall i :: 0 <= i < |pat| ==> !IsUpper(pat[i]) && !('a' <= pat[i] <= 'z')
    ensures IReplaceUpTo(s, pat, repl, None) == ReplaceAll(s, pat, repl)
    decreases |s|
  {
    if |s| >= |pat| {
      IPrefixLiteral(s, pat);
      if s[..|pat|] == pat {
        IReplaceLiteral(s[|pat|..], pat, repl);
      } else {
        IReplaceLiteral(s[1..], pat, repl);
      }
    }
  }

  // ---------------------------------------------------------------------
  // Lines

  /** The first index of a line-break code point, if any. */
  function FirstBreak(s: string): (r: Option<nat>)
    ensures r.Some? ==> r.value < |s| && IsLineBreak(s[r.value])
    ensures r.Some? ==> forall j :: 0 <= j < r.value ==> !IsLineBreak(s[j])
    ensures r.None? ==> forall j :: 0 <= j < |s| ==> !IsLineBreak(s[j])
  {
    if s == [] then None
    else if IsLineBreak(s[0]) then Some(0)
    else
      var rest := FirstBreak(s[1..]);
      if rest.None? then None else Some(rest.value + 1)
  }

  /** `s.splitlines()`: lines without their terminators, `\r\n` counting as one
      terminator, and no empty last line after a final terminator. */
  function SplitLines(s: string): (r: seq<string>)
    ensures s == [] <==> r == []
    decreases |s|
  {
    if s == [] then []
    else match FirstBreak(s)
      case None => [s]
      case Some(i) =>
        var width := if s[i] == '\r' && i + 1 < |s| && s[i + 1] == '\n' then 2 else 1;
        [s[..i]] + SplitLines(s[i + width..])
  }

  /** No line of `splitlines` contains a line break. */
  lemma {:induction false} SplitLinesClean(s: string)
    ensures forall l :: l in SplitLines(s) ==> forall j :: 0 <= j < |l| ==> !IsLineBreak(l[j])
    decreases |s|
  {
    if s != [] {
      match FirstBreak(s)
      case None =>
      case Some(i) =>
        var width := if s[i] == '\r' && i + 1 < |s| && s[i + 1] == '\n' then 2 else 1;
        SplitLinesClean(s[i + width..]);
    }
  }

  /** For text whose only line breaks are `\n` and which does not end in one,
      `splitlines()` is `split("\n")`. */
  lemma {:induction false} SplitLinesIsSplit(s: string)
    requires s != [] && s[|s| - 1] != '\n'
    requires forall j :: 0 <= j < |s| ==> IsLineBreak(s[j]) ==> s[j] == '\n'
    ensures SplitLines(s) == Split(s, "\n")
    decreases |s|
  {
    match FirstBreak(s)
    case None =>
      assert !Contains(s, "\n") by {
        forall j: nat | j + 1 <= |s| ensures !OccursAt(s, "\n", j) {
          assert s[j..j + 1] == [s[j]];
        }
      }
      SplitOnAbsent(s, "\n");
    case Some(i) =>
      var rest := s[i + 1..];
      FirstNewline(s, i);
      assert forall j :: 0 <= j < |rest| ==> IsLineBreak(rest[j]) ==> rest[j] == '\n' by {
        forall j | 0 <= j < |rest| ensures rest[j] == s[i + 1 + j] { }
      }
      SplitLinesIsSplit(rest);
      SplitAt(s, "\n", i);
      assert SplitLines(s) == [s[..i]] + SplitLines(rest);
  }

  /** The first line break, when it is a `\n`, is where `split("\n")` cuts. */
  lemma FirstNewline(s: string, i: nat)
    requires FirstBreak(s) == Some(i) && s[i] == '\n'
    ensures IndexOf(s, "\n") == Some(i)
  {
    assert s[i..i + 1] == [s[i]];
    forall j: nat | j < i ensures !OccursAt(s, "\n", j) {
      assert s[j..j + 1] == [s[j]];
    }
    IndexOfFirst(s, "\n", i);
  }

  /** An occurrence with no earlier occurrence is what `IndexOf` finds. */
  lemma IndexOfFirst(s: string, sub: string, i: nat)
    requires OccursAt(s, sub, i)
    requires forall j: nat :: j < i ==> !OccursAt(s, sub, j)
    ensures IndexOf(s, sub) == Some(i)
  {
    IndexOfLeast(s, sub);
  }

  // ---------------------------------------------------------------------
  // Numbers as text

  function DigitChar(d: nat): (c: char)
    requires d < 10
    ensures IsDigit(c)
  {
    ('0' as int + d) as char
  }

  /** `s.isdigit()` for ASCII digits: non-empty and all digits. */
  predicate IsDigits(s: string) {
    |s| > 0 && forall i :: 0 <= i < |s| ==> IsDigit(s[i])
  }

  /** The value of a string of decimal digits (0 for the empty string). */
  function DigitsValue(s: string): nat
    requires forall i :: 0 <= i < |s| ==> IsDigit(s[i])
  {
    if s == [] then 0
    else
      assert IsDigit(s[|s| - 1]);
      DigitsValue(s[..|s| - 1]) * 10 + (s[|s| - 1] as int - '0' as int)
  }

  /** `str(n)` for a natural number. */
  function NatToString(n: nat): (r: string)
    ensures IsDigits(r)
    decreases n
  {
    if n < 10 then [DigitChar(n)] else NatToString(n / 10) + [DigitChar(n % 10)]
  }

  /** Reading back the digits of `str(n)` gives `n`. */
  lemma {:induction false} NatToStringRoundTrip(n: nat)
    ensures DigitsValue(NatToString(n)) == n
    decreases n
  {
    if n >= 10 {
      NatToStringRoundTrip(n / 10);
      var s := NatToString(n);
      assert s[..|s| - 1] == NatToString(n / 10);
    }
  }

  /** `str(n)` is one-to-one. */
  lemma NatToStringInjective(m: nat, n: nat)
    requires NatToString(m) == NatToString(n)
    ensures m == n
  {
    NatToStringRoundTrip(m);
    NatToStringRoundTrip(n);
  }

  /** `str(i)` for any integer. */
  function IntToString(i: int): string {
    if i < 0 then "-" + NatToString(-i) else NatToString(i)
  }

  function Repeat(c: char, n: nat): (r: string)
    ensures |r| == n && forall j :: 0 <= j < n ==> r[j] == c
  {
    seq(n, _ => c)
  }

  /** `s.zfill(width)`: pad with zeros on the left, after a leading sign. */
  function ZFill(s: string, width: nat): (r: string)
    ensures |r| == if |s| >= width then |s| else width
  {
    if |s| >= width then s
    else if s != [] && (s[0] == '+' || s[0] == '-') then [s[0]] + Repeat('0', width - |s|) + s[1..]
    else Repeat('0', width - |s|) + s
  }

  /** `s[-2:]`. */
  function LastTwo(s: string): (r: string)
    ensures |r| == if |s| < 2 then |s| else 2
    ensures EndsWith(s, r)
  {
    if |s| <= 2 then s else s[|s| - 2..]
  }

  /** `int(r)` for a float: truncation toward zero. */
  function Trunc(r: real): (i: int)
    ensures r >= 0.0 ==> 0 <= i && i as real <= r < i as real + 1.0
    ensures r < 0.0 ==> i <= 0 && i as real - 1.0 < r <= i as real
  {
    if r >= 0.0 then r.Floor else -((-r).Floor)
  }

  /** `int(s)` for a string: surrounding white space, an optional sign and
      ASCII decimal digits; `None` where Python raises `ValueError`. */
  function ParseInt(s: string): Option<int> {
    ParseSigned(Strip(s))
  }

  /** `int(t)` for a string `t` with no surrounding white space. */
  function ParseSigned(t: string): Option<int> {
    if t != [] && (t[0] == '+' || t[0] == '-') then
      if IsDigits(t[1..]) then
        Some(if t[0] == '-' then -(DigitsValue(t[1..]) as int) else DigitsValue(t[1..]) as int)
      else None
    else if IsDigits(t) then Some(DigitsValue(t))
    else None
  }

  /** `int(str(i)) == i`. */
  lemma ParseIntRoundTrip(i: int)
    ensures ParseInt(IntToString(i)) == Some(i)
  {
    var s := IntToString(i);
    if i < 0 {
      var d := NatToString(-i);
      NatToStringRoundTrip(-i);
      NegativeTrimmed(d, s);
      SignedNegative(d, s);
    } else {
      var d := NatToString(i);
      NatToStringRoundTrip(i);
      DigitsTrimmed(d);
      assert IsDigit(d[0]);
    }
  }

  /** A string of digits has no white space to strip. */
  lemma DigitsTrimmed(d: string)
    requires IsDigits(d)
    ensures Strip(d) == d
  {
    assert IsDigit(d[0]) && IsDigit(d[|d| - 1]);
    StripTrimmed(d);
  }

  /** A minus sign followed by digits has no white space to strip. */
  lemma NegativeTrimmed(d: string, s: string)
    requires IsDigits(d) && s == "-" + d
    ensures Strip(s) == s
  {
    assert s[|s| - 1] == d[|d| - 1];
    assert IsDigit(d[|d| - 1]);
    StripTrimmed(s);
  }

  /** A minus sign followed by digits is the negated value of the digits. */
  lemma SignedNegative(d: string, s: string)
    requires IsDigits(d) && s == "-" + d
    ensures ParseSigned(s) == Some(-(DigitsValue(d) as int))
  {
    assert s[1..] == d;
  }

  function Pow10(k: nat): (p: nat)
    ensures p >= 1
  {
    if k == 0 then 1 else 10 * Pow10(k - 1)
  }

  /** The value of an unsigned decimal `digits[.digits]`, if `t` is one. */
  function DecimalValue(t: string): Option<real> {
    match IndexOf(t, ".")
    case None => if IsDigits(t) then Some(DigitsValue(t) as real) else None
    case Some(i) =>
      var whole, frac := t[..i], t[i + 1..];
      if (whole != [] || frac != []) &&
         (forall j :: 0 <= j < |whole| ==> IsDigit(whole[j])) &&
         (forall j :: 0 <= j < |frac| ==> IsDigit(frac[j]))
      then Some(DigitsValue(whole) as real + DigitsValue(frac) as real / Pow10(|frac|) as real)
      else None
  }

  /** `float(s)` for a string: surrounding white space, an optional sign and an
      ASCII decimal with an optional fraction; `None` where Python raises. */
  function ParseFloat(s: string): Option<real> {
    ParseSignedDecimal(Strip(s))
  }

  /** `float(t)` for a string `t` with no surrounding white space. */
  function ParseSignedDecimal(t: string): Option<real> {
    if t != [] && (t[0] == '+' || t[0] == '-') then
      match DecimalValue(t[1..])
      case None => None
      case Some(v) => Some(if t[0] == '-' then -v else v)
    else DecimalValue(t)
  }

  /** A string of digits, having no `.`, is a decimal whose value is its digits'. */
  lemma DecimalOfDigits(d: string)
    requires IsDigits(d)
    ensures DecimalValue(d) == Some(DigitsValue(d) as real)
  {
    assert !Contains(d, ".") by {
      forall j: nat | j + 1 <= |d| ensures !OccursAt(d, ".", j) {
        assert d[j..j + 1] == [d[j]];
        assert IsDigit(d[j]);
      }
    }
    IndexOfNone(d, ".");
  }

  /** `float(str(i)) == i` for an integer `i`. */
  lemma ParseFloatOfInt(i: int)
    ensures ParseFloat(IntToString(i)) == Some(i as real)
  {
    var s := IntToString(i);
    if i < 0 {
      var d := NatToString(-i);
      NatToStringRoundTrip(-i);
      NegativeTrimmed(d, s);
      DecimalOfDigits(d);
      assert s[1..] == d;
    } else {
      var d := NatToString(i);
      NatToStringRoundTrip(i);
      DigitsTrimmed(d);
      DecimalOfDigits(d);
      assert IsDigit(d[0]);
    }
  }

  /** The first `n` decimal digits of a fraction `0 <= f < 1`. */
  function FractionDigits(f: real, n: nat): string
    requires 0.0 <= f < 1.0
    decreases n
  {
    if n == 0 then ""
    else
      var d := (f * 10.0).Floor;
      [DigitChar(d)] + FractionDigits(f * 10.0 - d as real, n - 1)
  }

  function DropTrailingZeros(s: string): string {
    if s != [] && s[|s| - 1] == '0' then DropTrailingZeros(s[..|s| - 1]) else s
  }

  /** `str(x)` for a float `x`, rendered from its exact value: integral values
      as `"<int>.0"`, others with up to 17 fractional digits. */
  function FloatToString(r: real): string {
    var sign := if r < 0.0 then "-" else "";
    var a := if r < 0.0 then -r else r;
    var whole := a.Floor;
    var frac := DropTrailingZeros(FractionDigits(a - whole as real, 17));
    sign + NatToString(whole) + "." + (if frac == [] then "0" else frac)
  }
}
