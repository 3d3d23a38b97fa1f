/** The line-oriented style configuration format shared by the three style
    registries (`StyleGroup.from_string` in nodes/lib/style_group.py and in
    nodes/styles/style_group.py, `Styles.from_config` in nodes/styles/base.py).

    A line whose right-stripped text starts with `>>>`, `>::` or `{#`, or a
    first line starting with `#!`, is a marker. A marker closes the pending
    action and becomes the new one; any other line is appended, right-stripped
    and followed by a newline, to the pending content. When a `>>>` action is
    closed, the style it names is emitted with its content stripped. The lib
    and style-group parsers also close the pending action at the end of the
    text (`flush`); `Styles.from_config` does not. */
module StyleConfig {
  import opened Wrappers
  import opened Text

  /** One `add_style(name, template)` call made by the parser. */
  datatype Block = Block(name: string, template: string)

  /** The parser's variables after some lines: the styles emitted so far,
      `action`, `content` and `is_first_line`. */
  datatype ScanState = ScanState(blocks: seq<Block>, action: Option<string>, content: string, first: bool)

  const Initial: ScanState := ScanState([], None, "", true)

  /** Whether `raw` closes the pending action (`first`: it is the first line). */
  predicate IsMarker(raw: string, first: bool) {
    var line := RStrip(raw);
    (first && StartsWith(raw, "#!")) || StartsWith(line, "{#") || StartsWith(line, ">::") ||
    StartsWith(line, ">>>")
  }

  /** Whether an action line defines a style. */
  predicate IsStyleAction(action: string) {
    StartsWith(action, ">>>")
  }

  /** The style emitted when the pending action is closed, if it is a `>>>` one. */
  function Pending(action: Option<string>, content: string): (r: seq<Block>)
    ensures |r| <= 1
    ensures r != [] <==> action.Some? && IsStyleAction(action.value)
  {
    match action
    case Some(a) =>
      if a != [] && IsStyleAction(a) then [Block(Strip(a[3..]), Strip(content))] else []
    case None => []
  }

  /** One iteration of the parser loop. */
  function Step(st: ScanState, raw: string): ScanState {
    var line := RStrip(raw);
    if IsMarker(raw, st.first) then
      ScanState(st.blocks + Pending(st.action, st.content), Some(line), "", false)
    else
      ScanState(st.blocks, st.action, st.content + line + "\n", false)
  }

  /** The parser's variables after the given lines. */
  function ScanLines(lines: seq<string>): (st: ScanState)
    ensures st.first <==> lines == []
  {
    if lines == [] then Initial else Step(ScanLines(lines[..|lines| - 1]), lines[|lines| - 1])
  }

  /** The `add_style` calls made for a whole configuration text. */
  function Blocks(text: string, flush: bool): seq<Block> {
    var st := ScanLines(SplitLines(text));
    st.blocks + (if flush then Pending(st.action, st.content) else [])
  }

  /** The pending content built from lines that are not markers. */
  function ContentOf(body: seq<string>): string {
    if body == [] then "" else ContentOf(body[..|body| - 1]) + RStrip(body[|body| - 1]) + "\n"
  }

  /** The parser loop: the styles found in `text`, in order of appearance. */
  method ScanBlocks(text: string, flush: bool) returns (blocks: seq<Block>)
    ensures blocks == Blocks(text, flush)
  {
    var lines := SplitLines(text);
    var action: Option<string> := None;
    var content := "";
    var isFirstLine := true;
    blocks := [];
    var i := 0;
    while i < |lines|
      invariant i <= |lines|
      invariant ScanLines(lines[..i]) == ScanState(blocks, action, content, isFirstLine)
    {
      blocks, action, content, isFirstLine := ScanLine(blocks, action, content, isFirstLine, lines[i]);
      ScanNext(lines, i);
      i := i + 1;
    }
    assert lines[..i] == lines;
    BlocksAfter(text, flush, ScanState(blocks, action, content, isFirstLine));
    if flush && action.Some? && action.value != [] && IsStyleAction(action.value) {
      blocks := blocks + [Block(Strip(action.value[3..]), Strip(content))];
    }
  }

  /** The styles of a text, given the parser's variables after its last line. */
  lemma BlocksAfter(text: string, flush: bool, st: ScanState)
    requires ScanLines(SplitLines(text)) == st
    ensures Blocks(text, flush) == st.blocks + (if flush then Pending(st.action, st.content) else [])
  {
  }

  /** The body of the parser loop for the line `raw`. */
  method ScanLine(blocks0: seq<Block>, action0: Option<string>, content0: string, isFirstLine0: bool, raw: string)
    returns (blocks: seq<Block>, action: Option<string>, content: string, isFirstLine: bool)
    ensures ScanState(blocks, action, content, isFirstLine) ==
            Step(ScanState(blocks0, action0, content0, isFirstLine0), raw)
  {
    blocks, action, content := blocks0, action0, content0;
    var isShebangLine := isFirstLine0 && StartsWith(raw, "#!");
    isFirstLine := false;
    var line := RStrip(raw);
    if isShebangLine || StartsWith(line, "{#") || StartsWith(line, ">::") || StartsWith(line, ">>>") {
      StepMarker(ScanState(blocks0, action0, content0, isFirstLine0), raw);
      if action.Some? && action.value != [] && IsStyleAction(action.value) {
        blocks := blocks + [Block(Strip(action.value[3..]), Strip(content))];
      }
      action, content := Some(line), "";
    } else {
      StepBody(ScanState(blocks0, action0, content0, isFirstLine0), raw);
      content := content + line + "\n";
    }
  }

  /** The parser's variables after one more line. */
  lemma ScanNext(lines: seq<string>, i: nat)
    requires i < |lines|
    ensures ScanLines(lines[..i + 1]) == Step(ScanLines(lines[..i]), lines[i])
  {
    assert lines[..i + 1][..i] == lines[..i];
  }

  /** A marker line closes the pending action and opens its own. */
  lemma StepMarker(st: ScanState, raw: string)
    requires IsMarker(raw, st.first)
    ensures Step(st, raw) == ScanState(st.blocks + Pending(st.action, st.content), Some(RStrip(raw)), "", false)
  {
  }

  /** Any other line is added to the pending content. */
  lemma StepBody(st: ScanState, raw: string)
    requires !IsMarker(raw, st.first)
    ensures Step(st, raw) == ScanState(st.blocks, st.action, st.content + RStrip(raw) + "\n", false)
  {
  }

  // ---------------------------------------------------------------------
  // The grammar

  /** Lines before the first marker emit nothing and leave no action pending:
      their text is collected but later dropped. */
  lemma {:induction false} Preamble(lines: seq<string>)
    requires forall i :: 0 <= i < |lines| ==> !IsMarker(lines[i], i == 0)
    ensures ScanLines(lines).blocks == [] && ScanLines(lines).action == None
    ensures ScanLines(lines).content == ContentOf(lines)
  {
    if lines != [] {
      Preamble(lines[..|lines| - 1]);
    }
  }

  /** A marker `m` followed by non-marker lines: the marker closes what was
      pending before it, becomes the pending action, and the body lines become
      its content, right-stripped and newline-terminated. */
  lemma {:induction false} Chunk(pre: seq<string>, m: string, body: seq<string>)
    requires IsMarker(m, pre == [])
    requires forall l :: l in body ==> !IsMarker(l, false)
    ensures ScanLines(pre + [m] + body) ==
            ScanState(ScanLines(pre).blocks + Pending(ScanLines(pre).action, ScanLines(pre).content),
                      Some(RStrip(m)), ContentOf(body), false)
    decreases |body|
  {
    if body == [] {
      assert pre + [m] + body == pre + [m];
      ScanAppend(pre, m);
      StepMarker(ScanLines(pre), m);
    } else {
      var shorter := body[..|body| - 1];
      var last := body[|body| - 1];
      Chunk(pre, m, shorter);
      AppendLast(pre + [m], body);
      assert last in body;
      ScanAppend(pre + [m] + shorter, last);
      StepBody(ScanLines(pre + [m] + shorter), last);
    }
  }

  /** Appending a non-empty list is appending all but its last element, then
      that element. */
  lemma AppendLast(front: seq<string>, body: seq<string>)
    requires body != []
    ensures front + body == (front + body[..|body| - 1]) + [body[|body| - 1]]
  {
    assert body == body[..|body| - 1] + [body[|body| - 1]];
  }

  /** The parser's variables after one more line, at the end of a list. */
  lemma ScanAppend(lines: seq<string>, raw: string)
    ensures ScanLines(lines + [raw]) == Step(ScanLines(lines), raw)
  {
    assert (lines + [raw])[..|lines|] == lines;
  }

  /** A configuration made of a marker-free preamble, one `>>>` line and its
      body: with the final flush it defines exactly that style; without it
      (`Styles.from_config`) it defines nothing. */
  lemma SingleStyle(pre: seq<string>, m: string, body: seq<string>)
    requires forall i :: 0 <= i < |pre| ==> !IsMarker(pre[i], i == 0)
    requires IsStyleAction(RStrip(m))
    requires forall l :: l in body ==> !IsMarker(l, false)
    ensures var st := ScanLines(pre + [m] + body);
            st.blocks == [] &&
            st.blocks + Pending(st.action, st.content) == [Block(Strip(RStrip(m)[3..]), Strip(ContentOf(body)))]
  {
    FirstChunk(pre, m, body);
    PendingStyle(RStrip(m), ContentOf(body));
  }

  /** After a marker-free preamble, a `>>>` line and its body, nothing has
      been emitted and that style is pending. */
  lemma FirstChunk(pre: seq<string>, m: string, body: seq<string>)
    requires forall i :: 0 <= i < |pre| ==> !IsMarker(pre[i], i == 0)
    requires IsStyleAction(RStrip(m))
    requires forall l :: l in body ==> !IsMarker(l, false)
    ensures ScanLines(pre + [m] + body) == ScanState([], Some(RStrip(m)), ContentOf(body), false)
  {
    Preamble(pre);
    StyleMarker(m, pre == []);
    Chunk(pre, m, body);
  }

  /** A `>>>` line is a marker wherever it appears. */
  lemma StyleMarker(m: string, first: bool)
    requires IsStyleAction(RStrip(m))
    ensures IsMarker(m, first)
  {
  }

  /** Closing a `>>>` action emits the style it names, with its content. */
  lemma PendingStyle(a: string, content: string)
    requires IsStyleAction(a)
    ensures Pending(Some(a), content) == [Block(Strip(a[3..]), Strip(content))]
  {
  }

  /** The last style of a configuration is emitted only by the final flush:
      without it, the styles are those closed before the last marker. */
  lemma LastStyleNeedsFlush(pre: seq<string>, m: string, body: seq<string>)
    requires IsMarker(m, pre == []) && IsStyleAction(RStrip(m))
    requires forall l :: l in body ==> !IsMarker(l, false)
    ensures var st := ScanLines(pre + [m] + body);
            var closed := ScanLines(pre).blocks + Pending(ScanLines(pre).action, ScanLines(pre).content);
            st.blocks == closed &&
            st.blocks + Pending(st.action, st.content) ==
              closed + [Block(Strip(RStrip(m)[3..]), Strip(ContentOf(body)))]
  {
    Chunk(pre, m, body);
  }

  /** The body of a `{#`, `>::` or `#!` marker is discarded: the next marker
      emits nothing for it. */
  lemma NonStyleBodyDiscarded(pre: seq<string>, m: string, body: seq<string>, next: string)
    requires IsMarker(m, pre == []) && !IsStyleAction(RStrip(m))
    requires forall l :: l in body ==> !IsMarker(l, false)
    requires IsMarker(next, false)
    ensures ScanLines(pre + [m] + body + [next]).blocks ==
            ScanLines(pre).blocks + Pending(ScanLines(pre).action, ScanLines(pre).content)
    ensures ScanLines(pre + [m] + body + [next]).action == Some(RStrip(next))
  {
    Chunk(pre, m, body);
    assert (pre + [m] + body + [next])[..|pre + [m] + body + [next]| - 1] == pre + [m] + body;
  }

  /** The names of emitted styles. */
  function Names(blocks: seq<Block>): (r: seq<string>)
    ensures |r| == |blocks|
    ensures forall i :: 0 <= i < |blocks| ==> r[i] == blocks[i].name
  {
    if blocks == [] then [] else Names(blocks[..|blocks| - 1]) + [blocks[|blocks| - 1].name]
  }

  /** The style names declared by the `>>>` lines, in order: the rest of each
      such line, stripped. */
  function DeclaredNames(lines: seq<string>): seq<string> {
    if lines == [] then []
    else
      var line := RStrip(lines[|lines| - 1]);
      DeclaredNames(lines[..|lines| - 1]) + (if IsStyleAction(line) then [Strip(line[3..])] else [])
  }

  lemma NamesAppend(a: seq<Block>, b: seq<Block>)
    ensures Names(a + b) == Names(a) + Names(b)
    decreases |b|
  {
    if b == [] {
      assert a + b == a;
    } else {
      assert (a + b)[..|a + b| - 1] == a + b[..|b| - 1];
      assert (a + b)[|a + b| - 1] == b[|b| - 1];
      NamesAppend(a, b[..|b| - 1]);
    }
  }

  /** Every `>>>` line yields one style, in order: the emitted names plus the
      name still pending are exactly the declared names. */
  lemma {:induction false} ScanNames(lines: seq<string>)
    ensures var st := ScanLines(lines);
            Names(st.blocks + Pending(st.action, st.content)) == DeclaredNames(lines)
  {
    if lines != [] {
      var prefix := lines[..|lines| - 1];
      var raw := lines[|lines| - 1];
      ScanNames(prefix);
      NamesStep(ScanLines(prefix), raw);
    }
  }

  /** The names emitted or pending after one more line: those before, plus the
      name on the line if it is a `>>>` line. */
  lemma NamesStep(st: ScanState, raw: string)
    ensures var next := Step(st, raw);
            var line := RStrip(raw);
            Names(next.blocks + Pending(next.action, next.content)) ==
            Names(st.blocks + Pending(st.action, st.content)) +
            (if IsStyleAction(line) then [Strip(line[3..])] else [])
  {
    if IsMarker(raw, st.first) {
      NamesMarker(st, raw);
    } else {
      NamesBody(st, raw);
    }
  }

  lemma NamesMarker(st: ScanState, raw: string)
    requires IsMarker(raw, st.first)
    ensures var next := Step(st, raw);
            var line := RStrip(raw);
            Names(next.blocks + Pending(next.action, next.content)) ==
            Names(st.blocks + Pending(st.action, st.content)) +
            (if IsStyleAction(line) then [Strip(line[3..])] else [])
  {
    StepMarker(st, raw);
    NamesAppend(st.blocks + Pending(st.action, st.content), Pending(Some(RStrip(raw)), ""));
  }

  lemma NamesBody(st: ScanState, raw: string)
    requires !IsMarker(raw, st.first)
    ensures var next := Step(st, raw);
            Names(next.blocks + Pending(next.action, next.content)) ==
            Names(st.blocks + Pending(st.action, st.content))
    ensures !IsStyleAction(RStrip(raw))
  {
    var line := RStrip(raw);
    StepBody(st, raw);
    NamesAppend(st.blocks, Pending(st.action, st.content));
    NamesAppend(st.blocks, Pending(st.action, st.content + line + "\n"));
  }

  /** With the final flush, the styles defined are exactly the `>>>` lines. */
  lemma FlushedNames(text: string)
    ensures Names(Blocks(text, true)) == DeclaredNames(SplitLines(text))
  {
    ScanNames(SplitLines(text));
  }

  /** Without the final flush, the last declared style is lost whenever the
      last marker of the text is a `>>>` line. */
  lemma UnflushedNames(text: string)
    ensures var st := ScanLines(SplitLines(text));
            var names := DeclaredNames(SplitLines(text));
            if st.action.Some? && IsStyleAction(st.action.value)
            then names != [] && Names(Blocks(text, false)) == names[..|names| - 1]
            else Names(Blocks(text, false)) == names
  {
    var st := ScanLines(SplitLines(text));
    var pending := Pending(st.action, st.content);
    ScanNames(SplitLines(text));
    NamesAppend(st.blocks, pending);
    assert Blocks(text, false) == st.blocks;
    if pending == [] {
      assert st.blocks + pending == st.blocks;
    } else {
      assert Names(pending) == [pending[0].name];
    }
  }

  /** Without the final flush, the styles of a text whose last marker is a
      `>>>` line are those declared before that line. */
  lemma UnflushedBeforeLast(text: string, pre: seq<string>, m: string, body: seq<string>)
    requires IsStyleAction(RStrip(m))
    requires SplitLines(text) == pre + [m] + body
    requires forall l :: l in body ==> !IsMarker(l, false)
    ensures Names(Blocks(text, false)) == DeclaredNames(pre)
  {
    assert IsMarker(m, pre == []);
    LastStyleNeedsFlush(pre, m, body);
    ScanNames(pre);
  }
}
