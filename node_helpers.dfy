/** nodes/core/node_helpers.py: reading typed inputs from a prompt node and
    finding the text of a prompt by following wires from a sampler node. */
module NodeHelpers {
  import opened Wrappers
  import opened Text
  import opened Json

  /** `get_class_type(node)`: the `class` entry up to the first `" //"`,
      `""` for something that is not a dict. A `class` entry that is not a
      string has no `partition` and raises `AttributeError`. */
  function GetClassType(node: Json): (r: Result<string>)
    ensures r.Ok? ==> !Contains(r.value, " //")
    ensures !node.Object? ==> r == Ok("")
    ensures node.Object? && "class" !in node.fields ==> r == Ok("")
    ensures node.Object? && "class" in node.fields && !node.fields["class"].Str? ==>
              r == Err(AttributeError("partition"))
    ensures node.Object? && "class" in node.fields && node.fields["class"].Str? ==>
              r.Ok? && r.value <= node.fields["class"].s &&
              (r.value == node.fields["class"].s || OccursAt(node.fields["class"].s, " //", |r.value|))
  {
    if !node.Object? then
      assert !OccursAt("", " //", 0);
      Ok("")
    else
      var c := if "class" in node.fields then node.fields["class"] else Str("");
      if c.Str? then
        var before := Before(c.s, " //");
        BeforeIsFree(c.s, " //");
        Ok(before)
      else Err(AttributeError("partition"))
  }

  /** The text before the first occurrence of `sep` does not contain it. */
  lemma BeforeIsFree(s: string, sep: string)
    requires |sep| > 0
    ensures !Contains(Before(s, sep), sep)
  {
    var b := Before(s, sep);
    IndexOfLeast(s, sep);
    forall j: nat | j <= |b| ensures !OccursAt(b, sep, j) {
      if j + |sep| <= |b| {
        assert b[j..j + |sep|] == s[j..j + |sep|];
        if IndexOf(s, sep).None? {
          assert b == s;
        } else {
          var i := IndexOf(s, sep).value;
          assert b == s[..i] && j < i;
          assert !OccursAt(s, sep, j);
        }
      }
    }
  }

  /** The value of an input: `node["inputs"][name]`, or `None`. */
  function Input(node: Json, name: string): Json {
    Get(Get(node, "inputs"), name)
  }

  /** `int(x)` for a number. */
  function NumberToInt(j: Json): int
    requires IsNumber(j)
  {
    match j
    case Int(i) => i
    case Bool(b) => if b then 1 else 0
    case Float(f) => Trunc(f)
  }

  /** `float(x)` for a number. */
  function NumberToReal(j: Json): real
    requires IsNumber(j)
  {
    match j
    case Int(i) => i as real
    case Bool(b) => if b then 1.0 else 0.0
    case Float(f) => f
  }

  /** `str(x)` for a number. */
  function NumberToString(j: Json): string
    requires IsNumber(j)
  {
    match j
    case Int(i) => IntToString(i)
    case Bool(b) => if b then "True" else "False"
    case Float(f) => FloatToString(f)
  }

  /** `get_input_int(node, name, default=default)`. */
  function GetInputInt(node: Json, name: string, default: Json): int {
    var value := Input(node, name);
    if IsNumber(value) then NumberToInt(value)
    else if value.Str? && ParseInt(value.s).Some? then ParseInt(value.s).value
    else if IsNumber(default) then NumberToInt(default)
    else 0
  }

  /** `get_input_float(node, name, default=default)`. */
  function GetInputFloat(node: Json, name: string, default: Json): real {
    var value := Input(node, name);
    if IsNumber(value) then NumberToReal(value)
    else if value.Str? && ParseFloat(value.s).Some? then ParseFloat(value.s).value
    else if IsNumber(default) then NumberToReal(default)
    else 0.0
  }

  /** `get_input_string(node, name, default=default)`. */
  function GetInputString(node: Json, name: string, default: string): string {
    var value := Input(node, name);
    if IsNumber(value) then NumberToString(value)
    else if value.Str? then value.s
    else default
  }

  /** `get_input_node(node, name, nodes=nodes)`: the node at the other end of
      a wire, or `{}`. */
  function GetInputNode(node: Json, name: string, nodes: map<string, Json>): (r: Json)
    ensures r.Object?
    ensures r != EmptyObject ==> exists id :: id in nodes && nodes[id] == r
  {
    var wire := Input(node, name);
    if wire.List? && |wire.items| > 0 && wire.items[0].Str? && wire.items[0].s in nodes &&
       nodes[wire.items[0].s].Object?
    then nodes[wire.items[0].s]
    else EmptyObject
  }

  /** The inputs searched for the prompt text, in order. */
  function TextNames(promptType: string): seq<string> {
    ["text", "text_g", "text_" + promptType, "populated_text"]
  }

  /** The first non-empty text among the given inputs, or `""`. */
  function FirstText(node: Json, names: seq<string>): (r: string)
    ensures r == "" <==> forall k :: 0 <= k < |names| ==> GetInputString(node, names[k], "") == ""
    ensures r != "" ==> exists k :: 0 <= k < |names| && GetInputString(node, names[k], "") == r &&
                                    forall j :: 0 <= j < k ==> GetInputString(node, names[j], "") == ""
  {
    if names == [] then ""
    else
      var text := GetInputString(node, names[0], "");
      if text != "" then text
      else
        var rest := FirstText(node, names[1..]);
        assert forall k :: 0 <= k < |names[1..]| ==> names[1..][k] == names[k + 1];
        assert rest != "" ==> exists k :: 1 <= k < |names| && GetInputString(node, names[k], "") == rest &&
                                         forall j :: 0 <= j < k ==> GetInputString(node, names[j], "") == "";
        rest
  }

  /** Whether `text` is one of the text inputs that `find_prompt` reads. */
  ghost predicate IsTextOf(node: Json, promptType: string, text: string) {
    exists k :: 0 <= k < 4 && GetInputString(node, TextNames(promptType)[k], "") == text
  }

  /** `find_prompt(node, type, nodes=nodes, depth=depth)`. A `type` other than
      `"positive"` or `"negative"` raises `ValueError`, and only at the first
      level for a non-empty dict node; from depth 8 on the answer is `""`,
      so at most eight wires are followed. */
  function FindPrompt(node: Json, promptType: string, nodes: map<string, Json>, depth: nat): (r: Result<string>)
    ensures r.Err? <==> depth == 0 && IsNonEmptyObject(node) && promptType != "positive" && promptType != "negative"
    ensures depth >= 8 ==> r == Ok("")
    decreases if depth < 8 then 8 - depth else 0
  {
    if !IsNonEmptyObject(node) || depth >= 8 then Ok("")
    else if depth == 0 && promptType != "positive" && promptType != "negative" then
      Err(ValueError("Type must be 'positive' or 'negative', not '" + promptType + "'"))
    else
      var promptNode := GetInputNode(node, promptType, nodes);
      if depth == 0 && IsNonEmptyObject(promptNode) then FindPrompt(promptNode, promptType, nodes, depth + 1)
      else
        var classType := if "class_type" in node.fields then node.fields["class_type"] else Str("");
        if classType == Str("ControlNetApply") || classType == Str("FluxGuidance") then
          FindPrompt(GetInputNode(node, "conditioning", nodes), promptType, nodes, depth + 1)
        else
          var textNode := GetInputNode(node, "text", nodes);
          if IsNonEmptyObject(textNode) then FindPrompt(textNode, promptType, nodes, depth + 1)
          else Ok(FirstText(node, TextNames(promptType)))
  }

  // ---------------------------------------------------------------------
  // Properties

  /** A prompt found is the text input of the starting node or of one of the
      nodes of the prompt. */
  lemma {:induction false} FindPromptSource(node: Json, promptType: string, nodes: map<string, Json>, depth: nat)
    ensures var r := FindPrompt(node, promptType, nodes, depth);
            r.Ok? && r.value != "" ==>
              IsTextOf(node, promptType, r.value) ||
              exists id :: id in nodes && IsTextOf(nodes[id], promptType, r.value)
    decreases if depth < 8 then 8 - depth else 0
  {
    var r := FindPrompt(node, promptType, nodes, depth);
    if IsNonEmptyObject(node) && depth < 8 && !(depth == 0 && promptType != "positive" && promptType != "negative") {
      var next := FindPromptNext(node, promptType, nodes, depth);
      if next.Some? {
        FindPromptSource(next.value, promptType, nodes, depth + 1);
        FollowedIsInNodes(next.value, promptType, nodes, r);
      } else {
        var text := FirstText(node, TextNames(promptType));
        if text != "" {
          var k :| 0 <= k < 4 && GetInputString(node, TextNames(promptType)[k], "") == text;
        }
      }
    }
  }

  /** One level of `find_prompt`: either a wire to another node is followed
      (`Some`), or the text inputs of the node itself are read (`None`). */
  lemma FindPromptNext(node: Json, promptType: string, nodes: map<string, Json>, depth: nat)
    returns (next: Option<Json>)
    requires IsNonEmptyObject(node) && depth < 8
    requires !(depth == 0 && promptType != "positive" && promptType != "negative")
    ensures next.Some? ==>
              next.value.Object? &&
              (next.value != EmptyObject ==> exists id :: id in nodes && nodes[id] == next.value) &&
              FindPrompt(node, promptType, nodes, depth) == FindPrompt(next.value, promptType, nodes, depth + 1)
    ensures next.None? ==> FindPrompt(node, promptType, nodes, depth) == Ok(FirstText(node, TextNames(promptType)))
  {
    var promptNode := GetInputNode(node, promptType, nodes);
    if depth == 0 && IsNonEmptyObject(promptNode) {
      next := Some(promptNode);
    } else {
      var classType := if "class_type" in node.fields then node.fields["class_type"] else Str("");
      if classType == Str("ControlNetApply") || classType == Str("FluxGuidance") {
        next := Some(GetInputNode(node, "conditioning", nodes));
      } else {
        var textNode := GetInputNode(node, "text", nodes);
        next := if IsNonEmptyObject(textNode) then Some(textNode) else None;
      }
    }
  }

  /** A node reached through a wire is one of the prompt's nodes, so what is
      found from it satisfies the same description. */
  lemma FollowedIsInNodes(next: Json, promptType: string, nodes: map<string, Json>, r: Result<string>)
    requires next.Object?
    requires next != EmptyObject ==> exists id :: id in nodes && nodes[id] == next
    requires r.Ok? && r.value != "" ==>
               IsTextOf(next, promptType, r.value) ||
               exists id :: id in nodes && IsTextOf(nodes[id], promptType, r.value)
    ensures r.Ok? && r.value != "" && next != EmptyObject ==>
              exists id :: id in nodes && IsTextOf(nodes[id], promptType, r.value)
  {
    if next != EmptyObject {
      var id :| id in nodes && nodes[id] == next;
    }
  }

  /** A wired input (a connection to another node) is not a value: the three
      getters fall back to their defaults. */
  lemma ConnectionGivesDefault(node: Json, name: string, default: Json, defaultText: string)
    requires Input(node, name).List?
    ensures GetInputInt(node, name, default) == (if IsNumber(default) then NumberToInt(default) else 0)
    ensures GetInputFloat(node, name, default) == (if IsNumber(default) then NumberToReal(default) else 0.0)
    ensures GetInputString(node, name, defaultText) == defaultText
  {
  }

  /** An integer input reads the same through the three getters: as itself,
      as the same real, and as text that parses back to it. */
  lemma IntegerInputAgrees(node: Json, name: string, i: int, default: Json, defaultText: string)
    requires Input(node, name) == Int(i)
    ensures GetInputInt(node, name, default) == i
    ensures GetInputFloat(node, name, default) == i as real
    ensures ParseInt(GetInputString(node, name, defaultText)) == Some(i)
  {
    ParseIntRoundTrip(i);
  }

  /** An integer written as text is read back as that integer, both by
      `get_input_int` and by `get_input_float`. */
  lemma TextInputParsed(node: Json, name: string, i: int, default: Json)
    requires Input(node, name) == Str(IntToString(i))
    ensures GetInputInt(node, name, default) == i
    ensures GetInputFloat(node, name, default) == i as real
  {
    ParseIntRoundTrip(i);
    ParseFloatOfInt(i);
  }

  /** A sampler whose `positive` wire leads to a text encoder yields the
      encoder's text. */
  lemma SamplerToEncoder(samplerInputs: map<string, Json>, id: string, text: string, nodes: map<string, Json>)
    requires "positive" in samplerInputs && samplerInputs["positive"] == List([Str(id), Int(0)])
    requires id in nodes && nodes[id] == Object(map["class_type" := Str("CLIPTextEncode"),
                                                     "inputs" := Object(map["text" := Str(text)])])
    ensures FindPrompt(Object(map["inputs" := Object(samplerInputs)]), "positive", nodes, 0) == Ok(text)
  {
    var sampler := Object(map["inputs" := Object(samplerInputs)]);
    var encoder := nodes[id];
    assert GetInputNode(sampler, "positive", nodes) == encoder;
    assert IsNonEmptyObject(encoder) by {
      assert "class_type" in encoder.fields;
    }
    assert GetInputNode(encoder, "text", nodes) == EmptyObject;
    assert GetInputString(encoder, "text", "") == text;
  }
}
