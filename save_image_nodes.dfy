/** The CivitAI metadata nodes of nodes/save_image.py: six template nodes that
    `inject_civitai_nodes` adds to a prompt, numbered past every id in use,
    and that `find_civitai_nodes` recognises in a prompt injected before. */
module SaveImageNodes {
  import opened Wrappers
  import opened Text
  import opened Json
  import NodeHelpers

  // ---------------------------------------------------------------------
  // max_index_from_node_identifier

  function Max(a: nat, b: nat): nat {
    if a < b then b else a
  }

  /** The value of an identifier part, counted only when it is all digits. */
  function PartIndex(part: string): nat {
    if IsDigits(part) then DigitsValue(part) else 0
  }

  /** The largest value among the all-digit parts, or 0. */
  function MaxPartIndex(parts: seq<string>): (m: nat)
    ensures forall i :: 0 <= i < |parts| && IsDigits(parts[i]) ==> DigitsValue(parts[i]) <= m
    ensures m == 0 || exists i :: 0 <= i < |parts| && IsDigits(parts[i]) && DigitsValue(parts[i]) == m
  {
    if parts == [] then 0
    else
      var prev := MaxPartIndex(parts[..|parts| - 1]);
      assert forall i :: 0 <= i < |parts| - 1 ==> parts[..|parts| - 1][i] == parts[i];
      Max(prev, PartIndex(parts[|parts| - 1]))
  }

  /** The index of a node identifier: its `:`-separated parts (a sub-graph
      path such as `"12:5"`) read as numbers, the largest one. */
  function IdIndex(id: string): nat {
    MaxPartIndex(Split(id, ":"))
  }

  /** `max_index_from_node_identifier(identifier)`. */
  method MaxIndexFromIdentifier(identifier: Json) returns (maxIndex: int)
    ensures identifier.Str? ==> maxIndex == IdIndex(identifier.s)
    ensures IsNumber(identifier) ==> maxIndex == NodeHelpers.NumberToInt(identifier)
    ensures !identifier.Str? && !IsNumber(identifier) ==> maxIndex == 0
  {
    if IsNumber(identifier) {
      return NodeHelpers.NumberToInt(identifier);
    }
    if !identifier.Str? {
      return 0;
    }
    var parts := Split(identifier.s, ":");
    var m: nat := 0;
    var i := 0;
    while i < |parts|
      invariant i <= |parts|
      invariant m == MaxPartIndex(parts[..i])
    {
      if IsDigits(parts[i]) {
        m := Max(DigitsValue(parts[i]), m);
      }
      assert parts[..i + 1][..i] == parts[..i];
      i := i + 1;
    }
    assert parts[..i] == parts;
    return m;
  }

  /** Digits contain no `:`. */
  lemma DigitsHaveNoColon(s: string)
    requires IsDigits(s)
    ensures !Contains(s, ":")
  {
    forall i: nat | i <= |s| ensures !OccursAt(s, ":", i) {
      if i + 1 <= |s| {
        assert IsDigit(s[i]);
      }
    }
  }

  /** A plain numeric identifier has its own value as index. */
  lemma DigitsIdIndex(s: string)
    requires IsDigits(s)
    ensures IdIndex(s) == DigitsValue(s)
  {
    DigitsHaveNoColon(s);
    SplitOnAbsent(s, ":");
    assert Split(s, ":")[..0] == [];
  }

  /** The identifier `str(n)` has index `n`. */
  lemma NumberIdIndex(n: nat)
    ensures IdIndex(NatToString(n)) == n
  {
    DigitsIdIndex(NatToString(n));
    NatToStringRoundTrip(n);
  }

  /** The largest index among the given identifiers. */
  function MaxIdIndex(ids: seq<string>): (m: nat)
    ensures forall i :: 0 <= i < |ids| ==> IdIndex(ids[i]) <= m
  {
    if ids == [] then 0
    else
      var prev := MaxIdIndex(ids[..|ids| - 1]);
      assert forall i :: 0 <= i < |ids| - 1 ==> ids[..|ids| - 1][i] == ids[i];
      Max(prev, IdIndex(ids[|ids| - 1]))
  }

  /** The base under which fresh template nodes are numbered. */
  function FreshBase(ids: seq<string>): nat {
    MaxIdIndex(ids) + 100
  }

  // ---------------------------------------------------------------------
  // The template

  const CheckpointName := "z-image_turbo_.safetensors"

  /** `str(base + i)`: the id of template node `$i`. */
  function TemplateId(base: nat, i: nat): string {
    NatToString(base + i)
  }

  /** The ids of the six template nodes, `$1` to `$6` in order. */
  function TemplateIds(base: nat): (r: seq<string>)
    ensures |r| == 6 && forall i :: 0 <= i < 6 ==> r[i] == TemplateId(base, i + 1)
  {
    seq(6, i requires 0 <= i < 6 => TemplateId(base, i + 1))
  }

  /** A wire to output `output` of template node `$i`. */
  function Wire(base: nat, i: nat, output: int): Json {
    List([Str(TemplateId(base, i)), Int(output)])
  }

  function TemplateNode(classType: string, inputs: map<string, Json>, title: string): (r: Json)
    ensures r.Object? && "inputs" in r.fields && r.fields["inputs"] == Object(inputs)
    ensures ClassOf(r) == Str(classType)
  {
    Object(map["inputs" := Object(inputs), "class_type" := Str(classType),
               "_meta" := Object(map["title" := Str(title)])])
  }

  /** The template nodes `$1` to `$6` once renumbered from `base`. */
  function TemplateNodes(base: nat): (r: seq<Json>)
    ensures |r| == 6
  {
    [TextTemplate(base, "CLIP Text Encode (Positive Prompt)"),
     TextTemplate(base, "CLIP Text Encode (Negative Prompt)"),
     LatentTemplate(),
     SamplerTemplate(base),
     LoaderTemplate(),
     GuidanceTemplate(base)]
  }

  /** Template nodes `$1` and `$2`, the text encoders fed by `$5`. */
  function TextTemplate(base: nat, title: string): (r: Json)
    ensures r.Object? && "inputs" in r.fields && r.fields["inputs"].Object?
    ensures ClassOf(r) == Str("CLIPTextEncode")
  {
    TemplateNode("CLIPTextEncode", map["text" := Str(""), "clip" := Wire(base, 5, 1)], title)
  }

  /** Template node `$3`, the empty SD3 latent of 1024 by 1024. */
  function LatentTemplate(): (r: Json)
    ensures r.Object? && "inputs" in r.fields && r.fields["inputs"].Object?
    ensures ClassOf(r) == Str("EmptySD3LatentImage")
  {
    TemplateNode("EmptySD3LatentImage", map["width" := Int(1024), "height" := Int(1024), "batch_size" := Int(1)],
                 "EmptySD3LatentImage")
  }

  /** Template node `$4`, the sampler wired to `$5`, `$6`, `$2` and `$3`. */
  function SamplerTemplate(base: nat): (r: Json)
    ensures r.Object? && "inputs" in r.fields && r.fields["inputs"].Object?
    ensures ClassOf(r) == Str("KSampler")
  {
    TemplateNode("KSampler",
                 map["seed" := Int(550110717236789), "steps" := Int(20), "cfg" := Float(1.0),
                     "sampler_name" := Str("euler"), "scheduler" := Str("simple"), "denoise" := Float(1.0),
                     "model" := Wire(base, 5, 0), "positive" := Wire(base, 6, 0),
                     "negative" := Wire(base, 2, 0), "latent_image" := Wire(base, 3, 0)],
                 "KSampler")
  }

  /** Template node `$5`, the checkpoint loader. */
  function LoaderTemplate(): (r: Json)
    ensures r.Object? && "inputs" in r.fields && r.fields["inputs"].Object?
    ensures ClassOf(r) == Str("CheckpointLoaderSimple")
  {
    TemplateNode("CheckpointLoaderSimple", map["ckpt_name" := Str(CheckpointName)], "Load Checkpoint")
  }

  /** Template node `$6`, the guidance node fed by `$1`. */
  function GuidanceTemplate(base: nat): (r: Json)
    ensures r.Object? && "inputs" in r.fields && r.fields["inputs"].Object?
    ensures ClassOf(r) == Str("FluxGuidance")
  {
    TemplateNode("FluxGuidance", map["guidance" := Float(8.15), "conditioning" := Wire(base, 1, 0)], "FluxGuidance")
  }

  /** The template nodes by id. */
  function TemplateMap(base: nat): (m: map<string, Json>)
    ensures forall k :: k in m <==> k in TemplateIds(base)
    ensures forall i :: 0 <= i < 6 ==> m[TemplateIds(base)[i]] == TemplateNodes(base)[i]
  {
    TemplateIdsDistinct(base);
    map i | 0 <= i < 6 :: TemplateIds(base)[i] := TemplateNodes(base)[i]
  }

  /** The six template ids are distinct, and all have index above `base`. */
  lemma TemplateIdsDistinct(base: nat)
    ensures forall i, j :: 0 <= i < j < 6 ==> TemplateIds(base)[i] != TemplateIds(base)[j]
    ensures forall i :: 0 <= i < 6 ==> IdIndex(TemplateIds(base)[i]) == base + i + 1
  {
    forall i, j | 0 <= i < j < 6 ensures TemplateIds(base)[i] != TemplateIds(base)[j] {
      assert TemplateIds(base)[i] == NatToString(base + i + 1);
      assert TemplateIds(base)[j] == NatToString(base + j + 1);
      if NatToString(base + i + 1) == NatToString(base + j + 1) {
        NatToStringInjective(base + i + 1, base + j + 1);
      }
    }
    forall i | 0 <= i < 6 ensures IdIndex(TemplateIds(base)[i]) == base + i + 1 {
      assert TemplateIds(base)[i] == NatToString(base + i + 1);
      NumberIdIndex(base + i + 1);
    }
  }

  // ---------------------------------------------------------------------
  // find_civitai_nodes

  /** `node.get('inputs', {}).get(key, default)` for a dict `node`: an
      `inputs` entry that is not a dict has no `get`. */
  function InputOr(node: Json, key: string, default: Json): (r: Result<Json>)
    requires node.Object?
    ensures r.Ok? && Get(node, "inputs").Object? ==> r.value == (if key in Get(node, "inputs").fields then Get(node, "inputs").fields[key] else default)
    ensures r.Err? <==> "inputs" in node.fields && !node.fields["inputs"].Object?
  {
    var inputs := if "inputs" in node.fields then node.fields["inputs"] else EmptyObject;
    if !inputs.Object? then Err(AttributeError("get"))
    else Ok(if key in inputs.fields then inputs.fields[key] else default)
  }

  /** A guidance strictly between 8.1 and 8.2. */
  predicate InGuidanceBand(g: Json) {
    IsNumber(g) && 8.1 < NodeHelpers.NumberToReal(g) < 8.2
  }

  /** The entry `id` is the checkpoint loader of an injected template: a
      numeric id above 5, a `CheckpointLoaderSimple` loading the turbo
      checkpoint, followed by a `FluxGuidance` node with a guidance in the
      band at `str(id + 1)`, and with a `CLIPTextEncode` node at
      `str(id - 4)`. */
  ghost predicate MarksInjection(nodes: map<string, Json>, id: string) {
    IsDigits(id) && DigitsValue(id) > 5 &&
    var n := DigitsValue(id);
    var node := NodeAt(nodes, id);
    var next := NodeAt(nodes, NatToString(n + 1));
    var first := NodeAt(nodes, NatToString(n - 4));
    node.Object? && ClassOf(node) == Str("CheckpointLoaderSimple") &&
    InputOr(node, "ckpt_name", Str("")) == Ok(Str(CheckpointName)) &&
    next.Object? && ClassOf(next) == Str("FluxGuidance") &&
    InputOr(next, "guidance", Null).Ok? && InGuidanceBand(InputOr(next, "guidance", Null).value) &&
    first.Object? && ClassOf(first) == Str("CLIPTextEncode")
  }

  /** One iteration of the search in `find_civitai_nodes`: the base index
      when the entry marks an injection, 0 to go on. */
  function BaseAt(nodes: map<string, Json>, id: string): (r: Result<nat>)
    ensures r.Ok? ==> (r.value != 0 <==> MarksInjection(nodes, id))
    ensures r.Ok? && r.value != 0 ==> r.value + 5 == DigitsValue(id)
  {
    if !IsDigits(id) || DigitsValue(id) <= 5 then Ok(0)
    else
      var n := DigitsValue(id);
      var node := NodeAt(nodes, id);
      if !node.Object? || ClassOf(node) != Str("CheckpointLoaderSimple") then Ok(0)
      else
        var ckpt :- InputOr(node, "ckpt_name", Str(""));
        if ckpt != Str(CheckpointName) then Ok(0)
        else
          var next := NodeAt(nodes, NatToString(n + 1));
          if !next.Object? || ClassOf(next) != Str("FluxGuidance") then Ok(0)
          else
            var guidance :- InputOr(next, "guidance", Null);
            if !InGuidanceBand(guidance) then Ok(0)
            else
              var first := NodeAt(nodes, NatToString(n - 4));
              if first.Object? && ClassOf(first) == Str("CLIPTextEncode") then Ok(n - 5) else Ok(0)
  }

  /** The search of `find_civitai_nodes` from position `i` of the ids. */
  function FindFrom(ids: seq<string>, nodes: map<string, Json>, i: nat): (r: Result<nat>)
    ensures r.Ok? && r.value != 0 ==>
              exists k :: i <= k < |ids| && MarksInjection(nodes, ids[k]) && DigitsValue(ids[k]) == r.value + 5
    ensures r == Ok(0) ==> forall k :: i <= k < |ids| ==> !MarksInjection(nodes, ids[k])
    decreases |ids| - i
  {
    if i >= |ids| then Ok(0)
    else
      var b :- BaseAt(nodes, ids[i]);
      if b != 0 then Ok(b) else FindFrom(ids, nodes, i + 1)
  }

  /** `find_civitai_nodes(nodes)`: the base index of the injected nodes found
      first, or 0 when no entry marks an injection. */
  function FindCivitaiNodes(p: Prompt): Result<nat> {
    FindFrom(p.ids, p.nodes, 0)
  }

  // ---------------------------------------------------------------------
  // inject_civitai_nodes

  /** `{**nodes, **extra}`: keys already present keep their place and take
      the new value; the others are appended in the order of `extraIds`. */
  function Merge(p: Prompt, extraIds: seq<string>, extra: map<string, Json>): (r: Prompt)
    requires forall i, j :: 0 <= i < j < |extraIds| ==> extraIds[i] != extraIds[j]
    requires forall k :: k in extra <==> k in extraIds
    ensures r.nodes == p.nodes + extra
    ensures (forall k :: k in extraIds ==> k !in p.nodes) ==> r.ids == p.ids + extraIds
  {
    var added := NewIds(extraIds, p.nodes);
    var r := RawPrompt(p.ids + added, p.nodes + extra);
    forall i, j | 0 <= i < j < |r.ids| ensures r.ids[i] != r.ids[j] {
      if j >= |p.ids| && i < |p.ids| {
        assert r.ids[j] in added;
      }
    }
    r
  }

  /** The ids of `extraIds` that are not keys of `nodes`, in order. */
  function NewIds(extraIds: seq<string>, nodes: map<string, Json>): (r: seq<string>)
    requires forall i, j :: 0 <= i < j < |extraIds| ==> extraIds[i] != extraIds[j]
    ensures forall k :: k in r <==> k in extraIds && k !in nodes
    ensures forall i, j :: 0 <= i < j < |r| ==> r[i] != r[j]
    ensures (forall k :: k in extraIds ==> k !in nodes) ==> r == extraIds
  {
    if extraIds == [] then []
    else
      var rest := NewIds(extraIds[1..], nodes);
      assert forall k :: k in extraIds[1..] ==> k != extraIds[0];
      if extraIds[0] in nodes then rest else [extraIds[0]] + rest
  }

  /** A node whose inputs can be assigned: a dict with an `inputs` dict. */
  ghost predicate Writable(nodes: map<string, Json>, id: string) {
    id in nodes && nodes[id].Object? && "inputs" in nodes[id].fields && nodes[id].fields["inputs"].Object?
  }

  /** `nodes[id]["inputs"][field] = value` for each field of `values`, in
      turn. Only those inputs of that node change; a missing key raises
      `KeyError`, a node or `inputs` entry that is not a dict raises
      `TypeError`. */
  function SetInputs(nodes: map<string, Json>, id: string, values: map<string, Json>): (r: Result<map<string, Json>>)
    ensures r.Ok? <==> Writable(nodes, id)
    ensures r.Ok? ==> r.value.Keys == nodes.Keys && forall k :: Writable(r.value, k) <==> Writable(nodes, k)
    ensures r.Ok? ==> forall k :: k in nodes && k != id ==> r.value[k] == nodes[k]
    ensures r.Ok? ==> Assigned(nodes, r.value, id, values)
  {
    if id !in nodes then Err(KeyError(id))
    else
      var node := nodes[id];
      if !node.Object? then Err(TypeError("not subscriptable"))
      else if "inputs" !in node.fields then Err(KeyError("inputs"))
      else
        var inputs := node.fields["inputs"];
        if !inputs.Object? then Err(TypeError("no item assignment"))
        else Ok(nodes[id := Object(node.fields["inputs" := Object(inputs.fields + values)])])
  }

  /** The arguments of `inject_civitai_nodes`, as Python values. */
  datatype Generation = Generation(positive: Json, negative: Json, seed: Json, steps: Json, cfg: Json,
                                   samplerName: Json, scheduler: Json, width: Json, height: Json)

  /** `str(x) if x is not None else default`. A list or dict, which the
      parameters collected from the prompt never are, falls back to the
      default instead of rendering its repr. */
  function TextArg(x: Json, default: string): string {
    match x
    case Null => default
    case Str(s) => s
    case Int(_) => NodeHelpers.NumberToString(x)
    case Bool(_) => NodeHelpers.NumberToString(x)
    case Float(_) => NodeHelpers.NumberToString(x)
    case _ => default
  }

  /** `int(x) if isinstance(x, (int, float)) else default`. */
  function IntArg(x: Json, default: int): int {
    if IsNumber(x) then NodeHelpers.NumberToInt(x) else default
  }

  /** `float(x) if isinstance(x, (int, float)) else default`. */
  function RealArg(x: Json, default: real): real {
    if IsNumber(x) then NodeHelpers.NumberToReal(x) else default
  }

  /** Template nodes `$1` to `$4` can all be assigned. */
  ghost predicate TemplateWritable(nodes: map<string, Json>, base: nat) {
    Writable(nodes, TemplateId(base, 1)) && Writable(nodes, TemplateId(base, 2)) &&
    Writable(nodes, TemplateId(base, 3)) && Writable(nodes, TemplateId(base, 4))
  }

  /** `str(base + i)` differs for different `i`. */
  lemma TemplateIdInjective(base: nat, i: nat, j: nat)
    requires i != j
    ensures TemplateId(base, i) != TemplateId(base, j)
  {
    if TemplateId(base, i) == TemplateId(base, j) {
      NatToStringInjective(base + i, base + j);
    }
  }

  /** The assignments `nodes[id]["inputs"][field] = value`, in order. */
  function AssignAll(nodes: map<string, Json>, writes: seq<(string, map<string, Json>)>): (r: Result<map<string, Json>>)
    ensures r.Ok? <==> forall i :: 0 <= i < |writes| ==> Writable(nodes, writes[i].0)
    ensures r.Ok? ==> r.value.Keys == nodes.Keys && forall k :: Writable(r.value, k) <==> Writable(nodes, k)
    ensures r.Ok? ==> forall k :: k in nodes && (forall i :: 0 <= i < |writes| ==> writes[i].0 != k) ==> r.value[k] == nodes[k]
  {
    if writes == [] then Ok(nodes)
    else
      var next :- SetInputs(nodes, writes[0].0, writes[0].1);
      var r := AssignAll(next, writes[1..]);
      assert forall i :: 1 <= i < |writes| ==> writes[1..][i - 1] == writes[i];
      r
  }

  /** When the assigned nodes are distinct, each ends up with its own values
      merged into its inputs. */
  lemma {:induction false} AssignAllEffect(nodes: map<string, Json>, writes: seq<(string, map<string, Json>)>, j: nat)
    requires AssignAll(nodes, writes).Ok?
    requires forall i, i' :: 0 <= i < i' < |writes| ==> writes[i].0 != writes[i'].0
    requires j < |writes|
    ensures Assigned(nodes, AssignAll(nodes, writes).value, writes[j].0, writes[j].1)
  {
    if j == 0 {
      AssignFirst(nodes, writes);
    } else {
      var next := SetInputs(nodes, writes[0].0, writes[0].1).value;
      var rest := writes[1..];
      TargetsDistinctTail(writes);
      AssignAllEffect(next, rest, j - 1);
      AssignLater(nodes, writes, j);
    }
  }

  /** Writes to distinct nodes stay so without the first. */
  lemma TargetsDistinctTail(writes: seq<(string, map<string, Json>)>)
    requires writes != []
    requires forall i, i' :: 0 <= i < i' < |writes| ==> writes[i].0 != writes[i'].0
    ensures forall i, i' :: 0 <= i < i' < |writes[1..]| ==> writes[1..][i].0 != writes[1..][i'].0
  {
    var rest := writes[1..];
    forall i, i' | 0 <= i < i' < |rest| ensures rest[i].0 != rest[i'].0 {
      assert rest[i].0 == writes[i + 1].0 && rest[i'].0 == writes[i' + 1].0;
    }
  }

  /** The first write is not undone by the later ones to other nodes. */
  lemma AssignFirst(nodes: map<string, Json>, writes: seq<(string, map<string, Json>)>)
    requires writes != [] && AssignAll(nodes, writes).Ok?
    requires forall i :: 1 <= i < |writes| ==> writes[i].0 != writes[0].0
    ensures Assigned(nodes, AssignAll(nodes, writes).value, writes[0].0, writes[0].1)
  {
    var next := SetInputs(nodes, writes[0].0, writes[0].1).value;
    var r := AssignAll(nodes, writes).value;
    assert r == AssignAll(next, writes[1..]).value;
    forall i | 0 <= i < |writes[1..]| ensures writes[1..][i].0 != writes[0].0 {
      assert writes[1..][i] == writes[i + 1];
    }
    assert r[writes[0].0] == next[writes[0].0];
  }

  /** A later write, seen from the map before the first write to another
      node. */
  lemma AssignLater(nodes: map<string, Json>, writes: seq<(string, map<string, Json>)>, j: nat)
    requires 0 < j < |writes| && AssignAll(nodes, writes).Ok?
    requires writes[0].0 != writes[j].0
    requires var next := SetInputs(nodes, writes[0].0, writes[0].1);
             next.Ok? && AssignAll(next.value, writes[1..]).Ok? &&
             Assigned(next.value, AssignAll(next.value, writes[1..]).value, writes[1..][j - 1].0, writes[1..][j - 1].1)
    ensures Assigned(nodes, AssignAll(nodes, writes).value, writes[j].0, writes[j].1)
  {
    var next := SetInputs(nodes, writes[0].0, writes[0].1).value;
    assert writes[1..][j - 1] == writes[j];
    assert next[writes[j].0] == nodes[writes[j].0];
  }

  /** The writes of `inject_civitai_nodes` into template nodes `$1` to `$4`. */
  function Writes(base: nat, g: Generation): (w: seq<(string, map<string, Json>)>)
    ensures |w| == 4 && forall i :: 0 <= i < 4 ==> w[i].0 == TemplateId(base, i + 1)
  {
    [(TemplateId(base, 1), PositiveInputs(g)), (TemplateId(base, 2), NegativeInputs(g)),
     (TemplateId(base, 3), LatentInputs(g)), (TemplateId(base, 4), SamplerInputs(g))]
  }

  /** The assignments into template nodes `$1` to `$4`: the prompt texts,
      the size, and the sampler settings, each coerced or defaulted. They
      succeed exactly when the four nodes can be assigned, and change no
      other node. */
  function Configure(nodes: map<string, Json>, base: nat, g: Generation): (r: Result<map<string, Json>>)
    ensures r.Ok? <==> TemplateWritable(nodes, base)
    ensures r.Ok? ==> r.value.Keys == nodes.Keys && forall k :: Writable(r.value, k) <==> Writable(nodes, k)
    ensures r.Ok? ==> forall k :: k in nodes && k !in TemplateIds(base)[..4] ==> r.value[k] == nodes[k]
  {
    WritesTargets(nodes, base, g);
    AssignAll(nodes, Writes(base, g))
  }

  /** The writes go to exactly `$1` to `$4`. */
  lemma WritesTargets(nodes: map<string, Json>, base: nat, g: Generation)
    ensures (forall i :: 0 <= i < 4 ==> Writable(nodes, Writes(base, g)[i].0)) <==> TemplateWritable(nodes, base)
    ensures forall k :: k !in TemplateIds(base)[..4] ==> forall i :: 0 <= i < 4 ==> Writes(base, g)[i].0 != k
  {
    var w := Writes(base, g);
    assert w[0].0 == TemplateId(base, 1) && w[1].0 == TemplateId(base, 2);
    assert w[2].0 == TemplateId(base, 3) && w[3].0 == TemplateId(base, 4);
    assert TemplateIds(base)[..4] == [w[0].0, w[1].0, w[2].0, w[3].0];
  }

  /** Each of `$1` to `$4` gets its values merged into its inputs. */
  lemma ConfigureEffect(nodes: map<string, Json>, base: nat, g: Generation)
    requires Configure(nodes, base, g).Ok?
    ensures var r := Configure(nodes, base, g).value;
            Assigned(nodes, r, TemplateId(base, 1), PositiveInputs(g)) &&
            Assigned(nodes, r, TemplateId(base, 2), NegativeInputs(g)) &&
            Assigned(nodes, r, TemplateId(base, 3), LatentInputs(g)) &&
            Assigned(nodes, r, TemplateId(base, 4), SamplerInputs(g))
  {
    var w := Writes(base, g);
    assert Configure(nodes, base, g) == AssignAll(nodes, w);
    WritesShape(base, g);
    AssignAllEffect(nodes, w, 0);
    AssignAllEffect(nodes, w, 1);
    AssignAllEffect(nodes, w, 2);
    AssignAllEffect(nodes, w, 3);
  }

  /** The four writes, in order, to four distinct nodes. */
  lemma WritesShape(base: nat, g: Generation)
    ensures var w := Writes(base, g);
            forall i, i' :: 0 <= i < i' < 4 ==> w[i].0 != w[i'].0
    ensures var w := Writes(base, g);
            w[0] == (TemplateId(base, 1), PositiveInputs(g)) && w[1] == (TemplateId(base, 2), NegativeInputs(g)) &&
            w[2] == (TemplateId(base, 3), LatentInputs(g)) && w[3] == (TemplateId(base, 4), SamplerInputs(g))
  {
    var w := Writes(base, g);
    forall i, i' | 0 <= i < i' < 4 ensures w[i].0 != w[i'].0 {
      TemplateIdInjective(base, i + 1, i' + 1);
    }
  }

  /** What is assigned into `$1`: the positive prompt. */
  function PositiveInputs(g: Generation): map<string, Json> {
    map["text" := Str(TextArg(g.positive, ""))]
  }

  /** What is assigned into `$2`: the negative prompt. */
  function NegativeInputs(g: Generation): map<string, Json> {
    map["text" := Str(TextArg(g.negative, ""))]
  }

  /** What is assigned into `$3`: the image size, 1024 when not a number. */
  function LatentInputs(g: Generation): map<string, Json> {
    map["width" := Int(IntArg(g.width, 1024)), "height" := Int(IntArg(g.height, 1024))]
  }

  /** What is assigned into `$4`: seed 1, 25 steps, cfg 1.0, `"euler"` and
      `"simple"` when the arguments are missing or not numbers. */
  function SamplerInputs(g: Generation): map<string, Json> {
    map["seed" := Int(IntArg(g.seed, 1)), "steps" := Int(IntArg(g.steps, 25)),
        "cfg" := Float(RealArg(g.cfg, 1.0)), "sampler_name" := Str(TextArg(g.samplerName, "euler")),
        "scheduler" := Str(TextArg(g.scheduler, "simple"))]
  }

  /** Node `id` of `after` is node `id` of `before` with `values` written
      into its `inputs` dict, and nothing else about it changed. */
  ghost predicate Assigned(before: map<string, Json>, after: map<string, Json>, id: string, values: map<string, Json>) {
    id in before && id in after &&
    var a := before[id];
    var b := after[id];
    a.Object? && b.Object? && "inputs" in a.fields && "inputs" in b.fields &&
    a.fields["inputs"].Object? && b.fields["inputs"].Object? &&
    b.fields["inputs"].fields == a.fields["inputs"].fields + values &&
    b.fields - {"inputs"} == a.fields - {"inputs"}
  }

  /** The prompt with the template nodes, when none are there yet, and the
      base they are numbered from. */
  datatype Placed = Placed(prompt: Prompt, base: nat)

  /** Where the template nodes are: found, or added under a fresh base. */
  function Place(p: Prompt, found: nat): (r: Placed)
    ensures found != 0 ==> r == Placed(p, found)
    ensures found == 0 ==> r.base == FreshBase(p.ids)
  {
    if found != 0 then Placed(p, found)
    else
      var base := FreshBase(p.ids);
      TemplateIdsDistinct(base);
      Placed(Merge(p, TemplateIds(base), TemplateMap(base)), base)
  }

  /** `inject_civitai_nodes(nodes, ...)`. */
  function Inject(p: Prompt, g: Generation): Result<Prompt> {
    var found :- FindCivitaiNodes(p);
    var placed := Place(p, found);
    var nodes :- Configure(placed.prompt.nodes, placed.base, g);
    Ok(WithNodes(placed.prompt, nodes))
  }

  /** The prompt with new values for the same keys. */
  function WithNodes(p: Prompt, nodes: map<string, Json>): (r: Prompt)
    requires nodes.Keys == p.nodes.Keys
    ensures r.ids == p.ids && r.nodes == nodes
  {
    RawPrompt(p.ids, nodes)
  }

  /** The base index of a fresh template: the largest index among the node
      ids, plus 100. */
  method FreshBaseOf(ids: seq<string>) returns (base: nat)
    ensures base == FreshBase(ids)
  {
    base := 0;
    var i := 0;
    while i < |ids|
      invariant i <= |ids|
      invariant base == MaxIdIndex(ids[..i])
    {
      var index := MaxIndexFromIdentifier(Str(ids[i]));
      base := Max(base, index);
      assert ids[..i + 1][..i] == ids[..i];
      i := i + 1;
    }
    assert ids[..i] == ids;
    base := base + 100;
  }

  /** `inject_civitai_nodes` as the source runs it: a loop over the ids for
      the fresh base, the merge, then the assignments. */
  method InjectCivitaiNodes(p: Prompt, g: Generation) returns (r: Result<Prompt>)
    ensures r == Inject(p, g)
  {
    var found :- FindCivitaiNodes(p);
    var placed: Placed;
    if found == 0 {
      var base := FreshBaseOf(p.ids);
      placed := Placed(Place(p, 0).prompt, base);
    } else {
      placed := Placed(p, found);
    }
    assert placed == Place(p, found);
    var nodes :- Configure(placed.prompt.nodes, placed.base, g);
    return Ok(WithNodes(placed.prompt, nodes));
  }

  // ---------------------------------------------------------------------
  // Properties of the injection

  /** Every template id has a larger index than any id of the prompt, so
      none of them is already a key. */
  lemma NoCollision(p: Prompt)
    ensures forall i, k :: 0 <= i < 6 && k in p.nodes ==> IdIndex(k) < IdIndex(TemplateIds(FreshBase(p.ids))[i])
    ensures forall i :: 0 <= i < 6 ==> TemplateIds(FreshBase(p.ids))[i] !in p.nodes
  {
    var base := FreshBase(p.ids);
    TemplateIdsDistinct(base);
    forall i, k | 0 <= i < 6 && k in p.nodes
      ensures IdIndex(k) < IdIndex(TemplateIds(base)[i])
    {
      var j :| 0 <= j < |p.ids| && p.ids[j] == k;
    }
  }

  /** Placing the template in a prompt without one appends the six ids and
      keeps every entry already there. */
  lemma PlaceFresh(p: Prompt)
    ensures Place(p, 0).base == FreshBase(p.ids)
    ensures Place(p, 0).prompt.ids == p.ids + TemplateIds(FreshBase(p.ids))
    ensures forall k :: k in p.nodes ==> Place(p, 0).prompt.nodes[k] == p.nodes[k]
    ensures Place(p, 0).prompt.nodes == p.nodes + TemplateMap(FreshBase(p.ids))
  {
    var base := FreshBase(p.ids);
    var t := TemplateIds(base);
    var extra := TemplateMap(base);
    NoCollision(p);
    TemplateIdsDistinct(base);
    assert Place(p, 0) == Placed(Merge(p, t, extra), base);
    assert forall k :: k in t ==> k !in p.nodes;
    var nodes := p.nodes + extra;
    forall k | k in p.nodes ensures nodes[k] == p.nodes[k] {
      assert k !in t;
    }
  }

  /** A node map holding the six template nodes can be configured. */
  lemma HoldsTemplateNodesWritable(nodes: map<string, Json>, base: nat)
    requires forall i :: 0 <= i < 6 ==> NodeAt(nodes, TemplateIds(base)[i]) == TemplateNodes(base)[i]
    ensures TemplateWritable(nodes, base)
  {
    var t := TemplateIds(base);
    var templates := TemplateNodes(base);
    assert t[0] == TemplateId(base, 1) && t[1] == TemplateId(base, 2);
    assert t[2] == TemplateId(base, 3) && t[3] == TemplateId(base, 4);
    assert NodeAt(nodes, t[0]) == templates[0] && NodeAt(nodes, t[1]) == templates[1];
    assert NodeAt(nodes, t[2]) == templates[2] && NodeAt(nodes, t[3]) == templates[3];
  }

  /** A node map merged with the template holds the six template nodes
      and, outside them, the entries it had. */
  lemma MergedTemplate(nodes: map<string, Json>, base: nat)
    ensures forall i :: 0 <= i < 6 ==> NodeAt(nodes + TemplateMap(base), TemplateIds(base)[i]) == TemplateNodes(base)[i]
    ensures forall x :: x !in TemplateIds(base) ==> NodeAt(nodes + TemplateMap(base), x) == NodeAt(nodes, x)
  {
    var m := TemplateMap(base);
    var t := TemplateIds(base);
    forall i | 0 <= i < 6 ensures NodeAt(nodes + m, t[i]) == TemplateNodes(base)[i] {
      assert t[i] in m;
    }
    forall x | x !in t ensures NodeAt(nodes + m, x) == NodeAt(nodes, x) {
      assert x !in m;
    }
  }

  /** The template nodes `$1` to `$4` have an `inputs` dict. */
  lemma PlaceFreshWritable(p: Prompt)
    ensures TemplateWritable(Place(p, 0).prompt.nodes, FreshBase(p.ids))
  {
    PlaceFresh(p);
    MergedTemplate(p.nodes, FreshBase(p.ids));
    HoldsTemplateNodesWritable(Place(p, 0).prompt.nodes, FreshBase(p.ids));
  }

  /** Injecting into a prompt that holds no template never fails: the six
      template ids are appended, numbered past every id in use, and the
      entries already there are kept. */
  lemma InjectFresh(p: Prompt, g: Generation)
    requires FindCivitaiNodes(p) == Ok(0)
    ensures Inject(p, g).Ok?
    ensures Inject(p, g).value.ids == p.ids + TemplateIds(FreshBase(p.ids))
    ensures forall k :: k in p.nodes ==> Inject(p, g).value.nodes[k] == p.nodes[k]
  {
    var base := FreshBase(p.ids);
    PlaceFresh(p);
    PlaceFreshWritable(p);
    NoCollision(p);
    var placed := Place(p, 0);
    var nodes := Configure(placed.prompt.nodes, base, g).value;
    forall k | k in p.nodes ensures nodes[k] == p.nodes[k] {
      assert k !in TemplateIds(base)[..4];
    }
  }

  /** Injecting into a prompt that already holds the template adds no key
      and changes no node other than `$1` to `$4`. */
  lemma InjectAgain(p: Prompt, g: Generation)
    requires FindCivitaiNodes(p).Ok? && FindCivitaiNodes(p).value != 0
    requires Inject(p, g).Ok?
    ensures Inject(p, g).value.ids == p.ids
    ensures Inject(p, g).value.nodes.Keys == p.nodes.Keys
    ensures forall k :: k in p.nodes && k !in TemplateIds(FindCivitaiNodes(p).value)[..4] ==>
              Inject(p, g).value.nodes[k] == p.nodes[k]
  {
    var found := FindCivitaiNodes(p).value;
    assert Place(p, found) == Placed(p, found);
    assert Inject(p, g).value == WithNodes(p, Configure(p.nodes, found, g).value);
  }

  /** Where the inputs go: the positive and negative prompts into `$1` and
      `$2`, the size into `$3`, the sampler settings into `$4`, the other
      inputs of those nodes kept. */
  lemma InjectWrites(p: Prompt, g: Generation)
    requires Inject(p, g).Ok?
    ensures var base := Place(p, FindCivitaiNodes(p).value).base;
            var before := Place(p, FindCivitaiNodes(p).value).prompt.nodes;
            var after := Inject(p, g).value.nodes;
            Assigned(before, after, TemplateId(base, 1), PositiveInputs(g)) &&
            Assigned(before, after, TemplateId(base, 2), NegativeInputs(g)) &&
            Assigned(before, after, TemplateId(base, 3), LatentInputs(g)) &&
            Assigned(before, after, TemplateId(base, 4), SamplerInputs(g))
  {
    var placed := Place(p, FindCivitaiNodes(p).value);
    ConfigureEffect(placed.prompt.nodes, placed.base, g);
  }

  /** The first text encoder of the injected template holds the positive
      prompt as text. */
  lemma InjectedPositive(p: Prompt, g: Generation)
    requires Inject(p, g).Ok?
    ensures var base := Place(p, FindCivitaiNodes(p).value).base;
            NodeHelpers.Input(NodeAt(Inject(p, g).value.nodes, TemplateId(base, 1)), "text") == Str(TextArg(g.positive, ""))
  {
    InjectWrites(p, g);
  }

  // ---------------------------------------------------------------------
  // Finding the injected template again

  /** The entries the search reads for `id` (the entry itself and, for a
      numeric id above 5, the entries `str(id + 1)` and `str(id - 4)`) are
      the same in `a` and `b`. */
  ghost predicate SameAround(a: map<string, Json>, b: map<string, Json>, id: string) {
    NodeAt(a, id) == NodeAt(b, id) &&
    (IsDigits(id) && DigitsValue(id) > 5 ==>
       NodeAt(a, NatToString(DigitsValue(id) + 1)) == NodeAt(b, NatToString(DigitsValue(id) + 1)) &&
       NodeAt(a, NatToString(DigitsValue(id) - 4)) == NodeAt(b, NatToString(DigitsValue(id) - 4)))
  }

  /** One step of the search only depends on the entries it reads. */
  lemma BaseAtSame(a: map<string, Json>, b: map<string, Json>, id: string)
    requires SameAround(a, b, id)
    ensures BaseAt(a, id) == BaseAt(b, id)
  {
  }

  /** A search that finds nothing passed every entry with a step of `Ok(0)`. */
  lemma {:induction false} FindFromZeroEach(ids: seq<string>, nodes: map<string, Json>, i: nat)
    requires FindFrom(ids, nodes, i) == Ok(0)
    ensures forall k :: i <= k < |ids| ==> BaseAt(nodes, ids[k]) == Ok(0)
    decreases |ids| - i
  {
    if i < |ids| {
      FindFromZeroEach(ids, nodes, i + 1);
    }
  }

  /** Entries whose step gives `Ok(0)` are passed over by the search. */
  lemma {:induction false} FindFromSkip(ids: seq<string>, nodes: map<string, Json>, i: nat, j: nat)
    requires i <= j <= |ids|
    requires forall k :: i <= k < j ==> BaseAt(nodes, ids[k]) == Ok(0)
    ensures FindFrom(ids, nodes, i) == FindFrom(ids, nodes, j)
    decreases j - i
  {
    if i < j {
      FindFromSkip(ids, nodes, i + 1, j);
    }
  }

  /** Writing into the `inputs` of a node keeps its `class_type`. */
  lemma AssignedKeepsClass(before: map<string, Json>, after: map<string, Json>, id: string, values: map<string, Json>)
    requires Assigned(before, after, id, values)
    ensures after[id].Object? && ClassOf(after[id]) == ClassOf(before[id])
  {
    var a := before[id].fields;
    var b := after[id].fields;
    assert "class_type" in a <==> "class_type" in a - {"inputs"};
    assert "class_type" in b <==> "class_type" in b - {"inputs"};
    if "class_type" in a {
      assert a["class_type"] == (a - {"inputs"})["class_type"];
      assert b["class_type"] == (b - {"inputs"})["class_type"];
    }
  }

  /** Entry `id` is a dict of the same class type as `template`. */
  ghost predicate KeepsClass(nodes: map<string, Json>, id: string, template: Json) {
    NodeAt(nodes, id).Object? && ClassOf(NodeAt(nodes, id)) == ClassOf(template)
  }

  /** Entry `id` is a dict of class type `classType`. */
  ghost predicate HasClass(nodes: map<string, Json>, id: string, classType: string) {
    NodeAt(nodes, id).Object? && ClassOf(NodeAt(nodes, id)) == Str(classType)
  }

  /** The template as a configured injection leaves it: `$5` and `$6` as
      written, `$1` to `$4` dicts of the template's class types. */
  ghost predicate HoldsTemplate(nodes: map<string, Json>, base: nat) {
    var t := TemplateIds(base);
    NodeAt(nodes, t[4]) == LoaderTemplate() && NodeAt(nodes, t[5]) == GuidanceTemplate(base) &&
    HasClass(nodes, t[0], "CLIPTextEncode") && HasClass(nodes, t[1], "CLIPTextEncode") &&
    HasClass(nodes, t[2], "EmptySD3LatentImage") && HasClass(nodes, t[3], "KSampler")
  }

  /** Configuring changes no entry outside `$1` to `$4`. */
  lemma ConfiguredOutside(before: map<string, Json>, base: nat, g: Generation)
    requires Configure(before, base, g).Ok?
    ensures var after := Configure(before, base, g).value;
            forall x :: x !in TemplateIds(base) ==> NodeAt(after, x) == NodeAt(before, x)
    ensures var after := Configure(before, base, g).value;
            NodeAt(after, TemplateIds(base)[4]) == NodeAt(before, TemplateIds(base)[4]) &&
            NodeAt(after, TemplateIds(base)[5]) == NodeAt(before, TemplateIds(base)[5])
  {
    TemplateIdsDistinct(base);
    UnchangedOutside(before, Configure(before, base, g).value, TemplateIds(base));
  }

  /** A map that only differs from `before` at the first four of six
      distinct ids agrees with it everywhere else. */
  lemma UnchangedOutside(before: map<string, Json>, after: map<string, Json>, t: seq<string>)
    requires |t| == 6 && forall i, j :: 0 <= i < j < 6 ==> t[i] != t[j]
    requires after.Keys == before.Keys
    requires forall k :: k in before && k !in t[..4] ==> after[k] == before[k]
    ensures forall x :: x !in t ==> NodeAt(after, x) == NodeAt(before, x)
    ensures NodeAt(after, t[4]) == NodeAt(before, t[4]) && NodeAt(after, t[5]) == NodeAt(before, t[5])
  {
    forall x | x !in t ensures NodeAt(after, x) == NodeAt(before, x) {
      assert x !in t[..4];
    }
    assert t[4] !in t[..4] && t[5] !in t[..4];
  }

  /** Configuring keeps `$1` to `$4` dicts of the same class types. */
  lemma ConfiguredKeepsClasses(before: map<string, Json>, base: nat, g: Generation)
    requires Configure(before, base, g).Ok?
    ensures var after := Configure(before, base, g).value;
            var t := TemplateIds(base);
            KeepsClass(after, t[0], before[t[0]]) && KeepsClass(after, t[1], before[t[1]]) &&
            KeepsClass(after, t[2], before[t[2]]) && KeepsClass(after, t[3], before[t[3]])
  {
    var after := Configure(before, base, g).value;
    var t := TemplateIds(base);
    ConfigureEffect(before, base, g);
    assert t[0] == TemplateId(base, 1) && t[1] == TemplateId(base, 2);
    assert t[2] == TemplateId(base, 3) && t[3] == TemplateId(base, 4);
    AssignedKeepsClass(before, after, t[0], PositiveInputs(g));
    AssignedKeepsClass(before, after, t[1], NegativeInputs(g));
    AssignedKeepsClass(before, after, t[2], LatentInputs(g));
    AssignedKeepsClass(before, after, t[3], SamplerInputs(g));
  }

  /** Configuring a map that holds the template nodes keeps the template
      recognisable and changes no entry outside it. */
  lemma ConfiguredTemplate(before: map<string, Json>, base: nat, g: Generation)
    requires forall i :: 0 <= i < 6 ==> NodeAt(before, TemplateIds(base)[i]) == TemplateNodes(base)[i]
    requires Configure(before, base, g).Ok?
    ensures HoldsTemplate(Configure(before, base, g).value, base)
    ensures forall x :: x !in TemplateIds(base) ==> NodeAt(Configure(before, base, g).value, x) == NodeAt(before, x)
  {
    var t := TemplateIds(base);
    var templates := TemplateNodes(base);
    ConfiguredOutside(before, base, g);
    ConfiguredKeepsClasses(before, base, g);
    assert NodeAt(before, t[0]) == templates[0] && NodeAt(before, t[1]) == templates[1];
    assert NodeAt(before, t[2]) == templates[2] && NodeAt(before, t[3]) == templates[3];
    assert NodeAt(before, t[4]) == templates[4] && NodeAt(before, t[5]) == templates[5];
  }

  /** A fresh injection is the configuration of the prompt merged with the
      template. */
  lemma InjectFreshNodes(p: Prompt, g: Generation)
    requires FindCivitaiNodes(p) == Ok(0)
    ensures Inject(p, g).Ok?
    ensures Configure(p.nodes + TemplateMap(FreshBase(p.ids)), FreshBase(p.ids), g).Ok?
    ensures Inject(p, g).value.nodes == Configure(p.nodes + TemplateMap(FreshBase(p.ids)), FreshBase(p.ids), g).value
  {
    InjectFresh(p, g);
    PlaceFresh(p);
  }

  /** Configuring a node map merged with the template never fails, leaves
      the template recognisable and the entries outside it as they were. */
  lemma ConfiguredMerge(nodes: map<string, Json>, base: nat, g: Generation)
    ensures Configure(nodes + TemplateMap(base), base, g).Ok?
    ensures HoldsTemplate(Configure(nodes + TemplateMap(base), base, g).value, base)
    ensures forall x :: x !in TemplateIds(base) ==>
              NodeAt(Configure(nodes + TemplateMap(base), base, g).value, x) == NodeAt(nodes, x)
  {
    var before := nodes + TemplateMap(base);
    MergedTemplate(nodes, base);
    HoldsTemplateNodesWritable(before, base);
    ConfiguredTemplate(before, base, g);
  }

  /** An id already in the prompt reads, after a fresh injection, the same
      entries as before: every index it looks at is below the base. */
  lemma OldIdUnchanged(p: Prompt, g: Generation, k: nat)
    requires FindCivitaiNodes(p) == Ok(0) && k < |p.ids|
    ensures Inject(p, g).Ok?
    ensures SameAround(Inject(p, g).value.nodes, p.nodes, p.ids[k])
  {
    InjectFreshNodes(p, g);
    ConfiguredMerge(p.nodes, FreshBase(p.ids), g);
    NeighboursOutsideTemplate(p, k);
    AroundOutside(Inject(p, g).value.nodes, p.nodes, p.ids[k], TemplateIds(FreshBase(p.ids)));
  }

  /** An id of the prompt, and the ids one above and four below a numeric
      one, are none of the template's ids. */
  lemma NeighboursOutsideTemplate(p: Prompt, k: nat)
    requires k < |p.ids|
    ensures p.ids[k] !in TemplateIds(FreshBase(p.ids))
    ensures IsDigits(p.ids[k]) && DigitsValue(p.ids[k]) > 5 ==>
              NatToString(DigitsValue(p.ids[k]) + 1) !in TemplateIds(FreshBase(p.ids)) &&
              NatToString(DigitsValue(p.ids[k]) - 4) !in TemplateIds(FreshBase(p.ids))
  {
    var base := FreshBase(p.ids);
    var t := TemplateIds(base);
    var id := p.ids[k];
    TemplateIdsDistinct(base);
    NoCollision(p);
    assert id !in t;
    if IsDigits(id) && DigitsValue(id) > 5 {
      var n := DigitsValue(id);
      DigitsIdIndex(id);
      assert n <= MaxIdIndex(p.ids);
      NumberIdIndex(n + 1);
      NumberIdIndex(n - 4);
      assert NatToString(n + 1) !in t;
      assert NatToString(n - 4) !in t;
    }
  }

  /** Maps that agree outside a set of ids agree around an id whose
      neighbours are outside it. */
  lemma AroundOutside(a: map<string, Json>, b: map<string, Json>, id: string, t: seq<string>)
    requires forall x :: x !in t ==> NodeAt(a, x) == NodeAt(b, x)
    requires id !in t
    requires IsDigits(id) && DigitsValue(id) > 5 ==>
               NatToString(DigitsValue(id) + 1) !in t && NatToString(DigitsValue(id) - 4) !in t
    ensures SameAround(a, b, id)
  {
  }

  /** An entry that is a dict of another class than the checkpoint loader
      is passed over. */
  lemma OtherClassStep(nodes: map<string, Json>, id: string)
    requires NodeAt(nodes, id).Object? && ClassOf(NodeAt(nodes, id)) != Str("CheckpointLoaderSimple")
    ensures BaseAt(nodes, id) == Ok(0)
  {
  }

  /** The checkpoint loader at `str(n)`, with the guidance node after it and
      a text encoder at `str(n - 4)`, marks an injection with base `n - 5`. */
  lemma MarkStep(nodes: map<string, Json>, n: nat)
    requires n > 5
    requires var node := NodeAt(nodes, NatToString(n));
             node.Object? && ClassOf(node) == Str("CheckpointLoaderSimple") &&
             InputOr(node, "ckpt_name", Str("")) == Ok(Str(CheckpointName))
    requires var next := NodeAt(nodes, NatToString(n + 1));
             next.Object? && ClassOf(next) == Str("FluxGuidance") && InputOr(next, "guidance", Null) == Ok(Float(8.15))
    requires var first := NodeAt(nodes, NatToString(n - 4));
             first.Object? && ClassOf(first) == Str("CLIPTextEncode")
    ensures BaseAt(nodes, NatToString(n)) == Ok(n - 5)
  {
    NatToStringRoundTrip(n);
  }

  /** In a map holding the template `$1` to `$4` are passed over and `$5`
      marks the injection with the base it was numbered from. */
  lemma TemplateSteps(nodes: map<string, Json>, base: nat)
    requires base > 0 && HoldsTemplate(nodes, base)
    ensures forall i :: 0 <= i < 4 ==> BaseAt(nodes, TemplateIds(base)[i]) == Ok(0)
    ensures BaseAt(nodes, TemplateIds(base)[4]) == Ok(base)
  {
    TemplatePassed(nodes, base);
    TemplateMarked(nodes, base);
  }

  /** `$1` to `$4` are not checkpoint loaders. */
  lemma TemplatePassed(nodes: map<string, Json>, base: nat)
    requires HoldsTemplate(nodes, base)
    ensures forall i :: 0 <= i < 4 ==> BaseAt(nodes, TemplateIds(base)[i]) == Ok(0)
  {
    var t := TemplateIds(base);
    HeldClasses(nodes, base);
    OtherClassesPassed(nodes, t[..4]);
    assert forall i :: 0 <= i < 4 ==> t[..4][i] == t[i];
  }

  /** In a map holding the template, `$1` to `$4` are dicts of other classes
      than the checkpoint loader. */
  lemma HeldClasses(nodes: map<string, Json>, base: nat)
    requires HoldsTemplate(nodes, base)
    ensures forall i :: 0 <= i < 4 ==>
              NodeAt(nodes, TemplateIds(base)[i]).Object? &&
              ClassOf(NodeAt(nodes, TemplateIds(base)[i])) != Str("CheckpointLoaderSimple")
  {
  }

  /** Entries that are dicts of other classes are all passed over. */
  lemma OtherClassesPassed(nodes: map<string, Json>, ids: seq<string>)
    requires forall i :: 0 <= i < |ids| ==>
               NodeAt(nodes, ids[i]).Object? && ClassOf(NodeAt(nodes, ids[i])) != Str("CheckpointLoaderSimple")
    ensures forall i :: 0 <= i < |ids| ==> BaseAt(nodes, ids[i]) == Ok(0)
  {
    forall i | 0 <= i < |ids| ensures BaseAt(nodes, ids[i]) == Ok(0) {
      OtherClassStep(nodes, ids[i]);
    }
  }

  /** The checkpoint loader and guidance nodes of the template, as written. */
  lemma TemplateMarkers(base: nat)
    ensures LoaderTemplate().Object? && ClassOf(LoaderTemplate()) == Str("CheckpointLoaderSimple")
    ensures InputOr(LoaderTemplate(), "ckpt_name", Str("")) == Ok(Str(CheckpointName))
    ensures GuidanceTemplate(base).Object? && ClassOf(GuidanceTemplate(base)) == Str("FluxGuidance")
    ensures InputOr(GuidanceTemplate(base), "guidance", Null) == Ok(Float(8.15))
  {
  }

  /** `$5` marks the injection with the base the template was numbered from. */
  lemma TemplateMarked(nodes: map<string, Json>, base: nat)
    requires base > 0 && HoldsTemplate(nodes, base)
    ensures BaseAt(nodes, TemplateIds(base)[4]) == Ok(base)
  {
    var t := TemplateIds(base);
    assert t[4] == NatToString(base + 5);
    assert NatToString(base + 5 + 1) == t[5];
    assert NatToString(base + 5 - 4) == t[0];
    TemplateMarkers(base);
    MarkStep(nodes, base + 5);
  }

  /** Appending the template to ids among which nothing marks an injection,
      and whose entries read the same as before, makes the search stop at
      `$5` with the template's base. */
  lemma {:induction false} FoundAfterAppend(ids: seq<string>, before: map<string, Json>, nodes: map<string, Json>, base: nat)
    requires FindFrom(ids, before, 0) == Ok(0)
    requires forall k :: 0 <= k < |ids| ==> SameAround(nodes, before, ids[k])
    requires base > 0 && HoldsTemplate(nodes, base)
    ensures FindFrom(ids + TemplateIds(base), nodes, 0) == Ok(base)
  {
    var t := TemplateIds(base);
    var all := ids + t;
    FindFromZeroEach(ids, before, 0);
    forall k | 0 <= k < |ids| ensures BaseAt(nodes, all[k]) == Ok(0) {
      BaseAtSame(nodes, before, ids[k]);
    }
    FindFromSkip(all, nodes, 0, |ids|);
    TemplateSteps(nodes, base);
    forall k | |ids| <= k < |ids| + 4 ensures BaseAt(nodes, all[k]) == Ok(0) {
      assert all[k] == t[k - |ids|];
    }
    FindFromSkip(all, nodes, |ids|, |ids| + 4);
    assert all[|ids| + 4] == t[4];
  }

  /** After a fresh injection `find_civitai_nodes` finds the template that
      was added, at the base it was numbered from: a second injection
      reuses it instead of adding another. */
  lemma InjectedIsFound(p: Prompt, g: Generation)
    requires FindCivitaiNodes(p) == Ok(0)
    ensures Inject(p, g).Ok?
    ensures FindCivitaiNodes(Inject(p, g).value) == Ok(FreshBase(p.ids))
  {
    InjectedHolds(p, g);
    InjectedAround(p, g);
    var q := Inject(p, g).value;
    FoundAfterAppend(p.ids, p.nodes, q.nodes, FreshBase(p.ids));
  }

  /** A fresh injection appends the template ids and leaves the template
      recognisable. */
  lemma InjectedHolds(p: Prompt, g: Generation)
    requires FindCivitaiNodes(p) == Ok(0)
    ensures Inject(p, g).Ok?
    ensures Inject(p, g).value.ids == p.ids + TemplateIds(FreshBase(p.ids))
    ensures HoldsTemplate(Inject(p, g).value.nodes, FreshBase(p.ids))
  {
    InjectFresh(p, g);
    InjectFreshNodes(p, g);
    ConfiguredMerge(p.nodes, FreshBase(p.ids), g);
  }

  /** After a fresh injection every old id reads the entries it read before. */
  lemma InjectedAround(p: Prompt, g: Generation)
    requires FindCivitaiNodes(p) == Ok(0)
    ensures Inject(p, g).Ok?
    ensures forall k :: 0 <= k < |p.ids| ==> SameAround(Inject(p, g).value.nodes, p.nodes, p.ids[k])
  {
    InjectFresh(p, g);
    forall k | 0 <= k < |p.ids| ensures SameAround(Inject(p, g).value.nodes, p.nodes, p.ids[k]) {
      OldIdUnchanged(p, g, k);
    }
  }

  /** Injecting into a prompt injected before succeeds and adds no node: the
      same ids, the same keys, only the inputs of `$1` to `$4` rewritten. */
  lemma InjectTwice(p: Prompt, g: Generation, g2: Generation)
    requires FindCivitaiNodes(p) == Ok(0)
    ensures Inject(p, g).Ok?
    ensures Inject(Inject(p, g).value, g2).Ok?
    ensures Inject(Inject(p, g).value, g2).value.ids == Inject(p, g).value.ids
    ensures Inject(Inject(p, g).value, g2).value.nodes.Keys == Inject(p, g).value.nodes.Keys
  {
    InjectedIsFound(p, g);
    InjectedWritable(p, g);
    var q := Inject(p, g).value;
    ReinjectOk(q, FreshBase(p.ids), g2);
    InjectAgain(q, g2);
  }

  /** After a first injection the four rewritten nodes of the template can
      be rewritten again. */
  lemma InjectedWritable(p: Prompt, g: Generation)
    requires FindCivitaiNodes(p) == Ok(0)
    ensures Inject(p, g).Ok?
    ensures TemplateWritable(Inject(p, g).value.nodes, FreshBase(p.ids))
  {
    InjectFreshNodes(p, g);
    var base := FreshBase(p.ids);
    var before := p.nodes + TemplateMap(base);
    assert TemplateWritable(before, base);
  }

  /** A prompt whose template is found and writable can be injected into. */
  lemma ReinjectOk(q: Prompt, base: nat, g: Generation)
    requires base != 0 && FindCivitaiNodes(q) == Ok(base) && TemplateWritable(q.nodes, base)
    ensures Inject(q, g).Ok?
  {
    assert Place(q, base) == Placed(q, base);
    assert Configure(q.nodes, base, g).Ok?;
  }
}
