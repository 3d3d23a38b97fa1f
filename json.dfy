/** The JSON-like values of a ComfyUI prompt: the node map the backend
    receives, whose nodes are dicts with a `class_type`, an `inputs` dict and
    `_meta`. An input is a literal value or a wire `[node_id, output_index]`. */
module Json {

  /** A Python value decoded from JSON. `Bool` is kept apart from `Int`, but
      the helpers treat it as a number, as `isinstance(True, int)` holds. */
  datatype Json =
    | Null
    | Bool(b: bool)
    | Int(i: int)
    | Float(f: real)
    | Str(s: string)
    | List(items: seq<Json>)
    | Object(fields: map<string, Json>)

  const EmptyObject: Json := Object(map[])

  /** `x.get(key) if isinstance(x, dict) else None`. */
  function Get(j: Json, key: string): (r: Json)
    ensures !j.Object? ==> r == Null
  {
    if j.Object? && key in j.fields then j.fields[key] else Null
  }

  /** `isinstance(x, (int, float))`. */
  predicate IsNumber(j: Json) {
    j.Int? || j.Float? || j.Bool?
  }

  /** Python truthiness: `None`, `False`, zero, and empty text, lists and
      dicts are false. */
  predicate Truthy(j: Json) {
    match j
    case Null => false
    case Bool(b) => b
    case Int(i) => i != 0
    case Float(f) => f != 0.0
    case Str(s) => s != ""
    case List(items) => items != []
    case Object(fields) => fields != map[]
  }

  /** `nodes.get(id)`: the entry, or `None`. */
  function NodeAt(nodes: map<string, Json>, id: string): (r: Json)
    ensures id !in nodes ==> r == Null
  {
    if id in nodes then nodes[id] else Null
  }

  /** `node.get("class_type", "")` for a dict, `""` for anything else. */
  function ClassOf(node: Json): Json {
    if node.Object? && "class_type" in node.fields then node.fields["class_type"] else Str("")
  }

  /** A dict that is truthy: not empty. */
  predicate IsNonEmptyObject(j: Json) {
    j.Object? && j.fields != map[]
  }

  /** The prompt: node ids in the order of the dict, and the nodes. */
  datatype RawPrompt = RawPrompt(ids: seq<string>, nodes: map<string, Json>)

  /** The ids are distinct and are exactly the keys of the nodes. */
  ghost predicate WellFormed(p: RawPrompt) {
    (forall i, j :: 0 <= i < j < |p.ids| ==> p.ids[i] != p.ids[j]) &&
    (forall k :: k in p.nodes <==> k in p.ids)
  }

  type Prompt = p: RawPrompt | WellFormed(p) witness RawPrompt([], map[])
}
