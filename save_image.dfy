/** The metadata side of `SaveImage` in nodes/save_image.py: the search for
    the sampler that generated the image, the parameters the user tagged in
    node titles, and how `execute` merges both and decides to inject the
    CivitAI template nodes. */
module SaveImage {
  import opened Wrappers
  import opened Text
  import opened Json
  import opened NodeHelpers
  import opened SaveImageNodes

  /** The keys of a dict of generation parameters: `"positive"`,
      `"negative"`, `"seed"`, `"steps"`, `"cfg"`, `"sampler_name"`,
      `"scheduler"`, `"width"` and `"height"`, the only ones ever stored. */
  datatype Key = Positive | Negative | Seed | Steps | Cfg | SamplerName | Scheduler | Width | Height

  /** A dict of generation parameters. */
  type Params = map<Key, Json>

  // ---------------------------------------------------------------------
  // is_empty_latent_node

  /** `is_empty_latent_node(node)`: whether the node creates an empty latent
      image. A `class_type` that is not a string (`None`, a number, a list)
      has no `startswith`, unless the node is not a dict at all. */
  function IsEmptyLatentNode(node: Json): (r: Result<bool>)
    ensures r.Err? <==> !ClassOf(node).Str?
    ensures r == Ok(true) ==> StartsWith(ClassOf(node).s, "Empty")
    ensures ClassOf(node) == Str("EmptyLatentImage") ==> r == Ok(true)
    ensures ClassOf(node) == Str("EmptySD3LatentImage") ==> r == Ok(true)
    ensures ClassOf(node).Str? && StartsWith(ClassOf(node).s, "EmptyZImageLatentImage") ==> r == Ok(true)
    ensures (ClassOf(node).Str? && ClassOf(node).s != "EmptyLatentImage" && ClassOf(node).s != "EmptySD3LatentImage" &&
             !StartsWith(ClassOf(node).s, "EmptyZImageLatentImage")) ==> r == Ok(false)
  {
    var classType := ClassOf(node);
    if classType == Str("EmptyLatentImage") || classType == Str("EmptySD3LatentImage") then Ok(true)
    else if !classType.Str? then Err(AttributeError("startswith"))
    else Ok(StartsWith(classType.s, "EmptyZImageLatentImage"))
  }

  // ---------------------------------------------------------------------
  // find_initial_sampler

  /** The prompt text `find_prompt` gives for a valid prompt type, which
      never raises. */
  function PromptText(node: Json, promptType: string, nodes: map<string, Json>): string
    requires promptType == "positive" || promptType == "negative"
  {
    FindPrompt(node, promptType, nodes, 0).value
  }

  /** The parameters read from a `KSampler`, before filtering. */
  function KSamplerParams(node: Json, nodes: map<string, Json>): Params {
    map[Positive := Str(PromptText(node, "positive", nodes)),
        Negative := Str(PromptText(node, "negative", nodes)),
        Seed := Int(GetInputInt(node, "seed", Int(-1))),
        Steps := Int(GetInputInt(node, "steps", Int(-1))),
        Cfg := Float(GetInputFloat(node, "cfg", Float(-1.0))),
        SamplerName := Str(GetInputString(node, "sampler_name", "")),
        Scheduler := Str(GetInputString(node, "scheduler", ""))]
  }

  /** The parameters read from a `ZSamplerTurbo` node, before filtering: its
      cfg is always 1.0, its sampler `"euler"`, and it has no scheduler. */
  function TurboParams(node: Json, nodes: map<string, Json>): Params {
    map[Positive := Str(PromptText(node, "positive", nodes)),
        Seed := Int(GetInputInt(node, "seed", Int(-1))),
        Steps := Int(GetInputInt(node, "steps", Int(-1))),
        Cfg := Float(1.0),
        SamplerName := Str("euler")]
  }

  /** Whether a class type names one of the two sampler kinds. */
  predicate IsSamplerClass(classType: Json) {
    classType == Str("KSampler") || (classType.Str? && StartsWith(classType.s, "ZSamplerTurbo "))
  }

  /** One iteration of the loop of `find_initial_sampler`: the raw parameters
      when the node is a sampler fed by an empty latent image (the loop
      stops), `None` to go on. */
  function SamplerStep(node: Json, nodes: map<string, Json>): (r: Result<Option<Params>>)
    ensures !Truthy(ClassOf(node)) ==> r == Ok(None)
    ensures r.Ok? && r.value.Some? ==> IsSamplerClass(ClassOf(node)) && Positive in r.value.value
    ensures r.Ok? && r.value.Some? ==>
              r.value.value == if ClassOf(node) == Str("KSampler") then KSamplerParams(node, nodes)
                               else TurboParams(node, nodes)
    ensures Truthy(ClassOf(node)) && !ClassOf(node).Str? ==> r.Err?
  {
    var classType := ClassOf(node);
    if !Truthy(classType) then Ok(None)
    else
      var kSampler :- if classType == Str("KSampler") then
                        var empty :- IsEmptyLatentNode(GetInputNode(node, "latent_image", nodes));
                        Ok(empty)
                      else Ok(false);
      if kSampler then Ok(Some(KSamplerParams(node, nodes)))
      else if !classType.Str? then Err(AttributeError("startswith"))
      else if StartsWith(classType.s, "ZSamplerTurbo ") then
        var empty :- IsEmptyLatentNode(GetInputNode(node, "latent_input", nodes));
        if empty then Ok(Some(TurboParams(node, nodes))) else Ok(None)
      else Ok(None)
  }

  /** The first sampler from position `i` of the ids, with its raw
      parameters; `({}, {})` when there is none. */
  function FirstSampler(ids: seq<string>, nodes: map<string, Json>, i: nat): Result<(Json, Params)>
    decreases |ids| - i
  {
    if i >= |ids| then Ok((EmptyObject, map[]))
    else
      var step :- SamplerStep(NodeAt(nodes, ids[i]), nodes);
      if step.Some? then Ok((NodeAt(nodes, ids[i]), step.value))
      else FirstSampler(ids, nodes, i + 1)
  }

  /** The search at position `i`: the step's error, the sampler found
      there, or the search from the next position. */
  lemma FirstSamplerAt(ids: seq<string>, nodes: map<string, Json>, i: nat)
    requires i < |ids|
    ensures var step := SamplerStep(NodeAt(nodes, ids[i]), nodes);
            FirstSampler(ids, nodes, i) ==
              if step.Err? then Err(step.error)
              else if step.value.Some? then Ok((NodeAt(nodes, ids[i]), step.value.value))
              else FirstSampler(ids, nodes, i + 1)
  {
  }

  /** No node from position `i` up to `k` is a sampler. */
  predicate NoSamplerBetween(ids: seq<string>, nodes: map<string, Json>, i: nat, k: nat) {
    forall j :: i <= j < k && j < |ids| ==> SamplerStep(NodeAt(nodes, ids[j]), nodes) == Ok(None)
  }

  /** The sampler found is the first node from `i` on whose step reports
      one. */
  lemma {:induction false} FirstSamplerIsFirst(ids: seq<string>, nodes: map<string, Json>, i: nat)
    requires FirstSampler(ids, nodes, i).Ok? && FirstSampler(ids, nodes, i).value.1 != map[]
    ensures var r := FirstSampler(ids, nodes, i).value;
            exists k :: i <= k < |ids| && r.0 == NodeAt(nodes, ids[k]) &&
                        SamplerStep(NodeAt(nodes, ids[k]), nodes) == Ok(Some(r.1)) &&
                        NoSamplerBetween(ids, nodes, i, k)
    decreases |ids| - i
  {
    var r := FirstSampler(ids, nodes, i).value;
    var step := SamplerStep(NodeAt(nodes, ids[i]), nodes);
    if step.value.None? {
      assert FirstSampler(ids, nodes, i + 1).value == r;
      FirstSamplerIsFirst(ids, nodes, i + 1);
      var k :| i + 1 <= k < |ids| && r.0 == NodeAt(nodes, ids[k]) &&
               SamplerStep(NodeAt(nodes, ids[k]), nodes) == Ok(Some(r.1)) &&
               NoSamplerBetween(ids, nodes, i + 1, k);
      assert NoSamplerBetween(ids, nodes, i, k);
    } else {
      assert NoSamplerBetween(ids, nodes, i, i);
    }
  }

  /** No parameters means that no node from `i` on is a sampler. */
  lemma {:induction false} FirstSamplerNone(ids: seq<string>, nodes: map<string, Json>, i: nat)
    requires FirstSampler(ids, nodes, i).Ok? && FirstSampler(ids, nodes, i).value.1 == map[]
    ensures FirstSampler(ids, nodes, i).value.0 == EmptyObject
    ensures NoSamplerBetween(ids, nodes, i, |ids|)
    decreases |ids| - i
  {
    if i < |ids| && SamplerStep(NodeAt(nodes, ids[i]), nodes).value.None? {
      FirstSamplerNone(ids, nodes, i + 1);
    }
  }

  /** `params.get(key, -1) < bound` for a numeric entry. */
  predicate Below(m: Params, key: Key, bound: int) {
    key in m && IsNumber(m[key]) && NumberToReal(m[key]) < bound as real
  }

  /** Whether the filter of `find_initial_sampler` removes entry `key`. */
  predicate Dropped(m: Params, key: Key) {
    ((key == Positive || key == Negative || key == SamplerName || key == Scheduler) &&
     key in m && !Truthy(m[key])) ||
    (key == Seed && Below(m, Seed, 0)) ||
    (key == Steps && Below(m, Steps, 1)) ||
    (key == Cfg && Below(m, Cfg, 0))
  }

  /** The position of a key in the order the filter checks the keys;
      `"width"` and `"height"` are never checked. */
  function Rank(key: Key): nat {
    match key
    case Positive => 0
    case Negative => 1
    case SamplerName => 2
    case Scheduler => 3
    case Seed => 4
    case Steps => 5
    case Cfg => 6
    case Width => 7
    case Height => 8
  }

  /** The entries of `m` left once the first `n` keys have been checked. */
  function Kept(m: Params, n: nat): Params {
    map k | k in m && !(Rank(k) < n && Dropped(m, k)) :: m[k]
  }

  /** Checking the next key removes it exactly when it is dropped. */
  lemma KeptStep(m: Params, key: Key)
    ensures var cur := Kept(m, Rank(key));
            (if Dropped(cur, key) then cur - {key} else cur) == Kept(m, Rank(key) + 1)
  {
    var cur := Kept(m, Rank(key));
    var res := if Dropped(cur, key) then cur - {key} else cur;
    var next := Kept(m, Rank(key) + 1);
    assert Dropped(cur, key) == Dropped(m, key) by {
      assert key in cur <==> key in m;
      assert key in cur ==> cur[key] == m[key];
    }
    forall k | k in m ensures k in res <==> k in next {
      if Rank(k) == Rank(key) {
        RankInjective(k, key);
      }
    }
    assert res.Keys == next.Keys;
  }

  /** No two keys share a rank. */
  lemma RankInjective(a: Key, b: Key)
    requires Rank(a) == Rank(b)
    ensures a == b
  {
  }

  /** The filter at the end of `find_initial_sampler`: what is left are
      entries of `m` unchanged, with non-empty texts, a seed and a cfg that
      are not negative, and at least one step; every entry in range stays. */
  function Filter(m: Params): (r: Params)
    ensures forall k :: k in r ==> k in m && r[k] == m[k]
    ensures forall k :: k in r && (k == Positive || k == Negative || k == SamplerName || k == Scheduler) ==>
              Truthy(r[k])
    ensures Seed in r && IsNumber(r[Seed]) ==> NumberToReal(r[Seed]) >= 0.0
    ensures Steps in r && IsNumber(r[Steps]) ==> NumberToReal(r[Steps]) >= 1.0
    ensures Cfg in r && IsNumber(r[Cfg]) ==> NumberToReal(r[Cfg]) >= 0.0
    ensures forall k :: k in m && !Dropped(m, k) ==> k in r
  {
    Kept(m, 7)
  }

  /** `find_initial_sampler(nodes)`: the sampler node and its filtered
      parameters. */
  function InitialSampler(p: Prompt): Result<(Json, Params)> {
    var found :- FirstSampler(p.ids, p.nodes, 0);
    Ok((found.0, Filter(found.1)))
  }

  /** `find_initial_sampler` as the source runs it: a loop that stops at the
      first sampler, then the removals one after the other. */
  method FindInitialSampler(p: Prompt) returns (r: Result<(Json, Params)>)
    ensures r == InitialSampler(p)
  {
    var found :- SearchSampler(p);
    var kept := DropOutOfRange(found.1);
    return Ok((found.0, kept));
  }

  /** The loop of `find_initial_sampler`: the first sampler fed by an empty
      latent image, with its raw parameters; `({}, {})` when there is none. */
  method SearchSampler(p: Prompt) returns (r: Result<(Json, Params)>)
    ensures r == FirstSampler(p.ids, p.nodes, 0)
  {
    var i := 0;
    while i < |p.ids|
      invariant i <= |p.ids|
      invariant FirstSampler(p.ids, p.nodes, 0) == FirstSampler(p.ids, p.nodes, i)
    {
      FirstSamplerAt(p.ids, p.nodes, i);
      var step :- SamplerStep(NodeAt(p.nodes, p.ids[i]), p.nodes);
      if step.Some? {
        // the `break` of the loop
        return Ok((NodeAt(p.nodes, p.ids[i]), step.value));
      }
      i := i + 1;
    }
    return Ok((EmptyObject, map[]));
  }

  /** The removals at the end of `find_initial_sampler`, one after the
      other. */
  method DropOutOfRange(raw: Params) returns (params: Params)
    ensures params == Filter(raw)
  {
    params := DropEmptyTexts(raw);
    params := DropNegativeNumbers(raw, params);
  }

  /** The removals of the empty texts and names. */
  method DropEmptyTexts(raw: Params) returns (params: Params)
    ensures params == Kept(raw, 4)
  {
    KeptNothingChecked(raw);
    params := DropIfEmpty(raw, raw, Positive);
    params := DropIfEmpty(raw, params, Negative);
    params := DropIfEmpty(raw, params, SamplerName);
    params := DropIfEmpty(raw, params, Scheduler);
  }

  /** Before any key is checked, everything is kept. */
  lemma KeptNothingChecked(m: Params)
    ensures Kept(m, 0) == m
  {
    assert Kept(m, 0).Keys == m.Keys;
  }

  /** One of the four removals: the key goes when its value is missing or falsy. */
  method DropIfEmpty(raw: Params, params: Params, key: Key) returns (r: Params)
    requires key == Positive || key == Negative || key == SamplerName || key == Scheduler
    requires params == Kept(raw, Rank(key))
    ensures r == Kept(raw, Rank(key) + 1)
  {
    KeptStep(raw, key);
    r := params;
    if key in r && !Truthy(r[key]) {
      r := r - {key};
    }
  }

  /** The removals of a negative seed, fewer than one step and a negative
      cfg, after those of `DropEmptyTexts`. */
  method DropNegativeNumbers(raw: Params, texts: Params) returns (params: Params)
    requires texts == Kept(raw, 4)
    ensures params == Kept(raw, 7)
  {
    params := texts;
    KeptStep(raw, Seed);
    if Below(params, Seed, 0) {
      params := params - {Seed};
    }
    KeptStep(raw, Steps);
    if Below(params, Steps, 1) {
      params := params - {Steps};
    }
    KeptStep(raw, Cfg);
    if Below(params, Cfg, 0) {
      params := params - {Cfg};
    }
  }

  // ---------------------------------------------------------------------
  // find_user_params

  /** `node["_meta"]["title"]` when it is a string. */
  function Title(node: Json): Option<string> {
    var meta := Get(node, "_meta");
    var title := Get(meta, "title");
    if title.Str? then Some(title.s) else None
  }

  /** Every key of a parameter dict. */
  const AllKeys: set<Key> := {Positive, Negative, Seed, Steps, Cfg, SamplerName, Scheduler, Width, Height}

  /** What a tagged node with title `title` sets under `key`: its text as the
      negative prompt when the title mentions "negative", as the positive
      one otherwise; a number only when in range; a name only when not
      empty. */
  function TaggedValue(node: Json, title: string, key: Key): (r: Option<Json>)
    ensures r.Some? ==> InRange(key, r.value)
  {
    match key
    case Positive =>
      var text := GetInputString(node, "text", "");
      if text != "" && !Contains(Lower(title), "negative") then Some(Str(text)) else None
    case Negative =>
      var text := GetInputString(node, "text", "");
      if text != "" && Contains(Lower(title), "negative") then Some(Str(text)) else None
    case Seed =>
      var seed := GetInputInt(node, "seed", Int(-1));
      if seed >= 0 then Some(Int(seed)) else None
    case Steps =>
      var steps := GetInputInt(node, "steps", Int(-1));
      if steps > 0 then Some(Int(steps)) else None
    case Cfg =>
      var cfg := GetInputFloat(node, "cfg", Float(-1.0));
      if cfg >= 0.0 then Some(Float(cfg)) else None
    case SamplerName =>
      var name := GetInputString(node, "sampler_name", "");
      if name != "" then Some(Str(name)) else None
    case Scheduler =>
      var name := GetInputString(node, "scheduler", "");
      if name != "" then Some(Str(name)) else None
    case Width =>
      var width := GetInputInt(node, "width", Int(-1));
      if width > 0 then Some(Int(width)) else None
    case Height =>
      var height := GetInputInt(node, "height", Int(-1));
      if height > 0 then Some(Int(height)) else None
  }

  /** The parameters one node contributes to `find_user_params`: none unless
      it is a dict whose title contains the tag. */
  function NodeParams(node: Json, tag: string): (r: Params)
    ensures !node.Object? || Title(node).None? || !Contains(Title(node).value, tag) ==> r == map[]
  {
    if !node.Object? || Title(node).None? || !Contains(Title(node).value, tag) then map[]
    else
      var title := Title(node).value;
      map key | key in AllKeys && TaggedValue(node, title, key).Some? :: TaggedValue(node, title, key).value
  }

  /** The values `find_user_params` accepts under `key`: non-empty texts and
      names, a seed and a cfg that are not negative, positive steps and
      size. */
  predicate InRange(key: Key, v: Json) {
    match key
    case Positive => v.Str? && v.s != ""
    case Negative => v.Str? && v.s != ""
    case SamplerName => v.Str? && v.s != ""
    case Scheduler => v.Str? && v.s != ""
    case Seed => v.Int? && v.i >= 0
    case Steps => v.Int? && v.i > 0
    case Width => v.Int? && v.i > 0
    case Height => v.Int? && v.i > 0
    case Cfg => v.Float? && v.f >= 0.0
  }

  /** What a node contributes under `key` is what `TaggedValue` gives for
      its title. */
  lemma NodeParamsEntry(node: Json, tag: string, key: Key)
    requires key in NodeParams(node, tag)
    ensures Title(node).Some? && TaggedValue(node, Title(node).value, key) == Some(NodeParams(node, tag)[key])
  {
  }

  /** A node's text goes under the key its title selects, never under
      both. */
  lemma NodeParamsTexts(node: Json, tag: string)
    ensures var r := NodeParams(node, tag);
            (Positive in r ==> !Contains(Lower(Title(node).value), "negative") && Negative !in r) &&
            (Negative in r ==> Contains(Lower(Title(node).value), "negative"))
  {
    var r := NodeParams(node, tag);
    if Positive in r {
      NodeParamsEntry(node, tag, Positive);
      if Negative in r {
        NodeParamsEntry(node, tag, Negative);
      }
    }
    if Negative in r {
      NodeParamsEntry(node, tag, Negative);
    }
  }

  /** Every value a node contributes is in range. */
  lemma NodeParamsInRange(node: Json, tag: string)
    ensures forall key :: key in NodeParams(node, tag) ==> InRange(key, NodeParams(node, tag)[key])
  {
    forall key | key in NodeParams(node, tag) ensures InRange(key, NodeParams(node, tag)[key]) {
      NodeParamsEntry(node, tag, key);
    }
  }

  /** What each node of the prompt contributes, in the prompt's order. */
  function Contributions(ids: seq<string>, nodes: map<string, Json>, tag: string): (r: seq<Params>)
    ensures |r| == |ids|
    ensures forall j :: 0 <= j < |ids| ==> r[j] == NodeParams(NodeAt(nodes, ids[j]), tag)
  {
    seq(|ids|, j requires 0 <= j < |ids| => NodeParams(NodeAt(nodes, ids[j]), tag))
  }

  /** The loop of `find_user_params` over the contributions `ps`: the number
      of non-empty ones, and their union, later ones overriding earlier
      ones. */
  function Scan<K, V>(ps: seq<map<K, V>>): (r: (nat, map<K, V>))
    ensures r.0 <= |ps|
    ensures r.0 == 0 <==> forall j :: 0 <= j < |ps| ==> ps[j] == map[]
  {
    if ps == [] then (0, map[])
    else ScanAdd(Scan(ps[..|ps| - 1]), ps[|ps| - 1])
  }

  /** The scan after one more contribution `last`. */
  function ScanAdd<K, V>(prev: (nat, map<K, V>), last: map<K, V>): (nat, map<K, V>) {
    (if last != map[] then prev.0 + 1 else prev.0, prev.1 + last)
  }

  /** One more step of the scan. */
  lemma ScanStep<K, V>(ps: seq<map<K, V>>, i: nat)
    requires i < |ps|
    ensures Scan(ps[..i + 1]) == ScanAdd(Scan(ps[..i]), ps[i])
  {
    assert ps[..i + 1][..i] == ps[..i];
  }

  /** A key is in the scan exactly when some contribution holds it. */
  lemma {:induction false} ScanKeys<K, V>(ps: seq<map<K, V>>, k: K)
    ensures k in Scan(ps).1 <==> exists j :: 0 <= j < |ps| && k in ps[j]
  {
    if ps != [] {
      var n := |ps| - 1;
      ScanKeys(ps[..n], k);
      if k in Scan(ps[..n]).1 {
        var j :| 0 <= j < n && k in ps[..n][j];
        assert k in ps[j];
      }
      if j :| 0 <= j < |ps| && k in ps[j] {
        if j < n {
          assert k in ps[..n][j];
        }
      }
    }
  }

  /** `find_user_params(tag, nodes)`. */
  function UserScan(p: Prompt, tag: string): (nat, Params) {
    Scan(Contributions(p.ids, p.nodes, tag))
  }

  /** `find_user_params` as the source runs it: a loop updating the counter
      and the dict. */
  method FindUserParams(tag: string, p: Prompt) returns (count: nat, params: Params)
    ensures (count, params) == UserScan(p, tag)
  {
    ghost var ps := Contributions(p.ids, p.nodes, tag);
    count := 0;
    params := map[];
    var i := 0;
    while i < |p.ids|
      invariant i <= |p.ids|
      invariant (count, params) == Scan(ps[..i])
    {
      var nodeParams := NodeParams(NodeAt(p.nodes, p.ids[i]), tag);
      assert nodeParams == ps[i];
      ScanStep(ps, i);
      count, params := CountNode(count, params, nodeParams);
      i := i + 1;
    }
    assert ps[..i] == ps;
  }

  /** The body of the loop of `find_user_params` for one node's parameters:
      a node with some counts, and its parameters override earlier ones. */
  method CountNode(count: nat, params: Params, nodeParams: Params) returns (count': nat, params': Params)
    ensures (count', params') == ScanAdd((count, params), nodeParams)
  {
    count' := count;
    if nodeParams != map[] {
      count' := count + 1;
    }
    params' := params + nodeParams;
  }

  /** `ps[j]` is the last contribution that holds `k`. */
  predicate LastHolder<K, V>(ps: seq<map<K, V>>, k: K, j: int) {
    0 <= j < |ps| && k in ps[j] && forall j' :: j < j' < |ps| ==> k !in ps[j']
  }

  /** The value of a key of the scan is the one of the last contribution
      that holds it. */
  lemma {:induction false} ScanLastWins<K, V>(ps: seq<map<K, V>>, k: K)
    requires k in Scan(ps).1
    ensures exists j :: LastHolder(ps, k, j) && Scan(ps).1[k] == ps[j][k]
  {
    var n := |ps| - 1;
    var prefix := ps[..n];
    assert Scan(ps).1 == Scan(prefix).1 + ps[n];
    if k in ps[n] {
      assert LastHolder(ps, k, n) && Scan(ps).1[k] == ps[n][k];
    } else {
      ScanLastWins(prefix, k);
      var j :| LastHolder(prefix, k, j) && Scan(prefix).1[k] == prefix[j][k];
      assert LastHolder(ps, k, j) by {
        forall j' | j < j' < |ps| ensures k !in ps[j'] {
          if j' < n {
            assert k !in prefix[j'];
          }
        }
      }
      assert Scan(ps).1[k] == ps[j][k];
    }
  }

  // ---------------------------------------------------------------------
  // The parameter merge of execute

  /** `params.update(sampler); params.update(user)`: every key of either,
      the user's value winning. */
  function MergeParams(sampler: Params, user: Params): (r: Params)
    ensures forall k :: k in r <==> k in sampler || k in user
    ensures forall k :: k in user ==> r[k] == user[k]
    ensures forall k :: k in sampler && k !in user ==> r[k] == sampler[k]
  {
    sampler + user
  }

  /** `params.get(key, default)`. */
  function ParamOr(m: Params, key: Key, default: Json): (r: Json)
    ensures key in m ==> r == m[key]
    ensures key !in m ==> r == default
  {
    if key in m then m[key] else default
  }

  /** The arguments `execute` passes to `inject_civitai_nodes`, with its own
      defaults: 50 steps, seed 0, 1024 by 1024. */
  function GenerationOf(params: Params): Generation {
    Generation(ParamOr(params, Positive, Str("")), ParamOr(params, Negative, Str("")),
               ParamOr(params, Seed, Int(0)), ParamOr(params, Steps, Int(50)),
               ParamOr(params, Cfg, Float(1.0)), ParamOr(params, SamplerName, Str("euler")),
               ParamOr(params, Scheduler, Str("simple")),
               ParamOr(params, Width, Int(1024)), ParamOr(params, Height, Int(1024)))
  }

  /** The tag that marks the nodes whose parameters the user chose. */
  const UserTag := ">>C"

  /** The merged parameters of the sampler and of the tagged nodes. */
  function CollectedParams(p: Prompt): Result<Params> {
    var sampler :- InitialSampler(p);
    Ok(MergeParams(sampler.1, UserScan(p, UserTag).1))
  }

  /** Whether the parameters are enough to inject: a positive prompt or a
      seed. */
  predicate FoundParams(params: Params) {
    Positive in params || Seed in params
  }

  /** The prompt that `execute` writes into the image: injected with the
      collected parameters when asked for and when they hold a positive
      prompt or a seed, otherwise as it was. */
  function MetadataPrompt(p: Prompt, civitaiCompatible: bool): Result<Prompt> {
    if !civitaiCompatible then Ok(p)
    else
      var params :- CollectedParams(p);
      if FoundParams(params) then Inject(p, GenerationOf(params)) else Ok(p)
  }

  // ---------------------------------------------------------------------
  // Properties

  /** The template's latent node counts as an empty latent image, so the
      template's `KSampler` is fed by one. */
  lemma TemplateLatentIsEmpty(base: nat)
    ensures IsEmptyLatentNode(TemplateNodes(base)[2]) == Ok(true)
  {
  }

  /** A turbo sampler always reports cfg 1.0 and sampler `"euler"`, and
      never a negative prompt or a scheduler. */
  lemma TurboFixedSettings(node: Json, nodes: map<string, Json>)
    ensures var kept := Filter(TurboParams(node, nodes));
            Cfg in kept && kept[Cfg] == Float(1.0) &&
            SamplerName in kept && kept[SamplerName] == Str("euler") &&
            Negative !in kept && Scheduler !in kept
  {
    var raw := TurboParams(node, nodes);
    assert Cfg in raw && raw[Cfg] == Float(1.0) && SamplerName in raw && raw[SamplerName] == Str("euler");
    assert Negative !in raw && Scheduler !in raw;
    FixedKept(raw);
  }

  /** A cfg of 1.0 and the sampler `"euler"` pass the filter; keys absent
      before it are absent after it. */
  lemma FixedKept(raw: Params)
    requires Cfg in raw && raw[Cfg] == Float(1.0) && SamplerName in raw && raw[SamplerName] == Str("euler")
    requires Negative !in raw && Scheduler !in raw
    ensures var kept := Filter(raw);
            Cfg in kept && kept[Cfg] == Float(1.0) &&
            SamplerName in kept && kept[SamplerName] == Str("euler") &&
            Negative !in kept && Scheduler !in kept
  {
    assert !Dropped(raw, Cfg) && !Dropped(raw, SamplerName);
  }

  /** What remains of the sampler's parameters is in range: texts not
      empty, seed and cfg not negative, at least one step. */
  lemma InitialParamsInRange(p: Prompt)
    requires InitialSampler(p).Ok?
    ensures var params := InitialSampler(p).value.1;
            (forall k :: k in params && (k == Positive || k == Negative || k == SamplerName || k == Scheduler) ==>
               Truthy(params[k])) &&
            (Seed in params && IsNumber(params[Seed]) ==> NumberToReal(params[Seed]) >= 0.0) &&
            (Steps in params && IsNumber(params[Steps]) ==> NumberToReal(params[Steps]) >= 1.0) &&
            (Cfg in params && IsNumber(params[Cfg]) ==> NumberToReal(params[Cfg]) >= 0.0)
  {
    var raw := FirstSampler(p.ids, p.nodes, 0).value.1;
    var params := InitialSampler(p).value.1;
    assert params == Filter(raw);
    forall k | k in params ensures !Dropped(raw, k) && params[k] == raw[k] {
    }
  }

  /** A parameter of a tagged node overrides the sampler's. */
  lemma UserParamsOverride(p: Prompt, k: Key)
    requires InitialSampler(p).Ok?
    requires k in UserScan(p, UserTag).1
    ensures CollectedParams(p).Ok?
    ensures CollectedParams(p).value[k] == UserScan(p, UserTag).1[k]
  {
  }

  /** Without a positive prompt or a seed the prompt is saved unchanged. */
  lemma NothingFoundKeepsPrompt(p: Prompt, civitaiCompatible: bool)
    requires CollectedParams(p).Ok? && !FoundParams(CollectedParams(p).value)
    ensures MetadataPrompt(p, civitaiCompatible) == Ok(p)
  {
  }

  /** The positive prompt of a tagged node is what the injected template's
      first text encoder holds. */
  lemma UserPositiveReachesTemplate(p: Prompt)
    requires MetadataPrompt(p, true).Ok? && CollectedParams(p).Ok?
    requires Positive in UserScan(p, UserTag).1
    ensures var base := Place(p, FindCivitaiNodes(p).value).base;
            var q := MetadataPrompt(p, true).value;
            Input(NodeAt(q.nodes, TemplateId(base, 1)), "text") == Str(TextArg(UserScan(p, UserTag).1[Positive], ""))
  {
    var params := CollectedParams(p).value;
    var g := GenerationOf(params);
    assert params[Positive] == UserScan(p, UserTag).1[Positive];
    assert MetadataPrompt(p, true) == Inject(p, g);
    InjectedPositive(p, g);
  }
}
