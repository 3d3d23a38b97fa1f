/** The case-sensitive style table shared by `StyleGroup` in
    nodes/styles/style_group.py and `Styles` in nodes/styles/base.py: a dict
    from style name to template (`_styles`) and the list of names in insertion
    order (`_ordered_keys`). */
module OrderedStyles {
  import opened Wrappers
  import opened Quoting
  import opened PyDict
  import StyleConfig
  import opened Text

  datatype Table = Table(styles: map<string, string>, keys: seq<string>)

  const Empty: Table := Table(map[], [])

  /** The invariant kept by `add_style` and `remove_style`: the ordered keys
      are distinct and are exactly the keys of the dict. */
  ghost predicate Consistent(t: Table) {
    (forall i, j :: 0 <= i < j < |t.keys| ==> t.keys[i] != t.keys[j]) &&
    t.styles.Keys == KeySet(t.keys)
  }

  function KeySet(keys: seq<string>): set<string> {
    set i | 0 <= i < |keys| :: keys[i]
  }

  // ---------------------------------------------------------------------
  // Operations on the value

  /** `add_style(name, value)`: appended to the order only the first time. */
  function Put(t: Table, name: string, value: string): Table {
    Table(t.styles[name := value], if name in t.styles then t.keys else t.keys + [name])
  }

  /** `remove_style(name)`: nothing for an absent name. */
  function Delete(t: Table, name: string): Table {
    if name in t.styles then Table(t.styles - {name}, RemoveFirst(t.keys, name)) else t
  }

  /** The exact, case-sensitive lookup of the dict. */
  function Lookup(t: Table, name: string): Option<string> {
    if name in t.styles then Some(t.styles[name]) else None
  }

  /** `len(...)`. */
  function Len(t: Table): nat {
    |t.styles|
  }

  /** `obj[key]`: `KeyError` for a missing key. */
  function GetItem(t: Table, key: string): Result<string> {
    if key in t.styles then Ok(t.styles[key]) else Err(StyleNotFound(key))
  }

  /** `del obj[key]`: for a present key `__delitem__` runs `del self[key]`
      on itself again and never returns (`RecursionError`); for a missing key
      it raises `KeyError`. */
  function DelItem(t: Table, key: string): (r: Result<Table>)
    ensures r.Err?
  {
    if key in t.styles then Err(RecursionError) else Err(StyleNotFound(key))
  }

  /** The additions made for parsed blocks, in order. */
  function PutBlocks(t: Table, blocks: seq<StyleConfig.Block>): Table {
    if blocks == [] then t
    else
      var b := blocks[|blocks| - 1];
      Put(PutBlocks(t, blocks[..|blocks| - 1]), b.name, b.template)
  }

  /** `PutBlocks` over one more block adds that block last. */
  lemma PutBlocksNext(t: Table, blocks: seq<StyleConfig.Block>, i: nat)
    requires i < |blocks|
    ensures PutBlocks(t, blocks[..i + 1]) == Put(PutBlocks(t, blocks[..i]), blocks[i].name, blocks[i].template)
  {
    assert blocks[..i + 1][..i] == blocks[..i];
  }

  /** What the constructor produces. */
  datatype Creation = Created(table: Table) | Raised(error: Error) | Incomplete

  /** The constructor with `styles` and `ordered_names`. Without styles the
      table is empty; without an order it is a copy of the dict in its key
      order. With both, the loop tests `name in self._styles` before
      `_styles` exists: it raises `AttributeError` at the first ordered name
      that is in `styles`, and when there is none it ends leaving an object
      with no `_styles` at all. */
  function Construct(styles: Option<Dict>, orderedNames: Option<seq<string>>): Creation {
    match styles
    case None => Created(Empty)
    case Some(d) =>
      match orderedNames
      case None => Created(Table(d.entries, d.keys))
      case Some(names) =>
        if exists i :: 0 <= i < |names| && names[i] in d.entries then Raised(AttributeError("_styles"))
        else Incomplete
  }

  // ---------------------------------------------------------------------
  // The invariant

  lemma EmptyConsistent()
    ensures Consistent(Empty)
  {
  }

  /** Copying a well-formed dict gives a consistent table in the dict's order. */
  lemma ConstructCopies(d: Dict)
    ensures Construct(Some(d), None) == Created(Table(d.entries, d.keys))
    ensures Consistent(Table(d.entries, d.keys))
  {
    forall k ensures k in d.entries <==> k in KeySet(d.keys) {
      if k in d.keys {
        var i :| 0 <= i < |d.keys| && d.keys[i] == k;
      }
    }
  }

  /** Giving both `styles` and `ordered_names` never builds a usable table. */
  lemma ConstructBothNeverCreates(d: Dict, names: seq<string>)
    ensures !Construct(Some(d), Some(names)).Created?
    ensures Construct(Some(d), Some(names)).Raised? <==> exists i :: 0 <= i < |names| && names[i] in d.entries
  {
  }

  lemma KeySetAppend(keys: seq<string>, x: string)
    ensures KeySet(keys + [x]) == KeySet(keys) + {x}
  {
    assert forall i :: 0 <= i < |keys| ==> (keys + [x])[i] == keys[i];
    assert (keys + [x])[|keys|] == x;
  }

  lemma KeySetCons(x: string, keys: seq<string>)
    ensures KeySet([x] + keys) == {x} + KeySet(keys)
  {
    var c := [x] + keys;
    forall y | y in KeySet(c) ensures y in {x} + KeySet(keys) {
      var i :| 0 <= i < |c| && c[i] == y;
      if i > 0 {
        assert keys[i - 1] == y;
      }
    }
    forall y | y in KeySet(keys) ensures y in KeySet(c) {
      var i :| 0 <= i < |keys| && keys[i] == y;
      assert c[i + 1] == y;
    }
    assert c[0] == x;
  }

  /** `add_style` keeps the invariant. */
  lemma PutConsistent(t: Table, name: string, value: string)
    requires Consistent(t)
    ensures Consistent(Put(t, name, value))
  {
    if name !in t.styles {
      KeySetAppend(t.keys, name);
      forall i | 0 <= i < |t.keys| ensures t.keys[i] != name {
        assert t.keys[i] in KeySet(t.keys);
      }
    }
  }

  /** Removing a value that occurs once from distinct names leaves the other
      names, still distinct; `RemoveFirstSplits` states that they keep their
      order. */
  lemma {:induction false} RemoveFirstUnique(s: seq<string>, x: string)
    requires forall i, j :: 0 <= i < j < |s| ==> s[i] != s[j]
    requires x in s
    ensures var r := RemoveFirst(s, x);
            |r| == |s| - 1 && KeySet(r) == KeySet(s) - {x} &&
            (forall i, j :: 0 <= i < j < |r| ==> r[i] != r[j])
  {
    if s[0] == x {
      RemoveHead(s);
    } else {
      var tail := s[1..];
      assert x in tail by {
        var j :| 0 <= j < |s| && s[j] == x;
        assert tail[j - 1] == x;
      }
      RemoveFirstUnique(tail, x);
      RemoveBehindHead(s, x, RemoveFirst(tail, x));
    }
  }

  /** Removing the first key of distinct keys leaves the others, distinct. */
  lemma RemoveHead(s: seq<string>)
    requires forall i, j :: 0 <= i < j < |s| ==> s[i] != s[j]
    requires s != []
    ensures KeySet(s[1..]) == KeySet(s) - {s[0]}
    ensures forall i, j :: 0 <= i < j < |s[1..]| ==> s[1..][i] != s[1..][j]
  {
    assert s == [s[0]] + s[1..];
    KeySetCons(s[0], s[1..]);
    assert s[0] !in KeySet(s[1..]) by {
      forall i | 0 <= i < |s[1..]| ensures s[1..][i] != s[0] {
        assert s[1..][i] == s[i + 1];
      }
    }
  }

  /** The step of `RemoveFirstUnique` past a head that is kept. */
  lemma RemoveBehindHead(s: seq<string>, x: string, rt: seq<string>)
    requires forall i, j :: 0 <= i < j < |s| ==> s[i] != s[j]
    requires s != [] && s[0] != x && rt == RemoveFirst(s[1..], x)
    requires |rt| == |s[1..]| - 1 && KeySet(rt) == KeySet(s[1..]) - {x}
    requires forall i, j :: 0 <= i < j < |rt| ==> rt[i] != rt[j]
    ensures var r := RemoveFirst(s, x);
            |r| == |s| - 1 && KeySet(r) == KeySet(s) - {x} &&
            (forall i, j :: 0 <= i < j < |r| ==> r[i] != r[j])
  {
    assert RemoveFirst(s, x) == [s[0]] + rt;
    RemoveHead(s);
    KeySetCons(s[0], rt);
    ConsDistinct(s[0], rt);
  }

  /** Distinct keys stay distinct behind a key that is not among them. */
  lemma ConsDistinct(h: string, rt: seq<string>)
    requires h !in KeySet(rt)
    requires forall i, j :: 0 <= i < j < |rt| ==> rt[i] != rt[j]
    ensures forall i, j :: 0 <= i < j < |[h] + rt| ==> ([h] + rt)[i] != ([h] + rt)[j]
  {
    var r := [h] + rt;
    forall i, j | 0 <= i < j < |r| ensures r[i] != r[j] {
      if i == 0 {
        assert r[j] == rt[j - 1];
        assert rt[j - 1] in KeySet(rt);
      } else {
        assert r[i] == rt[i - 1] && r[j] == rt[j - 1];
      }
    }
  }

  /** `remove_style` keeps the invariant and removes the name from both the
      dict and the order; an absent name changes nothing. */
  lemma DeleteSpec(t: Table, name: string)
    requires Consistent(t)
    ensures Consistent(Delete(t, name))
    ensures Delete(t, name).styles == t.styles - {name}
    ensures name !in KeySet(Delete(t, name).keys)
    ensures name !in t.styles ==> Delete(t, name) == t
    ensures name in t.styles ==> |Delete(t, name).keys| == |t.keys| - 1
    ensures name in t.styles ==>
              exists before, after :: t.keys == before + [name] + after &&
                                      Delete(t, name).keys == before + after
  {
    if name in t.styles {
      assert name in KeySet(t.keys);
      var i :| 0 <= i < |t.keys| && t.keys[i] == name;
      RemoveFirstUnique(t.keys, name);
      RemoveFirstSplits(t.keys, name);
    } else {
      assert t.styles - {name} == t.styles;
    }
  }

  /** With distinct keys there are as many dict entries as ordered names. */
  lemma {:induction false} KeySetCard(keys: seq<string>)
    requires forall i, j :: 0 <= i < j < |keys| ==> keys[i] != keys[j]
    ensures |KeySet(keys)| == |keys|
  {
    if keys != [] {
      var prefix := keys[..|keys| - 1];
      KeySetCard(prefix);
      assert keys == prefix + [keys[|keys| - 1]];
      KeySetAppend(prefix, keys[|keys| - 1]);
      assert keys[|keys| - 1] !in KeySet(prefix);
    }
  }

  /** `len` is the number of names in the order. */
  lemma LenIsCount(t: Table)
    requires Consistent(t)
    ensures Len(t) == |t.keys|
  {
    KeySetCard(t.keys);
  }

  // ---------------------------------------------------------------------
  // Properties

  /** After `add_style(name, value)` the name maps to `value`, other names are
      untouched, and the order grows by `name` only if it was new. */
  lemma PutSpec(t: Table, name: string, value: string, query: string)
    requires Consistent(t)
    ensures Lookup(Put(t, name, value), query) == if query == name then Some(value) else Lookup(t, query)
    ensures Put(t, name, value).keys == if name in t.styles then t.keys else t.keys + [name]
    ensures Len(Put(t, name, value)) == if name in t.styles then Len(t) else Len(t) + 1
  {
    PutConsistent(t, name, value);
    LenIsCount(t);
    LenIsCount(Put(t, name, value));
  }

  /** Adding a new name and removing it again gives back the same table. */
  lemma PutDeleteRoundTrip(t: Table, name: string, value: string)
    requires Consistent(t) && name !in t.styles
    ensures Delete(Put(t, name, value), name) == t
  {
    forall i | 0 <= i < |t.keys| ensures t.keys[i] != name {
      assert t.keys[i] in KeySet(t.keys);
    }
    RemoveFirstAppend(t.keys, name);
    assert t.styles[name := value] - {name} == t.styles;
  }

  lemma {:induction false} RemoveFirstAppend(s: seq<string>, x: string)
    requires x !in s
    ensures RemoveFirst(s + [x], x) == s
  {
    if s == [] {
      assert RemoveFirst([x], x) == [];
    } else {
      assert (s + [x])[1..] == s[1..] + [x];
      RemoveFirstAppend(s[1..], x);
    }
  }

  /** `del obj[key]` never completes: a present key recurses without end and
      a missing key raises `KeyError`; the table is left as it was. */
  lemma DelItemNeverRemoves(t: Table, key: string)
    ensures DelItem(t, key) == Err(RecursionError) <==> key in t.styles
    ensures DelItem(t, key) == Err(StyleNotFound(key)) <==> key !in t.styles
  {
  }

  /** Parsed blocks with distinct names give a table holding exactly those
      names, in the order they were parsed, each with its own template. */
  lemma {:induction false} PutBlocksDistinct(blocks: seq<StyleConfig.Block>)
    requires forall i, j :: 0 <= i < j < |blocks| ==> blocks[i].name != blocks[j].name
    ensures Consistent(PutBlocks(Empty, blocks))
    ensures PutBlocks(Empty, blocks).keys == StyleConfig.Names(blocks)
    ensures forall i :: 0 <= i < |blocks| ==> Lookup(PutBlocks(Empty, blocks), blocks[i].name) == Some(blocks[i].template)
  {
    if blocks != [] {
      var prefix := blocks[..|blocks| - 1];
      PutBlocksDistinct(prefix);
      var t0 := PutBlocks(Empty, prefix);
      forall i | 0 <= i < |blocks| - 1
        ensures Lookup(t0, blocks[i].name) == Some(blocks[i].template)
      {
        assert blocks[i] == prefix[i];
      }
      PutFreshBlock(t0, blocks);
    }
  }

  /** The last block, with a name none of the earlier blocks has. */
  lemma PutFreshBlock(t0: Table, blocks: seq<StyleConfig.Block>)
    requires blocks != []
    requires Consistent(t0) && t0.keys == StyleConfig.Names(blocks[..|blocks| - 1])
    requires forall i :: 0 <= i < |blocks| - 1 ==> Lookup(t0, blocks[i].name) == Some(blocks[i].template)
    requires forall i, j :: 0 <= i < j < |blocks| ==> blocks[i].name != blocks[j].name
    ensures var b := blocks[|blocks| - 1];
            var t := Put(t0, b.name, b.template);
            Consistent(t) && t.keys == StyleConfig.Names(blocks[..|blocks| - 1]) + [b.name] &&
            forall i :: 0 <= i < |blocks| ==> Lookup(t, blocks[i].name) == Some(blocks[i].template)
  {
    var b := blocks[|blocks| - 1];
    assert b.name !in t0.styles by {
      forall k | 0 <= k < |t0.keys| ensures t0.keys[k] != b.name {
        assert t0.keys[k] == blocks[k].name;
      }
    }
    PutConsistent(t0, b.name, b.template);
  }

  /** Whatever the blocks, every name the table lists was already listed or
      is the name of one of the blocks. */
  lemma {:induction false} PutBlocksKeys(t: Table, blocks: seq<StyleConfig.Block>, k: string)
    requires k in PutBlocks(t, blocks).keys
    ensures k in t.keys || k in StyleConfig.Names(blocks)
  {
    if blocks != [] {
      var prefix := blocks[..|blocks| - 1];
      var b := blocks[|blocks| - 1];
      assert StyleConfig.Names(blocks) == StyleConfig.Names(prefix) + [b.name];
      if k != b.name {
        PutBlocksKeys(t, prefix, k);
      }
    }
  }
}
