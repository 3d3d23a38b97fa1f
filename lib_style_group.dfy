/** The case-insensitive, quote-tolerant style registry `StyleGroup` of
    nodes/lib/style_group.py.

    A group keeps three containers: the templates keyed by lower-cased name,
    the original spelling of each name keyed the same way, and the names in
    insertion order. `Registry` is their value; the class `StyleGroup` holds
    them as fields that its methods update in place. */
module LibStyleGroup {
  import opened Wrappers
  import opened Text
  import opened Quoting
  import opened PyDict
  import StyleConfig

  datatype Registry = Registry(templates: map<string, string>, spellings: map<string, string>, order: seq<string>)

  const Empty: Registry := Registry(map[], map[], [])

  /** The lower-cased forms of `names`. */
  function LowerKeys(names: seq<string>): set<string> {
    if names == [] then {} else {Lower(names[0])} + LowerKeys(names[1..])
  }

  /** The invariant the group's methods keep: the ordered names are distinct
      up to case, each is the recorded spelling of its lower-cased key, and
      both maps are keyed by exactly the lower-cased ordered names. */
  ghost predicate Consistent(r: Registry) {
    (forall i, j :: 0 <= i < j < |r.order| ==> Lower(r.order[i]) != Lower(r.order[j])) &&
    (forall i :: 0 <= i < |r.order| ==> Lower(r.order[i]) in r.spellings && r.spellings[Lower(r.order[i])] == r.order[i]) &&
    r.templates.Keys == LowerKeys(r.order) &&
    r.spellings.Keys == LowerKeys(r.order)
  }

  // ---------------------------------------------------------------------
  // Queries

  /** `contains(name)`, also `name in group`: the name is lower-cased but
      neither trimmed nor unquoted. */
  predicate ContainsName(r: Registry, name: string) {
    Lower(name) in r.templates
  }

  /** The key `get_style_template` looks up: the name trimmed, stripped of one
      pair of surrounding quotes, and lower-cased. */
  function LookupKey(name: string): string {
    Lower(Unquote(Strip(name)))
  }

  /** `get_style_template(name, default)`. */
  function GetStyleTemplate(r: Registry, name: string, default: string): string {
    var key := LookupKey(name);
    if key in r.templates then r.templates[key] else default
  }

  /** `get_names(quoted=q)`. */
  function GetNames(r: Registry, q: Quoting): seq<string> {
    ApplyQuoting(r.order, q)
  }

  /** `len(group)`. */
  function Len(r: Registry): nat {
    |r.templates|
  }

  /** `group[name]`: `KeyError` unless `contains(name)`, then the template
      found by `get_style_template`. */
  function GetItem(r: Registry, name: string): Result<string> {
    if ContainsName(r, name) then Ok(GetStyleTemplate(r, name, "")) else Err(StyleNotFound(name))
  }

  // ---------------------------------------------------------------------
  // Updates, as functions of the registry value

  /** `add_style(name, template)`: an existing name (in any case) only gets
      its template replaced; a new one is recorded and appended. */
  function Add(r: Registry, name: string, template: string): Registry {
    var key := Lower(name);
    if key in r.templates then r.(templates := r.templates[key := template])
    else Registry(r.templates[key := template], r.spellings[key := name], r.order + [name])
  }

  /** `remove_style(name)`: nothing for an absent name; otherwise the key
      leaves both maps and its recorded spelling leaves the order. */
  function Remove(r: Registry, name: string): Registry {
    var key := Lower(name);
    if key !in r.templates then r
    else
      // under `Consistent` the key always has a recorded spelling
      var stored := if key in r.spellings && r.spellings[key] != [] then r.spellings[key] else name;
      Registry(r.templates - {key}, r.spellings - {key}, RemoveFirst(r.order, stored))
  }

  /** `del group[name]`: `KeyError` unless `contains(name)`. */
  function DelItemResult(r: Registry, name: string): Result<Registry> {
    if ContainsName(r, name) then Ok(Remove(r, name)) else Err(StyleNotFound(name))
  }

  /** The additions made by `update(other)` for the given names of `other`:
      each name with `other.get_style_template(name)`. */
  function AddFrom(r: Registry, other: Registry, names: seq<string>): Registry {
    if names == [] then r
    else
      var name := names[|names| - 1];
      Add(AddFrom(r, other, names[..|names| - 1]), name, GetStyleTemplate(other, name, ""))
  }

  /** The additions made for parsed blocks, in order. */
  function AddBlocks(r: Registry, blocks: seq<StyleConfig.Block>): Registry {
    if blocks == [] then r
    else
      var b := blocks[|blocks| - 1];
      Add(AddBlocks(r, blocks[..|blocks| - 1]), b.name, b.template)
  }

  /** The additions made by the constructor for the listed names: each name
      present in `styles`, with its template. */
  function AddListed(r: Registry, styles: Dict, names: seq<string>): Registry {
    if names == [] then r
    else
      var name := names[|names| - 1];
      var before := AddListed(r, styles, names[..|names| - 1]);
      if name in styles.entries then Add(before, name, styles.entries[name]) else before
  }

  /** `StyleGroup(styles=..., ordered_names=...)`: empty without styles; the
      styles in dict order without ordered names; otherwise the ordered names
      that are in the styles, in that order. */
  function Build(styles: Option<Dict>, orderedNames: Option<seq<string>>): Registry {
    match styles
    case None => Empty
    case Some(d) => AddListed(Empty, d, orderedNames.GetOr(d.keys))
  }

  // ---------------------------------------------------------------------
  // The invariant

  lemma {:induction false} LowerKeysMember(s: seq<string>, k: string)
    ensures k in LowerKeys(s) <==> exists i :: 0 <= i < |s| && Lower(s[i]) == k
  {
    if s != [] {
      LowerKeysMember(s[1..], k);
      if exists i :: 0 <= i < |s[1..]| && Lower(s[1..][i]) == k {
        var i :| 0 <= i < |s[1..]| && Lower(s[1..][i]) == k;
        assert s[i + 1] == s[1..][i];
      }
      if exists i :: 0 <= i < |s| && Lower(s[i]) == k {
        var i :| 0 <= i < |s| && Lower(s[i]) == k;
        if i > 0 {
          assert s[1..][i - 1] == s[i];
        }
      }
    }
  }

  lemma {:induction false} LowerKeysAppend(s: seq<string>, x: string)
    ensures LowerKeys(s + [x]) == LowerKeys(s) + {Lower(x)}
  {
    if s == [] {
      assert LowerKeys([x]) == {Lower(x)} + LowerKeys([]);
    } else {
      assert (s + [x])[1..] == s[1..] + [x];
      LowerKeysAppend(s[1..], x);
    }
  }

  /** With names distinct up to case there are as many keys as names. */
  lemma {:induction false} LowerKeysCard(s: seq<string>)
    requires forall i, j :: 0 <= i < j < |s| ==> Lower(s[i]) != Lower(s[j])
    ensures |LowerKeys(s)| == |s|
  {
    if s != [] {
      LowerKeysCard(s[1..]);
      LowerKeysMember(s[1..], Lower(s[0]));
      forall i | 0 <= i < |s[1..]| ensures Lower(s[1..][i]) != Lower(s[0]) {
        assert s[1..][i] == s[i + 1];
      }
    }
  }

  lemma EmptyConsistent()
    ensures Consistent(Empty)
  {
  }

  /** `len(group)` is the number of names `get_names()` returns. */
  lemma LenIsCount(r: Registry)
    requires Consistent(r)
    ensures Len(r) == |GetNames(r, NotQuoted)|
  {
    LowerKeysCard(r.order);
    assert r.templates.Keys == LowerKeys(r.order);
  }

  /** `add_style` keeps the invariant. */
  lemma AddConsistent(r: Registry, name: string, template: string)
    requires Consistent(r)
    ensures Consistent(Add(r, name, template))
  {
    var key := Lower(name);
    if key !in r.templates {
      forall i | 0 <= i < |r.order| ensures Lower(r.order[i]) != key {
        assert Lower(r.order[i]) in r.spellings;
      }
      LowerKeysAppend(r.order, name);
    }
  }

  /** Removing the first occurrence of a value that occurs once keeps the
      other entries, in order. */
  lemma {:induction false} RemoveFirstFilters(s: seq<string>, x: string, key: string)
    requires x in s && Lower(x) == key
    requires forall i, j :: 0 <= i < j < |s| ==> Lower(s[i]) != Lower(s[j])
    ensures RemoveFirst(s, x) == DropKey(s, key)
  {
    if s[0] == x {
      forall i | 0 <= i < |s[1..]| ensures Lower(s[1..][i]) != key {
        assert s[1..][i] == s[i + 1];
      }
      DropKeyAbsent(s[1..], key);
    } else {
      var j :| 0 <= j < |s| && s[j] == x;
      assert s[1..][j - 1] == x;
      RemoveFirstFilters(s[1..], x, key);
    }
  }

  /** The names whose lower-case form differs from `key`, in order. */
  function DropKey(s: seq<string>, key: string): seq<string> {
    if s == [] then [] else (if Lower(s[0]) == key then [] else [s[0]]) + DropKey(s[1..], key)
  }

  lemma {:induction false} DropKeyAbsent(s: seq<string>, key: string)
    requires forall i :: 0 <= i < |s| ==> Lower(s[i]) != key
    ensures DropKey(s, key) == s
  {
    if s != [] {
      DropKeyAbsent(s[1..], key);
    }
  }

  /** Every name kept by `DropKey` comes from `s` and has another key. */
  lemma {:induction false} DropKeyFrom(s: seq<string>, key: string)
    ensures forall i :: 0 <= i < |DropKey(s, key)| ==>
              DropKey(s, key)[i] in s && Lower(DropKey(s, key)[i]) != key
  {
    if s != [] {
      DropKeyFrom(s[1..], key);
      var head := if Lower(s[0]) == key then [] else [s[0]];
      var tail := DropKey(s[1..], key);
      forall i | 0 <= i < |head + tail| ensures (head + tail)[i] in s && Lower((head + tail)[i]) != key {
        if i >= |head| {
          assert (head + tail)[i] == tail[i - |head|];
          assert tail[i - |head|] in s[1..];
        }
      }
    }
  }

  lemma {:induction false} DropKeyKeys(s: seq<string>, key: string)
    ensures LowerKeys(DropKey(s, key)) == LowerKeys(s) - {key}
  {
    if s != [] {
      DropKeyKeys(s[1..], key);
      var d := DropKey(s, key);
      if Lower(s[0]) != key {
        assert d == [s[0]] + DropKey(s[1..], key);
        assert d != [] && d[0] == s[0] && d[1..] == DropKey(s[1..], key);
        assert LowerKeys(d) == {Lower(s[0])} + LowerKeys(DropKey(s[1..], key));
      } else {
        assert d == [] + DropKey(s[1..], key) == DropKey(s[1..], key);
      }
    }
  }

  /** Putting in front a name whose key none of the others has keeps the
      names distinct up to case. */
  lemma DistinctCons(x: string, tail: seq<string>)
    requires forall i, j :: 0 <= i < j < |tail| ==> Lower(tail[i]) != Lower(tail[j])
    requires forall i :: 0 <= i < |tail| ==> Lower(tail[i]) != Lower(x)
    ensures forall i, j :: 0 <= i < j < |[x] + tail| ==> Lower(([x] + tail)[i]) != Lower(([x] + tail)[j])
  {
    var d := [x] + tail;
    forall i, j | 0 <= i < j < |d| ensures Lower(d[i]) != Lower(d[j]) {
      assert d[j] == tail[j - 1];
      if i > 0 {
        assert d[i] == tail[i - 1];
      }
    }
  }

  lemma {:induction false} DropKeyDistinct(s: seq<string>, key: string)
    requires forall i, j :: 0 <= i < j < |s| ==> Lower(s[i]) != Lower(s[j])
    ensures forall i, j :: 0 <= i < j < |DropKey(s, key)| ==> Lower(DropKey(s, key)[i]) != Lower(DropKey(s, key)[j])
  {
    if s != [] {
      DropKeyDistinct(s[1..], key);
      DropKeyFrom(s[1..], key);
      var tail := DropKey(s[1..], key);
      if Lower(s[0]) == key {
        assert DropKey(s, key) == tail;
      } else {
        forall i | 0 <= i < |tail| ensures Lower(tail[i]) != Lower(s[0]) {
          var j :| 0 <= j < |s[1..]| && s[1..][j] == tail[i];
          assert s[j + 1] == tail[i];
        }
        DistinctCons(s[0], tail);
        assert DropKey(s, key) == [s[0]] + tail;
      }
    }
  }

  /** The key of a present name has a recorded spelling, which is in the order. */
  lemma SpellingInOrder(r: Registry, key: string)
    requires Consistent(r) && key in r.templates
    ensures exists i :: 0 <= i < |r.order| && r.order[i] == r.spellings[key] && Lower(r.order[i]) == key
  {
    LowerKeysMember(r.order, key);
    var i :| 0 <= i < |r.order| && Lower(r.order[i]) == key;
  }

  /** `remove_style` keeps the invariant and removes exactly the names equal
      to `name` up to case, keeping the others in order. */
  lemma RemoveSpec(r: Registry, name: string)
    requires Consistent(r)
    ensures Consistent(Remove(r, name))
    ensures Remove(r, name).order == DropKey(r.order, Lower(name))
    ensures Remove(r, name).templates == r.templates - {Lower(name)}
    ensures !ContainsName(r, name) ==> Remove(r, name) == r
  {
    if Lower(name) !in r.templates {
      RemoveAbsent(r, name);
    } else {
      RemovePresent(r, name);
    }
  }

  /** `RemoveSpec` for a name the registry does not hold. */
  lemma RemoveAbsent(r: Registry, name: string)
    requires Consistent(r) && Lower(name) !in r.templates
    ensures Remove(r, name) == r
    ensures DropKey(r.order, Lower(name)) == r.order
    ensures r.templates - {Lower(name)} == r.templates
  {
    var key := Lower(name);
    forall i | 0 <= i < |r.order| ensures Lower(r.order[i]) != key {
      assert Lower(r.order[i]) in r.spellings;
    }
    DropKeyAbsent(r.order, key);
  }

  /** `RemoveSpec` for a name the registry holds. */
  lemma RemovePresent(r: Registry, name: string)
    requires Consistent(r) && Lower(name) in r.templates
    ensures Consistent(Remove(r, name))
    ensures Remove(r, name).order == DropKey(r.order, Lower(name))
    ensures Remove(r, name).templates == r.templates - {Lower(name)}
  {
    var key := Lower(name);
    SpellingInOrder(r, key);
    var i :| 0 <= i < |r.order| && r.order[i] == r.spellings[key] && Lower(r.order[i]) == key;
    var stored := r.order[i];
    assert (if stored != [] then stored else name) == stored by {
      if stored == [] {
        assert |name| == |Lower(name)| == 0;
      }
    }
    RemoveFirstFilters(r.order, stored, key);
    RemoveConsistent(r, key);
  }

  /** `remove_style` keeps the invariant. */
  lemma RemoveKeepsConsistent(r: Registry, name: string)
    requires Consistent(r)
    ensures Consistent(Remove(r, name))
  {
    RemoveSpec(r, name);
  }

  /** The structural part of `RemoveSpec`. */
  lemma RemoveConsistent(r: Registry, key: string)
    requires Consistent(r) && key in r.templates
    ensures Consistent(Registry(r.templates - {key}, r.spellings - {key}, DropKey(r.order, key)))
  {
    var order := DropKey(r.order, key);
    DropKeyDistinct(r.order, key);
    DropKeyFrom(r.order, key);
    DropKeyKeys(r.order, key);
    forall i | 0 <= i < |order|
      ensures Lower(order[i]) in r.spellings - {key} && (r.spellings - {key})[Lower(order[i])] == order[i]
    {
      var j :| 0 <= j < |r.order| && r.order[j] == order[i];
    }
  }

  // ---------------------------------------------------------------------
  // Properties of the operations

  /** After `add_style(name, template)` the name resolves to `template`, other
      keys are untouched, and the order grows only for a new name. An existing
      name keeps its original spelling and position. */
  lemma AddSpec(r: Registry, name: string, template: string)
    requires Consistent(r)
    ensures Add(r, name, template).templates == r.templates[Lower(name) := template]
    ensures ContainsName(r, name) ==>
              Add(r, name, template).order == r.order && Add(r, name, template).spellings == r.spellings
    ensures !ContainsName(r, name) ==> Add(r, name, template).order == r.order + [name]
    ensures Len(Add(r, name, template)) == if ContainsName(r, name) then Len(r) else Len(r) + 1
  {
    AddConsistent(r, name, template);
  }

  /** Adding a new name and removing it again gives back the same group. */
  lemma AddRemoveRoundTrip(r: Registry, name: string, template: string)
    requires Consistent(r) && !ContainsName(r, name)
    ensures Remove(Add(r, name, template), name) == r
  {
    var key := Lower(name);
    AddConsistent(r, name, template);
    var added := Add(r, name, template);
    RemoveSpec(added, name);
    AddedOrderDropped(r, name);
    assert added.templates - {key} == r.templates;
    assert added.spellings - {key} == r.spellings by {
      assert key !in r.spellings;
    }
  }

  /** Dropping the key of a newly appended name gives back the order before. */
  lemma AddedOrderDropped(r: Registry, name: string)
    requires Consistent(r) && !ContainsName(r, name)
    ensures DropKey(r.order + [name], Lower(name)) == r.order
  {
    forall i | 0 <= i < |r.order| ensures Lower(r.order[i]) != Lower(name) {
      assert Lower(r.order[i]) in r.spellings;
    }
    DropKeyAbsent(r.order, Lower(name));
    DropKeyAppend(r.order, name, Lower(name));
  }

  lemma DropKeyAppend(s: seq<string>, x: string, key: string)
    requires Lower(x) == key
    ensures DropKey(s + [x], key) == DropKey(s, key)
  {
    if s == [] {
      assert DropKey([x], key) == [] + DropKey([], key);
    } else {
      assert (s + [x])[1..] == s[1..] + [x];
      DropKeyAppend(s[1..], x, key);
    }
  }

  /** Every name returned by `get_names(quoted=True)` (or quoted with `'`)
      resolves back to its template through `get_style_template`. */
  lemma QuotedNamesResolve(r: Registry, q: Quoting, default: string)
    requires Consistent(r)
    requires q == Quoted || q == QuotedWith("'") || q == QuotedWith("\"")
    ensures |GetNames(r, q)| == |r.order|
    ensures forall i :: 0 <= i < |r.order| ==>
              GetStyleTemplate(r, GetNames(r, q)[i], default) == r.templates[Lower(r.order[i])]
  {
    var mark := Mark(q).value;
    forall i | 0 <= i < |r.order|
      ensures GetStyleTemplate(r, GetNames(r, q)[i], default) == r.templates[Lower(r.order[i])]
    {
      var quoted := mark + r.order[i] + mark;
      assert GetNames(r, q)[i] == quoted;
      StripTrimmed(quoted);
      UnquoteQuoted(r.order[i], mark);
      assert Lower(r.order[i]) in r.spellings;
    }
  }

  /** `contains` (and so `[]` and `del`) takes the name literally, while
      `get_style_template` unquotes it: for a group holding `X`, `'"X"'`
      is not contained and indexing with it raises `KeyError`, yet its
      template is found. */
  lemma ContainsIgnoresQuotes(template: string)
    ensures var r := Add(Empty, "X", template);
            !ContainsName(r, "\"X\"") &&
            GetItem(r, "\"X\"") == Err(StyleNotFound("\"X\"")) &&
            GetStyleTemplate(r, "\"X\"", "") == template
  {
    QuotedXKeys();
    var r := Add(Empty, "X", template);
    assert r.templates == map["x" := template];
    assert "\"x\"" != "x";
  }

  /** `"X"` is stored under `x`; its quoted spelling has the lower-cased key
      `"x"` with the quotes, but is looked up as `x`. */
  lemma QuotedXKeys()
    ensures Lower("X") == "x" && Lower("\"X\"") == "\"x\""
    ensures LookupKey("\"X\"") == "x"
  {
    assert Lower("X") == [LowerChar('X')] + Lower("");
    assert Lower("\"X\"") == [LowerChar('"')] + Lower("X\"");
    assert Lower("X\"") == [LowerChar('X')] + Lower("\"");
    StripTrimmed("\"X\"");
    UnquoteQuoted("X", "\"");
  }

  /** `update(other)` gives each of `other`'s names the template
      `other.get_style_template(name)`; a name that `get_style_template`
      cannot find back (here one with a leading space) is copied with an empty
      template. */
  lemma UpdateLosesPaddedName(template: string)
    ensures var other := Add(Empty, " a", template);
            var updated := AddFrom(Empty, other, other.order);
            " a" in updated.templates && updated.templates[" a"] == ""
  {
    AddPadded(template);
    AddFromPadded(Add(Empty, " a", template), template);
    AddPadded("");
  }

  /** Copying from the registry holding only `" a"` looks the name up as `"a"`,
      finds nothing, and adds `" a"` with the empty template. */
  lemma AddFromPadded(other: Registry, template: string)
    requires other == Registry(map[" a" := template], map[" a" := " a"], [" a"])
    ensures AddFrom(Empty, other, other.order) == Add(Empty, " a", "")
  {
    AddFromSingle(Empty, other, " a");
    PaddedMissing(other, template);
  }

  /** Copying a single name is one `add_style` call. */
  lemma AddFromSingle(r: Registry, other: Registry, name: string)
    ensures AddFrom(r, other, [name]) == Add(r, name, GetStyleTemplate(other, name, ""))
  {
    assert [name][..0] == [];
  }

  /** `" a"` is not found in the registry that holds only `" a"`. */
  lemma PaddedMissing(other: Registry, template: string)
    requires other == Registry(map[" a" := template], map[" a" := " a"], [" a"])
    ensures GetStyleTemplate(other, " a", "") == ""
  {
    PaddedKeys();
    assert "a" != " a";
  }

  /** Adding `" a"` to an empty registry records it under itself. */
  lemma AddPadded(template: string)
    ensures Add(Empty, " a", template) == Registry(map[" a" := template], map[" a" := " a"], [" a"])
  {
    LowerPadded();
    var r := Add(Empty, " a", template);
    assert r.templates == map[" a" := template];
    assert r.spellings == map[" a" := " a"];
    assert r.order == [] + [" a"] == [" a"];
  }

  /** The padded name `" a"` is its own lower-cased key, but is looked up as `"a"`. */
  lemma PaddedKeys()
    ensures Lower(" a") == " a"
    ensures LookupKey(" a") == "a"
  {
    LowerPadded();
    StripPadded();
    assert Unquote("a") == "a";
  }

  lemma LowerPadded()
    ensures Lower("a") == "a" && Lower(" a") == " a"
  {
    assert Lower("a") == [LowerChar('a')] + Lower("");
    assert Lower(" a") == [LowerChar(' ')] + Lower("a");
  }

  lemma StripPadded()
    ensures Strip(" a") == "a"
  {
    var padded: string := " a";
    assert !IsSpace('a') && IsSpace(' ');
    assert padded[|padded| - 1] == 'a' && padded[0] == ' ' && padded[1..] == "a";
    assert RStrip(padded) == padded;
    assert LStrip("a") == "a";
    assert LStrip(padded) == LStrip("a");
  }

  /** Names that `get_style_template` finds back (no surrounding white space,
      no surrounding quotes) are copied by `update` with their templates. */
  lemma {:induction false} UpdateCopies(r: Registry, other: Registry, names: seq<string>)
    requires forall i, j :: 0 <= i < j < |names| ==> Lower(names[i]) != Lower(names[j])
    requires forall i :: 0 <= i < |names| ==> LookupKey(names[i]) == Lower(names[i])
    ensures forall i :: 0 <= i < |names| ==>
              GetStyleTemplate(AddFrom(r, other, names), names[i], "") == GetStyleTemplate(other, names[i], "")
  {
    if names != [] {
      var prefix := names[..|names| - 1];
      UpdateCopies(r, other, prefix);
      var before := AddFrom(r, other, prefix);
      forall i | 0 <= i < |names| - 1
        ensures GetStyleTemplate(before, names[i], "") == GetStyleTemplate(other, names[i], "")
      {
        assert names[i] == prefix[i];
      }
      CopyStep(before, other, names);
    }
  }

  /** Copying the last name, distinct up to case from the earlier ones, keeps
      the earlier copies. */
  lemma CopyStep(before: Registry, other: Registry, names: seq<string>)
    requires names != []
    requires forall i :: 0 <= i < |names| - 1 ==> GetStyleTemplate(before, names[i], "") == GetStyleTemplate(other, names[i], "")
    requires forall i, j :: 0 <= i < j < |names| ==> Lower(names[i]) != Lower(names[j])
    requires forall i :: 0 <= i < |names| ==> LookupKey(names[i]) == Lower(names[i])
    ensures var name := names[|names| - 1];
            var after := Add(before, name, GetStyleTemplate(other, name, ""));
            forall i :: 0 <= i < |names| ==> GetStyleTemplate(after, names[i], "") == GetStyleTemplate(other, names[i], "")
  {
    var name := names[|names| - 1];
    var copied := GetStyleTemplate(other, name, "");
    forall i | 0 <= i < |names|
      ensures GetStyleTemplate(Add(before, name, copied), names[i], "") == GetStyleTemplate(other, names[i], "")
    {
      AddLookup(before, name, copied, names[i]);
      if i < |names| - 1 {
        assert LookupKey(names[i]) != Lower(name);
      } else {
        assert LookupKey(names[i]) == Lower(name);
      }
    }
  }

  /** A lookup after `add_style` finds the new template under the added key
      and the old one under any other key. */
  lemma AddLookup(r: Registry, name: string, template: string, query: string)
    ensures GetStyleTemplate(Add(r, name, template), query, "") ==
            if LookupKey(query) == Lower(name) then template else GetStyleTemplate(r, query, "")
  {
  }

  /** The parser's styles, all distinct up to case, become the group's names
      in the order they were declared. */
  lemma {:induction false} AddBlocksOrder(r: Registry, blocks: seq<StyleConfig.Block>)
    requires Consistent(r)
    requires forall i, j :: 0 <= i < j < |blocks| ==> Lower(blocks[i].name) != Lower(blocks[j].name)
    requires forall i :: 0 <= i < |blocks| ==> !ContainsName(r, blocks[i].name)
    ensures Consistent(AddBlocks(r, blocks))
    ensures AddBlocks(r, blocks).order == r.order + StyleConfig.Names(blocks)
  {
    if blocks != [] {
      var prefix := blocks[..|blocks| - 1];
      var b := blocks[|blocks| - 1];
      AddBlocksOrder(r, prefix);
      forall i | 0 <= i < |prefix| ensures Lower(prefix[i].name) != Lower(b.name) {
        assert prefix[i] == blocks[i];
      }
      AddBlocksFresh(r, prefix, b.name);
      AddFreshStep(r, AddBlocks(r, prefix), StyleConfig.Names(prefix), b);
    }
  }

  /** Adding the blocks up to `i + 1` adds block `i` after those before it. */
  lemma AddFromNext(r: Registry, other: Registry, names: seq<string>, i: nat)
    requires i < |names|
    ensures AddFrom(r, other, names[..i + 1]) ==
            Add(AddFrom(r, other, names[..i]), names[i], GetStyleTemplate(other, names[i], ""))
  {
    assert names[..i + 1][..i] == names[..i];
  }

  lemma AddBlocksNext(r: Registry, blocks: seq<StyleConfig.Block>, i: nat)
    requires i < |blocks|
    ensures AddBlocks(r, blocks[..i + 1]) == Add(AddBlocks(r, blocks[..i]), blocks[i].name, blocks[i].template)
  {
    assert blocks[..i + 1][..i] == blocks[..i];
  }

  /** The additions for the names up to `i + 1`: those up to `i`, then
      name `i` when it has an entry. */
  lemma AddListedNext(r: Registry, styles: Dict, names: seq<string>, i: nat)
    requires i < |names|
    ensures AddListed(r, styles, names[..i + 1]) ==
            if names[i] in styles.entries then Add(AddListed(r, styles, names[..i]), names[i], styles.entries[names[i]])
            else AddListed(r, styles, names[..i])
  {
    assert names[..i + 1][..i] == names[..i];
  }

  /** A name absent from the registry and from every block stays absent. */
  lemma {:induction false} AddBlocksFresh(r: Registry, blocks: seq<StyleConfig.Block>, name: string)
    requires !ContainsName(r, name)
    requires forall i :: 0 <= i < |blocks| ==> Lower(blocks[i].name) != Lower(name)
    ensures !ContainsName(AddBlocks(r, blocks), name)
  {
    if blocks != [] {
      AddBlocksFresh(r, blocks[..|blocks| - 1], name);
    }
  }

  /** Adding a fresh block appends its name to the order. */
  lemma AddFreshStep(r: Registry, before: Registry, names: seq<string>, b: StyleConfig.Block)
    requires Consistent(before) && before.order == r.order + names
    requires !ContainsName(before, b.name)
    ensures Consistent(Add(before, b.name, b.template))
    ensures Add(before, b.name, b.template).order == r.order + (names + [b.name])
  {
    AddConsistent(before, b.name, b.template);
  }

  /** The keys after adding blocks are the earlier keys and the blocks' keys. */
  lemma {:induction false} AddBlocksKeys(r: Registry, blocks: seq<StyleConfig.Block>)
    ensures forall k :: k in AddBlocks(r, blocks).templates ==>
              k in r.templates || exists i :: 0 <= i < |blocks| && Lower(blocks[i].name) == k
  {
    if blocks != [] {
      var prefix := blocks[..|blocks| - 1];
      AddBlocksKeys(r, prefix);
      forall k | k in AddBlocks(r, blocks).templates
        ensures k in r.templates || exists i :: 0 <= i < |blocks| && Lower(blocks[i].name) == k
      {
        if k != Lower(blocks[|blocks| - 1].name) {
          assert k in AddBlocks(r, prefix).templates;
          if !(k in r.templates) {
            var i :| 0 <= i < |prefix| && Lower(prefix[i].name) == k;
            assert blocks[i] == prefix[i];
          }
        }
      }
    }
  }

  // ---------------------------------------------------------------------
  // The object

  class StyleGroup {
    var category: string
    var version: string
    var templates: map<string, string>
    var spellings: map<string, string>
    var order: seq<string>

    function Value(): Registry
      reads this
    {
      Registry(templates, spellings, order)
    }

    ghost predicate Valid()
      reads this
    {
      Consistent(Value())
    }

    /** `StyleGroup(category, version, styles, ordered_names)`. */
    constructor(category: string, version: string, styles: Option<Dict>, orderedNames: Option<seq<string>>)
      ensures Valid()
      ensures Value() == Build(styles, orderedNames)
      ensures this.category == category && this.version == version
    {
      this.category := category;
      this.version := version;
      templates := map[];
      spellings := map[];
      order := [];
      new;
      if styles.Some? {
        AddAll(styles.value, orderedNames.GetOr(styles.value.keys));
      }
    }

    /** The loop of the constructor: `add_style` for each listed name that
        the styles hold. */
    method AddAll(d: Dict, names: seq<string>)
      requires Valid() && Value() == Empty
      modifies this
      ensures Valid()
      ensures Value() == AddListed(Empty, d, names)
      ensures category == old(category) && version == old(version)
    {
      var i := 0;
      while i < |names|
        invariant i <= |names|
        invariant Valid()
        invariant Value() == AddListed(Empty, d, names[..i])
        invariant category == old(category) && version == old(version)
      {
        AddListedNext(Empty, d, names, i);
        if names[i] in d.entries {
          AddStyle(names[i], d.entries[names[i]]);
        }
        i := i + 1;
      }
      assert names[..i] == names;
    }

    /** `add_style(name, template)`. */
    method AddStyle(name: string, template: string)
      requires Valid()
      modifies this
      ensures Valid()
      ensures Value() == Add(old(Value()), name, template)
      ensures category == old(category) && version == old(version)
    {
      AddConsistent(Value(), name, template);
      var key := Lower(name);
      if key in templates {
        templates := templates[key := template];
        return;
      }
      templates := templates[key := template];
      spellings := spellings[key := name];
      order := order + [name];
    }

    /** `group[name] = template`. */
    method SetItem(name: string, template: string)
      requires Valid()
      modifies this
      ensures Valid()
      ensures Value() == Add(old(Value()), name, template)
      ensures category == old(category) && version == old(version)
    {
      AddStyle(name, template);
    }

    /** `remove_style(name)`. */
    method RemoveStyle(name: string)
      requires Valid()
      modifies this
      ensures Valid()
      ensures Value() == Remove(old(Value()), name)
      ensures category == old(category) && version == old(version)
    {
      ghost var before := Value();
      RemoveKeepsConsistent(before, name);
      var key := Lower(name);
      if key !in templates {
        return;
      }
      var stored := if key in spellings && spellings[key] != [] then spellings[key] else name;
      var newTemplates, newSpellings, newOrder := templates - {key}, spellings - {key}, RemoveFirst(order, stored);
      assert Registry(newTemplates, newSpellings, newOrder) == Remove(before, name);
      templates, spellings, order := newTemplates, newSpellings, newOrder;
    }

    /** `del group[name]`: `KeyError` when `contains(name)` fails. */
    method DelItem(name: string) returns (error: Option<Error>)
      requires Valid()
      modifies this
      ensures Valid()
      ensures DelItemResult(old(Value()), name) == if error.Some? then Err(error.value) else Ok(Value())
      ensures error.Some? ==> Value() == old(Value())
      ensures category == old(category) && version == old(version)
    {
      if !ContainsName(Value(), name) {
        return Some(StyleNotFound(name));
      }
      RemoveStyle(name);
      return None;
    }

    /** `update(other)`, for a different group. */
    method Update(other: StyleGroup)
      requires Valid() && other != this
      modifies this
      ensures Valid()
      ensures Value() == AddFrom(old(Value()), other.Value(), other.order)
      ensures category == old(category) && version == old(version)
    {
      var names := other.order;
      var i := 0;
      while i < |names|
        invariant i <= |names|
        invariant Valid()
        invariant Value() == AddFrom(old(Value()), other.Value(), names[..i])
        invariant category == old(category) && version == old(version)
      {
        AddFromNext(old(Value()), other.Value(), names, i);
        AddStyle(names[i], GetStyleTemplate(other.Value(), names[i], ""));
        i := i + 1;
      }
      assert names[..i] == names;
    }

    /** `StyleGroup.from_string(text, category=..., version=...)`: the parsed
      styles, final block included, added in order. */
    static method FromString(text: string, category: string, version: string) returns (g: StyleGroup)
      ensures fresh(g) && g.Valid()
      ensures g.Value() == AddBlocks(Empty, StyleConfig.Blocks(text, true))
      ensures g.category == category && g.version == version
    {
      g := new StyleGroup(category, version, None, None);
      var blocks := StyleConfig.ScanBlocks(text, true);
      var i := 0;
      while i < |blocks|
        invariant i <= |blocks|
        invariant g.Valid()
        invariant g.Value() == AddBlocks(Empty, blocks[..i])
        invariant g.category == category && g.version == version
      {
        AddBlocksNext(Empty, blocks, i);
        g.AddStyle(blocks[i].name, blocks[i].template);
        i := i + 1;
      }
      assert blocks[..i] == blocks;
    }
  }
}
