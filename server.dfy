/** The style listings that nodes/server.py serves to the web front end:
    `_style_names_by_category`, the style names of the predefined groups
    gathered per category, and `_style_names_by_category_by_version`. */
module Server {
  import opened Quoting
  import opened LibStyleGroup
  import opened StylePromptEncoder

  /** A dictionary from category to a list of names: its keys in insertion
      order and its entries. */
  datatype Listing = Listing(keys: seq<string>, lists: map<string, seq<string>>)

  /** What the loop has built after the given groups: each group's names are
      appended to the list of its category, a new category being added at the
      end of the keys (`setdefault`, then `extend`). */
  function ByCategory(groups: seq<Group>, q: Quoting): Listing {
    if groups == [] then Listing([], map[])
    else
      var before := ByCategory(groups[..|groups| - 1], q);
      var g := groups[|groups| - 1];
      var names := GetNames(g.styles, q);
      if g.category in before.lists
      then Listing(before.keys, before.lists[g.category := before.lists[g.category] + names])
      else Listing(before.keys + [g.category], before.lists[g.category := names])
  }

  /** `_style_names_by_category(quoted)`. */
  method StyleNamesByCategory(groups: seq<Group>, q: Quoting) returns (keys: seq<string>, lists: map<string, seq<string>>)
    ensures Listing(keys, lists) == ByCategory(groups, q)
  {
    keys := [];
    lists := map[];
    var i := 0;
    while i < |groups|
      invariant i <= |groups|
      invariant keys == ByCategory(groups[..i], q).keys
      invariant lists == ByCategory(groups[..i], q).lists
    {
      assert groups[..i + 1][..i] == groups[..i];
      var category := groups[i].category;
      if category !in lists {
        keys := keys + [category];
        lists := lists[category := []];
      }
      assert [] + GetNames(groups[i].styles, q) == GetNames(groups[i].styles, q);
      lists := lists[category := lists[category] + GetNames(groups[i].styles, q)];
      i := i + 1;
    }
    assert groups[..i] == groups;
  }

  /** `_style_names_by_category_by_version()`: not implemented by the
      repository, always empty. */
  function StyleNamesByCategoryByVersion(): (r: map<string, map<string, seq<string>>>)
    ensures |r| == 0
  {
    map[]
  }

  // ---------------------------------------------------------------------
  // Reference definitions

  /** The distinct entries of `s`, in order of first appearance. */
  function FirstAppearances(s: seq<string>): seq<string> {
    if s == [] then []
    else
      var before := FirstAppearances(s[..|s| - 1]);
      if s[|s| - 1] in before then before else before + [s[|s| - 1]]
  }

  /** The names of the groups of category `c`, group after group. */
  function NamesIn(groups: seq<Group>, c: string, q: Quoting): seq<string> {
    if groups == [] then []
    else
      var g := groups[|groups| - 1];
      NamesIn(groups[..|groups| - 1], c, q) + (if g.category == c then GetNames(g.styles, q) else [])
  }

  /** The total length of the lists under `keys`. */
  function Total(keys: seq<string>, lists: map<string, seq<string>>): nat {
    if keys == [] then 0
    else Total(keys[..|keys| - 1], lists) + (if keys[|keys| - 1] in lists then |lists[keys[|keys| - 1]]| else 0)
  }

  predicate Distinct(s: seq<string>) {
    forall i, j :: 0 <= i < j < |s| ==> s[i] != s[j]
  }

  // ---------------------------------------------------------------------
  // Properties

  /** The first appearances are distinct and are exactly the entries. */
  lemma {:induction false} FirstAppearancesSpec(s: seq<string>)
    ensures Distinct(FirstAppearances(s))
    ensures forall x :: x in FirstAppearances(s) <==> x in s
  {
    if s != [] {
      var prefix := s[..|s| - 1];
      FirstAppearancesSpec(prefix);
      forall x
        ensures x in FirstAppearances(s) <==> x in s
      {
        assert x in s <==> x in prefix || x == s[|s| - 1] by {
          assert s == prefix + [s[|s| - 1]];
        }
      }
    }
  }

  /** The keys are the group categories in order of first appearance, and
      they are exactly the categories that have an entry. */
  lemma {:induction false} KeysAreFirstAppearances(groups: seq<Group>, q: Quoting)
    ensures ByCategory(groups, q).keys == FirstAppearances(CategoryNames(groups))
    ensures forall c :: c in ByCategory(groups, q).lists <==> c in ByCategory(groups, q).keys
  {
    if groups != [] {
      var prefix := groups[..|groups| - 1];
      KeysAreFirstAppearances(prefix, q);
      assert CategoryNames(groups)[..|groups| - 1] == CategoryNames(prefix);
    }
  }

  /** Each category lists the names of its groups, concatenated in group order. */
  lemma {:induction false} ListsConcatenate(groups: seq<Group>, q: Quoting, c: string)
    ensures c in ByCategory(groups, q).lists ==> ByCategory(groups, q).lists[c] == NamesIn(groups, c, q)
    ensures c !in ByCategory(groups, q).lists ==> NamesIn(groups, c, q) == []
  {
    if groups != [] {
      ListsConcatenate(groups[..|groups| - 1], q, c);
    }
  }

  /** Quoting wraps every name of every list and changes nothing else. */
  lemma {:induction false} QuotedLists(groups: seq<Group>, c: string)
    ensures NamesIn(groups, c, Quoted) == QuoteAll(NamesIn(groups, c, NotQuoted), "\"")
  {
    if groups != [] {
      var prefix := groups[..|groups| - 1];
      QuotedLists(prefix, c);
      var g := groups[|groups| - 1];
      var bare := NamesIn(prefix, c, NotQuoted);
      var more := if g.category == c then g.styles.order else [];
      assert NamesIn(groups, c, NotQuoted) == bare + more;
      assert QuoteAll(bare + more, "\"") == QuoteAll(bare, "\"") + QuoteAll(more, "\"");
    }
  }

  /** Adding to the list of one key that appears once changes the total by
      the length added. */
  lemma {:induction false} TotalExtend(keys: seq<string>, lists: map<string, seq<string>>, c: string, more: seq<string>)
    requires Distinct(keys) && c in keys && c in lists
    ensures Total(keys, lists[c := lists[c] + more]) == Total(keys, lists) + |more|
  {
    var prefix := keys[..|keys| - 1];
    var last := keys[|keys| - 1];
    if last == c {
      assert c !in prefix;
      TotalUnchanged(prefix, lists, c, lists[c] + more);
    } else {
      assert c in prefix by {
        assert keys == prefix + [last];
      }
      TotalExtend(prefix, lists, c, more);
    }
  }

  /** Changing the entry of a key outside `keys` leaves their total alone. */
  lemma {:induction false} TotalUnchanged(keys: seq<string>, lists: map<string, seq<string>>, c: string, v: seq<string>)
    requires c !in keys
    ensures Total(keys, lists[c := v]) == Total(keys, lists)
  {
    if keys != [] {
      TotalUnchanged(keys[..|keys| - 1], lists, c, v);
    }
  }

  /** The lists hold as many names as the groups do. */
  lemma {:induction false} TotalIsNameCount(groups: seq<Group>, q: Quoting)
    ensures Total(ByCategory(groups, q).keys, ByCategory(groups, q).lists) == NameCount(groups)
  {
    if groups != [] {
      var prefix := groups[..|groups| - 1];
      var g := groups[|groups| - 1];
      TotalIsNameCount(prefix, q);
      KeysAreFirstAppearances(prefix, q);
      FirstAppearancesSpec(CategoryNames(prefix));
      TotalStep(ByCategory(prefix, q), g.category, GetNames(g.styles, q));
    }
  }

  /** One more group adds the length of its names to the total, whether its
      category is already listed or new. */
  lemma TotalStep(before: Listing, c: string, names: seq<string>)
    requires Distinct(before.keys)
    requires forall x :: x in before.lists <==> x in before.keys
    ensures c in before.lists ==>
              Total(before.keys, before.lists[c := before.lists[c] + names]) == Total(before.keys, before.lists) + |names|
    ensures c !in before.lists ==>
              Total(before.keys + [c], before.lists[c := names]) == Total(before.keys, before.lists) + |names|
  {
    if c in before.lists {
      TotalExtend(before.keys, before.lists, c, names);
    } else {
      var keys := before.keys + [c];
      assert keys[..|keys| - 1] == before.keys;
      TotalUnchanged(before.keys, before.lists, c, names);
    }
  }
}
