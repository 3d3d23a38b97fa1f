/** `StyleGroup` of nodes/styles/style_group.py: a case-sensitive registry of
    style templates with a category and a version, kept as a dict (`_styles`)
    and the list of its keys in insertion order (`_ordered_keys`). */
module StylesStyleGroup {
  import opened Wrappers
  import opened Quoting
  import opened PyDict
  import opened OrderedStyles
  import StyleConfig
  import Text

  /** `get_style(name, default)`: one pair of surrounding quotes is removed,
      then the name is looked up exactly as written. */
  function StyleOf(t: Table, name: string, default: string): string {
    match Lookup(t, Unquote(name))
    case Some(template) => template
    case None => default
  }

  /** A name in quotes finds the template of the name itself. */
  lemma StyleOfQuoted(t: Table, name: string, mark: string, default: string)
    requires mark == "'" || mark == "\""
    ensures StyleOf(t, mark + name + mark, default) == if name in t.styles then t.styles[name] else default
  {
    UnquoteQuoted(name, mark);
  }

  /** Every name returned by `get_names(quoted=True)` (or with a single or
      double quote as the mark) leads `get_style` back to its template. */
  lemma QuotedNamesResolve(t: Table, q: Quoting, default: string)
    requires Consistent(t)
    requires q == Quoted || q == QuotedWith("'") || q == QuotedWith("\"")
    ensures forall i :: 0 <= i < |t.keys| ==>
              StyleOf(t, ApplyQuoting(t.keys, q)[i], default) == t.styles[t.keys[i]]
  {
    var mark := Mark(q).value;
    forall i | 0 <= i < |t.keys|
      ensures StyleOf(t, ApplyQuoting(t.keys, q)[i], default) == t.styles[t.keys[i]]
    {
      assert t.keys[i] in KeySet(t.keys);
      StyleOfQuoted(t, t.keys[i], mark, default);
    }
  }

  /** The lookup does not fold case: `get_style("a")` misses a style added
      as `"A"`. */
  lemma StyleOfCaseSensitive(template: string, default: string)
    ensures StyleOf(Put(Empty, "A", template), "a", default) == default
    ensures StyleOf(Put(Empty, "A", template), "A", default) == template
  {
    UnquotePlainLetters();
    var t := Put(Empty, "A", template);
    assert t.styles == map["A" := template];
    assert "a" != "A";
  }

  /** The one-letter names `"a"` and `"A"` carry no quotes. */
  lemma UnquotePlainLetters()
    ensures Unquote("a") == "a" && Unquote("A") == "A"
  {
    var lower: string, upper: string := "a", "A";
    assert lower[0] == 'a' && upper[0] == 'A';
    assert !Text.StartsWith(lower, "'") && !Text.StartsWith(lower, "\"");
    assert !Text.StartsWith(upper, "'") && !Text.StartsWith(upper, "\"");
  }

  /** What `StyleGroup(styles, ordered_names, category, version)` gives. */
  datatype Outcome = Built(group: StyleGroup) | Failed(error: Error) | LeftIncomplete

  class StyleGroup {
    var category: string
    var version: string
    var styles: map<string, string>
    var orderedKeys: seq<string>

    /** The registry's contents as a value. */
    function Value(): Table
      reads this
    {
      Table(styles, orderedKeys)
    }

    ghost predicate Valid()
      reads this
    {
      Consistent(Value())
    }

    /** An object whose attributes are set directly. */
    constructor Init(category: string, version: string, t: Table)
      requires Consistent(t)
      ensures Valid() && Value() == t
      ensures this.category == category && this.version == version
    {
      this.category := category;
      this.version := version;
      styles := t.styles;
      orderedKeys := t.keys;
    }

    /** `StyleGroup(styles, ordered_names, category, version)`. With both
        `styles` and `ordered_names` the loop reads `self._styles` before it
        exists. */
    static method Create(styles: Option<Dict>, orderedNames: Option<seq<string>>,
                         category: string, version: string) returns (r: Outcome)
      ensures r.Built? <==> Construct(styles, orderedNames).Created?
      ensures r.Built? ==> fresh(r.group) && r.group.Valid() &&
                           r.group.Value() == Construct(styles, orderedNames).table &&
                           r.group.category == category && r.group.version == version
      ensures r.Failed? ==> Construct(styles, orderedNames) == Raised(r.error)
      ensures r.LeftIncomplete? <==> Construct(styles, orderedNames).Incomplete?
    {
      if styles.None? {
        EmptyConsistent();
        var g := new StyleGroup.Init(category, version, Empty);
        return Built(g);
      }
      var d := styles.value;
      if orderedNames.None? {
        ConstructCopies(d);
        var g := new StyleGroup.Init(category, version, Table(d.entries, d.keys));
        return Built(g);
      }
      var names := orderedNames.value;
      var i := 0;
      while i < |names|
        invariant i <= |names|
        invariant forall j :: 0 <= j < i ==> names[j] !in d.entries
      {
        if names[i] in d.entries {
          return Failed(AttributeError("_styles"));
        }
        i := i + 1;
      }
      return LeftIncomplete;
    }

    /** `from_string(string, category, version)`: the styles of a
        configuration text, including the one still pending at its end. */
    static method FromString(text: string, category: string, version: string) returns (g: StyleGroup)
      ensures fresh(g) && g.Valid()
      ensures g.Value() == PutBlocks(Empty, StyleConfig.Blocks(text, true))
      ensures g.category == category && g.version == version
    {
      EmptyConsistent();
      g := new StyleGroup.Init(category, version, Empty);
      var blocks := StyleConfig.ScanBlocks(text, true);
      var i := 0;
      while i < |blocks|
        invariant i <= |blocks|
        invariant g.Valid() && g.Value() == PutBlocks(Empty, blocks[..i])
        invariant g.category == category && g.version == version
      {
        g.AddStyle(blocks[i].name, blocks[i].template);
        PutBlocksNext(Empty, blocks, i);
        i := i + 1;
      }
      assert blocks[..i] == blocks;
    }

    /** `add_style(name, style_value)` (and `obj[name] = style_value`). */
    method AddStyle(name: string, value: string)
      requires Valid()
      modifies this
      ensures Valid() && Value() == Put(old(Value()), name, value)
      ensures category == old(category) && version == old(version)
    {
      PutConsistent(Value(), name, value);
      if name !in styles {
        orderedKeys := orderedKeys + [name];
      }
      styles := styles[name := value];
    }

    /** `remove_style(name)`. */
    method RemoveStyle(name: string)
      requires Valid()
      modifies this
      ensures Valid() && Value() == Delete(old(Value()), name)
      ensures category == old(category) && version == old(version)
    {
      DeleteSpec(Value(), name);
      if name in styles {
        styles := styles - {name};
        orderedKeys := Text.RemoveFirst(orderedKeys, name);
      }
    }

    /** `get_names(quoted)`: the ordered names, each wrapped in the quote mark
        when one is asked for. */
    method GetNames(q: Quoting) returns (names: seq<string>)
      ensures names == ApplyQuoting(orderedKeys, q)
    {
      var mark := Mark(q);
      if mark.None? {
        return orderedKeys;
      }
      names := [];
      var i := 0;
      while i < |orderedKeys|
        invariant i <= |orderedKeys|
        invariant names == QuoteAll(orderedKeys[..i], mark.value)
      {
        names := names + [mark.value + orderedKeys[i] + mark.value];
        i := i + 1;
      }
      assert orderedKeys[..i] == orderedKeys;
    }

    /** `del obj[key]`: the registry is never changed; the error raised is
        returned. */
    method DelItem(key: string) returns (error: Error)
      ensures Err(error) == OrderedStyles.DelItem(Value(), key)
    {
      if key in styles {
        error := RecursionError;
      } else {
        error := StyleNotFound(key);
      }
    }
  }
}
