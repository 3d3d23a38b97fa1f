/** `Styles` of nodes/styles/base.py: the earlier, category-less form of the
    case-sensitive style registry. Its `get` looks names up exactly (no
    unquoting) and its `from_config` parser does not emit the style still
    pending at the end of the text. */
module StylesBase {
  import opened Wrappers
  import opened PyDict
  import opened OrderedStyles
  import Text
  import StyleConfig
  import StylesStyleGroup

  /** `get(name, default)`. */
  function Get(t: Table, name: string, default: Option<string>): (r: Option<string>)
    ensures name in t.styles ==> r == Some(t.styles[name])
    ensures name !in t.styles ==> r == default
  {
    match Lookup(t, name)
    case Some(template) => Some(template)
    case None => default
  }

  /** A quoted name is not unquoted here, unlike `get_style` in
      nodes/styles/style_group.py: the same quoted name finds the template
      there and misses here. */
  lemma GetKeepsQuotes(t: Table, name: string)
    requires name in t.styles && "\"" + name + "\"" !in t.styles
    ensures Get(t, "\"" + name + "\"", None) == None
    ensures StylesStyleGroup.StyleOf(t, "\"" + name + "\"", "") == t.styles[name]
  {
    StylesStyleGroup.StyleOfQuoted(t, name, "\"", "");
  }

  /** A configuration whose `>>>` names are distinct defines, through
      `from_config`, every declared style except the last one when the text
      ends inside a style body. */
  lemma {:induction false} FromConfigNames(text: string)
    requires var b := StyleConfig.Blocks(text, false);
             forall i, j :: 0 <= i < j < |b| ==> b[i].name != b[j].name
    ensures var st := StyleConfig.ScanLines(Text.SplitLines(text));
            var names := StyleConfig.DeclaredNames(Text.SplitLines(text));
            var t := PutBlocks(Empty, StyleConfig.Blocks(text, false));
            Consistent(t) &&
            if st.action.Some? && StyleConfig.IsStyleAction(st.action.value)
            then names != [] && t.keys == names[..|names| - 1]
            else t.keys == names
  {
    StyleConfig.UnflushedNames(text);
    PutBlocksDistinct(StyleConfig.Blocks(text, false));
  }

  /** What `Styles(styles, ordered_names)` gives. */
  datatype Outcome = Built(styles: Styles) | Failed(error: Error) | LeftIncomplete

  class Styles {
    var styles: map<string, string>
    var orderedKeys: seq<string>

    /** The registry's contents as a value. */
    function Value(): Table
      reads this
    {
      Table(styles, orderedKeys)
    }

    ghost predicate Valid()
      reads this
    {
      Consistent(Value())
    }

    /** An object whose attributes are set directly. */
    constructor Init(t: Table)
      requires Consistent(t)
      ensures Valid() && Value() == t
    {
      styles := t.styles;
      orderedKeys := t.keys;
    }

    /** `Styles(styles, ordered_names)`; with both arguments the loop reads
        `self._styles` before it exists. */
    static method Create(styles: Option<Dict>, orderedNames: Option<seq<string>>) returns (r: Outcome)
      ensures r.Built? <==> Construct(styles, orderedNames).Created?
      ensures r.Built? ==> fresh(r.styles) && r.styles.Valid() &&
                           r.styles.Value() == Construct(styles, orderedNames).table
      ensures r.Failed? ==> Construct(styles, orderedNames) == Raised(r.error)
      ensures r.LeftIncomplete? <==> Construct(styles, orderedNames).Incomplete?
    {
      if styles.None? {
        EmptyConsistent();
        var s := new Styles.Init(Empty);
        return Built(s);
      }
      var d := styles.value;
      if orderedNames.None? {
        ConstructCopies(d);
        var s := new Styles.Init(Table(d.entries, d.keys));
        return Built(s);
      }
      var names := orderedNames.value;
      var i := 0;
      while i < |names|
        invariant i <= |names|
        invariant forall j :: 0 <= j < i ==> names[j] !in d.entries
      {
        if names[i] in d.entries {
          return Failed(AttributeError("_styles"));
        }
        i := i + 1;
      }
      return LeftIncomplete;
    }

    /** `from_config(config)`: the styles closed by a later marker; the one
        pending at the end of the text is not added. */
    static method FromConfig(config: string) returns (s: Styles)
      ensures fresh(s) && s.Valid()
      ensures s.Value() == PutBlocks(Empty, StyleConfig.Blocks(config, false))
    {
      EmptyConsistent();
      s := new Styles.Init(Empty);
      var blocks := StyleConfig.ScanBlocks(config, false);
      var i := 0;
      while i < |blocks|
        invariant i <= |blocks|
        invariant s.Valid() && s.Value() == PutBlocks(Empty, blocks[..i])
      {
        s.AddStyle(blocks[i].name, blocks[i].template);
        PutBlocksNext(Empty, blocks, i);
        i := i + 1;
      }
      assert blocks[..i] == blocks;
    }

    /** `add_style(name, style_value)` (and `obj[name] = style_value`). */
    method AddStyle(name: string, value: string)
      requires Valid()
      modifies this
      ensures Valid() && Value() == Put(old(Value()), name, value)
    {
      PutConsistent(Value(), name, value);
      if name !in styles {
        orderedKeys := orderedKeys + [name];
      }
      styles := styles[name := value];
    }

    /** `remove_style(name)`. */
    method RemoveStyle(name: string)
      requires Valid()
      modifies this
      ensures Valid() && Value() == Delete(old(Value()), name)
    {
      DeleteSpec(Value(), name);
      if name in styles {
        styles := styles - {name};
        orderedKeys := Text.RemoveFirst(orderedKeys, name);
      }
    }

    /** `del obj[key]`: the registry is never changed; the error raised is
        returned. */
    method DelItem(key: string) returns (error: Error)
      ensures Err(error) == OrderedStyles.DelItem(Value(), key)
    {
      if key in styles {
        error := RecursionError;
      } else {
        error := StyleNotFound(key);
      }
    }
  }
}
