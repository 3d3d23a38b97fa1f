/** The style step of the "Style & Prompt Encoder" node
    (nodes/style_prompt_encoder.py) and the queries it runs on the list of
    predefined style groups (`PREDEFINED_STYLE_GROUPS`).

    The groups are read, never changed, by the node, so each is taken as the
    value of a lib `StyleGroup`: its category, its version and its registry.
    The same queries appear word for word in nodes/style_string_injector.py;
    they are defined once, here. */
module StylePromptEncoder {
  import opened Wrappers
  import opened Quoting
  import opened LibStyleGroup
  import opened Text
  import StyleConfig
  import StyleTemplate

  /** One predefined `StyleGroup`, as a value. */
  datatype Group = Group(category: string, version: string, styles: Registry)

  /** What `validate_inputs` returns: `True`, or the message shown to the user. */
  datatype Validation = Accepted | Rejected(message: string)

  // ---------------------------------------------------------------------
  // Queries on the predefined groups

  /** `category_names()`: the category of every group, in group order. */
  function CategoryNames(groups: seq<Group>): (r: seq<string>)
    ensures |r| == |groups|
    ensures forall i :: 0 <= i < |groups| ==> r[i] == groups[i].category
  {
    if groups == [] then [] else CategoryNames(groups[..|groups| - 1]) + [groups[|groups| - 1].category]
  }

  /** The names each group lists with `get_names(quoted=True)`, one group after
      the other. */
  function QuotedNames(groups: seq<Group>): seq<string> {
    if groups == [] then []
    else QuotedNames(groups[..|groups| - 1]) + GetNames(groups[|groups| - 1].styles, Quoted)
  }

  /** The total number of names held by the groups. */
  function NameCount(groups: seq<Group>): nat {
    if groups == [] then 0 else NameCount(groups[..|groups| - 1]) + |groups[|groups| - 1].styles.order|
  }

  /** `style_names()`: `"none"`, then each group's quoted names, extending the
      list group by group. */
  method StyleNames(groups: seq<Group>) returns (names: seq<string>)
    ensures names == ["none"] + QuotedNames(groups)
  {
    names := ["none"];
    var i := 0;
    while i < |groups|
      invariant i <= |groups|
      invariant names == ["none"] + QuotedNames(groups[..i])
    {
      assert groups[..i + 1][..i] == groups[..i];
      names := names + GetNames(groups[i].styles, Quoted);
      i := i + 1;
    }
    assert groups[..i] == groups;
  }

  /** `get_predefined_style_template(name)` as written. The predefined groups
      are built by nodes/styles/predefined_styles_v090.py with the `StyleGroup`
      of nodes/styles/style_group.py, which has `get_style` but no
      `get_style_template`: the call on the first group raises
      `AttributeError`, and only an empty group list gives `""`. */
  function PredefinedLookup(groups: seq<Group>, name: string): (r: Result<string>)
    ensures r.Ok? <==> groups == []
    ensures r.Ok? ==> r.value == ""
    ensures r.Err? ==> r.error == AttributeError("get_style_template")
  {
    if groups == [] then Ok("") else Err(AttributeError("get_style_template"))
  }

  /** The search `get_predefined_style_template` is evidently meant to run, on
      groups that have `get_style_template` (the lib `StyleGroup`): the first
      non-empty template the groups give for `name`, searched in group order,
      or `""`. */
  function PredefinedTemplate(groups: seq<Group>, name: string): string {
    if groups == [] then ""
    else
      var template := GetStyleTemplate(groups[0].styles, name, "");
      if template != "" then template else PredefinedTemplate(groups[1..], name)
  }

  /** `default_category_name()`: the first group's category; `IndexError` when
      there is no group. */
  function DefaultCategory(groups: seq<Group>): (r: Result<string>)
    ensures r.Ok? <==> groups != []
    ensures r.Ok? ==> r.value in CategoryNames(groups)
  {
    if groups == [] then Err(IndexError(0)) else Ok(groups[0].category)
  }

  /** `default_style_name()`: the first quoted name of the first group;
      `IndexError` when there is no group or the first group is empty. */
  function DefaultStyle(groups: seq<Group>): (r: Result<string>)
    ensures r.Ok? <==> groups != [] && groups[0].styles.order != []
  {
    if groups == [] || groups[0].styles.order == [] then Err(IndexError(0))
    else Ok(GetNames(groups[0].styles, Quoted)[0])
  }

  // ---------------------------------------------------------------------
  // The node

  /** `StyleGroup.from_string(customization)`: the user's own styles. */
  function CustomStyles(customization: string): Registry {
    AddBlocks(Empty, StyleConfig.Blocks(customization, true))
  }

  /** Whether `execute` reaches the predefined lookup: a string style other
      than `"none"` that the custom styles do not give a template for. */
  predicate ReachesPredefined(style: Option<string>, customization: string) {
    style.Some? && style.value != "none" &&
    GetStyleTemplate(CustomStyles(customization), style.value, "") == ""
  }

  /** The template `execute` settles on (`""`: none), or the error of the
      predefined lookup. `style` is `None` when the input is not a string. The
      custom styles are searched first, the predefined groups only when they
      give nothing. */
  function SelectTemplate(groups: seq<Group>, style: Option<string>, customization: string): Result<string> {
    if style.Some? && style.value != "none" then
      var custom := GetStyleTemplate(CustomStyles(customization), style.value, "");
      if custom != "" then Ok(custom) else PredefinedLookup(groups, style.value)
    else Ok("")
  }

  /** The prompt `execute` encodes: the text styled with the selected template,
      booster off, or the text itself when no template was selected. */
  function StyledPrompt(groups: seq<Group>, style: Option<string>, text: string, customization: string): Result<string> {
    var template :- SelectTemplate(groups, style, customization);
    Ok(if template != "" then StyleTemplate.Apply(text, template, false) else text)
  }

  /** The template `execute` would settle on with the intended predefined
      search. */
  function IntendedTemplate(groups: seq<Group>, style: Option<string>, customization: string): string {
    if style.Some? && style.value != "none" then
      var custom := GetStyleTemplate(CustomStyles(customization), style.value, "");
      if custom != "" then custom else PredefinedTemplate(groups, style.value)
    else ""
  }

  /** The prompt `execute` would encode with the intended predefined search. */
  function IntendedPrompt(groups: seq<Group>, style: Option<string>, text: string, customization: string): string {
    var template := IntendedTemplate(groups, style, customization);
    if template != "" then StyleTemplate.Apply(text, template, false) else text
  }

  const NoClipMessage: string :=
    "ERROR: clip input is invalid: None\n\nIf the clip is from a checkpoint loader node your checkpoint does not contain a valid clip or text encoder model."

  /** `execute(clip, category, style, text, customization)`, up to the prompt
      it returns next to the conditioning; `clipPresent` is false for a `None`
      clip. The style is looked up before the clip is checked, so the lookup's
      `AttributeError` wins over the missing clip. */
  function Execute(groups: seq<Group>, clipPresent: bool, style: Option<string>, text: string,
                   customization: string): (r: Result<string>)
    ensures r == Err(AttributeError("get_style_template")) <==> ReachesPredefined(style, customization) && groups != []
    ensures !(ReachesPredefined(style, customization) && groups != []) ==>
              (!clipPresent <==> r == Err(RuntimeError(NoClipMessage)))
    ensures r.Ok? <==> clipPresent && !(ReachesPredefined(style, customization) && groups != [])
    ensures r.Ok? ==> r.value == IntendedPrompt(groups, style, text, customization)
  {
    var prompt :- StyledPrompt(groups, style, text, customization);
    AsWrittenMatchesIntended(groups, style, text, customization);
    if !clipPresent then Err(RuntimeError(NoClipMessage)) else Ok(prompt)
  }

  /** The message for a category that no group has. */
  function InvalidCategoryMessage(category: string): string {
    "The category name '" + category + "' is invalid. May be the node is from an older version."
  }

  /** `validate_inputs(**kwargs)`: `KeyError` without a `category` argument. */
  function ValidateInputs(groups: seq<Group>, kwargs: map<string, string>): (r: Result<Validation>)
    ensures "category" !in kwargs <==> r == Err(KeyError("category"))
    ensures "category" in kwargs ==>
              (r == Ok(Accepted) <==> kwargs["category"] in CategoryNames(groups))
    ensures "category" in kwargs && kwargs["category"] !in CategoryNames(groups) ==>
              r == Ok(Rejected(InvalidCategoryMessage(kwargs["category"])))
  {
    if "category" !in kwargs then Err(KeyError("category"))
    else if kwargs["category"] !in CategoryNames(groups) then Ok(Rejected(InvalidCategoryMessage(kwargs["category"])))
    else Ok(Accepted)
  }

  // ---------------------------------------------------------------------
  // Properties of the lists

  lemma QuotedNamesAppend(groups: seq<Group>, g: Group)
    ensures QuotedNames(groups + [g]) == QuotedNames(groups) + GetNames(g.styles, Quoted)
  {
    assert (groups + [g])[..|groups|] == groups;
  }

  lemma {:induction false} QuotedNamesCount(groups: seq<Group>)
    ensures |QuotedNames(groups)| == NameCount(groups)
  {
    if groups != [] {
      QuotedNamesCount(groups[..|groups| - 1]);
    }
  }

  /** The `i`-th name of group `k` is listed, quoted, after the names of the
      groups before it. */
  lemma {:induction false} QuotedNameAt(groups: seq<Group>, k: nat, i: nat)
    requires k < |groups| && i < |groups[k].styles.order|
    ensures NameCount(groups[..k]) + i < |QuotedNames(groups)|
    ensures QuotedNames(groups)[NameCount(groups[..k]) + i] == "\"" + groups[k].styles.order[i] + "\""
  {
    var prefix := groups[..|groups| - 1];
    var last := groups[|groups| - 1];
    var names := GetNames(last.styles, Quoted);
    assert QuotedNames(groups) == QuotedNames(prefix) + names;
    QuotedNamesCount(prefix);
    if k < |prefix| {
      assert groups[..k] == prefix[..k];
      assert groups[k] == prefix[k];
      QuotedNameAt(prefix, k, i);
    } else {
      assert groups[..k] == prefix;
      assert names[i] == "\"" + last.styles.order[i] + "\"";
    }
  }

  /** The first entry after `"none"` is the default style. */
  lemma DefaultStyleListedFirst(groups: seq<Group>)
    requires DefaultStyle(groups).Ok?
    ensures |QuotedNames(groups)| > 0 && QuotedNames(groups)[0] == DefaultStyle(groups).value
  {
    QuotedNameAt(groups, 0, 0);
    assert groups[..0] == [];
  }

  /** The default category passes validation. */
  lemma DefaultCategoryValidates(groups: seq<Group>)
    requires DefaultCategory(groups).Ok?
    ensures ValidateInputs(groups, map["category" := DefaultCategory(groups).value]) == Ok(Accepted)
  {
  }

  // ---------------------------------------------------------------------
  // Properties of the search

  /** The search stops at the first group with a non-empty template. */
  lemma {:induction false} FirstMatchWins(groups: seq<Group>, name: string, k: nat)
    requires k < |groups| && GetStyleTemplate(groups[k].styles, name, "") != ""
    requires forall j :: 0 <= j < k ==> GetStyleTemplate(groups[j].styles, name, "") == ""
    ensures PredefinedTemplate(groups, name) == GetStyleTemplate(groups[k].styles, name, "")
  {
    if k > 0 {
      assert GetStyleTemplate(groups[0].styles, name, "") == "";
      forall j | 0 <= j < k - 1
        ensures GetStyleTemplate(groups[1..][j].styles, name, "") == ""
      {
        assert groups[1..][j] == groups[j + 1];
      }
      FirstMatchWins(groups[1..], name, k - 1);
    }
  }

  /** The search gives `""` exactly when no group has a non-empty template: an
      empty template counts as not found. */
  lemma {:induction false} NotFoundAnywhere(groups: seq<Group>, name: string)
    ensures PredefinedTemplate(groups, name) == "" <==>
            forall j :: 0 <= j < |groups| ==> GetStyleTemplate(groups[j].styles, name, "") == ""
  {
    if groups != [] {
      NotFoundAnywhere(groups[1..], name);
      if GetStyleTemplate(groups[0].styles, name, "") == "" {
        forall j | 0 <= j < |groups| - 1
          ensures groups[1..][j] == groups[j + 1]
        {
        }
      }
    }
  }

  /** Every listed name of a consistent group leads the search to a template;
      to its own group's unless an earlier group also knows the name. */
  lemma ListedNameFound(groups: seq<Group>, k: nat, i: nat)
    requires k < |groups| && Consistent(groups[k].styles) && i < |groups[k].styles.order|
    requires groups[k].styles.templates[Lower(groups[k].styles.order[i])] != ""
    requires var n := GetNames(groups[k].styles, Quoted)[i];
             forall j :: 0 <= j < k ==> GetStyleTemplate(groups[j].styles, n, "") == ""
    ensures PredefinedTemplate(groups, GetNames(groups[k].styles, Quoted)[i]) ==
            groups[k].styles.templates[Lower(groups[k].styles.order[i])]
  {
    QuotedNamesResolve(groups[k].styles, Quoted, "");
    FirstMatchWins(groups, GetNames(groups[k].styles, Quoted)[i], k);
  }

  // ---------------------------------------------------------------------
  // Properties of the node

  /** The node as written fails exactly when it reaches the predefined lookup
      with at least one group; otherwise its prompt is the intended one. */
  lemma AsWrittenMatchesIntended(groups: seq<Group>, style: Option<string>, text: string, customization: string)
    ensures StyledPrompt(groups, style, text, customization).Err? <==> ReachesPredefined(style, customization) && groups != []
    ensures StyledPrompt(groups, style, text, customization).Err? ==>
              StyledPrompt(groups, style, text, customization).error == AttributeError("get_style_template")
    ensures StyledPrompt(groups, style, text, customization).Ok? ==>
              StyledPrompt(groups, style, text, customization).value == IntendedPrompt(groups, style, text, customization)
  {
    if ReachesPredefined(style, customization) && groups == [] {
      assert PredefinedTemplate(groups, style.value) == "";
    }
  }

  /** A selection that reaches the predefined lookup raises `AttributeError`
      whenever there is a group, although the intended search would apply the
      template of the first group that knows the name. */
  lemma PredefinedLookupRaises(groups: seq<Group>, name: string, text: string, customization: string)
    requires groups != [] && name != "none"
    requires GetStyleTemplate(CustomStyles(customization), name, "") == ""
    requires GetStyleTemplate(groups[0].styles, name, "") != ""
    ensures StyledPrompt(groups, Some(name), text, customization) == Err(AttributeError("get_style_template"))
    ensures IntendedPrompt(groups, Some(name), text, customization) ==
            StyleTemplate.Apply(text, GetStyleTemplate(groups[0].styles, name, ""), false)
  {
  }

  /** `"none"` and non-string styles leave the prompt unchanged, even when the
      custom styles define a style named `none`. */
  lemma NoneKeepsPrompt(groups: seq<Group>, style: Option<string>, text: string, customization: string)
    requires style == None || style == Some("none")
    ensures StyledPrompt(groups, style, text, customization) == Ok(text)
  {
  }

  /** A custom style shadows every predefined style of the same name, and
      spares the node the predefined lookup. */
  lemma CustomFirst(groups: seq<Group>, name: string, text: string, customization: string)
    requires name != "none"
    requires GetStyleTemplate(CustomStyles(customization), name, "") != ""
    ensures StyledPrompt(groups, Some(name), text, customization) ==
            Ok(StyleTemplate.Apply(text, GetStyleTemplate(CustomStyles(customization), name, ""), false))
  {
  }

  /** With the intended search, a name without a custom style gets the first
      predefined match, booster off; with no match at all the prompt is
      unchanged. */
  lemma PredefinedOtherwise(groups: seq<Group>, name: string, text: string, customization: string)
    requires name != "none"
    requires GetStyleTemplate(CustomStyles(customization), name, "") == ""
    ensures var t := PredefinedTemplate(groups, name);
            IntendedPrompt(groups, Some(name), text, customization) ==
            if t == "" then text else StyleTemplate.Apply(text, t, false)
  {
  }

  /** A style that the customization text declares with a non-empty template
      is the one applied to any selection that looks its name up (in another
      case, quoted or padded), whatever the predefined groups hold. */
  lemma DeclaredCustomStyleApplied(groups: seq<Group>, style: string, name: string, template: string,
                                   text: string, customization: string)
    requires style != "none" && template != ""
    requires StyleConfig.Blocks(customization, true) == [StyleConfig.Block(name, template)]
    requires LookupKey(style) == Lower(name)
    ensures StyledPrompt(groups, Some(style), text, customization) == Ok(StyleTemplate.Apply(text, template, false))
  {
    SingleCustomStyle(style, name, template, customization);
  }

  /** A customization declaring one style makes that style's template the one
      found for every spelling that looks it up. */
  lemma SingleCustomStyle(style: string, name: string, template: string, customization: string)
    requires StyleConfig.Blocks(customization, true) == [StyleConfig.Block(name, template)]
    requires LookupKey(style) == Lower(name)
    ensures GetStyleTemplate(CustomStyles(customization), style, "") == template
  {
    var blocks := StyleConfig.Blocks(customization, true);
    assert blocks[..0] == [];
    assert AddBlocks(Empty, blocks) == Add(AddBlocks(Empty, []), name, template);
    AddLookup(Empty, name, template, style);
  }
}
