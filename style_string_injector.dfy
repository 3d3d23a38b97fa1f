/** The "Style String Injector" node (nodes/style_string_injector.py): the
    encoder's style step without custom styles and without a clip. Its
    `category_names`, `style_names`, defaults and `get_predefined_style` are
    the encoder's queries (`StylePromptEncoder.CategoryNames`, `StyleNames`,
    `DefaultCategory`, `DefaultStyle`, `PredefinedLookup`). */
module StyleStringInjector {
  import opened Wrappers
  import StyleConfig
  import StyleTemplate
  import LibStyleGroup
  import opened StylePromptEncoder

  /** `execute(category, style, string)` as written: every string style other
      than `"none"` goes through the predefined lookup, which raises
      `AttributeError` as soon as there is a group; the string is otherwise
      returned unchanged. */
  function Execute(groups: seq<Group>, style: Option<string>, text: string): (r: Result<string>)
    ensures r.Err? <==> style.Some? && style.value != "none" && groups != []
    ensures r.Err? ==> r.error == AttributeError("get_style_template")
    ensures r.Ok? ==> r.value == text
  {
    var template :- if style.Some? && style.value != "none" then PredefinedLookup(groups, style.value) else Ok("");
    Ok(if template != "" then StyleTemplate.Apply(text, template, false) else text)
  }

  /** `execute` with the intended predefined search: the string styled with
      the first predefined template found, booster off, or unchanged. */
  function IntendedExecute(groups: seq<Group>, style: Option<string>, text: string): (r: string)
    ensures style == None || style == Some("none") ==> r == text
  {
    var template := if style.Some? && style.value != "none" then PredefinedTemplate(groups, style.value) else "";
    if template != "" then StyleTemplate.Apply(text, template, false) else text
  }

  /** `validate_inputs(**kwargs)`: an unknown category is reported with the
      `style_type` argument, which the node does not have, so the message is
      never built and `KeyError` is raised instead. */
  function ValidateInputs(groups: seq<Group>, kwargs: map<string, string>): (r: Result<Validation>)
    ensures "category" !in kwargs ==> r == Err(KeyError("category"))
    ensures "category" in kwargs && kwargs["category"] in CategoryNames(groups) ==> r == Ok(Accepted)
    ensures "category" in kwargs && kwargs["category"] !in CategoryNames(groups) ==>
              r == if "style_type" in kwargs then Ok(Rejected(InvalidCategoryMessage(kwargs["style_type"])))
                   else Err(KeyError("style_type"))
  {
    if "category" !in kwargs then Err(KeyError("category"))
    else if kwargs["category"] !in CategoryNames(groups) then
      if "style_type" in kwargs then Ok(Rejected(InvalidCategoryMessage(kwargs["style_type"])))
      else Err(KeyError("style_type"))
    else Ok(Accepted)
  }

  /** The injector styles a string exactly as the encoder styles its text
      when the encoder is given no customization: both as written (the same
      error, or the same prompt) and with the intended search. */
  lemma SameAsEncoderWithoutCustomization(groups: seq<Group>, style: Option<string>, text: string)
    ensures Execute(groups, style, text) == StyledPrompt(groups, style, text, "")
    ensures IntendedExecute(groups, style, text) == IntendedPrompt(groups, style, text, "")
  {
    assert StyleConfig.Blocks("", true) == [];
    assert CustomStyles("") == LibStyleGroup.Empty;
  }

  /** A name the first group knows raises as written, while the intended
      search applies that group's template. */
  lemma InjectorLookupRaises(groups: seq<Group>, name: string, text: string)
    requires groups != [] && name != "none"
    requires LibStyleGroup.GetStyleTemplate(groups[0].styles, name, "") != ""
    ensures Execute(groups, Some(name), text) == Err(AttributeError("get_style_template"))
    ensures IntendedExecute(groups, Some(name), text) ==
            StyleTemplate.Apply(text, LibStyleGroup.GetStyleTemplate(groups[0].styles, name, ""), false)
  {
  }

  /** With the intended search, a style other than `none` is styled with the
      first non-empty predefined template for its name, booster off, and the
      string is kept when no group has one. */
  lemma IntendedFirstMatch(groups: seq<Group>, name: string, text: string)
    requires name != "none"
    ensures var t := PredefinedTemplate(groups, name);
            IntendedExecute(groups, Some(name), text) == if t == "" then text else StyleTemplate.Apply(text, t, false)
  {
  }

  /** The arguments the node receives (`category`, `style`, `string`) never
      include `style_type`: validation of an unknown category raises
      `KeyError` where the encoder reports a message. */
  lemma UnknownCategoryRaises(groups: seq<Group>, category: string, style: string, text: string)
    requires category !in CategoryNames(groups)
    ensures var kwargs := map["category" := category, "style" := style, "string" := text];
            ValidateInputs(groups, kwargs) == Err(KeyError("style_type")) &&
            StylePromptEncoder.ValidateInputs(groups, kwargs) == Ok(Rejected(InvalidCategoryMessage(category)))
  {
  }
}
