/** The style step of the "Photo-Style Prompt Encoder" node
    (nodes/photo_style_prompt_encoder.py). Its styles are a `Styles` registry
    of nodes/styles/base.py built by `from_config` from a configuration text;
    that text is a data file, so the registry is a parameter here.
    nodes/illustration_style_prompt_encoder.py runs the same code over its
    own registry. */
module PhotoStylePromptEncoder {
  import opened Wrappers
  import opened Text
  import opened OrderedStyles
  import StyleConfig
  import StyleTemplate

  /** The prompt `execute` encodes: styled, booster off, when `name` is a key
      of the registry (`in`, then `[]`), the text itself otherwise. */
  function StyledPrompt(styles: Table, name: string, text: string): string {
    if name in styles.styles then
      match GetItem(styles, name)
      case Ok(template) => StyleTemplate.Apply(text, template, false)
      case Err(_) => text
    else text
  }

  const NoClipMessage: string :=
    "ERROR: clip input is invalid: None\n\nIf the clip is from a checkpoint loader node your checkpoint does not contain a valid clip or text encoder model."

  /** `execute(clip, style_name, text)`, up to the prompt given to the clip;
      `clipPresent` is false for a `None` clip. */
  function Execute(styles: Table, clipPresent: bool, name: string, text: string): (r: Result<string>)
    ensures !clipPresent <==> r == Err(RuntimeError(NoClipMessage))
  {
    var prompt := StyledPrompt(styles, name, text);
    if !clipPresent then Err(RuntimeError(NoClipMessage)) else Ok(prompt)
  }

  /** `style_names()`: `"none"`, then the registry's names in insertion order. */
  function StyleNames(styles: Table): (r: seq<string>)
    ensures |r| == |styles.keys| + 1 && r[0] == "none"
  {
    ["none"] + styles.keys
  }

  /** A template is applied, booster off, exactly when the name is a key,
      compared exactly and case-sensitively; any other name, `"none"`
      included unless it is a key, leaves the text as it is. */
  lemma AppliedIffKey(styles: Table, name: string, text: string)
    ensures name in styles.styles ==>
              StyledPrompt(styles, name, text) == StyleTemplate.Apply(text, styles.styles[name], false)
    ensures name !in styles.styles ==> StyledPrompt(styles, name, text) == text
  {
  }

  /** Every offered name after `"none"` selects its own template. */
  lemma OfferedNamesApply(styles: Table, i: nat, text: string)
    requires Consistent(styles) && 1 <= i < |StyleNames(styles)|
    ensures var name := StyleNames(styles)[i];
            name in styles.styles &&
            StyledPrompt(styles, name, text) == StyleTemplate.Apply(text, styles.styles[name], false)
  {
    var name := StyleNames(styles)[i];
    assert name == styles.keys[i - 1];
    KeySetMember(styles.keys, i - 1);
  }

  /** The names of the keys are in their key set. */
  lemma {:induction false} KeySetMember(keys: seq<string>, i: nat)
    requires i < |keys|
    ensures keys[i] in KeySet(keys)
  {
    if i < |keys| - 1 {
      KeySetMember(keys[..|keys| - 1], i);
      assert keys[..|keys| - 1][i] == keys[i];
    }
  }

  /** The last style of a configuration is never offered: `from_config`
      keeps the styles closed before the last `>>>` line, and the one that
      line opens is dropped unless an earlier line declared the same name. */
  lemma LastStyleNeverOffered(config: string, pre: seq<string>, m: string, body: seq<string>)
    requires StyleConfig.IsStyleAction(RStrip(m))
    requires SplitLines(config) == pre + [m] + body
    requires forall l :: l in body ==> !StyleConfig.IsMarker(l, false)
    ensures var styles := PutBlocks(Empty, StyleConfig.Blocks(config, false));
            StyleConfig.Names(StyleConfig.Blocks(config, false)) == StyleConfig.DeclaredNames(pre) &&
            (Strip(RStrip(m)[3..]) !in StyleConfig.DeclaredNames(pre) ==>
               Strip(RStrip(m)[3..]) !in StyleNames(styles)[1..])
  {
    var blocks := StyleConfig.Blocks(config, false);
    StyleConfig.UnflushedBeforeLast(config, pre, m, body);
    var name := Strip(RStrip(m)[3..]);
    var styles := PutBlocks(Empty, blocks);
    assert StyleNames(styles)[1..] == styles.keys;
    if name in styles.keys {
      PutBlocksKeys(Empty, blocks, name);
    }
  }

  /** The photo configuration ends with the `Pop Photo` style, declared
      nowhere else: the node never offers it. */
  lemma PopPhotoNeverOffered(config: string, pre: seq<string>, body: seq<string>)
    requires SplitLines(config) == pre + [">>>Pop Photo"] + body
    requires forall l :: l in body ==> !StyleConfig.IsMarker(l, false)
    requires "Pop Photo" !in StyleConfig.DeclaredNames(pre)
    ensures "Pop Photo" !in StyleNames(PutBlocks(Empty, StyleConfig.Blocks(config, false)))[1..]
  {
    var m := ">>>Pop Photo";
    assert RStrip(m) == m;
    StripTrimmed(m[3..]);
    LastStyleNeverOffered(config, pre, m, body);
  }
}
