/** The "Illustration-Style Prompt Encoder" node
    (nodes/illustration_style_prompt_encoder.py): the photo encoder's code
    (`PhotoStylePromptEncoder.StyledPrompt`, `Execute`, `StyleNames`) run over
    the illustration registry. */
module IllustrationStylePromptEncoder {
  import opened Text
  import opened OrderedStyles
  import StyleConfig
  import PhotoStylePromptEncoder

  /** The illustration configuration ends with the `LowRes Pixel Art` style,
      declared nowhere else: the node never offers it. */
  lemma PixelArtNeverOffered(config: string, pre: seq<string>, body: seq<string>)
    requires SplitLines(config) == pre + [">>>LowRes Pixel Art"] + body
    requires forall l :: l in body ==> !StyleConfig.IsMarker(l, false)
    requires "LowRes Pixel Art" !in StyleConfig.DeclaredNames(pre)
    ensures "LowRes Pixel Art" !in
              PhotoStylePromptEncoder.StyleNames(PutBlocks(Empty, StyleConfig.Blocks(config, false)))[1..]
  {
    var m := ">>>LowRes Pixel Art";
    PixelArtMarker(m);
    PhotoStylePromptEncoder.LastStyleNeverOffered(config, pre, m, body);
  }

  /** The marker line opens a style whose name is `LowRes Pixel Art`. */
  lemma PixelArtMarker(m: string)
    requires m == ">>>LowRes Pixel Art"
    ensures StyleConfig.IsStyleAction(RStrip(m))
    ensures Strip(RStrip(m)[3..]) == "LowRes Pixel Art"
  {
    assert RStrip(m) == m;
    var name := m[3..];
    assert name == "LowRes Pixel Art";
    StripTrimmed(name);
  }
}
