/** The `blur` command: how far, how and which image to blur. The image work itself is an effect. */
module BlurCmd {
  import opened Wrappers
  import opened JsNumbers
  import opened Chat

  /**
   * `blur`: the radius is `parseInt(cmatch[1]) || 2`, a truthy second capture
   * asks for a Gaussian blur, and the third capture is the image's address
   * (attachments are the other source of the image).
   */
  function BlurEffects(threadId: string, cmatch: Captures): (r: seq<Effect>)
    ensures |r| == 1 && r[0].Blur? && r[0].image == Cap(cmatch, 3) && r[0].thread == threadId
    ensures r[0].gaussian <==> Truthy(Cap(cmatch, 2))
    ensures r[0].pixels == ParseIntOr(Cap(cmatch, 1), 2)
  {
    [Blur(Cap(cmatch, 3), ParseIntOr(Cap(cmatch, 1), 2), Truthy(Cap(cmatch, 2)), threadId)]
  }

  /** Without a radius the image is blurred by 2 pixels. */
  lemma BlurDefaultRadius(threadId: string, whole: string, gauss: Option<string>, url: Option<string>)
    ensures BlurEffects(threadId, [Some(whole), None, gauss, url])[0].pixels == 2
  {
    ParseIntUndefined();
  }

  /** A non-zero radius written as a number is used as given; a radius of 0 falls back to 2. */
  lemma BlurGivenRadius(threadId: string, whole: string, n: int, gauss: Option<string>, url: Option<string>)
    ensures BlurEffects(threadId, [Some(whole), Some(IntToString(n)), gauss, url])[0].pixels == if n == 0 then 2 else n
  {
    ParseIntOfNumeral(n);
  }
}
