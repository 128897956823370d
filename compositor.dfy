/**
 * The per-pixel mask compositor `combineImages` and what each of the two
 * callers gets out of it.
 *
 * An RGBA frame is a flat byte buffer, four bytes per pixel, pixel p at bytes
 * 4p (R), 4p+1 (G), 4p+2 (B) and 4p+3 (A). The confidence mask has one entry
 * per pixel. Wherever the mask is at least the threshold, combineImages copies
 * the R, G and B bytes of its second buffer over those of its first buffer, in
 * place, and hands back the first buffer.
 */
module Compositor {

  /** One element of a Uint8ClampedArray. */
  type Byte = x: int | 0 <= x < 256

  /** The module-level `minConfidence` of both scripts. */
  const MinConfidence: real := 0.4

  /**
   * Reading index k of a pixel buffer. A typed array read past its end gives
   * `undefined`, and storing `undefined` into a Uint8ClampedArray stores 0.
   */
  function ByteAt(data: seq<Byte>, k: int): Byte
  {
    if 0 <= k < |data| then data[k] else 0
  }

  /**
   * `confidenceMasks[p] >= minConfidence`. A missing entry reads as
   * `undefined`, and `undefined >= t` is false in JavaScript.
   */
  predicate Confident(mask: seq<real>, p: int, minConfidence: real)
  {
    0 <= p < |mask| && mask[p] >= minConfidence
  }

  /** Byte k is one the loop overwrites: an R, G or B byte of a confident pixel among the first width*height. */
  predicate Overwritten(k: int, mask: seq<real>, minConfidence: real, width: nat, height: nat)
  {
    0 <= k < width * height * 4 && k % 4 < 3 && Confident(mask, k / 4, minConfidence)
  }

  /**
   * The buffer combineImages leaves behind in its first argument `base`, as a
   * value: every overwritten byte comes from `overlay`, every other byte keeps
   * its old value.
   */
  function Composite(base: seq<Byte>, overlay: seq<Byte>, mask: seq<real>, minConfidence: real,
                     width: nat, height: nat): seq<Byte>
  {
    seq(|base|, k requires 0 <= k < |base| =>
      if Overwritten(k, mask, minConfidence, width, height) then ByteAt(overlay, k) else base[k])
  }

  /** `dst.data[k] = src.data[k]` on typed arrays: a store past the end of `dst` is dropped. */
  method CopyByte(dst: array<Byte>, src: array<Byte>, k: nat)
    modifies dst
    ensures k < dst.Length ==> dst[..] == old(dst[..])[k := ByteAt(old(src[..]), k)]
    ensures k >= dst.Length ==> dst[..] == old(dst[..])
  {
    if k < dst.Length {
      dst[k] := if k < src.Length then src[k] else 0;
    }
  }

  /**
   * One pass of the loop body, for the pixel whose R byte is at index i: if
   * the pixel is confident, its R, G and B bytes are copied from `src`; no
   * other byte of `dst` changes.
   */
  method CopyPixelIfConfident(dst: array<Byte>, src: array<Byte>, mask: seq<real>, minConfidence: real, i: nat)
    requires i % 4 == 0
    modifies dst
    ensures forall k :: 0 <= k < dst.Length ==>
              dst[k] == if i <= k < i + 4 && k % 4 < 3 && Confident(mask, k / 4, minConfidence)
                        then ByteAt(old(src[..]), k) else old(dst[k])
    ensures dst != src ==> src[..] == old(src[..])
  {
    assert forall k :: i <= k < i + 4 ==> k / 4 == i / 4 && k % 4 == k - i;
    if Confident(mask, i / 4, minConfidence) {
      CopyByte(dst, src, i);
      CopyByte(dst, src, i + 1);
      CopyByte(dst, src, i + 2);
    }
  }

  /**
   * combineImages(imageData1, imageData2, confidenceMasks), with the global
   * canvas size and `minConfidence` passed in. The two buffers may even be the
   * same array: each copy then writes a byte onto itself.
   */
  method CombineImages(imageData1: array<Byte>, imageData2: array<Byte>, confidenceMasks: seq<real>,
                       minConfidence: real, width: nat, height: nat)
    returns (combined: array<Byte>)
    modifies imageData1
    ensures combined == imageData1
    ensures imageData1[..] == Composite(old(imageData1[..]), old(imageData2[..]), confidenceMasks,
                                        minConfidence, width, height)
    ensures imageData2 != imageData1 ==> imageData2[..] == old(imageData2[..])
  {
    ghost var base, overlay := imageData1[..], imageData2[..];
    ghost var target := Composite(base, overlay, confidenceMasks, minConfidence, width, height);
    var n := width * height * 4;
    var i := 0;
    while i < n
      invariant 0 <= i <= n && i % 4 == 0
      invariant forall k :: 0 <= k < imageData1.Length ==>
                  imageData1[k] == if k < i then target[k] else base[k]
      invariant forall k :: i <= k < imageData2.Length ==> imageData2[k] == overlay[k]
      invariant imageData2 != imageData1 ==> imageData2[..] == overlay
    {
      CopyPixelIfConfident(imageData1, imageData2, confidenceMasks, minConfidence, i);
      i := i + 4;
    }
    combined := imageData1;
  }

  // ---------------------------------------------------------------------------
  // What combineImages promises, stated on Composite.
  // ---------------------------------------------------------------------------

  /** The output has the length of the first buffer: nothing is appended or dropped. */
  lemma CompositeLength(base: seq<Byte>, overlay: seq<Byte>, mask: seq<real>, t: real, width: nat, height: nat)
    ensures |Composite(base, overlay, mask, t, width, height)| == |base|
  {
  }

  /** A confident pixel p < width*height takes its R, G and B bytes from the second buffer. */
  lemma ConfidentPixelTakesOverlayRgb(base: seq<Byte>, overlay: seq<Byte>, mask: seq<real>, t: real,
                                      width: nat, height: nat, p: nat, c: nat)
    requires p < width * height && c < 3 && 4 * p + c < |base|
    requires p < |mask| && mask[p] >= t
    ensures Composite(base, overlay, mask, t, width, height)[4 * p + c] == ByteAt(overlay, 4 * p + c)
  {
  }

  /** A pixel whose mask entry is below the threshold, or missing, keeps all four bytes. */
  lemma UnconfidentPixelUnchanged(base: seq<Byte>, overlay: seq<Byte>, mask: seq<real>, t: real,
                                  width: nat, height: nat, p: nat, c: nat)
    requires c < 4 && 4 * p + c < |base|
    requires p >= |mask| || mask[p] < t
    ensures Composite(base, overlay, mask, t, width, height)[4 * p + c] == base[4 * p + c]
  {
  }

  /** Alpha bytes are never written. */
  lemma AlphaUnchanged(base: seq<Byte>, overlay: seq<Byte>, mask: seq<real>, t: real,
                       width: nat, height: nat, p: nat)
    requires 4 * p + 3 < |base|
    ensures Composite(base, overlay, mask, t, width, height)[4 * p + 3] == base[4 * p + 3]
  {
  }

  /** Bytes at or past width*height*4 are never written. */
  lemma BeyondCanvasUnchanged(base: seq<Byte>, overlay: seq<Byte>, mask: seq<real>, t: real,
                              width: nat, height: nat, k: nat)
    requires width * height * 4 <= k < |base|
    ensures Composite(base, overlay, mask, t, width, height)[k] == base[k]
  {
  }

  /** The threshold is inclusive: a mask value exactly at the threshold counts as confident. */
  lemma ThresholdInclusive(base: seq<Byte>, overlay: seq<Byte>, mask: seq<real>, t: real,
                           width: nat, height: nat, p: nat, c: nat)
    requires p < width * height && c < 3 && 4 * p + c < |base|
    requires p < |mask| && mask[p] == t
    ensures Composite(base, overlay, mask, t, width, height)[4 * p + c] == ByteAt(overlay, 4 * p + c)
  {
  }

  /** Compositing is pixel-local: two masks that agree on pixel p give the same bytes for p. */
  lemma PixelLocal(base: seq<Byte>, overlay: seq<Byte>, mask1: seq<real>, mask2: seq<real>, t: real,
                   width: nat, height: nat, p: nat, c: nat)
    requires c < 4 && 4 * p + c < |base|
    requires Confident(mask1, p, t) == Confident(mask2, p, t)
    ensures Composite(base, overlay, mask1, t, width, height)[4 * p + c]
         == Composite(base, overlay, mask2, t, width, height)[4 * p + c]
  {
  }

  /**
   * A 2x2 example: with mask [0.9, 0.1, 0.5, 0.5] and threshold 0.4 the
   * pixels 0, 2 and 3 take the overlay's colour and pixel 1 keeps the base's.
   */
  lemma MixedMaskExample(base: seq<Byte>, overlay: seq<Byte>)
    requires |base| == 16 && |overlay| == 16
    ensures var r := Composite(base, overlay, [0.9, 0.1, 0.5, 0.5], MinConfidence, 2, 2);
            (forall k :: 0 <= k < 16 && k / 4 != 1 && k % 4 < 3 ==> r[k] == overlay[k]) &&
            (forall k :: 4 <= k < 8 ==> r[k] == base[k]) &&
            (forall p :: 0 <= p < 4 ==> r[4 * p + 3] == base[4 * p + 3])
  {
  }

  // ---------------------------------------------------------------------------
  // The two call sites. Both pass the frame read back from the canvas (sharp)
  // and the output of applyBackgroundBlur (blurred), in opposite orders.
  // ---------------------------------------------------------------------------

  /** Which of the two scripts a callback belongs to. */
  datatype Variant =
    | Script           // src/script.js: combineImages(sharp, blurred, mask)
    | SelfieSegmenter  // src/scriptSelfieSegmenter.js: combineImages(blurred, sharp, mask)

  /** The frame put back on the canvas by a variant's drawSegmentationResult. */
  function CallSiteOutput(variant: Variant, sharp: seq<Byte>, blurred: seq<Byte>, mask: seq<real>,
                          width: nat, height: nat): seq<Byte>
  {
    match variant
    case Script => Composite(sharp, blurred, mask, MinConfidence, width, height)
    case SelfieSegmenter => Composite(blurred, sharp, mask, MinConfidence, width, height)
  }

  /** Every pixel of the canvas area has a mask entry at or above the threshold. */
  predicate AllConfident(mask: seq<real>, width: nat, height: nat)
  {
    forall p :: 0 <= p < width * height ==> Confident(mask, p, MinConfidence)
  }

  /** Every mask entry is 0.0. */
  predicate AllZero(mask: seq<real>)
  {
    forall p :: 0 <= p < |mask| ==> mask[p] == 0.0
  }

  /** One whole frame of width*height pixels. */
  predicate IsFrame(data: seq<Byte>, width: nat, height: nat)
  {
    |data| == width * height * 4
  }

  /** RGB of every pixel of `a` is that of `b`; alpha of every pixel of `a` is that of `alpha`. */
  predicate RgbFromAlphaFrom(a: seq<Byte>, b: seq<Byte>, alpha: seq<Byte>)
    requires |a| == |b| == |alpha|
  {
    forall k :: 0 <= k < |a| ==> a[k] == if k % 4 < 3 then b[k] else alpha[k]
  }

  /** scriptSelfieSegmenter.js, all confident: the colours are the sharp frame's, the alpha the blurred frame's. */
  lemma SelfieSegmenterAllConfidentIsSharp(sharp: seq<Byte>, blurred: seq<Byte>, mask: seq<real>,
                                           width: nat, height: nat)
    requires IsFrame(sharp, width, height) && IsFrame(blurred, width, height)
    requires AllConfident(mask, width, height)
    ensures var out := CallSiteOutput(SelfieSegmenter, sharp, blurred, mask, width, height);
            |out| == |sharp| && RgbFromAlphaFrom(out, sharp, blurred)
  {
  }

  /** scriptSelfieSegmenter.js, all-zero mask: the output is the blurred frame. */
  lemma SelfieSegmenterAllZeroIsBlurred(sharp: seq<Byte>, blurred: seq<Byte>, mask: seq<real>,
                                        width: nat, height: nat)
    requires AllZero(mask)
    ensures CallSiteOutput(SelfieSegmenter, sharp, blurred, mask, width, height) == blurred
  {
  }

  /** script.js, all confident: the colours are the blurred frame's, the alpha the sharp frame's. */
  lemma ScriptAllConfidentIsBlurred(sharp: seq<Byte>, blurred: seq<Byte>, mask: seq<real>,
                                    width: nat, height: nat)
    requires IsFrame(sharp, width, height) && IsFrame(blurred, width, height)
    requires AllConfident(mask, width, height)
    ensures var out := CallSiteOutput(Script, sharp, blurred, mask, width, height);
            |out| == |sharp| && RgbFromAlphaFrom(out, blurred, sharp)
  {
  }

  /** script.js, all-zero mask: the sharp frame comes out unchanged. */
  lemma ScriptAllZeroIsSharp(sharp: seq<Byte>, blurred: seq<Byte>, mask: seq<real>, width: nat, height: nat)
    requires AllZero(mask)
    ensures CallSiteOutput(Script, sharp, blurred, mask, width, height) == sharp
  {
  }

  /**
   * The two call sites disagree: for the same frames and mask, a confident
   * pixel whose sharp and blurred colours differ comes out differently.
   */
  lemma CallSitesDisagree(sharp: seq<Byte>, blurred: seq<Byte>, mask: seq<real>,
                          width: nat, height: nat, p: nat, c: nat)
    requires IsFrame(sharp, width, height) && IsFrame(blurred, width, height)
    requires p < width * height && c < 3 && Confident(mask, p, MinConfidence)
    requires sharp[4 * p + c] != blurred[4 * p + c]
    ensures CallSiteOutput(Script, sharp, blurred, mask, width, height)[4 * p + c] == blurred[4 * p + c]
    ensures CallSiteOutput(SelfieSegmenter, sharp, blurred, mask, width, height)[4 * p + c] == sharp[4 * p + c]
  {
  }

  /**
   * The composite step of drawSegmentationResult for either variant: it calls
   * combineImages with that script's argument order and returns the buffer
   * that is put back on the canvas.
   */
  method CombineAtCallSite(variant: Variant, sharp: array<Byte>, blurred: array<Byte>, mask: seq<real>,
                           width: nat, height: nat)
    returns (combined: array<Byte>)
    modifies sharp, blurred
    ensures combined[..] == CallSiteOutput(variant, old(sharp[..]), old(blurred[..]), mask, width, height)
    ensures variant == Script ==> combined == sharp && (blurred != sharp ==> blurred[..] == old(blurred[..]))
    ensures variant == SelfieSegmenter ==> combined == blurred && (sharp != blurred ==> sharp[..] == old(sharp[..]))
  {
    match variant
    case Script =>
      combined := CombineImages(sharp, blurred, mask, MinConfidence, width, height);
    case SelfieSegmenter =>
      combined := CombineImages(blurred, sharp, mask, MinConfidence, width, height);
  }
}
