/**
 * The compositing step of the hand segmentor: after the segmentation model
 * has produced its masks, the first mask is selected and every image pixel
 * outside it is replaced by white (255 in every channel).
 *
 * The segmentation model is outside the model; its masks are an input.
 * Images are rows of pixels, each pixel a sequence of channel bytes.
 */
module Segmentor {
  import opened Wrappers

  newtype byte = x: int | 0 <= x < 256

  type Pixel = seq<byte>
  type Image = seq<seq<Pixel>>
  type Mask = seq<seq<bool>>

  const DefaultPrompt: string := "Detect and segment the hand's surface"

  /** A missing or empty prompt is replaced by the default prompt. */
  function Prompt(textPrompt: Option<string>): (p: string)
    ensures p != []
    ensures textPrompt.Some? && textPrompt.value != [] ==> p == textPrompt.value
    ensures textPrompt == None || textPrompt == Some([]) ==> p == DefaultPrompt
  {
    match textPrompt
    case None => DefaultPrompt
    case Some(t) => if t == [] then DefaultPrompt else t
  }

  /** The model's masks after dropping a leading axis of length one: a single mask, or a stack of them. */
  datatype MaskArray = Plane(mask: Mask) | Stack(masks: seq<Mask>)

  function Squeeze(masks: seq<Mask>): MaskArray
  {
    if |masks| == 1 then Plane(masks[0]) else Stack(masks)
  }

  /** A two-dimensional mask is used as it is; of a stack, the first; an empty stack has none. */
  function FirstPlane(a: MaskArray): Option<Mask>
  {
    match a
    case Plane(m) => Some(m)
    case Stack(ms) => if |ms| == 0 then None else Some(ms[0])
  }

  /** The mask covers the image pixel for pixel. */
  predicate SameShape(image: Image, mask: Mask)
  {
    |mask| == |image| && forall i :: 0 <= i < |image| ==> |mask[i]| == |image[i]|
  }

  predicate IsWhite(p: Pixel)
  {
    forall c :: 0 <= c < |p| ==> p[c] == 255
  }

  /** A white pixel with as many channels as `p`. */
  function WhiteLike(p: Pixel): (w: Pixel)
    ensures |w| == |p| && IsWhite(w)
  {
    seq(|p|, _ => 255 as byte)
  }

  /**
   * Keeps each pixel the mask marks and whitens every other one; `None`
   * when the mask's shape differs from the image's.
   */
  function SelectPixels(image: Image, mask: Mask): (out: Option<Image>)
    ensures out.Some? <==> SameShape(image, mask)
  {
    if SameShape(image, mask) then
      Some(seq(|image|, i requires 0 <= i < |image| =>
        seq(|image[i]|, j requires 0 <= j < |image[i]| =>
          if mask[i][j] then image[i][j] else WhiteLike(image[i][j]))))
    else None
  }

  /** The composited image of the first mask; `None` when there is no mask or shapes differ. */
  function SegmentHand(image: Image, masks: seq<Mask>): (out: Option<Image>)
    ensures out.Some? <==> masks != [] && SameShape(image, masks[0])
    ensures out.Some? ==> out == SelectPixels(image, masks[0])
  {
    match FirstPlane(Squeeze(masks))
    case None => None
    case Some(m) => SelectPixels(image, m)
  }

  // ---------------------------------------------------------------------
  // Properties

  /** Whatever the number of masks, the mask used is the first one. */
  lemma SqueezeTakesFirst(masks: seq<Mask>)
    ensures FirstPlane(Squeeze(masks)) == if masks == [] then None else Some(masks[0])
  {
  }

  /**
   * The output has the image's shape; a marked pixel is the image's pixel
   * and an unmarked one is white with the same number of channels.
   */
  lemma SelectPixelsAt(image: Image, mask: Mask)
    requires SameShape(image, mask)
    ensures var out := SelectPixels(image, mask).value;
      && |out| == |image|
      && (forall i :: 0 <= i < |image| ==> |out[i]| == |image[i]|)
      && (forall i, j :: 0 <= i < |image| && 0 <= j < |image[i]| && mask[i][j] ==> out[i][j] == image[i][j])
      && (forall i, j :: 0 <= i < |image| && 0 <= j < |image[i]| && !mask[i][j] ==>
            |out[i][j]| == |image[i][j]| && IsWhite(out[i][j]))
  {
  }

  /** A mask that marks every pixel leaves the image unchanged. */
  lemma FullMaskKeepsImage(image: Image, mask: Mask)
    requires SameShape(image, mask)
    requires forall i, j :: 0 <= i < |image| && 0 <= j < |image[i]| ==> mask[i][j]
    ensures SelectPixels(image, mask) == Some(image)
  {
    var out := SelectPixels(image, mask).value;
    forall i | 0 <= i < |image|
      ensures out[i] == image[i]
    {
      assert forall j :: 0 <= j < |image[i]| ==> out[i][j] == image[i][j];
    }
    assert out == image;
  }

  /** A mask that marks nothing gives an all-white image of the same shape. */
  lemma EmptyMaskWhitens(image: Image, mask: Mask)
    requires SameShape(image, mask)
    requires forall i, j :: 0 <= i < |image| && 0 <= j < |image[i]| ==> !mask[i][j]
    ensures var out := SelectPixels(image, mask).value;
      SameShape(out, mask) && forall i, j :: 0 <= i < |out| && 0 <= j < |out[i]| ==> IsWhite(out[i][j])
  {
  }

  /** Compositing twice with the same mask changes nothing the second time. */
  lemma SelectPixelsIdempotent(image: Image, mask: Mask)
    requires SameShape(image, mask)
    ensures SameShape(SelectPixels(image, mask).value, mask)
    ensures SelectPixels(SelectPixels(image, mask).value, mask) == SelectPixels(image, mask)
  {
    var once := SelectPixels(image, mask).value;
    var twice := SelectPixels(once, mask).value;
    forall i | 0 <= i < |image|
      ensures twice[i] == once[i]
    {
      forall j | 0 <= j < |image[i]|
        ensures twice[i][j] == once[i][j]
      {
        if !mask[i][j] {
          assert twice[i][j] == WhiteLike(once[i][j]);
          assert |once[i][j]| == |image[i][j]|;
        }
      }
    }
    assert twice == once;
  }
}
