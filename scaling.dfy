/**
 * getScale: maps one image-space coordinate into display space. The
 * coordinate `box` is multiplied by `scale / image`, rounded up with
 * Math.ceil and shifted by `offset`; an image extent below 1 (or absent,
 * which defaults to 0) yields 0.
 */
module Scaling {
  import opened Wrappers
  import opened Js
  import opened RealOrder

  /** Which axis a coordinate belongs to; both use the same arithmetic. */
  datatype Direction = W | H

  /** The argument object; optional properties that are absent are None or Undefined. */
  datatype Scale = Scale(direction: Direction, image: Option<real>, box: JsNumber, scale: real, offset: Option<real>)

  /** Math.ceil(box * (scale / image)) + offset for a numeric box. */
  function CeilScaled(box: real, scale: real, image: real, offset: real): real
    requires image >= 1.0
  {
    Ceil(box * (scale / image)) as real + offset
  }

  /** The same for any JavaScript number: NaN propagates through the arithmetic. */
  function CeilScaledJs(box: JsNumber, scale: real, image: real, offset: real): JsNumber
    requires image >= 1.0
  {
    match box
    case Num(b) => Num(CeilScaled(b, scale, image, offset))
    case _ => NaN
  }

  /**
   * The result is 0 for an image extent below 1 whatever the other
   * arguments; otherwise it is a number exactly when `box` is a number (or
   * absent, defaulting to 0), and then it lies in
   * [box * (scale / image) + offset, box * (scale / image) + offset + 1).
   * A result that is not a number is NaN, never `undefined`.
   */
  function GetScale(arg: Scale): (r: JsNumber)
    ensures arg.image.GetOr(0.0) < 1.0 ==> r == Num(0.0)
    ensures arg.image.GetOr(0.0) >= 1.0 ==> (r.Num? <==> !arg.box.NaN?)
    ensures !r.Num? ==> r == NaN
    ensures arg.image.GetOr(0.0) >= 1.0 && r.Num? ==>
      var exact := BoxValue(arg.box) * (arg.scale / arg.image.value) + arg.offset.GetOr(0.0);
      exact <= r.value < exact + 1.0
  {
    var image := arg.image.GetOr(0.0);
    var box := if arg.box.Undefined? then Num(0.0) else arg.box;
    var offset := arg.offset.GetOr(0.0);
    if image < 1.0 then Num(0.0)
    else
      match arg.direction
      case W => CeilScaledJs(box, arg.scale, image, offset)
      case H => CeilScaledJs(box, arg.scale, image, offset)
  }

  /** The numeric value of a box coordinate, with `undefined` defaulting to 0. */
  function BoxValue(box: JsNumber): real
  {
    if box.Num? then box.value else 0.0
  }

  /** The 'W' and 'H' branches compute the same value. */
  lemma DirectionIrrelevant(arg: Scale)
    ensures GetScale(arg.(direction := W)) == GetScale(arg.(direction := H))
  {
  }

  lemma GetScaleOfNumber(arg: Scale, b: real)
    requires arg.image.GetOr(0.0) >= 1.0
    ensures GetScale(arg.(box := Num(b))) == Num(CeilScaled(b, arg.scale, arg.image.value, arg.offset.GetOr(0.0)))
  {
    match arg.direction
    case W =>
    case H =>
  }

  lemma CeilScaledMonotone(b1: real, b2: real, scale: real, image: real, offset: real)
    requires image >= 1.0 && scale >= 0.0 && b1 <= b2
    ensures CeilScaled(b1, scale, image, offset) <= CeilScaled(b2, scale, image, offset)
  {
    assert scale / image >= 0.0;
    MultiplyMonotone(b1, b2, scale / image);
    CeilMonotone(b1 * (scale / image), b2 * (scale / image));
    assert Ceil(b1 * (scale / image)) as real <= Ceil(b2 * (scale / image)) as real;
  }

  /** For an image extent of at least 1 and a non-negative scale, getScale never decreases as box grows. */
  lemma GetScaleMonotone(arg: Scale, b1: real, b2: real)
    requires arg.image.GetOr(0.0) >= 1.0 && arg.scale >= 0.0 && b1 <= b2
    ensures GetScale(arg.(box := Num(b1))).value <= GetScale(arg.(box := Num(b2))).value
  {
    GetScaleOfNumber(arg, b1);
    GetScaleOfNumber(arg, b2);
    CeilScaledMonotone(b1, b2, arg.scale, arg.image.value, arg.offset.GetOr(0.0));
  }
}
