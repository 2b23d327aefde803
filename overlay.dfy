/**
 * The render-time mapping from detection records to overlay boxes: each
 * record's coordinate string is split on single spaces, each piece is read
 * with Number() and scaled with getScale (even positions on the width axis,
 * odd positions on the height axis), and the first four results are
 * destructured as left, top, right, bottom.
 */
module Overlay {
  import opened Wrappers
  import opened Js
  import opened Scaling
  import opened Layout
  import opened Bridge

  /** The position style of one overlay box. */
  datatype Rectangle = Rectangle(top: JsNumber, left: JsNumber, width: JsNumber, height: JsNumber)

  /** `image?.width` and `image?.height` for the asset in state. */
  function ImageWidth(image: Option<Asset>): Option<real> {
    if image.Some? then image.value.width else None
  }

  function ImageHeight(image: Option<Asset>): Option<real> {
    if image.Some? then image.value.height else None
  }

  /** The getScale argument for the piece at index `i`: `(i + 1) % 2` selects the width axis. */
  function ComponentScale(i: nat, token: string, image: Option<Asset>, imageSize: Size): Scale
  {
    var sss := (i + 1) % 2;
    Scale(if sss != 0 then W else H,
          if sss != 0 then ImageWidth(image) else ImageHeight(image),
          ToNumber(token),
          if sss != 0 then imageSize.width else imageSize.height,
          None)
  }

  /** The scaled value of every piece, in order. */
  function ScaledComponents(tokens: seq<string>, image: Option<Asset>, imageSize: Size): seq<JsNumber>
  {
    seq(|tokens|, i requires 0 <= i < |tokens| => GetScale(ComponentScale(i, tokens[i], image, imageSize)))
  }

  /** Array destructuring: a missing element is `undefined`. */
  function Element(values: seq<JsNumber>, i: nat): JsNumber
  {
    if i < |values| then values[i] else Undefined
  }

  /**
   * The box drawn for one record. The left edge is always defined; the top
   * is `undefined` exactly when the string has a single piece; width and
   * height are NaN or numbers, and a numeric width (height) spans from the
   * left (top) edge to the third (fourth) scaled piece.
   */
  function ToRectangle(cordinates: string, image: Option<Asset>, imageSize: Size): (r: Rectangle)
    ensures !r.left.Undefined? && !r.width.Undefined? && !r.height.Undefined?
    ensures r.top.Undefined? <==> |Split(cordinates, ' ')| == 1
    ensures r.width.Num? ==>
      && |Split(cordinates, ' ')| >= 3 && r.left.Num?
      && ScaledComponents(Split(cordinates, ' '), image, imageSize)[2] == Num(r.left.value + r.width.value)
    ensures r.height.Num? ==>
      && |Split(cordinates, ' ')| >= 4 && r.top.Num?
      && ScaledComponents(Split(cordinates, ' '), image, imageSize)[3] == Num(r.top.value + r.height.value)
  {
    var values := ScaledComponents(Split(cordinates, ' '), image, imageSize);
    var left, top, right, bottom := Element(values, 0), Element(values, 1), Element(values, 2), Element(values, 3);
    Rectangle(top, left, Minus(right, left), Minus(bottom, top))
  }

  /** One box per record, each drawn with `draw`, in the records' order. */
  function Drawn(objects: seq<Record>, draw: Record -> Rectangle): (boxes: seq<Rectangle>)
    ensures |boxes| == |objects|
    ensures forall k :: 0 <= k < |objects| ==> boxes[k] == draw(objects[k])
  {
    seq(|objects|, k requires 0 <= k < |objects| => draw(objects[k]))
  }

  lemma DrawnAppend(a: seq<Record>, b: seq<Record>, draw: Record -> Rectangle)
    ensures Drawn(a + b, draw) == Drawn(a, draw) + Drawn(b, draw)
  {
    var lhs, rhs := Drawn(a + b, draw), Drawn(a, draw) + Drawn(b, draw);
    forall k | 0 <= k < |lhs| ensures lhs[k] == rhs[k] {
      if k >= |a| {
        assert (a + b)[k] == b[k - |a|];
      }
    }
  }

  /** How one record is drawn for a given image and display box. */
  function DrawRecord(image: Option<Asset>, imageSize: Size): Record -> Rectangle
  {
    (o: Record) => ToRectangle(o.cordinates, image, imageSize)
  }

  /** The boxes drawn for the detected objects: one per record, in the records' order. */
  function Rectangles(objects: seq<Record>, image: Option<Asset>, imageSize: Size): (boxes: seq<Rectangle>)
    ensures |boxes| == |objects|
    ensures forall k :: 0 <= k < |objects| ==> boxes[k] == ToRectangle(objects[k].cordinates, image, imageSize)
  {
    Drawn(objects, DrawRecord(image, imageSize))
  }

  /** The mapping is element-wise: the boxes of a concatenation are the concatenated boxes. */
  lemma RectanglesAppend(a: seq<Record>, b: seq<Record>, image: Option<Asset>, imageSize: Size)
    ensures Rectangles(a + b, image, imageSize) == Rectangles(a, image, imageSize) + Rectangles(b, image, imageSize)
  {
    DrawnAppend(a, b, DrawRecord(image, imageSize));
  }

  /** Pieces at even indices (left, right) use the width axis; odd indices (top, bottom) the height axis. */
  lemma ComponentAxis(i: nat, token: string, image: Option<Asset>, imageSize: Size)
    ensures i % 2 == 0 ==>
      ComponentScale(i, token, image, imageSize) == Scale(W, ImageWidth(image), ToNumber(token), imageSize.width, None)
    ensures i % 2 == 1 ==>
      ComponentScale(i, token, image, imageSize) == Scale(H, ImageHeight(image), ToNumber(token), imageSize.height, None)
  {
  }

  /**
   * A record whose coordinate string has fewer than four pieces yields a box
   * whose height is NaN; with a single piece the top is `undefined` and the
   * width NaN as well.
   */
  lemma ShortCoordinates(cordinates: string, image: Option<Asset>, imageSize: Size)
    requires |Split(cordinates, ' ')| < 4
    ensures ToRectangle(cordinates, image, imageSize).height == NaN
    ensures |Split(cordinates, ' ')| == 1 ==>
      ToRectangle(cordinates, image, imageSize).top == Undefined
      && ToRectangle(cordinates, image, imageSize).width == NaN
  {
  }

  /**
   * Without an image in state every piece scales to 0, so a record with at
   * least four pieces yields an empty box at the origin.
   */
  lemma NoImageCollapses(cordinates: string, imageSize: Size)
    requires |Split(cordinates, ' ')| >= 4
    ensures ToRectangle(cordinates, None, imageSize) == Rectangle(Num(0.0), Num(0.0), Num(0.0), Num(0.0))
  {
    var tokens := Split(cordinates, ' ');
    var values := ScaledComponents(tokens, None, imageSize);
    forall i | 0 <= i < 4 ensures values[i] == Num(0.0) {
      assert GetScale(ComponentScale(i, tokens[i], None, imageSize)) == Num(0.0);
    }
  }

  /**
   * A malformed piece is not reported: Number() reads it as NaN, and once an
   * image whose extent on that axis is at least 1 is in state, the box
   * carries NaN. A bad first piece spoils the left edge and the width, a bad
   * second piece the top and the height.
   */
  lemma MalformedPiece(cordinates: string, asset: Asset, imageSize: Size)
    ensures asset.width.GetOr(0.0) >= 1.0 && ToNumber(Split(cordinates, ' ')[0]) == NaN ==>
      ToRectangle(cordinates, Some(asset), imageSize).left == NaN
      && ToRectangle(cordinates, Some(asset), imageSize).width == NaN
    ensures asset.height.GetOr(0.0) >= 1.0 && |Split(cordinates, ' ')| >= 2 && ToNumber(Split(cordinates, ' ')[1]) == NaN ==>
      ToRectangle(cordinates, Some(asset), imageSize).top == NaN
      && ToRectangle(cordinates, Some(asset), imageSize).height == NaN
  {
    var tokens := Split(cordinates, ' ');
    var values := ScaledComponents(tokens, Some(asset), imageSize);
    assert values[0] == GetScale(ComponentScale(0, tokens[0], Some(asset), imageSize));
    if |tokens| >= 2 {
      assert values[1] == GetScale(ComponentScale(1, tokens[1], Some(asset), imageSize));
    }
  }
}
