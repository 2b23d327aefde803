/**
 * From native record to overlay box: the coordinate string that either
 * native module writes splits into exactly the four pieces that the render
 * code destructures, each reads back as the number written, and the box
 * drawn is therefore the scaled frame.
 */
module Pipeline {
  import opened Wrappers
  import opened Decimal
  import opened Js
  import opened Wire
  import opened Scaling
  import opened Layout
  import opened Overlay
  import Android
  import Ios

  /** Both asset dimensions are present and at least 1, so getScale scales rather than returning 0. */
  ghost predicate Sized(asset: Asset) {
    asset.width.Some? && asset.width.value >= 1.0 && asset.height.Some? && asset.height.value >= 1.0
  }

  /** The box for image-space edges left, top, right, bottom, each rounded up on its own axis. */
  function ExpectedBox(left: int, top: int, right: int, bottom: int, asset: Asset, size: Size): Rectangle
    requires Sized(asset)
  {
    var w, h := asset.width.value, asset.height.value;
    var l, t := CeilScaled(left as real, size.width, w, 0.0), CeilScaled(top as real, size.height, h, 0.0);
    var r, b := CeilScaled(right as real, size.width, w, 0.0), CeilScaled(bottom as real, size.height, h, 0.0);
    Rectangle(Num(t), Num(l), Num(r - l), Num(b - t))
  }

  lemma ScaledPiece(i: nat, token: string, v: int, asset: Asset, size: Size)
    requires Sized(asset) && ToNumber(token) == Num(v as real)
    ensures i % 2 == 0 ==>
      GetScale(ComponentScale(i, token, Some(asset), size)) == Num(CeilScaled(v as real, size.width, asset.width.value, 0.0))
    ensures i % 2 == 1 ==>
      GetScale(ComponentScale(i, token, Some(asset), size)) == Num(CeilScaled(v as real, size.height, asset.height.value, 0.0))
  {
    ComponentAxis(i, token, Some(asset), size);
    if i % 2 == 0 {
      GetScaleOfNumber(Scale(W, asset.width, Num(v as real), size.width, None), v as real);
    } else {
      GetScaleOfNumber(Scale(H, asset.height, Num(v as real), size.height, None), v as real);
    }
  }

  /** Four pieces that read as integers scale edge by edge, alternating width and height. */
  lemma FourValues(tokens: seq<string>, ints: seq<int>, asset: Asset, size: Size)
    requires |tokens| == 4 && |ints| == 4 && Sized(asset)
    requires forall i :: 0 <= i < 4 ==> ToNumber(tokens[i]) == Num(ints[i] as real)
    ensures ScaledComponents(tokens, Some(asset), size) == [
      Num(CeilScaled(ints[0] as real, size.width, asset.width.value, 0.0)),
      Num(CeilScaled(ints[1] as real, size.height, asset.height.value, 0.0)),
      Num(CeilScaled(ints[2] as real, size.width, asset.width.value, 0.0)),
      Num(CeilScaled(ints[3] as real, size.height, asset.height.value, 0.0))]
  {
    ScaledPiece(0, tokens[0], ints[0], asset, size);
    ScaledPiece(1, tokens[1], ints[1], asset, size);
    ScaledPiece(2, tokens[2], ints[2], asset, size);
    ScaledPiece(3, tokens[3], ints[3], asset, size);
  }

  lemma RectangleOfPieces(cordinates: string, tokens: seq<string>, ints: seq<int>, asset: Asset, size: Size)
    requires Split(cordinates, ' ') == tokens
    requires |tokens| == 4 && |ints| == 4 && Sized(asset)
    requires forall i :: 0 <= i < 4 ==> ToNumber(tokens[i]) == Num(ints[i] as real)
    ensures ToRectangle(cordinates, Some(asset), size) == ExpectedBox(ints[0], ints[1], ints[2], ints[3], asset, size)
  {
    FourValues(tokens, ints, asset, size);
  }

  /** Four space-free pieces that read as integers yield the expected box. */
  lemma FourPieces(tokens: seq<string>, ints: seq<int>, asset: Asset, size: Size)
    requires |tokens| == 4 && |ints| == 4 && Sized(asset)
    requires forall i :: 0 <= i < 4 ==> ' ' !in tokens[i] && ToNumber(tokens[i]) == Num(ints[i] as real)
    ensures ToRectangle(Join(tokens, ' '), Some(asset), size)
      == ExpectedBox(ints[0], ints[1], ints[2], ints[3], asset, size)
  {
    SplitJoin(tokens, ' ');
    RectangleOfPieces(Join(tokens, ' '), tokens, ints, asset, size);
  }

  /**
   * An Android record's box: the flattened Rect reads back as its four
   * edges, and a well-formed Rect (right >= left, bottom >= top) on a display
   * of non-negative size yields a box of non-negative width and height.
   */
  lemma AndroidBoxOnScreen(box: Android.Rect, asset: Asset, size: Size)
    requires Sized(asset)
    ensures ToRectangle(box.FlattenToString(), Some(asset), size)
      == ExpectedBox(box.left, box.top, box.right, box.bottom, asset, size)
    ensures size.width >= 0.0 && box.right >= box.left ==>
      ToRectangle(box.FlattenToString(), Some(asset), size).width.value >= 0.0
    ensures size.height >= 0.0 && box.bottom >= box.top ==>
      ToRectangle(box.FlattenToString(), Some(asset), size).height.value >= 0.0
  {
    var ints := [box.left, box.top, box.right, box.bottom];
    var tokens := [IntToString(ints[0]), IntToString(ints[1]), IntToString(ints[2]), IntToString(ints[3])];
    assert box.FlattenToString() == Join(tokens, ' ');
    forall i | 0 <= i < 4 ensures ' ' !in tokens[i] && ToNumber(tokens[i]) == Num(ints[i] as real) {
      IntToStringShape(ints[i]);
      NumberOfIntToString(ints[i]);
    }
    SplitJoin(tokens, ' ');
    RectangleOfPieces(box.FlattenToString(), tokens, ints, asset, size);
    ExpectedBoxNonNegative(box.left, box.top, box.right, box.bottom, asset, size);
  }

  /**
   * An iOS record's box: the "minX minY maxX maxY" string reads back as the
   * standardised frame's corners, so on a display of non-negative size the
   * box never has a negative width or height.
   */
  lemma IosBoxOnScreen(frame: Ios.CGRect, asset: Asset, size: Size)
    requires Sized(asset)
    ensures ToRectangle(Ios.Coordinates(frame), Some(asset), size)
      == ExpectedBox(frame.MinX(), frame.MinY(), frame.MaxX(), frame.MaxY(), asset, size)
    ensures size.width >= 0.0 ==> ToRectangle(Ios.Coordinates(frame), Some(asset), size).width.value >= 0.0
    ensures size.height >= 0.0 ==> ToRectangle(Ios.Coordinates(frame), Some(asset), size).height.value >= 0.0
  {
    var ints := [frame.MinX(), frame.MinY(), frame.MaxX(), frame.MaxY()];
    var tokens := [FloatText(ints[0]), FloatText(ints[1]), FloatText(ints[2]), FloatText(ints[3])];
    assert Ios.Coordinates(frame) == Join(tokens, ' ');
    forall i | 0 <= i < 4 ensures ' ' !in tokens[i] && ToNumber(tokens[i]) == Num(ints[i] as real) {
      FloatTextShape(ints[i]);
      NumberOfPointZero(ints[i]);
    }
    SplitJoin(tokens, ' ');
    RectangleOfPieces(Ios.Coordinates(frame), tokens, ints, asset, size);
    ExpectedBoxNonNegative(frame.MinX(), frame.MinY(), frame.MaxX(), frame.MaxY(), asset, size);
  }

  /** A box whose right edge is not left of its left edge (bottom not above top) has non-negative width (height). */
  lemma ExpectedBoxNonNegative(left: int, top: int, right: int, bottom: int, asset: Asset, size: Size)
    requires Sized(asset)
    ensures size.width >= 0.0 && right >= left ==> ExpectedBox(left, top, right, bottom, asset, size).width.value >= 0.0
    ensures size.height >= 0.0 && bottom >= top ==> ExpectedBox(left, top, right, bottom, asset, size).height.value >= 0.0
  {
    if size.width >= 0.0 && right >= left {
      CeilScaledMonotone(left as real, right as real, size.width, asset.width.value, 0.0);
    }
    if size.height >= 0.0 && bottom >= top {
      CeilScaledMonotone(top as real, bottom as real, size.height, asset.height.value, 0.0);
    }
  }

  lemma ScaleFullExtent(extent: int, display: real)
    requires extent >= 1
    ensures display <= CeilScaled(extent as real, display, extent as real, 0.0) < display + 1.0
  {
    assert (extent as real) * (display / extent as real) == display;
  }

  /**
   * The frame covering the whole image is drawn at the origin and covers the
   * display box, overshooting it by less than one pixel on each axis.
   */
  lemma FullFrameCovers(width: int, height: int, uri: Option<string>, size: Size)
    requires width >= 1 && height >= 1
    ensures var r := ToRectangle(Android.Rect(0, 0, width, height).FlattenToString(),
                                 Some(Asset(uri, Some(width as real), Some(height as real))), size);
      && r.left == Num(0.0) && r.top == Num(0.0)
      && r.width.Num? && size.width <= r.width.value < size.width + 1.0
      && r.height.Num? && size.height <= r.height.value < size.height + 1.0
  {
    var asset := Asset(uri, Some(width as real), Some(height as real));
    AndroidBoxOnScreen(Android.Rect(0, 0, width, height), asset, size);
    ScaleFullExtent(width, size.width);
    ScaleFullExtent(height, size.height);
    assert CeilScaled(0.0, size.width, width as real, 0.0) == 0.0;
    assert CeilScaled(0.0, size.height, height as real, 0.0) == 0.0;
  }

  /** A 400 x 800 photo in a 1080 x 2000 window is capped at half the height: a 500 x 1000 box. */
  lemma TallPhotoSize()
    ensures DisplaySize(Asset(None, Some(400.0), Some(800.0)), Window(1080.0, 2000.0)) == Size(500.0, 1000.0)
  {
    var asset := Asset(None, Some(400.0), Some(800.0));
    var window := Window(1080.0, 2000.0);
    assert ImageViewHeight(asset, window) == 2160.0;
    assert ImageViewWidth(asset, window) == 500.0;
  }

  lemma CeilOf(x: real, n: int)
    requires n as real - 1.0 < x <= n as real
    ensures Ceil(x) == n
  {
  }

  /**
   * On that 500 x 1000 box the frame (50, 100, 150, 300) is drawn at left 63,
   * top 125 with width 125 and height 250: both left edges round up. With
   * `AndroidBoxOnScreen` this is the box drawn for that Android Rect.
   */
  lemma TallPhotoBox()
    ensures ExpectedBox(50, 100, 150, 300, Asset(None, Some(400.0), Some(800.0)), Size(500.0, 1000.0))
         == Rectangle(Num(125.0), Num(63.0), Num(125.0), Num(250.0))
  {
    assert CeilScaled(50.0, 500.0, 400.0, 0.0) == 63.0 by {
      assert 50.0 * (500.0 / 400.0) == 62.5;
      CeilOf(62.5, 63);
    }
    assert CeilScaled(150.0, 500.0, 400.0, 0.0) == 188.0 by {
      assert 150.0 * (500.0 / 400.0) == 187.5;
      CeilOf(187.5, 188);
    }
    assert CeilScaled(100.0, 1000.0, 800.0, 0.0) == 125.0 by {
      assert 100.0 * (1000.0 / 800.0) == 125.0;
      CeilOf(125.0, 125);
    }
    assert CeilScaled(300.0, 1000.0, 800.0, 0.0) == 375.0 by {
      assert 300.0 * (1000.0 / 800.0) == 375.0;
      CeilOf(375.0, 375);
    }
  }

  lemma HundredsText()
    ensures IntToString(0) == "0" && IntToString(100) == "100" && IntToString(200) == "200"
  {
    assert NatDigits(10) == "10";
    assert NatDigits(20) == "20";
  }

  /** Rect.flattenToString of (0, 0, 100, 200) is "0 0 100 200". */
  lemma FlattenExample(box: Android.Rect)
    requires box == Android.Rect(0, 0, 100, 200)
    ensures box.FlattenToString() == "0 0 100 200"
  {
    HundredsText();
    JoinFour("0", "0", "100", "200", ' ');
  }

  /**
   * The frame "0 0 100 200" of a 1000 x 2000 photo shown in a 500 x 1000 box
   * is drawn at the origin, 50 wide and 100 high.
   */
  lemma HalfScaleBox()
    ensures ExpectedBox(0, 0, 100, 200, Asset(None, Some(1000.0), Some(2000.0)), Size(500.0, 1000.0))
         == Rectangle(Num(0.0), Num(0.0), Num(50.0), Num(100.0))
  {
    assert CeilScaled(0.0, 500.0, 1000.0, 0.0) == 0.0 by {
      assert 0.0 * (500.0 / 1000.0) == 0.0;
      CeilOf(0.0, 0);
    }
    assert CeilScaled(0.0, 1000.0, 2000.0, 0.0) == 0.0 by {
      assert 0.0 * (1000.0 / 2000.0) == 0.0;
      CeilOf(0.0, 0);
    }
    assert CeilScaled(100.0, 500.0, 1000.0, 0.0) == 50.0 by {
      assert 100.0 * (500.0 / 1000.0) == 50.0;
      CeilOf(50.0, 50);
    }
    assert CeilScaled(200.0, 1000.0, 2000.0, 0.0) == 100.0 by {
      assert 200.0 * (1000.0 / 2000.0) == 100.0;
      CeilOf(100.0, 100);
    }
  }
}
