/**
 * The display box computed before the detections are shown: the photo is
 * fitted to the full window width, and capped at half the window height,
 * keeping its aspect ratio.
 */
module Layout {
  import opened Wrappers
  import opened RealOrder

  /** The image-picker asset: a URI and pixel dimensions, each possibly absent. */
  datatype Asset = Asset(uri: Option<string>, width: Option<real>, height: Option<real>)

  datatype Size = Size(width: real, height: real)

  /** The window dimensions, read once when the app starts. */
  datatype Window = Window(width: real, height: real)

  /** The asset dimensions as the layout uses them: absent ones count as 1 (`?? 1`). */
  function EffectiveWidth(asset: Asset): real { asset.width.GetOr(1.0) }
  function EffectiveHeight(asset: Asset): real { asset.height.GetOr(1.0) }

  ghost predicate Positive(asset: Asset, window: Window) {
    && window.width > 0.0 && window.height > 0.0
    && EffectiveWidth(asset) > 0.0 && EffectiveHeight(asset) > 0.0
  }

  /** The height the image would have at the full window width. */
  function ImageViewHeight(asset: Asset, window: Window): real
    requires Positive(asset, window)
  {
    (window.width * EffectiveHeight(asset)) / EffectiveWidth(asset)
  }

  /** The width the image would have at half the window height. */
  function ImageViewWidth(asset: Asset, window: Window): real
    requires Positive(asset, window)
  {
    ImageViewPositive(asset, window);
    (window.width * window.height * 0.5) / ImageViewHeight(asset, window)
  }

  /**
   * The display size. It fits the bounds (full width, half height), keeps the
   * asset's aspect ratio (stated cross-multiplied), is non-degenerate, and
   * reaches at least one of the two bounds.
   */
  function DisplaySize(asset: Asset, window: Window): (size: Size)
    requires Positive(asset, window)
    ensures 0.0 < size.width <= window.width
    ensures 0.0 < size.height <= 0.5 * window.height
    ensures size.width * EffectiveHeight(asset) == size.height * EffectiveWidth(asset)
    ensures size.width == window.width || size.height == 0.5 * window.height
  {
    var imageViewHeight := ImageViewHeight(asset, window);
    var imageViewWidth := ImageViewWidth(asset, window);
    ImageViewPositive(asset, window);
    if imageViewHeight > 0.5 * window.height then
      CappedBranch(asset, window);
      Size(imageViewWidth, window.height * 0.5)
    else
      Size(window.width, imageViewHeight)
  }

  lemma ImageViewPositive(asset: Asset, window: Window)
    requires Positive(asset, window)
    ensures ImageViewHeight(asset, window) > 0.0
    ensures ImageViewHeight(asset, window) * EffectiveWidth(asset) == window.width * EffectiveHeight(asset)
  {
    assert window.width * EffectiveHeight(asset) > 0.0;
  }

  lemma CappedBranch(asset: Asset, window: Window)
    requires Positive(asset, window)
    requires ImageViewHeight(asset, window) > 0.5 * window.height
    ensures 0.0 < ImageViewWidth(asset, window) <= window.width
    ensures ImageViewWidth(asset, window) * EffectiveHeight(asset) == window.height * 0.5 * EffectiveWidth(asset)
  {
    ImageViewPositive(asset, window);
    var w, h := EffectiveWidth(asset), EffectiveHeight(asset);
    var ivh := ImageViewHeight(asset, window);
    var ivw := ImageViewWidth(asset, window);
    var half := window.height * 0.5;
    assert ivw * ivh == window.width * half;
    assert ivw > 0.0 by {
      assert window.width * half > 0.0;
    }
    assert ivw <= window.width by {
      calc {
        ivw * ivh;
        == window.width * half;
        <= { MultiplyMonotone(half, ivh, window.width); }
        window.width * ivh;
      }
      CancelPositive(ivw, window.width, ivh);
    }
    // ivw * ivh * w == window.width * half * w and ivh * w == window.width * h
    assert ivw * (ivh * w) == (window.width * half) * w;
    assert ivw * (window.width * h) == (window.width * half) * w;
    assert (ivw * h) * window.width == (half * w) * window.width;
    CancelPositive(ivw * h, half * w, window.width);
    CancelPositive(half * w, ivw * h, window.width);
  }

  /**
   * No box that keeps the aspect ratio and fits the same bounds is larger in
   * either dimension: the computed size is the largest fit.
   */
  lemma DisplaySizeIsLargest(asset: Asset, window: Window, other: Size)
    requires Positive(asset, window)
    requires other.width * EffectiveHeight(asset) == other.height * EffectiveWidth(asset)
    requires 0.0 <= other.width <= window.width && 0.0 <= other.height <= 0.5 * window.height
    ensures other.width <= DisplaySize(asset, window).width
    ensures other.height <= DisplaySize(asset, window).height
  {
    var size := DisplaySize(asset, window);
    var w, h := EffectiveWidth(asset), EffectiveHeight(asset);
    if size.width == window.width {
      // other.height * w == other.width * h <= size.width * h == size.height * w
      assert other.width * h <= size.width * h by {
        MultiplyMonotone(other.width, size.width, h);
      }
      CancelPositive(other.height, size.height, w);
    } else {
      assert size.height == 0.5 * window.height;
      assert other.height * w <= size.height * w by {
        MultiplyMonotone(other.height, size.height, w);
      }
      CancelPositive(other.width, size.width, h);
    }
  }
}
