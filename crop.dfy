/** The geometry of the editor's centre crop (`cropImage`) and of the preview box
    (`getAspectRatioClass`), over exact rationals. */
module CropGeometry {
  import opened Wrappers
  import opened JsStrings

  /** The source rectangle `(sx, sy, sWidth, sHeight)` that the crop copies out of the image. */
  datatype Rect = Rect(x: real, y: real, width: real, height: real)

  /** The region of a `width` by `height` image kept for the target ratio `target`
      (width over height): it lies inside the image, has exactly the target ratio, is centred,
      and keeps one whole side of the image. */
  function CropRect(width: real, height: real, target: real): (r: Rect)
    requires width > 0.0 && height > 0.0 && target > 0.0
    ensures r.width > 0.0 && r.height > 0.0
    ensures 0.0 <= r.x && r.x + r.width <= width
    ensures 0.0 <= r.y && r.y + r.height <= height
    ensures r.width / r.height == target
    ensures 2.0 * r.x + r.width == width && 2.0 * r.y + r.height == height
    ensures r.width == width || r.height == height
  {
    if width / height > target then
      var sHeight := height;
      var sWidth := sHeight * target;
      assert sWidth < width by {
        assert width / height * height == width;
      }
      Rect((width - sWidth) / 2.0, 0.0, sWidth, sHeight)
    else
      var sWidth := width;
      var sHeight := sWidth / target;
      assert sHeight <= height by {
        assert width / height <= target;
        assert sHeight * target == width;
        assert height * target >= width by {
          assert width / height * height == width;
        }
      }
      Rect(0.0, (height - sHeight) / 2.0, sWidth, sHeight)
  }

  /** Which side is kept: an image relatively wider than the target keeps its full height and is
      clipped left and right; any other keeps its full width and is clipped top and bottom. */
  lemma CropKeepsSide(width: real, height: real, target: real)
    requires width > 0.0 && height > 0.0 && target > 0.0
    ensures var r := CropRect(width, height, target);
      if width / height > target then
        r.height == height && r.width == height * target && r.y == 0.0
        && r.x == (width - height * target) / 2.0
      else
        r.width == width && r.height == width / target && r.x == 0.0
        && r.y == (height - width / target) / 2.0
  {
  }

  /** No rectangle of the target ratio that fits inside the image is larger than the crop. */
  lemma CropIsLargest(width: real, height: real, target: real, w: real, h: real)
    requires width > 0.0 && height > 0.0 && target > 0.0
    requires 0.0 < w <= width && 0.0 < h <= height && w / h == target
    ensures w <= CropRect(width, height, target).width
    ensures h <= CropRect(width, height, target).height
  {
    var r := CropRect(width, height, target);
    assert w == h * target by {
      assert w / h * h == w;
    }
    if r.height == height {
      assert r.width == height * target;
      assert h * target <= height * target;
    } else {
      assert r.width == width;
      assert r.height * target == width;
      assert h * target <= r.height * target;
      assert h == w / target;
      assert w / target <= width / target;
    }
  }

  /** `widthRatio / heightRatio` from `ratio.split(':').map(Number)`, for ratios written as two
      decimal numbers with a non-zero height; segments after the second are ignored, as the
      destructuring assignment ignores them. */
  function ParseRatio(ratio: string): Option<real> {
    var parts := SplitOn(ratio, ':');
    if |parts| >= 2 && parts[0] != [] && parts[1] != [] && IsDigits(parts[0]) && IsDigits(parts[1])
       && DecimalValue(parts[1]) > 0
    then Some(DecimalValue(parts[0]) as real / DecimalValue(parts[1]) as real)
    else None
  }

  /** The ratio written `"W:H"` reads as `W / H`. */
  lemma ParseRatioOfRendered(w: nat, h: nat)
    requires h > 0
    ensures ParseRatio(NatToDecimal(w) + ":" + NatToDecimal(h)) == Some(w as real / h as real)
  {
    var a, b := NatToDecimal(w), NatToDecimal(h);
    assert ':' !in a by {
      assert forall i :: 0 <= i < |a| ==> IsDigit(a[i]);
    }
    assert ':' !in b by {
      assert forall i :: 0 <= i < |b| ==> IsDigit(b[i]);
    }
    assert a + ":" + b == a + [':'] + b;
    SplitAtFirst(a, ':', b);
    SplitWithoutSeparator(b, ':');
    DecimalRoundTrip(w);
    DecimalRoundTrip(h);
  }

  /** The crop for the ratio string the editor holds; `None` when the string is not a ratio of
      two decimal numbers with non-zero parts. */
  function CropFor(width: real, height: real, ratio: string): (r: Option<Rect>)
    requires width > 0.0 && height > 0.0
    ensures r.Some? <==> ParseRatio(ratio).Some? && ParseRatio(ratio).value > 0.0
    ensures r.Some? ==> r.value.height > 0.0 && r.value.width / r.value.height == ParseRatio(ratio).value
  {
    match ParseRatio(ratio)
    case Some(t) => if t > 0.0 then Some(CropRect(width, height, t)) else None
    case None => None
  }

  /** The ratios the preview class names: the default `1:1` and the two it distinguishes. */
  const SupportedRatios: seq<string> := ["1:1", "2:3", "16:9"]

  /** The preview box's CSS class for a ratio; every other string falls back to a square. */
  function AspectRatioClass(ratio: string): (cls: string)
    ensures cls == "aspect-square" <==> ratio != "2:3" && ratio != "16:9"
  {
    match ratio
    case "2:3" => "aspect-[2/3]"
    case "16:9" => "aspect-[16/9]"
    case _ => "aspect-square"
  }

  /** The width-over-height ratio a CSS aspect class of the form above sets. */
  function ClassRatio(cls: string): Option<real> {
    if cls == "aspect-square" then Some(1.0)
    else if |cls| >= 9 && cls[..8] == "aspect-[" && cls[|cls| - 1] == ']' then RatioOfParts(cls[8..|cls| - 1])
    else None
  }

  /** The ratio `W/H` written between the brackets. */
  function RatioOfParts(inner: string): Option<real> {
    var parts := SplitOn(inner, '/');
    if |parts| == 2 && parts[0] != [] && parts[1] != [] && IsDigits(parts[0]) && IsDigits(parts[1])
       && DecimalValue(parts[1]) > 0
    then Some(DecimalValue(parts[0]) as real / DecimalValue(parts[1]) as real)
    else None
  }

  /** The parts of a string wrapped in a prefix and a suffix. */
  lemma Wrapped(p: string, m: string, q: string)
    ensures (p + m + q)[..|p|] == p
    ensures (p + m + q)[|p|..|p + m + q| - |q|] == m
  {
  }

  /** A bracketed class is read from what is between the brackets. */
  lemma ClassRatioOfBracketed(m: string)
    requires m != []
    ensures ClassRatio("aspect-[" + m + "]") == RatioOfParts(m)
  {
    var cls := "aspect-[" + m + "]";
    Wrapped("aspect-[", m, "]");
    assert cls != "aspect-square" by {
      assert cls[7] == '[';
    }
  }

  /** `W/H` written in decimal reads back as `W / H`. */
  lemma RatioOfRenderedParts(w: nat, h: nat)
    requires h > 0
    ensures RatioOfParts(NatToDecimal(w) + "/" + NatToDecimal(h)) == Some(w as real / h as real)
  {
    var a, b := NatToDecimal(w), NatToDecimal(h);
    assert '/' !in a by {
      assert forall i :: 0 <= i < |a| ==> IsDigit(a[i]);
    }
    assert '/' !in b by {
      assert forall i :: 0 <= i < |b| ==> IsDigit(b[i]);
    }
    SplitAtFirst(a, '/', b);
    SplitWithoutSeparator(b, '/');
    DecimalRoundTrip(w);
    DecimalRoundTrip(h);
  }

  /** `ClassRatio` of `"aspect-[" + W + "/" + H + "]"` is `W / H`. */
  lemma ClassRatioOfRendered(w: nat, h: nat)
    requires h > 0
    ensures ClassRatio("aspect-[" + (NatToDecimal(w) + "/" + NatToDecimal(h)) + "]")
            == Some(w as real / h as real)
  {
    ClassRatioOfBracketed(NatToDecimal(w) + "/" + NatToDecimal(h));
    RatioOfRenderedParts(w, h);
  }

  /** For every ratio the preview class names, the preview box has the crop's ratio. */
  lemma PreviewMatchesCrop(ratio: string)
    requires ratio in SupportedRatios
    ensures ClassRatio(AspectRatioClass(ratio)).Some?
    ensures ClassRatio(AspectRatioClass(ratio)) == ParseRatio(ratio)
  {
    if ratio == "1:1" {
      assert "1:1" == NatToDecimal(1) + ":" + NatToDecimal(1);
      ParseRatioOfRendered(1, 1);
    } else if ratio == "2:3" {
      assert NatToDecimal(2) == "2" && NatToDecimal(3) == "3";
      assert "aspect-[2/3]" == "aspect-[" + (NatToDecimal(2) + "/" + NatToDecimal(3)) + "]";
      ClassRatioOfRendered(2, 3);
      assert "2:3" == NatToDecimal(2) + ":" + NatToDecimal(3);
      ParseRatioOfRendered(2, 3);
    } else {
      assert NatToDecimal(16) == "16" && NatToDecimal(9) == "9";
      assert "aspect-[16/9]" == "aspect-[" + (NatToDecimal(16) + "/" + NatToDecimal(9)) + "]";
      ClassRatioOfRendered(16, 9);
      assert "16:9" == NatToDecimal(16) + ":" + NatToDecimal(9);
      ParseRatioOfRendered(16, 9);
    }
  }
}
