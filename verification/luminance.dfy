/** The greyscale conversion of processImage: every pixel of the RGBA buffer
    read back from the off-screen canvas becomes one height sample, stored in
    row-major order. */
module Luminance {
  import opened Policy
  import Arith

  /** One channel of the canvas's pixel buffer (a Uint8ClampedArray entry). */
  type Byte = x: int | 0 <= x < 256

  /** The pixel data of an image: four channels (R, G, B, A) per pixel,
      pixels row by row. */
  datatype Image = Image(width: nat, height: nat, pixels: seq<Byte>) {
    predicate Valid() {
      |pixels| == 4 * (width * height)
    }
  }

  /** The record processImage returns: the samples and the grid size it
      reports for them. */
  datatype Heightmap = Heightmap(data: seq<real>, width: nat, height: nat) {
    /** The reported size describes the sample buffer exactly. */
    predicate WellFormed() {
      |data| == width * height
    }

    /** Every sample is a luminance in [0, 1]. */
    predicate Normalised() {
      forall k :: 0 <= k < |data| ==> 0.0 <= data[k] <= 1.0
    }
  }

  /** BT.709 luma of one pixel, scaled from [0, 255] to [0, 1]. The three
      weights sum to one, so a grey pixel keeps its level. */
  function Luma(r: Byte, g: Byte, b: Byte): (l: real)
    ensures 0.0 <= l <= 1.0
    ensures r == g == b ==> l == r as real / 255.0
    ensures r == 0 && g == 0 && b == 0 <==> l == 0.0
    ensures r == 255 && g == 255 && b == 255 <==> l == 1.0
  {
    (0.2126 * r as real + 0.7152 * g as real + 0.0722 * b as real) / 255.0
  }

  /** The luma of the k-th pixel in row-major order (the alpha channel is
      ignored). */
  function LumaAt(img: Image, k: nat): real
    requires img.Valid() && k < img.width * img.height
  {
    Luma(img.pixels[4 * k], img.pixels[4 * k + 1], img.pixels[4 * k + 2])
  }

  /** The row-major position of pixel (x, y): y * width + x. */
  function Offset(img: Image, x: nat, y: nat): (k: nat)
    requires x < img.width && y < img.height
    ensures k < img.width * img.height
  {
    Arith.IndexInGrid(y, x, img.height, img.width);
    y * img.width + x
  }

  /** The luma of the pixel in column x of row y. */
  function PixelLuma(img: Image, x: nat, y: nat): real
    requires img.Valid() && x < img.width && y < img.height
  {
    LumaAt(img, Offset(img, x, y))
  }

  /** The heightmap record built from an image. As written, the record's
      height is the image's width; the corrected variant reports the image's
      height. */
  function HeightmapOf(img: Image, v: Variant): (hm: Heightmap)
    requires img.Valid()
    ensures |hm.data| == img.width * img.height
    ensures hm.Normalised()
    ensures hm.width == img.width
    ensures hm.WellFormed() <==> v.Corrected? || img.width == img.height || img.width == 0
  {
    var n := img.width * img.height;
    var data := seq(n, k requires 0 <= k < n => LumaAt(img, k));
    var hm := Heightmap(data, img.width, if v.AsWritten? then img.width else img.height);
    assert v.AsWritten? ==> (hm.WellFormed() <==> img.width == img.height || img.width == 0) by {
      if v.AsWritten? && img.width != 0 && img.width != img.height {
        if img.width < img.height {
          Arith.MulMonotone(img.width + 1, img.height, img.width);
        } else {
          Arith.MulMonotone(img.height + 1, img.width, img.width);
        }
      }
    }
    hm
  }

  /** processImage: reading the pixels back with getImageData throws on an
      image with a zero dimension. Otherwise the pixel loop runs rows, then
      columns; sample y * sw + x holds the luma of pixel (x, y). */
  method ProcessImage(img: Image, v: Variant) returns (r: Outcome<Heightmap>)
    requires img.Valid()
    ensures r.Threw? <==> img.width == 0 || img.height == 0
    ensures r.Done? ==> r.value == HeightmapOf(img, v)
    ensures r.Done? ==> forall y: nat, x: nat :: y < img.height && x < img.width ==>
      r.value.data[Offset(img, x, y)] == PixelLuma(img, x, y)
  {
    var sw, sh := img.width, img.height;
    if sw == 0 || sh == 0 {
      return Threw;
    }
    var heights := seq(sw * sh, _ => 0.0);
    ghost var done := 0;
    var y := 0;
    while y < sh
      invariant 0 <= y <= sh
      invariant done == y * sw && done <= sw * sh
      invariant |heights| == sw * sh
      invariant forall k :: 0 <= k < done ==> heights[k] == LumaAt(img, k)
    {
      var x := 0;
      while x < sw
        invariant 0 <= x <= sw
        invariant done == y * sw + x && done <= sw * sh
        invariant |heights| == sw * sh
        invariant forall k :: 0 <= k < done ==> heights[k] == LumaAt(img, k)
      {
        assert y * sw + x == Offset(img, x, y);
        var i := (y * sw + x) * 4;
        var r, g, b := img.pixels[i + 0], img.pixels[i + 1], img.pixels[i + 2];
        var lum := Luma(r, g, b);
        heights := heights[y * sw + x := lum];
        x := x + 1;
        done := done + 1;
      }
      Arith.NextRow(y, sw);
      y := y + 1;
    }
    assert done == sw * sh;
    var hm := Heightmap(heights, sw, if v.AsWritten? then sw else sh);
    assert heights == HeightmapOf(img, v).data;
    r := Done(hm);
  }

  /** As written, a non-square image yields a record whose reported size
      does not match its samples: a wide image claims rows it does not have,
      a tall one hides its lower rows. */
  lemma AsWrittenHeightIsWidth(img: Image)
    requires img.Valid() && img.width > 0 && img.width != img.height
    ensures HeightmapOf(img, AsWritten).height == img.width
    ensures !HeightmapOf(img, AsWritten).WellFormed()
    ensures img.width > img.height ==>
      |HeightmapOf(img, AsWritten).data| < img.width * img.width
  {
    if img.width > img.height {
      Arith.MulMonotone(img.height + 1, img.width, img.width);
    }
  }

  /** The corrected record always describes its samples, and they are all
      luminances in [0, 1]. */
  lemma CorrectedHeightmapWellFormed(img: Image)
    requires img.Valid()
    ensures HeightmapOf(img, Corrected).WellFormed()
    ensures HeightmapOf(img, Corrected).Normalised()
    ensures HeightmapOf(img, Corrected).height == img.height
  {
  }
}
