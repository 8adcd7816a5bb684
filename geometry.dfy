/**
 * Turning a relative `box_2d` into the pixel rectangle that `crop_image_section`
 * hands to the image's `crop`.  The box is `[ymin, xmin, ymax, xmax]` on a
 * 0-1000 scale; coordinates are scaled by `dimension / 1000` with exact real
 * arithmetic, then clamped to the image.
 */
module Geometry {
  import opened Wrappers

  /** One element of a parsed `box_2d` list: a JSON number (a boolean counts as 1 or 0,
      as Python's `bool` is an `int`), or any other JSON value. */
  datatype Coord = Num(v: real) | NonNumeric

  /** A relative box once unpacked into its four numbers. */
  datatype Box = Box(ymin: real, xmin: real, ymax: real, xmax: real)

  /** A rectangle `(left, top, right, bottom)` in pixel space. */
  datatype Rect = Rect(left: real, top: real, right: real, bottom: real)

  /** The point lies in the closed rectangle. */
  predicate Contains(r: Rect, x: real, y: real) {
    r.left <= x <= r.right && r.top <= y <= r.bottom
  }

  /** The point lies strictly inside the rectangle. */
  predicate Interior(r: Rect, x: real, y: real) {
    r.left < x < r.right && r.top < y < r.bottom
  }

  /** The whole image, `[0, width] x [0, height]`. */
  function Frame(width: nat, height: nat): Rect {
    Rect(0.0, 0.0, width as real, height as real)
  }

  /** `(c / 1000) * dimension`. */
  function Scale(c: real, dim: nat): real {
    (c / 1000.0) * (dim as real)
  }

  /** The box scaled to pixels, before any clamping (possibly inverted or outside the image). */
  function Scaled(b: Box, width: nat, height: nat): Rect {
    Rect(Scale(b.xmin, width), Scale(b.ymin, height), Scale(b.xmax, width), Scale(b.ymax, height))
  }

  function Max(a: real, b: real): real { if a >= b then a else b }

  function Min(a: real, b: real): real { if a <= b then a else b }

  /**
   * The arithmetic part of `crop_image_section`: scale, clamp left/top to at
   * least 0 and right/bottom to at most the image size, and give up on a
   * degenerate result.  The rectangle returned is exactly the overlap of the
   * scaled box with the image, and there is none when that overlap has no area.
   */
  function Normalize(b: Box, width: nat, height: nat): (r: Option<Rect>)
    ensures r.Some? ==>
      && 0.0 <= r.value.left && 0.0 <= r.value.top
      && r.value.right <= width as real && r.value.bottom <= height as real
    ensures r.Some? ==> r.value.left < r.value.right && r.value.top < r.value.bottom
    ensures r.Some? ==> forall x: real, y: real :: Contains(r.value, x, y) <==>
      Contains(Scaled(b, width, height), x, y) && Contains(Frame(width, height), x, y)
    ensures r.None? ==> forall x: real, y: real ::
      !(Interior(Scaled(b, width, height), x, y) && Interior(Frame(width, height), x, y))
  {
    var s := Scaled(b, width, height);
    var left := Max(0.0, s.left);
    var top := Max(0.0, s.top);
    var right := Min(width as real, s.right);
    var bottom := Min(height as real, s.bottom);
    if right <= left || bottom <= top then None
    else Some(Rect(left, top, right, bottom))
  }

  /** Python's `not box_2d` is false: the box is present and non-empty. */
  predicate Present(box: Option<seq<Coord>>) {
    box.Some? && |box.value| > 0
  }

  /** The box unpacks into four values and each of them can be divided by 1000;
      otherwise the unpacking or the division raises. */
  predicate Unpackable(b: seq<Coord>) {
    |b| == 4 && b[0].Num? && b[1].Num? && b[2].Num? && b[3].Num?
  }

  /** `ymin, xmin, ymax, xmax = box_2d`. */
  function Unpack(b: seq<Coord>): Box
    requires Unpackable(b)
  {
    Box(b[0].v, b[1].v, b[2].v, b[3].v)
  }

  /** A crop result that, when present, lies inside the image and has area. */
  predicate WithinImage(r: Option<Rect>, width: nat, height: nat) {
    r.Some? ==>
      && 0.0 <= r.value.left < r.value.right <= width as real
      && 0.0 <= r.value.top < r.value.bottom <= height as real
  }

  /**
   * `crop_image_section(pil_image, box_2d)` for an image of `width` x `height`
   * pixels: the rectangle passed to `crop`, or `None` for a missing or empty
   * box, a box that is not four numbers (the exception is caught), or a
   * degenerate rectangle.
   */
  function CropImageSection(box: Option<seq<Coord>>, width: nat, height: nat): (r: Option<Rect>)
    ensures !Present(box) ==> r.None?
    ensures box.Some? && |box.value| != 4 ==> r.None?
    ensures box.Some? && (exists i :: 0 <= i < |box.value| && box.value[i].NonNumeric?) ==> r.None?
    ensures r.Some? ==> box.Some? && Unpackable(box.value) && r == Normalize(Unpack(box.value), width, height)
    ensures box.Some? && Unpackable(box.value) ==> r == Normalize(Unpack(box.value), width, height)
    ensures WithinImage(r, width, height)
  {
    if !Present(box) then None
    else if !Unpackable(box.value) then None
    else Normalize(Unpack(box.value), width, height)
  }

  /** Scaling a smaller coordinate gives a smaller pixel position on a non-empty dimension. */
  lemma ScaleStrictlyMonotone(a: real, b: real, dim: nat)
    requires a < b && dim > 0
    ensures Scale(a, dim) < Scale(b, dim)
  {
  }

  /** A coordinate on the nominal 0-1000 scale lands inside `[0, dim]`. */
  lemma ScaleInRange(c: real, dim: nat)
    requires 0.0 <= c <= 1000.0
    ensures 0.0 <= Scale(c, dim) <= dim as real
  {
    var d := dim as real;
    assert dim as real - Scale(c, dim) == ((1000.0 - c) / 1000.0) * d;
    assert (1000.0 - c) / 1000.0 >= 0.0;
  }

  /** For an ordered box inside the nominal range, clamping changes nothing: the
      rectangle is exactly the scaled box. */
  lemma OrderedBoxIsScaledExactly(b: Box, width: nat, height: nat)
    requires 0.0 <= b.ymin < b.ymax <= 1000.0
    requires 0.0 <= b.xmin < b.xmax <= 1000.0
    requires width > 0 && height > 0
    ensures Normalize(b, width, height) == Some(Rect(
      b.xmin * (width as real) / 1000.0, b.ymin * (height as real) / 1000.0,
      b.xmax * (width as real) / 1000.0, b.ymax * (height as real) / 1000.0))
  {
    ScaleInRange(b.xmin, width);
    ScaleInRange(b.xmax, width);
    ScaleInRange(b.ymin, height);
    ScaleInRange(b.ymax, height);
    ScaleStrictlyMonotone(b.xmin, b.xmax, width);
    ScaleStrictlyMonotone(b.ymin, b.ymax, height);
    assert Scale(b.xmin, width) == b.xmin * (width as real) / 1000.0;
    assert Scale(b.xmax, width) == b.xmax * (width as real) / 1000.0;
    assert Scale(b.ymin, height) == b.ymin * (height as real) / 1000.0;
    assert Scale(b.ymax, height) == b.ymax * (height as real) / 1000.0;
  }

  /** An inverted box (top below bottom or left right of right) has no rectangle. */
  lemma InvertedBoxIsNone(b: Box, width: nat, height: nat)
    requires b.ymax < b.ymin || b.xmax < b.xmin
    ensures Normalize(b, width, height).None?
  {
  }

  /** A box of zero height or zero width has no rectangle, whatever the image. */
  lemma FlatBoxIsNone(b: Box, width: nat, height: nat)
    requires b.ymin == b.ymax || b.xmin == b.xmax
    ensures Normalize(b, width, height).None?
  {
  }

  /** The image section of a 2000 x 3000 page with box `[920, 100, 980, 900]`
      is cut at x 200..1800 and y 2760..2940. */
  lemma PageImageExample()
    ensures CropImageSection(Some([Num(920.0), Num(100.0), Num(980.0), Num(900.0)]), 2000, 3000)
         == Some(Rect(200.0, 2760.0, 1800.0, 2940.0))
  {
  }
}
