/**
 * The two transformations, `CircleCrop` and `RoundedCornerCrop`: their cache keys, the
 * square-crop geometry, the shape of the output bitmap, and which bitmap each recycles.
 * Pixel drawing is opaque: the output records the drawing operation and its source.
 * The rendering of a `Float` radius (`Float.toString`) is a parameter.
 */
module Transformations {
  import opened Graphics

  datatype Transformation = CircleCrop | RoundedCornerCrop(radius: Float)

  const CIRCLE_CROP_KEY: string := "CIRCLE_CROP"
  const ROUNDED_CORNER_CROP_PREFIX: string := "ROUNDED_CORNER_CROP_"

  /** `key()`: a constant for the circle crop, the prefix and the radius's text for the rounded one. */
  function Key(t: Transformation, floatText: Float -> string): (k: string)
    ensures t == CircleCrop ==> k == CIRCLE_CROP_KEY
    ensures t.RoundedCornerCrop? ==> k == ROUNDED_CORNER_CROP_PREFIX + floatText(t.radius)
  {
    match t
    case CircleCrop => CIRCLE_CROP_KEY
    case RoundedCornerCrop(r) => ROUNDED_CORNER_CROP_PREFIX + floatText(r)
  }

  /** The two kinds never share a key, and rounded keys are as distinct as the radius texts. */
  lemma KeysDistinguish(s: Transformation, t: Transformation, floatText: Float -> string)
    requires Key(s, floatText) == Key(t, floatText)
    ensures s.CircleCrop? <==> t.CircleCrop?
    ensures s.RoundedCornerCrop? && t.RoundedCornerCrop? ==> floatText(s.radius) == floatText(t.radius)
  {
    if s.RoundedCornerCrop? && t.RoundedCornerCrop? {
      var p := |ROUNDED_CORNER_CROP_PREFIX|;
      assert floatText(s.radius) == Key(s, floatText)[p..];
      assert floatText(t.radius) == Key(t, floatText)[p..];
    }
  }

  /** Where the circle crop cuts its square: side `min(w, h)`, centred on the longer axis. */
  datatype Square = Square(x: nat, y: nat, side: nat)

  function CropSquare(width: nat, height: nat): (q: Square)
    ensures q.side == if width <= height then width else height
    ensures q.x == 0 || q.y == 0
    ensures q.x + q.side <= width && q.y + q.side <= height
    ensures q.x == (width - q.side) / 2 && q.y == (height - q.side) / 2
  {
    var side := if width <= height then width else height;
    Square((width - side) / 2, (height - side) / 2, side)
  }

  /** The square is centred: the margin left over on each side differs by at most one pixel. */
  lemma CropSquareCentred(width: nat, height: nat)
    ensures var q := CropSquare(width, height);
      && 0 <= (width - q.side - q.x) - q.x <= 1
      && 0 <= (height - q.side - q.y) - q.y <= 1
  {
  }

  /**
   * What `Bitmap.createBitmap(source, x, y, w, h)` hands back: the source object itself
   * when the source is immutable and the region is all of it, or a new bitmap.
   */
  datatype Subset = SameObject | NewBitmap(bitmap: Bitmap)

  function CreateSubset(b: Bitmap, q: Square): (r: Subset)
    ensures r.SameObject? <==> !b.isMutable && q.x == 0 && q.y == 0 && q.side == b.width && q.side == b.height
  {
    if !b.isMutable && q.x == 0 && q.y == 0 && q.side == b.width && q.side == b.height then SameObject
    else NewBitmap(Bitmap(q.side, q.side, b.config, false, Cropped(b.pixels, q.x, q.y, q.side)))
  }

  /** Which bitmap a transformation calls `recycle()` on. */
  datatype Recycled = NothingRecycled | InputRecycled | SubsetRecycled

  datatype TransformRun = TransformRun(output: Bitmap, recycled: Recycled)

  /** The output `createBitmap(w, h)` allocates: mutable ARGB_8888, the pixels drawn into it. */
  function Output(width: nat, height: nat, pixels: Pixels): Bitmap {
    Bitmap(width, height, Argb8888, true, pixels)
  }

  /**
   * `CircleCrop.transform` as written: it recycles `squared` unconditionally, which is
   * the input itself when `createBitmap` returned its source.
   */
  function CircleCropAsWritten(b: Bitmap): (run: TransformRun)
    ensures run.recycled == InputRecycled <==> !b.isMutable && b.width == b.height
  {
    var q := CropSquare(b.width, b.height);
    TransformRun(Output(q.side, q.side, CircleDrawn(b.pixels, q.x, q.y, q.side)),
                 if CreateSubset(b, q).SameObject? then InputRecycled else SubsetRecycled)
  }

  /** A square image decoded immutable, as `BitmapFactory.decodeFile` returns it, is recycled by its own crop. */
  lemma CircleCropRecyclesDecodedSquare()
    ensures CircleCropAsWritten(Bitmap(300, 300, Rgb565, false, Decoded(0))).recycled == InputRecycled
  {
  }

  /** `transform` of either transformation, with the circle crop freeing only a bitmap it made itself. */
  function Transform(t: Transformation, b: Bitmap): (run: TransformRun)
    ensures run.output.config == Argb8888 && run.output.isMutable
    ensures t == CircleCrop ==>
      var side := if b.width <= b.height then b.width else b.height;
      run.output.width == side && run.output.height == side
    ensures t.RoundedCornerCrop? ==> run.output.width == b.width && run.output.height == b.height
    ensures run.recycled != InputRecycled
    ensures run.recycled == SubsetRecycled <==> t == CircleCrop && CreateSubset(b, CropSquare(b.width, b.height)).NewBitmap?
  {
    match t
    case CircleCrop =>
      var q := CropSquare(b.width, b.height);
      TransformRun(Output(q.side, q.side, CircleDrawn(b.pixels, q.x, q.y, q.side)),
                   if CreateSubset(b, q).SameObject? then NothingRecycled else SubsetRecycled)
    case RoundedCornerCrop(r) =>
      TransformRun(Output(b.width, b.height, RoundRectDrawn(b.pixels, r)), NothingRecycled)
  }

  /** The correction changes only what is recycled: both versions draw the same output. */
  lemma CircleCropSameOutput(b: Bitmap)
    ensures Transform(CircleCrop, b).output == CircleCropAsWritten(b).output
    ensures CircleCropAsWritten(b).recycled == InputRecycled <==> Transform(CircleCrop, b).recycled == NothingRecycled
  {
  }
}
