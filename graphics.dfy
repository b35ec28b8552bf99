/**
 * The platform bitmap, seen only through what the core uses: its dimensions, its pixel
 * format (which fixes `byteCount`), whether it is mutable, and an opaque description of
 * its pixels. Codecs and drawing are not modelled; a drawn bitmap records the drawing
 * operation and its source instead of pixel values.
 */
module Graphics {

  /** `Bitmap.Config`: ARGB_8888 is the default of `createBitmap` and `decodeFile`;
      RGB_565 is what the network decode asks for. */
  datatype Config = Argb8888 | Rgb565

  /** A Kotlin `Float`, by its IEEE 754 single-precision bit pattern. */
  type Float = bv32

  datatype Pixels =
    | Decoded(source: nat)
    | Cropped(of: Pixels, x: nat, y: nat, side: nat)
    | CircleDrawn(of: Pixels, x: nat, y: nat, side: nat)
    | RoundRectDrawn(of: Pixels, radius: Float)

  datatype Bitmap = Bitmap(width: nat, height: nat, config: Config, isMutable: bool, pixels: Pixels)

  function BytesPerPixel(c: Config): nat {
    match c
    case Argb8888 => 4
    case Rgb565 => 2
  }

  /** `Bitmap.getByteCount()`: row bytes times height. */
  function ByteCount(b: Bitmap): nat {
    b.width * BytesPerPixel(b.config) * b.height
  }

  /** What decoding a file or a download produced: a bitmap, `null`, or an exception. */
  datatype DecodeOutcome = DecodedTo(bitmap: Bitmap) | DecodedNull | DecodeThrew
}
