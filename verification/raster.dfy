/**
 * Pixels and images as the import command sees them through GD: three 8-bit
 * colour channels and GD's 7-bit alpha, where 0 is opaque and 127 fully
 * transparent.
 */
module Raster {

  type Channel = c: int | 0 <= c <= 255

  type Alpha = a: int | 0 <= a <= 127

  /** The most transparent alpha value GD can store. */
  const MaxAlpha: Alpha := 127

  datatype Pixel = Pixel(r: Channel, g: Channel, b: Channel, a: Alpha)

  /**
   * A true-colour image of `width` x `height` pixels, stored column by column
   * so that `columns[x][y]` is the pixel at (x, y).
   */
  datatype Image = Image(width: nat, height: nat, columns: seq<seq<Pixel>>)

  /** Every column exists and has `height` pixels. */
  predicate WellFormed(img: Image) {
    && |img.columns| == img.width
    && forall x :: 0 <= x < img.width ==> |img.columns[x]| == img.height
  }

  /** An image as GD hands it out: always rectangular. */
  type GdImage = img: Image | WellFormed(img) witness Image(0, 0, [])

  /**
   * `imageRgba`: unpacks the integer `imagecolorat` returns into the fields the
   * command names r (bits 0-7), g (bits 8-15), b (bits 16-23) and a (bits 24-30).
   * Dafny's `%` and `/` by a positive power of two agree with PHP's
   * two's-complement `&` and `>>` on every integer, negative ones included.
   */
  function ImageRgba(packed: int): (p: Pixel)
    ensures packed % 0x8000_0000 == p.r + 0x100 * p.g + 0x1_0000 * p.b + 0x100_0000 * p.a
  {
    ChannelBits(packed);
    Pixel(packed % 0x100,
          (packed / 0x100) % 0x100,
          (packed / 0x1_0000) % 0x100,
          (packed / 0x100_0000) % 0x80)
  }

  /** Euclidean division is unique: a quotient and remainder in range are THE ones. */
  lemma DivModUnique(x: int, d: int, q: int, r: int)
    requires d > 0 && 0 <= r < d && x == q * d + r
    ensures x / d == q && x % d == r
  {
    var k := q - x / d;
    assert k * d == x % d - r;
  }

  /** The four fields, read by successive division, reassemble bits 0-30. */
  lemma ChannelBits(x: int)
    ensures x % 0x8000_0000
         == x % 0x100 + 0x100 * ((x / 0x100) % 0x100)
            + 0x1_0000 * ((x / 0x1_0000) % 0x100) + 0x100_0000 * ((x / 0x100_0000) % 0x80)
  {
    var q1, r := x / 0x100, x % 0x100;
    var q2, g := q1 / 0x100, q1 % 0x100;
    var q3, b := q2 / 0x100, q2 % 0x100;
    var q4, a := q3 / 0x80, q3 % 0x80;
    DivModUnique(x, 0x1_0000, q2, r + 0x100 * g);
    DivModUnique(x, 0x100_0000, q3, r + 0x100 * g + 0x1_0000 * b);
    DivModUnique(x, 0x8000_0000, q4, r + 0x100 * g + 0x1_0000 * b + 0x100_0000 * a);
  }

  /** The packed integer in the field layout `ImageRgba` reads. */
  function Packed(p: Pixel): (v: nat)
    ensures v < 0x8000_0000
  {
    p.r + 0x100 * p.g + 0x1_0000 * p.b + 0x100_0000 * p.a
  }

  /**
   * Unpacking is exact: bits 31 and above never reach a channel, and the
   * channel fields of a packed pixel come back unchanged.
   */
  lemma ImageRgbaInvertsPacked(p: Pixel, high: int)
    ensures ImageRgba(Packed(p) + 0x8000_0000 * high) == p
  {
    var v := Packed(p) + 0x8000_0000 * high;
    DivModUnique(v, 0x100, p.g + 0x100 * p.b + 0x1_0000 * p.a + 0x80_0000 * high, p.r);
    DivModUnique(v, 0x1_0000, p.b + 0x100 * p.a + 0x8000 * high, p.r + 0x100 * p.g);
    DivModUnique(v, 0x100_0000, p.a + 0x80 * high, p.r + 0x100 * p.g + 0x1_0000 * p.b);
    DivModUnique(v / 0x100, 0x100, p.b + 0x100 * p.a + 0x8000 * high, p.g);
    DivModUnique(v / 0x1_0000, 0x100, p.a + 0x80 * high, p.b);
    DivModUnique(v / 0x100_0000, 0x80, high, p.a);
  }

  /**
   * GD's own true-colour layout, as `imagecolorallocatealpha(image, red, green,
   * blue, alpha)` builds it: blue in bits 0-7, green in 8-15, red in 16-23 and
   * alpha in 24-30. The field `ImageRgba` calls r is therefore GD's blue, and
   * the one it calls b is GD's red.
   */
  function GdColor(red: Channel, green: Channel, blue: Channel, alpha: Alpha): (v: nat)
    ensures ImageRgba(v) == Pixel(blue, green, red, alpha)
  {
    ImageRgbaInvertsPacked(Pixel(blue, green, red, alpha), 0);
    blue + 0x100 * green + 0x1_0000 * red + 0x100_0000 * alpha
  }
}
