/**
 * The punch-out of the import command: every pixel of a grayscale steel gobo
 * becomes as transparent as it is bright, on top of the transparency it
 * already had, so that the white of the stencil becomes a hole.
 */
module Punchout {
  import opened Raster
  import opened Grayscale

  /** PHP's `round()` on a real number: halves go away from zero. */
  function PhpRound(v: real): int {
    if v >= 0.0 then (v + 0.5).Floor else -((-v + 0.5).Floor)
  }

  /**
   * `round((r + g + b) / 3.0)` in integers: the integer nearest the mean of the
   * three channels (a sum of integers divided by 3 is never halfway between two).
   */
  function AverageIntensity(p: Pixel): (v: nat)
    ensures v <= 255
    ensures 3 * v - 1 <= p.r + p.g + p.b <= 3 * v + 1
  {
    (p.r + p.g + p.b + 1) / 3
  }

  /** The brightness, shifted right by one bit to fit the 7-bit alpha channel. */
  function Opening(p: Pixel): (t: Alpha)
    ensures 2 * t <= AverageIntensity(p) <= 2 * t + 1
  {
    AverageIntensity(p) / 2
  }

  /** `min(127, opening + a)`: the alpha a punched-out pixel gets. */
  function NewAlpha(p: Pixel): (a: Alpha)
    ensures p.a <= a
  {
    if Opening(p) + p.a < MaxAlpha then Opening(p) + p.a else MaxAlpha
  }

  /** The pixel with its alpha replaced; the colour stays what was read. */
  function PunchPixel(p: Pixel): (q: Pixel)
    ensures q.r == p.r && q.g == p.g && q.b == p.b
  {
    p.(a := NewAlpha(p))
  }

  /** Every pixel punched out in place. */
  function PunchOutImage(img: Image): (out: Image)
    requires WellFormed(img)
    ensures WellFormed(out) && out.width == img.width && out.height == img.height
    ensures forall x, y | 0 <= x < img.width && 0 <= y < img.height ::
              out.columns[x][y] == PunchPixel(img.columns[x][y])
  {
    Image(img.width, img.height,
          seq(img.width, x requires 0 <= x < img.width =>
            seq(img.height, y requires 0 <= y < img.height => PunchPixel(img.columns[x][y]))))
  }

  /**
   * The loop of `extractImageFromRow`: visits every pixel column by column and
   * writes a pixel back only when its alpha changes.
   */
  method PunchOut(img: Image) returns (out: Image)
    requires WellFormed(img)
    ensures out == PunchOutImage(img)
  {
    var cols := img.columns;
    var x := 0;
    while x < img.width
      invariant 0 <= x <= img.width
      invariant |cols| == img.width
      invariant forall i | 0 <= i < img.width :: |cols[i]| == img.height
      invariant forall i, j | 0 <= i < x && 0 <= j < img.height :: cols[i][j] == PunchPixel(img.columns[i][j])
      invariant forall i | x <= i < img.width :: cols[i] == img.columns[i]
    {
      var y := 0;
      while y < img.height
        invariant 0 <= y <= img.height
        invariant |cols| == img.width
        invariant forall i | 0 <= i < img.width :: |cols[i]| == img.height
        invariant forall i, j | 0 <= i < x && 0 <= j < img.height :: cols[i][j] == PunchPixel(img.columns[i][j])
        invariant forall i | x < i < img.width :: cols[i] == img.columns[i]
        invariant forall j | 0 <= j < y :: cols[x][j] == PunchPixel(img.columns[x][j])
        invariant forall j | y <= j < img.height :: cols[x][j] == img.columns[x][j]
      {
        var p := cols[x][y];
        var averageIntensity := ((p.r + p.g + p.b + 1) / 3) / 2;
        var newTransparency := if averageIntensity + p.a < MaxAlpha then averageIntensity + p.a else MaxAlpha;
        if newTransparency != p.a {
          cols := cols[x := cols[x][y := Pixel(p.r, p.g, p.b, newTransparency)]];
        }
        y := y + 1;
      }
      x := x + 1;
    }
    out := Image(img.width, img.height, cols);
    assert forall i | 0 <= i < img.width :: cols[i] == PunchOutImage(img).columns[i];
  }

  /** The integer formula is PHP's `round` of the real-valued mean. */
  lemma AverageIsRoundedMean(p: Pixel)
    ensures AverageIntensity(p) == PhpRound((p.r + p.g + p.b) as real / 3.0)
  {
  }

  /**
   * A pixel is left as it was exactly when it is nearly black (channel sum at
   * most 4, which rounds to an intensity below 2) or already fully transparent.
   */
  lemma UnchangedIff(p: Pixel)
    ensures NewAlpha(p) == p.a <==> p.r + p.g + p.b <= 4 || p.a == MaxAlpha
  {
  }

  /** More original transparency never gives less transparency afterwards. */
  lemma Monotone(p: Pixel, q: Pixel)
    requires p.r == q.r && p.g == q.g && p.b == q.b && p.a <= q.a
    ensures NewAlpha(p) <= NewAlpha(q)
  {
  }

  /** White becomes fully transparent; black keeps its alpha. */
  lemma WhiteAndBlack(a: Alpha)
    ensures NewAlpha(Pixel(255, 255, 255, a)) == MaxAlpha
    ensures NewAlpha(Pixel(0, 0, 0, a)) == a
  {
  }

  /**
   * Punching out twice is the same as once only for pixels the second pass
   * leaves alone: nearly black ones and ones the first pass made fully
   * transparent. The import therefore processes every source image once.
   */
  lemma SecondPassIff(p: Pixel)
    ensures PunchPixel(PunchPixel(p)) == PunchPixel(p)
            <==> p.r + p.g + p.b <= 4 || NewAlpha(p) == MaxAlpha
  {
  }

  /** The mid-gray pixel of a fresh gobo changes again on a second pass. */
  lemma NotIdempotent()
    ensures PunchPixel(Pixel(200, 200, 200, 0)) == Pixel(200, 200, 200, 100)
    ensures PunchPixel(PunchPixel(Pixel(200, 200, 200, 0))) == Pixel(200, 200, 200, 127)
  {
  }

  /**
   * A punched-out grayscale image is still grayscale: colours are kept and
   * alpha only grows, so no pixel can start to disqualify.
   */
  lemma PunchOutKeepsGray(img: Image)
    requires WellFormed(img) && AllGray(img)
    ensures AllGray(PunchOutImage(img))
  {
  }

  /**
   * The colour `extractImageFromRow` allocates for a rewritten pixel, as
   * written: the fields `imageRgba` read are passed on as red, green and blue.
   */
  function WriteBackAsWritten(packed: int): int {
    var p := ImageRgba(packed);
    GdColor(p.r, p.g, p.b, NewAlpha(p))
  }

  /**
   * The colour as intended: the fields handed back in GD's order, so that the
   * pixel reads back as its punched-out self. `PunchOut` works on the fields and
   * so models this version.
   */
  function WriteBack(packed: int): (v: int)
    ensures ImageRgba(v) == PunchPixel(ImageRgba(packed))
  {
    var p := ImageRgba(packed);
    ImageRgbaInvertsPacked(PunchPixel(p), 0);
    GdColor(p.b, p.g, p.r, NewAlpha(p))
  }

  /** As written, every rewritten pixel reads back with its r and b fields exchanged. */
  lemma WriteBackSwapsRedAndBlue(packed: int)
    ensures var p := ImageRgba(packed);
            ImageRgba(WriteBackAsWritten(packed)) == Pixel(p.b, p.g, p.r, NewAlpha(p))
  {
    var p := ImageRgba(packed);
    ImageRgbaInvertsPacked(Pixel(p.b, p.g, p.r, NewAlpha(p)), 0);
  }

  /**
   * A grayscale pixel with GD red 103 and green and blue 100 is rewritten with
   * red 100 and blue 103, where the intended write keeps red 103.
   */
  lemma WriteBackCounterexample()
    ensures WriteBackAsWritten(GdColor(103, 100, 100, 0)) == GdColor(100, 100, 103, 50)
    ensures WriteBack(GdColor(103, 100, 100, 0)) == GdColor(103, 100, 100, 50)
    ensures !Disqualifies(ImageRgba(GdColor(103, 100, 100, 0)))
  {
    var p := Pixel(100, 100, 103, 0);
    ImageRgbaInvertsPacked(p, 0);
    assert ImageRgba(GdColor(103, 100, 100, 0)) == p;
    assert AverageIntensity(p) == 101;
  }
}
