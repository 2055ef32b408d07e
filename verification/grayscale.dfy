/**
 * `isGrayscale` of the import command: an image counts as grayscale when no
 * pixel that is not mostly transparent has colour channels further apart than
 * a small tolerance for compression artefacts.
 */
module Grayscale {
  import opened Raster

  /** Largest channel spread a pixel may have and still count as gray. */
  const MaxDiff := 3

  /** Pixels at least this transparent carry no usable colour and are skipped. */
  const SkipAlpha := 120

  function Max3(a: int, b: int, c: int): int {
    if a >= b && a >= c then a else if b >= c then b else c
  }

  function Min3(a: int, b: int, c: int): int {
    if a <= b && a <= c then a else if b <= c then b else c
  }

  /** `max(r, g, b) - min(r, g, b)`: the widest gap between two channels. */
  function Spread(p: Pixel): (d: nat)
    ensures d <= 255
    ensures -(d as int) <= p.r - p.g <= d && -(d as int) <= p.g - p.b <= d && -(d as int) <= p.r - p.b <= d
    ensures d == p.r - p.g || d == p.g - p.r || d == p.g - p.b
         || d == p.b - p.g || d == p.r - p.b || d == p.b - p.r
  {
    Max3(p.r, p.g, p.b) - Min3(p.r, p.g, p.b)
  }

  /** A pixel that, on its own, makes the image not grayscale. */
  predicate Disqualifies(p: Pixel) {
    p.a < SkipAlpha && Spread(p) > MaxDiff
  }

  /** The classification as a property of the whole image. */
  predicate AllGray(img: Image)
    requires WellFormed(img)
  {
    forall x, y | 0 <= x < img.width && 0 <= y < img.height :: !Disqualifies(img.columns[x][y])
  }

  /** The set of colours an image contains, forgetting where they are. */
  function PixelSet(img: Image): set<Pixel>
    requires WellFormed(img)
  {
    set x, y | 0 <= x < img.width && 0 <= y < img.height :: img.columns[x][y]
  }

  /**
   * `isGrayscale`: scans column by column and answers false at the first
   * disqualifying pixel; an image without pixels is grayscale.
   */
  method IsGrayscale(img: Image) returns (gray: bool)
    requires WellFormed(img)
    ensures gray <==> AllGray(img)
    ensures img.width == 0 || img.height == 0 ==> gray
  {
    var x := 0;
    while x < img.width
      invariant 0 <= x <= img.width
      invariant forall i, j | 0 <= i < x && 0 <= j < img.height :: !Disqualifies(img.columns[i][j])
    {
      var y := 0;
      while y < img.height
        invariant 0 <= y <= img.height
        invariant forall j | 0 <= j < y :: !Disqualifies(img.columns[x][j])
      {
        var p := img.columns[x][y];
        if p.a >= SkipAlpha {
          // Transparent pixel: its colour says nothing.
          y := y + 1;
          continue;
        }
        var diff := Max3(p.r, p.g, p.b) - Min3(p.r, p.g, p.b);
        if diff > MaxDiff {
          assert Disqualifies(img.columns[x][y]);
          return false;
        }
        y := y + 1;
      }
      x := x + 1;
    }
    return true;
  }

  /**
   * The verdict depends only on which colours occur, not on where they are or
   * in which order they are scanned.
   */
  lemma GrayDependsOnlyOnColours(img: Image)
    requires WellFormed(img)
    ensures AllGray(img) <==> forall p | p in PixelSet(img) :: !Disqualifies(p)
  {
  }

  /** A one-pixel image, for stating the per-pixel thresholds. */
  function Single(p: Pixel): (img: Image)
    ensures WellFormed(img) && img.width == 1 && img.height == 1
  {
    Image(1, 1, [[p]])
  }

  /**
   * The thresholds: a spread of 3 still passes and 4 fails for a pixel that is
   * checked; alpha 119 is checked while alpha 120 is skipped whatever its colour.
   */
  lemma Thresholds()
    ensures AllGray(Single(Pixel(100, 103, 100, 0)))
    ensures !AllGray(Single(Pixel(100, 104, 100, 0)))
    ensures !AllGray(Single(Pixel(0, 255, 0, 119)))
    ensures AllGray(Single(Pixel(0, 255, 0, 120)))
  {
    assert Disqualifies(Single(Pixel(100, 104, 100, 0)).columns[0][0]);
    assert Disqualifies(Single(Pixel(0, 255, 0, 119)).columns[0][0]);
  }
}
