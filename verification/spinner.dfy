/**
 * `Spinner`: how a stack of gobos is layered on screen. Gobos that keep their
 * full opacity (the punched-out ones) are drawn on top of the ones whose
 * opacity is shared out.
 */
module Spinner {
  import opened Wrappers
  import opened Numerals
  import opened Entities
  import opened AssetUrl

  /** One entry of the stack the user builds. */
  datatype SpinningGobo = SpinningGobo(
    gobo: Gobo,
    /** Spin counter-clockwise. */
    reverseSpin: bool,
    /** Milliseconds per complete rotation. */
    duration: int)

  datatype Direction = Normal | Reverse

  /** `100%`, or the share `100 / count` percent common to `count` layers. */
  datatype Opacity = Full | Shared(count: nat)

  /** The style of one rendered layer. */
  datatype Layer = Layer(
    key: string,
    src: string,
    zIndex: int,
    opacity: Opacity,
    durationMs: int,
    direction: Direction)

  /** The entries whose `adjustOpacity` equals `flag`, in stack order. */
  function WithOpacityFlag(stack: seq<SpinningGobo>, flag: bool): (r: seq<SpinningGobo>)
    ensures |r| <= |stack|
    ensures forall i :: 0 <= i < |r| ==> r[i].gobo.adjustOpacity == flag
    ensures forall e :: e in r <==> e in stack && e.gobo.adjustOpacity == flag
    decreases |stack|
  {
    if |stack| == 0 then []
    else
      var init := WithOpacityFlag(stack[..|stack| - 1], flag);
      var last := stack[|stack| - 1];
      assert stack == stack[..|stack| - 1] + [last];
      if last.gobo.adjustOpacity == flag then init + [last] else init
  }

  /**
   * The stable sort by `Number(b.adjustOpacity) - Number(a.adjustOpacity)`:
   * the opacity-adjusted entries first, then the others, each group in its
   * original order. It works on a copy, so the stack itself is not changed.
   */
  function SortForDisplay(stack: seq<SpinningGobo>): (sorted: seq<SpinningGobo>)
    ensures |sorted| == |stack|
    ensures forall i, j | 0 <= i < j < |sorted| :: sorted[i].gobo.adjustOpacity || !sorted[j].gobo.adjustOpacity
  {
    PartitionSizes(stack);
    WithOpacityFlag(stack, true) + WithOpacityFlag(stack, false)
  }

  lemma {:induction false} PartitionSizes(stack: seq<SpinningGobo>)
    ensures |WithOpacityFlag(stack, true)| + |WithOpacityFlag(stack, false)| == |stack|
    decreases |stack|
  {
    if |stack| > 0 {
      PartitionSizes(stack[..|stack| - 1]);
    }
  }

  /** The sorted list holds exactly the entries of the stack, duplicates included. */
  lemma {:induction false} SortIsPermutation(stack: seq<SpinningGobo>)
    ensures multiset(SortForDisplay(stack)) == multiset(stack)
    decreases |stack|
  {
    if |stack| > 0 {
      var init, last := stack[..|stack| - 1], stack[|stack| - 1];
      SortIsPermutation(init);
      assert stack == init + [last];
    }
  }

  /** Within each group the sort keeps the stack's order. */
  lemma SortIsStable(stack: seq<SpinningGobo>, flag: bool)
    ensures WithOpacityFlag(SortForDisplay(stack), flag) == WithOpacityFlag(stack, flag)
  {
    var t, f := WithOpacityFlag(stack, true), WithOpacityFlag(stack, false);
    FilterOfUniform(t, true);
    FilterOfUniform(f, false);
    FilterConcat(t, f, flag);
  }

  lemma {:induction false} FilterOfUniform(s: seq<SpinningGobo>, flag: bool)
    requires forall i :: 0 <= i < |s| ==> s[i].gobo.adjustOpacity == flag
    ensures WithOpacityFlag(s, flag) == s
    ensures WithOpacityFlag(s, !flag) == []
    decreases |s|
  {
    if |s| > 0 {
      FilterOfUniform(s[..|s| - 1], flag);
      assert s == s[..|s| - 1] + [s[|s| - 1]];
    }
  }

  lemma {:induction false} FilterConcat(s: seq<SpinningGobo>, t: seq<SpinningGobo>, flag: bool)
    ensures WithOpacityFlag(s + t, flag) == WithOpacityFlag(s, flag) + WithOpacityFlag(t, flag)
    decreases |t|
  {
    if |t| == 0 {
      assert s + t == s;
    } else {
      var init := t[..|t| - 1];
      FilterConcat(s, init, flag);
      assert (s + t)[..|s + t| - 1] == s + init;
    }
  }

  /** `calcOpacityOverride`'s loop: how many entries have their opacity adjusted. */
  method CountAdjusted(stack: seq<SpinningGobo>) returns (count: nat)
    ensures count == |WithOpacityFlag(stack, true)|
    ensures count <= |stack|
    ensures count == 0 <==> forall i :: 0 <= i < |stack| ==> !stack[i].gobo.adjustOpacity
  {
    count := 0;
    var i := 0;
    while i < |stack|
      invariant 0 <= i <= |stack|
      invariant count == |WithOpacityFlag(stack[..i], true)|
    {
      assert stack[..i + 1][..i] == stack[..i];
      if stack[i].gobo.adjustOpacity {
        count := count + 1;
      }
      i := i + 1;
    }
    assert stack[..i] == stack;
    if count > 0 {
      ghost var e := WithOpacityFlag(stack, true)[0];
      assert e in stack;
    }
  }

  /** The style of the entry drawn at `index`. */
  function LayerOf(entry: SpinningGobo, index: nat, adjustedCount: nat): Layer {
    Layer(
      entry.gobo.iri + "-" + IntToString(index),
      GoboImagesBase + entry.gobo.imageId + ".png",
      index + 1,
      if entry.gobo.adjustOpacity then Shared(adjustedCount) else Full,
      entry.duration,
      if entry.reverseSpin then Reverse else Normal)
  }

  /** What `Spinner` renders for a stack. */
  function Layers(stack: seq<SpinningGobo>): (layers: seq<Layer>)
    ensures |layers| == |stack|
  {
    var sorted := SortForDisplay(stack);
    var count := |WithOpacityFlag(sorted, true)|;
    seq(|sorted|, i requires 0 <= i < |sorted| => LayerOf(sorted[i], i, count))
  }

  /**
   * The layers stack as intended: z-indices 1..n in drawing order, every
   * shared-opacity layer below every full-opacity one, the shared opacity
   * split among exactly the adjusted gobos of the stack, and each layer
   * spinning in its entry's direction for its entry's duration.
   */
  lemma LayersSpec(stack: seq<SpinningGobo>)
    ensures forall i | 0 <= i < |stack| :: Layers(stack)[i].zIndex == i + 1
    ensures forall i, j | 0 <= i < |stack| && 0 <= j < |stack| ::
              Layers(stack)[i].opacity.Shared? && Layers(stack)[j].opacity.Full? ==>
              Layers(stack)[i].zIndex < Layers(stack)[j].zIndex
    ensures forall i | 0 <= i < |stack| :: Layers(stack)[i].opacity.Shared? ==>
              Layers(stack)[i].opacity.count == |WithOpacityFlag(stack, true)| > 0
    ensures forall i | 0 <= i < |stack| ::
              var e := SortForDisplay(stack)[i];
              && (Layers(stack)[i].opacity.Shared? <==> e.gobo.adjustOpacity)
              && (Layers(stack)[i].direction == Reverse <==> e.reverseSpin)
              && Layers(stack)[i].durationMs == e.duration
              && GetAssetUrl(e.gobo.imageId + ".png", GoboPackage) == Success(Layers(stack)[i].src)
  {
    var sorted := SortForDisplay(stack);
    SortIsStable(stack, true);
    forall i | 0 <= i < |stack| && sorted[i].gobo.adjustOpacity
      ensures |WithOpacityFlag(stack, true)| > 0
    {
      assert sorted[i] in WithOpacityFlag(sorted, true);
    }
    forall i | 0 <= i < |stack|
      ensures GetAssetUrl(sorted[i].gobo.imageId + ".png", GoboPackage).value == Layers(stack)[i].src
    {
      assert GoboImagesBase + (sorted[i].gobo.imageId + ".png") == GoboImagesBase + sorted[i].gobo.imageId + ".png";
    }
  }
}
