/**
 * `GoboStack`: the edits a user makes to the stack of spinning gobos, and the
 * slider that sets a gobo's speed.
 */
module GoboStack {
  import opened Entities
  import opened Spinner

  /** The slider's upper end, in milliseconds per rotation. */
  const MaxDuration := 100000

  /** The rotation time a newly added gobo starts with. */
  const DefaultDuration := 9500

  /** `calculateDurationFromSpeed`: the slider runs the other way from the duration. */
  function DurationFromSpeed(speed: int): int {
    MaxDuration - speed
  }

  /** JavaScript `splice`'s reading of a start index for an array of length `len`. */
  function SpliceStart(start: int, len: nat): (k: nat)
    ensures k <= len
    ensures 0 <= start <= len ==> k == start
  {
    if start < 0 then (if len + start < 0 then 0 else len + start)
    else if start > len then len
    else start
  }

  /** `splice(i, 1)` on a valid index. */
  function RemoveAt<T>(s: seq<T>, i: nat): (r: seq<T>)
    requires i < |s|
    ensures |r| == |s| - 1
    ensures multiset(r) + multiset{s[i]} == multiset(s)
  {
    assert s == s[..i] + [s[i]] + s[i + 1..];
    s[..i] + s[i + 1..]
  }

  /** `splice(i, 0, x)` on a start already read by `SpliceStart`. */
  function InsertAt<T>(s: seq<T>, i: nat, x: T): (r: seq<T>)
    requires i <= |s|
    ensures |r| == |s| + 1 && r[i] == x
    ensures multiset(r) == multiset(s) + multiset{x}
  {
    assert s == s[..i] + s[i..];
    s[..i] + [x] + s[i..]
  }

  /** `goboAddedCallback`: the chosen gobo joins the end of the stack, spinning clockwise. */
  function Add(stack: seq<SpinningGobo>, gobo: Gobo): (r: seq<SpinningGobo>)
    ensures |r| == |stack| + 1 && r[..|stack|] == stack
    ensures r[|stack|].gobo == gobo && !r[|stack|].reverseSpin && r[|stack|].duration == DefaultDuration
  {
    stack + [SpinningGobo(gobo, false, DefaultDuration)]
  }

  /** `goboDirectionChangedCallback`. */
  function SetDirection(stack: seq<SpinningGobo>, index: nat, reverseSpin: bool): (r: seq<SpinningGobo>)
    requires index < |stack|
    ensures |r| == |stack|
    ensures r[index].reverseSpin == reverseSpin
    ensures r[index].gobo == stack[index].gobo && r[index].duration == stack[index].duration
    ensures forall j | 0 <= j < |stack| && j != index :: r[j] == stack[j]
  {
    stack[index := stack[index].(reverseSpin := reverseSpin)]
  }

  /** `goboSpeedChangedCallback`: a duration below one millisecond is raised to one. */
  function SetSpeed(stack: seq<SpinningGobo>, index: nat, duration: int): (r: seq<SpinningGobo>)
    requires index < |stack|
    ensures |r| == |stack|
    ensures r[index].duration >= 1
    ensures duration >= 1 ==> r[index].duration == duration
    ensures duration < 1 ==> r[index].duration == 1
    ensures r[index].gobo == stack[index].gobo && r[index].reverseSpin == stack[index].reverseSpin
    ensures forall j | 0 <= j < |stack| && j != index :: r[j] == stack[j]
  {
    stack[index := stack[index].(duration := if duration > 1 then duration else 1)]
  }

  /** `goboChangeOrderCallback`: take the entry out at `oldIndex`, put it back at `newIndex`. */
  function Move(stack: seq<SpinningGobo>, oldIndex: nat, newIndex: int): (r: seq<SpinningGobo>)
    requires oldIndex < |stack|
    ensures |r| == |stack|
    ensures multiset(r) == multiset(stack)
    ensures r[SpliceStart(newIndex, |stack| - 1)] == stack[oldIndex]
  {
    var gobo := stack[oldIndex];
    var rest := RemoveAt(stack, oldIndex);
    InsertAt(rest, SpliceStart(newIndex, |rest|), gobo)
  }

  /** `goboRemoveCallback`. */
  function Remove(stack: seq<SpinningGobo>, index: nat): (r: seq<SpinningGobo>)
    requires index < |stack|
    ensures |r| == |stack| - 1
    ensures multiset(r) + multiset{stack[index]} == multiset(stack)
  {
    RemoveAt(stack, index)
  }

  /** The "Move up" button is enabled. */
  predicate CanMoveUp(index: nat) {
    index != 0
  }

  /** The "Move down" button is enabled. */
  predicate CanMoveDown(index: nat, len: nat) {
    index != len - 1
  }

  /** Every stored rotation time is at least one millisecond. */
  predicate DurationsPositive(stack: seq<SpinningGobo>) {
    forall i :: 0 <= i < |stack| ==> stack[i].duration >= 1
  }

  /** The slider is its own inverse and maps its range onto itself. */
  lemma SliderIsInvolution(x: int)
    ensures DurationFromSpeed(DurationFromSpeed(x)) == x
    ensures 0 <= x <= MaxDuration <==> 0 <= DurationFromSpeed(x) <= MaxDuration
  {
  }

  /** Leaving the slider where it is stores the duration it shows, once that is at least 1. */
  lemma SliderRoundTrip(stack: seq<SpinningGobo>, index: nat)
    requires index < |stack| && stack[index].duration >= 1
    ensures SetSpeed(stack, index, DurationFromSpeed(DurationFromSpeed(stack[index].duration))) == stack
  {
  }

  /** Removing the entry just added gives back the stack. */
  lemma RemoveUndoesAdd(stack: seq<SpinningGobo>, gobo: Gobo)
    ensures Remove(Add(stack, gobo), |stack|) == stack
  {
  }

  /** Remove keeps the other entries in their relative order. */
  lemma RemoveKeepsOrder(stack: seq<SpinningGobo>, index: nat)
    requires index < |stack|
    ensures forall j | 0 <= j < index :: Remove(stack, index)[j] == stack[j]
    ensures forall j | index <= j < |stack| - 1 :: Remove(stack, index)[j] == stack[j + 1]
  {
  }

  /** Moving leaves the other entries in their relative order. */
  lemma MoveKeepsOthersInOrder(stack: seq<SpinningGobo>, oldIndex: nat, newIndex: int)
    requires oldIndex < |stack|
    ensures Remove(Move(stack, oldIndex, newIndex), SpliceStart(newIndex, |stack| - 1)) == Remove(stack, oldIndex)
  {
  }

  /**
   * The index an entry of a moved stack of length `n` came from, when the
   * entry at `from` was taken out and put back at `to`.
   */
  function MovedFrom(n: nat, from: nat, to: nat, j: nat): (i: nat)
    requires from < n && to < n && j < n
    ensures i < n
  {
    if j == to then from
    else
      var rest := if j < to then j else j - 1;
      if rest < from then rest else rest + 1
  }

  /** Where each entry of a moved stack comes from. */
  lemma MoveElements(stack: seq<SpinningGobo>, oldIndex: nat, newIndex: int, j: nat)
    requires oldIndex < |stack| && j < |stack|
    ensures Move(stack, oldIndex, newIndex)[j]
            == stack[MovedFrom(|stack|, oldIndex, SpliceStart(newIndex, |stack| - 1), j)]
  {
  }

  /** Moving from `to` back to `from` undoes moving from `from` to `to`. */
  lemma MovedFromInverse(n: nat, from: nat, to: nat, j: nat)
    requires from < n && to < n && j < n
    ensures MovedFrom(n, from, to, MovedFrom(n, to, from, j)) == j
  {
  }

  /** One position of a move and its reverse. */
  lemma MoveBackAt(stack: seq<SpinningGobo>, oldIndex: nat, newIndex: nat, j: nat)
    requires oldIndex < |stack| && newIndex < |stack| && j < |stack|
    ensures Move(Move(stack, oldIndex, newIndex), newIndex, oldIndex)[j] == stack[j]
  {
    var n := |stack|;
    var moved := Move(stack, oldIndex, newIndex);
    assert SpliceStart(newIndex, n - 1) == newIndex && SpliceStart(oldIndex, n - 1) == oldIndex;
    var i := MovedFrom(n, newIndex, oldIndex, j);
    MoveElements(moved, newIndex, oldIndex, j);
    MoveElements(stack, oldIndex, newIndex, i);
    MovedFromInverse(n, oldIndex, newIndex, j);
  }

  /** Moving an entry back where it came from restores the stack. */
  lemma MoveBack(stack: seq<SpinningGobo>, oldIndex: nat, newIndex: nat)
    requires oldIndex < |stack| && newIndex < |stack|
    ensures Move(Move(stack, oldIndex, newIndex), newIndex, oldIndex) == stack
  {
    forall j | 0 <= j < |stack| ensures Move(Move(stack, oldIndex, newIndex), newIndex, oldIndex)[j] == stack[j] {
      MoveBackAt(stack, oldIndex, newIndex, j);
    }
  }

  /** The enabled "Move up" button swaps an entry with the one above it. */
  lemma MoveUpSwaps(stack: seq<SpinningGobo>, index: nat)
    requires index < |stack| && CanMoveUp(index)
    ensures Move(stack, index, index - 1) == stack[index - 1 := stack[index]][index := stack[index - 1]]
  {
  }

  /** The enabled "Move down" button swaps an entry with the one below it. */
  lemma MoveDownSwaps(stack: seq<SpinningGobo>, index: nat)
    requires index < |stack| && CanMoveDown(index, |stack|)
    ensures Move(stack, index, index + 1) == stack[index := stack[index + 1]][index + 1 := stack[index]]
  {
  }

  /** Every edit keeps stored rotation times at one millisecond or more. */
  lemma EditsKeepDurationsPositive(stack: seq<SpinningGobo>, gobo: Gobo, index: nat, other: int, flag: bool, duration: int)
    requires DurationsPositive(stack)
    ensures DurationsPositive(Add(stack, gobo))
    ensures index < |stack| ==> DurationsPositive(SetDirection(stack, index, flag))
    ensures index < |stack| ==> DurationsPositive(SetSpeed(stack, index, duration))
    ensures index < |stack| ==> DurationsPositive(Move(stack, index, other))
    ensures index < |stack| ==> DurationsPositive(Remove(stack, index))
  {
    if index < |stack| {
      var m := Move(stack, index, other);
      forall j | 0 <= j < |m| ensures m[j].duration >= 1 {
        assert m[j] in multiset(stack);
      }
    }
  }
}
