/**
 * `Permalink` and `goboStackFromUrl`: the stack written into the page URL's
 * query as three parallel lists, and read back from it.
 */
module Permalink {
  import opened Wrappers
  import opened Numerals
  import opened Entities
  import opened Spinner

  /** One `key=value` pair of a URL query; a query is a list of them, in order. */
  datatype Param = Param(key: string, value: string)

  /** The members of the `PermalinkParam` enum, in declaration order. */
  const GoboKey := "gobo"
  const ReverseKey := "reverse"
  const SpeedKey := "speed"

  predicate IsStackKey(key: string) {
    key == GoboKey || key == ReverseKey || key == SpeedKey
  }

  /** `URLSearchParams.delete(key)`. */
  function Delete(ps: seq<Param>, key: string): (r: seq<Param>)
    ensures |r| <= |ps|
    ensures forall p :: p in r <==> p in ps && p.key != key
  {
    if |ps| == 0 then []
    else (if ps[0].key == key then [] else [ps[0]]) + Delete(ps[1..], key)
  }

  /** `URLSearchParams.getAll(key)`: the values under `key`, in order. */
  function GetAll(ps: seq<Param>, key: string): seq<string> {
    if |ps| == 0 then []
    else (if ps[0].key == key then [ps[0].value] else []) + GetAll(ps[1..], key)
  }

  /** The pairs that do not belong to the stack, in order. */
  function Others(ps: seq<Param>): seq<Param> {
    if |ps| == 0 then []
    else (if IsStackKey(ps[0].key) then [] else [ps[0]]) + Others(ps[1..])
  }

  /** The first loop of `Permalink`: every enum member's key deleted in turn. */
  function DeleteStackKeys(ps: seq<Param>): seq<Param> {
    Delete(Delete(Delete(ps, GoboKey), ReverseKey), SpeedKey)
  }

  /** `String(Number(reverseSpin))`. */
  function FlagString(b: bool): string {
    IntToString(if b then 1 else 0)
  }

  /** The three values appended for one entry. */
  function EntryParams(e: SpinningGobo): seq<Param> {
    [Param(GoboKey, IntToString(e.gobo.id)),
     Param(ReverseKey, FlagString(e.reverseSpin)),
     Param(SpeedKey, IntToString(e.duration))]
  }

  /** The second loop of `Permalink`: the appends, entry after entry. */
  function StackParams(stack: seq<SpinningGobo>): (r: seq<Param>)
    ensures |r| == 3 * |stack|
    decreases |stack|
  {
    if |stack| == 0 then [] else StackParams(stack[..|stack| - 1]) + EntryParams(stack[|stack| - 1])
  }

  /** The query `Permalink` shows for a page whose current query is `ps`. */
  function Encode(ps: seq<Param>, stack: seq<SpinningGobo>): seq<Param> {
    DeleteStackKeys(ps) + StackParams(stack)
  }

  /**
   * A stack entry read from the URL, before its gobo is fetched from
   * `gobos/<idText>`: `Number(speed)` and `Boolean(Number(reverse))`.
   */
  datatype PendingGobo = PendingGobo(idText: string, duration: JsNumber, reverseSpin: bool)

  /**
   * `goboStackFromUrl` up to its fetches. `None` is the malformed case, whose
   * promise never settles and which fetches nothing.
   */
  function Decode(ps: seq<Param>): (r: Option<seq<PendingGobo>>)
    ensures r.None? <==> !(|GetAll(ps, GoboKey)| == |GetAll(ps, ReverseKey)| == |GetAll(ps, SpeedKey)|)
    ensures r.Some? ==> |r.value| == |GetAll(ps, GoboKey)|
  {
    var goboIds := GetAll(ps, GoboKey);
    var reverse := GetAll(ps, ReverseKey);
    var speeds := GetAll(ps, SpeedKey);
    if !(|goboIds| == |reverse| == |speeds|) then
      None
    else
      Some(seq(|goboIds|, i requires 0 <= i < |goboIds| =>
        PendingGobo(goboIds[i], ToNumber(speeds[i]), Truthy(ToNumber(reverse[i])))))
  }

  /** What an entry should come back as. */
  function Pending(e: SpinningGobo): PendingGobo {
    PendingGobo(IntToString(e.gobo.id), Finite(e.duration), e.reverseSpin)
  }

  lemma {:induction false} DeleteConcat(a: seq<Param>, b: seq<Param>, key: string)
    ensures Delete(a + b, key) == Delete(a, key) + Delete(b, key)
    decreases |a|
  {
    if |a| == 0 {
      assert a + b == b;
    } else {
      assert (a + b)[1..] == a[1..] + b;
      DeleteConcat(a[1..], b, key);
    }
  }

  lemma {:induction false} GetAllConcat(a: seq<Param>, b: seq<Param>, key: string)
    ensures GetAll(a + b, key) == GetAll(a, key) + GetAll(b, key)
    decreases |a|
  {
    if |a| == 0 {
      assert a + b == b;
    } else {
      assert (a + b)[1..] == a[1..] + b;
      GetAllConcat(a[1..], b, key);
    }
  }

  lemma {:induction false} OthersConcat(a: seq<Param>, b: seq<Param>)
    ensures Others(a + b) == Others(a) + Others(b)
    decreases |a|
  {
    if |a| == 0 {
      assert a + b == b;
    } else {
      assert (a + b)[1..] == a[1..] + b;
      OthersConcat(a[1..], b);
    }
  }

  /** Deleting the three keys one by one leaves exactly the non-stack pairs. */
  lemma {:induction false} DeleteStackKeysIsOthers(ps: seq<Param>)
    ensures DeleteStackKeys(ps) == Others(ps)
    decreases |ps|
  {
    if |ps| > 0 {
      DeleteStackKeysIsOthers(ps[1..]);
      var head := [ps[0]];
      assert ps == head + ps[1..];
      DeleteConcat(head, ps[1..], GoboKey);
      DeleteConcat(Delete(head, GoboKey), Delete(ps[1..], GoboKey), ReverseKey);
      DeleteConcat(Delete(Delete(head, GoboKey), ReverseKey), Delete(Delete(ps[1..], GoboKey), ReverseKey), SpeedKey);
    }
  }

  lemma {:induction false} OthersIdempotent(ps: seq<Param>)
    ensures Others(Others(ps)) == Others(ps)
    decreases |ps|
  {
    if |ps| > 0 {
      OthersIdempotent(ps[1..]);
      var head := if IsStackKey(ps[0].key) then [] else [ps[0]];
      OthersConcat(head, Others(ps[1..]));
    }
  }

  lemma EntryParamsLists(e: SpinningGobo)
    ensures Others(EntryParams(e)) == []
    ensures GetAll(EntryParams(e), GoboKey) == [IntToString(e.gobo.id)]
    ensures GetAll(EntryParams(e), ReverseKey) == [FlagString(e.reverseSpin)]
    ensures GetAll(EntryParams(e), SpeedKey) == [IntToString(e.duration)]
  {
    var ps := EntryParams(e);
    assert IsStackKey(ps[0].key) && IsStackKey(ps[1].key) && IsStackKey(ps[2].key);
    assert ps[1..] == [ps[1], ps[2]];
    assert ps[1..][1..] == [ps[2]];
    assert ps[1..][1..][1..] == [];
    assert GoboKey != ReverseKey && GoboKey != SpeedKey && ReverseKey != SpeedKey by {
      assert |GoboKey| == 4 && |ReverseKey| == 7 && |SpeedKey| == 5;
    }
    assert Others(ps[1..][1..]) == [];
    assert Others(ps[1..]) == [];
    assert GetAll(ps[1..][1..], GoboKey) == [];
    assert GetAll(ps[1..][1..], ReverseKey) == [];
    assert GetAll(ps[1..][1..], SpeedKey) == [ps[2].value];
    assert GetAll(ps[1..], GoboKey) == [];
    assert GetAll(ps[1..], ReverseKey) == [ps[1].value];
    assert GetAll(ps[1..], SpeedKey) == [ps[2].value];
  }

  lemma {:induction false} OthersOfStackParams(stack: seq<SpinningGobo>)
    ensures Others(StackParams(stack)) == []
    decreases |stack|
  {
    if |stack| > 0 {
      OthersOfStackParams(stack[..|stack| - 1]);
      OthersConcat(StackParams(stack[..|stack| - 1]), EntryParams(stack[|stack| - 1]));
      EntryParamsLists(stack[|stack| - 1]);
    }
  }

  lemma {:induction false} GetAllOfOthers(ps: seq<Param>, key: string)
    requires IsStackKey(key)
    ensures GetAll(Others(ps), key) == []
    decreases |ps|
  {
    if |ps| > 0 {
      GetAllOfOthers(ps[1..], key);
      var head := if IsStackKey(ps[0].key) then [] else [ps[0]];
      GetAllConcat(head, Others(ps[1..]), key);
    }
  }

  /** The value an entry contributes under one of the three keys. */
  function EntryValue(e: SpinningGobo, key: string): string
    requires IsStackKey(key)
  {
    if key == GoboKey then IntToString(e.gobo.id)
    else if key == ReverseKey then FlagString(e.reverseSpin)
    else IntToString(e.duration)
  }

  /** After the appends a key holds one value per entry, the i-th from the i-th entry. */
  lemma {:induction false} StackParamsList(stack: seq<SpinningGobo>, key: string)
    requires IsStackKey(key)
    ensures GetAll(StackParams(stack), key) == seq(|stack|, i requires 0 <= i < |stack| => EntryValue(stack[i], key))
    decreases |stack|
  {
    if |stack| > 0 {
      var init, last := stack[..|stack| - 1], stack[|stack| - 1];
      StackParamsList(init, key);
      GetAllConcat(StackParams(init), EntryParams(last), key);
      EntryParamsLists(last);
      assert GetAll(EntryParams(last), key) == [EntryValue(last, key)];
      var prefix := seq(|init|, i requires 0 <= i < |init| => EntryValue(init[i], key));
      assert prefix + [EntryValue(last, key)] == seq(|stack|, i requires 0 <= i < |stack| => EntryValue(stack[i], key));
    }
  }

  /** The three lists of the appended parameters, one value per entry in stack order. */
  lemma {:induction false} StackParamsLists(stack: seq<SpinningGobo>)
    ensures GetAll(StackParams(stack), GoboKey) == seq(|stack|, i requires 0 <= i < |stack| => IntToString(stack[i].gobo.id))
    ensures GetAll(StackParams(stack), ReverseKey) == seq(|stack|, i requires 0 <= i < |stack| => FlagString(stack[i].reverseSpin))
    ensures GetAll(StackParams(stack), SpeedKey) == seq(|stack|, i requires 0 <= i < |stack| => IntToString(stack[i].duration))
  {
    StackParamsList(stack, GoboKey);
    StackParamsList(stack, ReverseKey);
    StackParamsList(stack, SpeedKey);
    assert GoboKey != ReverseKey && GoboKey != SpeedKey && ReverseKey != SpeedKey by {
      assert |GoboKey| == 4 && |ReverseKey| == 7 && |SpeedKey| == 5;
    }
  }

  /** Encoding leaves every other parameter in place and in order. */
  lemma EncodeKeepsOthers(ps: seq<Param>, stack: seq<SpinningGobo>)
    ensures Others(Encode(ps, stack)) == Others(ps)
  {
    DeleteStackKeysIsOthers(ps);
    OthersConcat(DeleteStackKeys(ps), StackParams(stack));
    OthersIdempotent(ps);
    OthersOfStackParams(stack);
  }

  /** Each of the three lists of an encoded query holds exactly the stack's values. */
  lemma EncodedLists(ps: seq<Param>, stack: seq<SpinningGobo>)
    ensures GetAll(Encode(ps, stack), GoboKey) == seq(|stack|, i requires 0 <= i < |stack| => IntToString(stack[i].gobo.id))
    ensures GetAll(Encode(ps, stack), ReverseKey) == seq(|stack|, i requires 0 <= i < |stack| => FlagString(stack[i].reverseSpin))
    ensures GetAll(Encode(ps, stack), SpeedKey) == seq(|stack|, i requires 0 <= i < |stack| => IntToString(stack[i].duration))
  {
    DeleteStackKeysIsOthers(ps);
    StackParamsLists(stack);
    GetAllOfOthers(ps, GoboKey);
    GetAllOfOthers(ps, ReverseKey);
    GetAllOfOthers(ps, SpeedKey);
    GetAllConcat(DeleteStackKeys(ps), StackParams(stack), GoboKey);
    GetAllConcat(DeleteStackKeys(ps), StackParams(stack), ReverseKey);
    GetAllConcat(DeleteStackKeys(ps), StackParams(stack), SpeedKey);
  }

  /** Re-encoding an encoded query with the same stack changes nothing. */
  lemma EncodeIdempotent(ps: seq<Param>, stack: seq<SpinningGobo>)
    ensures Encode(Encode(ps, stack), stack) == Encode(ps, stack)
  {
    DeleteStackKeysIsOthers(Encode(ps, stack));
    DeleteStackKeysIsOthers(ps);
    EncodeKeepsOthers(ps, stack);
  }

  /** The reverse flag survives `String(Number(b))` and `Boolean(Number(s))`. */
  lemma FlagRoundTrip(b: bool)
    ensures Truthy(ToNumber(FlagString(b))) == b
  {
    NumberOfString(if b then 1 else 0);
  }

  /** Reading back an encoded query gives every entry's id text, duration and direction, in order. */
  lemma DecodeEncode(ps: seq<Param>, stack: seq<SpinningGobo>)
    ensures Decode(Encode(ps, stack)) == Some(seq(|stack|, i requires 0 <= i < |stack| => Pending(stack[i])))
  {
    EncodedLists(ps, stack);
    var q := Encode(ps, stack);
    var r := Decode(q);
    assert r.Some? && |r.value| == |stack|;
    forall i | 0 <= i < |stack| ensures r.value[i] == Pending(stack[i]) {
      assert GetAll(q, GoboKey)[i] == IntToString(stack[i].gobo.id);
      assert GetAll(q, ReverseKey)[i] == FlagString(stack[i].reverseSpin);
      assert GetAll(q, SpeedKey)[i] == IntToString(stack[i].duration);
      NumberOfString(stack[i].duration);
      FlagRoundTrip(stack[i].reverseSpin);
    }
    var expected := seq(|stack|, i requires 0 <= i < |stack| => Pending(stack[i]));
    assert r.value == expected;
  }

  /** A query without stack parameters reads as the empty stack. */
  lemma {:induction false} DecodeWithoutStack(ps: seq<Param>)
    requires forall i :: 0 <= i < |ps| ==> !IsStackKey(ps[i].key)
    ensures Decode(ps) == Some([])
    decreases |ps|
  {
    if |ps| > 0 {
      DecodeWithoutStack(ps[1..]);
    }
  }
}
