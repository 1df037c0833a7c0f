/**
 * The generator of 64-bit ids: 8 bits of type, 32 bits of seconds since 2025, 24 bits of sequence.
 *
 * Shifts are written as multiplication and division, masks as remainders, and the `|` of fields that
 * do not overlap as a sum.
 */
module Guid {

  const TYPE_RANGE := 0x100
  const STAMP_RANGE := 0x1_0000_0000
  const SEQ_RANGE := 0x100_0000
  const U32_RANGE := 0x1_0000_0000
  const SEC_FROM_1970_TO_2025 := 1735689600

  /** The two static 32-bit variables of `GenGUID`. */
  datatype Gen = Gen(last: nat, seqNo: nat)

  /** A call, with the second that the clock shows. */
  datatype Request = Request(kind: nat, clock: nat)

  function Next(g: Gen, clock: nat): Gen {
    var now := clock % U32_RANGE;
    if g.last != now then Gen(now, 0) else Gen(g.last, (g.seqNo + 1) % U32_RANGE)
  }

  function Pack(kind: nat, now: nat, seqNo: nat): nat {
    var stamp := (now - SEC_FROM_1970_TO_2025) % U32_RANGE % STAMP_RANGE;
    (kind % TYPE_RANGE) * 0x100_0000_0000_0000 + stamp * 0x100_0000 + seqNo % SEQ_RANGE
  }

  // The fields as `GUIDStr` takes them out.
  function KindOf(guid: nat): nat { guid / 0x100_0000_0000_0000 % TYPE_RANGE }
  function StampOf(guid: nat): nat { guid / 0x100_0000 % STAMP_RANGE }
  function SeqOf(guid: nat): nat { guid % SEQ_RANGE }

  /** Taking the fields out gives back what was packed, up to the width of each field. */
  lemma FieldsOfPack(kind: nat, now: nat, seqNo: nat)
    ensures var guid := Pack(kind, now, seqNo);
      && guid < 0x1_0000_0000_0000_0000
      && KindOf(guid) == kind % TYPE_RANGE
      && StampOf(guid) == (now - SEC_FROM_1970_TO_2025) % U32_RANGE
      && SeqOf(guid) == seqNo % SEQ_RANGE
  {
    var k, stamp, q := kind % TYPE_RANGE, (now - SEC_FROM_1970_TO_2025) % U32_RANGE, seqNo % SEQ_RANGE;
    assert Pack(kind, now, seqNo) / 0x100_0000 == k * 0x1_0000_0000 + stamp;
  }

  /** The generator after each of the calls. */
  function States(g: Gen, calls: seq<Request>): (r: seq<Gen>)
    ensures |r| == |calls|
    decreases |calls|
  {
    if calls == [] then []
    else [Next(g, calls[0].clock)] + States(Next(g, calls[0].clock), calls[1..])
  }

  /** The ids that the calls return. */
  function Ids(g: Gen, calls: seq<Request>): (r: seq<nat>)
    ensures |r| == |calls|
    decreases |calls|
  {
    if calls == [] then []
    else
      var g1 := Next(g, calls[0].clock);
      [Pack(calls[0].kind, calls[0].clock % U32_RANGE, g1.seqNo)] + Ids(g1, calls[1..])
  }

  lemma {:induction false} IdIsPacked(g: Gen, calls: seq<Request>, i: nat)
    requires i < |calls|
    ensures var s := States(g, calls)[i];
      Ids(g, calls)[i] == Pack(calls[i].kind, s.last, s.seqNo)
    decreases |calls|
  {
    if i > 0 {
      IdIsPacked(Next(g, calls[0].clock), calls[1..], i - 1);
    }
  }

  // ---------------------------------------------------------------------------------------------
  // When ids repeat
  // ---------------------------------------------------------------------------------------------

  /** The second as the generator sees it. */
  function Second(clock: nat): nat {
    clock % U32_RANGE
  }

  /** How many ids, of any type, had been given out when call `i` was made since the clock came to its second. */
  function Place(g: Gen, calls: seq<Request>, i: nat): nat
    requires i < |calls|
  {
    if i == 0 then (if g.last == Second(calls[0].clock) then g.seqNo + 1 else 0)
    else if Second(calls[i].clock) == Second(calls[i - 1].clock) then Place(g, calls, i - 1) + 1
    else 0
  }

  lemma {:induction false} StatesStep(g: Gen, calls: seq<Request>, i: nat)
    requires 0 < i < |calls|
    ensures States(g, calls)[i] == Next(States(g, calls)[i - 1], calls[i].clock)
    decreases i
  {
    if i > 1 {
      StatesStep(Next(g, calls[0].clock), calls[1..], i - 1);
    }
  }

  lemma FirstState(g: Gen, calls: seq<Request>)
    requires calls != []
    ensures States(g, calls)[0] == Next(g, calls[0].clock)
  {
  }

  lemma NextPlace(p: nat)
    ensures (p % U32_RANGE + 1) % U32_RANGE == (p + 1) % U32_RANGE
  {
  }

  /** Whatever the clock does, the static variables hold the second of the call and its place in it. */
  lemma {:induction false} StateAt(g: Gen, calls: seq<Request>, i: nat)
    requires i < |calls|
    ensures States(g, calls)[i] == Gen(Second(calls[i].clock), Place(g, calls, i) % U32_RANGE)
  {
    hide States;
    if i > 0 {
      StateAt(g, calls, i - 1);
      StatesStep(g, calls, i);
      NextPlace(Place(g, calls, i - 1));
    } else {
      FirstState(g, calls);
    }
  }

  lemma IdAt(g: Gen, calls: seq<Request>, i: nat)
    requires i < |calls|
    ensures Ids(g, calls)[i] == Pack(calls[i].kind, Second(calls[i].clock), Place(g, calls, i))
  {
    hide States, Ids, Place;
    IdIsPacked(g, calls, i);
    StateAt(g, calls, i);
    var p := Place(g, calls, i);
    assert p % U32_RANGE % SEQ_RANGE == p % SEQ_RANGE;
  }

  /** Two packed ids are equal exactly when all three fields are. */
  lemma PackEqual(k1: nat, s1: nat, q1: nat, k2: nat, s2: nat, q2: nat)
    requires s1 < U32_RANGE && s2 < U32_RANGE
    ensures Pack(k1, s1, q1) == Pack(k2, s2, q2) <==>
      k1 % TYPE_RANGE == k2 % TYPE_RANGE && s1 == s2 && q1 % SEQ_RANGE == q2 % SEQ_RANGE
  {
    hide Pack, KindOf, StampOf, SeqOf;
    FieldsOfPack(k1, s1, q1);
    FieldsOfPack(k2, s2, q2);
    if k1 % TYPE_RANGE == k2 % TYPE_RANGE && s1 == s2 && q1 % SEQ_RANGE == q2 % SEQ_RANGE {
      assert Pack(k1, s1, q1) == Pack(k2, s2, q2) by { SameFields(k1, k2, s1, q1, q2); }
    }
  }

  lemma SameFields(k1: nat, k2: nat, s: nat, q1: nat, q2: nat)
    requires k1 % TYPE_RANGE == k2 % TYPE_RANGE && q1 % SEQ_RANGE == q2 % SEQ_RANGE
    ensures Pack(k1, s, q1) == Pack(k2, s, q2)
  {
  }

  /** For any generator, any calls and any clock: exactly when two ids are equal. */
  lemma IdsEqual(g: Gen, calls: seq<Request>, i: nat, j: nat)
    requires i < |calls| && j < |calls|
    ensures Ids(g, calls)[i] == Ids(g, calls)[j] <==>
      && calls[i].kind % TYPE_RANGE == calls[j].kind % TYPE_RANGE
      && Second(calls[i].clock) == Second(calls[j].clock)
      && Place(g, calls, i) % SEQ_RANGE == Place(g, calls, j) % SEQ_RANGE
  {
    hide Pack, Ids, Place;
    IdAt(g, calls, i);
    IdAt(g, calls, j);
    PackEqual(calls[i].kind, Second(calls[i].clock), Place(g, calls, i),
              calls[j].kind, Second(calls[j].clock), Place(g, calls, j));
  }

  /** The clock does not go back and stays in the 32-bit window from 2025. */
  predicate Monotone(calls: seq<Request>) {
    && (forall i :: 0 <= i < |calls| ==> SEC_FROM_1970_TO_2025 <= calls[i].clock < SEC_FROM_1970_TO_2025 + U32_RANGE)
    && (forall i, j :: 0 <= i < j < |calls| ==> calls[i].clock <= calls[j].clock)
  }

  /** In the window the cut to 32 bits tells any two seconds apart. */
  lemma WindowExact(a: nat, b: nat)
    requires SEC_FROM_1970_TO_2025 <= a < SEC_FROM_1970_TO_2025 + U32_RANGE
    requires SEC_FROM_1970_TO_2025 <= b < SEC_FROM_1970_TO_2025 + U32_RANGE
    ensures Second(a) == Second(b) <==> a == b
    ensures (Second(a) - SEC_FROM_1970_TO_2025) % U32_RANGE == a - SEC_FROM_1970_TO_2025
  {
  }

  lemma {:induction false} SameSecondPlaces(g: Gen, calls: seq<Request>, i: nat, j: nat)
    requires Monotone(calls) && i <= j < |calls| && calls[i].clock == calls[j].clock
    ensures Place(g, calls, j) == Place(g, calls, i) + (j - i)
    decreases j
  {
    if i < j {
      assert calls[i].clock <= calls[j - 1].clock <= calls[j].clock;
      SameSecondPlaces(g, calls, i, j - 1);
    }
  }

  lemma SumMod(a: nat, d: nat)
    ensures a % SEQ_RANGE == (a + d) % SEQ_RANGE <==> d % SEQ_RANGE == 0
  {
  }

  /** With a monotone clock two ids are equal exactly if one is a multiple of 2^24 calls behind the other
      in the same second, and of the same type. */
  lemma IdsRepeat(g: Gen, calls: seq<Request>, i: nat, j: nat)
    requires Monotone(calls) && i < j < |calls|
    ensures Ids(g, calls)[i] == Ids(g, calls)[j] <==>
      && calls[i].kind % TYPE_RANGE == calls[j].kind % TYPE_RANGE
      && calls[i].clock == calls[j].clock && (j - i) % SEQ_RANGE == 0
  {
    hide Ids, Place;
    IdsEqual(g, calls, i, j);
    WindowExact(calls[i].clock, calls[j].clock);
    if calls[i].clock == calls[j].clock {
      SameSecondPlaces(g, calls, i, j);
      SumMod(Place(g, calls, i), j - i);
    }
  }

  /** No second gives out more than 2^24 ids: of any 2^24 + 1 calls in a row the last is in a later second. */
  predicate Paced(calls: seq<Request>) {
    forall i, j :: 0 <= i && i + SEQ_RANGE <= j < |calls| ==> calls[i].clock < calls[j].clock
  }

  /** A run with a monotone clock and so paced has no id twice. */
  lemma IdsDistinct(g: Gen, calls: seq<Request>, i: nat, j: nat)
    requires Monotone(calls) && Paced(calls) && i < j < |calls|
    ensures Ids(g, calls)[i] != Ids(g, calls)[j]
  {
    IdsRepeat(g, calls, i, j);
    if calls[i].clock == calls[j].clock {
      assert !(i + SEQ_RANGE <= j);
    }
  }

  lemma PackOrder(k: nat, a: nat, p: nat, b: nat, q: nat)
    requires SEC_FROM_1970_TO_2025 <= a <= b < SEC_FROM_1970_TO_2025 + U32_RANGE
    ensures Pack(k, Second(a), p) < Pack(k, Second(b), q) <==> a < b || p % SEQ_RANGE < q % SEQ_RANGE
  {
    WindowExact(a, b);
    WindowExact(b, b);
  }

  lemma PackKind(k1: nat, k2: nat, s: nat, q: nat)
    requires k1 % TYPE_RANGE == k2 % TYPE_RANGE
    ensures Pack(k1, s, q) == Pack(k2, s, q)
  {
  }

  /** With a monotone clock the ids of a type increase exactly if they come from a later second or from a
      later place, cut to 24 bits, in the same one. */
  lemma IdsGrow(g: Gen, calls: seq<Request>, i: nat, j: nat)
    requires Monotone(calls) && i < j < |calls| && calls[i].kind % TYPE_RANGE == calls[j].kind % TYPE_RANGE
    ensures Ids(g, calls)[i] < Ids(g, calls)[j] <==>
      calls[i].clock < calls[j].clock || Place(g, calls, i) % SEQ_RANGE < Place(g, calls, j) % SEQ_RANGE
  {
    hide Pack, Ids, Place, Second;
    IdAt(g, calls, i);
    IdAt(g, calls, j);
    PackKind(calls[i].kind, calls[j].kind, Second(calls[i].clock), Place(g, calls, i));
    PackOrder(calls[j].kind, calls[i].clock, Place(g, calls, i), calls[j].clock, Place(g, calls, j));
  }

  /** An id tells its type, its second and its place within the second, up to the width of each field. */
  lemma IdTells(g: Gen, calls: seq<Request>, i: nat)
    requires i < |calls|
    ensures KindOf(Ids(g, calls)[i]) == calls[i].kind % TYPE_RANGE
    ensures StampOf(Ids(g, calls)[i]) == (Second(calls[i].clock) - 1_735_689_600) % U32_RANGE
    ensures SeqOf(Ids(g, calls)[i]) == Place(g, calls, i) % SEQ_RANGE
  {
    hide Pack, Ids, KindOf, StampOf, SeqOf, Place;
    IdAt(g, calls, i);
    FieldsOfPack(calls[i].kind, Second(calls[i].clock), Place(g, calls, i));
  }

  /** The seconds of the stamp count from the beginning of 2025: 55 years on, 14 of them with a leap day. */
  lemma EpochIs2025()
    ensures SEC_FROM_1970_TO_2025 == 86_400 * (365 * (2025 - 1970) + (2024 / 4 - 1969 / 4))
  {
  }

  /** More than 2^24 calls in one second do repeat an id, of whatever types the calls between are. */
  lemma RepeatsWhenUsedUp(g: Gen, calls: seq<Request>)
    requires Monotone(calls) && |calls| > SEQ_RANGE && calls[0].clock == calls[SEQ_RANGE].clock
    requires calls[0].kind == calls[SEQ_RANGE].kind
    ensures Ids(g, calls)[0] == Ids(g, calls)[SEQ_RANGE]
  {
    IdsRepeat(g, calls, 0, SEQ_RANGE);
  }

  /** A clock that comes back to a second it has left repeats the first id of that second. */
  lemma RepeatsWhenSetBack(g: Gen, calls: seq<Request>, i: nat, j: nat)
    requires 0 < i < j < |calls| && calls[i].kind == calls[j].kind && calls[i].clock == calls[j].clock
    requires Second(calls[i - 1].clock) != Second(calls[i].clock)
    requires Second(calls[j - 1].clock) != Second(calls[j].clock)
    ensures Ids(g, calls)[i] == Ids(g, calls)[j]
  {
    IdsEqual(g, calls, i, j);
  }

  class GuidGenerator {
    var last: nat
    var seqNo: nat

    constructor ()
      ensures last == 0 && seqNo == 0
    {
      last, seqNo := 0, 0;
    }

    method GenGUID(kind: nat, clock: nat) returns (guid: nat)
      modifies this
      ensures Gen(last, seqNo) == Next(old(Gen(last, seqNo)), clock)
      ensures guid == Pack(kind, last, seqNo)
    {
      var now := clock % U32_RANGE;
      if last != now {
        seqNo := 0;
        last := now;
      } else {
        seqNo := (seqNo + 1) % U32_RANGE;
      }
      var utype := kind % TYPE_RANGE;
      var stamp := (now - SEC_FROM_1970_TO_2025) % U32_RANGE % STAMP_RANGE;
      var field := seqNo % SEQ_RANGE;
      guid := 0;
      guid := guid + utype * 0x100_0000_0000_0000;
      guid := guid + stamp * 0x100_0000;
      guid := guid + field;
    }
  }
}
