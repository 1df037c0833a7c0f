/** The naive tick spelled out, the closed form of the cursors, and where the wheel goes wrong. */
module TimerEdges {
  import opened Sequences
  import opened TimerRegistry
  import opened TimerWheel
  import opened TimerPlacement
  import opened TimerInvariant
  import opened TimerCallbacks
  import opened TimerRefinement
  import opened TimerExact
  import opened TimerRuns

  /** The firings of one tick: at that tick, at most once each; all of `order`, if as many as that. */
  predicate Batch(fired: seq<Firing>, tick: nat, order: seq<TimerId>) {
    && (forall j :: 0 <= j < |fired| ==> fired[j].tick == tick && fired[j].id in order)
    && (forall i, j :: 0 <= i < j < |fired| ==> fired[i].id != fired[j].id)
    && (|fired| == |order| ==> forall j :: 0 <= j < |order| ==> fired[j].id == order[j])
  }

  lemma BatchCons(f: Firing, g: seq<Firing>, tick: nat, order: seq<TimerId>, due: seq<TimerId>)
    requires order != [] && NoDup(order) && f.tick == tick && f.id == order[0]
    requires forall id :: id in due ==> id in order[1..]
    requires |g| <= |due| && (|due| == |order| - 1 ==> due == order[1..]) && |due| < |order|
    requires Batch(g, tick, due)
    ensures Batch([f] + g, tick, order)
  {
    var l := [f] + g;
    assert forall j :: 0 <= j < |order[1..]| ==> order[1..][j] == order[j + 1];
    assert forall j :: 1 <= j < |l| ==> l[j] == g[j - 1] && l[j].id in due;
    assert forall j :: 1 <= j < |l| ==> l[j].id in order[1..] && l[j].id != order[0];
  }

  /** Each timer fires at most once per tick, and only at its expiry; undestroyed ones all do, in order. */
  lemma {:induction false} FireDueLog(r: Registry, order: seq<TimerId>, script: Script)
    requires NoDup(order) && r.started && forall id :: id in order ==> Due(r, id)
    ensures Batch(FireDue(r, order, script).log[|r.log|..], r.lasttick, order)
    decreases |order|
  {
    hide FireOne, Batch, DueOnly;
    if order == [] {
      assert Batch([], r.lasttick, order) by { EmptyBatch(r.lasttick); }
    } else {
      assert order[0] in order && Due(r, order[0]);
      var x, rest := order[0], order[1..];
      var r1 := FireOne(r, x, script);
      var due := DueOnly(r1, rest);
      assert forall i :: 0 <= i < |rest| ==> rest[i] == order[i + 1];
      DueOnlyNoDup(r1, rest);
      FireDueLog(r1, due, script);
      if |due| == |rest| {
        DueOnlyFull(r1, rest);
      }
      var n := FireDue(r, order, script).log;
      var f := Firing(r.lasttick, x, Called(r, x));
      assert n[|r.log|..] == [f] + n[|r1.log|..];
      BatchCons(f, n[|r1.log|..], r.lasttick, order, due);
    }
  }

  lemma EmptyBatch(tick: nat)
    ensures Batch([], tick, [])
  {
  }

  /** A tick of the wheel fires exactly the timers whose expiry it is, once each, and no other. */
  lemma TickFires(s: Wheel, script: Script)
    requires Inv(s) && s.reg.started && IsDueOrder(s.reg, NextSlot(s)) && SafeTick(s.reg, NextSlot(s), script)
    requires SparesDue(Advanced(s.reg), NextSlot(s), script)
    ensures s.reg.log <= Tick(s, script).reg.log
    ensures var fired := Tick(s, script).reg.log[|s.reg.log|..];
      && (forall j :: 0 <= j < |fired| ==> fired[j].tick == s.reg.lasttick + 1)
      && (forall i, j :: 0 <= i < j < |fired| ==> fired[i].id != fired[j].id)
      && (forall id :: (exists j :: 0 <= j < |fired| && fired[j].id == id)
            <==> id in s.reg.timers && s.reg.timers[id].expire == s.reg.lasttick + 1)
  {
    hide Placed, Unlinked, Sane, Fire, FireDue, FireDueSafe, SparesDue;
    var order := NextSlot(s);
    TickExactly(s, script);
    SparesExactly(Advanced(s.reg), order, script);
    FireDueLog(Advanced(s.reg), order, script);
    var fired := Tick(s, script).reg.log[|s.reg.log|..];
    assert |fired| == |order|;
    forall id
      ensures (exists j :: 0 <= j < |fired| && fired[j].id == id)
        <==> id in s.reg.timers && s.reg.timers[id].expire == s.reg.lasttick + 1
    {
      assert id in order <==> Due(Advanced(s.reg), id);
      if id in order {
        var j :| 0 <= j < |order| && order[j] == id;
        assert fired[j].id == id;
      }
    }
  }

  // ---------------------------------------------------------------------------------------------
  // Cursors
  // ---------------------------------------------------------------------------------------------

  datatype Cursors = Cursors(sec: int, hour: int, day: int)

  function CursorsOf(s: Wheel): Cursors
    requires Shape(s.wheels)
  {
    Cursors(s.wheels[SEC].cur, s.wheels[HOUR].cur, s.wheels[DAY].cur)
  }

  /** Where the cursors stand after `n` ticks. */
  function CursorsAfter(n: nat): Cursors {
    Cursors(if n == 0 then -1 else (n - 1) % 1000, (n / 1000) % 3600, ((n + 1000) / 3_600_000) % 24)
  }

  function TurnAll(c: Cursors): Cursors {
    var sec := NextCursor(SEC, c.sec);
    var hour := if sec == 999 then NextCursor(HOUR, c.hour) else c.hour;
    var day := if sec == 999 && hour == 3599 then NextCursor(DAY, c.day) else c.day;
    Cursors(sec, hour, day)
  }

  lemma TickTurnsAll(s: Wheel, script: Script)
    requires Linked(s) && s.reg.started
    ensures CursorsOf(Tick(s, script)) == TurnAll(CursorsOf(s))
  {
    hide Drain, ListsAgree;
    var s0 := s.(reg := Advanced(s.reg));
    var s1 := Turn(s0, SEC);
    LinkedShape(s1);
    var s2 := Drain(s1, SEC, |List(s1.wheels, Cur(s1, SEC))|, script);
    LinkedShape(s2);
    if s2.wheels[SEC].cur == 999 {
      var h1 := Turn(s2, HOUR);
      LinkedShape(h1);
      var h2 := Drain(h1, HOUR, |List(h1.wheels, Cur(h1, HOUR))|, script);
      LinkedShape(h2);
      if h2.wheels[HOUR].cur == 3599 {
        var d1 := Turn(h2, DAY);
        LinkedShape(d1);
      }
    }
  }

  /** How quotient and remainder go on, for the sizes of the wheels. */
  lemma Decompose(x: nat, m: nat)
    requires m == 24 || m == 1000 || m == 3600
    ensures if x % m + 1 == m then (x + 1) / m == x / m + 1 && (x + 1) % m == 0
            else (x + 1) / m == x / m && (x + 1) % m == x % m + 1
  {
    if m == 24 {
    } else if m == 1000 {
    } else {
    }
  }

  lemma SecStep(n: nat)
    ensures NextCursor(SEC, CursorsAfter(n).sec) == CursorsAfter(n + 1).sec
    ensures CursorsAfter(n + 1).sec == 999 <==> (n + 1) % 1000 == 0
  {
    if n > 0 { Decompose(n - 1, 1000); }
    Decompose(n, 1000);
  }

  /** The hour wheel turns at the multiples of 1000. */
  lemma HourStep(n: nat)
    ensures CursorsAfter(n + 1).hour ==
      if (n + 1) % 1000 == 0 then NextCursor(HOUR, CursorsAfter(n).hour) else CursorsAfter(n).hour
  {
    Decompose(n, 1000);
    Decompose(n / 1000, 3600);
  }

  /** The day wheel turns as the hour wheel comes to its last slot. */
  lemma DayStep(n: nat)
    ensures CursorsAfter(n + 1).day ==
      if (n + 1) % 1000 == 0 && CursorsAfter(n + 1).hour == 3599 then NextCursor(DAY, CursorsAfter(n).day)
      else CursorsAfter(n).day
  {
    var a, b := n / 1000, (n + 1) / 1000;
    DivDiv(n + 1000);
    DivDiv(n + 1001);
    assert (n + 1000) / 1000 == a + 1 && (n + 1001) / 1000 == b + 1;
    Decompose(n, 1000);
    Decompose(a + 1, 3600);
    Decompose((a + 1) / 3600, 24);
    Decompose(b, 3600);
  }

  lemma TurnAllStep(n: nat)
    ensures TurnAll(CursorsAfter(n)) == CursorsAfter(n + 1)
  {
    hide CursorsAfter;
    SecStep(n);
    HourStep(n);
    DayStep(n);
  }

  lemma DivDiv(x: nat)
    ensures x / 3_600_000 == (x / 1000) / 3600
  {
  }

  /** The cursors are a function of the number of ticks alone, whatever the callbacks do. */
  lemma {:induction false} CatchUpCursors(s: Wheel, now: nat, script: Script, n: nat)
    requires Linked(s) && s.reg.started && s.reg.lasttick <= now && CursorsOf(s) == CursorsAfter(n)
    ensures CursorsOf(CatchUp(s, now, script)) == CursorsAfter(n + (now - s.reg.lasttick))
    decreases now - s.reg.lasttick
  {
    hide Tick, CursorsOf, CursorsAfter;
    if s.reg.lasttick != now {
      TickTurnsAll(s, script);
      TurnAllStep(n);
      CatchUpCursors(Tick(s, script), now, script, n + 1);
    }
  }

  // ---------------------------------------------------------------------------------------------
  // Where the wheel is not the naive service
  // ---------------------------------------------------------------------------------------------

  /** If the callbacks of a tick are not harmless, some timer fires one full turn of the first wheel early. */
  lemma SpareRoundFiresEarly(s: Wheel, script: Script)
    requires Inv(s) && s.reg.started && IsDueOrder(s.reg, NextSlot(s))
    requires FireDueSafe(Advanced(s.reg), NextSlot(s), script) && !Harmless(Advanced(s.reg), NextSlot(s), script)
    ensures var n := NaiveTick(s.reg, NextSlot(s), script);
      exists x :: OneTurnAhead(n, x) && n.log + [Firing(n.lasttick, x, Called(n, x))] <= Tick(s, script).reg.log
  {
    hide FireDue, DueOnly, Serve, Placed, Unlinked, Sane, FireDueSafe, SparesDue, NoneArmedAhead;
    TickBegins(s);
    var order, r := NextSlot(s), Turned(s);
    var lag := SecLag(r.wheels);
    var f := FireCount(r.reg, order, script);
    LeftExactly(s, script);
    SparesExactly(r.reg, order, script);
    DrainDue(r, lag, order, script);
    var m := Drain(r, SEC, f, script);
    LinkedShape(m);
    DrainSplit(r, SEC, f, |order| - f, script);
    var x := List(m.wheels, Cur(m, SEC))[0];
    LeftIsOneTurnAway(m, lag, x);
    SpareFiring(m, |order| - f, script);
    var n := NaiveTick(s.reg, order, script);
    assert m.reg == n && OneTurnAhead(n, x);
    assert n.log + [Firing(n.lasttick, x, Called(n, x))] <= Tick(s, script).reg.log;
  }

  lemma SpareFiring(m: Wheel, pops: nat, script: Script)
    requires Linked(m) && CanDrain(m, SEC) && pops > 0 && List(m.wheels, Cur(m, SEC)) != []
    ensures var x := List(m.wheels, Cur(m, SEC))[0];
      x in m.reg.timers
      && m.reg.log + [Firing(m.reg.lasttick, x, Called(m.reg, x))] <= Drain(m, SEC, pops, script).reg.log
  {
    Listed(m, Cur(m, SEC), List(m.wheels, Cur(m, SEC))[0]);
  }

  lemma PushLists(s: Wheel, sl: Slot, id: TimerId)
    requires Linked(s) && ValidSlot(sl) && id in s.reg.timers && id !in s.owner
    ensures var r := Push(s, sl, id);
      List(r.wheels, sl) == List(s.wheels, sl) + [id] && r.owner == s.owner[id := sl]
  {
  }

  lemma UnlinkLists(s: Wheel, id: TimerId)
    requires Linked(s) && id in s.owner
    ensures var r, sl := Unlink(s, id), s.owner[id];
      List(r.wheels, sl) == Without(List(s.wheels, sl), id) && r.owner == s.owner - {id}
  {
  }

  /**
   * A way to get there: of two timers due at the same tick the first, which repeats every 1000 ms, has
   * a callback that destroys the second.  The first then fires twice at that tick.
   */
  lemma FiresTwice(s: Wheel, a: TimerId, b: TimerId, script: Script)
    requires Inv(s) && s.reg.started && NextSlot(s) == [a, b]
    requires a in s.reg.timers && s.reg.timers[a].interval == 1000 && s.reg.timers[a].forever
    requires Called(s.reg, a) && b != INVALID_TIMER_ID
    requires |s.reg.log| < |script| && script[|s.reg.log|] == [Destroy(b)]
    requires SameEpoch(s.reg.lasttick + 1, s.reg.lasttick + 1001)
    ensures var t := s.reg.lasttick + 1;
      s.reg.log + [Firing(t, a, true), Firing(t, a, true)] <= Tick(s, script).reg.log
  {
    hide Serve, Placed, Sane, ListsAgree;
    TickBegins(s);
    var r := Turned(s);
    assert a in [a, b] && b in [a, b] && [a, b][0] != [a, b][1];
    assert Due(r.reg, a) && Due(r.reg, b);
    assert LinkedUnlessRunning(s, {}, b);
    FirstRound(r, a, b, script);
    SpareFiring(Serve(r, SEC, script), 1, script);
    assert Drain(r, SEC, 2, script) == Drain(Serve(r, SEC, script), SEC, 1, script);
  }

  lemma CallbackRuns(s: Wheel, sl: Slot, a: TimerId, b: TimerId)
    requires Linked(s) && ValidSlot(sl) && List(s.wheels, sl) == [b] && a !in s.owner
    requires b in s.reg.timers && !s.reg.timers[b].inProc && b != INVALID_TIMER_ID
    ensures var m := DoOps(s, [Destroy(b)]);
      List(m.wheels, sl) == [] && a !in m.owner && m.reg == s.reg.(timers := s.reg.timers - {b})
  {
    assert SlotAgrees(s.wheels, s.owner, sl);
    assert b in List(s.wheels, sl);
    UnlinkLists(s, b);
    assert DoOps(s, [Destroy(b)]) == DoOps(DoOp(s, Destroy(b)), []);
  }

  lemma RearmedInPlace(s: Wheel, sl: Slot, a: TimerId)
    requires Linked(s) && CanDrain(s, SEC) && sl == Cur(s, SEC) && List(s.wheels, sl) == []
    requires a in s.reg.timers && a !in s.owner && s.reg.timers[a].expire == s.reg.lasttick + 1000
    requires SameEpoch(s.reg.lasttick, s.reg.lasttick + 1000)
    ensures List(Reg(s, a, s.reg.lasttick).wheels, sl) == [a]
  {
    CalRemainExact(s.reg.lasttick, s.reg.lasttick + 1000);
    CastsHarmless(sl.j, 1000);
    SecIndex(sl.j, 1000);
    assert Place(s.wheels, SEC, 1000) == sl;
    PushLists(s, sl, a);
  }

  lemma FirstRound(r: Wheel, a: TimerId, b: TimerId, script: Script)
    requires Linked(r) && CanDrain(r, SEC) && a != b && List(r.wheels, Cur(r, SEC)) == [a, b]
    requires Due(r.reg, a) && b in r.reg.timers && !r.reg.timers[b].inProc && r.reg.started
    requires r.reg.timers[a].interval == 1000 && r.reg.timers[a].forever && Called(r.reg, a)
    requires b != INVALID_TIMER_ID
    requires |r.reg.log| < |script| && script[|r.reg.log|] == [Destroy(b)]
    requires SameEpoch(r.reg.lasttick, r.reg.lasttick + 1000)
    ensures var m := Serve(r, SEC, script);
      && m.reg.log == r.reg.log + [Firing(r.reg.lasttick, a, true)] && m.reg.lasttick == r.reg.lasttick
      && CanDrain(m, SEC) && List(m.wheels, Cur(m, SEC)) == [a] && a in m.reg.timers && Called(m.reg, a)
  {
    hide ListsAgree, DoOps, Place, SlotAgrees, ApplyOps;
    LinkedShape(r);
    var sl := Cur(r, SEC);
    Listed(r, sl, a);
    UnlinkLists(r, a);
    var s0 := Unlink(r, a);
    assert List(s0.wheels, sl) == [b];
    var s1 := s0.(reg := BeginFire(s0.reg, a));
    assert CallbackOps(s0.reg, a, script) == [Destroy(b)];
    CallbackRuns(s1, sl, a, b);
    var s2 := DoOps(s1, [Destroy(b)]);
    RearmedInPlace(s2.(reg := EndFire(s2.reg, a)), sl, a);
    assert Unlink(s2, a) == s2;
  }

  /** A registration for the next millisecond. */
  function EverySecond(id: TimerId): Op {
    Register(1, 1000, 0, 1, false, 0, id, 0)
  }

  lemma RegisteredNext(s: Wheel, id: TimerId)
    requires Inv(s) && s.reg.lasttick == 0 && s.wheels[SEC].cur == -1 && id != INVALID_TIMER_ID
    requires id !in s.reg.timers && s.reg.log == []
    ensures var r := DoOp(s, EverySecond(id));
      && Inv(r) && r.reg.started && r.reg.lasttick == 0 && r.wheels[SEC].cur == -1
      && r.reg == s.reg.(started := true, timers := s.reg.timers[id := NewTimer(EverySecond(id))])
      && NextSlot(r) == NextSlot(s) + [id]
  {
    CallKeeps(s, EverySecond(id));
    var s1 := s.(reg := ApplyRegister(s.reg, EverySecond(id)));
    assert CalRemain(0, 1) == 1;
    assert Place(s.wheels, SEC, 1) == Slot(SEC, 0);
    assert id !in s.owner;
    PushLists(s1, Slot(SEC, 0), id);
  }

  /** Two registrations are enough to be there. */
  lemma FiresTwiceInstance()
    ensures var s := DoOp(DoOp(Initial({1}), EverySecond(1)), EverySecond(2));
      s.reg.started && s.reg.log == []
      && [Firing(1, 1, true), Firing(1, 1, true)] <= Tick(s, [[Destroy(2)]]).reg.log
  {
    hide Placed, Sane, Unlinked, ListsAgree, DoOp, Tick;
    InitialInv({1});
    var i := Initial({1});
    RegisteredNext(i, 1);
    var s1 := DoOp(i, EverySecond(1));
    RegisteredNext(s1, 2);
    LinkedShape(DoOp(s1, EverySecond(2)));
    var s2 := DoOp(s1, EverySecond(2));
    assert NextSlot(i) == [];
    assert NextSlot(s2) == [1, 2];
    FiresTwice(s2, 1, 2, [[Destroy(2)]]);
  }

  /** A timer for the first wheel is well placed exactly when no multiple of 2^32 is in its way. */
  lemma FirstWheelExact(ws: seq<TimeWheel>, lag: Lag, tick: nat, expire: nat)
    requires Shape(ws) && LagFits(ws, lag) && tick < expire <= tick + 1000
    ensures PlacedAt(ws, lag, expire - tick, Place(ws, SEC, CalRemain(tick, expire))) <==> SameEpoch(tick, expire)
  {
    CalRemainExact(tick, expire);
    if SameEpoch(tick, expire) {
      PlaceFits(ws, lag, expire - tick);
    } else if expire == tick + 1 {
      assert CalRemain(tick, expire) == 0;
      assert ToU32(ws[SEC].cur) % 1000 != 999 || ws[SEC].cur == 999 || ws[SEC].cur == -1;
    } else {
      PlaceFits(ws, lag, expire - tick - 1);
    }
  }
}
