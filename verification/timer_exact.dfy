/** When a tick of the wheel is the naive tick, said of the callbacks alone. */
module TimerExact {
  import opened Sequences
  import opened TimerRegistry
  import opened TimerCallbacks
  import opened TimerWheel
  import opened TimerPlacement
  import opened TimerInvariant
  import opened TimerRefinement

  /** Besides what is due, the slot being drained holds what has been armed in the tick for one turn ahead. */
  ghost predicate Tracked(s: Wheel, due: seq<TimerId>, armed: set<TimerId>)
    requires |s.wheels| == WHEELS
  {
    forall id {:trigger SlotHolds(s, due, armed, id)} :: SlotHolds(s, due, armed, id)
  }

  ghost predicate SlotHolds(s: Wheel, due: seq<TimerId>, armed: set<TimerId>, id: TimerId)
    requires |s.wheels| == WHEELS
  {
    id in s.owner && id !in due && s.owner[id] == Cur(s, SEC) <==> id in s.owner && id in armed && OneTurnAhead(s.reg, id)
  }

  /** The slot that `Reg` picks is the one being drained exactly for a timer one full turn ahead. */
  lemma PlacedAtCur(ws: seq<TimeWheel>, tick: nat, expire: nat)
    requires Shape(ws) && 0 <= ws[SEC].cur && tick < expire && SameEpoch(tick, expire)
    ensures Place(ws, SEC, CalRemain(tick, expire)) == Slot(SEC, ws[SEC].cur) <==> expire == tick + 1000
  {
    CalRemainExact(tick, expire);
    var remain := expire - tick;
    if remain <= 1000 {
      CastsHarmless(ws[SEC].cur, remain);
      SecIndex(ws[SEC].cur, remain);
    }
  }

  lemma RegTracks(s: Wheel, due: seq<TimerId>, armed: set<TimerId>, x: TimerId)
    requires Linked(s) && CanDrain(s, SEC) && x in s.reg.timers && x !in s.owner && x !in due
    requires s.reg.lasttick < s.reg.timers[x].expire && SameEpoch(s.reg.lasttick, s.reg.timers[x].expire)
    requires Tracked(s, due, armed)
    ensures var r := Reg(s, x, s.reg.lasttick); |r.wheels| == WHEELS && Tracked(r, due, armed + {x})
  {
    var r := Reg(s, x, s.reg.lasttick);
    var sl := Place(s.wheels, SEC, CalRemain(s.reg.lasttick, s.reg.timers[x].expire));
    PlacedAtCur(s.wheels, s.reg.lasttick, s.reg.timers[x].expire);
    assert r == Push(s, sl, x) && r.owner == s.owner[x := sl];
    forall id ensures SlotHolds(r, due, armed + {x}, id) {
      assert SlotHolds(s, due, armed, id);
    }
  }

  lemma OpTracks(s: Wheel, op: Op, lag: Lag, batch: seq<TimerId>, running: set<TimerId>, armed: set<TimerId>)
    requires NoDup(batch) && Mid(s, lag, SEC, DueOnly(s.reg, batch), running)
    requires OpSafe(s.reg, op) && s.reg.started && CanDrain(s, SEC) && Tracked(s, DueOnly(s.reg, batch), armed)
    ensures var r := DoOp(s, op);
      |r.wheels| == WHEELS && Tracked(r, DueOnly(r.reg, batch), ArmedByOp(s.reg, op, armed))
  {
    hide Placed, Sane, Tracked, Registered, Destroyed, DueOnly, OpSafe;
    if op.Register? {
      assert forall id :: id in s.owner ==> id in s.reg.timers;
      RegisterTracks(s, op, batch, armed);
    } else {
      DestroyTracks(s, op.id, batch, running, armed);
    }
  }

  lemma RegisterTracks(s: Wheel, op: Op, batch: seq<TimerId>, armed: set<TimerId>)
    requires Linked(s) && op.Register? && OpSafe(s.reg, op) && s.reg.started && CanDrain(s, SEC)
    requires Tracked(s, DueOnly(s.reg, batch), armed)
    ensures var r := Registered(s, op);
      |r.wheels| == WHEELS && Tracked(r, DueOnly(r.reg, batch), ArmedByOp(s.reg, op, armed))
  {
    hide DueOnly, Reg, ListsAgree;
    LinkedShape(s);
    if Accepts(s.reg, op) {
      var due, s1 := DueOnly(s.reg, batch), s.(reg := ApplyRegister(s.reg, op));
      DueOnlySame(s.reg, s1.reg, batch);
      assert Tracked(s1, due, armed) by {
        forall id ensures SlotHolds(s1, due, armed, id) {
          assert SlotHolds(s, due, armed, id);
        }
      }
      RegTracks(s1, due, armed, op.guid);
    }
  }

  lemma DestroyTracks(s: Wheel, x: TimerId, batch: seq<TimerId>, running: set<TimerId>, armed: set<TimerId>)
    requires Linked(s) && NoDup(batch) && Unlinked(s, running) && Tracked(s, DueOnly(s.reg, batch), armed)
    ensures var r := Destroyed(s, x);
      |r.wheels| == WHEELS && Tracked(r, DueOnly(r.reg, batch), ArmedByOp(s.reg, Destroy(x), armed))
  {
    hide DueOnly, ListsAgree, Tracked, Delete;
    LinkedShape(s);
    if x != INVALID_TIMER_ID && x in s.reg.timers {
      assert LinkedUnlessRunning(s, running, x);
      if s.reg.timers[x].inProc {
        MarkTracks(s, x, batch, armed);
      } else {
        DeleteTracks(s, x, batch, armed);
      }
    }
  }

  lemma MarkTracks(s: Wheel, x: TimerId, batch: seq<TimerId>, armed: set<TimerId>)
    requires |s.wheels| == WHEELS && Tracked(s, DueOnly(s.reg, batch), armed)
    ensures var r := s.(reg := ApplyDestroy(s.reg, x));
      x in s.reg.timers && s.reg.timers[x].inProc ==> Tracked(r, DueOnly(r.reg, batch), armed)
  {
    hide DueOnly;
    var due, r := DueOnly(s.reg, batch), s.(reg := ApplyDestroy(s.reg, x));
    if x in s.reg.timers && s.reg.timers[x].inProc {
      DueOnlySame(s.reg, r.reg, batch);
      forall id ensures SlotHolds(r, due, armed, id) {
        assert SlotHolds(s, due, armed, id);
      }
    }
  }

  lemma DeleteTracks(s: Wheel, x: TimerId, batch: seq<TimerId>, armed: set<TimerId>)
    requires Linked(s) && NoDup(batch) && x in s.reg.timers && |s.wheels| == WHEELS
    requires Tracked(s, DueOnly(s.reg, batch), armed)
    ensures var r := Delete(s, x);
      |r.wheels| == WHEELS && Tracked(r, DueOnly(r.reg, batch), armed - {x})
  {
    hide DueOnly, ListsAgree, Unlink;
    var due, r := DueOnly(s.reg, batch), Delete(s, x);
    LinkedShape(r);
    DueOnlyWithout(s.reg, r.reg, batch, x);
    assert x !in r.owner;
    forall id ensures SlotHolds(r, DueOnly(r.reg, batch), armed - {x}, id) {
      assert SlotHolds(s, due, armed, id);
    }
  }

  lemma {:induction false} OpsTrack(s: Wheel, ops: seq<Op>, lag: Lag, batch: seq<TimerId>, running: set<TimerId>,
                                    armed: set<TimerId>)
    requires NoDup(batch) && Mid(s, lag, SEC, DueOnly(s.reg, batch), running)
    requires OpsSafe(s.reg, ops) && s.reg.started && CanDrain(s, SEC) && Tracked(s, DueOnly(s.reg, batch), armed)
    ensures var r := DoOps(s, ops);
      CanDrain(r, SEC) && Tracked(r, DueOnly(r.reg, batch), ArmedByOps(s.reg, ops, armed))
    decreases |ops|
  {
    hide Tracked, Placed, Unlinked, Sane;
    if ops != [] {
      OpKeeps(s, ops[0], lag, batch, running);
      OpTracks(s, ops[0], lag, batch, running, armed);
      OpsTrack(DoOp(s, ops[0]), ops[1..], lag, batch, running, ArmedByOp(s.reg, ops[0], armed));
    }
  }

  lemma BeginTracks(s: Wheel, lag: Lag, due: seq<TimerId>, armed: set<TimerId>)
    requires Mid(s, lag, SEC, due, {}) && due != [] && NoDup(due) && Tracked(s, due, armed)
    ensures due[0] in s.reg.timers
    ensures var s1 := Unlink(s, due[0]);
      var b := s1.(reg := BeginFire(s1.reg, due[0]));
      CanDrain(b, SEC) && Tracked(b, DueOnly(b.reg, due[1..]), armed)
  {
    BeginKeeps(s, lag, due);
    var x, rest := due[0], due[1..];
    var s1 := Unlink(s, x);
    var b := s1.(reg := BeginFire(s1.reg, x));
    assert due == [x] + rest;
    DueOnlySame(s.reg, b.reg, rest);
    forall id ensures SlotHolds(b, rest, armed, id) {
      assert SlotHolds(s, due, armed, id);
    }
  }

  lemma EndTracks(s: Wheel, lag: Lag, batch: seq<TimerId>, x: TimerId, armed: set<TimerId>)
    requires Mid(s, lag, SEC, DueOnly(s.reg, batch), {x}) && s.reg.started && x !in batch && CanDrain(s, SEC)
    requires Rearms(s.reg.timers[x]) ==> SameEpoch(s.reg.lasttick, s.reg.lasttick + s.reg.timers[x].interval)
    requires Tracked(s, DueOnly(s.reg, batch), armed)
    ensures var e := s.(reg := EndFire(s.reg, x));
      var r := if Rearms(s.reg.timers[x]) then Reg(e, x, e.reg.lasttick) else e;
      |r.wheels| == WHEELS
      && Tracked(r, DueOnly(r.reg, batch), if Rearms(s.reg.timers[x]) then armed + {x} else armed - {x})
  {
    hide DueOnly, Reg, Placed;
    var e := s.(reg := EndFire(s.reg, x));
    var due := DueOnly(s.reg, batch);
    DueOnlySame(s.reg, e.reg, batch);
    assert LinkedUnlessRunning(s, {x}, x) && SaneTimer(s.reg.lasttick, s.reg.timers[x]);
    if Rearms(s.reg.timers[x]) {
      assert Tracked(e, due, armed) by {
        forall id ensures SlotHolds(e, due, armed, id) {
          assert SlotHolds(s, due, armed, id);
        }
      }
      RegTracks(e, due, armed, x);
    } else {
      forall id ensures SlotHolds(e, due, armed - {x}, id) {
        assert SlotHolds(s, due, armed, id);
      }
    }
  }

  lemma ServeTracks(s: Wheel, lag: Lag, due: seq<TimerId>, script: Script, armed: set<TimerId>)
    requires Mid(s, lag, SEC, due, {}) && due != [] && NoDup(due) && s.reg.started && Tracked(s, due, armed)
    requires due[0] in s.reg.timers && FireSafe(s.reg, due[0], script)
    ensures CanDrain(s, SEC) && List(s.wheels, Cur(s, SEC)) != [] && List(s.wheels, Cur(s, SEC))[0] == due[0]
    ensures var r := Serve(s, SEC, script);
      |r.wheels| == WHEELS && Tracked(r, DueOnly(r.reg, due[1..]), ArmedByFire(s.reg, due[0], script, armed))
  {
    hide Placed, Sane, Unlinked, Reg, DueOnly, OpsSafe, ApplyOps, DoOps, ListsAgree, Serve, CallbackOps, BeginFire,
      EndFire, FireSafe, FireOne, Rearms, Tracked, ArmedByOps;
    var x, rest := due[0], due[1..];
    FrontOfSlot(s, lag, due);
    BeginKeeps(s, lag, due);
    BeginTracks(s, lag, due, armed);
    FiringInParts(s.reg, x, script);
    assert x !in rest;
    assert NoDup(rest) by { assert forall i :: 0 <= i < |rest| ==> rest[i] == due[i + 1]; }
    var s1 := Unlink(s, x);
    var b := s1.(reg := BeginFire(s1.reg, x));
    var ops := CallbackOps(s.reg, x, script);
    OpsKeep(b, ops, lag, rest, {x});
    OpsTrack(b, ops, lag, rest, {x}, armed);
    var s2 := DoOps(b, ops);
    RunningUnlinked(s2, x);
    ServeUnfolds(s, x, script);
    EndTracks(s2, lag, rest, x, ArmedByOps(b.reg, ops, armed));
  }

  lemma {:induction false} DrainTracks(s: Wheel, lag: Lag, due: seq<TimerId>, script: Script, armed: set<TimerId>)
    requires Mid(s, lag, SEC, due, {}) && s.reg.started && CanDrain(s, SEC) && Tracked(s, due, armed)
    requires forall id :: id in due ==> Due(s.reg, id)
    requires FireDueSafe(s.reg, due, script)
    ensures var r := Drain(s, SEC, FireCount(s.reg, due, script), script);
      |r.wheels| == WHEELS && Tracked(r, [], Armed(s.reg, due, script, armed))
    decreases |due|
  {
    hide Serve, FireOne, DueOnly, Tracked, ArmedByFire;
    if due != [] {
      DueIsDue(s, lag, due);
      assert due[0] in due && Due(s.reg, due[0]);
      ServeKeeps(s, lag, due, script);
      ServeTracks(s, lag, due, script, armed);
      var s1 := Serve(s, SEC, script);
      DrainTracks(s1, lag, DueOnly(s1.reg, due[1..]), script, ArmedByFire(s.reg, due[0], script, armed));
    }
  }

  /** What is left in the slot, in terms of the callbacks: timers armed in the tick for one turn ahead. */
  lemma LeftExactly(s: Wheel, script: Script)
    requires Inv(s) && s.reg.started && IsDueOrder(s.reg, NextSlot(s))
    requires FireDueSafe(Advanced(s.reg), NextSlot(s), script)
    ensures LeftInSlot(s, script) == [] <==> NoneArmedAhead(Advanced(s.reg), NextSlot(s), script)
  {
    hide FireDue, DueOnly, Serve, Placed, Unlinked, Sane, FireDueSafe, Drain;
    TickBegins(s);
    var r, order := Turned(s), NextSlot(s);
    var lag, armed := SecLag(r.wheels), Armed(r.reg, order, script, {});
    assert Tracked(r, order, {}) by { TurnTracks(r); }
    DrainDue(r, lag, order, script);
    DrainTracks(r, lag, order, script, {});
    SlotLeft(Drain(r, SEC, FireCount(r.reg, order, script), script), lag, armed);
  }

  lemma TurnTracks(r: Wheel)
    requires Linked(r) && CanDrain(r, SEC)
    ensures Tracked(r, List(r.wheels, Cur(r, SEC)), {})
  {
    assert SlotAgrees(r.wheels, r.owner, Cur(r, SEC));
  }

  lemma SlotLeft(m: Wheel, lag: Lag, armed: set<TimerId>)
    requires Mid(m, lag, SEC, [], {}) && CanDrain(m, SEC) && Tracked(m, [], armed)
    ensures List(m.wheels, Cur(m, SEC)) == [] <==> forall id :: id in armed ==> !OneTurnAhead(m.reg, id)
  {
    var l := List(m.wheels, Cur(m, SEC));
    assert SlotAgrees(m.wheels, m.owner, Cur(m, SEC));
    if l != [] {
      assert l[0] in l;
      assert SlotHolds(m, [], armed, l[0]);
    }
    forall id | id in armed && OneTurnAhead(m.reg, id) ensures id in l {
      assert SlotHolds(m, [], armed, id);
      assert LinkedUnlessRunning(m, {}, id);
    }
  }

  /**
   * What the callbacks of a tick must not do: destroy a timer that is still due while a timer is armed
   * that expires one full turn of the first wheel after the tick.
   */
  predicate Harmless(r: Registry, order: seq<TimerId>, script: Script)
    requires forall id :: id in order ==> Due(r, id)
  {
    SparesDue(r, order, script) || NoneArmedAhead(r, order, script)
  }

  /** A tick of the wheel is the naive tick exactly if its callbacks are harmless. */
  lemma TickExactly(s: Wheel, script: Script)
    requires Inv(s) && s.reg.started && IsDueOrder(s.reg, NextSlot(s))
    requires FireDueSafe(Advanced(s.reg), NextSlot(s), script)
    ensures Tick(s, script).reg == NaiveTick(s.reg, NextSlot(s), script)
            <==> Harmless(Advanced(s.reg), NextSlot(s), script)
    ensures Harmless(Advanced(s.reg), NextSlot(s), script) ==> Inv(Tick(s, script))
  {
    hide FireDue, Placed, Unlinked, Sane, FireDueSafe, SparesDue, NoneArmedAhead, Tick;
    LeftExactly(s, script);
    SparesExactly(Advanced(s.reg), NextSlot(s), script);
    TickExact(s, script);
  }
}
