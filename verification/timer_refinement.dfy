/** The timing wheel implements the naive timer service of module TimerRegistry. */
module TimerRefinement {
  import opened Sequences
  import opened TimerRegistry
  import opened TimerWheel
  import opened TimerPlacement
  import opened TimerInvariant
  import opened TimerCallbacks

  lemma {:induction false} OpsKeep(s: Wheel, ops: seq<Op>, lag: Lag, batch: seq<TimerId>, running: set<TimerId>)
    requires NoDup(batch) && Mid(s, lag, SEC, DueOnly(s.reg, batch), running)
    requires OpsSafe(s.reg, ops) && s.reg.started
    ensures var r := DoOps(s, ops); Mid(r, lag, SEC, DueOnly(r.reg, batch), running)
    decreases |ops|
  {
    if ops != [] {
      OpKeeps(s, ops[0], lag, batch, running);
      OpsKeep(DoOp(s, ops[0]), ops[1..], lag, batch, running);
    }
  }

  /** The callback is about to run: its timer is in no slot and marked. */
  lemma BeginKeeps(s: Wheel, lag: Lag, due: seq<TimerId>)
    requires Mid(s, lag, SEC, due, {}) && due != [] && NoDup(due)
    ensures due[0] in s.reg.timers && due[0] in s.owner && Due(s.reg, due[0])
    ensures var s1 := Unlink(s, due[0]);
      var b := s1.(reg := BeginFire(s1.reg, due[0]));
      Mid(b, lag, SEC, DueOnly(b.reg, due[1..]), {due[0]})
    ensures DueOnly(s.reg, due[1..]) == due[1..]
  {
    var x, rest := due[0], due[1..];
    assert x in List(s.wheels, Cur(s, SEC));
    assert SlotAgrees(s.wheels, s.owner, Cur(s, SEC));
    assert TimerPlaced(s, lag, SEC, due, x);
    UnlinkKeeps(s, lag, SEC, due, x);
    var s1 := Unlink(s, x);
    var b := s1.(reg := BeginFire(s1.reg, x));
    forall id | id in rest ensures Due(s.reg, id) && Due(b.reg, id) {
      assert id in due && id in List(s.wheels, Cur(s, SEC)) && id in s.owner;
      assert TimerPlaced(s, lag, SEC, due, id);
    }
    DueOnlyAll(s.reg, rest);
    DueOnlyAll(b.reg, rest);
    forall id | id in b.owner ensures TimerPlaced(b, lag, SEC, rest, id) {
      assert TimerPlaced(s1, lag, SEC, rest, id);
    }
    forall id | id in b.reg.timers
      ensures LinkedUnlessRunning(b, {x}, id) && SaneTimer(b.reg.lasttick, b.reg.timers[id])
    {
      assert LinkedUnlessRunning(s, {}, id) && SaneTimer(s.reg.lasttick, s.reg.timers[id]);
    }
  }

  /** The callback is over: the timer is linked again for its next expiry, or forgotten. */
  lemma EndKeeps(s: Wheel, lag: Lag, batch: seq<TimerId>, x: TimerId)
    requires Mid(s, lag, SEC, DueOnly(s.reg, batch), {x}) && s.reg.started && x !in batch
    requires Rearms(s.reg.timers[x]) ==> SameEpoch(s.reg.lasttick, s.reg.lasttick + s.reg.timers[x].interval)
    ensures var e := s.(reg := EndFire(s.reg, x));
      var r := if Rearms(s.reg.timers[x]) then Reg(e, x, e.reg.lasttick) else e;
      Mid(r, lag, SEC, DueOnly(r.reg, batch), {})
  {
    hide DueOnly, Reg, Sane, Placed;
    var e := s.(reg := EndFire(s.reg, x));
    var due := DueOnly(s.reg, batch);
    DueOnlySame(s.reg, e.reg, batch);
    assert LinkedUnlessRunning(s, {x}, x);
    if Rearms(s.reg.timers[x]) {
      RearmKeeps(s, lag, due, x);
    } else {
      ForgetKeeps(s, x, lag, SEC, due, {x});
      assert {x} - {x} == {};
    }
  }

  lemma RearmKeeps(s: Wheel, lag: Lag, due: seq<TimerId>, x: TimerId)
    requires Mid(s, lag, SEC, due, {x}) && s.reg.started && x !in due && x in s.reg.timers
    requires SameEpoch(s.reg.lasttick, s.reg.lasttick + s.reg.timers[x].interval)
    ensures var e := s.(reg := s.reg.(timers := s.reg.timers[x := Rearmed(s.reg.timers[x], s.reg.lasttick)]));
      Mid(Reg(e, x, e.reg.lasttick), lag, SEC, due, {})
  {
    var e := s.(reg := s.reg.(timers := s.reg.timers[x := Rearmed(s.reg.timers[x], s.reg.lasttick)]));
    assert LinkedUnlessRunning(s, {x}, x) && SaneTimer(s.reg.lasttick, s.reg.timers[x]);
    forall id | id in e.owner ensures TimerPlaced(e, lag, SEC, due, id) {
      assert TimerPlaced(s, lag, SEC, due, id);
    }
    forall id | id in e.reg.timers ensures SaneTimer(e.reg.lasttick, e.reg.timers[id]) {
      assert SaneTimer(s.reg.lasttick, s.reg.timers[id]);
    }
    forall id | id in e.reg.timers && id != x ensures LinkedUnlessRunning(e, {}, id) {
      assert LinkedUnlessRunning(s, {x}, id);
    }
    RegKeeps(e, lag, SEC, due, {}, x);
  }

  lemma FrontOfSlot(s: Wheel, lag: Lag, due: seq<TimerId>)
    requires Mid(s, lag, SEC, due, {}) && due != []
    ensures CanDrain(s, SEC) && List(s.wheels, Cur(s, SEC)) != [] && List(s.wheels, Cur(s, SEC))[0] == due[0]
  {
  }

  /** A round of the loop, when the callback leaves its own timer out of every slot. */
  lemma ServeUnfolds(s: Wheel, x: TimerId, script: Script)
    requires Linked(s) && CanDrain(s, SEC) && List(s.wheels, Cur(s, SEC)) != [] && List(s.wheels, Cur(s, SEC))[0] == x
    requires x in s.reg.timers
    requires var s1 := Unlink(s, x);
      x !in DoOps(s1.(reg := BeginFire(s1.reg, x)), CallbackOps(s.reg, x, script)).owner
    ensures var s1 := Unlink(s, x);
      var s2 := DoOps(s1.(reg := BeginFire(s1.reg, x)), CallbackOps(s.reg, x, script));
      var e := s2.(reg := EndFire(s2.reg, x));
      Serve(s, SEC, script) == if Rearms(s2.reg.timers[x]) then Reg(e, x, e.reg.lasttick) else e
  {
    hide DoOps, ApplyOps, Reg, CallbackOps, ListsAgree, EndFire;
    LinkedShape(s);
  }

  /** One round of the first wheel's loop serves the head of what is due, as the naive service does. */
  lemma ServeKeeps(s: Wheel, lag: Lag, due: seq<TimerId>, script: Script)
    requires Mid(s, lag, SEC, due, {}) && due != [] && NoDup(due) && s.reg.started
    requires due[0] in s.reg.timers && FireSafe(s.reg, due[0], script)
    ensures List(s.wheels, Cur(s, SEC)) != [] && List(s.wheels, Cur(s, SEC))[0] == due[0]
    ensures var r := Serve(s, SEC, script);
      r.reg == FireOne(s.reg, due[0], script) && Mid(r, lag, SEC, DueOnly(r.reg, due[1..]), {})
  {
    hide Placed, Sane, Unlinked, Reg, DueOnly, OpsSafe, ApplyOps, DoOps, ListsAgree, Serve, CallbackOps, BeginFire,
      EndFire, FireSafe, FireOne, Rearms;
    var x, rest := due[0], due[1..];
    FrontOfSlot(s, lag, due);
    BeginKeeps(s, lag, due);
    FiringInParts(s.reg, x, script);
    assert x !in rest;
    assert NoDup(rest) by { assert forall i :: 0 <= i < |rest| ==> rest[i] == due[i + 1]; }
    var s1 := Unlink(s, x);
    var b := s1.(reg := BeginFire(s1.reg, x));
    var ops := CallbackOps(s.reg, x, script);
    OpsKeep(b, ops, lag, rest, {x});
    var s2 := DoOps(b, ops);
    RunningUnlinked(s2, x);
    ServeUnfolds(s, x, script);
    EndKeeps(s2, lag, rest, x);
  }

  lemma RunningUnlinked(s: Wheel, x: TimerId)
    requires Unlinked(s, {x})
    ensures x in s.reg.timers && x !in s.owner
  {
    assert LinkedUnlessRunning(s, {x}, x);
  }

  lemma FiringInParts(r: Registry, x: TimerId, script: Script)
    requires x in r.timers && FireSafe(r, x, script) && r.started
    ensures var b, ops := BeginFire(r, x), CallbackOps(r, x, script);
      var e := ApplyOps(b, ops);
      && b.started && x in e.timers && OpsSafe(b, ops) && FireOne(r, x, script) == EndFire(e, x)
      && (Rearms(e.timers[x]) ==> SameEpoch(e.lasttick, e.lasttick + e.timers[x].interval))
  {
  }

  lemma DueIsDue(s: Wheel, lag: Lag, due: seq<TimerId>)
    requires Mid(s, lag, SEC, due, {})
    ensures forall id :: id in due <==> Due(s.reg, id)
    ensures NoDup(due)
  {
    if due != [] {
      var l := List(s.wheels, Cur(s, SEC));
      assert SlotAgrees(s.wheels, s.owner, Cur(s, SEC));
      assert forall i :: 0 <= i < |due| ==> due[i] == l[i];
    }
    forall id ensures id in due <==> Due(s.reg, id) {
      if id in due {
        assert id in List(s.wheels, Cur(s, SEC)) && id in s.owner;
        assert TimerPlaced(s, lag, SEC, due, id);
      } else if id in s.reg.timers {
        assert LinkedUnlessRunning(s, {}, id);
        assert TimerPlaced(s, lag, SEC, due, id);
      }
    }
  }

  /**
   * The first rounds of the loop, one for each timer fired, do what the naive service does, whatever
   * the callbacks register or destroy; nothing that is due is left after them.
   */
  lemma {:induction false} DrainDue(s: Wheel, lag: Lag, due: seq<TimerId>, script: Script)
    requires Mid(s, lag, SEC, due, {}) && s.reg.started && 0 <= s.wheels[SEC].cur
    requires forall id :: id in due ==> Due(s.reg, id)
    requires FireDueSafe(s.reg, due, script)
    ensures var r := Drain(s, SEC, FireCount(s.reg, due, script), script);
      r.reg == FireDue(s.reg, due, script) && Mid(r, lag, SEC, [], {})
    decreases |due|
  {
    hide Serve, FireOne, DueOnly;
    if due != [] {
      DueIsDue(s, lag, due);
      assert due[0] in due && Due(s.reg, due[0]);
      ServeKeeps(s, lag, due, script);
      var s1 := Serve(s, SEC, script);
      DrainDue(s1, lag, DueOnly(s1.reg, due[1..]), script);
    }
  }

  lemma {:induction false} DrainSplit(s: Wheel, w: int, a: nat, b: nat, script: Script)
    requires Linked(s) && CanDrain(s, w)
    ensures Drain(s, w, a + b, script) == Drain(Drain(s, w, a, script), w, b, script)
    decreases a
  {
    hide Serve;
    if a > 0 {
      if List(s.wheels, Cur(s, w)) == [] {
        DrainSplit(s, w, a - 1, b, script);
      } else {
        DrainSplit(Serve(s, w, script), w, a - 1, b, script);
      }
    }
  }

  lemma {:induction false} DrainEmpty(s: Wheel, w: int, pops: nat, script: Script)
    requires Linked(s) && CanDrain(s, w) && List(s.wheels, Cur(s, w)) == []
    ensures Drain(s, w, pops, script) == s
  {
    if pops > 0 {
      DrainEmpty(s, w, pops - 1, script);
    }
  }

  /** With nothing due it does not matter which wheel is looked at. */
  lemma NothingDue(s: Wheel, lag: Lag, w: int, v: int)
    requires Mid(s, lag, w, [], {})
    ensures Mid(s, lag, v, [], {})
  {
    forall id | id in s.owner ensures TimerPlaced(s, lag, v, [], id) {
      assert TimerPlaced(s, lag, w, [], id);
    }
  }

  /** The timers that the next tick finds in the slot it turns to. */
  function NextSlot(s: Wheel): seq<TimerId>
    requires Shape(s.wheels)
  {
    List(s.wheels, Slot(SEC, NextCursor(SEC, s.wheels[SEC].cur)))
  }

  ghost function Turned(s: Wheel): (r: Wheel)
    requires Linked(s)
    ensures Linked(r) && CanDrain(r, SEC) && r.reg == Advanced(s.reg)
    ensures List(r.wheels, Cur(r, SEC)) == NextSlot(s)
  {
    Turn(s.(reg := Advanced(s.reg)), SEC)
  }

  /** As the first wheel turns, the slot it turns to holds exactly what has become due. */
  lemma TickBegins(s: Wheel)
    requires Inv(s) && s.reg.started
    ensures IsDueOrder(s.reg, NextSlot(s))
    ensures var r := Turned(s); Mid(r, SecLag(r.wheels), SEC, NextSlot(s), {})
  {
    var r := Turned(s);
    var due := NextSlot(s);
    forall id | id in r.owner ensures TimerPlaced(r, SecLag(r.wheels), SEC, due, id) {
      assert TimerPlaced(s, NoLag, SEC, [], id);
      assert SlotAgrees(r.wheels, r.owner, Cur(r, SEC));
      SecTurn(s.wheels, r.wheels, s.reg.timers[id].expire - s.reg.lasttick, s.owner[id]);
    }
    forall id | id in r.reg.timers
      ensures LinkedUnlessRunning(r, {}, id) && SaneTimer(r.reg.lasttick, r.reg.timers[id])
    {
      assert LinkedUnlessRunning(s, {}, id) && SaneTimer(s.reg.lasttick, s.reg.timers[id]);
      assert TimerPlaced(s, NoLag, SEC, [], id);
    }
    DueIsDue(r, SecLag(r.wheels), due);
  }

  /** The loop over a slot of an upper wheel moves all its timers on and fires none. */
  lemma {:induction false} UpperDrain(s: Wheel, lag: Lag, w: int, due: seq<TimerId>, script: Script)
    requires Mid(s, lag, w, due, {}) && HOUR <= w < WHEELS && CanDrain(s, w) && s.reg.started
    ensures var r := Drain(s, w, |due|, script);
      r.reg == s.reg && Mid(r, lag, w, [], {}) && SameCursors(s.wheels, r.wheels)
    decreases |due|
  {
    hide Serve, Placed, Unlinked, Sane;
    if due != [] {
      MoveDown(s, lag, w, due, script);
      UpperDrain(Serve(s, w, script), lag, w, due[1..], script);
    }
  }

  lemma MoveDown(s: Wheel, lag: Lag, w: int, due: seq<TimerId>, script: Script)
    requires Mid(s, lag, w, due, {}) && HOUR <= w < WHEELS && s.reg.started && due != []
    ensures CanDrain(s, w) && List(s.wheels, Cur(s, w)) != []
    ensures var r := Serve(s, w, script);
      r.reg == s.reg && Mid(r, lag, w, due[1..], {}) && SameCursors(s.wheels, r.wheels)
  {
    var x := due[0];
    assert SlotAgrees(s.wheels, s.owner, Cur(s, w));
    assert x in List(s.wheels, Cur(s, w));
    assert forall i :: 0 <= i < |due| ==> due[i] == List(s.wheels, Cur(s, w))[i];
    assert forall i :: 0 <= i < |due[1..]| ==> due[1..][i] == due[i + 1];
    assert TimerPlaced(s, lag, w, due, x) && LinkedUnlessRunning(s, {}, x);
    UnlinkKeeps(s, lag, w, due, x);
    var s1 := Unlink(s, x);
    forall id | id in s1.reg.timers && id != x ensures LinkedUnlessRunning(s1, {}, id) {
      assert LinkedUnlessRunning(s, {}, id);
    }
    RegKeeps(s1, lag, w, due[1..], {}, x);
  }

  lemma HourTurnKeeps(s: Wheel)
    requires Mid(s, HourLag, SEC, [], {})
    ensures var r := Turn(s, HOUR);
      Mid(r, HourTurnLag(r.wheels), HOUR, List(r.wheels, Cur(r, HOUR)), {})
  {
    var r := Turn(s, HOUR);
    assert SlotAgrees(r.wheels, r.owner, Cur(r, HOUR));
    forall id | id in r.owner
      ensures TimerPlaced(r, HourTurnLag(r.wheels), HOUR, List(r.wheels, Cur(r, HOUR)), id)
    {
      assert TimerPlaced(s, HourLag, SEC, [], id);
      HourTurn(s.wheels, r.wheels, s.reg.timers[id].expire - s.reg.lasttick, s.owner[id]);
    }
    forall id | id in r.reg.timers ensures LinkedUnlessRunning(r, {}, id) {
      assert LinkedUnlessRunning(s, {}, id);
    }
  }

  lemma DayTurnKeeps(s: Wheel)
    requires Mid(s, DayLag, SEC, [], {})
    ensures var r := Turn(s, DAY); Mid(r, NoLag, DAY, List(r.wheels, Cur(r, DAY)), {})
  {
    var r := Turn(s, DAY);
    assert SlotAgrees(r.wheels, r.owner, Cur(r, DAY));
    forall id | id in r.owner ensures TimerPlaced(r, NoLag, DAY, List(r.wheels, Cur(r, DAY)), id) {
      assert TimerPlaced(s, DayLag, SEC, [], id);
      DayTurn(s.wheels, r.wheels, s.reg.timers[id].expire - s.reg.lasttick, s.owner[id]);
    }
    forall id | id in r.reg.timers ensures LinkedUnlessRunning(r, {}, id) {
      assert LinkedUnlessRunning(s, {}, id);
    }
  }

  lemma FireDay(s: Wheel, script: Script)
    requires Mid(s, DayLag, SEC, [], {}) && s.reg.started
    ensures var r := Fire(s, DAY, script); r.reg == s.reg && Inv(r)
  {
    DayTurnKeeps(s);
    var s1 := Turn(s, DAY);
    UpperDrain(s1, NoLag, DAY, List(s1.wheels, Cur(s1, DAY)), script);
    NothingDue(Fire(s, DAY, script), NoLag, DAY, SEC);
  }

  lemma FireHour(s: Wheel, script: Script)
    requires Mid(s, HourLag, SEC, [], {}) && s.reg.started
    ensures var r := Fire(s, HOUR, script); r.reg == s.reg && Inv(r)
  {
    HourTurnKeeps(s);
    var s1 := Turn(s, HOUR);
    var lag := HourTurnLag(s1.wheels);
    var due := List(s1.wheels, Cur(s1, HOUR));
    UpperDrain(s1, lag, HOUR, due, script);
    var s2 := Drain(s1, HOUR, |due|, script);
    NothingDue(s2, lag, HOUR, SEC);
    if lag == DayLag {
      FireDay(s2, script);
    }
  }

  /** What is left in the slot once the timers due in this tick have been served. */
  ghost function LeftInSlot(s: Wheel, script: Script): seq<TimerId>
    requires Linked(s) && IsDueOrder(s.reg, NextSlot(s))
  {
    var r := Turned(s);
    var m := Drain(r, SEC, FireCount(r.reg, NextSlot(s), script), script);
    List(m.wheels, Cur(m, SEC))
  }

  /** No round of the loop is left over for a timer that is not due. */
  ghost predicate NoSpareRound(s: Wheel, script: Script)
    requires Linked(s) && IsDueOrder(s.reg, NextSlot(s))
  {
    FireCount(Advanced(s.reg), NextSlot(s), script) == |NextSlot(s)| || LeftInSlot(s, script) == []
  }

  /**
   * One tick of the wheel, over all wheels and cascades, is the naive tick, if and only if no round of
   * the drain loop is left over for a timer that is not due.
   */
  lemma TickExact(s: Wheel, script: Script)
    requires Inv(s) && s.reg.started && IsDueOrder(s.reg, NextSlot(s))
    requires FireDueSafe(Advanced(s.reg), NextSlot(s), script)
    ensures Tick(s, script).reg == NaiveTick(s.reg, NextSlot(s), script) <==> NoSpareRound(s, script)
    ensures NoSpareRound(s, script) ==> Inv(Tick(s, script))
  {
    hide FireDue, DueOnly, Serve, Placed, Unlinked, Sane, FireDueSafe;
    TickBegins(s);
    var order, r := NextSlot(s), Turned(s);
    var lag := SecLag(r.wheels);
    var f := FireCount(r.reg, order, script);
    DrainDue(r, lag, order, script);
    var m := Drain(r, SEC, f, script);
    DrainSplit(r, SEC, f, |order| - f, script);
    var e := Drain(m, SEC, |order| - f, script);
    assert e == Drain(r, SEC, |order|, script);
    if NoSpareRound(s, script) {
      if f < |order| {
        DrainEmpty(m, SEC, |order| - f, script);
      }
      assert e == m;
      if lag == HourLag {
        FireHour(e, script);
      }
    } else {
      SpareRound(m, |order| - f, script);
    }
  }

  /** A spare round fires somebody. */
  lemma SpareRound(m: Wheel, pops: nat, script: Script)
    requires Linked(m) && CanDrain(m, SEC) && pops > 0 && List(m.wheels, Cur(m, SEC)) != []
    ensures |Drain(m, SEC, pops, script).reg.log| > |m.reg.log|
  {
  }

  /** Whatever is left is due when the first wheel has made one full turn, and not before. */
  lemma LeftIsOneTurnAway(m: Wheel, lag: Lag, x: TimerId)
    requires Mid(m, lag, SEC, [], {}) && CanDrain(m, SEC) && x in List(m.wheels, Cur(m, SEC))
    ensures x in m.reg.timers && m.reg.timers[x].expire == m.reg.lasttick + 1000
  {
    assert SlotAgrees(m.wheels, m.owner, Cur(m, SEC));
    assert TimerPlaced(m, lag, SEC, [], x);
  }
}
