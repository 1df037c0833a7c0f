/** The placement invariant of the wheel, and why every step of every tick keeps it. */
module TimerInvariant {
  import opened Sequences
  import opened TimerRegistry
  import opened TimerWheel
  import opened TimerPlacement

  /** The timers whose callback is running are the registered timers that are in no slot. */
  ghost predicate Unlinked(s: Wheel, running: set<TimerId>) {
    && running <= s.reg.timers.Keys
    && forall id {:trigger LinkedUnlessRunning(s, running, id)} ::
      id in s.reg.timers ==> LinkedUnlessRunning(s, running, id)
  }

  ghost predicate LinkedUnlessRunning(s: Wheel, running: set<TimerId>, id: TimerId)
    requires id in s.reg.timers
  {
    (id in s.owner <==> id !in running) && (s.reg.timers[id].inProc <==> id in running)
  }

  /**
   * Every linked timer is where it should be.  While the current slot of wheel `w` is drained, `due`
   * is the front of that slot that is still to be served; it has become due with this very tick.
   */
  ghost predicate Placed(s: Wheel, lag: Lag, w: int, due: seq<TimerId>)
    requires Linked(s)
  {
    && (due != [] ==> CanDrain(s, w) && due <= List(s.wheels, Cur(s, w)))
    && forall id {:trigger TimerPlaced(s, lag, w, due, id)} ::
      id in s.owner ==> TimerPlaced(s, lag, w, due, id)
  }

  ghost predicate TimerPlaced(s: Wheel, lag: Lag, w: int, due: seq<TimerId>, id: TimerId)
    requires Linked(s) && id in s.owner
  {
    var remain := s.reg.timers[id].expire - s.reg.lasttick;
    if id in due then (if w == SEC then remain == 0 else remain > 0)
    else PlacedAt(s.wheels, lag, remain, s.owner[id])
  }

  /** The state in the middle of a tick. */
  ghost predicate Mid(s: Wheel, lag: Lag, w: int, due: seq<TimerId>, running: set<TimerId>) {
    && Linked(s) && Sane(s.reg) && LagFits(s.wheels, lag)
    && Placed(s, lag, w, due) && Unlinked(s, running)
  }

  /** The invariant between operations: every registered timer is linked, once, in the right slot. */
  ghost predicate Inv(s: Wheel) {
    Mid(s, NoLag, SEC, [], {})
  }

  /** Placement looks at the cursors only, not at the lists. */
  lemma SameVisit(a: seq<TimeWheel>, b: seq<TimeWheel>, lag: Lag, remain: int, sl: Slot)
    requires |a| == WHEELS && SameCursors(a, b) && ValidSlot(sl)
    ensures PlacedAt(a, lag, remain, sl) == PlacedAt(b, lag, remain, sl)
    ensures LagFits(a, lag) == LagFits(b, lag)
  {
  }

  lemma FrontAfterPush(s: Wheel, w: int, due: seq<TimerId>, sl: Slot, x: TimerId)
    requires Linked(s) && ValidSlot(sl) && x in s.reg.timers
    requires CanDrain(s, w) && due <= List(s.wheels, Cur(s, w))
    ensures var r := Push(s, sl, x); CanDrain(r, w) && due <= List(r.wheels, Cur(r, w))
  {
  }

  lemma PushKeeps(s: Wheel, lag: Lag, w: int, due: seq<TimerId>, sl: Slot, x: TimerId)
    requires Linked(s) && ValidSlot(sl) && LagFits(s.wheels, lag) && Placed(s, lag, w, due)
    requires x in s.reg.timers && x !in s.owner && x !in due
    requires PlacedAt(s.wheels, lag, s.reg.timers[x].expire - s.reg.lasttick, sl)
    ensures var r := Push(s, sl, x);
      r.owner == s.owner[x := sl] && LagFits(r.wheels, lag) && Placed(r, lag, w, due)
  {
    var r := Push(s, sl, x);
    assert r.owner == s.owner[x := sl];
    if due != [] {
      FrontAfterPush(s, w, due, sl, x);
    }
    forall id | id in r.owner ensures TimerPlaced(r, lag, w, due, id) {
      assert id != x ==> TimerPlaced(s, lag, w, due, id);
      SameVisit(s.wheels, r.wheels, lag, s.reg.timers[id].expire - s.reg.lasttick, r.owner[id]);
    }
    SameVisit(s.wheels, r.wheels, lag, 0, sl);
  }

  lemma RegSlot(s: Wheel, lag: Lag, x: TimerId)
    requires Linked(s) && LagFits(s.wheels, lag) && x in s.reg.timers
    requires SaneTimer(s.reg.lasttick, s.reg.timers[x]) && s.reg.lasttick < s.reg.timers[x].expire
    ensures PlacedAt(s.wheels, lag, s.reg.timers[x].expire - s.reg.lasttick,
                     Place(s.wheels, SEC, CalRemain(s.reg.lasttick, s.reg.timers[x].expire)))
  {
    var tick, expire := s.reg.lasttick, s.reg.timers[x].expire;
    CalRemainExact(tick, expire);
    PlaceFits(s.wheels, lag, expire - tick);
  }

  /** Linking a timer that has been given a new expiry. */
  lemma RegKeeps(s: Wheel, lag: Lag, w: int, due: seq<TimerId>, running: set<TimerId>, x: TimerId)
    requires Linked(s) && Sane(s.reg) && LagFits(s.wheels, lag) && Placed(s, lag, w, due)
    requires x in s.reg.timers && x !in s.owner && s.reg.lasttick < s.reg.timers[x].expire
    requires x !in due && x !in running && !s.reg.timers[x].inProc && running <= s.reg.timers.Keys
    requires forall id :: id in s.reg.timers && id != x ==> LinkedUnlessRunning(s, running, id)
    ensures Mid(Reg(s, x, s.reg.lasttick), lag, w, due, running)
  {
    assert SaneTimer(s.reg.lasttick, s.reg.timers[x]);
    RegSlot(s, lag, x);
    var sl := Place(s.wheels, SEC, CalRemain(s.reg.lasttick, s.reg.timers[x].expire));
    PushKeeps(s, lag, w, due, sl, x);
    var r := Push(s, sl, x);
    forall id | id in r.reg.timers ensures LinkedUnlessRunning(r, running, id) {
      assert id != x ==> LinkedUnlessRunning(s, running, id);
    }
  }

  lemma FrontAfterUnlink(s: Wheel, w: int, due: seq<TimerId>, x: TimerId)
    requires Linked(s) && CanDrain(s, w) && due <= List(s.wheels, Cur(s, w)) && x in s.owner
    ensures var r := Unlink(s, x); CanDrain(r, w) && Without(due, x) <= List(r.wheels, Cur(r, w))
  {
    var sl := Cur(s, w);
    var l := List(s.wheels, sl);
    var rest := l[|due|..];
    assert l == due + rest;
    assert SlotAgrees(s.wheels, s.owner, sl);
    if s.owner[x] == sl {
      WithoutSplit(due, rest, x);
    } else {
      assert x !in l;
      assert x !in due;
    }
  }

  /** Taking a timer out of its slot. */
  lemma UnlinkKeeps(s: Wheel, lag: Lag, w: int, due: seq<TimerId>, x: TimerId)
    requires Linked(s) && LagFits(s.wheels, lag) && Placed(s, lag, w, due) && NoDup(due)
    requires x in s.owner
    ensures var r := Unlink(s, x);
      LagFits(r.wheels, lag) && Placed(r, lag, w, Without(due, x))
  {
    var r := Unlink(s, x);
    var due' := Without(due, x);
    WithoutKeepsNoDup(due, x);
    if due != [] {
      FrontAfterUnlink(s, w, due, x);
    }
    forall id | id in r.owner ensures TimerPlaced(r, lag, w, due', id) {
      assert TimerPlaced(s, lag, w, due, id);
      SameVisit(s.wheels, r.wheels, lag, s.reg.timers[id].expire - s.reg.lasttick, r.owner[id]);
    }
    SameVisit(s.wheels, r.wheels, lag, 0, s.owner[x]);
  }

  /** One call from a client or a callback.  `batch` holds what was to be fired when the tick began. */
  lemma OpKeeps(s: Wheel, op: Op, lag: Lag, batch: seq<TimerId>, running: set<TimerId>)
    requires NoDup(batch) && Mid(s, lag, SEC, DueOnly(s.reg, batch), running)
    requires OpSafe(s.reg, op) && (s.reg.started || batch == [])
    ensures var r := DoOp(s, op);
      Mid(r, lag, SEC, DueOnly(r.reg, batch), running) && (s.reg.started ==> r.reg.started)
  {
    if op.Register? {
      RegisterKeeps(s, op, lag, batch, running);
    } else {
      DestroyKeeps(s, op.id, lag, batch, running);
    }
  }

  lemma RegisterKeeps(s: Wheel, op: Op, lag: Lag, batch: seq<TimerId>, running: set<TimerId>)
    requires NoDup(batch) && Mid(s, lag, SEC, DueOnly(s.reg, batch), running)
    requires op.Register? && OpSafe(s.reg, op) && (s.reg.started || batch == [])
    ensures var r := Registered(s, op); Mid(r, lag, SEC, DueOnly(r.reg, batch), running)
  {
    if Accepts(s.reg, op) {
      var x := op.guid;
      var s1 := s.(reg := ApplyRegister(s.reg, op));
      var due := DueOnly(s.reg, batch);
      assert s1.reg.started;
      DueOnlySame(s.reg, s1.reg, batch);
      forall id | id in s1.reg.timers ensures SaneTimer(s1.reg.lasttick, s1.reg.timers[id]) {
        assert id != x ==> SaneTimer(s.reg.lasttick, s.reg.timers[id]);
      }
      forall id | id in s1.owner ensures TimerPlaced(s1, lag, SEC, due, id) {
        assert TimerPlaced(s, lag, SEC, due, id);
      }
      forall id | id in s1.reg.timers && id != x ensures LinkedUnlessRunning(s1, running, id) {
        assert LinkedUnlessRunning(s, running, id);
      }
      RegKeeps(s1, lag, SEC, due, running, x);
    }
  }

  /** A change to the marks of a running timer moves nothing. */
  lemma MarkKeeps(s: Wheel, x: TimerId, t: Timer, lag: Lag, batch: seq<TimerId>, running: set<TimerId>)
    requires Mid(s, lag, SEC, DueOnly(s.reg, batch), running)
    requires x in s.reg.timers && s.reg.timers[x].inProc && t.inProc
    requires t.expire == s.reg.timers[x].expire && t.interval == s.reg.timers[x].interval
    ensures var r := s.(reg := s.reg.(timers := s.reg.timers[x := t]));
      Mid(r, lag, SEC, DueOnly(r.reg, batch), running)
  {
    var r := s.(reg := s.reg.(timers := s.reg.timers[x := t]));
    var due := DueOnly(s.reg, batch);
    DueOnlySame(s.reg, r.reg, batch);
    forall id | id in r.owner ensures TimerPlaced(r, lag, SEC, due, id) {
      assert TimerPlaced(s, lag, SEC, due, id);
    }
    forall id | id in r.reg.timers
      ensures LinkedUnlessRunning(r, running, id) && SaneTimer(r.reg.lasttick, r.reg.timers[id])
    {
      assert LinkedUnlessRunning(s, running, id) && SaneTimer(s.reg.lasttick, s.reg.timers[id]);
    }
  }

  /** Forgetting a timer that is in no slot. */
  lemma ForgetKeeps(s: Wheel, x: TimerId, lag: Lag, w: int, due: seq<TimerId>, running: set<TimerId>)
    requires Linked(s) && Sane(s.reg) && LagFits(s.wheels, lag) && Placed(s, lag, w, due)
    requires x !in s.owner && s.reg.started && running <= s.reg.timers.Keys
    requires forall id :: id in s.reg.timers && id != x ==> LinkedUnlessRunning(s, running, id)
    ensures var r := s.(reg := s.reg.(timers := s.reg.timers - {x}));
      Mid(r, lag, w, due, running - {x})
  {
    var r := s.(reg := s.reg.(timers := s.reg.timers - {x}));
    forall id | id in r.owner ensures id in r.reg.timers && TimerPlaced(r, lag, w, due, id) {
      assert TimerPlaced(s, lag, w, due, id);
    }
    forall id | id in r.reg.timers
      ensures LinkedUnlessRunning(r, running - {x}, id) && SaneTimer(r.reg.lasttick, r.reg.timers[id])
    {
      assert LinkedUnlessRunning(s, running, id) && SaneTimer(s.reg.lasttick, s.reg.timers[id]);
    }
  }

  lemma DeleteKeeps(s: Wheel, x: TimerId, lag: Lag, batch: seq<TimerId>, running: set<TimerId>)
    requires NoDup(batch) && Mid(s, lag, SEC, DueOnly(s.reg, batch), running)
    requires x in s.owner
    ensures var r := Delete(s, x); Mid(r, lag, SEC, DueOnly(r.reg, batch), running)
  {
    var s1, r := Unlink(s, x), Delete(s, x);
    var due := DueOnly(s.reg, batch);
    assert LinkedUnlessRunning(s, running, x);
    DueOnlyNoDup(s.reg, batch);
    UnlinkKeeps(s, lag, SEC, due, x);
    forall id | id in s1.reg.timers && id != x ensures LinkedUnlessRunning(s1, running, id) {
      assert LinkedUnlessRunning(s, running, id);
    }
    ForgetKeeps(s1, x, lag, SEC, Without(due, x), running);
    assert running - {x} == running;
    DueOnlyWithout(s.reg, r.reg, batch, x);
  }

  lemma DestroyKeeps(s: Wheel, x: TimerId, lag: Lag, batch: seq<TimerId>, running: set<TimerId>)
    requires NoDup(batch) && Mid(s, lag, SEC, DueOnly(s.reg, batch), running)
    ensures var r := Destroyed(s, x); Mid(r, lag, SEC, DueOnly(r.reg, batch), running)
  {
    if x != INVALID_TIMER_ID && x in s.reg.timers {
      if s.reg.timers[x].inProc {
        MarkKeeps(s, x, s.reg.timers[x].(forever := false, repeats := 0), lag, batch, running);
      } else {
        assert LinkedUnlessRunning(s, running, x);
        DeleteKeeps(s, x, lag, batch, running);
      }
    }
  }
}
