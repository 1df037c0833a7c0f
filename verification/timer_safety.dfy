/** Conditions on callbacks that make every tick exact. */
module TimerSafety {
  import opened Sequences
  import opened TimerRegistry
  import opened TimerCallbacks
  import opened TimerExact
  import opened TimerRuns

  /** A clock that is not behind the tick counter gives the first half of what a registration needs. */
  lemma ClockNotBehind(r: Registry, op: Op)
    requires op.Register? && (r.started ==> r.lasttick <= op.now)
    ensures OpSafe(r, op) <==> (Accepts(r, op) ==> SameEpoch(StartedAt(r, op.now).lasttick, FirstExpire(op)))
  {
  }

  /** A registration is made at or after `now`, for an expiry with no multiple of 2^32 in between. */
  predicate LeavesRoom(op: Op, now: nat) {
    op.Register? ==> now <= op.now && SameEpoch(now, FirstExpire(op))
  }

  predicate AllLeaveRoom(ops: seq<Op>, now: nat) {
    forall i :: 0 <= i < |ops| ==> LeavesRoom(ops[i], now)
  }

  predicate ScriptLeavesRoom(script: Script, now: nat) {
    forall k :: 0 <= k < |script| ==> AllLeaveRoom(script[k], now)
  }

  predicate Intervals(r: Registry) {
    r.started && forall id :: id in r.timers ==> 1 <= r.timers[id].interval <= MAX_TIMEOUT
  }

  /** Room for every interval before the next multiple of 2^32. */
  predicate Room(tick: nat, now: nat) {
    tick <= now && SameEpoch(tick, now + MAX_TIMEOUT)
  }

  lemma RoomWithin(tick: nat, now: nat, x: nat)
    requires Room(tick, now) && tick <= x <= now + MAX_TIMEOUT
    ensures SameEpoch(tick, x)
  {
  }

  lemma {:induction false} OpsLeaveRoom(r: Registry, ops: seq<Op>, now: nat)
    requires AllLeaveRoom(ops, now) && Intervals(r) && Room(r.lasttick, now)
    ensures OpsSafe(r, ops) && Intervals(ApplyOps(r, ops)) && ApplyOps(r, ops).lasttick == r.lasttick
    decreases |ops|
  {
    if ops != [] {
      assert LeavesRoom(ops[0], now);
      RoomWithin(r.lasttick, now, now);
      assert forall i :: 0 <= i < |ops[1..]| ==> ops[1..][i] == ops[i + 1];
      OpsLeaveRoom(ApplyOp(r, ops[0]), ops[1..], now);
    }
  }

  lemma FiringSafe(r: Registry, x: TimerId, script: Script, now: nat)
    requires x in r.timers && ScriptLeavesRoom(script, now) && Intervals(r) && Room(r.lasttick, now)
    ensures FireSafe(r, x, script)
    ensures Intervals(FireOne(r, x, script)) && FireOne(r, x, script).lasttick == r.lasttick
  {
    var b, ops := BeginFire(r, x), CallbackOps(r, x, script);
    OpsLeaveRoom(b, ops, now);
    var t := ApplyOps(b, ops).timers[x];
    RoomWithin(r.lasttick, now, r.lasttick + t.interval);
  }

  lemma {:induction false} BatchSafe(r: Registry, order: seq<TimerId>, script: Script, now: nat)
    requires forall id :: id in order ==> Due(r, id)
    requires ScriptLeavesRoom(script, now) && Intervals(r) && Room(r.lasttick, now)
    ensures FireDueSafe(r, order, script)
    ensures Intervals(FireDue(r, order, script)) && FireDue(r, order, script).lasttick == r.lasttick
    decreases |order|
  {
    hide FireOne, FireSafe, Intervals, ScriptLeavesRoom;
    if order != [] {
      assert order[0] in order && Due(r, order[0]);
      FiringSafe(r, order[0], script, now);
      var r1 := FireOne(r, order[0], script);
      BatchSafe(r1, DueOnly(r1, order[1..]), script, now);
    }
  }

  /** The callbacks of every tick up to `now` are harmless. */
  ghost predicate HarmlessProc(r: Registry, now: nat, script: Script)
    decreases now - r.lasttick
  {
    r.started && r.lasttick < now ==>
      forall order :: IsDueOrder(r, order) ==>
        Harmless(Advanced(r), order, script) && HarmlessProc(NaiveTick(r, order, script), now, script)
  }

  /**
   * If registrations are made at or after the time of `Proc`, and no multiple of 2^32 comes within the
   * longest timeout of the present, then `Proc` is safe exactly if the callbacks of its ticks are harmless.
   */
  lemma {:induction false} HarmlessIsSafe(r: Registry, now: nat, script: Script)
    requires ScriptLeavesRoom(script, now) && Intervals(r) && Room(r.lasttick, now)
    ensures SafeProc(r, now, script) <==> HarmlessProc(r, now, script)
    decreases now - r.lasttick
  {
    hide FireDue, Harmless, ScriptLeavesRoom;
    if r.lasttick < now {
      forall order | IsDueOrder(r, order)
        ensures FireDueSafe(Advanced(r), order, script)
        ensures SafeProc(NaiveTick(r, order, script), now, script)
                <==> HarmlessProc(NaiveTick(r, order, script), now, script)
      {
        RoomWithin(r.lasttick, now, r.lasttick + 1);
        BatchSafe(Advanced(r), order, script, now);
        HarmlessIsSafe(NaiveTick(r, order, script), now, script);
      }
    }
  }

  /** Calls that destroy timers of the set `away` only, and register none of them. */
  predicate OnlyDestroys(ops: seq<Op>, away: set<TimerId>) {
    forall i :: 0 <= i < |ops| ==> if ops[i].Register? then ops[i].guid !in away else ops[i].id in away
  }

  predicate ScriptOnlyDestroys(script: Script, away: set<TimerId>) {
    forall k :: 0 <= k < |script| ==> OnlyDestroys(script[k], away)
  }

  /** None of them expires before or at `now`. */
  predicate Away(r: Registry, away: set<TimerId>, now: nat) {
    forall id :: id in away && id in r.timers ==> r.timers[id].expire > now
  }

  lemma {:induction false} OpsKeepAway(r: Registry, ops: seq<Op>, away: set<TimerId>, now: nat)
    requires OnlyDestroys(ops, away) && Away(r, away, now)
    ensures Away(ApplyOps(r, ops), away, now)
    decreases |ops|
  {
    if ops != [] {
      assert forall i :: 0 <= i < |ops[1..]| ==> ops[1..][i] == ops[i + 1];
      OpsKeepAway(ApplyOp(r, ops[0]), ops[1..], away, now);
    }
  }

  lemma FireKeepsAway(r: Registry, x: TimerId, script: Script, away: set<TimerId>, now: nat)
    requires x in r.timers && x !in away && ScriptOnlyDestroys(script, away) && Away(r, away, now)
    ensures OnlyDestroys(CallbackOps(r, x, script), away) && Away(FireOne(r, x, script), away, now)
  {
    OpsKeepAway(BeginFire(r, x), CallbackOps(r, x, script), away, now);
  }

  lemma {:induction false} AwaySpares(r: Registry, order: seq<TimerId>, script: Script, away: set<TimerId>, now: nat)
    requires r.started && forall id :: id in order ==> Due(r, id)
    requires ScriptOnlyDestroys(script, away) && Away(r, away, now) && r.lasttick <= now
    ensures SparesDue(r, order, script) && Away(FireDue(r, order, script), away, now)
    decreases |order|
  {
    hide FireOne, ScriptOnlyDestroys;
    if order != [] {
      var x, rest := order[0], order[1..];
      assert x in order && Due(r, x);
      assert forall id :: id in rest ==> id in order;
      FireKeepsAway(r, x, script, away, now);
      var r1 := FireOne(r, x, script);
      AwaySpares(r1, DueOnly(r1, rest), script, away, now);
    }
  }

  /** A condition that needs no run: what is destroyed does not expire before `Proc` is through. */
  lemma {:induction false} AwayIsHarmless(r: Registry, now: nat, script: Script, away: set<TimerId>)
    requires ScriptOnlyDestroys(script, away) && Away(r, away, now)
    ensures HarmlessProc(r, now, script)
    decreases now - r.lasttick
  {
    hide ScriptOnlyDestroys, SparesDue, FireDue, Away;
    if r.started && r.lasttick < now {
      assert Away(Advanced(r), away, now) by { AdvanceKeepsAway(r, away, now); }
      forall order | IsDueOrder(r, order)
        ensures Harmless(Advanced(r), order, script) && HarmlessProc(NaiveTick(r, order, script), now, script)
      {
        AwaySpares(Advanced(r), order, script, away, now);
        AwayIsHarmless(NaiveTick(r, order, script), now, script, away);
      }
    }
  }

  lemma AdvanceKeepsAway(r: Registry, away: set<TimerId>, now: nat)
    requires Away(r, away, now)
    ensures Away(Advanced(r), away, now)
  {
  }

  // ---------------------------------------------------------------------------------------------
  // Whole runs
  // ---------------------------------------------------------------------------------------------

  /**
   * What the server does, seen from outside: its clock goes from `last` to `end` without going back, and
   * it registers none of the timers `away`.
   */
  predicate ClockOnly(actions: seq<Action>, last: nat, end: nat, away: set<TimerId>)
    decreases |actions|
  {
    if actions == [] then last <= end
    else match actions[0]
      case Call(op) =>
        if op.Register? then last <= op.now <= end && op.guid !in away && ClockOnly(actions[1..], op.now, end, away)
        else ClockOnly(actions[1..], last, end, away)
      case ProcAt(now) => last <= now <= end && ClockOnly(actions[1..], now, end, away)
  }

  /** The state between two of these actions. */
  ghost predicate Calm(r: Registry, last: nat, end: nat, away: set<TimerId>) {
    Intervals(r) && Room(r.lasttick, end) && r.lasttick <= last && Away(r, away, end)
  }

  lemma RegisterCalm(r: Registry, op: Op, last: nat, end: nat, away: set<TimerId>)
    requires Calm(r, last, end, away) && op.Register? && last <= op.now <= end && op.guid !in away
    ensures OpSafe(r, op) && Calm(ApplyOp(r, op), op.now, end, away)
  {
    RoomWithin(r.lasttick, end, FirstExpire(op));
  }

  lemma {:induction false} ProcCalm(r: Registry, now: nat, script: Script, r': Registry, end: nat, away: set<TimerId>)
    requires NaiveProc(r, now, script, r') && r.lasttick <= now <= end && Room(r.lasttick, end)
    requires Intervals(r) && Away(r, away, end) && ScriptLeavesRoom(script, end) && ScriptOnlyDestroys(script, away)
    ensures Calm(r', now, end, away)
    decreases now - r.lasttick
  {
    hide ScriptLeavesRoom, ScriptOnlyDestroys, FireDue, Away, Intervals;
    assert r.started by { IntervalsStarted(r); }
    if r.lasttick < now {
      var order :| IsDueOrder(r, order) && NaiveProc(NaiveTick(r, order, script), now, script, r');
      assert Intervals(Advanced(r)) by { AdvanceKeepsIntervals(r); }
      AdvanceKeepsAway(r, away, end);
      RoomWithin(r.lasttick, end, r.lasttick + 1);
      BatchSafe(Advanced(r), order, script, end);
      AwaySpares(Advanced(r), order, script, away, end);
      ProcCalm(NaiveTick(r, order, script), now, script, r', end, away);
    }
  }

  lemma IntervalsStarted(r: Registry)
    requires Intervals(r)
    ensures r.started
  {
  }

  lemma AdvanceKeepsIntervals(r: Registry)
    requires Intervals(r)
    ensures Intervals(Advanced(r))
  {
  }

  lemma LeavesRoomBefore(script: Script, now: nat, end: nat, tick: nat)
    requires ScriptLeavesRoom(script, end) && tick <= now <= end && Room(tick, end)
    ensures ScriptLeavesRoom(script, now)
  {
    forall k | 0 <= k < |script| ensures AllLeaveRoom(script[k], now) {
      assert AllLeaveRoom(script[k], end);
      forall i | 0 <= i < |script[k]| ensures LeavesRoom(script[k][i], now) {
        assert LeavesRoom(script[k][i], end);
        RoomWithin(tick, end, now);
        RoomWithin(tick, end, end);
      }
    }
  }

  lemma AwayBefore(r: Registry, away: set<TimerId>, now: nat, end: nat)
    requires Away(r, away, end) && now <= end
    ensures Away(r, away, now)
  {
  }

  /**
   * A condition for whole runs that needs no run: a clock that does not go back, no multiple of 2^32
   * before the longest timeout after its end, callbacks that destroy timers only which outlast the run,
   * and register none before its end.
   */
  lemma {:induction false} CalmRunIsSafe(r: Registry, actions: seq<Action>, script: Script, last: nat, end: nat,
                                         away: set<TimerId>)
    requires Calm(r, last, end, away) && ClockOnly(actions, last, end, away)
    requires ScriptLeavesRoom(script, end) && ScriptOnlyDestroys(script, away)
    ensures SafeRun(r, actions, script)
    decreases |actions|
  {
    hide ScriptLeavesRoom, ScriptOnlyDestroys, Calm;
    if actions != [] {
      match actions[0] {
        case Call(op) =>
          if op.Register? {
            RegisterCalm(r, op, last, end, away);
            CalmRunIsSafe(ApplyOp(r, op), actions[1..], script, op.now, end, away);
          } else {
            DestroyCalm(r, op, last, end, away);
            CalmRunIsSafe(ApplyOp(r, op), actions[1..], script, last, end, away);
          }
        case ProcAt(now) =>
          ProcAtCalm(r, last, now, script, end, away);
          forall r1 | NaiveProc(r, now, script, r1) ensures SafeRun(r1, actions[1..], script) {
            CalmParts(r, last, end, away);
            ProcCalm(r, now, script, r1, end, away);
            CalmRunIsSafe(r1, actions[1..], script, now, end, away);
          }
      }
    }
  }

  lemma CalmParts(r: Registry, last: nat, end: nat, away: set<TimerId>)
    requires Calm(r, last, end, away)
    ensures Intervals(r) && Room(r.lasttick, end) && r.lasttick <= last && Away(r, away, end) && r.started
  {
  }

  lemma DestroyCalm(r: Registry, op: Op, last: nat, end: nat, away: set<TimerId>)
    requires Calm(r, last, end, away) && op.Destroy?
    ensures OpSafe(r, op) && Calm(ApplyOp(r, op), last, end, away)
  {
  }

  lemma ProcAtCalm(r: Registry, last: nat, now: nat, script: Script, end: nat, away: set<TimerId>)
    requires Calm(r, last, end, away) && last <= now <= end
    requires ScriptLeavesRoom(script, end) && ScriptOnlyDestroys(script, away)
    ensures SafeProc(r, now, script)
  {
    hide ScriptLeavesRoom, ScriptOnlyDestroys;
    LeavesRoomBefore(script, now, end, r.lasttick);
    AwayBefore(r, away, now, end);
    RoomWithin(r.lasttick, end, now + MAX_TIMEOUT);
    AwayIsHarmless(r, now, script, away);
    HarmlessIsSafe(r, now, script);
  }

  /** A timer destroyed by its own callback fires no more, whatever else the callback does. */
  lemma SelfDestroyDeferred(r: Registry, x: TimerId, script: Script)
    requires x in r.timers && x != INVALID_TIMER_ID && Destroy(x) in CallbackOps(r, x, script)
    ensures x !in FireOne(r, x, script).timers
  {
    SelfDestroyMarks(BeginFire(r, x), CallbackOps(r, x, script), x);
  }

  lemma {:induction false} SelfDestroyMarks(r: Registry, ops: seq<Op>, x: TimerId)
    requires x in r.timers && r.timers[x].inProc && x != INVALID_TIMER_ID
    ensures x in ApplyOps(r, ops).timers
    ensures Destroy(x) in ops || r.timers[x].(forever := false, repeats := 0) == r.timers[x] ==>
      !ApplyOps(r, ops).timers[x].forever && ApplyOps(r, ops).timers[x].repeats == 0
    decreases |ops|
  {
    if ops != [] {
      assert ops == [ops[0]] + ops[1..];
      SelfDestroyMarks(ApplyOp(r, ops[0]), ops[1..], x);
    }
  }
}
