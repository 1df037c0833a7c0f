/** Whole runs of the timer manager: the wheel against the naive service, and what a timer sees. */
module TimerRuns {
  import opened Sequences
  import opened TimerRegistry
  import opened TimerWheel
  import opened TimerPlacement
  import opened TimerInvariant
  import opened TimerCallbacks
  import opened TimerRefinement
  import opened TimerExact

  /** What the server does between callbacks: a registration, a destruction, or a call of `Proc`. */
  datatype Action = Call(op: Op) | ProcAt(now: nat)

  ghost function Act(s: Wheel, a: Action, script: Script): (r: Wheel)
    requires Linked(s)
    ensures Linked(r)
  {
    match a
    case Call(op) => DoOp(s, op)
    case ProcAt(now) => Proc(s, now, script)
  }

  ghost function Run(s: Wheel, actions: seq<Action>, script: Script): (r: Wheel)
    requires Linked(s)
    ensures Linked(r)
    decreases |actions|
  {
    if actions == [] then s else Run(Act(s, actions[0], script), actions[1..], script)
  }

  /** The state that `TimerMgr::Init` sets up. */
  function Initial(funcs: set<int>): Wheel {
    Wheel(Registry(false, 0, funcs, map[], []),
          [TimeWheel(-1, seq(1000, _ => [])), TimeWheel(0, seq(3600, _ => [])), TimeWheel(0, seq(24, _ => []))],
          map[])
  }

  lemma InitialInv(funcs: set<int>)
    ensures Inv(Initial(funcs))
  {
    var s := Initial(funcs);
    assert Shape(s.wheels);
    assert forall sl :: ValidSlot(sl) ==> SlotAgrees(s.wheels, s.owner, sl);
  }

  /** `Proc` of the naive service: tick by tick, each tick firing what is due in some order. */
  ghost predicate NaiveProc(r: Registry, now: nat, script: Script, r': Registry)
    decreases now - r.lasttick
  {
    if !r.started || now <= r.lasttick then r' == r
    else exists order :: IsDueOrder(r, order) && NaiveProc(NaiveTick(r, order, script), now, script, r')
  }

  /**
   * What is asked of the clock and of the callbacks, said of the naive service alone: the clock has not
   * gone back, each registration leaves room (OpSafe), and each tick is safe (SafeTick).
   */
  ghost predicate SafeProc(r: Registry, now: nat, script: Script)
    decreases now - r.lasttick
  {
    r.started ==>
      r.lasttick <= now && (r.lasttick < now ==>
        forall order :: IsDueOrder(r, order) ==>
          SafeTick(r, order, script) && SafeProc(NaiveTick(r, order, script), now, script))
  }

  /** The callbacks' registrations leave room, and what they destroy is harmless. */
  ghost predicate SafeTick(r: Registry, order: seq<TimerId>, script: Script)
    requires IsDueOrder(r, order)
  {
    FireDueSafe(Advanced(r), order, script) && Harmless(Advanced(r), order, script)
  }

  ghost predicate NaiveRun(r: Registry, actions: seq<Action>, script: Script, r': Registry)
    decreases |actions|
  {
    if actions == [] then r' == r
    else match actions[0]
      case Call(op) => NaiveRun(ApplyOp(r, op), actions[1..], script, r')
      case ProcAt(now) =>
        exists r1 :: NaiveProc(r, now, script, r1) && NaiveRun(r1, actions[1..], script, r')
  }

  ghost predicate SafeRun(r: Registry, actions: seq<Action>, script: Script)
    decreases |actions|
  {
    if actions == [] then true
    else match actions[0]
      case Call(op) => OpSafe(r, op) && SafeRun(ApplyOp(r, op), actions[1..], script)
      case ProcAt(now) =>
        SafeProc(r, now, script) &&
        forall r1 :: NaiveProc(r, now, script, r1) ==> SafeRun(r1, actions[1..], script)
  }

  lemma {:induction false} ProcRefines(s: Wheel, now: nat, script: Script)
    requires Inv(s) && SafeProc(s.reg, now, script)
    ensures Inv(Proc(s, now, script))
    ensures NaiveProc(s.reg, now, script, Proc(s, now, script).reg)
    decreases now - s.reg.lasttick
  {
    hide Sane, Placed, Unlinked, Fire, FireDue, FireDueSafe, Harmless;
    if s.reg.started && s.reg.lasttick < now {
      TickBegins(s);
      var order := NextSlot(s);
      assert SafeTick(s.reg, order, script);
      TickExactly(s, script);
      ProcRefines(Tick(s, script), now, script);
    }
  }

  /** Over any safe run the wheel fires what the naive service fires, when it fires it. */
  lemma {:induction false} RunRefines(s: Wheel, actions: seq<Action>, script: Script)
    requires Inv(s) && SafeRun(s.reg, actions, script)
    ensures Inv(Run(s, actions, script))
    ensures NaiveRun(s.reg, actions, script, Run(s, actions, script).reg)
    decreases |actions|
  {
    hide Sane, Placed, Unlinked, Proc, DoOp;
    if actions != [] {
      match actions[0] {
        case Call(op) => CallKeeps(s, op);
        case ProcAt(now) => ProcRefines(s, now, script);
      }
      RunRefines(Act(s, actions[0], script), actions[1..], script);
    }
  }

  lemma CallKeeps(s: Wheel, op: Op)
    requires Inv(s) && OpSafe(s.reg, op)
    ensures Inv(DoOp(s, op))
  {
    OpKeeps(s, op, NoLag, [], {});
  }

  /** Between operations no registered timer is overdue. */
  lemma NoneOverdue(s: Wheel, id: TimerId)
    requires Inv(s) && id in s.reg.timers
    ensures s.reg.lasttick < s.reg.timers[id].expire
    ensures id in s.owner && id in List(s.wheels, s.owner[id])
  {
    assert LinkedUnlessRunning(s, {}, id);
    assert TimerPlaced(s, NoLag, SEC, [], id);
    assert SlotAgrees(s.wheels, s.owner, s.owner[id]);
  }

  // ---------------------------------------------------------------------------------------------
  // What one timer sees
  // ---------------------------------------------------------------------------------------------

  /** The ticks at which a timer has fired. */
  function FireTicks(log: seq<Firing>, id: TimerId): (t: seq<nat>)
    ensures |t| <= |log|
  {
    if log == [] then []
    else
      var last := log[|log| - 1];
      FireTicks(log[..|log| - 1], id) + (if last.id == id then [last.tick] else [])
  }

  predicate Spares(op: Op, id: TimerId) {
    if op.Register? then op.guid != id else op.id != id
  }

  predicate AllSpare(ops: seq<Op>, id: TimerId) {
    forall i :: 0 <= i < |ops| ==> Spares(ops[i], id)
  }

  predicate ScriptSpares(script: Script, id: TimerId) {
    forall k :: 0 <= k < |script| ==> AllSpare(script[k], id)
  }

  predicate RunSpares(actions: seq<Action>, id: TimerId) {
    forall k :: 0 <= k < |actions| && actions[k].Call? ==> Spares(actions[k].op, id)
  }

  /** How many times a timer fires, with 0 for no end: a negative number of repeats counts as one. */
  function Times(repeats: int): nat {
    if repeats < 0 then 1 else repeats
  }

  /** The point number `i` of the progression first, first + step, ... is one of the timer's and has come. */
  predicate HasCome(i: nat, first: nat, step: nat, times: nat, tick: nat) {
    (times == 0 || i < times) && first + i * step <= tick
  }

  /** `t` is exactly that: the points of the progression that have come by `tick`. */
  ghost predicate OnProgression(t: seq<nat>, first: nat, step: nat, times: nat, tick: nat) {
    && (forall i :: 0 <= i < |t| ==> t[i] == first + i * step)
    && forall i: nat :: i < |t| <==> HasCome(i, first, step, times, tick)
  }

  /** The timer has fired at first, first + step, ... so far, and is set for the next one or used up. */
  ghost predicate OnTrack(r: Registry, id: TimerId, first: nat, step: nat, repeats: nat) {
    var t := FireTicks(r.log, id);
    && (forall i :: 0 <= i < |t| ==> t[i] == first + i * step && t[i] <= r.lasttick)
    && (if id in r.timers then
          Armed(r.timers[id], first + |t| * step, step, repeats, |t|) && !r.timers[id].inProc
        else 1 <= repeats == |t|)
  }

  predicate Armed(t: Timer, expire: nat, step: nat, repeats: nat, fired: nat) {
    && t.expire == expire && t.interval == step
    && (if repeats == 0 then t.forever
        else !t.forever && (t.repeats == repeats - fired >= 1 || (t.repeats < 0 && repeats == 1 && fired == 0)))
  }

  lemma {:induction false} OpsSpare(r: Registry, ops: seq<Op>, id: TimerId)
    requires AllSpare(ops, id)
    ensures var r' := ApplyOps(r, ops);
      (id in r'.timers <==> id in r.timers) && (id in r.timers ==> r'.timers[id] == r.timers[id])
    decreases |ops|
  {
    if ops != [] {
      assert Spares(ops[0], id);
      OpsSpare(ApplyOp(r, ops[0]), ops[1..], id);
    }
  }

  lemma CallbackSpares(r: Registry, x: TimerId, script: Script, id: TimerId)
    requires x in r.timers && ScriptSpares(script, id)
    ensures AllSpare(CallbackOps(r, x, script), id)
  {
  }

  lemma FireTicksAppend(log: seq<Firing>, f: Firing, id: TimerId)
    ensures FireTicks(log + [f], id) == FireTicks(log, id) + (if f.id == id then [f.tick] else [])
  {
    assert (log + [f])[..|log|] == log;
  }

  lemma NextPoint(n: nat, step: nat)
    ensures n * step + step == (n + 1) * step
  {
  }

  lemma FireOneOnTrack(r: Registry, x: TimerId, script: Script, id: TimerId, first: nat, step: nat, repeats: nat)
    requires x in r.timers && Due(r, x) && r.started && ScriptSpares(script, id)
    requires OnTrack(r, id, first, step, repeats)
    ensures OnTrack(FireOne(r, x, script), id, first, step, repeats)
  {
    hide ApplyOps, FireTicks, ScriptSpares, CallbackOps;
    var b, ops := BeginFire(r, x), CallbackOps(r, x, script);
    CallbackSpares(r, x, script, id);
    OpsSpare(b, ops, id);
    FireTicksAppend(r.log, Firing(r.lasttick, x, Called(r, x)), id);
    var t := FireTicks(r.log, id);
    NextPoint(|t|, step);
  }

  lemma {:induction false} FireDueOnTrack(r: Registry, order: seq<TimerId>, script: Script,
                                          id: TimerId, first: nat, step: nat, repeats: nat)
    requires (forall x :: x in order ==> Due(r, x)) && r.started && ScriptSpares(script, id)
    requires OnTrack(r, id, first, step, repeats)
    ensures OnTrack(FireDue(r, order, script), id, first, step, repeats)
    decreases |order|
  {
    hide OnTrack, FireOne;
    if order != [] {
      assert order[0] in order && Due(r, order[0]);
      FireOneOnTrack(r, order[0], script, id, first, step, repeats);
      var r1 := FireOne(r, order[0], script);
      FireDueOnTrack(r1, DueOnly(r1, order[1..]), script, id, first, step, repeats);
    }
  }

  lemma TickOnTrack(r: Registry, order: seq<TimerId>, script: Script, id: TimerId, first: nat, step: nat, repeats: nat)
    requires IsDueOrder(r, order) && r.started && ScriptSpares(script, id)
    requires OnTrack(r, id, first, step, repeats)
    ensures OnTrack(NaiveTick(r, order, script), id, first, step, repeats)
  {
    FireDueOnTrack(Advanced(r), order, script, id, first, step, repeats);
  }

  lemma {:induction false} ProcOnTrack(r: Registry, now: nat, script: Script, r': Registry,
                                       id: TimerId, first: nat, step: nat, repeats: nat)
    requires NaiveProc(r, now, script, r') && ScriptSpares(script, id) && r.started
    requires OnTrack(r, id, first, step, repeats)
    ensures OnTrack(r', id, first, step, repeats) && r'.started
    decreases now - r.lasttick
  {
    hide OnTrack, FireDue;
    if r.lasttick < now {
      var order :| IsDueOrder(r, order) && NaiveProc(NaiveTick(r, order, script), now, script, r');
      TickOnTrack(r, order, script, id, first, step, repeats);
      ProcOnTrack(NaiveTick(r, order, script), now, script, r', id, first, step, repeats);
    }
  }

  lemma {:induction false} RunOnTrack(r: Registry, actions: seq<Action>, script: Script, r': Registry,
                                      id: TimerId, first: nat, step: nat, repeats: nat)
    requires NaiveRun(r, actions, script, r') && r.started
    requires ScriptSpares(script, id) && RunSpares(actions, id)
    requires OnTrack(r, id, first, step, repeats)
    ensures OnTrack(r', id, first, step, repeats)
    decreases |actions|
  {
    if actions != [] {
      assert actions[0].Call? ==> Spares(actions[0].op, id);
      assert forall k :: 0 <= k < |actions[1..]| ==> actions[1..][k] == actions[k + 1];
      match actions[0] {
        case Call(op) =>
          RunOnTrack(ApplyOp(r, op), actions[1..], script, r', id, first, step, repeats);
        case ProcAt(now) =>
          var r1 :| NaiveProc(r, now, script, r1) && NaiveRun(r1, actions[1..], script, r');
          ProcOnTrack(r, now, script, r1, id, first, step, repeats);
          RunOnTrack(r1, actions[1..], script, r', id, first, step, repeats);
      }
    }
  }

  /**
   * Drift-free repetition, on the wheel: however `Proc` batches the clock, a timer that nobody destroys
   * has fired exactly at the points first + i * step that have come, up to its number of repeats; with
   * repeats left (or none given) it is registered still, otherwise it has left the registry.
   */
  lemma DriftFree(s: Wheel, op: Op, actions: seq<Action>, script: Script)
    requires Inv(s) && op.Register? && Accepts(s.reg, op)
    requires FireTicks(s.reg.log, op.guid) == []
    requires SafeRun(s.reg, [Call(op)] + actions, script)
    requires ScriptSpares(script, op.guid) && RunSpares(actions, op.guid)
    ensures var r := Run(DoOp(s, op), actions, script).reg;
      var first := op.now + if op.timeout == 0 then 1 else if op.timeout > 86_399_999 then 86_399_999 else op.timeout;
      var step := if op.interval == 0 then 1 else if op.interval > 86_399_999 then 86_399_999 else op.interval;
      var times := if op.repeats < 0 then 1 else op.repeats;
      var t := FireTicks(r.log, op.guid);
      && OnProgression(t, first, step, times, r.lasttick)
      && (op.guid in r.timers <==> times == 0 || |t| < times)
  {
    hide Sane, Placed, Unlinked, ListsAgree, FireTicks, OnTrack, SafeRun, OnProgression, FirstExpire, Clamp, Times,
      ScriptSpares, RunSpares, Run;
    Spelled(op);
    var id, first, step := op.guid, FirstExpire(op), Clamp(op.interval, 1, MAX_TIMEOUT);
    FirstAction(s.reg, op, actions, script);
    CallKeeps(s, op);
    NewOnTrack(s.reg, op);
    RunTracked(DoOp(s, op), actions, script, id, first, step, Times(op.repeats));
  }

  lemma RunTracked(s: Wheel, actions: seq<Action>, script: Script, id: TimerId, first: nat, step: nat, times: nat)
    requires Inv(s) && s.reg.started && SafeRun(s.reg, actions, script) && step >= 1
    requires ScriptSpares(script, id) && RunSpares(actions, id) && OnTrack(s.reg, id, first, step, times)
    ensures var r := Run(s, actions, script).reg;
      var t := FireTicks(r.log, id);
      && OnProgression(t, first, step, times, r.lasttick)
      && (id in r.timers <==> times == 0 || |t| < times)
  {
    hide Sane, Placed, Unlinked, ListsAgree, FireTicks, OnTrack, SafeRun, OnProgression, Run, ScriptSpares, RunSpares;
    RunRefines(s, actions, script);
    var e := Run(s, actions, script);
    RunOnTrack(s.reg, actions, script, e.reg, id, first, step, times);
    if id in e.reg.timers {
      NoneOverdue(e, id);
    }
    TrackCount(e.reg, id, first, step, times);
  }

  /** A time in range is taken as it is, any other becomes the bound that it has passed. */
  lemma ClampExactly(v: nat, lo: nat, hi: nat)
    requires lo <= hi
    ensures lo <= v <= hi ==> Clamp(v, lo, hi) == v
    ensures v < lo ==> Clamp(v, lo, hi) == lo
    ensures v > hi ==> Clamp(v, lo, hi) == hi
  {
  }

  lemma Spelled(op: Op)
    requires op.Register?
    ensures FirstExpire(op)
      == op.now + if op.timeout == 0 then 1 else if op.timeout > 86_399_999 then 86_399_999 else op.timeout
    ensures Clamp(op.interval, 1, MAX_TIMEOUT)
      == if op.interval == 0 then 1 else if op.interval > 86_399_999 then 86_399_999 else op.interval
    ensures Times(op.repeats) == if op.repeats < 0 then 1 else op.repeats
  {
  }

  lemma FirstAction(r: Registry, op: Op, actions: seq<Action>, script: Script)
    requires SafeRun(r, [Call(op)] + actions, script)
    ensures OpSafe(r, op) && SafeRun(ApplyOp(r, op), actions, script)
  {
    assert ([Call(op)] + actions)[1..] == actions;
  }

  lemma NewOnTrack(r: Registry, op: Op)
    requires op.Register? && Accepts(r, op) && FireTicks(r.log, op.guid) == []
    ensures var r' := ApplyOp(r, op);
      r'.started && OnTrack(r', op.guid, FirstExpire(op), Clamp(op.interval, 1, MAX_TIMEOUT), Times(op.repeats))
  {
  }

  /** A timer on track that is not overdue has fired at every point that has come. */
  lemma TrackCount(r: Registry, id: TimerId, first: nat, step: nat, repeats: nat)
    requires OnTrack(r, id, first, step, repeats) && step >= 1
    requires id in r.timers ==> r.lasttick < r.timers[id].expire
    ensures var t := FireTicks(r.log, id);
      && OnProgression(t, first, step, repeats, r.lasttick)
      && (id in r.timers <==> repeats == 0 || |t| < repeats)
  {
    hide FireTicks;
    var t := FireTicks(r.log, id);
    forall i: nat ensures i < |t| <==> HasCome(i, first, step, repeats, r.lasttick) {
      if i < |t| {
        assert t[i] <= r.lasttick;
      } else {
        StepsGrow(|t|, i, step);
      }
    }
  }

  lemma StepsGrow(i: nat, j: nat, step: nat)
    requires i <= j
    ensures i * step <= j * step
  {
  }

  // ---------------------------------------------------------------------------------------------
  // A timer that is gone
  // ---------------------------------------------------------------------------------------------

  /** The timer is not registered, and has fired at the ticks `t` only. */
  ghost predicate Gone(r: Registry, id: TimerId, t: seq<nat>) {
    id !in r.timers && FireTicks(r.log, id) == t
  }

  lemma FireOneSilent(r: Registry, x: TimerId, script: Script, id: TimerId, t: seq<nat>)
    requires x in r.timers && ScriptSpares(script, id) && Gone(r, id, t)
    ensures Gone(FireOne(r, x, script), id, t)
  {
    hide ApplyOps, FireTicks, ScriptSpares, CallbackOps;
    var b, ops := BeginFire(r, x), CallbackOps(r, x, script);
    CallbackSpares(r, x, script, id);
    OpsSpare(b, ops, id);
    FireTicksAppend(r.log, Firing(r.lasttick, x, Called(r, x)), id);
  }

  lemma {:induction false} FireDueSilent(r: Registry, order: seq<TimerId>, script: Script, id: TimerId, t: seq<nat>)
    requires (forall x :: x in order ==> Due(r, x)) && ScriptSpares(script, id) && Gone(r, id, t)
    ensures Gone(FireDue(r, order, script), id, t)
    decreases |order|
  {
    hide Gone, FireOne;
    if order != [] {
      assert order[0] in order && Due(r, order[0]);
      FireOneSilent(r, order[0], script, id, t);
      var r1 := FireOne(r, order[0], script);
      FireDueSilent(r1, DueOnly(r1, order[1..]), script, id, t);
    }
  }

  lemma TickSilent(r: Registry, order: seq<TimerId>, script: Script, id: TimerId, t: seq<nat>)
    requires IsDueOrder(r, order) && ScriptSpares(script, id) && Gone(r, id, t)
    ensures Gone(NaiveTick(r, order, script), id, t)
  {
    FireDueSilent(Advanced(r), order, script, id, t);
  }

  lemma {:induction false} ProcSilent(r: Registry, now: nat, script: Script, r': Registry, id: TimerId, t: seq<nat>)
    requires NaiveProc(r, now, script, r') && ScriptSpares(script, id) && Gone(r, id, t)
    ensures Gone(r', id, t)
    decreases now - r.lasttick
  {
    hide Gone, FireDue;
    if r.started && r.lasttick < now {
      var order :| IsDueOrder(r, order) && NaiveProc(NaiveTick(r, order, script), now, script, r');
      TickSilent(r, order, script, id, t);
      ProcSilent(NaiveTick(r, order, script), now, script, r', id, t);
    }
  }

  lemma {:induction false} RunSilent(r: Registry, actions: seq<Action>, script: Script, r': Registry,
                                     id: TimerId, t: seq<nat>)
    requires NaiveRun(r, actions, script, r') && ScriptSpares(script, id) && RunSpares(actions, id) && Gone(r, id, t)
    ensures Gone(r', id, t)
    decreases |actions|
  {
    if actions != [] {
      assert actions[0].Call? ==> Spares(actions[0].op, id);
      assert forall k :: 0 <= k < |actions[1..]| ==> actions[1..][k] == actions[k + 1];
      match actions[0] {
        case Call(op) =>
          RunSilent(ApplyOp(r, op), actions[1..], script, r', id, t);
        case ProcAt(now) =>
          var r1 :| NaiveProc(r, now, script, r1) && NaiveRun(r1, actions[1..], script, r');
          ProcSilent(r, now, script, r1, id, t);
          RunSilent(r1, actions[1..], script, r', id, t);
      }
    }
  }

  /** A timer that has been destroyed, and is not registered again, does not fire any more, on the wheel. */
  lemma DestroyedStaysSilent(s: Wheel, id: TimerId, actions: seq<Action>, script: Script)
    requires Inv(s) && id != 0 && SafeRun(s.reg, [Call(Destroy(id))] + actions, script)
    requires ScriptSpares(script, id) && RunSpares(actions, id)
    ensures var r := Run(DoOp(s, Destroy(id)), actions, script).reg;
      id !in r.timers && FireTicks(r.log, id) == FireTicks(s.reg.log, id)
  {
    hide Sane, Placed, ListsAgree, FireTicks, SafeRun;
    var s1, t := DoOp(s, Destroy(id)), FireTicks(s.reg.log, id);
    assert id in s.reg.timers ==> LinkedUnlessRunning(s, {}, id);
    FirstAction(s.reg, Destroy(id), actions, script);
    CallKeeps(s, Destroy(id));
    RunRefines(s1, actions, script);
    RunSilent(s1.reg, actions, script, Run(s1, actions, script).reg, id, t);
  }
}
