/**
 * The transaction server: all instances, their coroutines and their timeout timers, as a step system.
 *
 * A step starts and ends in the main routine: a transaction is started, an event is sent, a timer fires,
 * or the manager's `Update` runs.  In between, a coroutine may have control.
 */
module Server {
  import opened Transactions
  import C = Coroutines

  /**
   * `trans` is trans_map_ and `dying` is destroy_list_; `released` remembers the instances that `Update`
   * has handled and released.  `timers` are the live timeout timers with the instance each carries.
   */
  datatype World = World(
    sched: C.Sched, trans: map<InstId, Inst>, dying: map<InstId, Inst>,
    timers: map<TimerId, Alarm>, released: map<InstId, Inst>)

  const Initial := World(C.Initial, map[], map[], map[], map[])

  /** What a coroutine may use when it gets control: hook outcomes, and the next timer id. */
  datatype Env = Env(outs: seq<Outcome>, newTimer: TimerId)

  predicate IsDefaultEvent(e: Event) {
    e == EVENT_TIMEOUT || e == EVENT_ABORT
  }

  /** The coroutine gives up control: to wait, or at its end with its instance marked for destruction. */
  function Leave(w: World, r: Work): World {
    if r.inst.pc.Waiting? then
      w.(sched := C.ToMain(w.sched).0, trans := w.trans[r.inst.id := r.inst], timers := r.timers)
    else
      w.(sched := C.Exit(w.sched), trans := w.trans - {r.inst.id}, dying := w.dying[r.inst.id := r.inst],
         timers := r.timers)
  }

  function PutInst(w: World, i: Inst): World {
    if i.id in w.dying then w.(dying := w.dying[i.id := i]) else w.(trans := w.trans[i.id := i])
  }

  predicate Known(w: World, id: InstId) {
    id in w.trans || id in w.dying
  }

  function InstOf(w: World, id: InstId): Inst
    requires Known(w, id)
  {
    if id in w.dying then w.dying[id] else w.trans[id]
  }

  /** `TransactionInstance::SendMsgEvent`: the timer goes first, whether or not the event is expected. */
  ghost function SendToInst(w: World, id: InstId, e: Event, env: Env): (World, int)
    requires Inv(w) && Known(w, id)
  {
    var i := InstOf(w, id);
    if e == EVENT_INVALID then (w, INVALID_PARA)
    else
      var timers := if e != EVENT_TIMEOUT && i.timer != 0 then w.timers - {i.timer} else w.timers;
      var i1 := i.(timer := 0);
      var w1 := w.(timers := timers);
      if !IsDefaultEvent(e) && e !in i.events then (PutInst(w1, i1), LOGIC)
      else
        var i2 := i1.(eventType := e);
        var (sched, ret) := C.ToWork(w.sched, i.coroutine);
        if ret != OK then (PutInst(w1, i2), ret)
        else
          assert TransOk(w, id) by { OnlyWaitingResume(w, id); }
          (Leave(w1.(sched := sched), Resume(Work(i2, env.outs, timers, env.newTimer))), OK)
  }

  /** The part of it that only concerns the instance. */
  function Taken(a: Work, e: Event): (Work, int) {
    var i := a.inst;
    var a1 := a.(inst := i.(timer := 0),
                 timers := if e != EVENT_TIMEOUT && i.timer != 0 then a.timers - {i.timer} else a.timers);
    if e == EVENT_INVALID then (a, INVALID_PARA)
    else if !IsDefaultEvent(e) && e !in i.events then (a1, LOGIC)
    else (a1.(inst := a1.inst.(eventType := e)), OK)
  }

  /** All of it, said of the instance and the scheduler alone. */
  function Sent(a: Work, s: C.Sched, e: Event): (Work, C.Sched, int)
    requires OnlyWaiting(a.inst, s)
  {
    var (a1, taken) := Taken(a, e);
    if taken != OK then (a1, s, taken)
    else
      var (s1, ret) := C.ToWork(s, a.inst.coroutine);
      if ret != OK then (a1, s1, ret)
      else (Resume(a1), Yield(s1, Resume(a1).inst), OK)
  }

  predicate OnlyWaiting(i: Inst, s: C.Sched) {
    C.ToWork(s, i.coroutine).1 == OK ==> i.pc.Waiting? && InCommand(i)
  }

  /** The coroutine of the instance gives up control. */
  function Yield(s: C.Sched, i: Inst): C.Sched {
    if i.pc.Waiting? then C.ToMain(s).0 else C.Exit(s)
  }

  /** `Transaction::Start`, said of the instance and the scheduler alone. */
  function Launched(a: Work, s: C.Sched, q: C.Request): (Work, C.Sched, int) {
    if a.inst.coroutine != 0 then (a, s, LOGIC)
    else
      var (s1, created) := C.Create(s, q.(param := a.inst.id));
      if created != OK then (a, s1, created) else Entered(a, s1, q.id)
  }

  function Entered(a: Work, s: C.Sched, id: C.RoutineId): (Work, C.Sched, int) {
    var (s1, ret) := C.ToWork(s, id);
    if ret != OK then (a, C.Destroy(s1, id).0, ret)
    else
      var r := Start(a.(inst := a.inst.(coroutine := id)));
      (r, Yield(s1, r.inst), OK)
  }

  /** `SendMsgEventToTran`. */
  ghost function Send(w: World, id: InstId, e: Event, env: Env): (World, int)
    requires Inv(w)
  {
    if id == 0 then (w, INVALID_PARA)
    else if id !in w.trans then (w, TRAN_INST_NOT_FOUND)
    else
      var (w1, ret) := SendToInst(w, id, e, env);
      (w1, if ret != OK then SVR_INTERNAL else OK)
  }

  /** A timeout timer fires, once, and is gone when its callback is over. */
  ghost function TimerFires(w: World, t: TimerId, env: Env): World
    requires Inv(w) && t in w.timers
  {
    var w1 := if w.timers[t].inst in w.trans then SendToInst(w, w.timers[t].inst, EVENT_TIMEOUT, env).0 else w;
    w1.(timers := w1.timers - {t})
  }

  /** A request to start a transaction, with the ids that the generator gives to it. */
  datatype StartRequest = StartRequest(tran: Transaction, owner: nat, id: InstId, routine: C.Request)

  /** `StartCommonTransaction`. */
  function StartTran(w: World, q: StartRequest, env: Env): (World, int) {
    if q.owner == 0 then (w, INVALID_PARA)
    else if q.id == 0 || q.id in w.trans then (w, SVR_INTERNAL)
    else
      var (s1, created) := C.Create(w.sched, q.routine.(param := q.id));
      if created != OK then (w, created)
      else
        var (s2, ret) := C.ToWork(s1, q.routine.id);
        if ret != OK then (w.(sched := C.Destroy(s1, q.routine.id).0), ret)
        else
          var i := NewInst(q.id, q.tran).(coroutine := q.routine.id);
          (Leave(w.(sched := s2, trans := w.trans[q.id := i]), Start(Work(i, env.outs, w.timers, env.newTimer))), OK)
  }

  function RoutinesOf(m: map<InstId, Inst>): set<C.RoutineId> {
    set id | id in m :: m[id].coroutine
  }

  /** `TranInstMgr::Update`, called in the main routine. */
  function Update(w: World): World {
    w.(sched := w.sched.(routines := w.sched.routines - RoutinesOf(w.dying)),
       dying := map[],
       released := w.released + (map id | id in w.dying :: Released(w.dying[id])))
  }

  // ---------------------------------------------------------------------------------------------
  // The invariant at rest points of the main routine
  // ---------------------------------------------------------------------------------------------

  /** A live instance is suspended in its own coroutine; its timer, if it has one, carries it. */
  ghost predicate TransOk(w: World, id: InstId)
    requires id in w.trans
  {
    var i := w.trans[id];
    && i.id == id && id != 0 && Suspended(i)
    && i.coroutine in w.sched.routines && w.sched.routines[i.coroutine] == C.Routine(C.Suspend, id)
    && (i.timer != 0 ==> i.timer in w.timers && w.timers[i.timer].inst == id)
  }

  /** An instance to be destroyed is at its end and its coroutine is dead. */
  ghost predicate DyingOk(w: World, id: InstId)
    requires id in w.dying
  {
    var i := w.dying[id];
    && i.id == id && id != 0 && Ended(i)
    && i.coroutine in w.sched.routines && w.sched.routines[i.coroutine] == C.Routine(C.Dead, id)
  }

  /** A timer names an instance that waits and has this timer. */
  ghost predicate TimerOk(w: World, t: TimerId)
    requires t in w.timers
  {
    && t != 0 && w.timers[t].inst in w.trans
    && var i := w.trans[w.timers[t].inst]; i.timer == t && InCommand(i) && w.timers[t] == AlarmOf(i)
  }

  /** A coroutine belongs to an instance that is not released yet. */
  ghost predicate RoutineOk(w: World, c: C.RoutineId)
    requires c in w.sched.routines
  {
    var id := w.sched.routines[c].param;
    Known(w, id) && InstOf(w, id).coroutine == c
  }

  ghost predicate ReleasedOk(w: World, id: InstId)
    requires id in w.released
  {
    var i := w.released[id];
    i.id == id && Settled(i) && i.coroutine == 0 && i.timer == 0 && !i.dying && !i.inUndo
  }

  /** Everything but what concerns the instance `x`. */
  ghost predicate InvBut(w: World, x: set<InstId>) {
    && (forall id {:trigger TransOk(w, id)} :: id in w.trans && id !in x ==> TransOk(w, id))
    && (forall id {:trigger DyingOk(w, id)} :: id in w.dying && id !in x ==> DyingOk(w, id))
    && (forall t {:trigger TimerOk(w, t)} :: t in w.timers && w.timers[t].inst !in x ==> TimerOk(w, t))
    && (forall c {:trigger RoutineOk(w, c)} ::
          c in w.sched.routines && w.sched.routines[c].param !in x ==> RoutineOk(w, c))
    && (forall id {:trigger ReleasedOk(w, id)} :: id in w.released ==> ReleasedOk(w, id))
    && w.trans.Keys !! w.dying.Keys && w.trans.Keys !! w.released.Keys && w.dying.Keys !! w.released.Keys
    && C.OneRuns(w.sched)
  }

  ghost predicate Inv(w: World) {
    InvBut(w, {}) && w.sched.cur == 0
  }

  lemma OnlyWaitingResume(w: World, id: InstId)
    requires Inv(w) && Known(w, id) && C.ToWork(w.sched, InstOf(w, id).coroutine).1 == OK
    ensures id in w.trans && TransOk(w, id)
  {
    assert id in w.dying ==> DyingOk(w, id);
    assert id in w.trans ==> TransOk(w, id);
  }

  /** The coroutine `c` of the instance `id` has control; a timer of the instance that is left is `stale`. */
  ghost predicate Busy(w: World, id: InstId, c: C.RoutineId, stale: TimerId) {
    && InvBut(w, {id}) && id != 0 && id !in w.dying && id !in w.released
    && c != 0 && w.sched.cur == c && c in w.sched.routines && w.sched.routines[c] == C.Routine(C.Run, id)
    && (forall d :: d in w.sched.routines && w.sched.routines[d].param == id ==> d == c)
    && (forall t :: t in w.timers && w.timers[t].inst == id ==> t == stale)
    && (stale == 0 || (stale in w.timers && w.timers[stale].inst == id))
  }

  function WithoutTimer(w: World, t: TimerId): World {
    w.(timers := w.timers - {t})
  }

  lemma SuspendFacts(s: C.Sched)
    requires C.OneRuns(s) && s.cur != 0
    ensures s.cur in s.routines && s.routines[s.cur].state == C.Run
    ensures C.ToMain(s).0 == C.Sched(C.Run, 0, s.routines[s.cur := C.Routine(C.Suspend, s.routines[s.cur].param)])
    ensures C.OneRuns(C.ToMain(s).0)
  {
    C.ApplyKeeps(s, C.DoSwapToMain);
  }

  lemma ExitFacts(s: C.Sched)
    requires C.OneRuns(s) && s.cur != 0
    ensures s.cur in s.routines
    ensures C.Exit(s) == C.Sched(C.Run, 0, s.routines[s.cur := C.Routine(C.Dead, s.routines[s.cur].param)])
    ensures C.OneRuns(C.Exit(s))
  {
    C.ApplyKeeps(s, C.DoExit);
  }

  lemma WorkFacts(s: C.Sched, c: C.RoutineId)
    requires C.OneRuns(s) && s.cur == 0 && c in s.routines && C.CanResume(s.routines[c].state)
    ensures C.ToWork(s, c) == (C.Sched(C.Suspend, c, s.routines[c := C.Routine(C.Run, s.routines[c].param)]), OK)
    ensures c != 0 && C.OneRuns(C.ToWork(s, c).0)
  {
    C.ApplyKeeps(s, C.DoSwapToWork(c));
  }

  /** The coroutine of `i` has given up control in `Wait`. */
  function Waited(w: World, i: Inst, stale: TimerId): World
    requires InCommand(i)
  {
    w.(sched := C.ToMain(w.sched).0, trans := w.trans[i.id := i], timers := w.timers[i.timer := AlarmOf(i)] - {stale})
  }

  lemma LeaveWaiting(w: World, i: Inst, stale: TimerId)
    requires Busy(w, i.id, i.coroutine, stale) && Suspended(i) && InCommand(i) && i.timer != 0 && i.timer !in w.timers
    ensures Inv(Waited(w, i, stale))
  {
    hide Suspended, Ended, Settled, C.OneRuns, C.ToMain, TransOk, TimerOk;
    SuspendFacts(w.sched);
    WaitedTrans(w, i, stale);
    var w' := Waited(w, i, stale);
    forall j | j in w'.dying ensures DyingOk(w', j) {
      assert DyingOk(w, j);
    }
    forall d | d in w'.sched.routines ensures RoutineOk(w', d) {
      if d != i.coroutine { assert RoutineOk(w, d); }
    }
    forall j | j in w'.released ensures ReleasedOk(w', j) {
      assert ReleasedOk(w, j);
    }
  }

  lemma WaitedTrans(w: World, i: Inst, stale: TimerId)
    requires Busy(w, i.id, i.coroutine, stale) && Suspended(i) && InCommand(i) && i.timer != 0 && i.timer !in w.timers
    ensures var w' := Waited(w, i, stale);
      (forall j :: j in w'.trans ==> TransOk(w', j)) && (forall t :: t in w'.timers ==> TimerOk(w', t))
  {
    hide Suspended, Ended, Settled, C.OneRuns, C.ToMain;
    SuspendFacts(w.sched);
    var w' := Waited(w, i, stale);
    forall j | j in w'.trans ensures TransOk(w', j) {
      if j != i.id { assert TransOk(w, j); }
    }
    forall t | t in w'.timers ensures TimerOk(w', t) {
      if t != i.timer { assert TimerOk(w, t); }
    }
  }

  lemma LeaveEnded(w: World, i: Inst, stale: TimerId)
    requires Busy(w, i.id, i.coroutine, stale) && Ended(i)
    ensures Inv(w.(sched := C.Exit(w.sched), trans := w.trans - {i.id}, dying := w.dying[i.id := i], timers := w.timers - {stale}))
  {
    hide Suspended, Ended, Settled, C.OneRuns, C.Exit;
    ExitFacts(w.sched);
    var w' := w.(sched := C.Exit(w.sched), trans := w.trans - {i.id}, dying := w.dying[i.id := i], timers := w.timers - {stale});
    forall j | j in w'.trans ensures TransOk(w', j) {
      assert TransOk(w, j);
    }
    forall j | j in w'.dying ensures DyingOk(w', j) {
      if j != i.id { assert DyingOk(w, j); }
    }
    forall t | t in w'.timers ensures TimerOk(w', t) {
      assert TimerOk(w, t);
    }
    forall d | d in w'.sched.routines ensures RoutineOk(w', d) {
      if d != i.coroutine { assert RoutineOk(w, d); }
    }
    forall j | j in w'.released ensures ReleasedOk(w', j) {
      assert ReleasedOk(w, j);
    }
  }

  /** Whatever the coroutine has done, giving up control restores the invariant, but for the stale timer. */
  lemma LeaveKeeps(w: World, a: Work, r: Work, stale: TimerId)
    requires Busy(w, a.inst.id, a.inst.coroutine, stale)
    requires a.timers == w.timers && Outcomes(a, r)
    ensures Inv(WithoutTimer(Leave(w, r), stale))
  {
    hide Suspended, Ended, Busy, Inv;
    if r.inst.pc.Waiting? {
      WaitsInCommand(r.inst);
      LeaveWaiting(w, r.inst, stale);
    } else {
      LeaveEnded(w, r.inst, stale);
    }
  }

  lemma NoZeroTimer(w: World)
    requires Inv(w)
    ensures 0 !in w.timers
  {
    forall t | t in w.timers ensures t != 0 { assert TimerOk(w, t); }
  }

  /** Control goes to the coroutine of a waiting instance. */
  lemma GoBusy(w: World, id: InstId, stale: TimerId)
    requires Inv(w) && id in w.trans
    requires stale == 0 || stale == w.trans[id].timer
    ensures var i := w.trans[id];
      var (sched, ret) := C.ToWork(w.sched, i.coroutine);
      var timers := if stale == 0 then w.timers - {i.timer} else w.timers;
      ret == OK && Busy(w.(sched := sched, timers := timers), id, i.coroutine, stale)
  {
    hide Suspended, Ended, Settled, C.OneRuns, C.ToWork;
    var i := w.trans[id];
    assert TransOk(w, id);
    NoZeroTimer(w);
    WorkFacts(w.sched, i.coroutine);
    var sched := C.ToWork(w.sched, i.coroutine).0;
    var w' := w.(sched := sched, timers := if stale == 0 then w.timers - {i.timer} else w.timers);
    forall j | j in w'.trans && j != id ensures TransOk(w', j) {
      assert TransOk(w, j);
    }
    forall j | j in w'.dying ensures DyingOk(w', j) {
      assert DyingOk(w, j);
    }
    forall t | t in w'.timers ensures TimerOk(w', t) && (w'.timers[t].inst == id ==> t == stale) {
      assert TimerOk(w, t);
    }
    forall d | d in w'.sched.routines
      ensures RoutineOk(w', d) && (w'.sched.routines[d].param == id ==> d == i.coroutine)
    {
      assert RoutineOk(w, d);
    }
    forall j | j in w'.released ensures ReleasedOk(w', j) {
      assert ReleasedOk(w, j);
    }
  }

  /** Neither the timer nor the event last sent matters to where an instance stands. */
  lemma SuspendedStays(i: Inst, e: Event)
    requires Suspended(i)
    ensures Suspended(i.(timer := 0, eventType := e))
  {
    var a, b := i.(timer := 0), i.(timer := 0, eventType := e);
    SameLogPassed(a, b, i.curr);
    assert b.(timer := 0) == b;
  }

  /** A change to a waiting instance that leaves it waiting, with no timer. */
  lemma QuietKeeps(w: World, id: InstId, i: Inst)
    requires Inv(w) && id in w.trans
    requires Suspended(i) && i.id == id && i.timer == 0 && i.coroutine == w.trans[id].coroutine
    ensures Inv(w.(timers := w.timers - {w.trans[id].timer}, trans := w.trans[id := i]))
  {
    hide Suspended, Ended, Settled, C.OneRuns;
    var w' := w.(timers := w.timers - {w.trans[id].timer}, trans := w.trans[id := i]);
    forall j | j in w'.trans ensures TransOk(w', j) {
      assert TransOk(w, j);
      if j != id && w.trans[j].timer != 0 { TimersDiffer(w, id, j); }
    }
    forall j | j in w'.dying ensures DyingOk(w', j) {
      assert DyingOk(w, j);
    }
    forall t | t in w'.timers ensures TimerOk(w', t) {
      assert TimerOk(w, t);
    }
    forall d | d in w'.sched.routines ensures RoutineOk(w', d) {
      assert RoutineOk(w, d);
    }
    forall j | j in w'.released ensures ReleasedOk(w', j) {
      assert ReleasedOk(w, j);
    }
  }

  lemma TimersDiffer(w: World, a: InstId, b: InstId)
    requires Inv(w) && a in w.trans && b in w.trans && a != b && w.trans[b].timer != 0
    ensures w.trans[a].timer != w.trans[b].timer
  {
    hide Suspended, C.OneRuns;
    assert TransOk(w, a) && TransOk(w, b);
  }

  lemma NoTimerAtEnd(i: Inst)
    requires Ended(i)
    ensures i.timer == 0
  {
  }

  /** An instance at its end takes no event: its coroutine is dead. */
  lemma DeadRefuses(w: World, id: InstId, e: Event, env: Env)
    requires Inv(w) && id in w.dying
    ensures SendToInst(w, id, e, env).1 != OK && Inv(SendToInst(w, id, e, env).0)
  {
    var w' := SendToInst(w, id, e, env).0;
    assert DyingOk(w, id);
    var i, i' := w.dying[id], w'.dying[id];
    EndedStays(i, e, i.coroutine);
    assert i.(timer := 0) == i by { NoTimerAtEnd(i); }
    assert w' == w.(dying := w.dying[id := i']) && (i' == i || i' == i.(eventType := e));
    DyingChanged(w, id, i');
  }

  lemma DyingChanged(w: World, id: InstId, i: Inst)
    requires Inv(w) && id in w.dying && Ended(i) && i.id == id && i.coroutine == w.dying[id].coroutine
    ensures Inv(w.(dying := w.dying[id := i]))
  {
    hide Suspended, Ended, Settled, C.OneRuns;
    var w' := w.(dying := w.dying[id := i]);
    forall j | j in w'.trans ensures TransOk(w', j) {
      assert TransOk(w, j);
    }
    forall j | j in w'.dying ensures DyingOk(w', j) {
      assert DyingOk(w, j);
    }
    forall t | t in w'.timers ensures TimerOk(w', t) {
      assert TimerOk(w, t);
    }
    forall d | d in w'.sched.routines ensures RoutineOk(w', d) {
      assert RoutineOk(w, d);
    }
    forall j | j in w'.released ensures ReleasedOk(w', j) {
      assert ReleasedOk(w, j);
    }
  }

  lemma SendKeeps(w: World, id: InstId, e: Event, env: Env)
    requires Inv(w) && Known(w, id)
    requires e == EVENT_TIMEOUT ==> InstOf(w, id).timer == 0
    ensures Inv(SendToInst(w, id, e, env).0)
  {
    hide Inv, SendToInst;
    if id in w.dying {
      DeadRefuses(w, id, e, env);
    } else {
      LiveSendKeeps(w, id, e, env);
    }
  }

  lemma LiveSendKeeps(w: World, id: InstId, e: Event, env: Env)
    requires Inv(w) && id in w.trans && id !in w.dying
    requires e == EVENT_TIMEOUT ==> w.trans[id].timer == 0
    ensures Inv(SendToInst(w, id, e, env).0)
  {
    hide Suspended, Ended, Settled, C.OneRuns, Resume, Outcomes, Start, C.ToWork;
    NoZeroTimer(w);
    if e != EVENT_INVALID {
      var i := w.trans[id];
      var timers := w.timers - {i.timer};
      assert timers == if e != EVENT_TIMEOUT && i.timer != 0 then w.timers - {i.timer} else w.timers;
      assert TransOk(w, id);
      WaitsInCommand(i);
      if !IsDefaultEvent(e) && e !in i.events {
        SuspendedStays(i, i.eventType);
        QuietKeeps(w, id, i.(timer := 0));
      } else {
        DeliveryKeeps(w, id, e, env);
      }
    }
  }

  lemma WaitsInCommand(i: Inst)
    requires Suspended(i)
    ensures i.pc.Waiting? && InCommand(i)
  {
  }

  lemma DeliveryKeeps(w: World, id: InstId, e: Event, env: Env)
    requires Inv(w) && id in w.trans && 0 !in w.timers && w.trans[id].pc.Waiting? && InCommand(w.trans[id])
    ensures var i, timers := w.trans[id], w.timers - {w.trans[id].timer};
      var (sched, ret) := C.ToWork(w.sched, i.coroutine);
      var a := Work(i.(timer := 0, eventType := e), env.outs, timers, env.newTimer);
      ret == OK && Inv(Leave(w.(sched := sched, timers := timers), Resume(a)))
  {
    hide Suspended, Ended, Settled, C.ToWork, C.OneRuns, Resume, Outcomes;
    var i, timers := w.trans[id], w.timers - {w.trans[id].timer};
    assert TransOk(w, id);
    GoBusy(w, id, 0);
    SuspendedStays(i, e);
    var a := Work(i.(timer := 0, eventType := e), env.outs, timers, env.newTimer);
    ResumeOk(a);
    var w1 := w.(sched := C.ToWork(w.sched, i.coroutine).0, timers := timers);
    LeaveKeeps(w1, a, Resume(a), 0);
    NoneToRemove(w1, a, Resume(a));
  }

  lemma NoneToRemove(w: World, a: Work, r: Work)
    requires 0 !in w.timers && a.timers == w.timers && Outcomes(a, r)
    ensures WithoutTimer(Leave(w, r), 0) == Leave(w, r)
  {
    assert 0 !in r.timers;
    assert r.timers - {0} == r.timers;
  }

  lemma TimerKeeps(w: World, t: TimerId, env: Env)
    requires Inv(w) && t in w.timers
    ensures Inv(TimerFires(w, t, env))
  {
    assert TimerOk(w, t);
    var id := w.timers[t].inst;
    var i := w.trans[id];
    assert TransOk(w, id);
    GoBusy(w, id, t);
    SuspendedStays(i, EVENT_TIMEOUT);
    var a := Work(i.(timer := 0, eventType := EVENT_TIMEOUT), env.outs, w.timers, env.newTimer);
    ResumeOk(a);
    LeaveKeeps(w.(sched := C.ToWork(w.sched, i.coroutine).0), a, Resume(a), t);
  }

  lemma CreateFacts(s: C.Sched, q: C.Request)
    requires C.OneRuns(s) && s.cur == 0 && C.Create(s, q).1 == OK
    ensures q.id !in s.routines && q.id != 0
    ensures C.Create(s, q).0 == s.(routines := s.routines[q.id := C.Routine(C.Ready, q.param)])
    ensures C.OneRuns(C.Create(s, q).0)
  {
    C.ApplyKeeps(s, C.DoCreate(q));
  }

  /** A new coroutine gets control for the first time. */
  lemma NewBusy(w: World, id: InstId, i: Inst, q: C.Request)
    requires Inv(w) && id != 0 && id !in w.trans && id !in w.dying && id !in w.released && q.param == id
    requires C.Create(w.sched, q).1 == OK
    ensures var s1 := C.Create(w.sched, q).0;
      var (s2, ret) := C.ToWork(s1, q.id);
      ret == OK && Busy(w.(sched := s2, trans := w.trans[id := i]), id, q.id, 0)
  {
    hide Suspended, Ended, Settled, C.ValidRequest, C.OneRuns, C.ToWork;
    var s1 := C.Create(w.sched, q).0;
    var s2 := C.ToWork(s1, q.id).0;
    CreateFacts(w.sched, q);
    WorkFacts(s1, q.id);
    var w' := w.(sched := s2, trans := w.trans[id := i]);
    forall j | j in w'.trans && j != id ensures TransOk(w', j) {
      assert TransOk(w, j);
    }
    forall j | j in w'.dying ensures DyingOk(w', j) {
      assert DyingOk(w, j);
    }
    forall t | t in w'.timers ensures TimerOk(w', t) && w'.timers[t].inst != id {
      assert TimerOk(w, t);
    }
    forall d | d in w'.sched.routines && d != q.id
      ensures RoutineOk(w', d) && w'.sched.routines[d].param != id
    {
      assert RoutineOk(w, d);
    }
    forall j | j in w'.released ensures ReleasedOk(w', j) {
      assert ReleasedOk(w, j);
    }
  }

  lemma StartKeeps(w: World, q: StartRequest, env: Env)
    requires Inv(w) && q.id !in w.dying && q.id !in w.released
    ensures Inv(StartTran(w, q, env).0)
  {
    if q.owner != 0 && q.id != 0 && q.id !in w.trans {
      var creq := q.routine.(param := q.id);
      var (s1, created) := C.Create(w.sched, creq);
      if created == OK {
        var i := NewInst(q.id, q.tran).(coroutine := q.routine.id);
        NewBusy(w, q.id, i, creq);
        NoZeroTimer(w);
        var a := Work(i, env.outs, w.timers, env.newTimer);
        StartOk(a);
        var w1 := w.(sched := C.ToWork(s1, q.routine.id).0, trans := w.trans[q.id := i]);
        LeaveKeeps(w1, a, Start(a), 0);
        NoneToRemove(w1, a, Start(a));
      }
    }
  }

  /** `Update` handles the result of every instance at its end, and keeps neither it nor its coroutine. */
  lemma UpdateKeeps(w: World)
    requires Inv(w)
    ensures Inv(Update(w))
  {
    hide Suspended, Ended, Settled, Released, C.OneRuns, RoutinesOf;
    var w' := Update(w);
    UpdateReleases(w);
    assert w'.sched.cur == 0 && C.OneRuns(w'.sched) by { UpdateSched(w); }
    forall j | j in w'.trans ensures TransOk(w', j) {
      assert TransOk(w, j);
      LiveRoutineStays(w, j);
    }
    forall t | t in w'.timers ensures TimerOk(w', t) {
      assert TimerOk(w, t);
    }
    forall d | d in w'.sched.routines ensures RoutineOk(w', d) {
      assert RoutineOk(w, d);
      RoutineStays(w, d);
    }
    forall j | j in w'.released ensures ReleasedOk(w', j) {
      if j in w.dying { DyingSettles(w, j); } else { assert ReleasedOk(w, j); }
    }
  }

  /** Each of them is released once; what has been released stays as it was handled. */
  lemma UpdateReleases(w: World)
    requires Inv(w)
    ensures Update(w).dying == map[] && Update(w).trans == w.trans && Update(w).timers == w.timers
    ensures Update(w).sched == w.sched.(routines := w.sched.routines - RoutinesOf(w.dying))
    ensures Update(w).released.Keys == w.released.Keys + w.dying.Keys
    ensures forall id :: id in w.released ==> Update(w).released[id] == w.released[id]
    ensures forall id :: id in w.dying ==> Update(w).released[id] == Released(w.dying[id])
  {
    hide Released;
  }

  lemma UpdateSched(w: World)
    requires Inv(w)
    ensures Update(w).sched.cur == 0 && C.OneRuns(Update(w).sched)
  {
  }

  lemma RoutineStays(w: World, d: C.RoutineId)
    requires Inv(w) && d in w.sched.routines && d !in RoutinesOf(w.dying)
    ensures w.sched.routines[d].param in w.trans
  {
    hide Suspended, Ended, C.OneRuns;
    assert RoutineOk(w, d);
  }

  lemma LiveRoutineStays(w: World, j: InstId)
    requires Inv(w) && j in w.trans
    ensures w.trans[j].coroutine !in RoutinesOf(w.dying)
  {
    hide Suspended, Ended, C.OneRuns;
    assert TransOk(w, j);
    forall k | k in w.dying ensures w.dying[k].coroutine != w.trans[j].coroutine {
      assert DyingOk(w, k);
    }
  }

  lemma DyingSettles(w: World, j: InstId)
    requires Inv(w) && j in w.dying
    ensures var i := Released(w.dying[j]);
      i.id == j && Settled(i) && i.coroutine == 0 && i.timer == 0 && !i.dying && !i.inUndo
  {
    hide Suspended, Ended, Settled, Released, C.OneRuns;
    assert DyingOk(w, j);
    ReleaseSettles(w.dying[j]);
  }

  // ---------------------------------------------------------------------------------------------
  // Runs
  // ---------------------------------------------------------------------------------------------

  datatype Step =
    | DoStart(q: StartRequest, env: Env)
    | DoSend(id: InstId, e: Event, env: Env)    // SendMsgEventToTran
    | DoNotify(id: InstId, e: Event, env: Env)  // SendMsgEvent or Abort on an instance at hand
    | DoTimer(t: TimerId, env: Env)
    | DoUpdate

  /** New instances get new ids, and the timeout event comes from the timer only. */
  ghost predicate Allowed(w: World, s: Step) {
    match s
    case DoStart(q, _) => q.id !in w.dying && q.id !in w.released
    case DoSend(id, e, _) => e != EVENT_TIMEOUT
    case DoNotify(id, e, _) => Known(w, id) && e != EVENT_TIMEOUT
    case DoTimer(t, _) => t in w.timers
    case DoUpdate => true
  }

  ghost function Apply(w: World, s: Step): (r: World)
    requires Inv(w) && Allowed(w, s)
  {
    match s
    case DoStart(q, env) => StartTran(w, q, env).0
    case DoSend(id, e, env) => Send(w, id, e, env).0
    case DoNotify(id, e, env) => SendToInst(w, id, e, env).0
    case DoTimer(t, env) => TimerFires(w, t, env)
    case DoUpdate => Update(w)
  }

  lemma ApplyKeeps(w: World, s: Step)
    requires Inv(w) && Allowed(w, s)
    ensures Inv(Apply(w, s))
  {
    match s {
      case DoStart(q, env) => StartKeeps(w, q, env);
      case DoSend(id, e, env) => if id != 0 && id in w.trans { SendKeeps(w, id, e, env); }
      case DoNotify(id, e, env) => SendKeeps(w, id, e, env);
      case DoTimer(t, env) => TimerKeeps(w, t, env);
      case DoUpdate => UpdateKeeps(w);
    }
  }

  /** `r` is reached from `w` by a run of allowed steps. */
  ghost predicate Reaches(w: World, steps: seq<Step>, r: World)
    decreases |steps|
  {
    if steps == [] then r == w
    else Inv(w) && Allowed(w, steps[0]) && Reaches(Apply(w, steps[0]), steps[1..], r)
  }

  lemma {:induction false} RunKeeps(w: World, steps: seq<Step>, r: World)
    requires Inv(w) && Reaches(w, steps, r)
    ensures Inv(r)
    decreases |steps|
  {
    if steps != [] {
      ApplyKeeps(w, steps[0]);
      RunKeeps(Apply(w, steps[0]), steps[1..], r);
    }
  }

  lemma InitialInv()
    ensures Inv(Initial)
  {
  }

  /**
   * The saga, over every run: a transaction that failed after its commands 0 to k-1 had passed is undone
   * as exactly k-1, ..., 0; a completed one undoes nothing; the result hooks are called once each.
   */
  lemma SagaAlways(steps: seq<Step>, r: World, id: InstId)
    requires Reaches(Initial, steps, r) && id in r.released
    ensures Settled(r.released[id])
    ensures r.released[id].coroutine == 0 && r.released[id].timer == 0 && !r.released[id].dying
  {
    InitialInv();
    RunKeeps(Initial, steps, r);
    assert ReleasedOk(r, id);
  }

  /** Over every run the live timers map one to one to waiting instances, each for the timeout of the
      command that its instance is at; a finished one leaves none. */
  lemma TimersMatch(steps: seq<Step>, r: World, t: TimerId)
    requires Reaches(Initial, steps, r) && t in r.timers
    ensures r.timers[t].inst in r.trans && r.trans[r.timers[t].inst].timer == t && r.trans[r.timers[t].inst].pc.Waiting?
    ensures var i := r.trans[r.timers[t].inst]; InCommand(i) && r.timers[t].ms == i.tran.cmds[i.curr].timeoutMs
    ensures r.timers[t].inst !in r.dying && r.timers[t].inst !in r.released
    ensures forall u :: u in r.timers && r.timers[u].inst == r.timers[t].inst ==> u == t
  {
    InitialInv();
    RunKeeps(Initial, steps, r);
    assert TimerOk(r, t);
    assert TransOk(r, r.timers[t].inst);
    forall u | u in r.timers && r.timers[u].inst == r.timers[t].inst ensures u == t {
      assert TimerOk(r, u);
    }
  }

  lemma EventsOf(i: Inst)
    requires Suspended(i)
    ensures i.pc.Waiting? && InCommand(i) && i.events != []
    ensures multiset(Recvs(i.log, i.curr)) + multiset(i.events) == multiset(i.tran.cmds[i.curr].events)
    ensures Dos(i.log) == Iota(i.curr + 1) && AllPassed(i, i.curr) && Undos(i.log) == [] && StopsOnComplete(i.log)
  {
    SameLogPassed(i.(timer := 0), i, i.curr);
  }

  /** Event accounting, over every run: what a waiting command has been handed and what it still awaits
      make up its event list, and all commands before it have passed. */
  lemma EventsAddUp(steps: seq<Step>, r: World, id: InstId)
    requires Reaches(Initial, steps, r) && id in r.trans
    ensures var i := r.trans[id];
      && i.pc.Waiting? && InCommand(i) && i.events != []
      && multiset(Recvs(i.log, i.curr)) + multiset(i.events) == multiset(i.tran.cmds[i.curr].events)
      && Dos(i.log) == Iota(i.curr + 1) && AllPassed(i, i.curr) && Undos(i.log) == [] && StopsOnComplete(i.log)
  {
    InitialInv();
    RunKeeps(Initial, steps, r);
    assert TransOk(r, id);
    EventsOf(r.trans[id]);
  }

  /** The life cycle, over every run: an instance is live, or at its end with a dead coroutine, or released. */
  lemma LifeCycle(steps: seq<Step>, r: World)
    requires Reaches(Initial, steps, r)
    ensures r.trans.Keys !! r.dying.Keys && r.trans.Keys !! r.released.Keys && r.dying.Keys !! r.released.Keys
    ensures forall id :: id in r.trans ==> !r.trans[id].dying
    ensures forall id :: id in r.dying ==>
      r.dying[id].dying && r.dying[id].coroutine in r.sched.routines
      && r.sched.routines[r.dying[id].coroutine].state == C.Dead
    ensures r.sched.cur == 0 && C.OneRuns(r.sched)
  {
    InitialInv();
    RunKeeps(Initial, steps, r);
    forall id | id in r.trans ensures !r.trans[id].dying {
      assert TransOk(r, id);
    }
    forall id | id in r.dying
      ensures r.dying[id].dying && r.dying[id].coroutine in r.sched.routines
        && r.sched.routines[r.dying[id].coroutine].state == C.Dead
    {
      assert DyingOk(r, id);
    }
  }

  // ---------------------------------------------------------------------------------------------
  // One instance and the scheduler
  // ---------------------------------------------------------------------------------------------

  /** The world once an instance has become `a` and the scheduler `s`. */
  function Put(w: World, a: Work, s: C.Sched): World {
    var i := a.inst;
    if i.dying then w.(sched := s, timers := a.timers, trans := w.trans - {i.id}, dying := w.dying[i.id := i])
    else w.(sched := s, timers := a.timers, trans := w.trans[i.id := i])
  }

  lemma DyingMeansEnd(a: Work, r: Work)
    requires Outcomes(a, r)
    ensures r.inst.id == a.inst.id && (r.inst.dying <==> !r.inst.pc.Waiting?)
  {
  }

  /** A step of the world that sends an event is what happens to the one instance and the scheduler. */
  lemma SendIsSent(w: World, id: InstId, e: Event, env: Env)
    requires Inv(w) && Known(w, id)
    ensures OnlyWaiting(InstOf(w, id), w.sched)
    ensures var (a, s, ret) := Sent(Work(InstOf(w, id), env.outs, w.timers, env.newTimer), w.sched, e);
      SendToInst(w, id, e, env) == (Put(w, a, s), ret)
  {
    hide Inv, SendToInst, Sent, Put;
    if id in w.dying {
      DeadSendIsSent(w, id, e, env);
    } else {
      LiveSendIsSent(w, id, e, env);
    }
  }

  lemma DeadSendIsSent(w: World, id: InstId, e: Event, env: Env)
    requires Inv(w) && id in w.dying
    ensures OnlyWaiting(w.dying[id], w.sched)
    ensures var (a, s, ret) := Sent(Work(w.dying[id], env.outs, w.timers, env.newTimer), w.sched, e);
      SendToInst(w, id, e, env) == (Put(w, a, s), ret)
  {
    hide Resume, Ended, Suspended, C.OneRuns;
    assert DyingOk(w, id);
    EndedDying(w.dying[id]);
    assert w.trans - {id} == w.trans && w.dying[id := w.dying[id]] == w.dying;
  }

  lemma LiveSendIsSent(w: World, id: InstId, e: Event, env: Env)
    requires Inv(w) && id in w.trans
    ensures OnlyWaiting(w.trans[id], w.sched)
    ensures var (a, s, ret) := Sent(Work(w.trans[id], env.outs, w.timers, env.newTimer), w.sched, e);
      SendToInst(w, id, e, env) == (Put(w, a, s), ret)
  {
    hide Resume, Outcomes, Ended, Suspended, C.OneRuns;
    var i := w.trans[id];
    assert TransOk(w, id);
    WaitsInCommand(i);
    LiveNotDying(i);
    assert C.ToWork(w.sched, i.coroutine).1 == OK;
    var a := Work(i, env.outs, w.timers, env.newTimer);
    var (a1, taken) := Taken(a, e);
    if taken == OK {
      SuspendedStays(i, e);
      ResumeOk(a1);
      DyingMeansEnd(a1, Resume(a1));
      assert Sent(a, w.sched, e).0 == Resume(a1);
    } else {
      assert w.trans[id := i] == w.trans;
      assert Sent(a, w.sched, e).0 == a1;
    }
  }

  lemma LiveNotDying(i: Inst)
    requires Suspended(i)
    ensures !i.dying
  {
  }

  lemma EndedDying(i: Inst)
    requires Ended(i)
    ensures i.dying
  {
  }

  lemma LaunchFails(a: Work, s: C.Sched, q: C.Request)
    ensures Launched(a, s, q).2 != OK ==> Launched(a, s, q).0 == a
  {
    hide Start;
  }

  /** And so is a step that starts a transaction. */
  lemma StartIsLaunched(w: World, q: StartRequest, env: Env)
    requires Inv(w) && q.owner != 0 && q.id != 0 && q.id !in w.trans && q.id !in w.dying
    ensures var (a, s, ret) := Launched(Work(NewInst(q.id, q.tran), env.outs, w.timers, env.newTimer), w.sched, q.routine);
      StartTran(w, q, env) == (if ret == OK then Put(w, a, s) else w.(sched := s), ret)
  {
    hide Start, Outcomes, Inv;
    var a := Work(NewInst(q.id, q.tran).(coroutine := q.routine.id), env.outs, w.timers, env.newTimer);
    StartOk(a);
    DyingMeansEnd(a, Start(a));
    assert w.trans[q.id := a.inst] - {q.id} == w.trans - {q.id};
    assert w.trans[q.id := a.inst][q.id := Start(a).inst] == w.trans[q.id := Start(a).inst];
  }
}
