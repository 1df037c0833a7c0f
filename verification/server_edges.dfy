/** Where the server does not do what one might expect of it, and exactly when. */
module ServerEdges {
  import opened Transactions
  import opened Server
  import C = Coroutines

  /** An instance and what its coroutine may use. */
  function WorkOf(w: World, id: InstId, env: Env): Work
    requires Known(w, id)
  {
    Work(InstOf(w, id), env.outs, w.timers, env.newTimer)
  }

  /** What becomes of a waiting instance that is sent an event, in terms of its coroutine. */
  lemma LiveSent(w: World, id: InstId, e: Event, env: Env)
    requires Inv(w) && id in w.trans
    ensures OnlyWaiting(w.trans[id], w.sched) && InstOf(w, id) == w.trans[id]
    ensures var a := WorkOf(w, id, env);
      var (a1, taken) := Taken(a, e);
      if taken != OK then Sent(a, w.sched, e) == (a1, w.sched, taken)
      else
        && a1.inst.pc.Waiting? && InCommand(a1.inst) && Suspended(a1.inst) && a1.inst.timer == 0
        && Sent(a, w.sched, e).0 == Resume(a1) && Sent(a, w.sched, e).2 == OK && Outcomes(a1, Resume(a1))
  {
    hide Resume, Outcomes, Ended, Suspended, C.OneRuns;
    var i := w.trans[id];
    assert TransOk(w, id);
    WaitsInCommand(i);
    assert C.ToWork(w.sched, i.coroutine).1 == OK;
    var (a1, taken) := Taken(WorkOf(w, id, env), e);
    if taken == OK {
      SuspendedStays(i, e);
      WaitsInCommand(a1.inst);
      ResumeOk(a1);
    }
  }

  /** An event that is handed to the coroutine of the instance. */
  predicate Delivers(w: World, s: Step, id: InstId)
    requires id in w.trans
  {
    match s
    case DoSend(to, e, _) => to == id && e != EVENT_INVALID && (e == EVENT_TIMEOUT || e == EVENT_ABORT || e in w.trans[id].events)
    case DoNotify(to, e, _) => to == id && e != EVENT_INVALID && (e == EVENT_TIMEOUT || e == EVENT_ABORT || e in w.trans[id].events)
    case DoTimer(t, _) => t in w.timers && w.timers[t].inst == id
    case _ => false
  }

  /** An event for the instance that it does not wait for, and that is not one of the two it always takes. */
  predicate Unexpected(w: World, s: Step, id: InstId)
    requires id in w.trans
  {
    && (s.DoSend? || s.DoNotify?) && s.id == id
    && s.e !in {EVENT_INVALID, EVENT_TIMEOUT, EVENT_ABORT} && s.e !in w.trans[id].events
  }

  /**
   * Whatever step is taken: an instance that waits before and after it has no timer then exactly if the
   * step sent it an event that it does not wait for, or if it had none before and was not woken.
   */
  lemma NoTimerExactly(w: World, s: Step, id: InstId)
    requires Inv(w) && Allowed(w, s) && id in w.trans && id != 0
    requires id in Apply(w, s).trans
    ensures Apply(w, s).trans[id].timer == 0 <==>
      Unexpected(w, s, id) || (w.trans[id].timer == 0 && !Delivers(w, s, id))
  {
    hide Inv, SendToInst, StartTran, Outcomes, Suspended;
    match s {
      case DoStart(q, env) => StartLeavesOthers(w, q, env, id);
      case DoSend(to, e, env) => if to != 0 && to in w.trans { SendTimer(w, to, e, env, id); }
      case DoNotify(to, e, env) => SendTimer(w, to, e, env, id);
      case DoTimer(t, env) => if w.timers[t].inst in w.trans { SendTimer(w, w.timers[t].inst, EVENT_TIMEOUT, env, id); }
      case DoUpdate =>
    }
  }

  /** A step that neither sends to the instance nor fires its timer leaves it as it is. */
  lemma OthersStay(w: World, s: Step, id: InstId)
    requires Inv(w) && Allowed(w, s) && id in w.trans
    requires (s.DoSend? || s.DoNotify?) ==> s.id != id
    requires s.DoTimer? ==> w.timers[s.t].inst != id
    ensures id in Apply(w, s).trans && Apply(w, s).trans[id] == w.trans[id]
  {
    hide Inv, SendToInst, StartTran;
    match s {
      case DoStart(q, env) => StartLeavesOthers(w, q, env, id);
      case DoSend(to, e, env) => if to != 0 && to in w.trans { SendLeavesOthers(w, to, e, env, id); }
      case DoNotify(to, e, env) => SendLeavesOthers(w, to, e, env, id);
      case DoTimer(t, env) =>
        if w.timers[t].inst in w.trans { SendLeavesOthers(w, w.timers[t].inst, EVENT_TIMEOUT, env, id); }
      case DoUpdate =>
    }
  }

  lemma SendLeavesOthers(w: World, to: InstId, e: Event, env: Env, id: InstId)
    requires Inv(w) && Known(w, to) && id in w.trans && to != id
    ensures id in SendToInst(w, to, e, env).0.trans && SendToInst(w, to, e, env).0.trans[id] == w.trans[id]
  {
    hide Inv, SendToInst, Sent;
    SentEnds(w, to, e, env);
    SendIsSent(w, to, e, env);
  }

  lemma StartLeavesOthers(w: World, q: StartRequest, env: Env, id: InstId)
    requires Inv(w) && id in w.trans && q.id !in w.dying
    ensures id in StartTran(w, q, env).0.trans && StartTran(w, q, env).0.trans[id] == w.trans[id]
  {
    hide Inv, Launched, Start;
    if q.owner != 0 && q.id != 0 && q.id !in w.trans {
      StartIsLaunched(w, q, env);
      LaunchedId(Work(NewInst(q.id, q.tran), env.outs, w.timers, env.newTimer), w.sched, q.routine);
    }
  }

  lemma LaunchedId(a: Work, s: C.Sched, q: C.Request)
    requires a.inst == NewInst(a.inst.id, a.inst.tran)
    ensures Launched(a, s, q).0.inst.id == a.inst.id
    ensures Launched(a, s, q).2 == OK ==> (Launched(a, s, q).0.inst.dying <==> !Launched(a, s, q).0.inst.pc.Waiting?)
  {
    hide Outcomes, Start;
    var b := a.(inst := a.inst.(coroutine := q.id));
    StartOk(b);
    DyingMeansEnd(b, Start(b));
  }

  /** What an event sent to `to` does to the timer of the instance `id`. */
  lemma SendTimer(w: World, to: InstId, e: Event, env: Env, id: InstId)
    requires Inv(w) && Known(w, to) && id in w.trans
    requires id in SendToInst(w, to, e, env).0.trans
    ensures var expected := e == EVENT_TIMEOUT || e == EVENT_ABORT || e in w.trans[id].events;
      SendToInst(w, to, e, env).0.trans[id].timer == 0 <==>
      if to == id && e != EVENT_INVALID then !expected else w.trans[id].timer == 0
  {
    hide Inv, SendToInst, Outcomes, Suspended, Resume, Sent;
    SendIsSent(w, to, e, env);
    if to in w.dying {
      DeadSentId(w, to, e, env);
    } else {
      LiveSent(w, to, e, env);
      KeepsIdAndTimer(w, to, e, env);
    }
  }

  lemma DeadSentId(w: World, id: InstId, e: Event, env: Env)
    requires Inv(w) && id in w.dying
    ensures id !in w.trans && OnlyWaiting(w.dying[id], w.sched)
    ensures Sent(WorkOf(w, id, env), w.sched, e).0.inst.id == id
  {
    hide Ended, Suspended, C.OneRuns;
    assert DyingOk(w, id);
  }

  lemma KeepsIdAndTimer(w: World, id: InstId, e: Event, env: Env)
    requires Inv(w) && id in w.trans && OnlyWaiting(w.trans[id], w.sched)
    ensures var i := Sent(WorkOf(w, id, env), w.sched, e).0.inst;
      && i.id == id
      && (!i.dying ==> (i.timer == 0 <==>
            if e == EVENT_INVALID then w.trans[id].timer == 0 else e !in {EVENT_TIMEOUT, EVENT_ABORT} && e !in w.trans[id].events))
  {
    hide Inv, Suspended, Resume, Sent;
    LiveSent(w, id, e, env);
    LiveId(w, id);
    var (a1, taken) := Taken(WorkOf(w, id, env), e);
    if taken == OK {
      DyingMeansEnd(a1, Resume(a1));
    }
  }

  /** Only a live instance can come to its end, and it does so by not waiting again. */
  lemma SentEnds(w: World, id: InstId, e: Event, env: Env)
    requires Inv(w) && Known(w, id)
    ensures OnlyWaiting(InstOf(w, id), w.sched)
    ensures C.ToWork(w.sched, InstOf(w, id).coroutine).1 == OK ==> id in w.trans
    ensures var (a, _, ret) := Sent(WorkOf(w, id, env), w.sched, e);
      && a.inst.id == id
      && (if id in w.trans then a.inst.dying <==> ret == OK && !a.inst.pc.Waiting? else a.inst.dying && ret != OK)
  {
    hide Suspended, Ended, Resume, C.OneRuns, Outcomes;
    if id in w.dying {
      DeadSentId(w, id, e, env);
      assert DyingOk(w, id);
      EndedDying(w.dying[id]);
    } else {
      LiveSent(w, id, e, env);
      LiveId(w, id);
      var (a1, taken) := Taken(WorkOf(w, id, env), e);
      if taken == OK {
        DyingMeansEnd(a1, Resume(a1));
      }
    }
  }

  lemma Waits(w: World, id: InstId)
    requires Inv(w) && id in w.trans
    ensures TransOk(w, id) && w.trans[id].pc.Waiting? && InCommand(w.trans[id])
  {
    assert TransOk(w, id);
    WaitsInCommand(w.trans[id]);
  }

  lemma LiveId(w: World, id: InstId)
    requires Inv(w) && id in w.trans
    ensures w.trans[id].id == id && !w.trans[id].dying
  {
    assert TransOk(w, id);
    LiveNotDying(w.trans[id]);
  }

  /** The invalid event is refused and changes nothing at all. */
  lemma InvalidEventRefused(w: World, id: InstId, env: Env)
    requires Inv(w) && Known(w, id)
    ensures SendToInst(w, id, EVENT_INVALID, env) == (w, INVALID_PARA)
  {
    SendIsSent(w, id, EVENT_INVALID, env);
  }

  /** An unexpected event is refused, and changes nothing but that the timer is gone. */
  lemma UnexpectedEventDropsTimer(w: World, id: InstId, e: Event, env: Env)
    requires Inv(w) && id in w.trans && e !in {EVENT_INVALID, EVENT_TIMEOUT, EVENT_ABORT} && e !in w.trans[id].events
    ensures SendToInst(w, id, e, env).1 == LOGIC
    ensures var (w', ret) := Send(w, id, e, env);
      ret == SVR_INTERNAL && id in w'.trans && w'.trans[id] == w.trans[id].(timer := 0)
      && w'.timers == w.timers - {w.trans[id].timer} && w'.sched == w.sched
  {
    assert TransOk(w, id);
    NoZeroTimer(w);
    assert w.timers - {0} == w.timers;
  }

  /**
   * An abort of a command that does not list it as one of its events does not end the transaction: it
   * waits on, for the same events and with a new timer, exactly if there is a timer to be had.
   */
  lemma AbortWaitsExactly(w: World, id: InstId, env: Env)
    requires Inv(w) && id in w.trans && EVENT_ABORT !in w.trans[id].events
    ensures var (w', ret) := Send(w, id, EVENT_ABORT, env);
      var timer := env.newTimer != 0 && env.newTimer !in w.timers - {w.trans[id].timer};
      && ret == OK
      && (id in w'.trans <==> timer) && (id in w'.dying <==> !timer)
      && (timer ==>
            w'.trans[id].failReason == ABORT_TRAN && w'.trans[id].events == w.trans[id].events
            && w'.trans[id].timer == env.newTimer && w'.trans[id].log == w.trans[id].log)
      && (!timer ==>
            w'.dying[id].failReason == ABORT_TRAN && w'.dying[id].failIndex == w.trans[id].curr
            && w'.dying[id].log == w.trans[id].log)
  {
    hide Inv, SendToInst, Sent, Outcomes, Suspended, Resume;
    var i := w.trans[id];
    LiveId(w, id);
    LiveDisjoint(w, id);
    SendIsSent(w, id, EVENT_ABORT, env);
    LiveSent(w, id, EVENT_ABORT, env);
    var (a1, _) := Taken(WorkOf(w, id, env), EVENT_ABORT);
    assert a1.timers == w.timers - {i.timer};
    AbortResumed(a1);
  }

  lemma LiveDisjoint(w: World, id: InstId)
    requires Inv(w) && id in w.trans
    ensures id != 0 && id !in w.dying && 0 !in w.timers && w.timers - {0} == w.timers
  {
    assert TransOk(w, id);
    NoZeroTimer(w);
  }

  lemma AbortResumed(a: Work)
    requires Suspended(a.inst) && a.inst.timer == 0 && a.inst.eventType == EVENT_ABORT
    requires EVENT_ABORT !in a.inst.events
    ensures a.inst.pc.Waiting? && InCommand(a.inst)
    ensures var r := Resume(a).inst;
      && r.id == a.inst.id && (r.dying <==> !TimerAvailable(a)) && r.log == a.inst.log && r.failReason == ABORT_TRAN
      && (TimerAvailable(a) ==> r.events == a.inst.events && r.timer == a.newTimer)
      && (!TimerAvailable(a) ==> r.failIndex == a.inst.curr)
  {
    var i := a.inst;
    LiveNotDying(i);
    var b := a.(inst := i.(failReason := ABORT_TRAN));
    assert Resume(a) == AwaitRest(b, i.pc.rest);
    if !TimerAvailable(a) {
      assert AwaitRest(b, i.pc.rest) == CommandOver(b, SVR_INTERNAL);
      assert CommandOver(b, SVR_INTERNAL) == AtTheEnd(b.(inst := b.inst.(failIndex := i.curr)));
    }
  }

  /**
   * Over every run, of a transaction that has failed after its first command and needs undo: the commands
   * before the failed one have been undone, in reverse, exactly if no hook had called `complete()`.
   */
  lemma UndoneExactly(steps: seq<Step>, r: World, id: InstId)
    requires Reaches(Initial, steps, r) && id in r.released
    requires r.released[id].IsFailed() && r.released[id].tran.needUndo && |Dos(r.released[id].log)| > 1
    ensures var log := r.released[id].log;
      && (Undos(log) == Down(|Dos(log)| - 1) <==> !CompleteCalled(log))
      && (CompleteCalled(log) ==> Undos(log) == [])
      && (r.released[id].complete <==> CompleteCalled(log))
  {
    hide AllPassed, Dos, Undos, Results, CompleteCalled;
    SagaAlways(steps, r, id);
    var n: nat :| SettledAfter(r.released[id], n);
  }

  /** A timeout event that does not come from the timer leaves the timer behind, and only such an event does. */
  lemma TimeoutFromOutside(w: World, id: InstId, e: Event, env: Env)
    requires Inv(w) && id in w.trans
    ensures Inv(Send(w, id, e, env).0) <==> !(e == EVENT_TIMEOUT && w.trans[id].timer != 0)
  {
    assert TransOk(w, id);
    var t := w.trans[id].timer;
    if e == EVENT_TIMEOUT && t != 0 {
      TimerLeftBehind(w, id, env);
    } else {
      SendKeeps(w, id, e, env);
    }
  }

  lemma TimerLeftBehind(w: World, id: InstId, env: Env)
    requires Inv(w) && id in w.trans && w.trans[id].timer != 0
    ensures var t, w' := w.trans[id].timer, SendToInst(w, id, EVENT_TIMEOUT, env).0;
      t in w'.timers && !TimerOk(w', t)
  {
    var i := w.trans[id];
    assert TransOk(w, id);
    GoBusy(w, id, i.timer);
    SuspendedStays(i, EVENT_TIMEOUT);
    var a := Work(i.(timer := 0, eventType := EVENT_TIMEOUT), env.outs, w.timers, env.newTimer);
    ResumeOk(a);
    assert Outcomes(a, Resume(a));
  }
}
