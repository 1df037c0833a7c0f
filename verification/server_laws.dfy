/**
 * What each step leads to for the instance that it concerns, in full: how an event that is waited for, a
 * timeout and a start turn out, hook by hook.
 */
module ServerLaws {
  import opened Sequences
  import opened Transactions
  import opened TransactionSteps
  import opened Server
  import E = ServerEdges
  import C = Coroutines

  /** The outcome of the first hook called. */
  function First(env: Env): Outcome {
    if env.outs == [] then Outcome(OK, true, false) else env.outs[0]
  }

  function Rest(env: Env): seq<Outcome> {
    if env.outs == [] then [] else env.outs[1..]
  }

  /** The timers that are left as the coroutine of `id` is woken by `e`. */
  function TimersLeft(w: World, id: InstId, e: Event): map<TimerId, Alarm>
    requires id in w.trans
  {
    if e == EVENT_TIMEOUT then w.timers else w.timers - {w.trans[id].timer}
  }

  /** There is a timer to be had for another wait. */
  predicate TimerToBeHad(w: World, id: InstId, e: Event, env: Env)
    requires id in w.trans
  {
    env.newTimer != 0 && env.newTimer !in TimersLeft(w, id, e)
  }

  function FirstReason(i: Inst, code: int): int {
    if i.failReason != 0 then i.failReason else code
  }

  /** The instance is the live one, or the one at its end, that `w` knows by this id. */
  predicate Stands(w: World, id: InstId, r: Inst) {
    if r.dying then id in w.dying && id !in w.trans && w.dying[id] == r
    else id in w.trans && id !in w.dying && w.trans[id] == r
  }

  lemma Woken(w: World, id: InstId, e: Event, env: Env)
    requires Inv(w) && id in w.trans && e != EVENT_INVALID && (e == EVENT_TIMEOUT || e == EVENT_ABORT || e in w.trans[id].events)
    ensures var i, (w', ret) := w.trans[id], SendToInst(w, id, e, env);
      var a := Work(i.(timer := 0, eventType := e), env.outs, TimersLeft(w, id, e), env.newTimer);
      && ret == OK && a.inst.pc.Waiting? && InCommand(a.inst) && Suspended(a.inst) && !i.dying && i.id == id
      && i.events == i.pc.rest && Outcomes(a, Resume(a))
      && Stands(w', id, Resume(a).inst) && w'.timers == Resume(a).timers
  {
    hide Inv, SendToInst, Sent, Outcomes, Suspended, Resume;
    var i := w.trans[id];
    E.LiveId(w, id);
    E.LiveDisjoint(w, id);
    E.Waits(w, id);
    SendIsSent(w, id, e, env);
    E.LiveSent(w, id, e, env);
    E.SentEnds(w, id, e, env);
    SameEvents(w, id);
    var a := Work(i.(timer := 0, eventType := e), env.outs, TimersLeft(w, id, e), env.newTimer);
    assert Taken(E.WorkOf(w, id, env), e) == (a, OK);
  }

  lemma SameEvents(w: World, id: InstId)
    requires Inv(w) && id in w.trans
    ensures w.trans[id].pc.Waiting? && w.trans[id].events == w.trans[id].pc.rest && InCommand(w.trans[id]) && w.trans[id].events != [] && |w.trans[id].events| <= 10
    ensures w.trans[id].tran.cmds[w.trans[id].curr].timeoutMs > 0
  {
    assert TransOk(w, id);
  }

  /** The state in which a hook that has been handed the event leaves its coroutine. */
  function Handed(w: World, id: InstId, e: Event, env: Env, h: Hook): Work
    requires id in w.trans
  {
    var i := w.trans[id];
    Work(i.(timer := 0, eventType := e, log := i.log + [h], complete := i.complete || First(env).complete),
         Rest(env), TimersLeft(w, id, e), env.newTimer)
  }

  /** The transaction waits on in the same command for `events`, or has failed there for want of a timer. */
  predicate WaitsOn(w: World, id: InstId, e: Event, env: Env, r: Inst, log: seq<Hook>, events: seq<Event>)
    requires id in w.trans && InCommand(w.trans[id])
  {
    var i := w.trans[id];
    && r.log == log && r.curr == i.curr
    && (if TimerToBeHad(w, id, e, env) then
          && !r.dying && r.pc == Waiting(events) && r.events == events && r.waitingIndex == i.curr
          && r.timer == env.newTimer && r.failReason == i.failReason
        else FailedAt(r, i.curr, FirstReason(i, SVR_INTERNAL)))
  }

  /** The timers after an instance has been woken: one more if it waits again. */
  predicate TimersAfter(w: World, id: InstId, e: Event, env: Env, r: Inst, timers: map<TimerId, Alarm>)
    requires id in w.trans
  {
    var cmds := w.trans[id].tran.cmds;
    if r.dying then timers == TimersLeft(w, id, e)
    else
      && 0 <= r.curr < |cmds|
      && timers == TimersLeft(w, id, e)[env.newTimer := Alarm(id, cmds[r.curr].timeoutMs)]
  }

  /** A hook that refuses its event ends the transaction at this command. */
  lemma RefusedEvent(w: World, id: InstId, e: Event, env: Env)
    requires Inv(w) && id in w.trans && e in w.trans[id].events && e != EVENT_INVALID && First(env).ret != OK
    ensures var i, (w', ret) := w.trans[id], SendToInst(w, id, e, env);
      ret == OK && Known(w', id)
      && var r := InstOf(w', id);
         && Stands(w', id, r) && FailedAt(r, i.curr, FirstReason(i, First(env).ret))
         && r.log == i.log + [OnRecvMsgEvent(i.curr, e, First(env).complete)] && w'.timers == TimersLeft(w, id, e)
  {
    hide Inv, SendToInst, Suspended, Outcomes, CommandOver;
    Woken(w, id, e, env);
    FailsWith(Handed(w, id, e, env, OnRecvMsgEvent(w.trans[id].curr, e, First(env).complete)), First(env).ret);
  }

  /**
   * An event that is accepted while others are still to come: the transaction waits for exactly those, if
   * and only if there is a timer to be had.
   */
  lemma EventWithMoreToCome(w: World, id: InstId, e: Event, env: Env)
    requires Inv(w) && id in w.trans && e in w.trans[id].events && e != EVENT_INVALID && First(env).ret == OK
    requires |w.trans[id].events| > 1
    ensures InCommand(w.trans[id])
    ensures var i, (w', ret) := w.trans[id], SendToInst(w, id, e, env);
      ret == OK && Known(w', id)
      && var r := InstOf(w', id);
         && Stands(w', id, r) && TimersAfter(w, id, e, env, r, w'.timers)
         && (!r.dying <==> TimerToBeHad(w, id, e, env))
         && (!r.dying ==> multiset(r.events) == multiset(i.events) - multiset{e})
         && WaitsOn(w, id, e, env, r, i.log + [OnRecvMsgEvent(i.curr, e, First(env).complete)], Without(i.events, e))
  {
    hide Inv, SendToInst, Suspended, Outcomes, AwaitRest;
    Woken(w, id, e, env);
    SameEvents(w, id);
    var i := w.trans[id];
    WithoutCount(i.events, e);
    Awaits(Handed(w, id, e, env, OnRecvMsgEvent(i.curr, e, First(env).complete)), Without(i.events, e));
  }

  /**
   * The last event, accepted, when nothing has failed before and nobody has called `complete()`: the next
   * commands are run, up to the first that waits, fails or completes, or through to the end.
   */
  lemma LastEventGoesOn(w: World, id: InstId, e: Event, env: Env) returns (k: nat)
    requires Inv(w) && id in w.trans && w.trans[id].events == [e] && e != EVENT_INVALID && First(env).ret == OK
    requires w.trans[id].failReason == 0 && !w.trans[id].complete && !First(env).complete
    ensures InCommand(w.trans[id])
    ensures var i, (w', ret) := w.trans[id], SendToInst(w, id, e, env);
      ret == OK && Known(w', id)
      && var r := InstOf(w', id);
         && Stands(w', id, r)
         && Ran(Handed(w, id, e, env, OnRecvMsgEvent(i.curr, e, false)), i.curr + 1, k, r, w'.timers)
  {
    hide Inv, SendToInst, Suspended, Outcomes, RunFrom;
    Woken(w, id, e, env);
    SameEvents(w, id);
    var i := w.trans[id];
    var a := Handed(w, id, e, env, OnRecvMsgEvent(i.curr, e, false));
    assert Without(i.events, e) == [];
    assert AwaitRest(a, []) == CommandOver(a, OK);
    k := RunsExactly(a, i.curr + 1);
  }

  /** The last event, accepted, of a transaction that has been aborted, or completed by a hook. */
  lemma LastEventEnds(w: World, id: InstId, e: Event, env: Env)
    requires Inv(w) && id in w.trans && w.trans[id].events == [e] && e != EVENT_INVALID && First(env).ret == OK
    requires w.trans[id].failReason != 0 || w.trans[id].complete || First(env).complete
    ensures var i, (w', ret) := w.trans[id], SendToInst(w, id, e, env);
      ret == OK && id in w'.dying
      && var r := w'.dying[id];
         && Stands(w', id, r) && r.log == i.log + [OnRecvMsgEvent(i.curr, e, First(env).complete)]
         && (if i.failReason != 0 then FailedAt(r, i.curr, i.failReason) else Completed(r))
         && w'.timers == TimersLeft(w, id, e)
  {
    hide Inv, SendToInst, Suspended, Outcomes, RunFrom;
    Woken(w, id, e, env);
    SameEvents(w, id);
    var i := w.trans[id];
    var a := Handed(w, id, e, env, OnRecvMsgEvent(i.curr, e, First(env).complete));
    assert Without(i.events, e) == [];
    assert AwaitRest(a, []) == CommandOver(a, OK);
    if i.failReason != 0 {
      FailsWith(a, OK);
    }
  }

  /** The command puts up with its timeout, or ends the transaction there. */
  lemma TimeoutExactly(w: World, t: TimerId, env: Env)
    requires Inv(w) && t in w.timers && w.timers[t].inst in w.trans
    requires EVENT_TIMEOUT !in w.trans[w.timers[t].inst].events
    ensures InCommand(w.trans[w.timers[t].inst])
    ensures var id, w' := w.timers[t].inst, TimerFires(w, t, env);
      Known(w', id)
      && var i, r := w.trans[id], InstOf(w', id);
         var log := i.log + [OnTimeout(i.curr, First(env).complete)];
         && Stands(w', id, r) && t !in w'.timers
         && (exists timers :: TimersAfter(w, id, EVENT_TIMEOUT, env, r, timers) && w'.timers == timers - {t})
         && (if First(env).ret == OK then WaitsOn(w, id, EVENT_TIMEOUT, env, r, log, i.events)
             else FailedAt(r, i.curr, FirstReason(i, First(env).ret)) && r.log == log)
  {
    hide Inv, SendToInst, Suspended, Outcomes, AwaitRest, CommandOver;
    var id := w.timers[t].inst;
    Woken(w, id, EVENT_TIMEOUT, env);
    SameEvents(w, id);
    var i := w.trans[id];
    var a := Handed(w, id, EVENT_TIMEOUT, env, OnTimeout(i.curr, First(env).complete));
    if First(env).ret == OK {
      Awaits(a, i.events);
    } else {
      FailsWith(a, First(env).ret);
    }
  }

  /**
   * Over every run, whatever has become of a transaction: no command after the first was started once a
   * hook had called `complete()`.
   */
  lemma CompleteStops(steps: seq<Step>, w: World, id: InstId, k: nat)
    requires Reaches(Initial, steps, w) && (Known(w, id) || id in w.released)
    ensures var log := if Known(w, id) then InstOf(w, id).log else w.released[id].log;
      k < |log| && log[k].Do? && log[k].index > 0 ==>
        forall j :: 0 <= j < k ==> !Completes(log[j])
  {
    InitialInv();
    RunKeeps(Initial, steps, w);
    if id in w.dying {
      assert DyingOk(w, id);
      EndedStops(w.dying[id]);
    } else if id in w.trans {
      assert TransOk(w, id);
      EventsOf(w.trans[id]);
    } else {
      assert ReleasedOk(w, id);
      SettledStops(w.released[id]);
    }
    var log := if Known(w, id) then InstOf(w, id).log else w.released[id].log;
    assert StopsOnComplete(log);
    if k < |log| {
      assert forall j :: 0 <= j < k ==> log[..k][j] == log[j];
    }
  }

  lemma EndedStops(i: Inst)
    requires Ended(i)
    ensures StopsOnComplete(i.log)
  {
  }

  lemma SettledStops(i: Inst)
    requires Settled(i)
    ensures StopsOnComplete(i.log)
  {
  }

  // ---------------------------------------------------------------------------------------------
  // Starts
  // ---------------------------------------------------------------------------------------------

  /** A start succeeds exactly if all ids are new, the request is in order and there is memory. */
  lemma StartSucceeds(w: World, q: StartRequest, env: Env)
    requires Inv(w)
    ensures StartTran(w, q, env).1 == OK <==>
      && q.owner != 0 && q.id != 0 && q.id !in w.trans
      && C.InOrder(q.routine) && q.routine.hasMemory && q.routine.id !in w.sched.routines
  {
    hide Start, Suspended, Ended;
    C.InOrderExactly(q.routine);
  }

  /** How a transaction that has been started turns out, up to its first wait or its end. */
  lemma StartExactly(w: World, q: StartRequest, env: Env) returns (k: nat)
    requires Inv(w) && q.id !in w.dying && StartTran(w, q, env).1 == OK
    ensures var w', start := StartTran(w, q, env).0, OnStart(First(env).ret, First(env).complete);
      var i := NewInst(q.id, q.tran).(coroutine := q.routine.id, log := [start], complete := First(env).complete);
      Known(w', q.id)
      && var r := InstOf(w', q.id);
         && Stands(w', q.id, r)
         && (if First(env).ret == OK then Ran(Work(i, Rest(env), w.timers, env.newTimer), 0, k, r, w'.timers)
             else FailedAt(r, -1, SVR_INTERNAL) && r.log == [start] && w'.timers == w.timers)
  {
    hide Inv, RunFrom, Outcomes, Launched;
    var a := Work(NewInst(q.id, q.tran), env.outs, w.timers, env.newTimer);
    StartIsLaunched(w, q, env);
    E.LaunchedId(a, w.sched, q.routine);
    LaunchStarts(a, w.sched, q.routine);
    var start := OnStart(First(env).ret, First(env).complete);
    var i := NewInst(q.id, q.tran).(coroutine := q.routine.id, log := [start], complete := First(env).complete);
    k := 0;
    if First(env).ret == OK {
      var b := Work(i, Rest(env), w.timers, env.newTimer);
      assert [] + [start] == [start];
      assert Start(a.(inst := a.inst.(coroutine := q.routine.id))) == RunFrom(b, 0);
      k := RunsExactly(b, 0);
    }
  }

  lemma LaunchStarts(a: Work, s: C.Sched, q: C.Request)
    ensures Launched(a, s, q).2 == OK ==> Launched(a, s, q).0 == Start(a.(inst := a.inst.(coroutine := q.id)))
  {
    hide Start;
  }
}
