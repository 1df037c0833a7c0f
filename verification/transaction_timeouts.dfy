/** From the `Wait` of a command to its timeout: the timer on the wheel, and what it does to the instance. */
module TransactionTimeouts {
  import T = Transactions
  import S = Server
  import E = ServerEdges
  import opened TimerRegistry
  import opened TimerWheel
  import opened TimerInvariant
  import opened TimerRuns

  const TRANSACTION_ON_TIMEOUT := 1

  /** The registration that `Wait` makes: once, for the timeout of the command, with the instance's id as data. */
  function WaitOp(timeoutMs: nat, timer: TimerId, now: nat): Op {
    Register(timeoutMs, timeoutMs, 1, TRANSACTION_ON_TIMEOUT, true, 8, timer, now)
  }

  /**
   * While nobody destroys it, the timer of a waiting command has fired at exactly the tick of its `Wait`
   * plus its timeout, once and not before; up to that tick it is registered, and after it no more.
   */
  lemma TimeoutOnTime(s: Wheel, timeoutMs: nat, timer: TimerId, now: nat, actions: seq<Action>, script: Script)
    requires var op := WaitOp(timeoutMs, timer, now);
      Inv(s) && Accepts(s.reg, op) && FireTicks(s.reg.log, timer) == []
      && SafeRun(s.reg, [Action.Call(op)] + actions, script)
    requires ScriptSpares(script, timer) && RunSpares(actions, timer)
    ensures var r := Run(DoOp(s, WaitOp(timeoutMs, timer, now)), actions, script).reg;
      var end := now + if timeoutMs == 0 then 1 else if timeoutMs > 86_399_999 then 86_399_999 else timeoutMs;
      && FireTicks(r.log, timer) == (if end <= r.lasttick then [end] else [])
      && (timer in r.timers <==> r.lasttick < end)
  {
    hide SafeRun, FireTicks, Run, Placed, Unlinked, Sane, ListsAgree, OnProgression;
    var op := WaitOp(timeoutMs, timer, now);
    DriftFree(s, op, actions, script);
    var r := Run(DoOp(s, op), actions, script).reg;
    var t := FireTicks(r.log, timer);
    var step := if timeoutMs == 0 then 1 else if timeoutMs > 86_399_999 then 86_399_999 else timeoutMs;
    OnlyOnce(t, now + step, step, r.lasttick);
  }

  lemma OnlyOnce(t: seq<nat>, first: nat, step: nat, last: nat)
    requires OnProgression(t, first, step, 1, last)
    ensures t == if first <= last then [first] else []
  {
    assert 0 < |t| <==> HasCome(0, first, step, 1, last);
    assert 1 < |t| <==> HasCome(1, first, step, 1, last);
  }

  /** The step concerns this instance: an event for it, or its timer. */
  predicate Concerns(w: S.World, s: S.Step, id: T.InstId) {
    match s
    case DoSend(to, _, _) => to == id
    case DoNotify(to, _, _) => to == id
    case DoTimer(t, _) => t in w.timers && w.timers[t].inst == id
    case _ => false
  }

  /** A waiting instance that no step concerns keeps its timer, and waits on as it is. */
  lemma UnconcernedKeepsTimer(w: S.World, s: S.Step, id: T.InstId)
    requires S.Inv(w) && S.Allowed(w, s) && id in w.trans && w.trans[id].timer != 0 && !Concerns(w, s, id)
    ensures var w' := S.Apply(w, s);
      && id in w'.trans && w'.trans[id] == w.trans[id]
      && w.trans[id].timer in w'.timers && w'.timers[w.trans[id].timer].inst == id
  {
    S.ApplyKeeps(w, s);
    E.OthersStay(w, s, id);
    assert S.TransOk(S.Apply(w, s), id);
  }

  ghost predicate NoneConcerns(w: S.World, steps: seq<S.Step>, id: T.InstId)
    decreases |steps|
  {
    steps == [] ||
    (S.Inv(w) && S.Allowed(w, steps[0]) && !Concerns(w, steps[0], id) && NoneConcerns(S.Apply(w, steps[0]), steps[1..], id))
  }

  lemma {:induction false} UnconcernedWaitsOn(w: S.World, steps: seq<S.Step>, r: S.World, id: T.InstId)
    requires S.Inv(w) && S.Reaches(w, steps, r) && NoneConcerns(w, steps, id)
    requires id in w.trans && w.trans[id].timer != 0
    ensures id in r.trans && r.trans[id] == w.trans[id]
    ensures w.trans[id].timer in r.timers && r.timers[w.trans[id].timer].inst == id
    decreases |steps|
  {
    hide S.Inv, S.Apply;
    if steps == [] {
      assert S.TransOk(w, id) by { E.Waits(w, id); }
    } else {
      UnconcernedKeepsTimer(w, steps[0], id);
      S.ApplyKeeps(w, steps[0]);
      UnconcernedWaitsOn(S.Apply(w, steps[0]), steps[1..], r, id);
    }
  }

  /** When its timer fires, the coroutine of a waiting instance goes on with the timeout event. */
  lemma TimeoutHanded(w: S.World, t: TimerId, env: S.Env)
    requires S.Inv(w) && t in w.timers
    ensures var id := w.timers[t].inst;
      && id in w.trans
      && var i := w.trans[id];
         var a := T.Work(i.(timer := 0, eventType := T.EVENT_TIMEOUT), env.outs, w.timers, env.newTimer);
         && i.pc.Waiting? && T.InCommand(i)
         && var r, w' := T.Resume(a).inst, S.TimerFires(w, t, env);
            (if r.dying then id in w'.dying && w'.dying[id] == r else id in w'.trans && w'.trans[id] == r)
            && t !in w'.timers
  {
    hide T.Resume, T.Outcomes, T.Suspended, S.Inv, S.SendToInst, S.Sent;
    TimerOwner(w, t);
    var id := w.timers[t].inst;
    E.Waits(w, id);
    E.LiveSent(w, id, T.EVENT_TIMEOUT, env);
    E.SentEnds(w, id, T.EVENT_TIMEOUT, env);
    S.SendIsSent(w, id, T.EVENT_TIMEOUT, env);
  }

  lemma TimerOwner(w: S.World, t: TimerId)
    requires S.Inv(w) && t in w.timers
    ensures w.timers[t].inst in w.trans
  {
    assert S.TimerOk(w, t);
  }
}
