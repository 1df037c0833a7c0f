/** The calls that the main routine makes on the server, as the steps of module Server. */
module MainRoutines {
  import opened Transactions
  import opened TransactionObjects
  import opened TransactionManager
  import opened TransactionServers
  import S = Server
  import E = ServerEdges
  import L = ServerLaws
  import C = Coroutines

  /** The objects `m` stand for the instances `v`. */
  ghost predicate Shows(m: map<InstId, TransactionInstance>, v: map<InstId, Inst>, env: Surroundings)
    reads m.Values
  {
    m.Keys == v.Keys && forall id :: id in m ==> ShowsOne(m[id], id, v[id], env)
  }

  ghost predicate ShowsOne(i: TransactionInstance, id: InstId, v: Inst, env: Surroundings)
    reads i
  {
    i.id == id && i.env == env && i.Inst() == v
  }

  /** The same, but for the one instance that has changed. */
  ghost predicate ShowsBut(m: map<InstId, TransactionInstance>, v: map<InstId, Inst>, env: Surroundings, x: InstId)
    reads m.Values
  {
    && (forall id :: id != x ==> (id in m <==> id in v))
    && forall id :: id in m && id != x ==> ShowsOne(m[id], id, v[id], env)
  }

  lemma ShowsRest(m: map<InstId, TransactionInstance>, v: map<InstId, Inst>, env: Surroundings, x: InstId)
    requires ShowsBut(m, v, env, x) && x !in m && x !in v
    ensures Shows(m, v, env)
    ensures m - {x} == m && v - {x} == v
  {
  }

  lemma ShowsPut(m: map<InstId, TransactionInstance>, v: map<InstId, Inst>, env: Surroundings, i: TransactionInstance)
    requires ShowsBut(m, v, env, i.id) && i.id in m && m[i.id] == i && i.env == env
    ensures Shows(m, v[i.id := i.Inst()], env)
  {
  }

  lemma ShowsAdd(m: map<InstId, TransactionInstance>, v: map<InstId, Inst>, env: Surroundings, i: TransactionInstance)
    requires ShowsBut(m, v, env, i.id) && i.env == env
    ensures Shows(m[i.id := i], v[i.id := i.Inst()], env)
  {
  }

  lemma ShowsMore(m: map<InstId, TransactionInstance>, v: map<InstId, Inst>, env: Surroundings, i: TransactionInstance)
    requires Shows(m, v, env)
    ensures ShowsBut(m, v, env, i.id) && ShowsBut(m[i.id := i], v, env, i.id) && m.Keys == v.Keys
  {
  }

  lemma ShowsWithout(m: map<InstId, TransactionInstance>, v: map<InstId, Inst>, env: Surroundings, x: InstId)
    requires ShowsBut(m, v, env, x)
    ensures Shows(m - {x}, v - {x}, env)
  {
  }

  class MainRoutine {
    const server: TransactionServer
    const mgr: TranInstMgr
    const scheduler: C.CoroutineScheduler
    const env: Surroundings
    /** The instances on the manager's destroy list, by id. */
    ghost var dying: map<InstId, TransactionInstance>
    ghost var world: S.World

    ghost predicate Tied()
      reads this, mgr, mgr.trans.Values, dying.Values, scheduler, scheduler.main, scheduler.coroutines.Values, env
    {
      && server.mgr == mgr && server.scheduler == scheduler && mgr.scheduler == scheduler
      && Shows(mgr.trans, world.trans, env) && Shows(dying, world.dying, env)
      && mgr.destroyList == dying.Values && scheduler.View() == world.sched && env.timers == world.timers
    }

    ghost predicate Valid()
      reads this, server, mgr, mgr.trans.Values, mgr.destroyList, dying.Values, scheduler, scheduler.main,
        scheduler.coroutines.Values, env
    {
      Tied() && server.Valid() && S.Inv(world)
    }

    /** A server with no transactions. */
    constructor ()
      ensures Valid() && world == S.Initial
    {
      var sched := new C.CoroutineScheduler();
      var m := new TranInstMgr(sched);
      server := new TransactionServer(m, sched);
      mgr, scheduler, dying, world := m, sched, map[], S.Initial;
      env := new Surroundings();
      new;
      S.InitialInv();
    }

    ghost predicate Has(inst: TransactionInstance)
      reads this, mgr
    {
      (inst.id in mgr.trans && mgr.trans[inst.id] == inst) || (inst.id in dying && dying[inst.id] == inst)
    }

    /** An event is sent to an instance at hand; the ghosts are as before. */
    method Forward(inst: TransactionInstance, e: Event, given: S.Env) returns (ret: int)
      requires Valid() && Has(inst)
      modifies inst, env, scheduler`cur, scheduler.main, scheduler.coroutines.Values, mgr`trans, mgr`destroyList
      ensures server.Valid() && S.Known(world, inst.id) && S.OnlyWaiting(S.InstOf(world, inst.id), world.sched)
      ensures (inst.View(), scheduler.View(), ret) == S.Sent(E.WorkOf(world, inst.id, given), world.sched, e)
      ensures ShowsBut(old(mgr.trans), world.trans, env, inst.id) && ShowsBut(dying, world.dying, env, inst.id)
      ensures server.Moved(inst, ret == OK && !inst.pc.Waiting?, old(mgr.trans), old(mgr.destroyList))
    {
      hide S.Inv, S.Sent, S.OnlyWaiting, C.ToWork, C.CoroutineScheduler.View, C.CoroutineScheduler.Valid, C.OneRuns,
        TransactionInstance.Inst, ShowsOne, Shows;
      Shown(inst);
      InstFields(inst);
      E.SentEnds(world, inst.id, e, given);
      env.outs, env.newTimer := given.outs, given.newTimer;
      ret := server.SendMsgEvent(inst, e);
    }

    /** The same, as a step of the world. */
    method SendMsgEvent(inst: TransactionInstance, e: Event, given: S.Env) returns (ret: int)
      requires Valid() && Has(inst)
      modifies this`dying, this`world, inst, env, scheduler`cur, scheduler.main, scheduler.coroutines.Values,
        mgr`trans, mgr`destroyList
      ensures Tied() && server.Valid()
      ensures S.Inv(old(world)) && S.Known(old(world), inst.id)
      ensures (world, ret) == S.SendToInst(old(world), inst.id, e, given)
      ensures S.Inv(world) ==> Valid()
      ensures e != EVENT_TIMEOUT ==> Valid()
    {
      hide S.Inv, S.SendToInst, S.Sent, S.Put, S.OnlyWaiting, C.ToWork, C.CoroutineScheduler.View,
        C.CoroutineScheduler.Valid, C.OneRuns, TransactionInstance.Inst, ShowsOne, Shows, ShowsBut, TranInstMgr.Valid;
      ghost var w, id := world, inst.id;
      Shown(inst);
      E.SentEnds(w, id, e, given);
      S.SendIsSent(w, id, e, given);
      if e != EVENT_TIMEOUT {
        S.SendKeeps(w, id, e, given);
      }
      ghost var trans := mgr.trans;
      ret := Forward(inst, e, given);
      InstFields(inst);
      ghost var (a, s, _) := S.Sent(E.WorkOf(w, id, given), w.sched, e);
      Record(a, s, inst, trans);
    }

    /** The world takes note of what has become of one instance. */
    ghost method Record(a: Work, s: C.Sched, inst: TransactionInstance, trans: map<InstId, TransactionInstance>)
      requires server.mgr == mgr && server.scheduler == scheduler && mgr.scheduler == scheduler
      requires ShowsBut(trans, world.trans, env, inst.id) && ShowsBut(dying, world.dying, env, inst.id)
      requires inst.View() == a && inst.env == env && scheduler.View() == s
      requires (inst.id in world.trans ==> inst.id in trans) && (inst.id in world.dying ==> inst.id in dying)
      requires if inst.id in trans then trans[inst.id] == inst && inst.id !in dying
               else inst.id in dying && dying[inst.id] == inst && inst.dying
      requires server.Moved(inst, inst.id in trans && inst.dying, trans, dying.Values)
      modifies this`dying, this`world
      ensures Tied() && world == S.Put(old(world), a, s)
    {
      hide TransactionInstance.Inst, C.CoroutineScheduler.View, Shows, ShowsBut;
      var x := inst.id;
      InstFields(inst);
      if x !in trans {
        ShowsRest(trans, world.trans, env, x);
        ShowsPut(dying, world.dying, env, inst);
      } else if inst.dying {
        ShowsWithout(trans, world.trans, env, x);
        ShowsAdd(dying, world.dying, env, inst);
        ValuesPut(dying, x, inst);
        dying := dying[x := inst];
      } else {
        ShowsPut(trans, world.trans, env, inst);
        ShowsRest(dying, world.dying, env, x);
      }
      world := S.Put(world, a, s);
    }

    /** An instance of the manager, and the world's view of it. */
    lemma Shown(inst: TransactionInstance)
      requires Valid() && Has(inst)
      ensures S.Known(world, inst.id) && inst.env == env && inst.Inst() == S.InstOf(world, inst.id)
      ensures (inst.id in world.trans <==> inst.id in mgr.trans) && (inst.id in world.dying <==> inst.id in dying)
      ensures if inst.id in mgr.trans then server.Live(inst) && inst.id !in dying
              else inst.id in dying && dying[inst.id] == inst && inst.dying
      ensures ShowsBut(mgr.trans, world.trans, env, inst.id) && ShowsBut(dying, world.dying, env, inst.id)
      ensures forall id :: id in mgr.trans && id != inst.id ==> mgr.trans[id] != inst
      ensures forall id :: id in dying && id != inst.id ==> dying[id] != inst
    {
      hide C.OneRuns, Suspended, Ended, Settled, S.TimerOk, S.RoutineOk, S.TransOk;
      if inst.id in dying {
        assert S.DyingOk(world, inst.id);
        S.EndedDying(world.dying[inst.id]);
      }
    }

    /** `SendMsgEventToTran`. */
    method SendMsgEventToTran(id: InstId, e: Event, given: S.Env) returns (ret: int)
      requires Valid()
      modifies this`dying, this`world, env, scheduler`cur, scheduler.main, scheduler.coroutines.Values,
        mgr`trans, mgr`destroyList
      modifies if id in mgr.trans then {mgr.trans[id]} else {}
      ensures Tied() && server.Valid() && S.Inv(old(world)) && (world, ret) == S.Send(old(world), id, e, given)
      ensures S.Allowed(old(world), S.DoSend(id, e, given)) ==> Valid()
    {
      hide S.Inv, S.SendToInst, C.CoroutineScheduler.View, C.CoroutineScheduler.Valid, C.OneRuns,
        TransactionInstance.Inst, ShowsOne;
      if id == 0 { return INVALID_PARA; }
      if id !in mgr.trans { return TRAN_INST_NOT_FOUND; }
      ghost var w := world;
      if S.Allowed(w, S.DoSend(id, e, given)) {
        S.ApplyKeeps(w, S.DoSend(id, e, given));
      }
      ret := SendMsgEvent(mgr.trans[id], e, given);
      if ret != OK { return SVR_INTERNAL; }
    }

    /** `TransactionOnTimeout`, with the end of the timer that calls it. */
    method OnTimeout(t: TimerId, given: S.Env)
      requires Valid() && t in env.timers
      modifies this`dying, this`world, env, scheduler`cur, scheduler.main, scheduler.coroutines.Values,
        mgr`trans, mgr`destroyList
      modifies if env.timers[t].inst in mgr.trans then {mgr.trans[env.timers[t].inst]} else {}
      ensures Valid() && S.Inv(old(world)) && t in old(world).timers && world == S.TimerFires(old(world), t, given)
    {
      hide S.Inv, S.SendToInst, C.CoroutineScheduler.View, C.CoroutineScheduler.Valid, C.OneRuns,
        TransactionInstance.Inst, ShowsOne;
      var id := env.timers[t].inst;
      ghost var w := world;
      S.TimerKeeps(w, t, given);
      if id in mgr.trans {
        var _ := SendMsgEvent(mgr.trans[id], EVENT_TIMEOUT, given);
      }
      DropTimer(t);
    }

    /** A transaction is started; the ghosts are as before. */
    method Begin(q: S.StartRequest, given: S.Env) returns (ret: int, saved: TransactionInstance?)
      requires Valid()
      modifies env, scheduler, scheduler.main, scheduler.coroutines.Values, mgr`trans, mgr`destroyList
      ensures server.Valid() && (saved != null <==> ret == OK)
      ensures saved != null ==> fresh(saved) && saved.id == q.id && saved.env == env
      ensures ret != OK ==> env.timers == world.timers
      ensures if Refused(q) then ret == (if q.owner == 0 then INVALID_PARA else SVR_INTERNAL) && scheduler.View() == world.sched
              else
                var (a, s, r) := S.Launched(New(q, given), world.sched, q.routine);
                ret == r && scheduler.View() == s && (saved != null ==> saved.View() == a)
      ensures Shows(old(mgr.trans), world.trans, env) && Shows(dying, world.dying, env)
      ensures if ret == OK
              then server.Moved(saved, !saved.pc.Waiting?, old(mgr.trans)[q.id := saved], dying.Values)
              else mgr.trans == old(mgr.trans) && mgr.destroyList == dying.Values
    {
      hide S.Inv, S.Launched, C.CoroutineScheduler.View, C.CoroutineScheduler.Valid, C.OneRuns,
        TransactionInstance.Inst, ShowsOne, NewInst;
      env.outs, env.newTimer := given.outs, given.newTimer;
      ret, saved := server.StartCommonTransaction(q.tran, q.owner, q.id, q.routine, env);
    }

    lemma Succeeds(q: S.StartRequest, given: S.Env)
      requires Valid()
      ensures S.StartTran(world, q, given).1 == OK <==>
        && q.owner != 0 && q.id != 0 && q.id !in mgr.trans
        && C.InOrder(q.routine) && q.routine.hasMemory && q.routine.id !in scheduler.coroutines
    {
      hide S.Inv, S.StartTran, C.InOrder;
      L.StartSucceeds(world, q, given);
    }

    ghost predicate Refused(q: S.StartRequest)
      reads this
    {
      q.owner == 0 || q.id == 0 || q.id in world.trans
    }

    ghost function New(q: S.StartRequest, given: S.Env): Work
      reads this
    {
      Work(NewInst(q.id, q.tran), given.outs, world.timers, given.newTimer)
    }

    /** `StartCommonTransaction`, with a new id. */
    method StartCommonTransaction(q: S.StartRequest, given: S.Env) returns (ret: int, saved: TransactionInstance?)
      requires Valid() && S.Allowed(world, S.DoStart(q, given))
      modifies this`dying, this`world, env, scheduler, scheduler.main, scheduler.coroutines.Values, mgr`trans,
        mgr`destroyList
      ensures Valid() && S.Inv(old(world)) && (world, ret) == S.StartTran(old(world), q, given)
      ensures saved != null <==> ret == OK
      ensures ret == OK <==>
        && q.owner != 0 && q.id != 0 && q.id !in old(mgr.trans)
        && C.InOrder(q.routine) && q.routine.hasMemory && q.routine.id !in old(scheduler.coroutines)
    {
      hide S.Inv, S.StartTran, S.Launched, S.Put, C.InOrder, C.CoroutineScheduler.View, C.CoroutineScheduler.Valid, C.OneRuns,
        TransactionInstance.Inst, ShowsOne, Shows, ShowsBut, TranInstMgr.Valid;
      ghost var w, trans := world, mgr.trans;
      S.StartKeeps(w, q, given);
      Succeeds(q, given);
      if Refused(q) { Refusal(w, q, given); }
      if !Refused(q) {
        S.StartIsLaunched(w, q, given);
        E.LaunchedId(New(q, given), w.sched, q.routine);
      }
      ghost var a := S.Launched(New(q, given), w.sched, q.routine).0;
      ret, saved := Begin(q, given);
      if ret != OK {
        world := w.(sched := scheduler.View());
      } else {
        InstFields(saved);
        ShowsMore(trans, w.trans, env, saved);
        ShowsMore(dying, w.dying, env, saved);
        Record(a, scheduler.View(), saved, trans[q.id := saved]);
      }
    }

    /** `TranInstMgr::Update`; the ghosts are as before. */
    method Release()
      requires Valid()
      modifies mgr`destroyList, mgr.destroyList, scheduler`coroutines
      ensures mgr.Valid() && scheduler.Valid() && mgr.destroyList == {} && mgr.trans == old(mgr.trans)
      ensures scheduler.coroutines == old(scheduler.coroutines) - S.RoutinesOf(world.dying)
      ensures forall id :: id in dying ==> id in world.dying && dying[id].Inst() == Released(world.dying[id])
    {
      hide S.Inv, C.CoroutineScheduler.Valid, C.OneRuns, Released, TransactionInstance.Inst, C.CoroutineScheduler.View;
      MainHasControl();
      Routines();
      mgr.Update();
    }

    /** Removing routines removes them from the view. */
    twostate lemma ViewWithout(gone: set<C.RoutineId>)
      requires scheduler.coroutines == old(scheduler.coroutines) - gone
      requires scheduler.cur == old(scheduler.cur) && scheduler.main == old(scheduler.main) && unchanged(scheduler.main)
      requires forall c :: c in scheduler.coroutines ==> unchanged(scheduler.coroutines[c])
      ensures scheduler.View() == old(scheduler.View()).(routines := old(scheduler.View()).routines - gone)
    {
    }

    lemma MainHasControl()
      requires Valid()
      ensures scheduler.cur == 0
    {
    }

    /** The live instances are not on the destroy list. */
    lemma LiveApart()
      requires Valid()
      ensures forall id :: id in mgr.trans ==> mgr.trans[id] !in mgr.destroyList
    {
      hide S.TransOk, S.DyingOk, S.TimerOk, S.RoutineOk, S.ReleasedOk, C.OneRuns, TransactionInstance.Inst;
    }

    lemma Routines()
      requires Tied()
      ensures (set i | i in mgr.destroyList :: i.coroutine) == S.RoutinesOf(world.dying)
    {
      forall id | id in dying ensures dying[id].coroutine == world.dying[id].coroutine {
        InstFields(dying[id]);
      }
      assert forall id :: id in dying ==> dying[id] in mgr.destroyList;
      assert forall i :: i in mgr.destroyList ==> i.id in dying && dying[i.id] == i;
    }

    method ReleaseAll()
      requires Valid()
      modifies mgr`destroyList, mgr.destroyList, scheduler`coroutines
      ensures server.Valid() && mgr.destroyList == {} && Shows(mgr.trans, world.trans, env)
      ensures env.timers == world.timers
      ensures scheduler.View() == world.sched.(routines := world.sched.routines - S.RoutinesOf(world.dying))
      ensures forall id :: id in dying ==> id in world.dying && dying[id].Inst() == Released(world.dying[id])
    {
      hide S.Inv, C.CoroutineScheduler.View, C.CoroutineScheduler.Valid, C.OneRuns, Released, TransactionInstance.Inst,
        ShowsOne, S.RoutinesOf;
      LiveApart();
      Release();
      ViewWithout(S.RoutinesOf(world.dying));
    }

    ghost method Forget()
      requires server.mgr == mgr && server.scheduler == scheduler && mgr.scheduler == scheduler
      requires Shows(mgr.trans, world.trans, env) && mgr.destroyList == {} && env.timers == world.timers
      requires scheduler.View() == world.sched.(routines := world.sched.routines - S.RoutinesOf(world.dying))
      modifies this`dying, this`world
      ensures Tied() && world == S.Update(old(world))
    {
      hide C.CoroutineScheduler.View, TransactionInstance.Inst, ShowsOne, S.RoutinesOf, Released;
      dying, world := map[], S.Update(world);
    }

    method Update()
      requires Valid()
      modifies this`dying, this`world, mgr`destroyList, mgr.destroyList, scheduler`coroutines
      ensures Valid() && S.Inv(old(world)) && world == S.Update(old(world))
      ensures forall id :: id in old(dying) ==> id in world.released && old(dying)[id].Inst() == world.released[id]
    {
      hide S.Inv, C.CoroutineScheduler.View, C.CoroutineScheduler.Valid, C.OneRuns, Released, TransactionInstance.Inst,
        Shows, TranInstMgr.Valid, S.RoutinesOf, S.Update;
      ghost var w := world;
      S.UpdateKeeps(w);
      S.UpdateReleases(w);
      ReleaseAll();
      Forget();
    }

    /** Between calls every timeout timer is that of a live object that waits, and no two are of the same. */
    lemma TimersMatch(t: TimerId)
      requires Valid() && t in env.timers
      ensures var i := env.timers[t].inst;
        && i in mgr.trans && mgr.trans[i].timer == t && mgr.trans[i].pc.Waiting? && !mgr.trans[i].dying
        && 0 <= mgr.trans[i].curr < |mgr.trans[i].tran.cmds|
        && env.timers[t].ms == mgr.trans[i].tran.cmds[mgr.trans[i].curr].timeoutMs
      ensures forall u :: u in env.timers && env.timers[u].inst == env.timers[t].inst ==> u == t
    {
      var id := env.timers[t].inst;
      assert S.TimerOk(world, t) && S.TransOk(world, id);
      S.WaitsInCommand(world.trans[id]);
      S.LiveNotDying(world.trans[id]);
      forall u | u in env.timers && env.timers[u].inst == id ensures u == t {
        assert S.TimerOk(world, u);
      }
    }

    /** Between calls the events that a live object has been handed and those it waits for add up, the
        main routine has control, and what has been released is settled. */
    lemma AllAccounted(id: InstId)
      requires Valid()
      ensures scheduler.cur == 0
      ensures id in mgr.trans ==>
        var i := mgr.trans[id].Inst();
        && i.pc.Waiting? && InCommand(i) && i.events != []
        && multiset(Recvs(i.log, i.curr)) + multiset(i.events) == multiset(i.tran.cmds[i.curr].events)
        && Dos(i.log) == Iota(i.curr + 1) && AllPassed(i, i.curr) && Undos(i.log) == []
      ensures id in world.released ==> Settled(world.released[id])
    {
      hide Dos, Undos, Recvs, AllPassed, TransactionInstance.Inst, C.OneRuns;
      if id in mgr.trans {
        assert ShowsOne(mgr.trans[id], id, world.trans[id], env);
        assert S.TransOk(world, id);
        S.EventsOf(world.trans[id]);
      }
      assert id in world.released ==> S.ReleasedOk(world, id);
    }

    /** A timer is gone when its callback is over. */
    method DropTimer(t: TimerId)
      requires Tied() && server.Valid()
      modifies env`timers, this`world
      ensures Tied() && server.Valid() && world == old(world).(timers := old(world).timers - {t})
    {
      hide C.CoroutineScheduler.View, C.CoroutineScheduler.Valid, TransactionInstance.Inst, ShowsOne;
      env.timers := env.timers - {t};
      world := world.(timers := world.timers - {t});
    }
  }

  lemma Refusal(w: S.World, q: S.StartRequest, given: S.Env)
    requires q.owner == 0 || q.id == 0 || q.id in w.trans
    ensures S.StartTran(w, q, given) == (w, if q.owner == 0 then INVALID_PARA else SVR_INTERNAL)
  {
  }

  lemma ValuesPut<K, V>(m: map<K, V>, k: K, v: V)
    requires k !in m
    ensures m[k := v].Values == m.Values + {v}
  {
    assert forall l :: l in m ==> m[k := v][l] == m[l];
    assert m[k := v][k] == v;
  }

  lemma InstFields(i: TransactionInstance)
    ensures i.Inst().id == i.id && i.Inst().dying == i.dying && i.Inst().coroutine == i.coroutine && i.Inst().pc == i.pc
  {
  }
}
