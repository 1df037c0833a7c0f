/** `TransactionServer`: the steps of module Server as calls on the objects. */
module TransactionServers {
  import opened Transactions
  import opened TransactionObjects
  import opened TransactionManager
  import S = Server
  import C = Coroutines

  class TransactionServer {
    const mgr: TranInstMgr
    const scheduler: C.CoroutineScheduler

    ghost predicate Valid()
      reads this, mgr, mgr.trans.Values, mgr.destroyList, scheduler, scheduler.main, scheduler.coroutines.Values
    {
      mgr.Valid() && scheduler.Valid()
    }

    ghost predicate Live(inst: TransactionInstance)
      reads mgr
    {
      inst.id in mgr.trans && mgr.trans[inst.id] == inst
    }

    constructor (mgr: TranInstMgr, scheduler: C.CoroutineScheduler)
      requires mgr.Valid() && scheduler.Valid()
      ensures Valid() && this.mgr == mgr && this.scheduler == scheduler
    {
      this.mgr, this.scheduler := mgr, scheduler;
    }

    /** `TransactionInstance::SendMsgEvent`, with what the coroutine does until it gives up control. */
    method SendMsgEvent(inst: TransactionInstance, e: Event) returns (ret: int)
      requires Valid() && S.OnlyWaiting(inst.Inst(), scheduler.View())
      requires C.ToWork(scheduler.View(), inst.coroutine).1 == OK ==> Live(inst)
      modifies inst, inst.env, scheduler`cur, scheduler.main, scheduler.coroutines.Values, mgr`trans, mgr`destroyList
      ensures Valid() && (inst.View(), scheduler.View(), ret) == S.Sent(old(inst.View()), old(scheduler.View()), e)
      ensures Moved(inst, ret == OK && !inst.pc.Waiting?, old(mgr.trans), old(mgr.destroyList))
    {
      hide C.ToWork, C.CoroutineScheduler.View, C.CoroutineScheduler.Valid, Resume, S.Taken, S.Yield;
      ret := Take(inst, e);
      if ret != OK { return ret; }
      ret := scheduler.SwapToWorkRoutine(inst.coroutine);
      if ret != OK { return ret; }
      Continue(inst);
    }

    /** The coroutine of the instance runs until it gives up control. */
    method Continue(inst: TransactionInstance)
      requires Valid() && Live(inst) && inst.pc.Waiting? && InCommand(inst.Inst())
      modifies inst, inst.env, scheduler`cur, scheduler.main, scheduler.coroutines.Values, mgr`trans, mgr`destroyList
      ensures Valid() && inst.View() == Resume(old(inst.View()))
      ensures scheduler.View() == S.Yield(old(scheduler.View()), inst.Inst())
      ensures Moved(inst, !inst.pc.Waiting?, old(mgr.trans), old(mgr.destroyList))
    {
      hide C.CoroutineScheduler.View, C.CoroutineScheduler.Valid, Resume, S.Yield;
      var suspended := inst.Resume();
      GiveUpControl(inst, suspended);
    }

    /** The timer goes first, whether or not the event is expected. */
    method Take(inst: TransactionInstance, e: Event) returns (ret: int)
      modifies inst`timer, inst`eventType, inst.env`timers
      ensures (inst.View(), ret) == S.Taken(old(inst.View()), e)
    {
      if e == EVENT_INVALID { return INVALID_PARA; }
      if e != EVENT_TIMEOUT && inst.timer != 0 {
        inst.env.timers := inst.env.timers - {inst.timer};
      }
      inst.timer := 0;
      if !S.IsDefaultEvent(e) && e !in inst.events { return LOGIC; }
      inst.eventType := e;
      return OK;
    }

    /** `SendMsgEventToTran`: an event for an instance that may not be there. */
    method SendMsgEventToTran(id: InstId, e: Event) returns (ret: int)
      requires Valid()
      requires id in mgr.trans ==> S.OnlyWaiting(mgr.trans[id].Inst(), scheduler.View())
      modifies if id in mgr.trans then {mgr.trans[id] as object, mgr.trans[id].env} else {}
      modifies scheduler`cur, scheduler.main, scheduler.coroutines.Values, mgr`trans, mgr`destroyList
      ensures Valid()
      ensures id == 0 || id !in old(mgr.trans) ==>
        ret == (if id == 0 then INVALID_PARA else TRAN_INST_NOT_FOUND)
        && mgr.trans == old(mgr.trans) && mgr.destroyList == old(mgr.destroyList)
        && scheduler.View() == old(scheduler.View())
      ensures id != 0 && id in old(mgr.trans) ==>
        var inst := old(mgr.trans)[id];
        var (a, s, sent) := S.Sent(old(inst.View()), old(scheduler.View()), e);
        && inst.View() == a && scheduler.View() == s && ret == (if sent == OK then OK else SVR_INTERNAL)
        && Moved(inst, sent == OK && !inst.pc.Waiting?, old(mgr.trans), old(mgr.destroyList))
    {
      hide C.ToWork, C.CoroutineScheduler.View, C.CoroutineScheduler.Valid, S.Sent;
      if id == 0 { return INVALID_PARA; }
      if id !in mgr.trans { return TRAN_INST_NOT_FOUND; }
      ret := SendMsgEvent(mgr.trans[id], e);
      if ret != OK { return SVR_INTERNAL; }
    }

    /** `Transaction::Start`, with what the coroutine does until it gives up control. */
    method Start(inst: TransactionInstance, q: C.Request) returns (ret: int)
      requires Valid() && Live(inst)
      modifies inst, inst.env, scheduler, scheduler.main, scheduler.coroutines.Values, mgr`trans, mgr`destroyList
      ensures Valid() && (inst.View(), scheduler.View(), ret) == S.Launched(old(inst.View()), old(scheduler.View()), q)
      ensures Moved(inst, ret == OK && !inst.pc.Waiting?, old(mgr.trans), old(mgr.destroyList))
    {
      hide C.Create, C.CoroutineScheduler.View, C.CoroutineScheduler.Valid, C.OneRuns, S.Entered;
      if inst.coroutine != 0 { return LOGIC; }
      ret := scheduler.CreateWorkRoutine(q.(param := inst.id));
      if ret != OK { return ret; }
      ret := Enter(inst, q.id);
    }

    /** Control goes to the new coroutine; if it cannot, the coroutine is destroyed again. */
    method Enter(inst: TransactionInstance, id: C.RoutineId) returns (ret: int)
      requires Valid() && Live(inst) && inst.coroutine == 0
      modifies inst, inst.env, scheduler, scheduler.main, scheduler.coroutines.Values, mgr`trans, mgr`destroyList
      ensures Valid() && (inst.View(), scheduler.View(), ret) == S.Entered(old(inst.View()), old(scheduler.View()), id)
      ensures Moved(inst, ret == OK && !inst.pc.Waiting?, old(mgr.trans), old(mgr.destroyList))
    {
      hide C.ToWork, C.Destroy, C.CoroutineScheduler.View, C.CoroutineScheduler.Valid, C.OneRuns, Transactions.Start, S.Yield;
      inst.coroutine := id;
      ret := scheduler.SwapToWorkRoutine(id);
      if ret != OK {
        Discard(inst, id);
        return ret;
      }
      Boot(inst);
    }

    /** A coroutine that could not get control is destroyed. */
    method Discard(inst: TransactionInstance, id: C.RoutineId)
      requires Valid()
      modifies inst`coroutine, scheduler`coroutines
      ensures Valid() && inst.coroutine == 0 && scheduler.View() == C.Destroy(old(scheduler.View()), id).0
    {
      hide C.Destroy, C.CoroutineScheduler.View, C.CoroutineScheduler.Valid, C.OneRuns;
      inst.coroutine := 0;
      var _ := scheduler.DestroyWorkRoutine(id);
    }

    /** The coroutine of the instance gets control for the first time. */
    method Boot(inst: TransactionInstance)
      requires Valid() && Live(inst)
      modifies inst, inst.env, scheduler`cur, scheduler.main, scheduler.coroutines.Values, mgr`trans, mgr`destroyList
      ensures Valid() && inst.View() == Transactions.Start(old(inst.View()))
      ensures scheduler.View() == S.Yield(old(scheduler.View()), inst.Inst())
      ensures Moved(inst, !inst.pc.Waiting?, old(mgr.trans), old(mgr.destroyList))
    {
      hide C.CoroutineScheduler.View, C.CoroutineScheduler.Valid, Transactions.Start, S.Yield;
      var suspended := inst.RealStart();
      GiveUpControl(inst, suspended);
    }

    function Begun(a: Work, s: C.Sched, q: C.Request, refused: bool): (Work, C.Sched, int) {
      if refused then (a, s, SVR_INTERNAL) else S.Launched(a, s, q)
    }

    /** An instance that cannot be started is not kept. */
    method StartTransaction(inst: TransactionInstance, q: C.Request) returns (ret: int)
      requires Valid() && !inst.dying
      modifies inst, inst.env, scheduler, scheduler.main, scheduler.coroutines.Values, mgr`trans, mgr`destroyList
      ensures Valid()
      ensures (inst.View(), scheduler.View(), ret) ==
        Begun(old(inst.View()), old(scheduler.View()), q, inst.id == 0 || inst.id in old(mgr.trans))
      ensures if ret == OK
              then Moved(inst, !inst.pc.Waiting?, old(mgr.trans)[inst.id := inst], old(mgr.destroyList))
              else mgr.trans == old(mgr.trans) && mgr.destroyList == old(mgr.destroyList)
    {
      hide C.CoroutineScheduler.View, C.CoroutineScheduler.Valid, C.OneRuns, S.Launched, TransactionInstance.Inst;
      ret := mgr.AddTranInst(inst);
      if ret != OK { return SVR_INTERNAL; }
      ret := Start(inst, q);
      if ret != OK {
        mgr.trans := mgr.trans - {inst.id};
      }
    }

    method StartCommonTransaction(tran: Transaction, owner: nat, id: InstId, q: C.Request, env: Surroundings)
      returns (ret: int, saved: TransactionInstance?)
      requires Valid()
      modifies env, scheduler, scheduler.main, scheduler.coroutines.Values, mgr`trans, mgr`destroyList
      ensures Valid() && (saved != null <==> ret == OK) && (saved != null ==> fresh(saved))
      ensures owner == 0 ==> ret == INVALID_PARA && scheduler.View() == old(scheduler.View())
      ensures owner != 0 ==>
        var a := Work(NewInst(id, tran), old(env.outs), old(env.timers), old(env.newTimer));
        var (a', s, r) := Begun(a, old(scheduler.View()), q, id == 0 || id in old(mgr.trans));
        && ret == r && scheduler.View() == s
        && (saved != null ==> saved.View() == a' && saved.id == id && saved.env == env)
      ensures ret != OK ==> env.timers == old(env.timers)
      ensures if ret == OK
              then Moved(saved, !saved.pc.Waiting?, old(mgr.trans)[id := saved], old(mgr.destroyList))
              else mgr.trans == old(mgr.trans) && mgr.destroyList == old(mgr.destroyList)
    {
      hide C.CoroutineScheduler.View, C.CoroutineScheduler.Valid, C.OneRuns, S.Launched;
      if owner == 0 { return INVALID_PARA, null; }
      var inst := new TransactionInstance(id, tran, env);
      S.LaunchFails(inst.View(), scheduler.View(), q);
      ret := StartTransaction(inst, q);
      saved := if ret == OK then inst else null;
    }

    /** Whether the instance has moved from the live ones to those to be destroyed. */
    ghost predicate Moved(inst: TransactionInstance, ended: bool, trans: map<InstId, TransactionInstance>,
                          destroyList: set<TransactionInstance>)
      reads mgr
    {
      if ended then mgr.trans == trans - {inst.id} && mgr.destroyList == destroyList + {inst}
      else mgr.trans == trans && mgr.destroyList == destroyList
    }

    /** The coroutine of the instance gives up control: in `Wait`, or at its end. */
    method GiveUpControl(inst: TransactionInstance, suspended: bool)
      requires Valid() && Live(inst) && (suspended ==> inst.pc.Waiting?)
      modifies inst`complete, inst`pc, inst`dying, scheduler`cur, scheduler.main, scheduler.coroutines.Values,
        mgr`trans, mgr`destroyList
      ensures Valid() && inst.View() == if suspended then old(inst.View()) else AtTheEnd(old(inst.View()))
      ensures scheduler.View() == S.Yield(old(scheduler.View()), inst.Inst())
      ensures Moved(inst, !suspended, old(mgr.trans), old(mgr.destroyList))
    {
      hide C.ToMain, C.Exit, C.CoroutineScheduler.View, C.CoroutineScheduler.Valid;
      if suspended {
        var _ := scheduler.SwapToMain();
      } else {
        mgr.EndOfStart(inst);
        scheduler.OnWorkRoutineExit();
      }
    }
  }
}
