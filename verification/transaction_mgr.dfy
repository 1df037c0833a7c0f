/** `TranInstMgr`: the live instances, and those at their end that the main routine will destroy. */
module TransactionManager {
  import opened Transactions
  import opened TransactionObjects
  import C = Coroutines

  ghost function Image(co: map<TransactionInstance, nat>, s: set<TransactionInstance>): set<nat>
    requires s <= co.Keys
  {
    set i | i in s :: co[i]
  }

  lemma ImageGrows(co: map<TransactionInstance, nat>, s: set<TransactionInstance>, x: TransactionInstance)
    requires s <= co.Keys && x in co
    ensures Image(co, s + {x}) == Image(co, s) + {co[x]}
  {
  }

  class TranInstMgr {
    var trans: map<InstId, TransactionInstance>
    var destroyList: set<TransactionInstance>
    const scheduler: C.CoroutineScheduler

    ghost predicate Valid()
      reads this, trans.Values, destroyList
    {
      && (forall id :: id in trans ==> trans[id].id == id && !trans[id].dying)
      && (forall i :: i in destroyList ==> i.dying)
    }

    constructor (scheduler: C.CoroutineScheduler)
      ensures Valid() && trans == map[] && destroyList == {} && this.scheduler == scheduler
    {
      trans, destroyList := map[], {};
      this.scheduler := scheduler;
    }

    method AddTranInst(inst: TransactionInstance?) returns (ret: int)
      requires Valid() && (inst != null ==> !inst.dying)
      modifies this`trans
      ensures Valid()
      ensures inst == null || inst.id == 0 ==> ret == INVALID_PARA && trans == old(trans)
      ensures inst != null && inst.id != 0 ==>
        if inst.id in old(trans) then ret == DUPLICATED_OPERATION && trans == old(trans)
        else ret == OK && trans == old(trans)[inst.id := inst]
    {
      if inst == null || inst.id == 0 { return INVALID_PARA; }
      if inst.id in trans { return DUPLICATED_OPERATION; }
      trans := trans[inst.id := inst];
      return OK;
    }

    /** Moves an instance from the live ones to those to be destroyed, once. */
    method MarkTranInstDelayDestroy(inst: TransactionInstance) returns (ret: int)
      requires Valid()
      requires inst.id in trans ==> trans[inst.id] == inst
      modifies this`trans, this`destroyList, inst`dying
      ensures Valid() && inst.dying
      ensures ret == if old(inst.dying) then DUPLICATED_OPERATION else if inst.id in old(trans) then OK else LOGIC
      ensures old(inst.dying) ==> trans == old(trans) && destroyList == old(destroyList)
      ensures !old(inst.dying) ==> trans == old(trans) - {inst.id} && destroyList == old(destroyList) + {inst}
    {
      if inst.dying { return DUPLICATED_OPERATION; }
      inst.dying := true;
      destroyList := destroyList + {inst};
      if inst.id !in trans { return LOGIC; }
      trans := trans - {inst.id};
      return OK;
    }

    /** The end of `RealStart`: an instance that has not failed is complete, and it is marked. */
    method EndOfStart(inst: TransactionInstance)
      requires Valid() && inst.id in trans && trans[inst.id] == inst
      modifies this`trans, this`destroyList, inst`complete, inst`pc, inst`dying
      ensures Valid() && inst.View() == AtTheEnd(old(inst.View()))
      ensures trans == old(trans) - {inst.id} && destroyList == old(destroyList) + {inst}
    {
      if inst.failReason == 0 && !inst.complete {
        inst.complete := true;
      }
      inst.pc := AtEnd;
      var _ := MarkTranInstDelayDestroy(inst);
    }

    /** One round of `Update`: the coroutine is destroyed and the result handled. */
    method Release(inst: TransactionInstance)
      requires scheduler.Valid() && scheduler.cur == 0
      modifies inst, scheduler`coroutines
      ensures inst.Inst() == Released(old(inst.Inst()))
      ensures scheduler.Valid() && scheduler.coroutines == old(scheduler.coroutines) - {old(inst.coroutine)}
    {
      hide Handled, C.OneRuns;
      if inst.coroutine != 0 {
        var _ := scheduler.DestroyWorkRoutine(inst.coroutine);
        inst.coroutine := 0;
      }
      inst.HandleResult();
      inst.dying := false;
    }

    /** Handles the result of every instance on the list, once, and empties the list. */
    method Update()
      requires Valid() && scheduler.Valid() && scheduler.cur == 0
      modifies this`destroyList, destroyList, scheduler`coroutines
      ensures Valid() && destroyList == {} && trans == old(trans)
      ensures forall i :: i in old(destroyList) ==> i.Inst() == Released(old(i.Inst()))
      ensures scheduler.Valid() && scheduler.cur == 0
      ensures scheduler.coroutines == old(scheduler.coroutines) - (set i | i in old(destroyList) :: old(i.coroutine))
    {
      hide Released, C.CoroutineScheduler.Valid, TransactionInstance.Inst, C.OneRuns;
      ghost var co := map i | i in destroyList :: i.coroutine;
      var todo := destroyList;
      ghost var done: set<TransactionInstance> := {};
      ghost var gone: set<C.RoutineId> := {};
      while todo != {}
        invariant done !! todo && done + todo == old(destroyList) && destroyList == old(destroyList)
        invariant scheduler.Valid() && scheduler.cur == 0
        invariant scheduler.coroutines == old(scheduler.coroutines) - gone
        invariant gone == Image(co, done)
        invariant forall id :: id in trans ==> trans[id].id == id && !trans[id].dying && trans[id] !in done + todo
        invariant forall i :: i in todo ==> i.Inst() == old(i.Inst()) && i.coroutine == co[i]
        invariant forall i :: i in done ==> i.Inst() == Released(old(i.Inst()))
        decreases todo
      {
        var inst :| inst in todo;
        ImageGrows(co, done, inst);
        gone := gone + {inst.coroutine};
        Release(inst);
        todo := todo - {inst};
        done := done + {inst};
      }
      assert done == old(destroyList);
      assert gone == set i | i in old(destroyList) :: old(i.coroutine);
      destroyList := {};
    }
  }
}
