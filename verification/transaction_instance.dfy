/** The transaction instance as an object, and the loops that work on it. */
module TransactionObjects {
  import opened Sequences
  import T = Transactions
  import opened TransactionTypes = Transactions

  lemma RunFromHere(w: Work, i: nat)
    ensures i >= |w.inst.tran.cmds| ==> RunFrom(w, i) == AtTheEnd(w)
    ensures i < |w.inst.tran.cmds| ==> RunFrom(w.(inst := w.inst.(curr := i, shouldWait := true)), i) == RunFrom(w, i)
  {
    hide CommandOver, AwaitRest;
  }

  /** What coroutines draw on: hook outcomes to come, the live timers, the next timer id. */
  class Surroundings {
    var outs: seq<Outcome>
    var timers: map<TimerId, Alarm>
    var newTimer: TimerId

    constructor ()
      ensures outs == [] && timers == map[] && newTimer == 0
    {
      outs, timers, newTimer := [], map[], 0;
    }
  }

  class TransactionInstance {
    const id: InstId
    const tran: Transaction
    const env: Surroundings
    var coroutine: nat
    var timer: TimerId
    var curr: int
    var waitingIndex: int
    var failIndex: int
    var failReason: int
    var complete: bool
    var dying: bool
    var inUndo: bool
    var shouldWait: bool
    var events: seq<Event>
    var eventType: Event
    /** Where its coroutine is, with the local vector of WaitForEvent. */
    var pc: Pc
    var log: seq<Hook>

    ghost function Inst(): Inst
      reads this
    {
      T.Inst(id, tran, coroutine, timer, curr, waitingIndex, failIndex, failReason, complete, dying, inUndo,
             shouldWait, events, eventType, pc, log)
    }

    ghost function View(): Work
      reads this, env
    {
      Work(Inst(), env.outs, env.timers, env.newTimer)
    }

    constructor (id: InstId, tran: Transaction, env: Surroundings)
      ensures Inst() == NewInst(id, tran) && this.env == env
    {
      this.id, this.tran, this.env := id, tran, env;
      coroutine, timer, curr, waitingIndex, failIndex, failReason := 0, 0, -1, -1, -1, 0;
      complete, dying, inUndo, shouldWait := false, false, false, true;
      events, eventType, pc, log := [], 0, Boot, [];
    }

    /** A hook of the application is called. */
    method CallHook(ghost h: Hook, kind: Outcome -> Hook) returns (o: Outcome)
      requires h == kind(NextOutcome(View()))
      modifies this`log, this`complete, env`outs
      ensures o == NextOutcome(old(View())) && View() == Call(old(View()), h)
    {
      o := if env.outs == [] then Outcome(OK, true, false) else env.outs[0];
      env.outs := if env.outs == [] then [] else env.outs[1..];
      log := log + [kind(o)];
      complete := complete || o.complete;
    }

    /** `Wait`: returns an error code, or gives up control with OK. */
    method Wait(rest: seq<Event>, timeoutMs: int) returns (ret: int)
      modifies this`timer, env`timers, this`waitingIndex, this`events, this`pc
      ensures (View(), ret) == WaitFor(old(View()), rest, timeoutMs)
      ensures ret == if rest == [] || timeoutMs <= 0 || |rest| > 10 then INVALID_PARA
                     else if old(timer) == 0 && (env.newTimer == 0 || env.newTimer in old(env.timers))
                     then RESOURCE_UNAVAILABLE else OK
      ensures ret == OK ==> pc == Waiting(rest) && timer == (if old(timer) == 0 then env.newTimer else old(timer))
      ensures ret == OK && old(timer) == 0 ==>
        && env.timers == old(env.timers)[timer := Alarm(id, timeoutMs)] && waitingIndex == curr && events == rest
      ensures ret != OK || old(timer) != 0 ==>
        && env.timers == old(env.timers) && timer == old(timer) && waitingIndex == old(waitingIndex)
        && events == old(events)
    {
      if rest == [] || timeoutMs <= 0 || |rest| > MAX_EVENT_COUNT { return INVALID_PARA; }
      if timer == 0 {
        if env.newTimer == 0 || env.newTimer in env.timers { return RESOURCE_UNAVAILABLE; }
        env.timers := env.timers[env.newTimer := Alarm(id, timeoutMs)];
        timer := env.newTimer;
        waitingIndex := curr;
        events := rest;
      }
      pc := Waiting(rest);
      return OK;
    }

    /** The loop of `WaitForEvent` from its head: it returns a code, or the coroutine is suspended. */
    method WaitForEvent(rest: seq<Event>) returns (code: int, suspended: bool)
      requires InCommand(Inst())
      modifies this`timer, env`timers, this`waitingIndex, this`events, this`pc
      ensures curr == old(curr)
      ensures AwaitRest(old(View()), rest) == if suspended then View() else CommandOver(View(), code)
      ensures suspended ==> pc.Waiting?
    {
      if rest == [] { return OK, false; }
      var ret := Wait(rest, tran.cmds[curr].timeoutMs);
      if ret != OK { return SVR_INTERNAL, false; }
      return OK, true;
    }

    /** `DoAndWait` of the current command. */
    method DoAndWait() returns (code: int, suspended: bool)
      requires InCommand(Inst())
      modifies this`timer, env`timers, this`waitingIndex, this`events, this`pc, this`log, this`complete,
               env`outs, this`shouldWait
      ensures curr == old(curr)
      ensures RunFrom(old(View()), curr) == if suspended then View() else CommandOver(View(), code)
      ensures suspended ==> pc.Waiting?
    {
      var k := curr;
      ghost var o' := NextOutcome(View());
      var o := CallHook(Do(k, o'.ret, o'.wait, o'.complete), (o: Outcome) => Do(k, o.ret, o.wait, o.complete));
      shouldWait := o.wait;
      if o.ret != OK { return o.ret, false; }
      if !shouldWait { return OK, false; }
      if tran.cmds[curr].events == [] { return LOGIC, false; }
      code, suspended := WaitForEvent(tran.cmds[curr].events);
    }

    /** Runs commands from `index` on, until one suspends the coroutine or all is over. */
    method RunCommandOnInstance(index: nat) returns (suspended: bool)
      modifies this, env
      ensures RunFrom(old(View()), index) == if suspended then View() else AtTheEnd(View())
      ensures (suspended ==> pc.Waiting?) && dying == old(dying)
    {
      hide RunFrom, CommandOver, AtTheEnd;
      var i := index;
      while i < |tran.cmds|
        invariant RunFrom(View(), i) == RunFrom(old(View()), index) && dying == old(dying)
      {
        RunFromHere(View(), i);
        curr := i;
        shouldWait := true;
        var code;
        code, suspended := DoAndWait();
        if suspended { return true; }
        var over := AfterCommand(code);
        if over { return false; }
        i := i + 1;
      }
      RunFromHere(View(), i);
      return false;
    }

    /** What the loop does once a command has returned: stop, on failure or completion, or go on. */
    method AfterCommand(code: int) returns (over: bool)
      requires InCommand(Inst())
      modifies this`failIndex, this`failReason
      ensures CommandOver(old(View()), code) == if over then AtTheEnd(View()) else RunFrom(View(), curr + 1)
    {
      if code != OK || failReason != 0 {
        failIndex := curr;
        if failReason == 0 {
          failReason := code;
        }
        return true;
      } else if complete {
        return true;
      }
      return false;
    }

    /** `RealStart` up to the end of its commands, or to the first suspension. */
    method RealStart() returns (suspended: bool)
      modifies this, env
      ensures Start(old(View())) == if suspended then View() else AtTheEnd(View())
      ensures (suspended ==> pc.Waiting?) && dying == old(dying)
    {
      ghost var o' := NextOutcome(View());
      var o := CallHook(OnStart(o'.ret, o'.complete), (o: Outcome) => OnStart(o.ret, o.complete));
      if o.ret != OK {
        failReason := SVR_INTERNAL;
        return false;
      }
      suspended := RunCommandOnInstance(0);
    }

    /** `WaitForEvent` after `Wait` has returned, up to its return or the next suspension. */
    method ContinueWait() returns (code: int, suspended: bool)
      requires pc.Waiting? && InCommand(Inst())
      modifies this, env
      ensures curr == old(curr)
      ensures T.Resume(old(View())) == if suspended then View() else CommandOver(View(), code)
      ensures (suspended ==> pc.Waiting?) && dying == old(dying)
    {
      var rest, e, k := pc.rest, eventType, curr;
      ghost var o' := NextOutcome(View());
      if e in rest {
        var o := CallHook(OnRecvMsgEvent(k, e, o'.complete), (o: Outcome) => OnRecvMsgEvent(k, e, o.complete));
        if o.ret != OK { return o.ret, false; }
        rest := Without(rest, e);
      } else if e == EVENT_ABORT {
        failReason := ABORT_TRAN;
      } else if e == EVENT_TIMEOUT {
        var o := CallHook(OnTimeout(k, o'.complete), (o: Outcome) => OnTimeout(k, o.complete));
        if o.ret != OK { return o.ret, false; }
      }
      code, suspended := WaitForEvent(rest);
    }

    /** The coroutine gets control back in `Wait`, and runs to its end or to the next suspension. */
    method Resume() returns (suspended: bool)
      requires pc.Waiting? && InCommand(Inst())
      modifies this, env
      ensures T.Resume(old(View())) == if suspended then View() else AtTheEnd(View())
      ensures (suspended ==> pc.Waiting?) && dying == old(dying)
    {
      var code;
      code, suspended := ContinueWait();
      if !suspended {
        var over := AfterCommand(code);
        if !over {
          suspended := RunCommandOnInstance(curr + 1);
        }
      }
    }

    /** `Transaction::Undo`: undoes from the command before the failed one down to the first. */
    method Undo() returns (ret: int)
      modifies this`log, this`failIndex, this`inUndo, this`shouldWait
      ensures (Inst(), ret) == Undone(old(Inst()))
      ensures ret == if !tran.needUndo then OK else if old(inUndo) then ALREADY_IN_PROGRESS
                     else if old(failIndex) < 0 then UNKNOWN
                     else if old(failIndex) > 0 && old(failIndex) >= |tran.cmds| then SVR_INTERNAL else OK
      ensures tran.needUndo && ret == OK && old(failIndex) > 0 ==>
        && failIndex == -1 && !inUndo && |log| == |old(log)| + old(failIndex) && old(log) <= log
        && forall k :: |old(log)| <= k < |log| ==> log[k] == T.Undo(|log| - 1 - k)
      ensures !tran.needUndo || ret != OK || old(failIndex) == 0 ==>
        log == old(log) && failIndex == old(failIndex) && inUndo == old(inUndo)
    {
      if !tran.needUndo { return OK; }
      if inUndo { return ALREADY_IN_PROGRESS; }
      var undoIdx := failIndex;
      if undoIdx < 0 { return UNKNOWN; }
      if undoIdx == 0 { return OK; }
      if undoIdx >= |tran.cmds| { return SVR_INTERNAL; }
      inUndo := true;
      var i := undoIdx - 1;
      while i >= 0
        invariant -1 <= i < undoIdx
        invariant log + UndoHooks(i + 1) == old(log) + UndoHooks(undoIdx)
        invariant shouldWait == (i == undoIdx - 1 && old(shouldWait))
        decreases i
      {
        assert log + UndoHooks(i + 1) == log + [T.Undo(i)] + UndoHooks(i);
        log := log + [T.Undo(i)];
        shouldWait := false;
        i := i - 1;
      }
      assert log + UndoHooks(0) == log;
      UndoHooksAt(undoIdx);
      failIndex := -1;
      inUndo := false;
      return OK;
    }

    /** `HandleResult`, in the main routine. */
    method HandleResult()
      modifies this`log, this`failIndex, this`inUndo, this`shouldWait
      ensures Inst() == Handled(old(Inst()))
    {
      if complete {
        log := log + [OnSuccess];
      } else {
        log := log + [if failReason == ABORT_TRAN then OnAbort else OnFail];
        if tran.needUndo {
          var _ := Undo();
        }
      }
      log := log + [Finally];
    }
  }
}
