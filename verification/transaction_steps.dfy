/**
 * What the command loop does, in closed form: which commands it starts, and how it leaves off.
 *
 * Nothing here is said through the recursion of module Transactions; that this recursion does it is
 * the theorem `RunsExactly`.
 */
module TransactionSteps {
  import opened Sequences
  import opened Transactions

  /** The outcome of the hook number `n` that is called from here on. */
  function OutcomeAt(w: Work, n: nat): Outcome {
    if n < |w.outs| then w.outs[n] else Outcome(OK, true, false)
  }

  /** The `Do` hooks of the `n` commands from `index` on. */
  function DoHooks(w: Work, index: nat, n: nat): (r: seq<Hook>) {
    seq(n, d requires 0 <= d < n =>
      Do(index + d, OutcomeAt(w, d).ret, OutcomeAt(w, d).wait, OutcomeAt(w, d).complete))
  }

  /** A command that returns 0 at once, with nobody calling `complete()`. */
  predicate Passes(o: Outcome) {
    o.ret == OK && !o.wait && !o.complete
  }

  /** Every command from `index` up to `k` passes. */
  predicate AllPass(w: Work, index: nat, k: nat) {
    && (k > index ==> !w.inst.complete)
    && forall d: nat :: d < k - index ==> Passes(OutcomeAt(w, d))
  }

  /** The transaction is over, failed at the command `k`. */
  predicate FailedAt(r: Inst, k: int, reason: int) {
    r.pc == AtEnd && r.dying && r.failIndex == k && r.failReason == reason
  }

  /** The transaction is over and complete. */
  predicate Completed(r: Inst) {
    r.pc == AtEnd && r.dying && r.complete && r.failReason == 0
  }

  /** The transaction waits in its command `k`, with a new alarm. */
  predicate WaitsIn(w: Work, r: Inst, timers: map<TimerId, Alarm>, k: nat, events: seq<Event>)
    requires k < |w.inst.tran.cmds|
  {
    && r.pc == Waiting(events) && !r.dying && r.events == events && r.curr == k && r.waitingIndex == k
    && r.timer == w.newTimer && timers == w.timers[w.newTimer := Alarm(w.inst.id, w.inst.tran.cmds[k].timeoutMs)]
  }

  /** A wait is refused for want of a timer, of time or of room for the events. */
  predicate CanWait(w: Work, events: seq<Event>, timeoutMs: int) {
    events != [] && timeoutMs > 0 && |events| <= 10 && w.newTimer != 0 && w.newTimer !in w.timers
  }

  /** How the loop leaves off at the command `k`, whose `Do` has had the outcome `o`. */
  predicate LeavesOff(w: Work, k: nat, o: Outcome, r: Inst, timers: map<TimerId, Alarm>)
    requires k < |w.inst.tran.cmds|
  {
    var c := w.inst.tran.cmds[k];
    if o.ret != OK then FailedAt(r, k, o.ret) && timers == w.timers
    else if !o.wait then (w.inst.complete || o.complete) && Completed(r) && timers == w.timers
    else if c.events == [] then FailedAt(r, k, LOGIC) && timers == w.timers
    else if CanWait(w, c.events, c.timeoutMs) then WaitsIn(w, r, timers, k, c.events)
    else FailedAt(r, k, SVR_INTERNAL) && timers == w.timers
  }

  /** Commands from `index` on are run, up to `k`, where the loop leaves off; or through to the end. */
  predicate Ran(w: Work, index: nat, k: nat, r: Inst, timers: map<TimerId, Alarm>)
    requires index <= |w.inst.tran.cmds|
  {
    && index <= k <= |w.inst.tran.cmds| && AllPass(w, index, k)
    && (if k == |w.inst.tran.cmds| then
          Completed(r) && timers == w.timers && r.log == w.inst.log + DoHooks(w, index, k - index)
        else
          && LeavesOff(w, k, OutcomeAt(w, k - index), r, timers)
          && r.log == w.inst.log + DoHooks(w, index, k + 1 - index) && r.curr == k
          && r.complete == (w.inst.complete || OutcomeAt(w, k - index).complete))
  }

  lemma DoHooksCons(w: Work, w1: Work, index: nat, n: nat)
    requires w1.outs == RestOutcomes(w)
    ensures forall d: nat :: OutcomeAt(w1, d) == OutcomeAt(w, d + 1)
    ensures var o := NextOutcome(w);
      DoHooks(w, index, n + 1) == [Do(index, o.ret, o.wait, o.complete)] + DoHooks(w1, index + 1, n)
  {
  }

  /** Exactly this is what the command loop does. */
  lemma {:induction false} RunsExactly(w: Work, index: nat) returns (k: nat)
    requires index <= |w.inst.tran.cmds| && !w.inst.IsFailed() && w.inst.timer == 0 && !w.inst.dying
    ensures Ran(w, index, k, RunFrom(w, index).inst, RunFrom(w, index).timers)
    decreases |w.inst.tran.cmds| - index
  {
    k := index;
    if index < |w.inst.tran.cmds| {
      var o := NextOutcome(w);
      assert o == OutcomeAt(w, 0);
      var h := Do(index, o.ret, o.wait, o.complete);
      var w1 := Call(w.(inst := w.inst.(curr := index)), h);
      var w2 := w1.(inst := w1.inst.(shouldWait := o.wait));
      DoHooksCons(w, w2, index, 0);
      assert w2.inst.log == w.inst.log + DoHooks(w, index, 1);
      if Passes(o) && !w.inst.complete {
        k := RunsExactly(w2, index + 1);
        OnceMore(w, w2, index, k, RunFrom(w2, index + 1).inst, RunFrom(w2, index + 1).timers);
        assert RunFrom(w, index) == CommandOver(w2, OK) == RunFrom(w2, index + 1);
      } else {
        StopsHere(w, w2, index, o);
      }
    } else {
      assert DoHooks(w, index, 0) == [];
    }
  }

  /** The first command has passed. */
  lemma OnceMore(w: Work, w2: Work, index: nat, k: nat, r: Inst, timers: map<TimerId, Alarm>)
    requires index < |w.inst.tran.cmds| && w2.outs == RestOutcomes(w) && Passes(OutcomeAt(w, 0)) && !w.inst.complete
    requires w2.inst == w.inst.(curr := index, shouldWait := false, log := w.inst.log + DoHooks(w, index, 1))
    requires w2.timers == w.timers && w2.newTimer == w.newTimer
    requires Ran(w2, index + 1, k, r, timers)
    ensures Ran(w, index, k, r, timers)
  {
    hide LeavesOff;
    DoHooksCons(w, w2, index, 0);
    DoHooksCons(w, w2, index, k - index - 1);
    DoHooksCons(w, w2, index, k - index);
    assert forall d: nat :: d < k - index ==> OutcomeAt(w, d) == if d == 0 then OutcomeAt(w, 0) else OutcomeAt(w2, d - 1);
    assert w.inst.log + DoHooks(w, index, 1) + DoHooks(w2, index + 1, k - index - 1) == w.inst.log + DoHooks(w, index, k - index);
    if k < |w.inst.tran.cmds| {
      LeavesOffSame(w, w2, k, OutcomeAt(w, k - index), r, timers);
      assert w.inst.log + DoHooks(w, index, 1) + DoHooks(w2, index + 1, k - index)
        == w.inst.log + DoHooks(w, index, k + 1 - index);
    }
  }

  lemma LeavesOffSame(w: Work, w2: Work, k: nat, o: Outcome, r: Inst, timers: map<TimerId, Alarm>)
    requires k < |w.inst.tran.cmds| && w2.inst.tran == w.inst.tran && w2.inst.id == w.inst.id
    requires w2.inst.complete == w.inst.complete && w2.timers == w.timers && w2.newTimer == w.newTimer
    ensures LeavesOff(w, k, o, r, timers) == LeavesOff(w2, k, o, r, timers)
  {
  }

  /** The loop leaves off at the first command already. */
  lemma StopsHere(w: Work, w2: Work, index: nat, o: Outcome)
    requires index < |w.inst.tran.cmds| && !w.inst.IsFailed() && w.inst.timer == 0 && !w.inst.dying
    requires o == NextOutcome(w) && !(Passes(o) && !w.inst.complete)
    requires w2 == w.(outs := RestOutcomes(w),
                      inst := w.inst.(curr := index, shouldWait := o.wait, complete := w.inst.complete || o.complete,
                                      log := w.inst.log + DoHooks(w, index, 1)))
    ensures var r := RunFrom(w, index);
      LeavesOff(w, index, o, r.inst, r.timers) && r.inst.log == w2.inst.log && r.inst.curr == index
      && r.inst.complete == w2.inst.complete
  {
    var h := Do(index, o.ret, o.wait, o.complete);
    assert DoHooks(w, index, 1) == [h];
    var c := w.inst.tran.cmds[index];
    if o.ret != OK {
      FailsWith(w2, o.ret);
      assert RunFrom(w, index) == CommandOver(w2, o.ret);
    } else if !o.wait {
      assert RunFrom(w, index) == CommandOver(w2, OK) == AtTheEnd(w2);
    } else if c.events == [] {
      FailsWith(w2, LOGIC);
      assert RunFrom(w, index) == CommandOver(w2, LOGIC);
    } else {
      Awaits(w2, c.events);
      assert RunFrom(w, index) == AwaitRest(w2, c.events);
    }
  }

  /** A command that fails ends the transaction, with the first reason given. */
  lemma FailsWith(w: Work, code: int)
    requires InCommand(w.inst) && (code != OK || w.inst.IsFailed())
    ensures var r := CommandOver(w, code);
      && FailedAt(r.inst, w.inst.curr, if w.inst.IsFailed() then w.inst.failReason else code)
      && r.timers == w.timers && r.inst.log == w.inst.log && r.inst.curr == w.inst.curr && r.inst.id == w.inst.id
      && r.inst.complete == w.inst.complete
  {
  }

  /** A command that has events to wait for waits for them, or fails. */
  lemma Awaits(w: Work, rest: seq<Event>)
    requires InCommand(w.inst) && rest != [] && w.inst.timer == 0 && !w.inst.dying
    ensures var r := AwaitRest(w, rest);
      && r.inst.log == w.inst.log && r.inst.curr == w.inst.curr && r.inst.complete == w.inst.complete
      && r.inst.id == w.inst.id
      && (if CanWait(w, rest, w.inst.tran.cmds[w.inst.curr].timeoutMs) then
            WaitsIn(w, r.inst, r.timers, w.inst.curr, rest) && r.inst.failReason == w.inst.failReason
          else
            && FailedAt(r.inst, w.inst.curr, if w.inst.IsFailed() then w.inst.failReason else SVR_INTERNAL)
            && r.timers == w.timers)
  {
    if !CanWait(w, rest, w.inst.tran.cmds[w.inst.curr].timeoutMs) {
      FailsWith(w, SVR_INTERNAL);
      assert AwaitRest(w, rest) == CommandOver(w, SVR_INTERNAL);
    }
  }
}
