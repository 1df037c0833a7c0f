/**
 * One transaction: its commands, run in order in a coroutine, and its undo.
 *
 * The coroutine's stack is a program counter.  `Start` and `Resume` say what the coroutine does from
 * getting control to giving it up, which it does by waiting for an event or by coming to its end.
 */
module Transactions {
  import opened Sequences

  type InstId = nat
  type TimerId = nat
  type Event = int

  // TransactionEventType
  const EVENT_INVALID: Event := 0
  const EVENT_TIMEOUT: Event := 1
  const EVENT_ABORT: Event := 2

  // DWTError
  const OK := 0
  const UNKNOWN := 1
  const LOGIC := 5
  const INVALID_PARA := 10
  const RESOURCE_UNAVAILABLE := 20
  const DUPLICATED_OPERATION := 409
  const SVR_INTERNAL := 500
  const ALREADY_IN_PROGRESS := 505
  const ABORT_TRAN := 1000
  const TRAN_INST_NOT_FOUND := 1001

  const MAX_EVENT_COUNT := 10

  /** `events` are those that the command waits for, in any order. */
  datatype Command = Command(events: seq<Event>, timeoutMs: int)

  datatype Transaction = Transaction(cmds: seq<Command>, needUndo: bool)

  /** What a hook of the application does: what it returns, whether it lets the command wait, and
      whether it calls `complete()`. */
  datatype Outcome = Outcome(ret: int, wait: bool, complete: bool)

  /** A call of a hook; `completes` tells whether it called `complete()`. */
  datatype Hook =
    | OnStart(ret: int, completes: bool)
    | Do(index: int, ret: int, wait: bool, completes: bool)
    | OnRecvMsgEvent(index: int, event: Event, completes: bool)
    | OnTimeout(index: int, completes: bool)
    | Undo(index: int)
    | OnSuccess
    | OnFail
    | OnAbort
    | Finally

  /** Where the coroutine is: not started, in `Wait` with the events still to come, or at its end. */
  datatype Pc = Boot | Waiting(rest: seq<Event>) | AtEnd

  /** `events` is events_[0..event_count_). */
  datatype Inst = Inst(
    id: InstId, tran: Transaction, coroutine: nat, timer: TimerId,
    curr: int, waitingIndex: int, failIndex: int, failReason: int,
    complete: bool, dying: bool, inUndo: bool, shouldWait: bool,
    events: seq<Event>, eventType: Event, pc: Pc, log: seq<Hook>)
  {
    predicate IsFailed() { failReason != 0 }
  }

  function NewInst(id: InstId, tran: Transaction): Inst {
    Inst(id, tran, 0, 0, -1, -1, -1, 0, false, false, false, true, [], 0, Boot, [])
  }

  /** A timeout timer: the instance that it carries as its data, and its time. */
  datatype Alarm = Alarm(inst: InstId, ms: int)

  /**
   * A coroutine that has control.  `outs` are the outcomes of the hooks that it will call; `timers` are
   * the live timeout timers; `newTimer` is the id that a registration would get.
   */
  datatype Work = Work(inst: Inst, outs: seq<Outcome>, timers: map<TimerId, Alarm>, newTimer: TimerId)

  function NextOutcome(w: Work): Outcome {
    if w.outs == [] then Outcome(OK, true, false) else w.outs[0]
  }

  function RestOutcomes(w: Work): seq<Outcome> {
    if w.outs == [] then [] else w.outs[1..]
  }

  /** A hook is called: what it does to the instance besides returning. */
  function Call(w: Work, h: Hook): Work {
    var o := NextOutcome(w);
    w.(inst := w.inst.(log := w.inst.log + [h], complete := w.inst.complete || o.complete), outs := RestOutcomes(w))
  }

  predicate InCommand(i: Inst) {
    0 <= i.curr < |i.tran.cmds|
  }

  predicate TimerAvailable(w: Work) {
    w.newTimer != 0 && w.newTimer !in w.timers
  }

  predicate WaitArgsOk(rest: seq<Event>, timeoutMs: int) {
    rest != [] && timeoutMs > 0 && |rest| <= MAX_EVENT_COUNT
  }

  /** `TransactionInstance::Wait` up to the switch to the main routine, with its error code. */
  function WaitFor(w: Work, rest: seq<Event>, timeoutMs: int): (Work, int) {
    if !WaitArgsOk(rest, timeoutMs) then (w, INVALID_PARA)
    else if w.inst.timer != 0 then (w.(inst := w.inst.(pc := Waiting(rest))), OK)
    else if !TimerAvailable(w) then (w, RESOURCE_UNAVAILABLE)
    else
      (w.(timers := w.timers[w.newTimer := Alarm(w.inst.id, timeoutMs)],
          inst := w.inst.(timer := w.newTimer, waitingIndex := w.inst.curr, events := rest, pc := Waiting(rest))),
       OK)
  }

  /** The loop of `WaitForEvent`, at its head. */
  function AwaitRest(w: Work, rest: seq<Event>): Work
    requires InCommand(w.inst)
    decreases |w.inst.tran.cmds| - w.inst.curr, 1
  {
    if rest == [] then CommandOver(w, OK)
    else
      var (w1, ret) := WaitFor(w, rest, w.inst.tran.cmds[w.inst.curr].timeoutMs);
      if ret == OK then w1 else CommandOver(w1, SVR_INTERNAL)
  }

  /** `RunCommandOnInstance` after `DoAndWait` of the current command has returned `code`. */
  function CommandOver(w: Work, code: int): Work
    requires InCommand(w.inst)
    decreases |w.inst.tran.cmds| - w.inst.curr, 0
  {
    var i := w.inst;
    if code != OK || i.IsFailed() then
      AtTheEnd(w.(inst := i.(failIndex := i.curr, failReason := if i.failReason == 0 then code else i.failReason)))
    else if i.complete then AtTheEnd(w)
    else RunFrom(w, i.curr + 1)
  }

  /** `RunCommandOnInstance` from a command on. */
  function RunFrom(w: Work, index: nat): Work
    decreases |w.inst.tran.cmds| - index, 2
  {
    if index >= |w.inst.tran.cmds| then AtTheEnd(w)
    else
      var o := NextOutcome(w);
      var w1 := Call(w.(inst := w.inst.(curr := index)), Do(index, o.ret, o.wait, o.complete));
      var w2 := w1.(inst := w1.inst.(shouldWait := o.wait));
      var events := w.inst.tran.cmds[index].events;
      if o.ret != OK then CommandOver(w2, o.ret)
      else if !o.wait then CommandOver(w2, OK)
      else if events == [] then CommandOver(w2, LOGIC)
      else AwaitRest(w2, events)
  }

  /** The end of `RealStart`, with the mark for destruction that it asks the manager for. */
  function AtTheEnd(w: Work): Work {
    var i := w.inst;
    w.(inst := i.(complete := i.complete || !i.IsFailed(), pc := AtEnd, dying := true))
  }

  function Start(w: Work): Work {
    var o := NextOutcome(w);
    var w1 := Call(w, OnStart(o.ret, o.complete));
    if o.ret != OK then AtTheEnd(w1.(inst := w1.inst.(failReason := SVR_INTERNAL)))
    else RunFrom(w1, 0)
  }

  /** The coroutine gets control back in `Wait`, with the event in `event_type_`. */
  function Resume(w: Work): Work
    requires w.inst.pc.Waiting? && InCommand(w.inst)
  {
    var rest, e, o := w.inst.pc.rest, w.inst.eventType, NextOutcome(w);
    if e in rest then
      var w1 := Call(w, OnRecvMsgEvent(w.inst.curr, e, o.complete));
      if o.ret != OK then CommandOver(w1, o.ret) else AwaitRest(w1, Without(rest, e))
    else if e == EVENT_ABORT then AwaitRest(w.(inst := w.inst.(failReason := ABORT_TRAN)), rest)
    else if e == EVENT_TIMEOUT then
      var w1 := Call(w, OnTimeout(w.inst.curr, o.complete));
      if o.ret != OK then CommandOver(w1, o.ret) else AwaitRest(w1, rest)
    else AwaitRest(w, rest)
  }

  /** n-1, ..., 0. */
  function Down(n: int): (r: seq<int>)
    ensures |r| == if n < 0 then 0 else n
    ensures forall i :: 0 <= i < |r| ==> r[i] == n - 1 - i
  {
    if n <= 0 then [] else [n - 1] + Down(n - 1)
  }

  function UndoHooks(n: int): (r: seq<Hook>)
    ensures |r| == if n < 0 then 0 else n
  {
    if n <= 0 then [] else [Undo(n - 1)] + UndoHooks(n - 1)
  }

  /** `Transaction::Undo`. */
  function Undone(i: Inst): (Inst, int) {
    if !i.tran.needUndo then (i, OK)
    else if i.inUndo then (i, ALREADY_IN_PROGRESS)
    else if i.failIndex < 0 then (i, UNKNOWN)
    else if i.failIndex == 0 then (i, OK)
    else if i.failIndex >= |i.tran.cmds| then (i, SVR_INTERNAL)
    else (i.(log := i.log + UndoHooks(i.failIndex), failIndex := -1, inUndo := false, shouldWait := false), OK)
  }

  /** `HandleResult`, in the main routine. */
  function Handled(i: Inst): Inst {
    var i1 :=
      if i.complete then i.(log := i.log + [OnSuccess])
      else Undone(i.(log := i.log + [if i.failReason == ABORT_TRAN then OnAbort else OnFail])).0;
    i1.(log := i1.log + [Finally])
  }

  // ---------------------------------------------------------------------------------------------
  // Reading the log
  // ---------------------------------------------------------------------------------------------

  /** The commands started, in order. */
  function Dos(log: seq<Hook>): seq<int> {
    if log == [] then []
    else Dos(log[..|log| - 1]) + (if log[|log| - 1].Do? then [log[|log| - 1].index] else [])
  }

  /** The commands undone, in order. */
  function Undos(log: seq<Hook>): seq<int> {
    if log == [] then []
    else Undos(log[..|log| - 1]) + (if log[|log| - 1].Undo? then [log[|log| - 1].index] else [])
  }

  /** The events that a command has been handed, in order. */
  function Recvs(log: seq<Hook>, index: int): seq<Event> {
    if log == [] then []
    else
      var h := log[|log| - 1];
      Recvs(log[..|log| - 1], index) + (if h.OnRecvMsgEvent? && h.index == index then [h.event] else [])
  }

  predicate IsResult(h: Hook) {
    h.OnSuccess? || h.OnFail? || h.OnAbort? || h.Finally?
  }

  /** The result hooks called, in order. */
  function Results(log: seq<Hook>): seq<Hook> {
    if log == [] then []
    else Results(log[..|log| - 1]) + (if IsResult(log[|log| - 1]) then [log[|log| - 1]] else [])
  }

  lemma LogAppend(log: seq<Hook>, h: Hook)
    ensures Dos(log + [h]) == Dos(log) + (if h.Do? then [h.index] else [])
    ensures Undos(log + [h]) == Undos(log) + (if h.Undo? then [h.index] else [])
    ensures Results(log + [h]) == Results(log) + (if IsResult(h) then [h] else [])
    ensures forall j :: Recvs(log + [h], j)
                        == Recvs(log, j) + (if h.OnRecvMsgEvent? && h.index == j then [h.event] else [])
  {
    assert (log + [h])[..|log|] == log;
  }

  function Iota(n: nat): (r: seq<int>)
    ensures |r| == n && forall i :: 0 <= i < n ==> r[i] == i
  {
    seq(n, i => i)
  }

  predicate Completes(h: Hook) {
    (h.OnStart? || h.Do? || h.OnRecvMsgEvent? || h.OnTimeout?) && h.completes
  }

  /** Some hook has called `complete()`. */
  predicate CompleteCalled(log: seq<Hook>) {
    exists k :: 0 <= k < |log| && Completes(log[k])
  }

  /** A command after the first is only started while no hook has called `complete()`. */
  predicate StopsOnComplete(log: seq<Hook>) {
    forall k :: 0 <= k < |log| && log[k].Do? && log[k].index > 0 ==> !CompleteCalled(log[..k])
  }

  /** `Do` of the command was called and returned 0; `wait` tells whether it lets the command wait. */
  predicate Did(log: seq<Hook>, j: int, wait: bool) {
    Do(j, OK, wait, false) in log || Do(j, OK, wait, true) in log
  }

  /** The command has returned 0 from `Do` and, if it waits, has been handed each event once. */
  ghost predicate Passed(i: Inst, j: nat)
    requires j < |i.tran.cmds|
  {
    || (Did(i.log, j, false) && Recvs(i.log, j) == [])
    || (Did(i.log, j, true) && multiset(Recvs(i.log, j)) == multiset(i.tran.cmds[j].events))
  }

  /** Commands 0 to n-1 have been started, once each and in order, and nothing has been undone. */
  ghost predicate Started(i: Inst, n: nat) {
    && n <= |i.tran.cmds| && Dos(i.log) == Iota(n) && Undos(i.log) == [] && Results(i.log) == []
    && (forall j :: j >= n ==> Recvs(i.log, j) == [])
    && i.failIndex == -1 && !i.inUndo && i.failReason in {0, ABORT_TRAN} && i.timer == 0 && !i.dying
    && (i.complete <==> CompleteCalled(i.log)) && StopsOnComplete(i.log)
  }

  ghost predicate AllPassed(i: Inst, n: nat)
    requires n <= |i.tran.cmds|
  {
    forall j: nat {:trigger Passed(i, j)} :: j < n ==> Passed(i, j)
  }

  /** In the middle of a command, with `rest` still to come. */
  ghost predicate MidCommand(i: Inst, rest: seq<Event>) {
    && InCommand(i) && Started(i, i.curr + 1) && AllPassed(i, i.curr) && Did(i.log, i.curr, true)
    && multiset(Recvs(i.log, i.curr)) + multiset(rest) == multiset(i.tran.cmds[i.curr].events)
  }

  /** Suspended in `Wait`.  The timer may be gone: an unexpected event destroys it. */
  ghost predicate Suspended(i: Inst) {
    && i.pc.Waiting? && i.pc.rest != [] && i.events == i.pc.rest && i.waitingIndex == i.curr
    && MidCommand(i.(timer := 0), i.pc.rest)
    && WaitArgsOk(i.pc.rest, i.tran.cmds[i.curr].timeoutMs)
  }

  /** At the end: failed at some command, failed to start, or through. */
  ghost predicate Ended(i: Inst) {
    && i.pc == AtEnd && i.timer == 0 && i.dying && (i.complete || i.IsFailed())
    && Undos(i.log) == [] && Results(i.log) == [] && !i.inUndo
    && exists n: nat :: EndedAfter(i, n)
  }

  /** All of the first `n` commands have been started; they have passed but for the one that failed. */
  ghost predicate EndedAfter(i: Inst, n: nat) {
    && n <= |i.tran.cmds| && Dos(i.log) == Iota(n) && StopsOnComplete(i.log)
    && (i.IsFailed() ==>
          i.failIndex == n - 1 && (n > 0 ==> AllPassed(i, n - 1)) && (i.complete <==> CompleteCalled(i.log)))
    && (!i.IsFailed() ==> AllPassed(i, n) && (n == |i.tran.cmds| || CompleteCalled(i.log)))
  }

  /** The alarm of a waiting instance: for itself, after the timeout of its current command. */
  function AlarmOf(i: Inst): Alarm
    requires InCommand(i)
  {
    Alarm(i.id, i.tran.cmds[i.curr].timeoutMs)
  }

  /** What running the coroutine from `w` may come to, when it gives up control as `r`. */
  ghost predicate Outcomes(w: Work, r: Work) {
    && r.inst.id == w.inst.id && r.inst.tran == w.inst.tran && r.inst.coroutine == w.inst.coroutine
    && (if r.inst.pc.Waiting? then
          && Suspended(r.inst) && TimerAvailable(w)
          && r.inst.timer == w.newTimer && r.timers == w.timers[w.newTimer := AlarmOf(r.inst)]
        else Ended(r.inst) && r.timers == w.timers)
  }

  lemma SameLogPassed(a: Inst, b: Inst, n: nat)
    requires n <= |a.tran.cmds| && AllPassed(a, n) && a.log == b.log && a.tran == b.tran
    ensures AllPassed(b, n)
  {
    forall j: nat | j < n ensures Passed(b, j) {
      assert Passed(a, j);
    }
  }

  /** A hook that is not an event of an earlier command leaves what these have been handed. */
  lemma PassedAppend(a: Inst, h: Hook, b: Inst, n: nat)
    requires n <= |a.tran.cmds| && AllPassed(a, n) && b.log == a.log + [h] && a.tran == b.tran
    requires h.OnRecvMsgEvent? ==> h.index >= n
    ensures AllPassed(b, n)
  {
    LogAppend(a.log, h);
    forall j: nat | j < n ensures Passed(b, j) {
      assert Passed(a, j);
      assert forall wait :: Did(a.log, j, wait) ==> Did(b.log, j, wait);
    }
  }

  lemma {:induction false} AwaitOk(w: Work, rest: seq<Event>)
    requires MidCommand(w.inst, rest)
    ensures Outcomes(w, AwaitRest(w, rest))
    decreases |w.inst.tran.cmds| - w.inst.curr, 1
  {
    var i := w.inst;
    if rest == [] {
      OverOk(w, OK);
    } else {
      var (w1, ret) := WaitFor(w, rest, i.tran.cmds[i.curr].timeoutMs);
      if ret == OK {
        SameLogPassed(i, w1.inst.(timer := 0), i.curr);
      } else {
        OverOk(w1, SVR_INTERNAL);
      }
    }
  }

  lemma {:induction false} OverOk(w: Work, code: int)
    requires InCommand(w.inst) && Started(w.inst, w.inst.curr + 1) && AllPassed(w.inst, w.inst.curr)
    requires code == OK ==> Passed(w.inst, w.inst.curr)
    ensures Outcomes(w, CommandOver(w, code))
    decreases |w.inst.tran.cmds| - w.inst.curr, 0
  {
    hide Passed, Did, CompleteCalled, StopsOnComplete;
    var i, r := w.inst, CommandOver(w, code).inst;
    if code != OK || i.IsFailed() {
      SameLogPassed(i, r, i.curr);
      assert EndedAfter(r, i.curr + 1);
    } else {
      assert AllPassed(i, i.curr + 1);
      if i.complete {
        SameLogPassed(i, r, i.curr + 1);
        assert EndedAfter(r, i.curr + 1);
      } else {
        RunOk(w, i.curr + 1);
      }
    }
  }

  lemma {:induction false} RunOk(w: Work, index: nat)
    requires Started(w.inst, index) && AllPassed(w.inst, index) && !w.inst.IsFailed()
    requires index > 0 ==> !w.inst.complete
    ensures Outcomes(w, RunFrom(w, index))
    decreases |w.inst.tran.cmds| - index, 2
  {
    hide Passed, Did, CompleteCalled, Outcomes, AwaitRest, CommandOver, Started, AllPassed, Recvs, StopsOnComplete;
    var i := w.inst;
    if index >= |i.tran.cmds| {
      AllOver(w, index);
    } else {
      var o := NextOutcome(w);
      var h := Do(index, o.ret, o.wait, o.complete);
      var w1 := Call(w.(inst := i.(curr := index)), h);
      var w2 := w1.(inst := w1.inst.(shouldWait := o.wait));
      if index > 0 { NotYetComplete(i, index); }
      CallStarted(w, h, w2.inst, index);
      var events := i.tran.cmds[index].events;
      if o.ret != OK {
        OverOk(w2, o.ret);
      } else if !o.wait {
        DidNow(w2.inst, h);
        OverOk(w2, OK);
      } else if events == [] {
        OverOk(w2, LOGIC);
      } else {
        DidNow(w2.inst, h);
        AwaitOk(w2, events);
      }
      OutcomesFrom(w, w2, RunFrom(w, index));
    }
  }

  lemma AllOver(w: Work, index: nat)
    requires Started(w.inst, index) && AllPassed(w.inst, index) && !w.inst.IsFailed() && index >= |w.inst.tran.cmds|
    ensures Outcomes(w, AtTheEnd(w))
  {
    SameLogPassed(w.inst, AtTheEnd(w).inst, index);
    assert EndedAfter(AtTheEnd(w).inst, index);
    EndOutcomes(w, AtTheEnd(w));
  }

  lemma DidNow(i: Inst, h: Hook)
    requires h.Do? && h.ret == OK && h in i.log && 0 <= h.index < |i.tran.cmds| && Recvs(i.log, h.index) == []
    ensures Did(i.log, h.index, h.wait)
    ensures !h.wait ==> Passed(i, h.index)
    ensures multiset(Recvs(i.log, h.index)) == multiset{}
  {
  }

  lemma EndOutcomes(w: Work, r: Work)
    requires Ended(r.inst) && r.timers == w.timers
    requires r.inst.id == w.inst.id && r.inst.tran == w.inst.tran && r.inst.coroutine == w.inst.coroutine
    ensures Outcomes(w, r)
  {
  }

  lemma NotYetComplete(i: Inst, n: nat)
    requires Started(i, n) && !i.complete
    ensures !CompleteCalled(i.log)
  {
  }

  /** `Do` of the next command has been called. */
  lemma CallStarted(w: Work, h: Hook, i: Inst, index: nat)
    requires Started(w.inst, index) && AllPassed(w.inst, index) && index < |w.inst.tran.cmds|
    requires h.Do? && h.index == index && (index > 0 ==> !CompleteCalled(w.inst.log))
    requires i == w.inst.(curr := index, log := w.inst.log + [h], complete := w.inst.complete || h.completes, shouldWait := h.wait)
    ensures Started(i, index + 1) && AllPassed(i, index) && h in i.log && Recvs(i.log, index) == []
  {
    hide StopsOnComplete, CompleteCalled, Passed, AllPassed, Dos, Undos, Results, Recvs;
    LogAppend(w.inst.log, h);
    PassedAppend(w.inst, h, i, index);
    CompleteAppend(w.inst.log, h);
    StopsAppend(w.inst.log, h);
    assert i.log[|w.inst.log|] == h;
    assert Iota(index) + [index] == Iota(index + 1);
  }

  lemma CompleteAppend(log: seq<Hook>, h: Hook)
    ensures CompleteCalled(log + [h]) <==> CompleteCalled(log) || Completes(h)
  {
    var l := log + [h];
    assert forall k :: 0 <= k < |log| ==> l[k] == log[k];
    if CompleteCalled(log) {
      var k :| 0 <= k < |log| && Completes(log[k]);
      assert Completes(l[k]);
    }
    if Completes(h) {
      assert Completes(l[|log|]);
    }
  }

  lemma StopsAppend(log: seq<Hook>, h: Hook)
    requires StopsOnComplete(log) && (h.Do? && h.index > 0 ==> !CompleteCalled(log))
    ensures StopsOnComplete(log + [h])
  {
    var l := log + [h];
    assert forall k :: 0 <= k <= |log| ==> l[..k] == log[..k];
    assert log[..|log|] == log;
  }

  lemma StopsSuffix(log: seq<Hook>, l: seq<Hook>)
    requires StopsOnComplete(log) && forall k :: 0 <= k < |l| ==> !l[k].Do?
    ensures StopsOnComplete(log + l)
  {
    assert forall k :: 0 <= k < |log| ==> (log + l)[k] == log[k] && (log + l)[..k] == log[..k];
    assert forall k :: |log| <= k < |log + l| ==> (log + l)[k] == l[k - |log|];
  }

  lemma StartOk(w: Work)
    requires w.inst == NewInst(w.inst.id, w.inst.tran).(coroutine := w.inst.coroutine)
    ensures Outcomes(w, Start(w))
  {
    var o := NextOutcome(w);
    var h := OnStart(o.ret, o.complete);
    var w1 := Call(w, h);
    LogAppend([], h);
    CompleteAppend([], h);
    StopsAppend([], h);
    assert w1.inst.log == [] + [h];
    if o.ret != OK {
      assert EndedAfter(Start(w).inst, 0);
    } else {
      assert Started(w1.inst, 0);
      RunOk(w1, 0);
    }
  }

  /** A hook called in the middle of a command, for an event (if it is one) of that command. */
  lemma CallMid(i: Inst, h: Hook, r: Inst)
    requires InCommand(i) && Started(i, i.curr + 1) && AllPassed(i, i.curr) && Did(i.log, i.curr, true)
    requires (h.OnRecvMsgEvent? || h.OnTimeout?) && h.index == i.curr
    requires r == i.(log := i.log + [h], complete := i.complete || h.completes)
    ensures Started(r, r.curr + 1) && AllPassed(r, r.curr) && Did(r.log, r.curr, true)
    ensures Recvs(r.log, r.curr) == Recvs(i.log, i.curr) + (if h.OnRecvMsgEvent? then [h.event] else [])
  {
    LogAppend(i.log, h);
    CompleteAppend(i.log, h);
    StopsAppend(i.log, h);
    PassedAppend(i, h, r, i.curr);
  }

  lemma OutcomesFrom(w: Work, w1: Work, r: Work)
    requires Outcomes(w1, r) && w1.timers == w.timers && w1.newTimer == w.newTimer
    requires w1.inst.id == w.inst.id && w1.inst.tran == w.inst.tran && w1.inst.coroutine == w.inst.coroutine
    ensures Outcomes(w, r)
  {
  }

  /** Handed one more of the events it waits for. */
  lemma RecvMid(i: Inst, e: Event, completes: bool, r: Inst, rest: seq<Event>)
    requires MidCommand(i, rest) && e in rest
    requires r == i.(log := i.log + [OnRecvMsgEvent(i.curr, e, completes)], complete := i.complete || completes)
    ensures MidCommand(r, Without(rest, e))
  {
    CallMid(i, OnRecvMsgEvent(i.curr, e, completes), r);
    WithoutCount(rest, e);
    assert multiset(Recvs(i.log, i.curr) + [e]) == multiset(Recvs(i.log, i.curr)) + multiset{e};
  }

  lemma ResumeOk(w: Work)
    requires Suspended(w.inst) && w.inst.timer == 0
    ensures Outcomes(w, Resume(w))
  {
    hide AwaitRest, CommandOver, Outcomes, Started, AllPassed, Did, Recvs, Without, CompleteCalled;
    var i, rest, e, o := w.inst, w.inst.pc.rest, w.inst.eventType, NextOutcome(w);
    assert i.(timer := 0) == i;
    if e in rest {
      var h := OnRecvMsgEvent(i.curr, e, o.complete);
      var w1 := Call(w, h);
      CallMid(i, h, w1.inst);
      if o.ret != OK {
        OverOk(w1, o.ret);
      } else {
        RecvMid(i, e, o.complete, w1.inst, rest);
        AwaitOk(w1, Without(rest, e));
      }
      OutcomesFrom(w, w1, Resume(w));
    } else if e == EVENT_ABORT {
      var w1 := w.(inst := i.(failReason := ABORT_TRAN));
      AbortedMid(i, rest);
      AwaitOk(w1, rest);
      OutcomesFrom(w, w1, Resume(w));
    } else if e == EVENT_TIMEOUT {
      var h := OnTimeout(i.curr, o.complete);
      var w1 := Call(w, h);
      CallMid(i, h, w1.inst);
      if o.ret != OK {
        OverOk(w1, o.ret);
      } else {
        AwaitOk(w1, rest);
      }
      OutcomesFrom(w, w1, Resume(w));
    } else {
      AwaitOk(w, rest);
    }
  }

  lemma AbortedMid(i: Inst, rest: seq<Event>)
    requires MidCommand(i, rest)
    ensures MidCommand(i.(failReason := ABORT_TRAN), rest)
  {
    SameLogPassed(i, i.(failReason := ABORT_TRAN), i.curr);
  }

  lemma {:induction false} WithoutCount<T>(l: seq<T>, x: T)
    requires x in l
    ensures multiset(l) == multiset(Without(l, x)) + multiset{x}
  {
    assert l == [l[0]] + l[1..];
    if l[0] != x {
      WithoutCount(l[1..], x);
    }
  }

  lemma {:induction false} LogUndoHooks(log: seq<Hook>, n: int)
    ensures var l := log + UndoHooks(n);
      Dos(l) == Dos(log) && Undos(l) == Undos(log) + Down(n) && Results(l) == Results(log)
    ensures forall j :: Recvs(log + UndoHooks(n), j) == Recvs(log, j)
    decreases n
  {
    hide Dos, Undos, Results, Recvs;
    if n > 0 {
      LogAppend(log, Undo(n - 1));
      LogUndoHooks(log + [Undo(n - 1)], n - 1);
      assert log + UndoHooks(n) == (log + [Undo(n - 1)]) + UndoHooks(n - 1);
    } else {
      assert log + UndoHooks(n) == log;
    }
  }

  lemma {:induction false} UndoHooksAt(n: int)
    ensures forall k :: 0 <= k < n ==> UndoHooks(n)[k] == Undo(n - 1 - k)
  {
    if n > 0 {
      UndoHooksAt(n - 1);
    }
  }

  /** What is left of a transaction once its result has been handled. */
  ghost predicate Settled(i: Inst) {
    && (i.complete || i.IsFailed())
    && Results(i.log) == [if i.complete then OnSuccess else if i.failReason == ABORT_TRAN then OnAbort else OnFail, Finally]
    && exists n: nat :: SettledAfter(i, n)
  }

  /**
   * The saga: the first `n` commands have been started, in order and once each.  If the transaction
   * failed, at the last of them, those before it had passed, and exactly they have been undone, in
   * reverse; if it completed (or needs no undo), nothing has been undone.
   */
  ghost predicate SettledAfter(i: Inst, n: nat) {
    && n <= |i.tran.cmds| && Dos(i.log) == Iota(n) && StopsOnComplete(i.log)
    && (if i.IsFailed() then n > 0 ==> AllPassed(i, n - 1)
        else AllPassed(i, n) && (n == |i.tran.cmds| || CompleteCalled(i.log)))
    && Undos(i.log) == (if i.complete || !i.tran.needUndo then [] else Down(n - 1))
    && (i.IsFailed() ==> (i.complete <==> CompleteCalled(i.log)))
  }

  lemma PassedSuffix(a: Inst, b: Inst, l: seq<Hook>, n: nat)
    requires n <= |a.tran.cmds| && AllPassed(a, n) && b.log == a.log + l && a.tran == b.tran
    requires forall j :: Recvs(b.log, j) == Recvs(a.log, j)
    ensures AllPassed(b, n)
  {
    forall j: nat | j < n ensures Passed(b, j) {
      assert Passed(a, j);
      assert forall wait :: Did(a.log, j, wait) ==> Did(b.log, j, wait);
    }
  }

  lemma CompleteSuffix(log: seq<Hook>, l: seq<Hook>)
    requires forall k :: 0 <= k < |l| ==> !Completes(l[k])
    ensures CompleteCalled(log + l) <==> CompleteCalled(log)
  {
    assert forall k :: 0 <= k < |log| ==> (log + l)[k] == log[k];
    assert forall k :: |log| <= k < |log + l| ==> (log + l)[k] == l[k - |log|];
  }

  lemma {:induction false} UndoHooksOnly(n: int)
    ensures forall k :: 0 <= k < |UndoHooks(n)| ==> UndoHooks(n)[k].Undo?
  {
    if n > 0 {
      UndoHooksOnly(n - 1);
    }
  }

  function ResultHook(i: Inst): Hook {
    if i.complete then OnSuccess else if i.failReason == ABORT_TRAN then OnAbort else OnFail
  }

  /** How many commands `HandleResult` undoes of a transaction that ended after `n`. */
  function UndoCount(i: Inst, n: nat): int {
    if i.complete || !i.tran.needUndo then 0 else n - 1
  }

  lemma HandledLog(i: Inst, n: nat)
    requires Ended(i) && EndedAfter(i, n)
    ensures var r := Handled(i);
      && r.log == i.log + ([ResultHook(i)] + UndoHooks(UndoCount(i, n)) + [Finally])
      && r.id == i.id && r.tran == i.tran && r.complete == i.complete && r.failReason == i.failReason
  {
    hide AllPassed, Dos, Undos, Results, CompleteCalled;
    var i1 := i.(log := i.log + [ResultHook(i)]);
    var i2 := if i.complete then i1 else Undone(i1).0;
    assert i2.log == i1.log + UndoHooks(UndoCount(i, n));
  }

  lemma SettledLog(log: seq<Hook>, h: Hook, n: int)
    requires h == OnSuccess || h == OnFail || h == OnAbort
    ensures var l := log + ([h] + UndoHooks(n) + [Finally]);
      && Dos(l) == Dos(log) && Undos(l) == Undos(log) + Down(n) && Results(l) == Results(log) + [h] + [Finally]
    ensures forall j :: Recvs(log + ([h] + UndoHooks(n) + [Finally]), j) == Recvs(log, j)
  {
    hide Dos, Undos, Results, Recvs, UndoHooks;
    LogAppend(log, h);
    LogUndoHooks(log + [h], n);
    LogAppend((log + [h]) + UndoHooks(n), Finally);
    assert log + ([h] + UndoHooks(n) + [Finally]) == ((log + [h]) + UndoHooks(n)) + [Finally];
  }

  lemma HandledOk(i: Inst)
    requires Ended(i)
    ensures Settled(Handled(i)) && Handled(i).id == i.id && Handled(i).tran == i.tran
  {
    hide Handled, Dos, Undos, Results, Recvs, CompleteCalled, AllPassed, StopsOnComplete;
    var n: nat :| EndedAfter(i, n);
    HandledLog(i, n);
    var r := Handled(i);
    var l := [ResultHook(i)] + UndoHooks(UndoCount(i, n)) + [Finally];
    SettledLog(i.log, ResultHook(i), UndoCount(i, n));
    UndoHooksOnly(UndoCount(i, n));
    CompleteSuffix(i.log, l);
    StopsSuffix(i.log, l);
    if !i.IsFailed() {
      PassedSuffix(i, r, l, n);
    } else if n > 0 {
      PassedSuffix(i, r, l, n - 1);
    }
    assert SettledAfter(r, n);
  }

  lemma EndedStays(i: Inst, e: Event, c: nat)
    requires Ended(i)
    ensures Ended(i.(eventType := e, coroutine := c))
  {
    var r := i.(eventType := e, coroutine := c);
    var n: nat :| EndedAfter(i, n);
    if i.IsFailed() {
      if n > 0 { SameLogPassed(i, r, n - 1); }
    } else {
      SameLogPassed(i, r, n);
    }
    assert EndedAfter(r, n);
  }

  /** What `Update` does with an instance at its end: the coroutine goes, the result is handled. */
  function Released(i: Inst): Inst {
    Handled(i.(coroutine := 0)).(dying := false)
  }

  lemma HandledFields(i: Inst)
    requires !i.inUndo
    ensures var r := Handled(i); r.coroutine == i.coroutine && r.timer == i.timer && !r.inUndo
  {
  }

  lemma ReleaseSettles(i: Inst)
    requires Ended(i)
    ensures Settled(Released(i)) && Released(i).id == i.id && Released(i).tran == i.tran
    ensures Released(i).coroutine == 0 && !Released(i).dying && Released(i).timer == 0 && !Released(i).inUndo
  {
    hide Handled;
    EndedStays(i, i.eventType, 0);
    assert i.(eventType := i.eventType, coroutine := 0) == i.(coroutine := 0);
    var h, r := Handled(i.(coroutine := 0)), Released(i);
    HandledOk(i.(coroutine := 0));
    HandledFields(i.(coroutine := 0));
    hide Ended, StopsOnComplete, Passed, Dos, Undos, Results;
    var n: nat :| SettledAfter(h, n);
    if !h.IsFailed() {
      SameLogPassed(h, r, n);
    } else if n > 0 {
      SameLogPassed(h, r, n - 1);
    }
    assert SettledAfter(r, n);
  }

  /** A timeout that the command does not put up with ends the transaction there, with the first reason. */
  lemma TimeoutEnds(w: Work)
    requires w.inst.pc.Waiting? && InCommand(w.inst) && w.inst.eventType == EVENT_TIMEOUT
    requires EVENT_TIMEOUT !in w.inst.pc.rest && NextOutcome(w).ret != OK
    ensures var i := Resume(w).inst;
      && i.pc == AtEnd && i.failIndex == w.inst.curr
      && i.failReason == (if w.inst.IsFailed() then w.inst.failReason else NextOutcome(w).ret)
      && i.log == w.inst.log + [OnTimeout(w.inst.curr, NextOutcome(w).complete)]
  {
  }

  /** A command that does not wait is over with its `Do`; the next one is started at once. */
  lemma NoWaitGoesOn(w: Work, index: nat)
    requires index < |w.inst.tran.cmds| && !w.inst.IsFailed() && !w.inst.complete
    requires NextOutcome(w) == Outcome(OK, false, false)
    ensures var h := Do(index, OK, false, false);
      RunFrom(w, index) ==
      RunFrom(w.(inst := w.inst.(curr := index, shouldWait := false, log := w.inst.log + [h]), outs := RestOutcomes(w)), index + 1)
  {
    hide AwaitRest;
  }

  /** Two mistakes that count as success: `complete()` first, and a failure after it. */
  lemma CompleteThenFail(w: Work)
    requires w.inst == NewInst(w.inst.id, Transaction([Command([], 1), Command([], 1)], true))
    requires w.outs == [Outcome(OK, false, false), Outcome(OK, false, false), Outcome(1, true, true)]
    ensures var i := Start(w).inst;
      i.IsFailed() && i.failIndex == 1 && i.complete && Undos(Handled(i).log) == []
  {
    var o := w.outs;
    var w1 := Call(w, OnStart(OK, false));
    assert w1.outs == o[1..];
    NoWaitGoesOn(w1, 0);
    var w2 := w1.(inst := w1.inst.(curr := 0, shouldWait := false, log := w1.inst.log + [Do(0, OK, false, false)]), outs := o[1..][1..]);
    assert w2.outs == [Outcome(1, true, true)];
    assert Start(w) == RunFrom(w2, 1);
    var i := Start(w).inst;
    StartOk(w);
    HandledOk(i);
  }
}
