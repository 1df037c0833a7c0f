/**
 * The functor queue of the event loop, shared by the loop thread and any number of other threads.
 *
 * Each event below is one step that nothing interleaves with: a section under the mutex, a system call
 * on the eventfd, a store to a flag, or the move of the loop to its next statement.
 */
module EventLoop {

  type ThreadId = nat
  /** A queued functor, by its name. */
  type Functor = nat

  /** An eventfd refuses a write that would take its counter beyond this; the counter is positive then. */
  const EVENTFD_MAX: nat := 0xFFFF_FFFF_FFFF_FFFE

  /** Where the loop thread is. */
  datatype LoopPc =
    | Polling                    // at the head of the loop, about to poll
    | Handling(readable: bool)   // in the handlers; the wakeup channel is reported and not yet read
    | Entered                    // in doPendingFunctors, flag set, before the swap
    | Running(owesWakeup: bool)  // executing the batch; a functor has queued and not yet woken the loop

  datatype State = State(
    pending: seq<Functor>,       // m_pendingFunctors
    batch: seq<Functor>,         // what is left of the swapped vector
    counter: nat,                // of the eventfd
    calling: bool,               // m_callingPendingFunctors
    loop: LoopPc,
    waking: set<ThreadId>,       // other threads between their push and their wakeup
    history: seq<Functor>,       // everything ever queued, in lock order
    executed: seq<Functor>,
    polled: nat)                 // how much had been queued when poll last returned

  datatype Event =
    | Push(t: ThreadId, f: Functor)
    | Wakeup(t: ThreadId)
    | PollReturns(readable: bool)
    | HandleRead
    | HandlerQueues(f: Functor)
    | HandlersDone
    | Swap
    | RunFunctor
    | FunctorQueues(f: Functor)
    | LoopWakesItself
    | BatchDone

  const Initial := State([], [], 0, false, Polling, {}, [], [], 0)

  /** The condition under which `queueInLoop` goes on to call `wakeup` after its push. */
  predicate MustWake(inLoopThread: bool, calling: bool) {
    !inLoopThread || calling
  }

  function Queued(s: State, f: Functor): State {
    s.(pending := s.pending + [f], history := s.history + [f])
  }

  function Woken(counter: nat): nat {
    if counter < EVENTFD_MAX then counter + 1 else counter
  }

  /** Poll reports the wakeup channel only if the counter is positive. */
  predicate Enabled(s: State, e: Event) {
    match e
    case Push(t, _) => t !in s.waking
    case Wakeup(t) => t in s.waking
    case PollReturns(readable) => s.loop == Polling && (readable ==> s.counter > 0)
    case HandleRead => s.loop == Handling(true)
    case HandlerQueues(_) => s.loop.Handling?
    case HandlersDone => s.loop == Handling(false)
    case Swap => s.loop == Entered
    case RunFunctor => s.loop == Running(false) && s.batch != []
    case FunctorQueues(_) => s.loop == Running(false)
    case LoopWakesItself => s.loop == Running(true)
    case BatchDone => s.loop == Running(false) && s.batch == []
  }

  function Step(s: State, e: Event): State
    requires Enabled(s, e)
  {
    match e
    case Push(t, f) =>
      if MustWake(false, s.calling) then Queued(s, f).(waking := s.waking + {t}) else Queued(s, f)
    case Wakeup(t) => s.(counter := Woken(s.counter), waking := s.waking - {t})
    case PollReturns(readable) => s.(loop := Handling(readable), polled := |s.history|)
    case HandleRead => s.(counter := 0, loop := Handling(false))
    case HandlerQueues(f) =>
      if MustWake(true, s.calling) then Queued(s, f).(counter := Woken(s.counter)) else Queued(s, f)
    case HandlersDone => s.(loop := Entered, calling := true)
    case Swap => s.(loop := Running(false), batch := s.pending, pending := [])
    case RunFunctor => s.(executed := s.executed + [s.batch[0]], batch := s.batch[1..])
    case FunctorQueues(f) => Queued(s, f).(loop := Running(MustWake(true, s.calling)))
    case LoopWakesItself => s.(counter := Woken(s.counter), loop := Running(false))
    case BatchDone => s.(loop := Polling, calling := false)
  }

  predicate EnabledRun(s: State, run: seq<Event>)
    decreases |run|
  {
    run == [] || (Enabled(s, run[0]) && EnabledRun(Step(s, run[0]), run[1..]))
  }

  function After(s: State, run: seq<Event>): State
    requires EnabledRun(s, run)
    decreases |run|
  {
    if run == [] then s else After(Step(s, run[0]), run[1..])
  }

  /** Something will make poll return: the counter, or a thread about to raise it. */
  predicate WakeupOnItsWay(s: State) {
    s.counter > 0 || s.waking != {}
  }

  predicate Inv(s: State) {
    && s.executed + s.batch + s.pending == s.history
    && (s.calling <==> s.loop == Entered || s.loop.Running?)
    && (s.batch != [] ==> s.loop.Running?)
    && (s.pending != [] && (s.loop == Polling || s.loop == Running(false)) ==> WakeupOnItsWay(s))
    && s.polled <= |s.history|
    && (s.loop == Polling || s.loop.Running? ==> s.polled <= |s.executed| + |s.batch|)
  }

  lemma StepKeeps(s: State, e: Event)
    requires Inv(s) && Enabled(s, e)
    ensures Inv(Step(s, e))
    ensures s.executed <= Step(s, e).executed && s.history <= Step(s, e).history
  {
    var s' := Step(s, e);
    assert s'.executed + s'.batch + s'.pending == s'.history by {
      match e {
        case Push(_, f) => assert s.executed + s.batch + (s.pending + [f]) == s.history + [f];
        case HandlerQueues(f) => assert s.executed + s.batch + (s.pending + [f]) == s.history + [f];
        case FunctorQueues(f) => assert s.executed + s.batch + (s.pending + [f]) == s.history + [f];
        case RunFunctor => assert s.batch == [s.batch[0]] + s.batch[1..];
        case _ =>
      }
    }
  }

  lemma {:induction false} RunKeeps(s: State, run: seq<Event>)
    requires Inv(s) && EnabledRun(s, run)
    ensures Inv(After(s, run))
    ensures s.executed <= After(s, run).executed && s.history <= After(s, run).history
    decreases |run|
  {
    if run != [] {
      StepKeeps(s, run[0]);
      RunKeeps(Step(s, run[0]), run[1..]);
    }
  }

  /** No wakeup is lost: the loop never settles down to poll over a functor that nobody announces. */
  lemma NoLostWakeup(run: seq<Event>)
    requires EnabledRun(Initial, run)
    ensures var s := After(Initial, run); s.loop == Polling && s.pending != [] ==> WakeupOnItsWay(s)
  {
    RunKeeps(Initial, run);
  }

  /** Functors run in the order of the lock, each at most once, none invented and none dropped. */
  lemma RunsInOrder(run: seq<Event>)
    requires EnabledRun(Initial, run)
    ensures var s := After(Initial, run);
      s.executed <= s.history && s.executed + s.batch + s.pending == s.history
  {
    RunKeeps(Initial, run);
  }

  /** Whatever had been queued when poll returned has run by the time the loop polls again. */
  lemma RoundExecutesAll(s: State, readable: bool, run: seq<Event>)
    requires Inv(s) && s.loop == Polling
    requires EnabledRun(s, [PollReturns(readable)] + run)
    requires forall i :: 0 <= i < |run| ==> !run[i].PollReturns?
    ensures var s' := After(s, [PollReturns(readable)] + run);
      s'.loop == Polling ==> s.history <= s'.executed
  {
    var all := [PollReturns(readable)] + run;
    assert all[1..] == run;
    StepKeeps(s, all[0]);
    var s1 := Step(s, all[0]);
    RunKeeps(s1, run);
    PolledStays(s1, run);
    var s' := After(s1, run);
    assert s'.history == s'.executed + s'.batch + s'.pending;
  }

  lemma {:induction false} PolledStays(s: State, run: seq<Event>)
    requires EnabledRun(s, run) && forall i :: 0 <= i < |run| ==> !run[i].PollReturns?
    ensures After(s, run).polled == s.polled
    decreases |run|
  {
    if run != [] {
      assert forall i :: 0 <= i < |run[1..]| ==> run[1..][i] == run[i + 1];
      PolledStays(Step(s, run[0]), run[1..]);
    }
  }

  /** How often a run writes to the eventfd: the loop's own handlers never do. */
  function Writes(run: seq<Event>): nat {
    if run == [] then 0
    else (if run[0].Wakeup? || run[0].LoopWakesItself? then 1 else 0) + Writes(run[1..])
  }

  predicate NoRead(run: seq<Event>) {
    forall i :: 0 <= i < |run| ==> !run[i].HandleRead?
  }

  /** Between two reads the counter counts the writes, as far as it can count. */
  lemma {:induction false} CounterCounts(s: State, run: seq<Event>)
    requires Inv(s) && EnabledRun(s, run) && NoRead(run) && s.counter <= EVENTFD_MAX
    ensures After(s, run).counter ==
      if s.counter + Writes(run) <= EVENTFD_MAX then s.counter + Writes(run) else EVENTFD_MAX
    decreases |run|
  {
    if run != [] {
      StepKeeps(s, run[0]);
      assert forall i :: 0 <= i < |run[1..]| ==> run[1..][i] == run[i + 1];
      CounterCounts(Step(s, run[0]), run[1..]);
    }
  }

  /** Once the eventfd has been read, poll does not report it again before somebody has written to it. */
  lemma ReadOnce(s: State, run: seq<Event>)
    requires Inv(s) && EnabledRun(s, [Event.HandleRead] + run) && NoRead(run) && Writes(run) == 0
    ensures var s' := After(s, [Event.HandleRead] + run); s'.counter == 0 && !Enabled(s', PollReturns(true))
  {
    var all := [Event.HandleRead] + run;
    assert all[1..] == run;
    StepKeeps(s, all[0]);
    CounterCounts(Step(s, all[0]), run);
  }

  lemma RunCons(s: State, e: Event, run: seq<Event>)
    requires Enabled(s, e) && EnabledRun(Step(s, e), run)
    ensures EnabledRun(s, [e] + run) && After(s, [e] + run) == After(Step(s, e), run)
  {
    assert ([e] + run)[1..] == run;
  }

  /** From a raised counter the loop can, by its own steps, get to having run everything. */
  lemma CanExecuteAll(s: State) returns (run: seq<Event>)
    requires Inv(s) && s.loop == Polling && s.counter > 0
    ensures EnabledRun(s, run) && After(s, run).loop == Polling
    ensures After(s, run).executed == s.history && After(s, run).pending == []
  {
    hide EnabledRun, After;
    var s1 := Step(s, PollReturns(true));
    var s2 := Step(s1, HandleRead);
    var s3 := Step(s2, HandlersDone);
    var s4 := Step(s3, Swap);
    run := BatchRuns(s4);
    RunCons(s3, Swap, run);
    RunCons(s2, HandlersDone, [Swap] + run);
    RunCons(s1, HandleRead, [HandlersDone] + ([Swap] + run));
    RunCons(s, PollReturns(true), [HandleRead] + ([HandlersDone] + ([Swap] + run)));
    run := [PollReturns(true)] + ([HandleRead] + ([HandlersDone] + ([Swap] + run)));
  }

  lemma BatchRuns(s: State) returns (run: seq<Event>)
    requires s.loop == Running(false)
    ensures EnabledRun(s, run)
    ensures After(s, run) == s.(loop := Polling, calling := false, batch := [], executed := s.executed + s.batch)
    decreases |s.batch|
  {
    if s.batch == [] {
      RunCons(s, BatchDone, []);
      run := [BatchDone] + [];
    } else {
      var rest := BatchRuns(Step(s, RunFunctor));
      RunCons(s, RunFunctor, rest);
      run := [RunFunctor] + rest;
      assert s.executed + [s.batch[0]] + s.batch[1..] == s.executed + s.batch;
    }
  }

  /**
   * The loop thread may queue from handlers and functors only.  If it queues between two polls, from
   * outside of them, nothing is announced: the wakeup is lost unless one happens to be on its way.
   */
  lemma QueueOutsideLosesWakeup(s: State, f: Functor)
    requires Inv(s) && s.loop == Polling
    ensures var s' := Queued(s, f);
      !MustWake(true, s.calling) && s'.pending != [] && (WakeupOnItsWay(s') <==> WakeupOnItsWay(s))
      && (Inv(s') <==> WakeupOnItsWay(s))
  {
    assert s.executed + s.batch + (s.pending + [f]) == s.history + [f];
  }

  lemma {:induction false} RunAppend(s: State, a: seq<Event>, b: seq<Event>)
    requires EnabledRun(s, a) && EnabledRun(After(s, a), b)
    ensures EnabledRun(s, a + b) && After(s, a + b) == After(After(s, a), b)
    decreases |a|
  {
    if a == [] {
      assert a + b == b;
    } else {
      assert (a + b)[1..] == a[1..] + b;
      RunAppend(Step(s, a[0]), a[1..], b);
    }
  }

  lemma RunSnoc(s: State, a: seq<Event>, e: Event)
    requires EnabledRun(s, a) && Enabled(After(s, a), e)
    ensures EnabledRun(s, a + [e]) && After(s, a + [e]) == Step(After(s, a), e)
  {
    var t := After(s, a);
    RunCons(t, e, []);
    assert [e] + [] == [e];
    RunAppend(s, a, [e]);
  }

  /** Who calls `queueInLoop`: the loop thread, from a handler or a functor, or another thread. */
  datatype Caller = LoopThread | Other(t: ThreadId)

  /** A step of another thread than the loop's, and than `caller`. */
  predicate OfOthers(e: Event, caller: Caller) {
    (e.Push? || e.Wakeup?) && (caller.Other? ==> e.t != caller.t)
  }

  predicate AllOfOthers(steps: seq<Event>, caller: Caller) {
    forall i :: 0 <= i < |steps| ==> OfOthers(steps[i], caller)
  }

  /** What other threads do changes neither where the loop is nor what it has executed. */
  predicate LoopSame(a: State, b: State) {
    && b.loop == a.loop && b.calling == a.calling && b.batch == a.batch && b.executed == a.executed
    && b.polled == a.polled && a.pending <= b.pending && a.history <= b.history
  }

  /** Those of the steps that can be taken, in order. */
  function Possible(s: State, steps: seq<Event>): seq<Event>
    decreases |steps|
  {
    if steps == [] then []
    else if Enabled(s, steps[0]) then [steps[0]] + Possible(Step(s, steps[0]), steps[1..])
    else Possible(s, steps[1..])
  }

  lemma OthersStep(a: State, e: Event, caller: Caller)
    requires OfOthers(e, caller) && Enabled(a, e)
    ensures LoopSame(a, Step(a, e))
    ensures caller.Other? ==> (caller.t in Step(a, e).waking <==> caller.t in a.waking)
  {
  }

  /**
   * The loop object.  Its methods are runs of the events above (`run` is the run that a method stands
   * for), with the steps that other threads take meanwhile, given by `others`; of those the ones that
   * cannot be taken are passed over.
   */
  class LoopObject {
    var pending: seq<Functor>
    var counter: nat
    var calling: bool
    /** The other threads between their push and their wakeup. */
    var waking: set<ThreadId>
    ghost var batch: seq<Functor>
    ghost var loop: LoopPc
    ghost var history: seq<Functor>
    ghost var executed: seq<Functor>
    ghost var polled: nat

    ghost function Now(): State
      reads this
    {
      State(pending, batch, counter, calling, loop, waking, history, executed, polled)
    }

    constructor ()
      ensures Now() == Initial
    {
      pending, counter, calling, waking := [], 0, false, {};
      batch, loop, history, executed, polled := [], Polling, [], [], 0;
    }

    method Wakeup()
      modifies this`counter
      ensures counter == Woken(old(counter))
    {
      if counter < EVENTFD_MAX {
        counter := counter + 1;
      }
    }

    method HandleRead()
      requires Enabled(Now(), Event.HandleRead)
      modifies this`counter, this`loop
      ensures Now() == Step(old(Now()), Event.HandleRead)
      ensures counter == 0 && loop == Handling(false)
    {
      counter := 0;
      loop := Handling(false);
    }

    /** Other threads take steps. */
    method Others(steps: seq<Event>, caller: Caller) returns (ghost run: seq<Event>)
      requires AllOfOthers(steps, caller)
      modifies this`pending, this`history, this`counter, this`waking
      ensures EnabledRun(old(Now()), run) && Now() == After(old(Now()), run) && LoopSame(old(Now()), Now())
      ensures caller.Other? ==> (caller.t in waking <==> caller.t in old(waking))
      ensures run == Possible(old(Now()), steps) && (steps == [] ==> Now() == old(Now()))
    {
      hide EnabledRun, After;
      ghost var start := Now();
      run := [];
      RunNothing(start);
      for i := 0 to |steps|
        invariant i == 0 ==> Now() == start
        invariant run + Possible(Now(), steps[i..]) == Possible(start, steps)
        invariant EnabledRun(start, run) && Now() == After(start, run) && LoopSame(start, Now())
        invariant caller.Other? ==> (caller.t in waking <==> caller.t in start.waking)
      {
        var e := steps[i];
        assert OfOthers(e, caller);
        assert steps[i..] == [e] + steps[i + 1..];
        if (e.Push? && e.t !in waking) || (e.Wakeup? && e.t in waking) {
          RunSnoc(start, run, e);
          OthersStep(Now(), e, caller);
          run := run + [e];
          if e.Push? {
            pending, history := pending + [e.f], history + [e.f];
            waking := waking + {e.t};
          } else {
            Wakeup();
            waking := waking - {e.t};
          }
        }
      }
    }

    /** `queueInLoop`; other threads may step in between the push and the wakeup. */
    method QueueInLoop(f: Functor, caller: Caller, others: seq<Event>) returns (ghost run: seq<Event>)
      requires Inv(Now()) && AllOfOthers(others, caller)
      requires if caller.Other? then caller.t !in waking else loop.Handling? || loop == Running(false)
      modifies this`pending, this`history, this`counter, this`waking, this`loop
      ensures EnabledRun(old(Now()), run) && Now() == After(old(Now()), run) && LoopSame(old(Now()), Now())
      ensures old(history) + [f] <= history && old(pending) + [f] <= pending
      ensures others == [] ==> history == old(history) + [f]
    {
      hide EnabledRun, After;
      ghost var start := Now();
      ghost var push := if caller.Other? then Event.Push(caller.t, f)
        else if loop.Handling? then HandlerQueues(f) else FunctorQueues(f);
      RunNothing(start);
      RunSnoc(start, [], push);
      pending, history := pending + [f], history + [f];
      if caller.Other? {
        waking := waking + {caller.t};
      }
      loop := Step(start, push).loop;
      run := [] + [push];
      if caller.Other? || calling {
        ghost var meanwhile := Others(others, caller);
        RunAppend(start, run, meanwhile);
        run := run + meanwhile;
        Wakeup();
        ghost var wake := if caller.Other? then Event.Wakeup(caller.t) else LoopWakesItself;
        RunSnoc(start, run, wake);
        run := run + [wake];
        if caller.Other? {
          waking := waking - {caller.t};
        }
        loop := start.loop;
      }
    }

    /** The functor at the head of the batch is executed: it queues `more`, as other threads step in. */
    method Execute(more: seq<Functor>, others: nat -> seq<Event>) returns (ghost run: seq<Event>)
      requires Inv(Now()) && loop == Running(false) && batch != []
      requires forall j :: AllOfOthers(others(j), LoopThread)
      modifies this`pending, this`history, this`counter, this`waking, this`loop, this`executed, this`batch
      ensures EnabledRun(old(Now()), run) && Now() == After(old(Now()), run)
      ensures loop == Running(false) && calling == old(calling) && polled == old(polled)
      ensures executed == old(executed) + [old(batch)[0]] && batch == old(batch)[1..]
      ensures old(history) <= history
      ensures (forall j :: others(j) == []) ==> history == old(history) + more
    {
      hide EnabledRun, After, Inv;
      ghost var start := Now();
      RunNothing(start);
      RunSnoc(start, [], Event.RunFunctor);
      executed, batch := executed + [batch[0]], batch[1..];
      run := [] + [Event.RunFunctor];
      for j := 0 to |more|
        invariant EnabledRun(start, run) && Now() == After(start, run)
        invariant loop == Running(false) && calling == old(calling) && polled == old(polled)
        invariant executed == old(executed) + [old(batch)[0]] && batch == old(batch)[1..]
        invariant old(history) <= history
        invariant (forall j :: others(j) == []) ==> history == old(history) + more[..j]
      {
        RunKeeps(start, run);
        var queued := QueueInLoop(more[j], LoopThread, others(j));
        RunAppend(start, run, queued);
        run := run + queued;
      }
    }

    /** The loop over the swapped vector. */
    method RunBatch(funcs: seq<Functor>, queues: Functor -> seq<Functor>, others: (nat, nat) -> seq<Event>)
      returns (ghost run: seq<Event>)
      requires Inv(Now()) && loop == Running(false) && batch == funcs
      requires forall i, j :: AllOfOthers(others(i, j), LoopThread)
      modifies this
      ensures EnabledRun(old(Now()), run) && Now() == After(old(Now()), run)
      ensures loop == Running(false) && batch == [] && executed == old(executed) + funcs
      ensures (forall i, j :: others(i, j) == []) ==> history == old(history) + QueuedBy(funcs, queues)
    {
      hide EnabledRun, After, Inv;
      ghost var start := Now();
      RunNothing(start);
      run := [];
      for i := 0 to |funcs|
        invariant EnabledRun(start, run) && Now() == After(start, run)
        invariant loop == Running(false) && batch == funcs[i..] && executed == old(executed) + funcs[..i]
        invariant (forall i, j :: others(i, j) == []) ==>
          history + QueuedBy(funcs[i..], queues) == old(history) + QueuedBy(funcs, queues)
      {
        assert funcs[i..] == [funcs[i]] + funcs[i + 1..];
        RunKeeps(start, run);
        var one := Execute(queues(funcs[i]), (j: nat) => others(i + 1, j));
        RunAppend(start, run, one);
        run := run + one;
      }
    }

    /** The first half of `doPendingFunctors`: the flag, then the swap under the lock. */
    method SwapPending(others: seq<Event>) returns (funcs: seq<Functor>, ghost run: seq<Event>)
      requires Inv(Now()) && loop == Handling(false) && AllOfOthers(others, LoopThread)
      modifies this
      ensures EnabledRun(old(Now()), run) && Now() == After(old(Now()), run)
      ensures loop == Running(false) && batch == funcs && executed == old(executed) && old(pending) <= funcs
      ensures others == [] ==> funcs == old(pending) && history == old(history)
    {
      hide EnabledRun, After;
      ghost var start := Now();
      RunNothing(start);
      calling, loop := true, Entered;
      RunSnoc(start, [], HandlersDone);
      run := [] + [HandlersDone];
      ghost var meanwhile := Others(others, LoopThread);
      RunAppend(start, run, meanwhile);
      run := run + meanwhile;
      funcs := pending;
      RunSnoc(start, run, Swap);
      run := run + [Swap];
      batch, pending, loop := pending, [], Running(false);
    }

    /** `doPendingFunctors`; the functor `f` queues the functors `queues(f)`. */
    method DoPendingFunctors(queues: Functor -> seq<Functor>, others: (nat, nat) -> seq<Event>)
      returns (ghost run: seq<Event>)
      requires Inv(Now()) && loop == Handling(false)
      requires forall i, j :: AllOfOthers(others(i, j), LoopThread)
      modifies this
      ensures EnabledRun(old(Now()), run) && Now() == After(old(Now()), run) && Inv(Now())
      ensures loop == Polling && !calling && old(executed) + old(pending) <= executed
      ensures pending != [] ==> WakeupOnItsWay(Now())
      ensures (forall i, j :: others(i, j) == []) ==>
        executed == old(executed) + old(pending) && history == old(history) + QueuedBy(old(pending), queues)
    {
      hide EnabledRun, After, Inv;
      ghost var start := Now();
      var funcs;
      funcs, run := SwapPending(others(0, 0));
      RunKeeps(start, run);
      ghost var all := RunBatch(funcs, queues, others);
      RunAppend(start, run, all);
      run := run + all;
      RunSnoc(start, run, BatchDone);
      run := run + [BatchDone];
      calling, loop := false, Polling;
      RunKeeps(start, run);
      PollingWakes(Now());
    }
  }

  /** What the functors queue, in the order in which they are executed. */
  function QueuedBy(funcs: seq<Functor>, queues: Functor -> seq<Functor>): seq<Functor> {
    if funcs == [] then [] else queues(funcs[0]) + QueuedBy(funcs[1..], queues)
  }

  lemma PollingWakes(s: State)
    requires Inv(s)
    ensures s.loop == Polling && s.pending != [] ==> WakeupOnItsWay(s)
  {
  }

  lemma RunNothing(s: State)
    ensures EnabledRun(s, []) && After(s, []) == s
  {
  }
}
