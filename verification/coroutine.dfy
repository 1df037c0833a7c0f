/**
 * The coroutine scheduler.  A stack switch is a step after which the other routine has control: each
 * function gives the state in which that routine goes on.
 */
module Coroutines {

  type RoutineId = nat

  datatype CoState = Uninit | Ready | Run | Suspend | Dead

  /** A work routine; `param` is what its entry function is called with. */
  datatype Routine = Routine(state: CoState, param: nat)

  /** `cur` is 0 while the main routine has control. */
  datatype Sched = Sched(main: CoState, cur: RoutineId, routines: map<RoutineId, Routine>)

  /** After `Init`. */
  const Initial := Sched(Run, 0, map[])

  /** The bitwise `&`. */
  function And(a: nat, b: nat): nat {
    if a == 0 || b == 0 then 0 else (if a % 2 == 1 && b % 2 == 1 then 1 else 0) + 2 * And(a / 2, b / 2)
  }

  /** The test that is made of the page size, as it is used for positive ones. */
  predicate IsPowerOfTwo(n: int) {
    n > 0 && And(n, n - 1) == 0
  }

  /** 2 to the power of `k`. */
  function Pow2(k: nat): (n: nat)
    ensures n >= 1
  {
    if k == 0 then 1 else Pow2(k - 1) + Pow2(k - 1)
  }

  ghost predicate SomePowerOfTwo(n: int) {
    exists k: nat :: n == Pow2(k)
  }

  lemma {:induction false} AndSame(n: nat)
    ensures And(n, n) == n
  {
    if n > 0 {
      AndSame(n / 2);
    }
  }

  /** The test finds exactly the powers of two. */
  lemma {:induction false} PowersOfTwo(n: int)
    ensures IsPowerOfTwo(n) <==> SomePowerOfTwo(n)
    ensures SomePowerOfTwo(n) ==> n > 0
  {
    if n > 1 && n % 2 == 0 {
      PowersOfTwo(n / 2);
      assert And(n, n - 1) == 2 * And(n / 2, n / 2 - 1);
      if IsPowerOfTwo(n) {
        var k: nat :| n / 2 == Pow2(k);
        assert n == Pow2(k + 1);
      }
      forall k: nat | n == Pow2(k) ensures IsPowerOfTwo(n) {
        assert k > 0 && n / 2 == Pow2(k - 1);
        assert SomePowerOfTwo(n / 2);
      }
    } else if n == 1 {
      assert n == Pow2(0);
    } else {
      if n > 1 {
        AndSame(n / 2);
        assert And(n, n - 1) == 2 * And(n / 2, n / 2);
      }
      forall k: nat ensures n != Pow2(k) {
        assert k > 0 ==> Pow2(k) == 2 * Pow2(k - 1);
      }
    }
  }

  /** What creating a routine depends on besides the scheduler. */
  datatype Request = Request(id: RoutineId, stackSize: int, pageSize: int, hasFunc: bool, hasMemory: bool, param: nat)

  predicate ValidRequest(q: Request) {
    q.stackSize > 0 && q.pageSize > 0 && q.id != 0 && q.hasFunc && IsPowerOfTwo(q.pageSize)
  }

  function Create(s: Sched, q: Request): (Sched, int) {
    if !(ValidRequest(q) && q.hasMemory) then (s, -2)
    else if q.id in s.routines then (s, -3)
    else (s.(routines := s.routines[q.id := Routine(Ready, q.param)]), 0)
  }

  /** What a request must have for a routine to be made of it. */
  ghost predicate InOrder(q: Request) {
    q.stackSize > 0 && q.id != 0 && q.hasFunc && SomePowerOfTwo(q.pageSize)
  }

  lemma InOrderExactly(q: Request)
    ensures ValidRequest(q) <==> InOrder(q)
  {
    PowersOfTwo(q.pageSize);
  }

  /** A routine is created exactly for a request in order, with memory and an id that is not in use. */
  lemma CreateExactly(s: Sched, q: Request)
    ensures Create(s, q).1 == 0 <==> InOrder(q) && q.hasMemory && q.id !in s.routines
    ensures Create(s, q).1 == 0 ==> Create(s, q).0 == Sched(s.main, s.cur, s.routines[q.id := Routine(Ready, q.param)])
    ensures Create(s, q).1 != 0 ==>
      Create(s, q) == (s, if InOrder(q) && q.hasMemory then -3 else -2)
  {
    InOrderExactly(q);
  }

  function Destroy(s: Sched, id: RoutineId): (Sched, int) {
    if id == 0 then (s, -1)
    else if id !in s.routines then (s, -2)
    else (s.(routines := s.routines - {id}), 0)
  }

  predicate CanResume(state: CoState) {
    state == Suspend || state == Ready
  }

  function ToWork(s: Sched, id: RoutineId): (Sched, int) {
    if s.cur != 0 then (s, -1)
    else if id !in s.routines then (s, -2)
    else if !CanResume(s.routines[id].state) then (s, -1)
    else (Sched(Suspend, id, s.routines[id := s.routines[id].(state := Run)]), 0)
  }

  function ToMain(s: Sched): (Sched, int) {
    if s.cur == 0 then (s, -1)
    else if s.cur !in s.routines then (s, -2)
    else if !CanResume(s.main) then (s, -1)
    else (Sched(Run, 0, s.routines[s.cur := s.routines[s.cur].(state := Suspend)]), 0)
  }

  /** `OnWorkRoutineExit`, and the jump back to the main routine that follows it. */
  function Exit(s: Sched): Sched {
    Sched(Run, 0,
      if s.cur != 0 && s.cur in s.routines then s.routines[s.cur := s.routines[s.cur].(state := Dead)]
      else s.routines)
  }

  /** Exactly one routine runs: the main one if `cur` is 0, and otherwise the one that `cur` names. */
  ghost predicate OneRuns(s: Sched) {
    && s.main == (if s.cur == 0 then Run else Suspend)
    && (s.cur != 0 ==> s.cur in s.routines)
    && 0 !in s.routines
    && forall id :: id in s.routines ==>
         s.routines[id].state != Uninit && (s.routines[id].state == Run <==> id == s.cur)
  }

  datatype Op = DoCreate(q: Request) | DoDestroy(id: RoutineId) | DoSwapToWork(id: RoutineId) | DoSwapToMain | DoExit

  function Apply(s: Sched, op: Op): Sched {
    match op
    case DoCreate(q) => Create(s, q).0
    case DoDestroy(id) => Destroy(s, id).0
    case DoSwapToWork(id) => ToWork(s, id).0
    case DoSwapToMain => ToMain(s).0
    case DoExit => Exit(s)
  }

  function ApplyAll(s: Sched, ops: seq<Op>): Sched
    decreases |ops|
  {
    if ops == [] then s else ApplyAll(Apply(s, ops[0]), ops[1..])
  }

  /** A routine must not be destroyed while it has control; nothing else can break the invariant. */
  lemma ApplyKeeps(s: Sched, op: Op)
    requires OneRuns(s)
    ensures OneRuns(Apply(s, op)) <==> !(op.DoDestroy? && op.id == s.cur && s.cur != 0)
  {
    if op.DoDestroy? && op.id == s.cur && s.cur != 0 {
      assert s.cur !in Apply(s, op).routines;
    }
  }

  predicate NeverDestroysRunning(s: Sched, ops: seq<Op>)
    decreases |ops|
  {
    ops == [] ||
    (!(ops[0].DoDestroy? && ops[0].id == s.cur && s.cur != 0) && NeverDestroysRunning(Apply(s, ops[0]), ops[1..]))
  }

  lemma {:induction false} OneRunsAlways(s: Sched, ops: seq<Op>)
    requires OneRuns(s) && NeverDestroysRunning(s, ops)
    ensures OneRuns(ApplyAll(s, ops))
    decreases |ops|
  {
    if ops != [] {
      ApplyKeeps(s, ops[0]);
      OneRunsAlways(Apply(s, ops[0]), ops[1..]);
    }
  }

  /** A dead routine never gets control again; it stays dead until it is destroyed. */
  lemma {:induction false} DeadForever(s: Sched, ops: seq<Op>, id: RoutineId)
    requires OneRuns(s) && NeverDestroysRunning(s, ops)
    requires id != 0 && (id in s.routines ==> s.routines[id].state == Dead)
    requires forall i :: 0 <= i < |ops| && ops[i].DoCreate? ==> ops[i].q.id != id
    ensures var r := ApplyAll(s, ops);
      r.cur != id && (id in r.routines ==> id in s.routines && r.routines[id] == s.routines[id])
    decreases |ops|
  {
    if ops != [] {
      ApplyKeeps(s, ops[0]);
      assert forall i :: 0 <= i < |ops[1..]| ==> ops[1..][i] == ops[i + 1];
      DeadForever(Apply(s, ops[0]), ops[1..], id);
    }
  }

  /** Control given to a routine comes back with only that routine's state changed. */
  lemma SwapRoundTrip(s: Sched, id: RoutineId)
    requires OneRuns(s) && s.cur == 0 && id in s.routines && CanResume(s.routines[id].state)
    ensures ToWork(s, id).1 == 0 && ToMain(ToWork(s, id).0).1 == 0
    ensures ToMain(ToWork(s, id).0).0 == s.(routines := s.routines[id := s.routines[id].(state := Suspend)])
    ensures Exit(ToWork(s, id).0) == s.(routines := s.routines[id := s.routines[id].(state := Dead)])
  {
  }

  class BoostCoroutine {
    var id: RoutineId
    var state: CoState
    var isMain: bool
    var param: nat
    var hasStack: bool

    constructor ()
      ensures state == Uninit && !isMain && !hasStack
    {
      id, state, isMain, param, hasStack := 0, Uninit, false, 0, false;
    }

    method CreateMainRoutine() returns (ret: int)
      modifies this
      ensures ret == if old(state) == Uninit then 0 else -1
      ensures ret == 0 ==> state == Run && isMain
      ensures ret != 0 ==> unchanged(this)
    {
      if state != Uninit { return -1; }
      isMain, state := true, Run;
      return 0;
    }

    method CreateWorkRoutine(q: Request) returns (ret: int)
      modifies this
      ensures ret == if old(state) != Uninit || !InOrder(q) then -1 else if !q.hasMemory then -2 else 0
      ensures ret == 0 ==> state == Ready && id == q.id && param == q.param && !isMain
      ensures ret != 0 ==> state == old(state)
    {
      InOrderExactly(q);
      if state != Uninit { return -1; }
      if q.stackSize <= 0 || q.pageSize <= 0 || q.id == 0 || !q.hasFunc { return -1; }
      if !IsPowerOfTwo(q.pageSize) { return -1; }
      isMain, id := false, q.id;
      param := q.param;
      if !q.hasMemory { return -2; }
      hasStack, state := true, Ready;
      return 0;
    }

    /** Gives control to this routine, up to the jump. */
    method Resume(from: BoostCoroutine) returns (ret: int)
      requires from != this
      modifies this`state, from`state
      ensures ret == if (old(state) == Suspend || old(state) == Ready) && from.isMain != isMain then 0 else -1
      ensures ret == 0 ==> state == Run && from.state == Suspend
      ensures ret != 0 ==> state == old(state) && from.state == old(from.state)
    {
      if state != Suspend && state != Ready { return -1; }
      if from.isMain == isMain { return -1; }
      state := Run;
      from.state := Suspend;
      return 0;
    }
  }

  class CoroutineScheduler {
    var main: BoostCoroutine
    var coroutines: map<RoutineId, BoostCoroutine>
    var cur: RoutineId

    ghost predicate Valid()
      reads this, main, coroutines.Values
    {
      && main.isMain && main !in coroutines.Values && 0 !in coroutines
      && (forall id :: id in coroutines ==> coroutines[id].id == id && !coroutines[id].isMain)
    }

    ghost function View(): Sched
      reads this, main, coroutines.Values
    {
      Sched(main.state, cur,
        map id | id in coroutines :: Routine(coroutines[id].state, coroutines[id].param))
    }

    /** Constructor and `Init`. */
    constructor ()
      ensures Valid() && View() == Initial && OneRuns(View()) && fresh(main)
    {
      var m := new BoostCoroutine();
      var _ := m.CreateMainRoutine();
      main, coroutines, cur := m, map[], 0;
    }

    method CreateWorkRoutine(q: Request) returns (ret: int)
      requires Valid()
      modifies this`coroutines
      ensures Valid() && (View(), ret) == Create(old(View()), q)
      ensures ret == if !InOrder(q) || !q.hasMemory then -2 else if q.id in old(coroutines) then -3 else 0
      ensures ret == 0 ==>
        && coroutines.Keys == old(coroutines).Keys + {q.id} && fresh(coroutines[q.id])
        && coroutines[q.id].state == Ready && coroutines[q.id].param == q.param
        && forall id :: id in old(coroutines) ==> coroutines[id] == old(coroutines)[id]
      ensures OneRuns(old(View())) ==> OneRuns(View())
      ensures forall co :: co in coroutines.Values ==> co in old(coroutines).Values || fresh(co)
    {
      InOrderExactly(q);
      var co := new BoostCoroutine();
      var created := co.CreateWorkRoutine(q);
      if created != 0 { return -2; }
      if q.id in coroutines { return -3; }
      coroutines := coroutines[q.id := co];
      assert View() == Create(old(View()), q).0;
      if OneRuns(old(View())) { ApplyKeeps(old(View()), DoCreate(q)); }
      return 0;
    }

    method DestroyWorkRoutine(id: RoutineId) returns (ret: int)
      requires Valid()
      modifies this`coroutines
      ensures Valid() && (View(), ret) == Destroy(old(View()), id)
      ensures ret == if id == 0 then -1 else if id !in old(coroutines) then -2 else 0
      ensures OneRuns(old(View())) ==> (OneRuns(View()) <==> id != old(cur) || id == 0)
      ensures coroutines == old(coroutines) - {id}
    {
      if id == 0 { return -1; }
      if id !in coroutines { return -2; }
      coroutines := coroutines - {id};
      assert View() == Destroy(old(View()), id).0;
      if OneRuns(old(View())) { ApplyKeeps(old(View()), DoDestroy(id)); }
      return 0;
    }

    method SwapToMain() returns (ret: int)
      requires Valid()
      modifies this`cur, main, coroutines.Values
      ensures Valid() && (View(), ret) == ToMain(old(View()))
      ensures ret == 0 ==> cur == 0 && main.state == Run && old(cur) in coroutines && coroutines[old(cur)].state == Suspend
      ensures ret == if old(cur) == 0 then -1 else if old(cur) !in coroutines then -2
                     else if old(main.state) == Suspend || old(main.state) == Ready then 0 else -1
      ensures OneRuns(old(View())) ==> OneRuns(View())
    {
      if cur == 0 { return -1; }
      if cur !in coroutines { return -2; }
      var co := coroutines[cur];
      cur := 0;
      ret := main.Resume(co);
      if ret != 0 {
        cur := co.id;
        assert View() == old(View());
        return ret;
      }
      assert View() == ToMain(old(View())).0;
      if OneRuns(old(View())) { ApplyKeeps(old(View()), DoSwapToMain); }
      return 0;
    }

    method SwapToWorkRoutine(id: RoutineId) returns (ret: int)
      requires Valid()
      modifies this`cur, main, coroutines.Values
      ensures Valid() && (View(), ret) == ToWork(old(View()), id)
      ensures ret == 0 ==> cur == id && id in coroutines && coroutines[id].state == Run && main.state == Suspend
      ensures ret == if old(cur) != 0 then -1 else if id !in coroutines then -2
                     else if old(coroutines[id].state) == Suspend || old(coroutines[id].state) == Ready then 0 else -1
      ensures OneRuns(old(View())) ==> OneRuns(View())
    {
      if cur != 0 { return -1; }
      if id !in coroutines { return -2; }
      var co := coroutines[id];
      cur := co.id;
      ret := co.Resume(main);
      if ret != 0 {
        cur := 0;
        assert View() == old(View());
        return ret;
      }
      assert View() == ToWork(old(View()), id).0;
      if OneRuns(old(View())) { ApplyKeeps(old(View()), DoSwapToWork(id)); }
      return 0;
    }

    method OnWorkRoutineExit()
      requires Valid()
      modifies this`cur, main, coroutines.Values
      ensures Valid() && View() == Exit(old(View()))
      ensures cur == 0 && main.state == Run
      ensures old(cur) != 0 && old(cur) in coroutines ==> coroutines[old(cur)].state == Dead
      ensures OneRuns(old(View())) ==> OneRuns(View())
    {
      if cur != 0 {
        if cur in coroutines {
          coroutines[cur].state := Dead;
        }
      }
      cur := 0;
      main.state := Run;
      assert View() == Exit(old(View()));
      if OneRuns(old(View())) { ApplyKeeps(old(View()), DoExit); }
    }
  }
}
