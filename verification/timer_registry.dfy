/**
 * The registry of timers: `TimerMgr::timers_`, the tick counter and the record of what has fired.
 *
 * On its own the registry is the naive timer service that the timing wheel has to implement: a set
 * of timers with an expiry each, of which a tick fires those whose expiry it has reached.  The wheel
 * (module TimerWheel) adds the slots to it.
 */
module TimerRegistry {
  import opened Sequences

  type TimerId = nat

  const INVALID_TIMER_ID: TimerId := 0
  const MAX_TIMEOUT: nat := 1000 * 3600 * 24 - 1
  const MAX_TIMER_FUNC_ID_NUM := 64
  const TIMER_CB_DATA_MAX_LEN := 128
  const U32_RANGE: nat := 0x1_0000_0000
  const REWINDING_TIME: nat := 0xFFFF_FFFF_FFFF_FFFF

  datatype Timer = Timer(expire: nat, interval: nat, repeats: int, forever: bool, funcId: int, inProc: bool)

  /** One call that a client, or a callback, makes into the manager.  `now` and `guid` are what the
      clock and the id generator return to that call. */
  datatype Op =
    | Register(timeout: nat, interval: nat, repeats: int, funcId: int, hasData: bool, dataLen: int,
               guid: TimerId, now: nat)
    | Destroy(id: TimerId)

  /** `called` tells whether a callback was registered for the timer's function id. */
  datatype Firing = Firing(tick: nat, id: TimerId, called: bool)

  /** What callbacks do: the callback of the firing number k of a run makes the calls `script[k]`. */
  type Script = seq<seq<Op>>

  datatype Registry = Registry(started: bool, lasttick: nat, funcs: set<int>, timers: map<TimerId, Timer>,
                               log: seq<Firing>)

  function Clamp(v: nat, lo: nat, hi: nat): nat {
    if v < lo then lo else if hi < v then hi else v
  }

  /** `cal_remain` on its 32-bit parameters: the sum is 64-bit, the result is cut to 32 bits again. */
  function CalRemain(now: nat, expire: nat): nat {
    var n, e := now % U32_RANGE, expire % U32_RANGE;
    if n > e then (REWINDING_TIME - n + e) % U32_RANGE else e - n
  }

  predicate SameEpoch(tick: nat, expire: nat) {
    tick / U32_RANGE == expire / U32_RANGE
  }

  predicate Accepts(r: Registry, op: Op)
    requires op.Register?
  {
    && 0 < op.funcId < MAX_TIMER_FUNC_ID_NUM
    && !(op.dataLen > 0 && !op.hasData)
    && op.dataLen <= TIMER_CB_DATA_MAX_LEN
    && op.guid != INVALID_TIMER_ID
    && op.guid !in r.timers
  }

  function FirstExpire(op: Op): nat
    requires op.Register?
  {
    op.now + Clamp(op.timeout, 1, MAX_TIMEOUT)
  }

  function NewTimer(op: Op): Timer
    requires op.Register?
  {
    Timer(FirstExpire(op), Clamp(op.interval, 1, MAX_TIMEOUT), op.repeats, op.repeats == 0, op.funcId, false)
  }

  /** The first registration also starts the tick counter. */
  function StartedAt(r: Registry, now: nat): Registry {
    if r.started then r else r.(started := true, lasttick := now)
  }

  function ApplyRegister(r: Registry, op: Op): Registry
    requires op.Register?
  {
    if Accepts(r, op) then
      StartedAt(r, op.now).(timers := r.timers[op.guid := NewTimer(op)])
    else r
  }

  /** A timer whose callback is running is only marked; it goes when its callback is over. */
  function ApplyDestroy(r: Registry, id: TimerId): Registry {
    if id == INVALID_TIMER_ID || id !in r.timers then r
    else if r.timers[id].inProc then
      r.(timers := r.timers[id := r.timers[id].(forever := false, repeats := 0)])
    else r.(timers := r.timers - {id})
  }

  function ApplyOp(r: Registry, op: Op): Registry {
    if op.Register? then ApplyRegister(r, op) else ApplyDestroy(r, op.id)
  }

  /** A running timer outlives whatever its callback does. */
  function ApplyOps(r: Registry, ops: seq<Op>): (r': Registry)
    ensures forall id :: id in r.timers && r.timers[id].inProc ==>
      id in r'.timers && r'.timers[id].inProc && r'.timers[id].expire == r.timers[id].expire
      && r'.timers[id].interval == r.timers[id].interval
    ensures r.started ==> r'.started && r'.lasttick == r.lasttick
    ensures r'.log == r.log
    decreases |ops|
  {
    if ops == [] then r else ApplyOps(ApplyOp(r, ops[0]), ops[1..])
  }

  predicate Called(r: Registry, id: TimerId)
    requires id in r.timers
  {
    r.timers[id].funcId in r.funcs
  }

  function CallbackOps(r: Registry, id: TimerId, script: Script): seq<Op>
    requires id in r.timers
  {
    if Called(r, id) && |r.log| < |script| then script[|r.log|] else []
  }

  function BeginFire(r: Registry, id: TimerId): Registry
    requires id in r.timers
  {
    r.(timers := r.timers[id := r.timers[id].(inProc := true)],
       log := r.log + [Firing(r.lasttick, id, Called(r, id))])
  }

  function RepeatsLeft(t: Timer): int {
    if t.forever then t.repeats else t.repeats - 1
  }

  predicate Rearms(t: Timer) {
    RepeatsLeft(t) > 0 || t.forever
  }

  function Rearmed(t: Timer, tick: nat): Timer {
    t.(inProc := false, repeats := RepeatsLeft(t), expire := tick + t.interval)
  }

  function EndFire(r: Registry, id: TimerId): Registry
    requires id in r.timers
  {
    var t := r.timers[id];
    if Rearms(t) then r.(timers := r.timers[id := Rearmed(t, r.lasttick)])
    else r.(timers := r.timers - {id})
  }

  /** One firing: the callback with everything it calls, then rearm or delete. */
  function FireOne(r: Registry, id: TimerId, script: Script): (r': Registry)
    requires id in r.timers
    ensures r'.log == r.log + [Firing(r.lasttick, id, Called(r, id))]
    ensures r.started ==> r'.started && r'.lasttick == r.lasttick
  {
    EndFire(ApplyOps(BeginFire(r, id), CallbackOps(r, id, script)), id)
  }

  predicate Due(r: Registry, id: TimerId) {
    id in r.timers && r.timers[id].expire == r.lasttick
  }

  function DueOnly(r: Registry, order: seq<TimerId>): (d: seq<TimerId>)
    ensures |d| <= |order|
    ensures forall id :: id in d <==> id in order && Due(r, id)
  {
    if order == [] then []
    else
      assert order == [order[0]] + order[1..];
      if Due(r, order[0]) then [order[0]] + DueOnly(r, order[1..]) else DueOnly(r, order[1..])
  }

  /** Fires the given timers in the given order, leaving out those that a callback has destroyed. */
  function FireDue(r: Registry, order: seq<TimerId>, script: Script): (r': Registry)
    requires forall id :: id in order ==> Due(r, id)
    ensures r.log <= r'.log && |r'.log| <= |r.log| + |order|
    ensures r.started ==> r'.started && r'.lasttick == r.lasttick
    decreases |order|
  {
    if order == [] then r
    else
      assert order[0] in order && Due(r, order[0]);
      var r1 := FireOne(r, order[0], script);
      FireDue(r1, DueOnly(r1, order[1..]), script)
  }

  function Advanced(r: Registry): Registry {
    r.(lasttick := r.lasttick + 1)
  }

  /** `order` lists exactly the timers that the next tick has to fire. */
  ghost predicate IsDueOrder(r: Registry, order: seq<TimerId>) {
    NoDup(order) && forall id :: id in order <==> Due(Advanced(r), id)
  }

  /** The naive tick: advance the counter, fire what is due, in the order given. */
  function NaiveTick(r: Registry, order: seq<TimerId>, script: Script): (r': Registry)
    requires forall id :: id in order ==> Due(Advanced(r), id)
    ensures r.started ==> r'.started && r'.lasttick == r.lasttick + 1
  {
    FireDue(Advanced(r), order, script)
  }

  /**
   * What a registration needs for the wheel to serve it on time: an expiry after the present tick (a
   * clock that does not run behind the tick counter gives that), with no multiple of 2^32 between.
   */
  predicate OpSafe(r: Registry, op: Op) {
    op.Register? && Accepts(r, op) ==>
      var tick := StartedAt(r, op.now).lasttick;
      tick < FirstExpire(op) && SameEpoch(tick, FirstExpire(op))
  }

  predicate OpsSafe(r: Registry, ops: seq<Op>)
    decreases |ops|
  {
    ops == [] || (OpSafe(r, ops[0]) && OpsSafe(ApplyOp(r, ops[0]), ops[1..]))
  }

  predicate FireSafe(r: Registry, id: TimerId, script: Script)
    requires id in r.timers
  {
    var b := BeginFire(r, id);
    var ops := CallbackOps(r, id, script);
    var t := ApplyOps(b, ops).timers[id];
    OpsSafe(b, ops) && (Rearms(t) ==> SameEpoch(r.lasttick, r.lasttick + t.interval))
  }

  predicate FireDueSafe(r: Registry, order: seq<TimerId>, script: Script)
    requires forall id :: id in order ==> Due(r, id)
    decreases |order|
  {
    if order == [] then true
    else
      assert order[0] in order && Due(r, order[0]);
      var r1 := FireOne(r, order[0], script);
      FireSafe(r, order[0], script) && FireDueSafe(r1, DueOnly(r1, order[1..]), script)
  }

  /** Every timer of the registry can still be served on time. */
  ghost predicate Sane(r: Registry) {
    && (!r.started ==> r.timers == map[])
    && forall id {:trigger SaneTimer(r.lasttick, r.timers[id])} ::
      id in r.timers ==> SaneTimer(r.lasttick, r.timers[id])
  }

  predicate SaneTimer(tick: nat, t: Timer) {
    tick <= t.expire && SameEpoch(tick, t.expire) && 1 <= t.interval <= MAX_TIMEOUT
  }

  lemma {:induction false} DueOnlySame(r: Registry, r': Registry, order: seq<TimerId>)
    requires forall id :: id in order ==> (Due(r, id) <==> Due(r', id))
    ensures DueOnly(r, order) == DueOnly(r', order)
  {
    if order != [] {
      assert order[0] in order;
      assert forall id :: id in order[1..] ==> id in order;
      DueOnlySame(r, r', order[1..]);
    }
  }

  lemma {:induction false} DueOnlyAll(r: Registry, order: seq<TimerId>)
    requires forall id :: id in order ==> Due(r, id)
    ensures DueOnly(r, order) == order
  {
    if order != [] {
      assert order[0] in order;
      assert forall id :: id in order[1..] ==> id in order;
      DueOnlyAll(r, order[1..]);
    }
  }

  lemma {:induction false} DueOnlyNoDup(r: Registry, order: seq<TimerId>)
    requires NoDup(order)
    ensures NoDup(DueOnly(r, order))
  {
    if order != [] {
      var rest := order[1..];
      assert forall i :: 0 <= i < |rest| ==> rest[i] == order[i + 1];
      DueOnlyNoDup(r, rest);
      if Due(r, order[0]) {
        assert order[0] !in rest;
        ConsNoDup(order[0], DueOnly(r, rest));
      }
    }
  }

  /** Destroying a timer takes it off the list of what is due, and nothing else. */
  lemma {:induction false} DueOnlyWithout(r: Registry, r': Registry, order: seq<TimerId>, x: TimerId)
    requires NoDup(order) && !Due(r', x)
    requires forall id :: id in order && id != x ==> (Due(r, id) <==> Due(r', id))
    ensures DueOnly(r', order) == Without(DueOnly(r, order), x)
  {
    if order != [] {
      var rest := order[1..];
      assert forall i :: 0 <= i < |rest| ==> rest[i] == order[i + 1];
      assert order[0] in order;
      assert forall id :: id in rest ==> id in order;
      if order[0] == x {
        assert x !in rest;
        DueOnlySame(r, r', rest);
        assert x !in DueOnly(r, rest);
      } else {
        DueOnlyWithout(r, r', rest, x);
      }
    }
  }
}
