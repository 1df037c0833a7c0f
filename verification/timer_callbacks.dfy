/** What the callbacks of one tick destroy and arm, said of the naive service. */
module TimerCallbacks {
  import opened Sequences
  import opened TimerRegistry

  /** The call takes one of the timers `rest` out of the registry. */
  predicate Destroys(r: Registry, op: Op, rest: seq<TimerId>) {
    op.Destroy? && op.id in rest && op.id != INVALID_TIMER_ID && op.id in r.timers && !r.timers[op.id].inProc
  }

  predicate AllSpareDue(r: Registry, ops: seq<Op>, rest: seq<TimerId>) {
    forall k :: 0 <= k < |ops| ==> !Destroys(r, ops[k], rest)
  }

  /**
   * No callback of the tick destroys a timer that is still due: what it destroys is its own timer, one
   * that has been served, or one that is not due.
   */
  predicate SparesDue(r: Registry, order: seq<TimerId>, script: Script)
    requires forall id :: id in order ==> Due(r, id)
    decreases |order|
  {
    if order == [] then true
    else
      assert order[0] in order && Due(r, order[0]);
      var r1 := FireOne(r, order[0], script);
      AllSpareDue(r, CallbackOps(r, order[0], script), order[1..]) && SparesDue(r1, DueOnly(r1, order[1..]), script)
  }

  /** Number of timers that the naive service fires out of `order`: those not destroyed meanwhile. */
  function FireCount(r: Registry, order: seq<TimerId>, script: Script): (n: nat)
    requires forall id :: id in order ==> Due(r, id)
    ensures n <= |order|
  {
    |FireDue(r, order, script).log| - |r.log|
  }

  lemma {:induction false} NotDueStays(r: Registry, ops: seq<Op>, id: TimerId)
    requires OpsSafe(r, ops) && r.started && !Due(r, id)
    ensures !Due(ApplyOps(r, ops), id)
    decreases |ops|
  {
    if ops != [] {
      NotDueStays(ApplyOp(r, ops[0]), ops[1..], id);
    }
  }

  /** A timer that is due stays so exactly if no call destroys it. */
  lemma {:induction false} DueStays(r: Registry, ops: seq<Op>, id: TimerId)
    requires OpsSafe(r, ops) && r.started && Due(r, id)
    ensures Due(ApplyOps(r, ops), id) <==> AllSpareDue(r, ops, [id])
    decreases |ops|
  {
    if ops != [] {
      var r1 := ApplyOp(r, ops[0]);
      assert forall k :: 1 <= k < |ops| ==> ops[k] == ops[1..][k - 1];
      if Destroys(r, ops[0], [id]) {
        NotDueStays(r1, ops[1..], id);
      } else {
        DueStays(r1, ops[1..], id);
        assert Due(r1, id) && r1.timers[id].inProc == r.timers[id].inProc;
      }
    }
  }

  lemma RestStaysDue(r: Registry, x: TimerId, script: Script, rest: seq<TimerId>)
    requires x in r.timers && r.started && FireSafe(r, x, script) && x !in rest
    requires forall id :: id in rest ==> Due(r, id)
    ensures (forall id :: id in rest ==> Due(FireOne(r, x, script), id))
            <==> AllSpareDue(r, CallbackOps(r, x, script), rest)
  {
    var b, ops := BeginFire(r, x), CallbackOps(r, x, script);
    var e := ApplyOps(b, ops);
    forall id | id in rest ensures Due(FireOne(r, x, script), id) <==> AllSpareDue(r, ops, [id]) {
      DueStays(b, ops, id);
      assert forall k :: 0 <= k < |ops| ==> Destroys(b, ops[k], [id]) == Destroys(r, ops[k], [id]);
    }
    if !AllSpareDue(r, ops, rest) {
      var k :| 0 <= k < |ops| && Destroys(r, ops[k], rest);
      assert Destroys(r, ops[k], [ops[k].id]);
      assert !AllSpareDue(r, ops, [ops[k].id]);
    }
    if !(forall id :: id in rest ==> Due(FireOne(r, x, script), id)) {
      var id :| id in rest && !Due(FireOne(r, x, script), id);
      var k :| 0 <= k < |ops| && Destroys(r, ops[k], [id]);
      assert Destroys(r, ops[k], rest);
    }
  }

  lemma {:induction false} DueOnlyFull(r: Registry, order: seq<TimerId>)
    requires |DueOnly(r, order)| == |order|
    ensures DueOnly(r, order) == order
  {
    if order != [] {
      DueOnlyFull(r, order[1..]);
    }
  }

  /** All timers due are fired exactly if no callback destroys one that is still due. */
  lemma {:induction false} SparesExactly(r: Registry, order: seq<TimerId>, script: Script)
    requires NoDup(order) && r.started && forall id :: id in order ==> Due(r, id)
    requires FireDueSafe(r, order, script)
    ensures FireCount(r, order, script) == |order| <==> SparesDue(r, order, script)
    decreases |order|
  {
    hide FireOne, AllSpareDue, FireSafe, DueOnly;
    if order != [] {
      var x, rest := order[0], order[1..];
      assert x in order && Due(r, x);
      assert forall i :: 0 <= i < |rest| ==> rest[i] == order[i + 1];
      var r1 := FireOne(r, x, script);
      var due := DueOnly(r1, rest);
      RestStaysDue(r, x, script, rest);
      DueOnlyNoDup(r1, rest);
      SparesExactly(r1, due, script);
      if |due| == |rest| {
        DueOnlyFull(r1, rest);
      } else if forall id :: id in rest ==> Due(r1, id) {
        DueOnlyAll(r1, rest);
      }
    }
  }

  // ---------------------------------------------------------------------------------------------
  // Timers armed within the tick
  // ---------------------------------------------------------------------------------------------

  function ArmedByOp(r: Registry, op: Op, armed: set<TimerId>): set<TimerId> {
    if op.Register? then (if Accepts(r, op) then armed + {op.guid} else armed)
    else if op.id != INVALID_TIMER_ID && op.id in r.timers && !r.timers[op.id].inProc then armed - {op.id}
    else armed
  }

  function ArmedByOps(r: Registry, ops: seq<Op>, armed: set<TimerId>): set<TimerId>
    decreases |ops|
  {
    if ops == [] then armed else ArmedByOps(ApplyOp(r, ops[0]), ops[1..], ArmedByOp(r, ops[0], armed))
  }

  function ArmedByFire(r: Registry, x: TimerId, script: Script, armed: set<TimerId>): set<TimerId>
    requires x in r.timers
  {
    var b, ops := BeginFire(r, x), CallbackOps(r, x, script);
    var a := ArmedByOps(b, ops, armed);
    if Rearms(ApplyOps(b, ops).timers[x]) then a + {x} else a - {x}
  }

  /** The timers registered or rearmed in the course of the tick, and not destroyed again. */
  function Armed(r: Registry, order: seq<TimerId>, script: Script, armed: set<TimerId>): set<TimerId>
    requires forall id :: id in order ==> Due(r, id)
    decreases |order|
  {
    if order == [] then armed
    else
      assert order[0] in order && Due(r, order[0]);
      var r1 := FireOne(r, order[0], script);
      Armed(r1, DueOnly(r1, order[1..]), script, ArmedByFire(r, order[0], script, armed))
  }

  /** The timer expires when the first wheel has made one full turn. */
  predicate OneTurnAhead(r: Registry, id: TimerId) {
    id in r.timers && r.timers[id].expire == r.lasttick + 1000
  }

  /** No timer armed in the tick is left that expires one full turn of the first wheel after it. */
  predicate NoneArmedAhead(r: Registry, order: seq<TimerId>, script: Script)
    requires forall id :: id in order ==> Due(r, id)
  {
    forall id :: id in Armed(r, order, script, {}) ==> !OneTurnAhead(FireDue(r, order, script), id)
  }
}
