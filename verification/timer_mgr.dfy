/** `TimerMgr` itself: the fields that change, and the methods that change them. */
module TimerManager {
  import opened Sequences
  import opened TimerRegistry
  import W = TimerWheel
  import TimerInvariant
  import TimerRuns

  lemma DeleteUnlinked(s: W.Wheel, id: TimerId)
    requires W.Linked(s) && id in s.reg.timers && id !in s.owner
    ensures W.Delete(s, id) == s.(reg := s.reg.(timers := s.reg.timers - {id}))
  {
  }

  lemma DrainRound(s: W.Wheel, w: int, pops: nat, script: Script)
    requires W.Linked(s) && W.CanDrain(s, w) && pops > 0
    ensures W.CanDrain(Rounded(s, w, script), w)
    ensures W.Drain(s, w, pops, script) == W.Drain(Rounded(s, w, script), w, pops - 1, script)
  {
    hide W.Serve;
  }

  /** One round of the loop of `Fire`. */
  ghost function Rounded(s: W.Wheel, w: int, script: Script): (r: W.Wheel)
    requires W.Linked(s) && W.CanDrain(s, w)
    ensures W.Linked(r) && W.SameCursors(s.wheels, r.wheels)
  {
    if W.List(s.wheels, W.Cur(s, w)) == [] then s else W.Serve(s, w, script)
  }

  lemma ServeInParts(s: W.Wheel, w: int, script: Script)
    requires W.Linked(s) && W.CanDrain(s, w) && W.List(s.wheels, W.Cur(s, w)) != []
    ensures var id := W.List(s.wheels, W.Cur(s, w))[0];
      && id in s.reg.timers
      && var s1 := W.Unlink(s, id);
         W.Serve(s, w, script) == if w == W.SEC then W.Expire(s1, id, script) else W.Reg(s1, id, s1.reg.lasttick)
  {
    hide W.Expire, W.Reg, W.Unlink;
    W.Listed(s, W.Cur(s, w), W.List(s.wheels, W.Cur(s, w))[0]);
  }

  lemma DrainNone(s: W.Wheel, w: int, script: Script)
    requires W.Linked(s) && W.CanDrain(s, w)
    ensures W.Drain(s, w, 0, script) == s
  {
  }

  class TimerMgr {
    /** Whether the tick counter has been started (`tick_` is not null). */
    var started: bool
    var lasttick: nat
    var wheels: seq<W.TimeWheel>
    var timers: map<TimerId, Timer>
    /** The owner pointer of each linked timer. */
    var owner: map<TimerId, W.Slot>
    /** The function ids that have a callback. */
    var funcs: set<int>
    var log: seq<Firing>
    /** What the callbacks do. */
    const script: Script

    ghost function State(): W.Wheel
      reads this
    {
      W.Wheel(Registry(started, lasttick, funcs, timers, log), wheels, owner)
    }

    ghost predicate Valid()
      reads this
    {
      W.Linked(State())
    }

    /** Constructor and `Init`. */
    constructor (script: Script)
      ensures Valid() && this.script == script
      ensures !started && timers == map[] && owner == map[] && log == [] && funcs == {} && lasttick == 0
      ensures wheels[W.SEC].cur == -1 && wheels[W.HOUR].cur == 0 && wheels[W.DAY].cur == 0
    {
      this.script := script;
      started, lasttick := false, 0;
      wheels := [W.TimeWheel(-1, seq(1000, _ => [])), W.TimeWheel(0, seq(3600, _ => [])),
                 W.TimeWheel(0, seq(24, _ => []))];
      timers, owner, funcs, log := map[], map[], {}, [];
      new;
      assert W.Shape(wheels);
      assert forall sl :: W.ValidSlot(sl) ==> W.SlotAgrees(wheels, owner, sl);
    }

    /** `Timer::RegisterTimerFunc`. */
    method RegisterTimerFunc(funcId: int) returns (ret: int)
      requires Valid()
      modifies this`funcs
      ensures Valid()
      ensures ret == if !(0 < funcId < MAX_TIMER_FUNC_ID_NUM) then -1 else if funcId in old(funcs) then -2 else 0
      ensures funcs == if ret == 0 then old(funcs) + {funcId} else old(funcs)
    {
      if funcId <= 0 || funcId >= MAX_TIMER_FUNC_ID_NUM { return -1; }
      if funcId in funcs { return -2; }
      funcs := funcs + {funcId};
      return 0;
    }

    method Push(sl: W.Slot, id: TimerId)
      requires Valid() && W.ValidSlot(sl) && id in timers
      modifies this`wheels, this`owner
      ensures State() == W.Push(old(State()), sl, id)
    {
      if id !in owner {
        wheels := W.SetList(wheels, sl, W.List(wheels, sl) + [id]);
        owner := owner[id := sl];
      }
    }

    method UnRegisterTimer(id: TimerId) returns (ret: int)
      requires Valid()
      modifies this`wheels, this`owner
      ensures State() == W.Unlink(old(State()), id)
      ensures ret == if id in old(owner) then 0 else -1
    {
      if id !in owner { return -1; }
      var sl := owner[id];
      wheels := W.SetList(wheels, sl, Without(W.List(wheels, sl), id));
      owner := owner - {id};
      return 0;
    }

    method Reg(id: TimerId, tick: nat)
      requires Valid() && id in timers
      modifies this`wheels, this`owner
      ensures State() == W.Reg(old(State()), id, tick)
    {
      var remain, w := CalRemain(tick, timers[id].expire), W.SEC;
      ghost var target := W.Place(wheels, w, remain);
      while true
        invariant 0 <= w < W.WHEELS && 0 <= remain
        invariant target == W.Place(wheels, w, remain)
        invariant unchanged(this)
        decreases W.WHEELS - w
      {
        var wsize := W.Size(w);
        if w == W.DAY || wsize >= remain {
          Push(W.Slot(w, W.ToU32(wheels[w].cur + W.ToS32(remain)) % wsize), id);
          return;
        }
        remain := (remain - 1) / wsize;
        w := w + 1;
      }
    }

    /** Returns the id given to the timer, or INVALID_TIMER_ID. */
    method RegisterTimer(op: Op) returns (id: TimerId)
      requires Valid() && op.Register?
      modifies this`started, this`lasttick, this`timers, this`wheels, this`owner
      ensures State() == W.Registered(old(State()), op)
      ensures id != 0 <==>
        && 0 < op.funcId < 64 && (op.dataLen <= 0 || op.hasData) && op.dataLen <= 128
        && op.guid != 0 && op.guid !in old(timers)
      ensures id == 0 ==> unchanged(this)
      ensures id != 0 ==>
        && id == op.guid && started && lasttick == (if old(started) then old(lasttick) else op.now)
        && timers == old(timers)[id := Timer(
             op.now + if op.timeout == 0 then 1 else if op.timeout > 86_399_999 then 86_399_999 else op.timeout,
             if op.interval == 0 then 1 else if op.interval > 86_399_999 then 86_399_999 else op.interval,
             op.repeats, op.repeats == 0, op.funcId, false)]
      ensures TimerInvariant.Inv(old(State())) && OpSafe(old(State()).reg, op) ==> TimerInvariant.Inv(State())
    {
      hide TimerInvariant.Inv, OpSafe, W.ListsAgree, W.Reg;
      if TimerInvariant.Inv(State()) && OpSafe(State().reg, op) {
        TimerRuns.CallKeeps(State(), op);
      }
      if op.funcId <= 0 || op.funcId >= MAX_TIMER_FUNC_ID_NUM { return INVALID_TIMER_ID; }
      if (op.dataLen > 0 && !op.hasData) || op.dataLen > TIMER_CB_DATA_MAX_LEN { return INVALID_TIMER_ID; }
      if op.guid == INVALID_TIMER_ID { return INVALID_TIMER_ID; }
      if op.guid in timers { return INVALID_TIMER_ID; }
      var timeout := Clamp(op.timeout, 1, MAX_TIMEOUT);
      var interval := Clamp(op.interval, 1, MAX_TIMEOUT);
      if !started {
        started, lasttick := true, op.now;
      }
      timers := timers[op.guid :=
        Timer(op.now + timeout, interval, op.repeats, op.repeats == 0, op.funcId, false)];
      Reg(op.guid, lasttick);
      return op.guid;
    }

    method DeleteTimer(id: TimerId)
      requires Valid() && id in timers
      modifies this`timers, this`wheels, this`owner
      ensures State() == W.Delete(old(State()), id)
    {
      if id in owner {
        var _ := UnRegisterTimer(id);
      }
      timers := timers - {id};
    }

    method DestroyTimer(id: TimerId) returns (ret: int)
      requires Valid()
      modifies this`timers, this`wheels, this`owner
      ensures State() == W.Destroyed(old(State()), id)
      ensures ret == if id == INVALID_TIMER_ID then -1 else 0
      ensures id == 0 || id !in old(timers) ==> unchanged(this)
      ensures id != 0 && id in old(timers) && !old(timers)[id].inProc ==> timers == old(timers) - {id} && id !in owner
      ensures id != 0 && id in old(timers) && old(timers)[id].inProc ==>
        timers == old(timers)[id := old(timers)[id].(forever := false, repeats := 0)] && owner == old(owner)
      ensures TimerInvariant.Inv(old(State())) ==> TimerInvariant.Inv(State())
    {
      if TimerInvariant.Inv(State()) {
        TimerRuns.CallKeeps(State(), Destroy(id));
      }
      if id == INVALID_TIMER_ID { return -1; }
      if id !in timers { return 0; }
      if timers[id].inProc {
        timers := timers[id := timers[id].(forever := false, repeats := 0)];
      } else {
        DeleteTimer(id);
      }
      return 0;
    }

    /** The callback of a timer, as far as it calls back into the manager. */
    method Callback(ops: seq<Op>)
      requires Valid()
      modifies this`started, this`lasttick, this`timers, this`wheels, this`owner
      ensures State() == W.DoOps(old(State()), ops)
    {
      for i := 0 to |ops|
        invariant W.Linked(State()) && funcs == old(funcs) && log == old(log)
        invariant W.DoOps(State(), ops[i..]) == W.DoOps(old(State()), ops)
      {
        assert ops[i..][0] == ops[i] && ops[i..][1..] == ops[i + 1..];
        if ops[i].Register? {
          var _ := RegisterTimer(ops[i]);
        } else {
          var _ := DestroyTimer(ops[i].id);
        }
      }
    }

    /** `Timer::OnTimeout`: a missing callback is an error, but the timer has fired all the same. */
    method OnTimeout(id: TimerId) returns (ret: int)
      requires Valid() && id in timers
      modifies this`started, this`lasttick, this`timers, this`wheels, this`owner, this`log
      ensures State() == W.DoOps(
        old(State()).(reg := old(State()).reg.(log := old(log) + [Firing(old(lasttick), id, Called(old(State()).reg, id))])),
        CallbackOps(old(State()).reg, id, script))
      ensures ret == if old(timers)[id].funcId in funcs then 0 else -1
      ensures log == old(log) + [Firing(old(lasttick), id, old(timers)[id].funcId in funcs)]
      ensures old(timers)[id].funcId !in funcs ==> timers == old(timers) && owner == old(owner) && wheels == old(wheels)
    {
      var k := |log|;
      if timers[id].funcId !in funcs {
        log := log + [Firing(lasttick, id, false)];
        return -1;
      }
      log := log + [Firing(lasttick, id, true)];
      Callback(if k < |script| then script[k] else []);
      return 0;
    }

    /** What the loop of `Fire` does on the first wheel with a timer it has popped. */
    method Expire(id: TimerId)
      requires Valid() && id in timers
      modifies this
      ensures State() == W.Expire(old(State()), id, script)
    {
      hide W.ListsAgree, W.Reg, W.DoOps, ApplyOps, W.Unlink, W.Delete;
      timers := timers[id := timers[id].(inProc := true)];
      assert CallbackOps(State().reg, id, script) == CallbackOps(old(State()).reg, id, script);
      var _ := OnTimeout(id);
      Finish(id);
    }

    method Finish(id: TimerId)
      requires Valid() && id in timers
      modifies this`timers, this`wheels, this`owner
      ensures var s := W.Unlink(old(State()), id);
        var r := EndFire(s.reg, id);
        State() == if Rearms(s.reg.timers[id]) then W.Reg(s.(reg := r), id, r.lasttick) else s.(reg := r)
    {
      hide W.ListsAgree, W.Reg, W.Unlink, W.Delete;
      var _ := UnRegisterTimer(id);
      var t := timers[id].(inProc := false);
      if !t.forever {
        t := t.(repeats := t.repeats - 1);
      }
      if t.repeats > 0 || t.forever {
        timers := timers[id := t.(expire := lasttick + t.interval)];
        Reg(id, lasttick);
      } else {
        DeleteUnlinked(State(), id);
        DeleteTimer(id);
      }
    }

    /** A round of the loop of `Fire`. */
    method Round(w: int)
      requires Valid() && W.CanDrain(State(), w)
      modifies this
      ensures Valid() && State() == Rounded(old(State()), w, script)
    {
      hide W.ListsAgree, W.Reg, W.Expire, W.Unlink, W.Serve;
      W.LinkedShape(State());
      var l := W.List(wheels, W.Slot(w, wheels[w].cur));
      if l != [] {
        ServeInParts(State(), w, script);
        var _ := UnRegisterTimer(l[0]);
        if w == W.SEC {
          Expire(l[0]);
        } else {
          Reg(l[0], lasttick);
        }
      }
    }

    method Fire(w: int)
      requires Valid() && 0 <= w < W.WHEELS
      modifies this
      ensures State() == W.Fire(old(State()), w, script)
      decreases W.WHEELS - w
    {
      hide W.ListsAgree, W.Drain, Rounded;
      W.LinkedShape(State());
      wheels := wheels[w := wheels[w].(cur := wheels[w].cur + 1)];
      if wheels[w].cur == W.Size(w) {
        wheels := wheels[w := wheels[w].(cur := 0)];
      }
      ghost var s1 := State();
      assert s1 == W.Turn(old(State()), w);
      var size := |W.List(wheels, W.Slot(w, wheels[w].cur))|;
      for i := 0 to size
        invariant W.Linked(State()) && W.Shape(wheels) && W.CanDrain(State(), w)
        invariant W.Drain(State(), w, size - i, script) == W.Drain(s1, w, size, script)
      {
        DrainRound(State(), w, size - i, script);
        Round(w);
        W.LinkedShape(State());
      }
      DrainNone(State(), w, script);
      if wheels[w].cur + 1 == W.Size(w) && w < W.DAY {
        Fire(w + 1);
      }
    }

    /** `Proc`, at clock time `now`. */
    method Proc(now: nat)
      requires Valid()
      modifies this
      ensures Valid() && State() == W.Proc(old(State()), now, script)
      ensures !old(started) ==> unchanged(this)
      ensures old(started) ==> started && lasttick == now
      ensures old(started) && now < old(lasttick) ==>
        timers == old(timers) && wheels == old(wheels) && owner == old(owner) && log == old(log)
      ensures TimerInvariant.Inv(old(State())) && TimerRuns.SafeProc(old(State()).reg, now, script) ==>
        TimerInvariant.Inv(State()) && TimerRuns.NaiveProc(old(State()).reg, now, script, State().reg)
    {
      hide TimerInvariant.Inv, TimerRuns.SafeProc, TimerRuns.NaiveProc, W.Fire, W.ListsAgree;
      if TimerInvariant.Inv(State()) && TimerRuns.SafeProc(State().reg, now, script) {
        TimerRuns.ProcRefines(State(), now, script);
      }
      if !started { return; }
      if now < lasttick {
        lasttick := now;
        return;
      }
      while lasttick != now
        invariant W.Linked(State()) && started && lasttick <= now
        invariant W.CatchUp(State(), now, script) == W.CatchUp(old(State()), now, script)
        decreases now - lasttick
      {
        lasttick := lasttick + 1;
        Fire(W.SEC);
      }
    }
  }
}
