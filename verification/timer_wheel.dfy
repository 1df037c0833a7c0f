/**
 * The hierarchical timing wheel: three wheels of 1000, 3600 and 24 slots over the registry.
 *
 * The functions here say what the operations of `TimerMgr` do to the whole state; the class in
 * timer_mgr.dfy is proved to do exactly this, and timer_refinement.dfy proves that it amounts to the
 * naive service of module TimerRegistry.
 */
module TimerWheel {
  import opened Sequences
  import opened TimerRegistry

  const SEC := 0
  const HOUR := 1
  const DAY := 2
  const WHEELS := 3

  function Size(w: int): int {
    if w == SEC then 1000 else if w == HOUR then 3600 else 24
  }

  /** A slot of a wheel: the list that `DoubLinkNode::owner` points to. */
  datatype Slot = Slot(w: int, j: int)

  datatype TimeWheel = TimeWheel(cur: int, tlist: seq<seq<TimerId>>)

  /** `owner` holds the linked timers only: a timer without owner is in no list. */
  datatype Wheel = Wheel(reg: Registry, wheels: seq<TimeWheel>, owner: map<TimerId, Slot>)

  predicate ValidSlot(sl: Slot) {
    0 <= sl.w < WHEELS && 0 <= sl.j < Size(sl.w)
  }

  /** Before its first advance the first wheel stands before slot 0. */
  predicate Shape(wheels: seq<TimeWheel>) {
    && |wheels| == WHEELS
    && (forall w :: 0 <= w < WHEELS ==> |wheels[w].tlist| == Size(w) && wheels[w].cur < Size(w))
    && -1 <= wheels[SEC].cur && 0 <= wheels[HOUR].cur && 0 <= wheels[DAY].cur
  }

  function List(wheels: seq<TimeWheel>, sl: Slot): seq<TimerId>
    requires Shape(wheels) && ValidSlot(sl)
  {
    wheels[sl.w].tlist[sl.j]
  }

  predicate SameCursors(a: seq<TimeWheel>, b: seq<TimeWheel>) {
    |a| == |b| && forall w :: 0 <= w < |a| ==> a[w].cur == b[w].cur
  }

  function SetList(wheels: seq<TimeWheel>, sl: Slot, l: seq<TimerId>): (r: seq<TimeWheel>)
    requires Shape(wheels) && ValidSlot(sl)
    ensures Shape(r) && SameCursors(wheels, r)
    ensures forall s :: ValidSlot(s) ==> List(r, s) == if s == sl then l else List(wheels, s)
  {
    wheels[sl.w := wheels[sl.w].(tlist := wheels[sl.w].tlist[sl.j := l])]
  }

  /**
   * Lists and owners agree: the slot that owns a timer is the only one that lists it, once, and only
   * registered timers are listed.
   */
  ghost predicate Linked(s: Wheel) {
    ListsAgree(s.wheels, s.owner) && s.owner.Keys <= s.reg.timers.Keys
  }

  ghost predicate ListsAgree(wheels: seq<TimeWheel>, owner: map<TimerId, Slot>) {
    && Shape(wheels)
    && (forall id :: id in owner ==> ValidSlot(owner[id]))
    && (forall sl {:trigger SlotAgrees(wheels, owner, sl)} :: ValidSlot(sl) ==> SlotAgrees(wheels, owner, sl))
  }

  ghost predicate SlotAgrees(wheels: seq<TimeWheel>, owner: map<TimerId, Slot>, sl: Slot)
    requires Shape(wheels) && ValidSlot(sl)
  {
    var l := List(wheels, sl);
    NoDup(l) && forall id :: id in l <==> id in owner && owner[id] == sl
  }

  /** Agreement of one slot carries over a change that concerns another slot only. */
  lemma SlotElsewhere(a: seq<TimeWheel>, o: map<TimerId, Slot>, b: seq<TimeWheel>, o': map<TimerId, Slot>, x: TimerId, sl: Slot)
    requires Shape(a) && Shape(b) && ValidSlot(sl) && List(a, sl) == List(b, sl)
    requires SlotAgrees(a, o, sl)
    requires x in o ==> o[x] != sl
    requires x in o' ==> o'[x] != sl
    requires forall id :: id != x ==> (id in o <==> id in o')
    requires forall id :: id != x && id in o ==> o[id] == o'[id]
    ensures SlotAgrees(b, o', sl)
  {
  }

  lemma LinkedShape(s: Wheel)
    requires Linked(s)
    ensures Shape(s.wheels)
  {
  }

  lemma Listed(s: Wheel, sl: Slot, id: TimerId)
    requires Linked(s) && ValidSlot(sl) && id in List(s.wheels, sl)
    ensures id in s.owner && s.owner[id] == sl && id in s.reg.timers
  {
    assert SlotAgrees(s.wheels, s.owner, sl);
  }

  /** Same timers in the same slots, except for the timer `x`. */
  ghost predicate OnlyMoves(s: Wheel, r: Wheel, x: TimerId) {
    && SameCursors(s.wheels, r.wheels)
    && (forall id :: id != x ==> (id in s.owner <==> id in r.owner))
    && (forall id :: id != x && id in s.owner && id in r.owner ==> r.owner[id] == s.owner[id])
  }

  /** `DoubLink::Push` on the list of a slot; it refuses a timer that is already linked. */
  ghost function Push(s: Wheel, sl: Slot, id: TimerId): (r: Wheel)
    requires Linked(s) && ValidSlot(sl) && id in s.reg.timers
    ensures Linked(r) && OnlyMoves(s, r, id) && r.reg == s.reg
  {
    if id in s.owner then s
    else
      var l := List(s.wheels, sl);
      var owner := s.owner[id := sl];
      var wheels := SetList(s.wheels, sl, l + [id]);
      assert SlotAgrees(s.wheels, s.owner, sl);
      assert SlotAgrees(wheels, owner, sl);
      assert ListsAgree(wheels, owner) by {
        forall v | ValidSlot(v) && v != sl ensures SlotAgrees(wheels, owner, v) {
          assert SlotAgrees(s.wheels, s.owner, v);
          SlotElsewhere(s.wheels, s.owner, wheels, owner, id, v);
        }
      }
      s.(wheels := wheels, owner := owner)
  }

  /** `UnRegisterTimer`: `DoubLink::Remove` on the list that owns the timer, if one does. */
  ghost function Unlink(s: Wheel, id: TimerId): (r: Wheel)
    requires Linked(s)
    ensures Linked(r) && OnlyMoves(s, r, id) && r.reg == s.reg && id !in r.owner
  {
    if id !in s.owner then s
    else
      var sl := s.owner[id];
      var l := List(s.wheels, sl);
      assert SlotAgrees(s.wheels, s.owner, sl);
      WithoutKeepsNoDup(l, id);
      var owner := s.owner - {id};
      var wheels := SetList(s.wheels, sl, Without(l, id));
      assert SlotAgrees(wheels, owner, sl);
      assert ListsAgree(wheels, owner) by {
        forall v | ValidSlot(v) && v != sl ensures SlotAgrees(wheels, owner, v) {
          assert SlotAgrees(s.wheels, s.owner, v);
          SlotElsewhere(s.wheels, s.owner, wheels, owner, id, v);
        }
      }
      s.(wheels := wheels, owner := owner)
  }

  function ToU32(x: int): nat {
    x % U32_RANGE
  }

  function ToS32(x: nat): int {
    var y := x % U32_RANGE;
    if y < 0x8000_0000 then y else y - U32_RANGE
  }

  /** The slot that `Reg` picks, starting at wheel `w`, for a timer `remain` units of that wheel away. */
  function Place(wheels: seq<TimeWheel>, w: int, remain: nat): (sl: Slot)
    requires Shape(wheels) && 0 <= w < WHEELS
    ensures ValidSlot(sl)
    decreases WHEELS - w
  {
    if w == DAY || Size(w) >= remain then
      Slot(w, ToU32(wheels[w].cur + ToS32(remain)) % Size(w))
    else Place(wheels, w + 1, (remain - 1) / Size(w))
  }

  ghost function Reg(s: Wheel, id: TimerId, tick: nat): (r: Wheel)
    requires Linked(s) && id in s.reg.timers
    ensures Linked(r) && OnlyMoves(s, r, id) && r.reg == s.reg
  {
    Push(s, Place(s.wheels, SEC, CalRemain(tick, s.reg.timers[id].expire)), id)
  }

  ghost function Registered(s: Wheel, op: Op): (r: Wheel)
    requires Linked(s) && op.Register?
    ensures Linked(r) && r.reg == ApplyRegister(s.reg, op) && SameCursors(s.wheels, r.wheels)
  {
    if Accepts(s.reg, op) then
      var s1 := s.(reg := ApplyRegister(s.reg, op));
      Reg(s1, op.guid, s1.reg.lasttick)
    else s
  }

  ghost function Delete(s: Wheel, id: TimerId): (r: Wheel)
    requires Linked(s) && id in s.reg.timers
    ensures Linked(r) && r.reg == s.reg.(timers := s.reg.timers - {id}) && OnlyMoves(s, r, id)
  {
    var s1 := Unlink(s, id);
    s1.(reg := s1.reg.(timers := s1.reg.timers - {id}))
  }

  ghost function Destroyed(s: Wheel, id: TimerId): (r: Wheel)
    requires Linked(s)
    ensures Linked(r) && r.reg == ApplyDestroy(s.reg, id) && OnlyMoves(s, r, id)
  {
    if id == INVALID_TIMER_ID || id !in s.reg.timers then s
    else if s.reg.timers[id].inProc then s.(reg := ApplyDestroy(s.reg, id))
    else Delete(s, id)
  }

  ghost function DoOp(s: Wheel, op: Op): (r: Wheel)
    requires Linked(s)
    ensures Linked(r) && r.reg == ApplyOp(s.reg, op) && SameCursors(s.wheels, r.wheels)
  {
    if op.Register? then Registered(s, op) else Destroyed(s, op.id)
  }

  ghost function DoOps(s: Wheel, ops: seq<Op>): (r: Wheel)
    requires Linked(s)
    ensures Linked(r) && r.reg == ApplyOps(s.reg, ops) && SameCursors(s.wheels, r.wheels)
    decreases |ops|
  {
    if ops == [] then s else DoOps(DoOp(s, ops[0]), ops[1..])
  }

  /** What `Fire` does with a timer it has popped from the first wheel. */
  ghost function Expire(s: Wheel, id: TimerId, script: Script): (r: Wheel)
    requires Linked(s) && id in s.reg.timers
    ensures Linked(r) && r.reg == FireOne(s.reg, id, script) && SameCursors(s.wheels, r.wheels)
  {
    var s1 := s.(reg := BeginFire(s.reg, id));
    var s2 := Unlink(DoOps(s1, CallbackOps(s.reg, id, script)), id);
    var r := EndFire(s2.reg, id);
    if Rearms(s2.reg.timers[id]) then Reg(s2.(reg := r), id, r.lasttick)
    else s2.(reg := r)
  }

  function Cur(s: Wheel, w: int): Slot
    requires |s.wheels| == WHEELS && 0 <= w < WHEELS
  {
    Slot(w, s.wheels[w].cur)
  }

  predicate CanDrain(s: Wheel, w: int)
    requires Shape(s.wheels)
  {
    0 <= w < WHEELS && 0 <= s.wheels[w].cur
  }

  /** The loop of `Fire` over the current slot of wheel `w`, with `pops` rounds to go. */
  ghost function Drain(s: Wheel, w: int, pops: nat, script: Script): (r: Wheel)
    requires Linked(s) && CanDrain(s, w)
    ensures Linked(r) && SameCursors(s.wheels, r.wheels)
    ensures s.reg.started ==> r.reg.started && r.reg.lasttick == s.reg.lasttick
    ensures s.reg.log <= r.reg.log
    decreases pops
  {
    if pops == 0 then s
    else
      hide FireOne, ListsAgree, Serve;
      assert Shape(s.wheels) by { LinkedShape(s); }
      var l := List(s.wheels, Cur(s, w));
      if l == [] then Drain(s, w, pops - 1, script)
      else Drain(Serve(s, w, script), w, pops - 1, script)
  }

  /** One round of that loop on a slot that is not empty: pop, then expire or move down. */
  ghost function Serve(s: Wheel, w: int, script: Script): (r: Wheel)
    requires Linked(s) && CanDrain(s, w)
    requires List(s.wheels, Cur(s, w)) != []
    ensures Linked(r) && SameCursors(s.wheels, r.wheels)
    ensures var id := List(s.wheels, Cur(s, w))[0];
      id in s.reg.timers && r.reg == if w == SEC then FireOne(s.reg, id, script) else s.reg
    ensures s.reg.log <= r.reg.log
    ensures s.reg.started ==> r.reg.started && r.reg.lasttick == s.reg.lasttick
  {
    var id := List(s.wheels, Cur(s, w))[0];
    assert SlotAgrees(s.wheels, s.owner, Cur(s, w));
    assert id in List(s.wheels, Cur(s, w));
    var s1 := Unlink(s, id);
    if w == SEC then Expire(s1, id, script) else Reg(s1, id, s1.reg.lasttick)
  }

  function NextCursor(w: int, cur: int): int {
    if cur + 1 == Size(w) then 0 else cur + 1
  }

  ghost function Turn(s: Wheel, w: int): (r: Wheel)
    requires Linked(s) && 0 <= w < WHEELS
    ensures Linked(r) && r.reg == s.reg && r.owner == s.owner && CanDrain(r, w)
    ensures forall sl :: ValidSlot(sl) ==> List(r.wheels, sl) == List(s.wheels, sl)
    ensures forall v :: 0 <= v < WHEELS && v != w ==> r.wheels[v].cur == s.wheels[v].cur
    ensures r.wheels[w].cur == NextCursor(w, s.wheels[w].cur)
  {
    var wheels := s.wheels[w := s.wheels[w].(cur := NextCursor(w, s.wheels[w].cur))];
    assert ListsAgree(wheels, s.owner) by {
      forall v | ValidSlot(v) ensures SlotAgrees(wheels, s.owner, v) {
        assert SlotAgrees(s.wheels, s.owner, v);
      }
    }
    s.(wheels := wheels)
  }

  ghost function Fire(s: Wheel, w: int, script: Script): (r: Wheel)
    requires Linked(s) && 0 <= w < WHEELS
    ensures Linked(r)
    ensures s.reg.started ==> r.reg.started && r.reg.lasttick == s.reg.lasttick
    ensures s.reg.log <= r.reg.log
    decreases WHEELS - w
  {
    var s1 := Turn(s, w);
    var s2 := Drain(s1, w, |List(s1.wheels, Cur(s1, w))|, script);
    if s2.wheels[w].cur + 1 == Size(w) && w < DAY then Fire(s2, w + 1, script) else s2
  }

  ghost function Tick(s: Wheel, script: Script): (r: Wheel)
    requires Linked(s) && s.reg.started
    ensures Linked(r) && r.reg.started && r.reg.lasttick == s.reg.lasttick + 1
  {
    Fire(s.(reg := Advanced(s.reg)), SEC, script)
  }

  ghost function CatchUp(s: Wheel, now: nat, script: Script): (r: Wheel)
    requires Linked(s) && s.reg.started && s.reg.lasttick <= now
    ensures Linked(r) && r.reg.started && r.reg.lasttick == now
    decreases now - s.reg.lasttick
  {
    if s.reg.lasttick == now then s else CatchUp(Tick(s, script), now, script)
  }

  /** `Proc` at clock time `now`; a clock that runs backwards only resets the tick counter. */
  ghost function Proc(s: Wheel, now: nat, script: Script): (r: Wheel)
    requires Linked(s)
    ensures Linked(r)
  {
    if !s.reg.started then s
    else if now < s.reg.lasttick then s.(reg := s.reg.(lasttick := now))
    else CatchUp(s, now, script)
  }
}
