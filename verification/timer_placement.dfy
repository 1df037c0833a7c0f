/**
 * Where the wheel keeps a timer, and when it will next look at it.
 *
 * All distances are counted forward from the present tick, so that nothing here depends on how many
 * ticks the wheel has already made.
 */
module TimerPlacement {
  import opened Sequences
  import opened TimerRegistry
  import opened TimerWheel

  /** How far a tick has come: `Lag(w)` says that wheel `w` is yet to turn within the present tick. */
  datatype Lag = NoLag | HourLag | DayLag

  /** Number of turns after which a cursor at `cur` reaches slot `j`: from 1 to `size`. */
  function Turns(cur: int, j: int, size: int): int {
    if j > cur then j - cur else j - cur + size
  }

  /** Ticks until the hour wheel turns, counting a turn still owed to the present tick as 0. */
  function ToHour(ws: seq<TimeWheel>, lag: Lag): int
    requires |ws| == WHEELS
  {
    if lag == HourLag then 0 else Turns(ws[SEC].cur, 999, 1000)
  }

  function ToDay(ws: seq<TimeWheel>, lag: Lag): int
    requires |ws| == WHEELS
  {
    if lag == DayLag then 0 else ToHour(ws, lag) + 1000 * (Turns(ws[HOUR].cur, 3599, 3600) - 1)
  }

  /** Ticks until the cursor of its wheel next reaches the slot. */
  function ToVisit(ws: seq<TimeWheel>, lag: Lag, sl: Slot): int
    requires |ws| == WHEELS && ValidSlot(sl)
  {
    if sl.w == SEC then Turns(ws[SEC].cur, sl.j, 1000)
    else if sl.w == HOUR then ToHour(ws, lag) + 1000 * (Turns(ws[HOUR].cur, sl.j, 3600) - 1)
    else ToDay(ws, lag) + 3_600_000 * (Turns(ws[DAY].cur, sl.j, 24) - 1)
  }

  /** A lag is only owed by the wheel above one that stands on its last slot. */
  predicate LagFits(ws: seq<TimeWheel>, lag: Lag)
    requires |ws| == WHEELS
  {
    && (lag == HourLag ==> ws[SEC].cur == 999)
    && (lag == DayLag ==> ws[SEC].cur == 999 && ws[HOUR].cur == 3599)
  }

  /** First wheel: visited exactly on expiry.  Upper wheels: visited strictly before it. */
  predicate PlacedAt(ws: seq<TimeWheel>, lag: Lag, remain: int, sl: Slot)
    requires |ws| == WHEELS && ValidSlot(sl)
  {
    if sl.w == SEC then remain == ToVisit(ws, lag, sl) else remain > ToVisit(ws, lag, sl)
  }

  /** The truncation to 32 bits is harmless exactly when no multiple of 2^32 lies in (now, expire]. */
  lemma CalRemainExact(now: nat, expire: nat)
    requires now <= expire < now + U32_RANGE
    ensures CalRemain(now, expire) == expire - now <==> SameEpoch(now, expire)
    ensures !SameEpoch(now, expire) ==> CalRemain(now, expire) == expire - now - 1
  {
    var n, e := now % U32_RANGE, expire % U32_RANGE;
    var p, q := now / U32_RANGE, expire / U32_RANGE;
    assert now == p * U32_RANGE + n && expire == q * U32_RANGE + e;
    if p != q {
      assert q == p + 1;
      assert REWINDING_TIME - n + e == 0xFFFF_FFFF * U32_RANGE + (expire - now - 1);
    }
  }

  /** The 32-bit casts of `Reg` change nothing for the distances that it gets to place. */
  lemma CastsHarmless(cur: int, remain: nat)
    requires -1 <= cur < 3600 && 1 <= remain < 0x10_0000
    ensures ToU32(cur + ToS32(remain)) == cur + remain
  {
  }

  lemma SecIndex(cur: int, remain: nat)
    requires -1 <= cur < 1000 && 1 <= remain <= 1000
    ensures Turns(cur, (cur + remain) % 1000, 1000) == remain
  {
    assert cur + remain < 1000 || (cur + remain) % 1000 == cur + remain - 1000;
  }

  lemma HourIndex(cur: int, remain: nat)
    requires 0 <= cur < 3600 && 1 <= remain <= 3600
    ensures Turns(cur, (cur + remain) % 3600, 3600) == remain
  {
    assert cur + remain < 3600 || (cur + remain) % 3600 == cur + remain - 3600;
  }

  /** On the last wheel a timer may be further away than one round; it is then looked at early. */
  lemma DayIndex(cur: int, remain: nat)
    requires 0 <= cur < 24 && 1 <= remain
    ensures Turns(cur, (cur + remain) % 24, 24) <= remain
  {
  }

  lemma DayFits(ws: seq<TimeWheel>, lag: Lag, remain: nat)
    requires Shape(ws) && LagFits(ws, lag) && 1 <= remain < U32_RANGE
    requires (remain - 1) / 1000 > 3600
    ensures PlacedAt(ws, lag, remain, Place(ws, SEC, remain))
  {
    var r := (remain - 1) / 1000;
    var q := (r - 1) / 3600;
    assert Place(ws, SEC, remain) == Place(ws, HOUR, r) == Place(ws, DAY, q);
    CastsHarmless(ws[DAY].cur, q);
    DayIndex(ws[DAY].cur, q);
    var sl := Slot(DAY, (ws[DAY].cur + q) % 24);
    assert Place(ws, DAY, q) == sl;
    assert 3600 * q <= r - 1 && 1000 * r <= remain - 1;
    assert ToDay(ws, lag) <= 3_600_000;
    var turns := Turns(ws[DAY].cur, sl.j, 24);
    assert ToVisit(ws, lag, sl) == ToDay(ws, lag) + 3_600_000 * (turns - 1);
  }

  /** `Reg` puts every timer where it will be looked at in time, in the middle of a tick as well. */
  lemma PlaceFits(ws: seq<TimeWheel>, lag: Lag, remain: nat)
    requires Shape(ws) && LagFits(ws, lag) && 1 <= remain < U32_RANGE
    ensures PlacedAt(ws, lag, remain, Place(ws, SEC, remain))
  {
    var r := (remain - 1) / 1000;
    if remain <= 1000 {
      CastsHarmless(ws[SEC].cur, remain);
      SecIndex(ws[SEC].cur, remain);
      assert Place(ws, SEC, remain) == Slot(SEC, (ws[SEC].cur + remain) % 1000);
    } else if r <= 3600 {
      assert Place(ws, SEC, remain) == Place(ws, HOUR, r);
      CastsHarmless(ws[HOUR].cur, r);
      HourIndex(ws[HOUR].cur, r);
      assert Place(ws, HOUR, r) == Slot(HOUR, (ws[HOUR].cur + r) % 3600);
      assert ToHour(ws, lag) <= 1000;
    } else {
      DayFits(ws, lag, remain);
    }
  }

  /** The first wheel turns at the start of a tick: every distance shrinks by the tick just begun. */
  lemma SecTurn(ws: seq<TimeWheel>, ws': seq<TimeWheel>, remain: int, sl: Slot)
    requires Shape(ws) && Shape(ws') && ValidSlot(sl)
    requires ws'[SEC].cur == NextCursor(SEC, ws[SEC].cur)
    requires ws'[HOUR].cur == ws[HOUR].cur && ws'[DAY].cur == ws[DAY].cur
    requires PlacedAt(ws, NoLag, remain, sl)
    ensures if sl == Slot(SEC, ws'[SEC].cur) then remain == 1
            else PlacedAt(ws', SecLag(ws'), remain - 1, sl)
  {
  }

  function SecLag(ws: seq<TimeWheel>): Lag
    requires |ws| == WHEELS
  {
    if ws[SEC].cur + 1 == Size(SEC) then HourLag else NoLag
  }

  function HourTurnLag(ws: seq<TimeWheel>): Lag
    requires |ws| == WHEELS
  {
    if ws[HOUR].cur + 1 == Size(HOUR) then DayLag else NoLag
  }

  lemma HourTurn(ws: seq<TimeWheel>, ws': seq<TimeWheel>, remain: int, sl: Slot)
    requires Shape(ws) && Shape(ws') && ValidSlot(sl) && LagFits(ws, HourLag)
    requires ws'[HOUR].cur == NextCursor(HOUR, ws[HOUR].cur)
    requires ws'[SEC].cur == ws[SEC].cur && ws'[DAY].cur == ws[DAY].cur
    requires PlacedAt(ws, HourLag, remain, sl)
    ensures if sl == Slot(HOUR, ws'[HOUR].cur) then remain > 0
            else PlacedAt(ws', HourTurnLag(ws'), remain, sl)
  {
  }

  lemma DayTurn(ws: seq<TimeWheel>, ws': seq<TimeWheel>, remain: int, sl: Slot)
    requires Shape(ws) && Shape(ws') && ValidSlot(sl) && LagFits(ws, DayLag)
    requires ws'[DAY].cur == NextCursor(DAY, ws[DAY].cur)
    requires ws'[SEC].cur == ws[SEC].cur && ws'[HOUR].cur == ws[HOUR].cur
    requires PlacedAt(ws, DayLag, remain, sl)
    ensures if sl == Slot(DAY, ws'[DAY].cur) then remain > 0
            else PlacedAt(ws', NoLag, remain, sl)
  {
  }
}
