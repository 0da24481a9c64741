/**
 * The lamp monitor of led_monitor.c.  Every 200 ms poll compares the
 * 16-bit lamp snapshot with the previous one and walks the changed bits
 * from the lowest.  The lamp lines are read active-low (a raw bit of 0 is
 * a lit lamp), so a bit that was 0 before is a lamp going out and reports
 * an arrival at its floor (elev_arrived), and a bit that was 1 before is
 * a lamp coming on, a button press, which is pushed into a four-entry window of (floor, poll count) pairs.  A press
 * that comes after the three configured floors, pressed in order, and
 * less than 30 polls after the first of them resets the floor counter to
 * the first floor.  A second, slower task re-calls the car to
 * the robot's checkin floor when its lamp has gone out.
 */
module LedMonitor {
  import opened Types
  import opened Board
  import opened Elevator

  const LED_INTERVAL := 200
  const LED_PWD_CHECK_TIME := 6000
  const UINT32 := 0x1_0000_0000

  /** A uint32 value. */
  type Count = t: int | 0 <= t < UINT32

  /** ++ on a uint32: the largest value wraps to 0. */
  function Tick(t: Count): Count
  {
    if t == UINT32 - 1 then 0 else t + 1
  }

  /** Tick is addition of one modulo 2^32. */
  lemma TickWraps(t: Count)
    ensures Tick(t) == (t + 1) % UINT32
    ensures Tick(t) == 0 <==> t == UINT32 - 1
  {
  }

  // ---------------------------------------------------------------------
  // Bits of a lamp snapshot
  // ---------------------------------------------------------------------

  predicate Bit(x: bv16, i: Pos)
  {
    (x >> i) & 1 == 1
  }

  /** The set bits of x at position i and above, lowest first. */
  function PositionsFrom(x: bv16, i: bv16): seq<Pos>
    requires i <= 16
    decreases 16 - i
  {
    if i == 16 then [] else (if Bit(x, i) then [i as Pos] else []) + PositionsFrom(x, i + 1)
  }

  /** The set bits of x, lowest first: the order the change loop visits them. */
  function Positions(x: bv16): seq<Pos>
  {
    PositionsFrom(x, 0)
  }

  /** Each position after the first is higher than the one before. */
  predicate Ascending(s: seq<Pos>)
  {
    forall a, b :: 0 <= a < b < |s| ==> s[a] as int < s[b] as int
  }

  lemma {:induction false} PositionsFromMembers(x: bv16, i: bv16)
    requires i <= 16
    ensures forall p: Pos :: p in PositionsFrom(x, i) <==> i <= p && Bit(x, p)
    decreases 16 - i
  {
    if i < 16 {
      PositionsFromMembers(x, i + 1);
    }
  }

  /** Every position collected from i on is at least i. */
  lemma {:induction false} PositionsFromAbove(x: bv16, i: bv16)
    requires i <= 16
    ensures forall k :: 0 <= k < |PositionsFrom(x, i)| ==> i as int <= PositionsFrom(x, i)[k] as int
    decreases 16 - i
  {
    if i < 16 {
      PositionsFromAbove(x, i + 1);
      assert (i + 1) as int == i as int + 1;
      if Bit(x, i as Pos) {
        TakeSet(x, i);
      } else {
        SkipClear(x, i);
      }
    }
  }

  lemma {:induction false} PositionsFromAscending(x: bv16, i: bv16)
    requires i <= 16
    ensures Ascending(PositionsFrom(x, i))
    decreases 16 - i
  {
    if i < 16 {
      PositionsFromAscending(x, i + 1);
      if Bit(x, i as Pos) {
        PositionsFromAbove(x, i + 1);
        assert (i + 1) as int == i as int + 1;
        TakeSet(x, i);
        ConsAscending(i as Pos, PositionsFrom(x, i + 1));
      } else {
        SkipClear(x, i);
      }
    }
  }

  /** A position below every element of an ascending list may go in front of it. */
  lemma ConsAscending(p: Pos, tail: seq<Pos>)
    requires Ascending(tail)
    requires forall k :: 0 <= k < |tail| ==> p as int < tail[k] as int
    ensures Ascending([p] + tail)
  {
    var all := [p] + tail;
    forall a, b | 0 <= a < b < |all|
      ensures all[a] as int < all[b] as int
    {
      assert all[b] == tail[b - 1];
      if a > 0 {
        assert all[a] == tail[a - 1];
      }
    }
  }

  /**
   * The change loop visits every set bit of the difference, each once, in
   * ascending order, and none when there is no difference.
   */
  lemma PositionsExact(x: bv16)
    ensures forall p: Pos :: p in Positions(x) <==> Bit(x, p)
    ensures Ascending(Positions(x))
    ensures x == 0 ==> Positions(x) == []
  {
    PositionsFromMembers(x, 0);
    PositionsFromAscending(x, 0);
    if x == 0 && Positions(x) != [] {
      assert Positions(x)[0] in Positions(x);
    }
  }

  /** What x & ~(x - 1) keeps and what x & (x - 1) clears. */
  lemma MaskFacts(x: bv16, p: Pos, j: Pos)
    requires x != 0
    requires Bit(x & !(x - 1), p)
    ensures Bit(x, p) && !Bit(x & (x - 1), p)
    ensures j < p ==> !Bit(x, j) && !Bit(x & (x - 1), j)
    ensures j > p ==> Bit(x & (x - 1), j) == Bit(x, j)
  {
    MaskAt(x, p);
    if j < p {
      MaskBelow(x, p, j);
    } else if j > p {
      MaskAbove(x, p, j);
    }
  }

  lemma MaskAt(x: bv16, p: Pos)
    requires x != 0
    requires Bit(x & !(x - 1), p)
    ensures Bit(x, p) && !Bit(x & (x - 1), p)
  {
  }

  lemma MaskBelow(x: bv16, p: Pos, j: Pos)
    requires x != 0 && j < p
    requires Bit(x & !(x - 1), p)
    ensures !Bit(x, j) && !Bit(x & (x - 1), j)
  {
  }

  lemma MaskAbove(x: bv16, p: Pos, j: Pos)
    requires x != 0 && j > p
    requires Bit(x & !(x - 1), p)
    ensures Bit(x & (x - 1), j) == Bit(x, j)
  {
  }

  lemma {:induction false} SameAbove(x: bv16, y: bv16, i: bv16)
    requires i <= 16
    requires forall j: Pos :: i <= j ==> Bit(x, j) == Bit(y, j)
    ensures PositionsFrom(x, i) == PositionsFrom(y, i)
    decreases 16 - i
  {
    if i < 16 {
      SameAbove(x, y, i + 1);
    }
  }

  /** A clear bit at i contributes nothing to the positions from i. */
  lemma SkipClear(x: bv16, i: bv16)
    requires i < 16 && !Bit(x, i as Pos)
    ensures PositionsFrom(x, i) == PositionsFrom(x, i + 1)
  {
    var rest := PositionsFrom(x, i + 1);
    assert PositionsFrom(x, i) == [] + rest;
    assert [] + rest == rest;
  }

  /** A set bit at i is the first position from i. */
  lemma TakeSet(x: bv16, i: bv16)
    requires i < 16 && Bit(x, i as Pos)
    ensures PositionsFrom(x, i) == [i as Pos] + PositionsFrom(x, i + 1)
  {
  }

  lemma {:induction false} SplitFrom(x: bv16, y: bv16, p: Pos, i: bv16)
    requires i <= p
    requires Bit(x, p) && !Bit(y, p)
    requires forall j: Pos :: j < p ==> !Bit(x, j) && !Bit(y, j)
    requires forall j: Pos :: j > p ==> Bit(x, j) == Bit(y, j)
    ensures PositionsFrom(x, i) == [p] + PositionsFrom(y, i)
    decreases 16 - i
  {
    if i < p {
      assert !Bit(x, i as Pos) && !Bit(y, i as Pos);
      SkipClear(x, i);
      SkipClear(y, i);
      SplitFrom(x, y, p, i + 1);
    } else {
      SameAbove(x, y, p + 1);
      TakeSet(x, p);
      SkipClear(y, p);
    }
  }

  /** One pass of the do-while: the lowest set bit is visited, then cleared. */
  lemma Split(x: bv16, p: Pos)
    requires x != 0 && Bit(x & !(x - 1), p)
    ensures Positions(x) == [p] + Positions(x & (x - 1))
  {
    forall j: Pos
      ensures (j < p ==> !Bit(x, j) && !Bit(x & (x - 1), j)) && (j > p ==> Bit(x & (x - 1), j) == Bit(x, j))
    {
      MaskFacts(x, p, j);
    }
    MaskFacts(x, p, 0);
    SplitFrom(x, x & (x - 1), p, 0);
  }

  /** is_floor_arrive */
  predicate IsFloorArrive(origin: bv16, changed: bv16)
  {
    origin & changed == 0
  }

  /** x & ~(x - 1) isolates the lowest set bit of x. */
  lemma LowestBit(x: bv16, p: Pos)
    requires x != 0 && Bit(x & !(x - 1), p)
    ensures x & !(x - 1) == 1 << p
  {
  }

  /** For a single changed bit, is_floor_arrive holds exactly when that bit was 0 before. */
  lemma SingleBitArrival(origin: bv16, p: Pos)
    ensures IsFloorArrive(origin, 1 << p) <==> !Bit(origin, p)
  {
  }

  /** bit_to_pos, on a nonzero argument (it never returns on 0): the lowest set bit. */
  method BitToPos(data: bv16) returns (pos: Pos)
    requires data != 0
    ensures Bit(data, pos)
    ensures forall j: Pos :: j < pos ==> !Bit(data, j)
  {
    var d := data;
    pos := 0;
    while d & 1 == 0
      invariant d == data >> pos && d != 0
      invariant ClearBelow(data, pos)
      decreases 16 - pos
    {
      ShiftStep(data, pos, d);
      ClearStep(data, pos);
      d := d >> 1;
      pos := pos + 1;
    }
    BitHere(data, pos);
    ClearBelowAll(data, pos);
  }

  /** Every bit of x below p is clear, counted down one bit at a time. */
  ghost predicate ClearBelow(x: bv16, p: Pos)
    decreases p
  {
    p == 0 || (!Bit(x, p - 1) && ClearBelow(x, p - 1))
  }

  lemma {:induction false} ClearBelowAll(x: bv16, p: Pos)
    requires ClearBelow(x, p)
    ensures forall j: Pos :: j < p ==> !Bit(x, j)
    decreases p
  {
    if p != 0 {
      ClearBelowAll(x, p - 1);
    }
  }

  lemma ClearStep(x: bv16, p: Pos)
    requires ClearBelow(x, p) && !Bit(x, p) && p < 15
    ensures ClearBelow(x, p + 1)
  {
  }

  /**
   * One pass of bit_to_pos's loop, stated on d = x >> p: bit p is clear,
   * and the set bit that stops the loop lies further up.
   */
  lemma ShiftStep(x: bv16, p: Pos, d: bv16)
    requires d == x >> p && d != 0 && d & 1 == 0
    ensures p < 15 && d >> 1 == x >> (p + 1) && d >> 1 != 0
    ensures !Bit(x, p)
  {
    ShiftOnce(x, p);
  }

  lemma ShiftOnce(x: bv16, p: Pos)
    requires x >> p != 0 && (x >> p) & 1 == 0
    ensures p < 15 && (x >> p) >> 1 == x >> (p + 1) != 0
    ensures !Bit(x, p)
  {
    if p == 0 {} else if p == 1 {} else if p == 2 {} else if p == 3 {}
    else if p == 4 {} else if p == 5 {} else if p == 6 {} else if p == 7 {}
    else if p == 8 {} else if p == 9 {} else if p == 10 {} else if p == 11 {}
    else if p == 12 {} else if p == 13 {} else if p == 14 {} else {}
  }

  lemma BitHere(x: bv16, p: Pos)
    requires (x >> p) & 1 != 0
    ensures Bit(x, p)
  {
  }

  // ---------------------------------------------------------------------
  // The recalibration window
  // ---------------------------------------------------------------------

  /** pwd_node: a pressed floor (as uint8_t) and the poll count (uint32_t). */
  datatype PwdNode = PwdNode(pwd: byte, time: Count)

  /**
   * The check push_pwd_node evidently intends on the shifted window, with
   * the elapsed time computed without wrap-around: the three older
   * entries are the configured digits and the newest came less than 30
   * polls after the oldest.  The newest entry's floor is not compared.
   */
  predicate Recalibrates(w: seq<PwdNode>, pwd: seq<byte>)
    requires |w| == 4 && |pwd| >= 3
  {
    && w[3].time > w[0].time
    && (w[3].time - w[0].time) * LED_INTERVAL < LED_PWD_CHECK_TIME
    && forall i :: 0 <= i < 3 ==> w[i].pwd == pwd[i]
  }

  /** The same check as written, with the product taken modulo 2^32. */
  predicate RecalibratesAsWritten(w: seq<PwdNode>, pwd: seq<byte>)
    requires |w| == 4 && |pwd| >= 3
  {
    && w[3].time > w[0].time
    && ((w[3].time - w[0].time) * LED_INTERVAL) % UINT32 < LED_PWD_CHECK_TIME
    && forall i :: 0 <= i < 3 ==> w[i].pwd == pwd[i]
  }

  /** The two agree whenever the product fits in 32 bits. */
  lemma WrapFreeAgreement(w: seq<PwdNode>, pwd: seq<byte>)
    requires |w| == 4 && |pwd| >= 3
    requires 0 <= (w[3].time - w[0].time) * LED_INTERVAL < UINT32
    ensures Recalibrates(w, pwd) <==> RecalibratesAsWritten(w, pwd)
  {
  }

  /**
   * As written, the three digits pressed 21474837 polls (about 49.7 days)
   * before the newest entry still trigger recalibration: 21474837 * 200
   * wraps to 104.
   */
  lemma WrappedSpanRecalibrates(pwd: seq<byte>)
    requires |pwd| >= 3
    ensures var w := [PwdNode(pwd[0], 0), PwdNode(pwd[1], 1), PwdNode(pwd[2], 2), PwdNode(0, 21474837)];
      RecalibratesAsWritten(w, pwd) && !Recalibrates(w, pwd)
  {
    assert (21474837 * LED_INTERVAL) % UINT32 == 104;
  }

  /** So push_pwd_node resets the floor counter on that press, about 49.7 days after the digits. */
  lemma WrappedSpanPushResets(m: Mon, cfg: Config)
    requires |m.window| == 4 && |cfg.pwd| >= 3
    requires m.window[1..] == [PwdNode(cfg.pwd[0], 0), PwdNode(cfg.pwd[1], 1), PwdNode(cfg.pwd[2], 2)]
    ensures AfterPush(m, cfg, PwdNode(0, 21474837)).sys == AfterSetFirstFloor(m.sys)
  {
    WrappedSpanRecalibrates(cfg.pwd);
    assert m.window[1..] + [PwdNode(0, 21474837)]
      == [PwdNode(cfg.pwd[0], 0), PwdNode(cfg.pwd[1], 1), PwdNode(cfg.pwd[2], 2), PwdNode(0, 21474837)];
  }

  /**
   * The evidently intended check: the configured floors in the three
   * older entries, and the newest entry less than 30 polls (6 s) after
   * the oldest.
   */
  lemma IntendedWindow(w: seq<PwdNode>, pwd: seq<byte>)
    requires |w| == 4 && |pwd| >= 3
    ensures Recalibrates(w, pwd) <==>
      && 0 < w[3].time - w[0].time < 30
      && w[0].pwd == pwd[0] && w[1].pwd == pwd[1] && w[2].pwd == pwd[2]
  {
  }

  /** The monitor's state: the elevator's, the last snapshot, the window and the poll count. */
  datatype Mon = Mon(sys: Sys, led: bv16, window: seq<PwdNode>, timestamp: Count)

  /** push_pwd_node, with the check as the firmware computes it. */
  function AfterPush(m: Mon, cfg: Config, node: PwdNode): (r: Mon)
    requires |m.window| == 4 && |cfg.pwd| >= 3
    ensures |r.window| == 4
  {
    var w := m.window[1..] + [node];
    m.(window := w, sys := if RecalibratesAsWritten(w, cfg.pwd) then AfterSetFirstFloor(m.sys) else m.sys)
  }

  /**
   * A push shifts the window by one and appends the node.  The floor
   * counter is reset to the first floor exactly when the three entries
   * before the new one are the configured floors, in order, and the new
   * one is later than the oldest of them by less than 6000 ms as the
   * uint32_t product computes it; otherwise the elevator is untouched.
   */
  lemma PushOnlyRecalibrates(m: Mon, cfg: Config, node: PwdNode)
    requires |m.window| == 4 && |cfg.pwd| >= 3
    ensures var r := AfterPush(m, cfg, node);
      && r.window == [m.window[1], m.window[2], m.window[3], node]
      && r.timestamp == m.timestamp && r.led == m.led
      && r.sys == (if && m.window[1].pwd == cfg.pwd[0] && m.window[2].pwd == cfg.pwd[1] && m.window[3].pwd == cfg.pwd[2]
                      && node.time > m.window[1].time
                      && ((node.time - m.window[1].time) * LED_INTERVAL) % UINT32 < LED_PWD_CHECK_TIME
                   then AfterSetFirstFloor(m.sys) else m.sys)
  {
    var w := m.window[1..] + [node];
    assert w[0] == m.window[1] && w[1] == m.window[2] && w[2] == m.window[3] && w[3] == node;
  }

  /**
   * Pressing the three configured floors, in order and at any poll counts,
   * and then any floor less than 30 polls after the first of them, puts the
   * counter on the first floor, whatever the window held before.
   */
  lemma PasswordSetsFirstFloor(m: Mon, cfg: Config, t0: Count, t1: Count, t2: Count, f: byte, dt: int)
    requires |m.window| == 4 && |cfg.pwd| >= 3 && 0 < dt < 30 && t0 + dt < UINT32
    ensures var m4 := AfterPush(AfterPush(AfterPush(AfterPush(m, cfg,
                PwdNode(cfg.pwd[0], t0)), cfg, PwdNode(cfg.pwd[1], t1)), cfg, PwdNode(cfg.pwd[2], t2)), cfg, PwdNode(f, t0 + dt));
      m4.sys.floor == 1
        && m4.window == [PwdNode(cfg.pwd[0], t0), PwdNode(cfg.pwd[1], t1), PwdNode(cfg.pwd[2], t2), PwdNode(f, t0 + dt)]
  {
    var w4 := [PwdNode(cfg.pwd[0], t0), PwdNode(cfg.pwd[1], t1), PwdNode(cfg.pwd[2], t2), PwdNode(f, t0 + dt)];
    WrapFreeAgreement(w4, cfg.pwd);
  }

  // ---------------------------------------------------------------------
  // One poll of vLedMonitor
  // ---------------------------------------------------------------------

  /** The floor a lamp bit stands for, as a char. */
  function FloorOf(env: Env, p: Pos): int
  {
    ToChar(env.keyToFloor(p))
  }

  /** The body of the do-while for changed bit p; `prev` is the snapshot before the poll. */
  function Visit(m: Mon, cfg: Config, env: Env, prev: bv16, p: Pos): (r: Mon)
    requires |m.window| == 4 && |cfg.pwd| >= 3
    ensures |r.window| == 4
  {
    var f := FloorOf(env, p);
    if f == cfg.invalidFloor then m
    else if !Bit(prev, p) then m.(sys := AfterArrived(m.sys, cfg, env, f))
    else AfterPush(m, cfg, PwdNode(ToByte(f), m.timestamp))
  }

  /** The do-while over the changed bits ps, in order. */
  function Walk(m: Mon, cfg: Config, env: Env, prev: bv16, ps: seq<Pos>): (r: Mon)
    requires |m.window| == 4 && |cfg.pwd| >= 3
    ensures |r.window| == 4
    decreases |ps|
  {
    if ps == [] then m else Walk(Visit(m, cfg, env, prev, ps[0]), cfg, env, prev, ps[1..])
  }

  /**
   * The same walk by bit index: bit i of x, when set, is visited before
   * bit i + 1, from bit `from` up to bit 15.
   */
  function WalkBits(m: Mon, cfg: Config, env: Env, prev: bv16, x: bv16, from: bv16): (r: Mon)
    requires |m.window| == 4 && |cfg.pwd| >= 3 && from <= 16
    ensures |r.window| == 4
    decreases 16 - from
  {
    if from == 16 then m
    else WalkBits(if Bit(x, from) then Visit(m, cfg, env, prev, from) else m, cfg, env, prev, x, from + 1)
  }

  /** Walking the bits by index visits the set bits of x lowest first, each once. */
  lemma {:induction false} WalkBitsIsWalk(m: Mon, cfg: Config, env: Env, prev: bv16, x: bv16, from: bv16)
    requires |m.window| == 4 && |cfg.pwd| >= 3 && from <= 16
    ensures WalkBits(m, cfg, env, prev, x, from) == Walk(m, cfg, env, prev, PositionsFrom(x, from))
    decreases 16 - from
  {
    if from < 16 {
      var rest := PositionsFrom(x, from + 1);
      if Bit(x, from) {
        var v := Visit(m, cfg, env, prev, from);
        WalkBitsIsWalk(v, cfg, env, prev, x, from + 1);
        var ps := PositionsFrom(x, from);
        assert ps == [from as Pos] + rest;
        assert ps[0] == from && ps[1..] == rest;
      } else {
        WalkBitsIsWalk(m, cfg, env, prev, x, from + 1);
        assert PositionsFrom(x, from) == rest;
      }
    }
  }

  /** Clear bits are skipped. */
  lemma {:induction false} WalkBitsSkips(m: Mon, cfg: Config, env: Env, prev: bv16, x: bv16, i: bv16, j: bv16)
    requires |m.window| == 4 && |cfg.pwd| >= 3 && i <= j <= 16
    requires forall k: Pos :: i <= k < j ==> !Bit(x, k)
    ensures WalkBits(m, cfg, env, prev, x, i) == WalkBits(m, cfg, env, prev, x, j)
    decreases j - i
  {
    if i < j {
      assert !Bit(x, i as Pos);
      WalkBitsSkips(m, cfg, env, prev, x, i + 1, j);
    }
  }

  /** Only the bits at and above the starting index matter. */
  lemma {:induction false} WalkBitsAbove(m: Mon, cfg: Config, env: Env, prev: bv16, x: bv16, y: bv16, i: bv16)
    requires |m.window| == 4 && |cfg.pwd| >= 3 && i <= 16
    requires forall k: Pos :: i <= k ==> Bit(x, k) == Bit(y, k)
    ensures WalkBits(m, cfg, env, prev, x, i) == WalkBits(m, cfg, env, prev, y, i)
    decreases 16 - i
  {
    if i < 16 {
      assert Bit(x, i as Pos) == Bit(y, i as Pos);
      var m' := if Bit(x, i) then Visit(m, cfg, env, prev, i) else m;
      WalkBitsAbove(m', cfg, env, prev, x, y, i + 1);
    }
  }

  /**
   * One pass of the do-while: walking x is visiting its lowest set bit p
   * and then walking x & (x - 1).
   */
  lemma WalkBitsStep(m: Mon, cfg: Config, env: Env, prev: bv16, x: bv16, p: Pos)
    requires |m.window| == 4 && |cfg.pwd| >= 3
    requires x != 0 && Bit(x & !(x - 1), p)
    ensures WalkBits(m, cfg, env, prev, x, 0) == WalkBits(Visit(m, cfg, env, prev, p), cfg, env, prev, x & (x - 1), 0)
  {
    var y := x & (x - 1);
    forall j: Pos
      ensures (j < p ==> !Bit(x, j) && !Bit(y, j)) && (j > p ==> Bit(y, j) == Bit(x, j))
    {
      MaskFacts(x, p, j);
    }
    MaskFacts(x, p, 0);
    var v := Visit(m, cfg, env, prev, p);
    WalkBitsSkips(m, cfg, env, prev, x, 0, p);
    assert WalkBits(m, cfg, env, prev, x, p) == WalkBits(v, cfg, env, prev, x, p + 1);
    WalkBitsAbove(v, cfg, env, prev, x, y, p + 1);
    WalkBitsSkips(v, cfg, env, prev, y, 0, p + 1);
  }

  /** The do-while of one poll: the walk over the bits where `cur` differs from the snapshot. */
  function PollWalk(m: Mon, cfg: Config, env: Env, cur: bv16): (r: Mon)
    requires |m.window| == 4 && |cfg.pwd| >= 3
    ensures |r.window| == 4
  {
    WalkBits(m, cfg, env, m.led, cur ^ m.led, 0)
  }

  lemma PollWalkIs(m: Mon, cfg: Config, env: Env, cur: bv16, prev: bv16, changed: bv16)
    requires |m.window| == 4 && |cfg.pwd| >= 3
    requires prev == m.led && changed == cur ^ prev
    ensures PollWalk(m, cfg, env, cur) == WalkBits(m, cfg, env, prev, changed, 0)
  {
  }

  /**
   * One iteration of vLedMonitor's loop, reading `cur`.  The firmware
   * skips the walk and the snapshot update when nothing changed; both are
   * no-ops then (PollTakesSnapshot), so they are written unguarded here.
   */
  function AfterPoll(m: Mon, cfg: Config, env: Env, cur: bv16): Mon
    requires |m.window| == 4 && |cfg.pwd| >= 3
  {
    var w := PollWalk(m, cfg, env, cur);
    Mon(w.sys, cur, w.window, Tick(m.timestamp))
  }

  /** Two snapshots differ in no bit exactly when they are equal. */
  lemma XorZero(a: bv16, b: bv16)
    ensures a ^ b == 0 <==> a == b
  {
  }

  lemma XorBit(a: bv16, b: bv16, p: Pos)
    ensures Bit(a ^ b, p) <==> Bit(a, p) != Bit(b, p)
  {
  }

  lemma AndBit(a: bv16, b: bv16, p: Pos)
    ensures Bit(a & b, p) <==> Bit(a, p) && Bit(b, p)
  {
  }

  /** With no difference the walk visits nothing. */
  lemma QuietWalk(m: Mon, cfg: Config, env: Env, cur: bv16)
    requires |m.window| == 4 && |cfg.pwd| >= 3
    requires cur ^ m.led == 0
    ensures cur == m.led && PollWalk(m, cfg, env, cur) == m
  {
    XorZero(cur, m.led);
    WalkBitsSkips(m, cfg, env, m.led, 0, 0, 16);
  }

  /**
   * A poll leaves the snapshot equal to the reading and advances the
   * count by one modulo 2^32; when nothing changed, that is all it does.
   */
  lemma PollTakesSnapshot(m: Mon, cfg: Config, env: Env, cur: bv16)
    requires |m.window| == 4 && |cfg.pwd| >= 3
    ensures AfterPoll(m, cfg, env, cur).led == cur
    ensures AfterPoll(m, cfg, env, cur).timestamp == (m.timestamp + 1) % UINT32
    ensures cur == m.led ==> AfterPoll(m, cfg, env, cur) == m.(timestamp := (m.timestamp + 1) % UINT32)
  {
    TickWraps(m.timestamp);
    if cur == m.led {
      XorZero(cur, m.led);
      QuietWalk(m, cfg, env, cur);
    }
  }

  /**
   * The walk visits exactly the set bits of the difference, each once and
   * lowest first (with XorBit: the lamps whose bit differs between the
   * two snapshots).
   */
  lemma WalkVisitsSetBits(m: Mon, cfg: Config, env: Env, prev: bv16, x: bv16)
    requires |m.window| == 4 && |cfg.pwd| >= 3
    ensures WalkBits(m, cfg, env, prev, x, 0) == Walk(m, cfg, env, prev, Positions(x))
    ensures forall p: Pos :: p in Positions(x) <==> Bit(x, p)
    ensures Ascending(Positions(x))
  {
    WalkBitsIsWalk(m, cfg, env, prev, x, 0);
    PositionsExact(x);
  }

  /**
   * Every entry a walk pushes carries the poll count of that poll, and
   * the walk keeps the snapshot and the count.
   */
  lemma {:induction false} WalkSharesTimestamp(m: Mon, cfg: Config, env: Env, prev: bv16, x: bv16, from: bv16)
    requires |m.window| == 4 && |cfg.pwd| >= 3 && from <= 16
    ensures var r := WalkBits(m, cfg, env, prev, x, from);
      && r.led == m.led && r.timestamp == m.timestamp
      && forall k :: 0 <= k < 4 ==> r.window[k] in m.window || r.window[k].time == m.timestamp
    decreases 16 - from
  {
    if from < 16 {
      var v := if Bit(x, from) then Visit(m, cfg, env, prev, from) else m;
      WalkSharesTimestamp(v, cfg, env, prev, x, from + 1);
      assert forall k :: 0 <= k < 4 ==> v.window[k] in m.window || v.window[k].time == m.timestamp;
    }
  }

  /**
   * When every changed bit was 0 before the poll (is_floor_arrive holds
   * for the whole difference), the changes are arrivals only and the
   * window is left alone.
   */
  lemma {:induction false} ArrivalsLeaveWindow(m: Mon, cfg: Config, env: Env, prev: bv16, x: bv16, from: bv16)
    requires |m.window| == 4 && |cfg.pwd| >= 3 && from <= 16
    requires IsFloorArrive(prev, x)
    ensures WalkBits(m, cfg, env, prev, x, from).window == m.window
    decreases 16 - from
  {
    if from < 16 {
      AndBit(prev, x, from as Pos);
      var v := if Bit(x, from) then Visit(m, cfg, env, prev, from) else m;
      ArrivalsLeaveWindow(v, cfg, env, prev, x, from + 1);
    }
  }

  /**
   * When every changed bit was 1 before the poll, the changes are presses
   * only: nothing is sent, and the elevator state changes at most by the
   * floor being set to 1.
   */
  lemma {:induction false} PressesOnlyRecalibrate(m: Mon, cfg: Config, env: Env, prev: bv16, x: bv16, from: bv16)
    requires |m.window| == 4 && |cfg.pwd| >= 3 && from <= 16
    requires prev & x == x
    ensures var r := WalkBits(m, cfg, env, prev, x, from);
      r.sys == m.sys || r.sys == AfterSetFirstFloor(m.sys)
    decreases 16 - from
  {
    if from < 16 {
      var v := if Bit(x, from) then Visit(m, cfg, env, prev, from) else m;
      assert WalkBits(m, cfg, env, prev, x, from) == WalkBits(v, cfg, env, prev, x, from + 1);
      assert v.sys == m.sys || v.sys == AfterSetFirstFloor(m.sys) by {
        if Bit(x, from) {
          AndBit(prev, x, from as Pos);
          PressVisit(m, cfg, env, prev, from);
        }
      }
      PressesOnlyRecalibrate(v, cfg, env, prev, x, from + 1);
      assert AfterSetFirstFloor(AfterSetFirstFloor(m.sys)) == AfterSetFirstFloor(m.sys);
    }
  }

  /** Visiting a bit that was 1 before (a lamp that was out) changes the elevator state at most by setting the floor to 1. */
  lemma PressVisit(m: Mon, cfg: Config, env: Env, prev: bv16, p: Pos)
    requires |m.window| == 4 && |cfg.pwd| >= 3
    requires Bit(prev, p)
    ensures var r := Visit(m, cfg, env, prev, p);
      r.sys == m.sys || r.sys == AfterSetFirstFloor(m.sys)
  {
  }

  // ---------------------------------------------------------------------
  // vLedWorkMonitor
  // ---------------------------------------------------------------------

  /** The floor vLedWorkMonitor re-calls the car to, if any. */
  function WorkMonitorTarget(s: Sys, cfg: Config, env: Env): Option<int>
  {
    if s.work == WorkRobot && s.checkin != cfg.defaultCheckin then
      var f := ToChar(env.phyToDis(s.checkin));
      if !env.ledOn(f) && f != s.floor then Some(f) else None
    else None
  }

  function AfterWorkMonitor(s: Sys, cfg: Config, env: Env): Sys
  {
    match WorkMonitorTarget(s, cfg, env)
    case None => s
    case Some(f) => AfterGo(s, env, f)
  }

  /**
   * The car is re-called exactly when a robot holds it, its checkin is
   * set, that floor's lamp is out and the car is elsewhere; the call goes
   * to the checkin floor's key and nothing else changes.
   */
  lemma WorkMonitorCalls(s: Sys, cfg: Config, env: Env)
    ensures var f := ToChar(env.phyToDis(s.checkin));
      WorkMonitorTarget(s, cfg, env).Some? <==>
        s.work == WorkRobot && s.checkin != cfg.defaultCheckin && !env.ledOn(f) && f != s.floor
    ensures WorkMonitorTarget(s, cfg, env).None? ==> AfterWorkMonitor(s, cfg, env) == s
    ensures WorkMonitorTarget(s, cfg, env).Some? ==>
      AfterWorkMonitor(s, cfg, env) == s.(floorSlot := Some(env.floorToKey(ToChar(env.phyToDis(s.checkin)))))
  {
  }

  // ---------------------------------------------------------------------
  // The monitor's globals
  // ---------------------------------------------------------------------

  class Monitor {
    /** led_status */
    var led: bv16
    /** The poll counter of vLedMonitor. */
    var timestamp: Count
    /** pwds */
    const window: array<PwdNode>
    const car: Car

    function View(): Mon
      reads this, window, car, car.robot, car.link
    {
      Mon(car.View(), led, window[..], timestamp)
    }

    /** The start of vLedMonitor: the first reading, a zero count and an all-zero window. */
    constructor(car: Car, first: bv16)
      ensures this.car == car && fresh(window)
      ensures led == first && timestamp == 0 && window[..] == [PwdNode(0, 0), PwdNode(0, 0), PwdNode(0, 0), PwdNode(0, 0)]
    {
      this.car := car;
      led := first;
      timestamp := 0;
      window := new PwdNode[4](_ => PwdNode(0, 0));
    }

    method PushPwdNode(node: PwdNode)
      requires window.Length == 4 && |car.cfg.pwd| >= 3
      modifies window, car
      ensures View() == AfterPush(old(View()), car.cfg, node)
    {
      var i := 0;
      while i < 3
        modifies window
        invariant 0 <= i <= 3
        invariant forall k :: 0 <= k < i ==> window[k] == old(window[k + 1])
        invariant forall k :: i <= k < 4 ==> window[k] == old(window[k])
      {
        window[i] := window[i + 1];
        i := i + 1;
      }
      window[3] := node;
      ghost var w := old(window[..])[1..] + [node];
      assert window[..] == w;
      var pwd := car.cfg.pwd;
      if window[3].time > window[0].time {
        // The product is a uint32_t: it is taken modulo 2^32.
        if ((window[3].time - window[0].time) * LED_INTERVAL) % UINT32 < LED_PWD_CHECK_TIME {
          var j := 0;
          while j < 3
            invariant 0 <= j <= 3
            invariant forall k :: 0 <= k < j ==> window[k].pwd == pwd[k]
          {
            if window[j].pwd != pwd[j] {
              assert w[j] == window[j];
              assert !RecalibratesAsWritten(w, pwd);
              return;
            }
            j := j + 1;
          }
          assert forall k :: 0 <= k < 3 ==> w[k] == window[k];
          assert RecalibratesAsWritten(w, pwd);
          car.SetFirstFloor();
          return;
        }
      }
      assert !RecalibratesAsWritten(w, pwd);
    }

    /** The body of vLedMonitor's do-while for the changed bit at pos. */
    method VisitBit(env: Env, low: bv16, pos: Pos)
      requires window.Length == 4 && |car.cfg.pwd| >= 3
      requires low == 1 << pos
      modifies window, car, car.link
      ensures View() == Visit(old(View()), car.cfg, env, led, pos)
    {
      var floor := ToChar(env.keyToFloor(pos));
      if floor != car.cfg.invalidFloor {
        SingleBitArrival(led, pos);
        if IsFloorArrive(led, low) {
          car.Arrived(env, floor);
        } else {
          PushPwdNode(PwdNode(ToByte(floor), timestamp));
        }
      }
    }

    /**
     * One pass of the do-while over the changed bits: the lowest one is
     * visited and cleared; what is left of the walk is unchanged.
     */
    method VisitLowest(env: Env, changed: bv16) returns (rest: bv16)
      requires window.Length == 4 && |car.cfg.pwd| >= 3
      requires changed != 0
      modifies window, car, car.link
      ensures rest == changed & (changed - 1)
      ensures |Positions(rest)| < |Positions(changed)|
      ensures WalkBits(View(), car.cfg, env, led, rest, 0) == WalkBits(old(View()), car.cfg, env, led, changed, 0)
    {
      var low := changed & !(changed - 1);
      var pos := BitToPos(low);
      Split(changed, pos);
      LowestBit(changed, pos);
      WalkBitsStep(View(), car.cfg, env, led, changed, pos);
      VisitBit(env, low, pos);
      rest := changed & (changed - 1);
    }

    method WalkChanges(env: Env, cur: bv16, changed0: bv16)
      requires window.Length == 4 && |car.cfg.pwd| >= 3
      requires changed0 == cur ^ led
      modifies window, car, car.link
      ensures View() == PollWalk(old(View()), car.cfg, env, cur)
    {
      var changed := changed0;
      ghost var goal := WalkBits(View(), car.cfg, env, led, changed, 0);
      PollWalkIs(View(), car.cfg, env, cur, led, changed);
      while changed != 0
        invariant WalkBits(View(), car.cfg, env, led, changed, 0) == goal
        decreases |Positions(changed)|
      {
        changed := VisitLowest(env, changed);
      }
      assert WalkBits(View(), car.cfg, env, led, 0, 0) == View() by {
        WalkBitsSkips(View(), car.cfg, env, led, 0, 0, 16);
      }
    }

    /** One iteration of vLedMonitor's loop, with `cur` the value led_status_get returns. */
    method Poll(env: Env, cur: bv16)
      requires window.Length == 4 && |car.cfg.pwd| >= 3
      modifies this, window, car, car.link
      ensures View() == AfterPoll(old(View()), car.cfg, env, cur)
    {
      ghost var m0 := View();
      var changed := cur ^ led;
      if changed != 0 {
        WalkChanges(env, cur, changed);
        led := cur;
      } else {
        QuietWalk(m0, car.cfg, env, cur);
      }
      ghost var w := PollWalk(m0, car.cfg, env, cur);
      assert View() == Mon(w.sys, cur, w.window, m0.timestamp);
      timestamp := if timestamp == UINT32 - 1 then 0 else timestamp + 1;
    }

    /** One iteration of vLedWorkMonitor's loop. */
    method WorkMonitor(env: Env)
      modifies car
      ensures car.View() == AfterWorkMonitor(old(car.View()), car.cfg, env)
    {
      if car.work == WorkRobot {
        if car.cfg.defaultCheckin != car.robot.checkin {
          var floor := ToChar(env.phyToDis(car.robot.checkin));
          if !env.ledOn(floor) && floor != car.floor {
            car.Go(env, floor);
          }
        }
      }
    }
  }
}
