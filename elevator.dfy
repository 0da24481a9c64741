/**
 * The elevator state machine of elevator.c: the floor counter that skips
 * 0, the run direction read back from the hall lamps, the door hold and
 * its one-second tick, the single-slot floor-call and arrival queues, and
 * the arrival-notification retry loop.
 *
 * Each operation is a function from one Sys snapshot to the next; class
 * Car keeps the module's globals as fields and proves each of its methods
 * against the matching function.  Each task body (vElevHold, vElevControl,
 * vElevArrive) is one step; delays and blocking are left to the caller.
 */
module Elevator {
  import opened Types
  import opened WireCodec
  import opened Board
  import opened Replies

  /** err_cnt above this ends the retry loop. */
  const MAX_CHECK_CNT := 5
  /** hold_cnt above this ends a door hold. */
  const HOLD_LIMIT := 15

  // ---------------------------------------------------------------------
  // The floor counter
  // ---------------------------------------------------------------------

  /** elev_cur_floor++ on a char, stepping over 0. */
  function NextUp(f: int): (g: int)
    ensures -128 <= g < 128 && g != 0
  {
    var g := ToChar(f + 1);
    if g == 0 then ToChar(g + 1) else g
  }

  /** elev_cur_floor-- on a char, stepping over 0. */
  function NextDown(f: int): (g: int)
    ensures -128 <= g < 128 && g != 0
  {
    var g := ToChar(f - 1);
    if g == 0 then ToChar(g - 1) else g
  }

  /** Going up checks the up lamp first. */
  function DirAfterUp(env: Env, f: int): RunState
  {
    if env.upLedOn(f) then RunUp else if env.downLedOn(f) then RunDown else RunStop
  }

  /** Going down checks the down lamp first. */
  function DirAfterDown(env: Env, f: int): RunState
  {
    if env.downLedOn(f) then RunDown else if env.upLedOn(f) then RunUp else RunStop
  }

  /** elev_increase */
  function AfterIncrease(s: Sys, env: Env): Sys
  {
    var f := NextUp(s.floor);
    s.(floor := f, run := DirAfterUp(env, f))
  }

  /** elev_decrease */
  function AfterDecrease(s: Sys, env: Env): Sys
  {
    var f := NextDown(s.floor);
    s.(floor := f, run := DirAfterDown(env, f))
  }

  /** elev_set_first_floor: the run state is left alone. */
  function AfterSetFirstFloor(s: Sys): Sys
  {
    s.(floor := 1)
  }

  /** The position of a nonzero char floor on the 255-step ring 1, 2, ..., 127, -128, ..., -1. */
  function RingIndex(f: int): (k: int)
    requires -128 <= f < 128 && f != 0
    ensures 0 <= k < 255
  {
    if f > 0 then f - 1 else f + 255
  }

  /** Moving up or down is one step forward or back on the ring; 0 is never reached. */
  lemma RingStep(f: int)
    requires -128 <= f < 128 && f != 0
    ensures RingIndex(NextUp(f)) == (RingIndex(f) + 1) % 255
    ensures RingIndex(NextDown(f)) == (RingIndex(f) + 254) % 255
  {
  }

  /** elev_decrease undoes elev_increase and the other way round, from every floor. */
  lemma {:induction false} UpDownInverse(f: int)
    requires -128 <= f < 128 && f != 0
    ensures NextDown(NextUp(f)) == f && NextUp(NextDown(f)) == f
  {
    RingStep(f);
    RingStep(NextUp(f));
    RingStep(NextDown(f));
    RingInjective(NextDown(NextUp(f)), f);
    RingInjective(NextUp(NextDown(f)), f);
  }

  lemma RingInjective(f: int, g: int)
    requires -128 <= f < 128 && f != 0 && -128 <= g < 128 && g != 0
    requires RingIndex(f) == RingIndex(g)
    ensures f == g
  {
  }

  /** The floor after n calls of elev_increase. */
  function Climb(f: int, n: nat): (g: int)
    ensures n > 0 ==> -128 <= g < 128 && g != 0
  {
    if n == 0 then f else NextUp(Climb(f, n - 1))
  }

  /**
   * n calls of elev_increase advance n places on the ring, so counting
   * up from the ground floor reaches n + 1 for n < 127, and 255 calls
   * come back to the floor they started from.
   */
  lemma {:induction false} ClimbAdvances(f: int, n: nat)
    requires -128 <= f < 128 && f != 0
    ensures -128 <= Climb(f, n) < 128 && Climb(f, n) != 0
    ensures RingIndex(Climb(f, n)) == (RingIndex(f) + n) % 255
  {
    if n > 0 {
      var g := Climb(f, n - 1);
      var k := RingIndex(f) + n - 1;
      ClimbAdvances(f, n - 1);
      RingStep(g);
      assert RingIndex(Climb(f, n)) == (k % 255 + 1) % 255;
      ModSuccessor(k);
    }
  }

  lemma ModSuccessor(a: nat)
    ensures (a % 255 + 1) % 255 == (a + 1) % 255
  {
    assert a == 255 * (a / 255) + a % 255;
  }

  lemma ClimbFromFirstFloor(n: nat)
    requires n < 127
    ensures Climb(1, n) == n + 1
  {
    ClimbAdvances(1, n);
    RingInjective(Climb(1, n), n + 1);
  }

  lemma ClimbFullCircle(f: int)
    requires -128 <= f < 128 && f != 0
    ensures Climb(f, 255) == f
  {
    ClimbAdvances(f, 255);
    RingInjective(Climb(f, 255), f);
  }

  // ---------------------------------------------------------------------
  // Door hold
  // ---------------------------------------------------------------------

  /** elev_hold_open */
  function AfterHoldOpen(s: Sys, env: Env, flag: bool): Sys
  {
    if flag then
      if env.switchArrive then s.(holdCnt := 0, holdDoor := true, keys := s.keys + [Press(env.openKey)])
      else s
    else if s.holdDoor then s.(holdDoor := false, holdCnt := 0, keys := s.keys + [Release(env.openKey)])
    else s
  }

  /** One pass of vElevHold (a uint8_t counter). */
  function AfterHoldTick(s: Sys, env: Env): Sys
  {
    if !s.holdDoor then s
    else
      var cnt := (s.holdCnt + 1) % 256;
      if cnt > HOLD_LIMIT then s.(holdDoor := false, holdCnt := 0, keys := s.keys + [Release(env.openKey)])
      else s.(holdCnt := cnt)
  }

  /** k passes of vElevHold. */
  function Ticks(s: Sys, env: Env, k: nat): Sys
  {
    if k == 0 then s else AfterHoldTick(Ticks(s, env, k - 1), env)
  }

  /**
   * A hold opened while the car is at a landing stays open for 15 ticks,
   * counting them, and the 16th tick releases the open key.  Nothing but
   * the door hold changes meanwhile.
   */
  lemma {:induction false} HoldCountsTicks(s: Sys, env: Env, k: nat)
    requires env.switchArrive && k <= HOLD_LIMIT
    ensures var o := AfterHoldOpen(s, env, true);
      Ticks(o, env, k) == o.(holdCnt := k)
  {
    if k > 0 {
      HoldCountsTicks(s, env, k - 1);
    }
  }

  lemma HoldReleasesOnSixteenthTick(s: Sys, env: Env)
    requires env.switchArrive
    ensures var o := AfterHoldOpen(s, env, true);
      && o.holdDoor && o.keys == s.keys + [Press(env.openKey)]
      && Ticks(o, env, HOLD_LIMIT + 1) == o.(holdDoor := false, holdCnt := 0, keys := o.keys + [Release(env.openKey)])
  {
    HoldCountsTicks(s, env, HOLD_LIMIT);
  }

  /** Without the arrival switch, or when nothing is held, elev_hold_open changes nothing. */
  lemma HoldOpenNoEffect(s: Sys, env: Env, flag: bool)
    ensures AfterHoldOpen(s, env, flag) == s <==> (if flag then !env.switchArrive else !s.holdDoor)
  {
    if flag && env.switchArrive {
      assert |AfterHoldOpen(s, env, flag).keys| == |s.keys| + 1;
    }
    if !flag && s.holdDoor {
      assert |AfterHoldOpen(s, env, flag).keys| == |s.keys| + 1;
    }
  }

  // ---------------------------------------------------------------------
  // The floor-call slot
  // ---------------------------------------------------------------------

  /** elev_go: xQueueOverwrite on the one-entry floor queue. */
  function AfterGo(s: Sys, env: Env, f: int): Sys
  {
    s.(floorSlot := Some(env.floorToKey(f)))
  }

  /** One pass of vElevControl: a queued key is pressed, then released. */
  function AfterControl(s: Sys): Sys
  {
    match s.floorSlot
    case None => s
    case Some(k) => s.(floorSlot := None, keys := s.keys + [Press(k), Release(k)])
  }

  /**
   * The latest call wins: after several elev_go calls the control task
   * presses and releases exactly the key of the last floor asked for.
   */
  lemma LatestCallWins(s: Sys, env: Env, f: int, g: int)
    ensures AfterGo(AfterGo(s, env, f), env, g) == AfterGo(s, env, g)
    ensures var t := AfterControl(AfterGo(AfterGo(s, env, f), env, g));
      t.keys == s.keys + [Press(env.floorToKey(g)), Release(env.floorToKey(g))] && t.floorSlot == None
  {
  }

  // ---------------------------------------------------------------------
  // Arrival notification
  // ---------------------------------------------------------------------

  /** The gate of elev_arrived. */
  predicate ArrivalCounts(s: Sys, env: Env, f: int)
  {
    s.work == WorkRobot && env.robotIsCheckin(env.disToPhy(f)) && s.floor == f
  }

  /** The frames one notify_arrive call for floor f puts on the wire. */
  function NotifyFrames(s: Sys, cfg: Config, env: Env, f: int): seq<seq<byte>>
  {
    Transmitted(NotifyArrivePayload(s, cfg, env, ToByte(f)))
  }

  /** elev_arrived */
  function AfterArrived(s: Sys, cfg: Config, env: Env, f: int): Sys
  {
    if ArrivalCounts(s, env, f) then
      s.(sent := s.sent + NotifyFrames(s, cfg, env, f), arriveSlot := Some(f))
    else s
  }

  /** Whether the j-th xSemaphoreTake of a retry round succeeds: a give left over, or an ack in its 500 ms. */
  predicate Taken(sem: bool, acks: seq<bool>, j: nat)
  {
    (j == 0 && sem) || (j < |acks| && acks[j])
  }

  /** The number of re-notifications sent while the j-th take and the ones after it are attempted. */
  function ResendsFrom(sem: bool, acks: seq<bool>, j: nat): nat
    decreases MAX_CHECK_CNT - j
  {
    if j >= MAX_CHECK_CNT || Taken(sem, acks, j) then j else ResendsFrom(sem, acks, j + 1)
  }

  /** Re-notifications in one round of vElevArrive. */
  function Resends(sem: bool, acks: seq<bool>): nat
  {
    ResendsFrom(sem, acks, 0)
  }

  function Repeat(frames: seq<seq<byte>>, n: nat): seq<seq<byte>>
  {
    if n == 0 then [] else Repeat(frames, n - 1) + frames
  }

  /**
   * One round of vElevArrive: the arrival queued by elev_arrived is taken
   * and notify_arrive is repeated once per timed-out take, at most
   * MAX_CHECK_CNT times, stopping at the first acknowledgement.  `acks`
   * says, for each 500 ms wait, whether an ARRIVE from the robot gave the
   * semaphore during it.
   */
  function AfterArriveRound(s: Sys, cfg: Config, env: Env, acks: seq<bool>): Sys
  {
    match s.arriveSlot
    case None => s
    case Some(f) => Retrying(s, NotifyFrames(s, cfg, env, f), false, Resends(s.sem, acks))
  }

  /** The state inside a round of vElevArrive that started in s, after n re-notifications. */
  function Retrying(s: Sys, frames: seq<seq<byte>>, sem: bool, n: nat): Sys
  {
    s.(arriveSlot := None, sem := sem, sent := s.sent + Repeat(frames, n))
  }

  /** arrive_hook: gives the binary semaphore. */
  function AfterArriveHook(s: Sys): Sys
  {
    s.(sem := true)
  }

  /**
   * The retry count is the number of takes that time out before the first
   * one that succeeds, capped at MAX_CHECK_CNT.
   */
  lemma {:induction false} ResendsFromCounts(sem: bool, acks: seq<bool>, j: nat, k: nat)
    requires j <= k <= MAX_CHECK_CNT
    requires forall i :: j <= i < k ==> !Taken(sem, acks, i)
    requires k == MAX_CHECK_CNT || Taken(sem, acks, k)
    ensures ResendsFrom(sem, acks, j) == k
    decreases k - j
  {
    if j < k {
      ResendsFromCounts(sem, acks, j + 1, k);
    }
  }

  lemma ResendsBound(sem: bool, acks: seq<bool>)
    ensures Resends(sem, acks) <= MAX_CHECK_CNT
    ensures sem ==> Resends(sem, acks) == 0
  {
    var k := FirstTaken(sem, acks, 0);
    ResendsFromCounts(sem, acks, 0, k);
  }

  /** The index of the first successful take at or after j, or MAX_CHECK_CNT. */
  function FirstTaken(sem: bool, acks: seq<bool>, j: nat): (k: nat)
    requires j <= MAX_CHECK_CNT
    ensures j <= k <= MAX_CHECK_CNT
    ensures forall i :: j <= i < k ==> !Taken(sem, acks, i)
    ensures k == MAX_CHECK_CNT || Taken(sem, acks, k)
    decreases MAX_CHECK_CNT - j
  {
    if j == MAX_CHECK_CNT || Taken(sem, acks, j) then j else FirstTaken(sem, acks, j + 1)
  }

  lemma {:induction false} RepeatShift(frames: seq<seq<byte>>, n: nat)
    ensures frames + Repeat(frames, n) == Repeat(frames, n + 1)
  {
    if n > 0 {
      RepeatShift(frames, n - 1);
    }
  }

  lemma {:induction false} RepeatLength(frames: seq<seq<byte>>, n: nat)
    ensures |Repeat(frames, n)| == n * |frames|
  {
    if n > 0 {
      RepeatLength(frames, n - 1);
    }
  }

  /**
   * An arrival the robot never acknowledges is announced six times: once
   * by elev_arrived and five more times by the retry loop.  An
   * acknowledgement during the k-th wait (k < 5) stops it after k more.
   */
  lemma UnacknowledgedArrivalSentSixTimes(s: Sys, cfg: Config, env: Env, f: int, acks: seq<bool>)
    requires ArrivalCounts(s, env, f) && !s.sem
    requires forall i :: 0 <= i < |acks| ==> !acks[i]
    ensures var t := AfterArriveRound(AfterArrived(s, cfg, env, f), cfg, env, acks);
      t.sent == s.sent + Repeat(NotifyFrames(s, cfg, env, f), 6) && t.arriveSlot == None
    ensures |NotifyFrames(s, cfg, env, f)| == 1
  {
    var a := AfterArrived(s, cfg, env, f);
    assert NotifyFrames(a, cfg, env, f) == NotifyFrames(s, cfg, env, f);
    ResendsFromCounts(false, acks, 0, MAX_CHECK_CNT);
    RepeatShift(NotifyFrames(s, cfg, env, f), MAX_CHECK_CNT);
    ShortPayloadFits(NotifyArrivePayload(s, cfg, env, ToByte(f)));
  }

  lemma AcknowledgedArrivalStops(s: Sys, cfg: Config, env: Env, acks: seq<bool>, k: nat)
    requires s.arriveSlot.Some? && !s.sem
    requires k < |acks| && k <= MAX_CHECK_CNT && acks[k]
    requires forall i :: 0 <= i < k ==> !acks[i]
    ensures AfterArriveRound(s, cfg, env, acks).sent
      == s.sent + Repeat(NotifyFrames(s, cfg, env, s.arriveSlot.value), k)
  {
    ResendsFromCounts(false, acks, 0, k);
  }

  /**
   * elev_arrived acts exactly when the car is in robot mode, the floor is
   * the robot's checkin floor and the car is at it; it then sends one
   * notification and queues the floor for the retry task.
   */
  lemma ArrivedActsIffGate(s: Sys, cfg: Config, env: Env, f: int)
    ensures AfterArrived(s, cfg, env, f) != s <==> ArrivalCounts(s, env, f)
    ensures ArrivalCounts(s, env, f) ==>
      |AfterArrived(s, cfg, env, f).sent| == |s.sent| + 1 && AfterArrived(s, cfg, env, f).arriveSlot == Some(f)
  {
    FixedRepliesFit(s, cfg, env, [0, 0, 0, 0, 0, 0], 0, ToByte(f));
  }

  /** Every step of the elevator module keeps Inv. */
  lemma StepsKeepInv(s: Sys, cfg: Config, env: Env, f: int, flag: bool, acks: seq<bool>)
    requires Inv(s)
    ensures Inv(AfterIncrease(s, env)) && Inv(AfterDecrease(s, env)) && Inv(AfterSetFirstFloor(s))
    ensures Inv(AfterHoldOpen(s, env, flag)) && Inv(AfterHoldTick(s, env))
    ensures Inv(AfterGo(s, env, f)) && Inv(AfterControl(s))
    ensures Inv(AfterArrived(s, cfg, env, f)) && Inv(AfterArriveRound(s, cfg, env, acks)) && Inv(AfterArriveHook(s))
  {
  }

  // ---------------------------------------------------------------------
  // The module's globals
  // ---------------------------------------------------------------------

  class Car {
    var floor: int
    var run: RunState
    var work: WorkState
    var holdDoor: bool
    var holdCnt: int
    var floorSlot: Option<byte>
    var arriveSlot: Option<int>
    var sem: bool
    var keys: seq<KeyEvent>
    const robot: Robot
    const link: Link
    const cfg: Config

    function View(): Sys
      reads this, robot, link
    {
      Sys(floor, run, work, holdDoor, holdCnt, floorSlot, arriveSlot, sem, keys,
          robot.id, robot.checkin, robot.calls, link.sent)
    }

    /** elev_init: the initial values of the globals and empty queues. */
    constructor(robot: Robot, link: Link, cfg: Config)
      ensures this.robot == robot && this.link == link && this.cfg == cfg
      ensures View() == Sys(1, RunStop, WorkIdle, false, 0, None, None, false, [],
                            robot.id, robot.checkin, robot.calls, link.sent)
      ensures Inv(View())
    {
      this.robot := robot;
      this.link := link;
      this.cfg := cfg;
      floor := 1;
      run := RunStop;
      work := WorkIdle;
      holdDoor := false;
      holdCnt := 0;
      floorSlot := None;
      arriveSlot := None;
      sem := false;
      keys := [];
    }

    method Increase(env: Env)
      modifies this
      ensures View() == AfterIncrease(old(View()), env)
    {
      floor := ToChar(floor + 1);
      if floor == 0 {
        floor := ToChar(floor + 1);
      }
      if env.upLedOn(floor) {
        run := RunUp;
      } else if env.downLedOn(floor) {
        run := RunDown;
      } else {
        run := RunStop;
      }
    }

    method Decrease(env: Env)
      modifies this
      ensures View() == AfterDecrease(old(View()), env)
    {
      floor := ToChar(floor - 1);
      if floor == 0 {
        floor := ToChar(floor - 1);
      }
      if env.downLedOn(floor) {
        run := RunDown;
      } else if env.upLedOn(floor) {
        run := RunUp;
      } else {
        run := RunStop;
      }
    }

    method SetFirstFloor()
      modifies this
      ensures View() == AfterSetFirstFloor(old(View()))
    {
      floor := 1;
    }

    method HoldOpen(env: Env, flag: bool)
      modifies this
      ensures View() == AfterHoldOpen(old(View()), env, flag)
    {
      var key := env.openKey;
      if flag {
        if env.switchArrive {
          holdCnt := 0;
          holdDoor := true;
          keys := keys + [Press(key)];
        }
      } else {
        if holdDoor {
          holdDoor := false;
          holdCnt := 0;
          keys := keys + [Release(key)];
        }
      }
    }

    /** The body of vElevHold's loop. */
    method HoldTick(env: Env)
      modifies this
      ensures View() == AfterHoldTick(old(View()), env)
    {
      if holdDoor {
        holdCnt := (holdCnt + 1) % 256;
        if holdCnt > HOLD_LIMIT {
          holdDoor := false;
          holdCnt := 0;
          keys := keys + [Release(env.openKey)];
        }
      }
    }

    /** The body of vElevControl's loop, when the queue holds a key. */
    method Control()
      modifies this
      ensures View() == AfterControl(old(View()))
    {
      if floorSlot.Some? {
        var key := floorSlot.value;
        floorSlot := None;
        keys := keys + [Press(key)];
        keys := keys + [Release(key)];
      }
    }

    method Go(env: Env, f: int)
      modifies this
      ensures View() == AfterGo(old(View()), env, f)
    {
      var key := env.floorToKey(f);
      floorSlot := Some(key);
    }

    /** notify_arrive, built from the current state and sent. */
    method NotifyArrive(env: Env, f: byte)
      modifies link
      ensures View() == old(View()).(sent := old(link.sent) + Transmitted(NotifyArrivePayload(old(View()), cfg, env, f)))
    {
      var led := if env.ledOn(f) then LED_ON else LED_OFF;
      var status := Pack(StatusFields(RunCode(run), led, DOOR_ON, 0, WorkCode(work)));
      var payload := [cfg.idCtl, cfg.idElev, robot.id, CMD_NOTIFY_ARRIVE, ToByte(floor), status];
      assert payload == NotifyArrivePayload(View(), cfg, env, f);
      link.Send(payload);
    }

    method Arrived(env: Env, f: int)
      modifies this, link
      ensures View() == AfterArrived(old(View()), cfg, env, f)
    {
      if work == WorkRobot {
        if env.robotIsCheckin(env.disToPhy(f)) {
          if floor == f {
            NotifyArrive(env, ToByte(f));
            arriveSlot := Some(f);
          }
        }
      }
    }

    /** xSemaphoreTake on the j-th attempt of a round. */
    method TakeSemaphore(acks: seq<bool>, j: nat) returns (took: bool)
      modifies this
      ensures took == (old(sem) || (j < |acks| && acks[j]))
      ensures View() == old(View()).(sem := false)
    {
      if sem {
        sem := false;
        took := true;
      } else {
        took := j < |acks| && acks[j];
      }
    }

    /** One round of vElevArrive's loop. */
    method ArriveRound(env: Env, acks: seq<bool>)
      modifies this, link
      ensures View() == AfterArriveRound(old(View()), cfg, env, acks)
    {
      if arriveSlot.None? {
        return;
      }
      ghost var s0 := View();
      var f := arriveSlot.value;
      arriveSlot := None;
      ghost var frames := NotifyFrames(s0, cfg, env, f);
      var errCnt := 0;
      while true
        invariant 0 <= errCnt <= MAX_CHECK_CNT
        invariant ResendsFrom(s0.sem, acks, errCnt) == Resends(s0.sem, acks)
        invariant sem == (s0.sem && errCnt == 0)
        invariant View() == Retrying(s0, frames, sem, errCnt)
        decreases MAX_CHECK_CNT - errCnt
      {
        var stop := RetryStep(env, acks, f, s0, errCnt);
        if stop {
          break;
        }
        errCnt := errCnt + 1;
      }
    }

    /**
     * One pass of vElevArrive's retry loop: a take that succeeds, or a
     * timed-out take past MAX_CHECK_CNT, ends the round; any other
     * timed-out take sends notify_arrive again.
     */
    method RetryStep(env: Env, acks: seq<bool>, f: int, ghost s0: Sys, errCnt: nat) returns (stop: bool)
      requires errCnt <= MAX_CHECK_CNT && sem == (s0.sem && errCnt == 0)
      requires View() == Retrying(s0, NotifyFrames(s0, cfg, env, f), sem, errCnt)
      modifies this, link
      ensures stop ==> (ResendsFrom(s0.sem, acks, errCnt) == errCnt
        && View() == Retrying(s0, NotifyFrames(s0, cfg, env, f), false, errCnt))
      ensures !stop ==> (errCnt < MAX_CHECK_CNT
        && ResendsFrom(s0.sem, acks, errCnt) == ResendsFrom(s0.sem, acks, errCnt + 1)
        && View() == Retrying(s0, NotifyFrames(s0, cfg, env, f), false, errCnt + 1))
    {
      var took := TakeSemaphore(acks, errCnt);
      assert took == Taken(s0.sem, acks, errCnt);
      assert View() == Retrying(s0, NotifyFrames(s0, cfg, env, f), false, errCnt);
      if took || errCnt + 1 > MAX_CHECK_CNT {
        return true;
      }
      NotifyAgain(env, f, s0, errCnt);
      return false;
    }

    /** One timed-out take in vElevArrive: notify_arrive is sent again for the queued floor. */
    method NotifyAgain(env: Env, f: int, ghost s0: Sys, ghost n: nat)
      requires View() == Retrying(s0, NotifyFrames(s0, cfg, env, f), false, n)
      modifies link
      ensures View() == Retrying(s0, NotifyFrames(s0, cfg, env, f), false, n + 1)
    {
      assert NotifyArrivePayload(View(), cfg, env, ToByte(f)) == NotifyArrivePayload(s0, cfg, env, ToByte(f));
      NotifyArrive(env, ToByte(f));
    }

    method ArriveHook()
      modifies this
      ensures View() == AfterArriveHook(old(View()))
    {
      sem := true;
    }

    /** elevator_set_state_work */
    method SetStateWork(w: WorkState)
      modifies this
      ensures View() == old(View()).(work := w)
    {
      work := w;
    }
  }
}
