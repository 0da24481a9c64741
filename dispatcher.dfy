/**
 * process_robot_data and the process_elev_* handlers of protocol_robot.c:
 * a received frame is checked (head, tail, checksum), unescaped into the
 * 30-byte payload buffer, matched against the handler table, and gated on
 * the controller and elevator addresses, the work mode and the robot that
 * holds the car.
 *
 * The request header is (ctl, robot, elev, cmd) at payload offsets 0-3.
 */
module Dispatcher {
  import opened Types
  import opened WireCodec
  import opened Board
  import opened Replies
  import opened Elevator

  /** The commands of cmd_handles, in table order. */
  const HANDLERS: seq<byte> :=
    [CMD_APPLY, CMD_RELEASE, CMD_CHECKIN, CMD_INQUIRE, CMD_DOOR_OPEN, CMD_DOOR_CLOSE, CMD_ARRIVE, CMD_BT_NAME]

  /**
   * What the gating in process_robot_data decides for a decoded request:
   * nothing at all, a BUSY reply to robot `id`, or the handler of `cmd`;
   * `reset` says whether robot_monitor_reset is called first.
   */
  datatype Action = Ignore | Busy(id: byte, reset: bool) | Handle(cmd: byte, reset: bool)

  function Route(cfg: Config, work: WorkState, robotId: byte, p: seq<byte>): Action
    requires |p| >= 4
  {
    if p[3] !in HANDLERS || p[0] != cfg.idCtl || p[2] != cfg.idElev then Ignore
    else if work == WorkRobot then
      if p[1] != robotId then Busy(p[1], false)
      else if p[3] == CMD_APPLY then Busy(p[1], true)
      else Handle(p[3], true)
    else if p[3] == CMD_APPLY then Handle(p[3], false)
    else Busy(p[1], false)
  }

  /**
   * The gating, case by case: an unknown command or a request for another
   * controller or elevator gets no answer at all; the robot holding the
   * car reaches every handler but APPLY, after a monitor reset; any other
   * robot gets BUSY; an idle car only answers APPLY and sends BUSY for the
   * rest.
   */
  lemma RouteCases(cfg: Config, work: WorkState, robotId: byte, p: seq<byte>)
    requires |p| >= 4
    ensures Route(cfg, work, robotId, p) == Ignore <==>
      p[3] !in HANDLERS || p[0] != cfg.idCtl || p[2] != cfg.idElev
    ensures Route(cfg, work, robotId, p).Handle? <==>
      && Route(cfg, work, robotId, p) != Ignore
      && (if work == WorkRobot then p[1] == robotId && p[3] != CMD_APPLY else p[3] == CMD_APPLY)
    ensures Route(cfg, work, robotId, p).Handle? ==> Route(cfg, work, robotId, p).cmd == p[3]
    ensures Route(cfg, work, robotId, p).Busy? ==> Route(cfg, work, robotId, p).id == p[1]
    ensures Route(cfg, work, robotId, p) != Ignore ==>
      (Route(cfg, work, robotId, p).reset <==> work == WorkRobot && p[1] == robotId)
  {
  }

  // ---------------------------------------------------------------------
  // Handler effects
  // ---------------------------------------------------------------------

  /** send_data of a payload. */
  function Reply(s: Sys, payload: seq<byte>): Sys
  {
    s.(sent := s.sent + Transmitted(payload))
  }

  /** robot_monitor_reset */
  function AfterReset(s: Sys): Sys
  {
    s.(robotCalls := s.robotCalls + [MonitorReset])
  }

  /** process_elev_apply: the reply reports the work state from before the robot takes the car. */
  function AfterApply(s: Sys, cfg: Config, env: Env, p: seq<byte>): Sys
    requires |p| >= 6
  {
    var t := Reply(s, ApplyReply(s, cfg, env, p));
    t.(robotId := p[1], work := WorkRobot, robotCalls := t.robotCalls + [MonitorStart])
  }

  /** process_elev_release */
  function AfterRelease(s: Sys, cfg: Config, env: Env, p: seq<byte>): Sys
    requires |p| >= 6
  {
    var t := AfterHoldOpen(Reply(s, ReleaseReply(cfg, p)), env, false);
    t.(robotId := cfg.idleRobotId, checkin := cfg.defaultCheckin, work := WorkIdle,
       robotCalls := t.robotCalls + [MonitorStop])
  }

  /** process_elev_checkin: only floors 1..total_floor are accepted. */
  function AfterCheckin(s: Sys, cfg: Config, env: Env, p: seq<byte>): Sys
    requires |p| >= 6
  {
    if 0 < p[4] <= cfg.totalFloor then
      AfterGo(Reply(s, CheckinReply(cfg, p)).(checkin := p[4]), env, ToChar(p[4]))
    else s
  }

  function AfterInquire(s: Sys, cfg: Config, env: Env, p: seq<byte>): Sys
    requires |p| >= 6
  {
    Reply(s, InquireReply(s, cfg, env, p))
  }

  function AfterDoorOpen(s: Sys, cfg: Config, env: Env, p: seq<byte>): Sys
    requires |p| >= 6
  {
    AfterHoldOpen(Reply(s, DoorOpenReply(cfg, p)), env, true)
  }

  function AfterDoorClose(s: Sys, cfg: Config, env: Env, p: seq<byte>): Sys
    requires |p| >= 6
  {
    AfterHoldOpen(Reply(s, DoorCloseReply(cfg, p)), env, false)
  }

  /** process_elev_arrive: arrive_cb is arrive_hook once registered, and nothing before. */
  function AfterArriveCmd(s: Sys, hook: bool): Sys
  {
    if hook then AfterArriveHook(s) else s
  }

  function AfterBtName(s: Sys, cfg: Config, p: seq<byte>): Sys
    requires |p| >= 6
  {
    Reply(s, BtNameReply(cfg, p))
  }

  function AfterBusy(s: Sys, cfg: Config, env: Env, id: byte): Sys
  {
    Reply(s, BusyPayload(s, cfg, env, id))
  }

  /** The handler of cmd_handles for a command of the table. */
  function AfterHandler(cmd: byte, s: Sys, cfg: Config, env: Env, hook: bool, p: seq<byte>): Sys
    requires |p| >= 6
  {
    if cmd == CMD_APPLY then AfterApply(s, cfg, env, p)
    else if cmd == CMD_RELEASE then AfterRelease(s, cfg, env, p)
    else if cmd == CMD_CHECKIN then AfterCheckin(s, cfg, env, p)
    else if cmd == CMD_INQUIRE then AfterInquire(s, cfg, env, p)
    else if cmd == CMD_DOOR_OPEN then AfterDoorOpen(s, cfg, env, p)
    else if cmd == CMD_DOOR_CLOSE then AfterDoorClose(s, cfg, env, p)
    else if cmd == CMD_ARRIVE then AfterArriveCmd(s, hook)
    else if cmd == CMD_BT_NAME then AfterBtName(s, cfg, p)
    else s
  }

  /** The routing and the handler for a decoded 30-byte payload buffer. */
  function Execute(s: Sys, cfg: Config, env: Env, hook: bool, p: seq<byte>): Sys
    requires |p| >= 6
  {
    match Route(cfg, s.work, s.robotId, p)
    case Ignore => s
    case Busy(id, reset) => AfterBusy(if reset then AfterReset(s) else s, cfg, env, id)
    case Handle(cmd, reset) => AfterHandler(cmd, if reset then AfterReset(s) else s, cfg, env, hook, p)
  }

  /**
   * The payload buffer the handlers see for an accepted frame: the decoded
   * bytes followed by what the buffer held before, which the routing
   * reads when fewer than 4 bytes were decoded.  A decoded payload longer
   * than the buffer is refused.
   */
  function Received(data: seq<byte>, stale: seq<byte>): Option<seq<byte>>
    requires |stale| == PAYLOAD_BUFFER
  {
    match Decode(data)
    case None => None
    case Some(d) => if |d| <= PAYLOAD_BUFFER then Some(d + stale[|d|..]) else None
  }

  /** process_robot_data: the new state and the returned flag. */
  function Dispatch(s: Sys, cfg: Config, env: Env, hook: bool, data: seq<byte>, stale: seq<byte>): (Sys, bool)
    requires 1 <= |data| && |stale| == PAYLOAD_BUFFER
  {
    if data[0] != HEAD then (s, false)
    else match Received(data, stale)
      case None => (s, true)
      case Some(p) => (Execute(s, cfg, env, hook, p), true)
  }

  // ---------------------------------------------------------------------
  // Properties of the dispatcher
  // ---------------------------------------------------------------------

  /**
   * FALSE is returned only for a wrong head byte; a wrong tail, a wrong
   * checksum or a frame too short to hold the checksum changes nothing and
   * sends nothing.
   */
  lemma BadFramesChangeNothing(s: Sys, cfg: Config, env: Env, hook: bool, data: seq<byte>, stale: seq<byte>)
    requires 1 <= |data| && |stale| == PAYLOAD_BUFFER
    ensures Dispatch(s, cfg, env, hook, data, stale).1 <==> data[0] == HEAD
    ensures data[|data| - 1] != TAIL || !ChecksumOk(data) || |data| < 4 ==>
      Dispatch(s, cfg, env, hook, data, stale).0 == s
  {
  }

  /**
   * Every frame send_data builds from a payload of at most 30 bytes reaches
   * the gating with that payload in front of the stale buffer bytes.
   */
  lemma FramesAreDelivered(s: Sys, cfg: Config, env: Env, hook: bool, p: seq<byte>, stale: seq<byte>)
    requires |p| <= PAYLOAD_BUFFER && Fits(p) && |stale| == PAYLOAD_BUFFER
    ensures Received(Frame(p), stale) == Some(p + stale[|p|..])
    ensures Dispatch(s, cfg, env, hook, Frame(p), stale) == (Execute(s, cfg, env, hook, p + stale[|p|..]), true)
  {
    DecodeFrame(p);
  }

  /** A request for another controller or elevator, or with an unknown command, gets no answer. */
  lemma ForeignRequestsIgnored(s: Sys, cfg: Config, env: Env, hook: bool, p: seq<byte>)
    requires |p| >= 6
    requires p[3] !in HANDLERS || p[0] != cfg.idCtl || p[2] != cfg.idElev
    ensures Execute(s, cfg, env, hook, p) == s
  {
  }

  /**
   * While one robot holds the car, any request from another robot is
   * answered with BUSY naming the holder, and nothing else happens.
   */
  lemma OtherRobotGetsBusy(s: Sys, cfg: Config, env: Env, hook: bool, p: seq<byte>)
    requires |p| >= 6 && p[3] in HANDLERS && p[0] == cfg.idCtl && p[2] == cfg.idElev
    requires s.work == WorkRobot && p[1] != s.robotId
    ensures var r := BusyPayload(s, cfg, env, p[1]);
      && Execute(s, cfg, env, hook, p) == s.(sent := s.sent + [Frame(r)])
      && r[2] == p[1] && r[3] == CMD_BUSY && r[5] == s.robotId
  {
    FixedRepliesFit(s, cfg, env, p, p[1], 0);
  }

  /**
   * An APPLY to an idle car hands it to the requester: the reply still
   * reports the idle state, the work state becomes robot and the
   * occupancy timer starts.
   */
  lemma ApplyTakesIdleCar(s: Sys, cfg: Config, env: Env, hook: bool, p: seq<byte>)
    requires |p| >= 6 && p[3] == CMD_APPLY && p[0] == cfg.idCtl && p[2] == cfg.idElev
    requires s.work == WorkIdle
    ensures var t := Execute(s, cfg, env, hook, p);
      && t.work == WorkRobot && t.robotId == p[1]
      && t.robotCalls == s.robotCalls + [MonitorStart]
      && t.sent == s.sent + [Frame(ApplyReply(s, cfg, env, p))]
      && Unpack(ApplyReply(s, cfg, env, p)[6]).state == WorkCode(WorkIdle)
  {
    var r := ApplyReply(s, cfg, env, p);
    assert Route(cfg, s.work, s.robotId, p) == Handle(CMD_APPLY, false);
    assert Execute(s, cfg, env, hook, p) == AfterApply(s, cfg, env, p);
    ShortPayloadFits(r);
    assert r[6] == Status(s, LedField(env, p[5]));
    StatusReports(s, LedField(env, p[5]));
  }

  /**
   * RELEASE from the holder gives the car back: the hold is dropped, the
   * robot id and checkin return to their reset values and the car is idle.
   */
  lemma ReleaseFreesCar(s: Sys, cfg: Config, env: Env, hook: bool, p: seq<byte>)
    requires |p| >= 6 && p[3] == CMD_RELEASE && p[0] == cfg.idCtl && p[2] == cfg.idElev
    requires s.work == WorkRobot && p[1] == s.robotId && Inv(s)
    ensures var t := Execute(s, cfg, env, hook, p);
      && t.work == WorkIdle && !t.holdDoor && t.holdCnt == 0
      && t.robotId == cfg.idleRobotId && t.checkin == cfg.defaultCheckin
      && t.robotCalls == s.robotCalls + [MonitorReset, MonitorStop]
      && t.sent == s.sent + [Frame(ReleaseReply(cfg, p))]
  {
    FixedRepliesFit(s, cfg, env, p, p[1], 0);
  }

  /**
   * CHECKIN from the holder answers and calls the car exactly when the
   * floor is within 1..total_floor; otherwise it does nothing at all
   * beyond the monitor reset.
   */
  lemma CheckinOnlyInRange(s: Sys, cfg: Config, env: Env, hook: bool, p: seq<byte>)
    requires |p| >= 6 && p[3] == CMD_CHECKIN && p[0] == cfg.idCtl && p[2] == cfg.idElev
    requires s.work == WorkRobot && p[1] == s.robotId
    ensures var t := Execute(s, cfg, env, hook, p);
      if 0 < p[4] <= cfg.totalFloor then
        && t.checkin == p[4] && t.floorSlot == Some(env.floorToKey(ToChar(p[4])))
        && t.sent == s.sent + [Frame(CheckinReply(cfg, p))]
      else t == AfterReset(s)
  {
    FixedRepliesFit(s, cfg, env, p, p[1], 0);
  }

  /** Every request keeps the elevator invariant. */
  lemma ExecuteKeepsInv(s: Sys, cfg: Config, env: Env, hook: bool, p: seq<byte>)
    requires |p| >= 6 && Inv(s)
    ensures Inv(Execute(s, cfg, env, hook, p))
  {
    match Route(cfg, s.work, s.robotId, p)
    case Ignore =>
    case Busy(id, reset) =>
      var r := if reset then AfterReset(s) else s;
      assert Inv(r);
    case Handle(cmd, reset) =>
      var r := if reset then AfterReset(s) else s;
      assert Inv(r);
      HandlerKeepsInv(cmd, r, cfg, env, hook, p);
  }

  lemma HandlerKeepsInv(cmd: byte, s: Sys, cfg: Config, env: Env, hook: bool, p: seq<byte>)
    requires |p| >= 6 && Inv(s)
    ensures Inv(AfterHandler(cmd, s, cfg, env, hook, p))
  {
    if cmd == CMD_APPLY {
      assert Inv(AfterApply(s, cfg, env, p));
    } else if cmd == CMD_RELEASE {
      assert Inv(AfterRelease(s, cfg, env, p));
    } else if cmd == CMD_CHECKIN {
      assert Inv(AfterCheckin(s, cfg, env, p));
    } else if cmd == CMD_INQUIRE {
      assert Inv(AfterInquire(s, cfg, env, p));
    } else if cmd == CMD_DOOR_OPEN {
      assert Inv(AfterDoorOpen(s, cfg, env, p));
    } else if cmd == CMD_DOOR_CLOSE {
      assert Inv(AfterDoorClose(s, cfg, env, p));
    } else if cmd == CMD_ARRIVE {
      assert Inv(AfterArriveCmd(s, hook));
    } else if cmd == CMD_BT_NAME {
      assert Inv(AfterBtName(s, cfg, p));
    }
  }

  // ---------------------------------------------------------------------
  // The firmware's routine
  // ---------------------------------------------------------------------

  class RobotProtocol {
    /** Whether register_arrive_cb has installed arrive_hook. */
    var arriveCb: bool
    const car: Car

    constructor(car: Car)
      ensures this.car == car && !arriveCb
    {
      this.car := car;
      arriveCb := false;
    }

    /** register_arrive_cb(arrive_hook), as elev_init calls it. */
    method RegisterArriveCb()
      modifies this
      ensures arriveCb
    {
      arriveCb := true;
    }

    /** The scan of cmd_handles for a command. */
    static method LookupHandler(cmd: byte) returns (found: bool)
      ensures found <==> cmd in HANDLERS
    {
      var i := 0;
      while i < |HANDLERS|
        invariant 0 <= i <= |HANDLERS|
        invariant cmd !in HANDLERS[..i]
      {
        if HANDLERS[i] == cmd {
          return true;
        }
        assert HANDLERS[..i + 1] == HANDLERS[..i] + [HANDLERS[i]];
        i := i + 1;
      }
      assert HANDLERS[..i] == HANDLERS;
      return false;
    }

    method ProcessRobotData(env: Env, data: seq<byte>, stale: seq<byte>) returns (ok: bool)
      requires 1 <= |data| <= 255 && |stale| == PAYLOAD_BUFFER
      modifies car, car.robot, car.link
      ensures (car.View(), ok) == Dispatch(old(car.View()), car.cfg, env, arriveCb, data, stale)
    {
      if data[0] != HEAD {
        return false;
      }
      ok := true;
      if data[|data| - 1] != TAIL || |data| < 3 {
        // A 2-byte frame fails sum_check whatever it reads: its second
        // digit is the head byte.
        return;
      }
      var good := SumCheck(data);
      if !good {
        return;
      }
      // The first digit cannot be the head byte, so there is a region.
      assert |data| >= 4;
      var decoded, n := UnescapeRegion(data, stale);
      if decoded.None? {
        return;
      }
      var p := decoded.value;
      assert Received(data, stale) == Some(p);
      RouteRequest(env, p);
    }

    /**
     * The routing of process_robot_data for an accepted payload buffer:
     * the handler-table scan, the address check, the holder check with its
     * monitor reset, and the BUSY answers.
     */
    method RouteRequest(env: Env, p: seq<byte>)
      requires |p| >= 6
      modifies car, car.robot, car.link
      ensures car.View() == Execute(old(car.View()), car.cfg, env, arriveCb, p)
    {
      var known := LookupHandler(p[3]);
      if !known {
        return;
      }
      if p[0] == car.cfg.idCtl && p[2] == car.cfg.idElev {
        if car.work == WorkRobot {
          if p[1] == car.robot.id {
            car.robot.calls := car.robot.calls + [MonitorReset];
            if p[3] != CMD_APPLY {
              Invoke(p[3], env, p);
            } else {
              NotifyBusy(env, p[1]);
            }
          } else {
            NotifyBusy(env, p[1]);
          }
        } else {
          if p[3] == CMD_APPLY {
            Invoke(p[3], env, p);
          } else {
            NotifyBusy(env, p[1]);
          }
        }
      }
    }

    /** cmd_handles[i].process */
    method Invoke(cmd: byte, env: Env, p: seq<byte>)
      requires |p| >= 6
      modifies car, car.robot, car.link
      ensures car.View() == AfterHandler(cmd, old(car.View()), car.cfg, env, arriveCb, p)
    {
      if cmd == CMD_APPLY {
        ProcessApply(env, p);
      } else if cmd == CMD_RELEASE {
        ProcessRelease(env, p);
      } else if cmd == CMD_CHECKIN {
        ProcessCheckin(env, p);
      } else if cmd == CMD_INQUIRE {
        ProcessInquire(env, p);
      } else if cmd == CMD_DOOR_OPEN {
        ProcessDoorOpen(env, p);
      } else if cmd == CMD_DOOR_CLOSE {
        ProcessDoorClose(env, p);
      } else if cmd == CMD_ARRIVE {
        ProcessArrive();
      } else if cmd == CMD_BT_NAME {
        ProcessBtName(p);
      }
    }

    method ProcessApply(env: Env, p: seq<byte>)
      requires |p| >= 6
      modifies car, car.robot, car.link
      ensures car.View() == AfterApply(old(car.View()), car.cfg, env, p)
    {
      var led := if p[5] == DEFAULT_FLOOR then LED_OFF else if env.ledOn(p[5]) then LED_ON else LED_OFF;
      var status := Pack(StatusFields(RunCode(car.run), led, DOOR_ON, 0, WorkCode(car.work)));
      var payload := [car.cfg.idCtl, car.cfg.idElev, p[1], CMD_APPLY_REPLY, ToByte(car.floor), p[4], status];
      assert payload == ApplyReply(car.View(), car.cfg, env, p);
      car.link.Send(payload);
      car.robot.id := p[1];
      car.SetStateWork(WorkRobot);
      car.robot.calls := car.robot.calls + [MonitorStart];
    }

    method ProcessRelease(env: Env, p: seq<byte>)
      requires |p| >= 6
      modifies car, car.robot, car.link
      ensures car.View() == AfterRelease(old(car.View()), car.cfg, env, p)
    {
      var payload := [car.cfg.idCtl, car.cfg.idElev, p[1], CMD_RELEASE_REPLY, p[4], 0];
      assert payload == ReleaseReply(car.cfg, p);
      car.link.Send(payload);
      car.HoldOpen(env, false);
      car.robot.id := car.cfg.idleRobotId;
      car.robot.checkin := car.cfg.defaultCheckin;
      car.SetStateWork(WorkIdle);
      car.robot.calls := car.robot.calls + [MonitorStop];
    }

    method ProcessCheckin(env: Env, p: seq<byte>)
      requires |p| >= 6
      modifies car, car.robot, car.link
      ensures car.View() == AfterCheckin(old(car.View()), car.cfg, env, p)
    {
      var floor := p[4];
      if 0 < floor <= car.cfg.totalFloor {
        var payload := [car.cfg.idCtl, car.cfg.idElev, p[1], CMD_CHECKIN_REPLY, p[4], p[5]];
        assert payload == CheckinReply(car.cfg, p);
        car.link.Send(payload);
        car.robot.checkin := floor;
        car.Go(env, ToChar(floor));
      }
    }

    method ProcessInquire(env: Env, p: seq<byte>)
      requires |p| >= 6
      modifies car.link
      ensures car.View() == AfterInquire(old(car.View()), car.cfg, env, p)
    {
      var checkin := car.robot.checkin;
      var led := if checkin == DEFAULT_FLOOR then LED_OFF else if env.ledOn(checkin) then LED_ON else LED_OFF;
      var status := Pack(StatusFields(RunCode(car.run), led, DOOR_ON, 0, WorkCode(car.work)));
      var payload := [car.cfg.idCtl, car.cfg.idElev, p[1], CMD_INQUIRE_REPLY, ToByte(car.floor), checkin, status];
      assert payload == InquireReply(car.View(), car.cfg, env, p);
      car.link.Send(payload);
    }

    method ProcessDoorOpen(env: Env, p: seq<byte>)
      requires |p| >= 6
      modifies car, car.link
      ensures car.View() == AfterDoorOpen(old(car.View()), car.cfg, env, p)
    {
      car.link.Send([car.cfg.idCtl, car.cfg.idElev, p[1], CMD_DOOR_OPEN_REPLY]);
      car.HoldOpen(env, true);
    }

    method ProcessDoorClose(env: Env, p: seq<byte>)
      requires |p| >= 6
      modifies car, car.link
      ensures car.View() == AfterDoorClose(old(car.View()), car.cfg, env, p)
    {
      car.link.Send([car.cfg.idCtl, car.cfg.idElev, p[1], CMD_DOOR_CLOSE_REPLY]);
      car.HoldOpen(env, false);
    }

    method ProcessArrive()
      modifies car
      ensures car.View() == AfterArriveCmd(old(car.View()), arriveCb)
    {
      if arriveCb {
        car.ArriveHook();
      }
    }

    method ProcessBtName(p: seq<byte>)
      requires |p| >= 6
      modifies car.link
      ensures car.View() == AfterBtName(old(car.View()), car.cfg, p)
    {
      var payload := [car.cfg.idCtl, car.cfg.idElev, p[1], CMD_DOOR_CLOSE_REPLY] + car.cfg.btName + [0];
      car.link.Send(payload);
    }

    method NotifyBusy(env: Env, id: byte)
      modifies car.link
      ensures car.View() == AfterBusy(old(car.View()), car.cfg, env, id)
    {
      var checkin := car.robot.checkin;
      var led := if checkin == DEFAULT_FLOOR then LED_OFF else if env.ledOn(checkin) then LED_ON else LED_OFF;
      var status := Pack(StatusFields(RunCode(car.run), led, DOOR_ON, 0, WorkCode(car.work)));
      var payload := [car.cfg.idCtl, car.cfg.idElev, id, CMD_BUSY, ToByte(car.floor), car.robot.id, status];
      assert payload == BusyPayload(car.View(), car.cfg, env, id);
      car.link.Send(payload);
    }
  }
}
