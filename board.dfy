/**
 * The state the three core files share.  elevator.c owns the floor, the
 * run and work states, the door hold and the two single-slot queues; the
 * robot registers (robot_id_*, robot_checkin_*, robot_monitor_*) live in
 * robot.c, which is not part of this model and is reduced here to plain
 * storage plus a log of monitor calls; frames handed to the transport are
 * appended to a log.
 */
module Board {
  import opened Types
  import opened WireCodec

  /** A snapshot of everything a step of the firmware reads or writes. */
  datatype Sys = Sys(
    floor: int,                 // elev_cur_floor (a char)
    run: RunState,              // run_state
    work: WorkState,            // work_state
    holdDoor: bool,             // hold_door
    holdCnt: int,               // hold_cnt
    floorSlot: Option<byte>,    // xQueueFloor, length 1
    arriveSlot: Option<int>,    // xArriveQueue, length 1 (a char floor)
    sem: bool,                  // xNotifySemaphore, binary
    keys: seq<KeyEvent>,        // keyctl_press / keyctl_release calls, in order
    robotId: byte,              // robot_id_get()
    checkin: byte,              // robot_checkin_get() and robot_checkin_cur()
    robotCalls: seq<RobotCall>, // robot_monitor_start/stop/reset calls, in order
    sent: seq<seq<byte>>)       // frames handed to the transport, in order

  /**
   * What the elevator module keeps true: the floor is a char and never 0,
   * and the hold counter is 0 when no hold is active and at most 15
   * between ticks.
   */
  predicate Inv(s: Sys)
  {
    && -128 <= s.floor < 128
    && s.floor != 0
    && 0 <= s.holdCnt <= 15
    && (!s.holdDoor ==> s.holdCnt == 0)
  }

  /** The robot registers of robot.c. */
  class Robot {
    var id: byte
    var checkin: byte
    var calls: seq<RobotCall>

    constructor(id0: byte, checkin0: byte)
      ensures id == id0 && checkin == checkin0 && calls == []
    {
      id := id0;
      checkin := checkin0;
      calls := [];
    }
  }

  /** The transport (bluetooth or wired) as seen from send_data. */
  class Link {
    var sent: seq<seq<byte>>

    constructor()
      ensures sent == []
    {
      sent := [];
    }

    /** send_data followed by bt_send_data / ptl_send_data. */
    method Send(payload: seq<byte>)
      modifies this
      ensures sent == old(sent) + Transmitted(payload)
    {
      var frame := SendData(payload);
      if frame.Some? {
        sent := sent + [frame.value];
      }
    }
  }
}
