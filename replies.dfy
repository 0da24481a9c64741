/**
 * The payloads protocol_robot.c sends: command codes, the elev_status
 * byte and the reply builders of the process_elev_* handlers,
 * notify_arrive and notify_busy.
 *
 * Requests carry (ctl, robot, elev, cmd); every payload the controller
 * sends starts with (ctl, elev, robot, cmd).
 */
module Replies {
  import opened Types
  import opened WireCodec
  import opened Board

  const CMD_CHECKIN: byte := 30
  const CMD_CHECKIN_REPLY: byte := 31
  const CMD_INQUIRE: byte := 32
  const CMD_INQUIRE_REPLY: byte := 33
  const CMD_DOOR_OPEN: byte := 34
  const CMD_DOOR_OPEN_REPLY: byte := 35
  const CMD_DOOR_CLOSE: byte := 36
  const CMD_DOOR_CLOSE_REPLY: byte := 37
  const CMD_NOTIFY_ARRIVE: byte := 39
  const CMD_ARRIVE: byte := 40
  const CMD_BT_NAME: byte := 41
  const CMD_BT_NAME_REPLY: byte := 42
  const CMD_APPLY: byte := 50
  const CMD_APPLY_REPLY: byte := 51
  const CMD_RELEASE: byte := 52
  const CMD_RELEASE_REPLY: byte := 53
  const CMD_BUSY: byte := 55

  /** A checkin register holding this value names no floor. */
  const DEFAULT_FLOOR: byte := 0xf7
  const LED_ON := 2
  const LED_OFF := 1
  const DOOR_ON := 1

  // ---------------------------------------------------------------------
  // The elev_status byte
  // ---------------------------------------------------------------------

  /** The bit-fields of elev_status, in declaration order. */
  datatype StatusFields = StatusFields(dir: int, led: int, door: int, reserve: int, state: int)

  predicate FieldsFit(f: StatusFields)
  {
    0 <= f.dir < 4 && 0 <= f.led < 4 && 0 <= f.door < 2 && 0 <= f.reserve < 2 && 0 <= f.state < 4
  }

  /**
   * The byte the union reads back after the fields are written.  Fields
   * are allocated from the least significant bit (GCC on little-endian
   * ARM): dir in bits 0-1, led 2-3, door 4, reserve 5, state 6-7.  A
   * value stored into a field keeps only the field's width.
   */
  function Pack(f: StatusFields): byte
  {
    f.dir % 4 + 4 * (f.led % 4 + 4 * (f.door % 2 + 2 * (f.reserve % 2 + 2 * (f.state % 4))))
  }

  /** Reads the bit-fields out of a status byte, lowest field first. */
  function Unpack(b: byte): (f: StatusFields)
    ensures FieldsFit(f)
  {
    var q1 := b / 4;
    var q2 := q1 / 4;
    var q3 := q2 / 2;
    StatusFields(b % 4, q1 % 4, q2 % 2, q3 % 2, q3 / 2)
  }

  /** Division by a field width of 4, once quotient and remainder are exhibited. */
  lemma DivMod4(a: int, q: int, r: int)
    requires a == 4 * q + r && 0 <= r < 4
    ensures a / 4 == q && a % 4 == r
  {
  }

  /** Division by a field width of 2, once quotient and remainder are exhibited. */
  lemma DivMod2(a: int, q: int, r: int)
    requires a == 2 * q + r && 0 <= r < 2
    ensures a / 2 == q && a % 2 == r
  {
  }

  /** Every field that fits its width reads back unchanged. */
  lemma UnpackPack(f: StatusFields)
    requires FieldsFit(f)
    ensures Unpack(Pack(f)) == f
  {
    var q3 := f.reserve + 2 * f.state;
    var q2 := f.door + 2 * q3;
    var q1 := f.led + 4 * q2;
    DivMod4(f.dir, 0, f.dir);
    DivMod4(f.led, 0, f.led);
    DivMod2(f.door, 0, f.door);
    DivMod2(f.reserve, 0, f.reserve);
    DivMod4(f.state, 0, f.state);
    var b := Pack(f);
    assert b == f.dir + 4 * q1;
    DivMod4(b, q1, f.dir);
    DivMod4(q1, q2, f.led);
    DivMod2(q2, q3, f.door);
    DivMod2(q3, f.state, f.reserve);
  }

  /** Every status byte is the packing of its own fields. */
  lemma PackUnpack(b: byte)
    ensures Pack(Unpack(b)) == b
  {
    var f := Unpack(b);
    var q1 := b / 4;
    var q2 := q1 / 4;
    var q3 := q2 / 2;
    assert b == f.dir + 4 * q1;
    assert q1 == f.led + 4 * q2;
    assert q2 == f.door + 2 * q3;
    assert q3 == f.reserve + 2 * f.state;
    DivMod4(f.dir, 0, f.dir);
    DivMod4(f.led, 0, f.led);
    DivMod2(f.door, 0, f.door);
    DivMod2(f.reserve, 0, f.reserve);
    DivMod4(f.state, 0, f.state);
  }

  /**
   * The led field for a referenced floor: off for DEFAULT_FLOOR, otherwise
   * on exactly when that floor's lamp is lit.
   */
  function LedField(env: Env, ref: byte): (led: int)
    ensures led == LED_ON || led == LED_OFF
    ensures led == LED_ON <==> ref != DEFAULT_FLOOR && env.ledOn(ref)
  {
    if ref == DEFAULT_FLOOR then LED_OFF
    else if env.ledOn(ref) then LED_ON else LED_OFF
  }

  /** elev_status as the handlers fill it: the door bit is always DOOR_ON. */
  function Status(s: Sys, led: int): byte
  {
    Pack(StatusFields(RunCode(s.run), led, DOOR_ON, 0, WorkCode(s.work)))
  }

  /** A status byte reports the run state, the led value, an open door and the work state. */
  lemma StatusReports(s: Sys, led: int)
    requires led == LED_ON || led == LED_OFF
    ensures Unpack(Status(s, led)) == StatusFields(RunCode(s.run), led, DOOR_ON, 0, WorkCode(s.work))
  {
    UnpackPack(StatusFields(RunCode(s.run), led, DOOR_ON, 0, WorkCode(s.work)));
  }

  // ---------------------------------------------------------------------
  // Payload builders
  // ---------------------------------------------------------------------

  /** The reply address order: controller, elevator, robot, command. */
  function Header(cfg: Config, robot: byte, cmd: byte): seq<byte>
  {
    [cfg.idCtl, cfg.idElev, robot, cmd]
  }

  /** process_elev_apply: floor, the requested floor byte, and the status for the led of p[5]. */
  function ApplyReply(s: Sys, cfg: Config, env: Env, p: seq<byte>): seq<byte>
    requires |p| >= 6
  {
    Header(cfg, p[1], CMD_APPLY_REPLY) + [ToByte(s.floor), p[4], Status(s, LedField(env, p[5]))]
  }

  function ReleaseReply(cfg: Config, p: seq<byte>): seq<byte>
    requires |p| >= 6
  {
    Header(cfg, p[1], CMD_RELEASE_REPLY) + [p[4], 0]
  }

  function CheckinReply(cfg: Config, p: seq<byte>): seq<byte>
    requires |p| >= 6
  {
    Header(cfg, p[1], CMD_CHECKIN_REPLY) + [p[4], p[5]]
  }

  function InquireReply(s: Sys, cfg: Config, env: Env, p: seq<byte>): seq<byte>
    requires |p| >= 6
  {
    Header(cfg, p[1], CMD_INQUIRE_REPLY) + [ToByte(s.floor), s.checkin, Status(s, LedField(env, s.checkin))]
  }

  function DoorOpenReply(cfg: Config, p: seq<byte>): seq<byte>
    requires |p| >= 6
  {
    Header(cfg, p[1], CMD_DOOR_OPEN_REPLY)
  }

  function DoorCloseReply(cfg: Config, p: seq<byte>): seq<byte>
    requires |p| >= 6
  {
    Header(cfg, p[1], CMD_DOOR_CLOSE_REPLY)
  }

  /**
   * process_elev_bt_name: the name and its terminating zero.  The command
   * byte is CMD_DOOR_CLOSE_REPLY, as the firmware writes it.
   */
  function BtNameReply(cfg: Config, p: seq<byte>): seq<byte>
    requires |p| >= 6
  {
    Header(cfg, p[1], CMD_DOOR_CLOSE_REPLY) + cfg.btName + [0]
  }

  /** notify_arrive: the led field has no DEFAULT_FLOOR case here. */
  function NotifyArrivePayload(s: Sys, cfg: Config, env: Env, floor: byte): seq<byte>
  {
    Header(cfg, s.robotId, CMD_NOTIFY_ARRIVE)
      + [ToByte(s.floor), Status(s, if env.ledOn(floor) then LED_ON else LED_OFF)]
  }

  /** notify_busy: addressed to the requester, naming the robot that holds the car. */
  function BusyPayload(s: Sys, cfg: Config, env: Env, id: byte): seq<byte>
  {
    Header(cfg, id, CMD_BUSY) + [ToByte(s.floor), s.robotId, Status(s, LedField(env, s.checkin))]
  }

  /**
   * Every reply to a robot addresses the controller, the elevator and the
   * requesting robot in that order, and every fixed-size payload's frame
   * fits the 33-byte buffer, so it is always sent.
   */
  lemma FixedRepliesFit(s: Sys, cfg: Config, env: Env, p: seq<byte>, id: byte, floor: byte)
    requires |p| >= 6
    ensures var r := ApplyReply(s, cfg, env, p); |r| == 7 && r[..4] == Header(cfg, p[1], CMD_APPLY_REPLY) && Fits(r)
    ensures var r := ReleaseReply(cfg, p); |r| == 6 && r[..4] == Header(cfg, p[1], CMD_RELEASE_REPLY) && Fits(r)
    ensures var r := CheckinReply(cfg, p); |r| == 6 && r[..4] == Header(cfg, p[1], CMD_CHECKIN_REPLY) && Fits(r)
    ensures var r := InquireReply(s, cfg, env, p); |r| == 7 && r[..4] == Header(cfg, p[1], CMD_INQUIRE_REPLY) && Fits(r)
    ensures Fits(DoorOpenReply(cfg, p)) && Fits(DoorCloseReply(cfg, p))
    ensures var r := NotifyArrivePayload(s, cfg, env, floor);
      |r| == 6 && r[..4] == Header(cfg, s.robotId, CMD_NOTIFY_ARRIVE) && r[4] == ToByte(s.floor) && Fits(r)
    ensures var r := BusyPayload(s, cfg, env, id);
      |r| == 7 && r[..4] == Header(cfg, id, CMD_BUSY) && r[4] == ToByte(s.floor) && r[5] == s.robotId && Fits(r)
  {
    ShortPayloadFits(ApplyReply(s, cfg, env, p));
    ShortPayloadFits(ReleaseReply(cfg, p));
    ShortPayloadFits(CheckinReply(cfg, p));
    ShortPayloadFits(InquireReply(s, cfg, env, p));
    ShortPayloadFits(DoorOpenReply(cfg, p));
    ShortPayloadFits(DoorCloseReply(cfg, p));
    ShortPayloadFits(NotifyArrivePayload(s, cfg, env, floor));
    ShortPayloadFits(BusyPayload(s, cfg, env, id));
  }

  /**
   * The bluetooth-name reply carries the name verbatim up to its
   * terminating zero, under the door-close reply code, and is sent
   * whenever its escaped form fits the buffer (always for names of at
   * most 9 bytes).
   */
  lemma BtNameReplyShape(cfg: Config, p: seq<byte>)
    requires |p| >= 6 && ValidConfig(cfg)
    ensures var r := BtNameReply(cfg, p);
      && r[3] == CMD_DOOR_CLOSE_REPLY != CMD_BT_NAME_REPLY
      && r[4..|r| - 1] == cfg.btName && r[|r| - 1] == 0
      && (forall k :: 4 <= k < |r| - 1 ==> r[k] != 0)
      && (|cfg.btName| <= 9 ==> Fits(r))
  {
    var r := BtNameReply(cfg, p);
    assert r[4..|r| - 1] == cfg.btName;
    if |cfg.btName| <= 9 { ShortPayloadFits(r); }
  }
}
