/**
 * Types shared by the elevator-call firmware model: fixed-width integers,
 * the elevator's enumerations, the configuration read from the parameter
 * store, and the external lookups (LED lamps, key maps, the arrival
 * switch) that the core consults but does not own.
 */
module Types {

  /** uint8_t */
  type byte = x: int | 0 <= x < 256

  /** A bit position inside a 16-bit LED snapshot (what bit_to_pos returns). */
  type Pos = p: bv16 | p < 16

  datatype Option<T> = None | Some(value: T)

  /** elev_run_state; its code is the 2-bit direction field of the status byte. */
  datatype RunState = RunStop | RunUp | RunDown

  /** elev_work_state; its code is the 2-bit work-mode field of the status byte. */
  datatype WorkState = WorkIdle | WorkRobot

  /** Enumerators are numbered in declaration order, as C does. */
  function RunCode(r: RunState): (c: int)
    ensures 0 <= c < 3
    ensures r == RunStop <==> c == 0
  {
    match r
    case RunStop => 0
    case RunUp => 1
    case RunDown => 2
  }

  function WorkCode(w: WorkState): (c: int)
    ensures 0 <= c < 2
    ensures w == WorkRobot <==> c == 1
  {
    match w
    case WorkIdle => 0
    case WorkRobot => 1
  }

  /**
   * Conversion of an integer to a signed char, wrapping modulo 256.  The
   * firmware treats its char floors as signed (it steps over 0 into
   * negative floors); the bytes put on the wire are the same either way.
   */
  function ToChar(x: int): (c: int)
    ensures -128 <= c < 128
    ensures (c - x) % 256 == 0
    ensures -128 <= x < 128 ==> c == x
  {
    (x + 128) % 256 - 128
  }

  /** Conversion of an integer (a char floor, say) to uint8_t. */
  function ToByte(x: int): (b: byte)
    ensures (b - x) % 256 == 0
    ensures 0 <= x < 256 ==> b == x
  {
    x % 256
  }

  /** A relay action: keyctl_press / keyctl_release on a key number. */
  datatype KeyEvent = Press(key: byte) | Release(key: byte)

  /** Calls into the robot occupancy timer (robot_monitor_start/stop/reset). */
  datatype RobotCall = MonitorStart | MonitorStop | MonitorReset

  /**
   * Configuration owned by the parameter store: controller and elevator
   * addresses, floor count, the recalibration digits (led_pwd), the
   * bluetooth name, and the values robot_id_reset / robot_checkin_reset
   * store (DEFAULT_CHECKIN), plus keymap's INVALID_FLOOR.
   */
  datatype Config = Config(
    idCtl: byte,
    idElev: byte,
    totalFloor: byte,
    pwd: seq<byte>,
    btName: seq<byte>,
    idleRobotId: byte,
    defaultCheckin: byte,
    invalidFloor: int)

  /** led_pwd holds at least the three digits compared; bt_name is a C string. */
  predicate ValidConfig(c: Config)
  {
    && |c.pwd| >= 3
    && forall k :: 0 <= k < |c.btName| ==> c.btName[k] != 0
  }

  /**
   * External lookups, as they answer during one step: is_led_on,
   * is_up_led_on, is_down_led_on, keymap_floor_to_key, keymap_key_to_floor,
   * keymap_open, floormap_dis_to_phy, floormap_phy_to_dis,
   * switch_get_status() == switch_arrive, and robot_is_checkin.
   */
  datatype Env = Env(
    ledOn: int -> bool,
    upLedOn: int -> bool,
    downLedOn: int -> bool,
    floorToKey: int -> byte,
    keyToFloor: Pos -> int,
    openKey: byte,
    disToPhy: int -> int,
    phyToDis: int -> int,
    switchArrive: bool,
    robotIsCheckin: int -> bool)
}
