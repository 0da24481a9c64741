# Elevator call controller: robot protocol, car control and lamp monitor

This project models the three core modules of the jupiter elevator-call board in Dafny.

- `board/protocol_robot.c` is the robot wire protocol. A payload is sent as HEAD (0x02), the payload with HEAD, TAIL and CONVERT (0x04) escaped as two-byte pairs, two ASCII checksum digits, and TAIL (0x03). A received frame is checked and unescaped into a 30-byte buffer. It is then routed by controller, elevator and robot address to one of eight handlers (APPLY, RELEASE, CHECKIN, INQUIRE, DOOR_OPEN, DOOR_CLOSE, ARRIVE, BT_NAME), or answered with BUSY.
- `board/elevator.c` is the car's state:
  - the char floor counter, which steps over 0 and wraps like a char;
  - the run direction and the work mode (idle, or held by a robot);
  - the door hold, released by a timer task on its sixteenth tick;
  - the one-slot floor-call queue that the control task turns into a key press and release;
  - arrival notification. `elev_arrived` sends NOTIFY_ARRIVE once, and the arrive task re-sends it after each 500 ms wait without an ARRIVE acknowledgement, at most five times.
- `board/led_monitor.c` is the lamp monitor. Every poll XORs the 16-bit lamp snapshot with the previous one and walks the changed bits lowest first. The lamp lines are read active-low, so a raw bit of 0 is a lit lamp; this is how the firmware's "1->0 means arrive" fits its test `0 == (origin & new)`:
  - a bit that was 0 before (a lamp going out) reports an arrival;
  - a bit that was 1 before (a lamp coming on) is a button press, pushed into a four-entry window. The floor counter is reset to the first floor by a press that comes after the three configured floors, pressed in order, and less than 30 polls after the first of them.

  A slower task re-calls the car to the robot's checkin floor when that floor's lamp is out.

The modules are `Types`, `WireCodec`, `Board`, `Replies`, `Elevator`, `Dispatcher` and `LedMonitor`.

- **Pure code** (the codec's specification, the status byte, routing) is modelled as functions with lemmas.
- **Code that changes state:**
  - `Elevator.Car` has the elevator globals as fields.
  - `Dispatcher.RobotProtocol` holds the registered arrive callback.
  - `LedMonitor.Monitor` has the lamp snapshot, the poll count and the `pwds` array.
  - `send_data`, `sum_check` and the unescaping loop are methods with loops over arrays.
- Each method is proved equal to a state-transition function on a snapshot datatype (`Board.Sys`, `LedMonitor.Mon`). The properties are proved about those functions.

The firmware does the following, which a reader might not expect:

- The checksum is the sum of the ESCAPED bytes between HEAD and the digits (`board/protocol_robot.c:124-127`, `254-282`), not of the payload.
- A door hold is released when the counter passes 15, i.e. on the sixteenth 1-second tick (`board/elevator.c:55-63`).
- The BT_NAME reply carries command 37, CMD_DOOR_CLOSE_REPLY, not BT_NAME_REPLY 42 (`board/protocol_robot.c:485`). `Replies.BtNameReplyShape` states this.

## Model

| member | source | states |
|---|---|---|
| Types.RunCode | board/protocol_robot.c:317 | the direction field gets the enum's code: 0..2, and 0 exactly for stop |
| Types.WorkCode | board/protocol_robot.c:328 | the state field gets the enum's code: 0..1, and 1 exactly for robot work |
| Types.ToChar | board/led_monitor.c:155 | conversion to char lands in -128..127, agrees with the value modulo 256, and is the identity in range |
| Types.ToByte | board/led_monitor.c:168 | conversion to uint8_t agrees modulo 256 and is the identity on 0..255 |
| WireCodec.Escape | board/protocol_robot.c:254-282 | the byte-by-byte escaping of send_data: HEAD, TAIL and CONVERT become CONVERT and a code; its properties are `EscapeAppend`, `EscapeLength`, `EscapeHasNoMarkers` and `UnescapeEscape` |
| WireCodec.Unescape | board/protocol_robot.c:159-184 | the decoding loop of process_robot_data: CONVERT and a known code become the original byte, anything else is copied; `UnescapeEscape` makes it the inverse of `Escape` |
| WireCodec.Frame | board/protocol_robot.c:248-288 | HEAD, the escaped payload, the two checksum digits of its sum and TAIL; `FrameRegion`, `FrameShape` and `DecodeFrame` state its properties |
| WireCodec.ChecksumOk | board/protocol_robot.c:119-137 | the two bytes before TAIL are the digits of the sum of the bytes between HEAD and them; `DigitsEncodeMod100` and `WrongDigitsRejected` state what it accepts |
| WireCodec.Decode | board/protocol_robot.c:144-184 | a frame with HEAD, TAIL and a matching checksum decodes to its unescaped region, anything else to nothing; `DecodeFrame` is its round trip with `Frame` |
| WireCodec.EscapeAppend | board/protocol_robot.c:254-282 | escaping is byte by byte: the escape of a concatenation is the concatenation of the escapes |
| WireCodec.SumAppend | board/protocol_robot.c:124-127 | the checksum sum is additive over concatenation |
| WireCodec.SumBound | board/protocol_robot.c:121 | the sum of n bytes is at most 255·n, so a 33-byte frame's uint16 sum never wraps |
| WireCodec.EscapeLength | board/protocol_robot.c:254-282 | escaping never shortens a payload and at most doubles it |
| WireCodec.ShortPayloadFits | board/protocol_robot.c:250 | every payload of at most 14 bytes fits the 33-byte frame buffer, with frame length ≤ 2·len + 4 |
| WireCodec.EscapeHasNoMarkers | board/protocol_robot.c:256-276 | neither HEAD nor TAIL occurs in an escaped payload |
| WireCodec.EscapeByteThenUnescape | board/protocol_robot.c:161-183 | one escape decodes to exactly the byte it stands for |
| WireCodec.UnescapeEscape | board/protocol_robot.c:159-184 | round trip: unescaping the escaped payload gives back the payload |
| WireCodec.MarkerWithoutCodeIsLiteral | board/protocol_robot.c:161-183 | CONVERT not followed by an escape code is copied literally |
| WireCodec.UnescapeShrinks | board/protocol_robot.c:159-184 | the decoded payload is no longer than the region, and non-empty when the region is |
| WireCodec.DigitsEncodeMod100 | board/protocol_robot.c:132-134 | the two digits are ASCII '0'..'9' and agree exactly when the sums agree modulo 100 |
| WireCodec.DivMod100 | board/protocol_robot.c:284-286 | tens digit then ones digit compose the sum modulo 100 |
| WireCodec.FrameRegion | board/protocol_robot.c:250-288 | a built frame is 4 bytes longer than the escaped payload, its region is that escape, and its digits are that escape's sum |
| WireCodec.FrameShape | board/protocol_robot.c:250-288 | a built frame starts with HEAD, ends with TAIL, and contains neither marker in between |
| WireCodec.DecodeFrame | board/protocol_robot.c:119-184 | every frame send_data builds passes sum_check and decodes to its payload |
| WireCodec.WrongDigitsRejected | board/protocol_robot.c:129-136 | a frame whose digits are not those of its region's sum fails sum_check and is not decoded |
| WireCodec.EscapeStep | board/protocol_robot.c:254-282 | one more payload byte appends its escape to the escaped prefix |
| WireCodec.UnescapeAt | board/protocol_robot.c:161-183 | one step of the decoding loop: a pair decodes to its original byte, anything else to itself |
| WireCodec.PutEscaped | board/protocol_robot.c:256-281 | writes a byte's escape after the first n buffer bytes and advances by its length |
| WireCodec.OverflowRefuses | board/protocol_robot.c:250 | a byte whose escape would pass the buffer means the whole frame does not fit |
| WireCodec.Add16 | board/protocol_robot.c:253 | uint16 addition: below 2^16, and exact when the sum fits |
| WireCodec.PutTrailer | board/protocol_robot.c:284-288 | appends the tens digit, the ones digit and TAIL |
| WireCodec.SendData | board/protocol_robot.c:248-288 | the buffer built is exactly the frame of the payload, HEAD + escape + digits + TAIL; nothing is built when it would not fit |
| WireCodec.SumCheck | board/protocol_robot.c:119-137 | returns true exactly when the two digits before TAIL are those of the region's sum; the first digit is then '0'..'9' |
| WireCodec.DecodeAt | board/protocol_robot.c:161-183 | one decoding step consumes one or two region bytes and produces the next byte of the unescaped region |
| WireCodec.UnescapeRegion | board/protocol_robot.c:156-184 | the 30-byte buffer holds the unescaped region followed by its stale bytes, and the count is the decoded length; an overflowing region is refused |
| Board.Link.Send | board/protocol_robot.c:289-298 | the frame of a fitting payload is appended to the frames put on the wire |
| Replies.Pack | board/protocol_robot.c:53-64 | the elev_status union: dir in bits 0-1, led in 2-3, door in 4, reserve in 5, state in 6-7; `UnpackPack` and `PackUnpack` make it a bijection on fitting fields |
| Replies.Status | board/protocol_robot.c:316-329 | the status byte of the replies: run code, lamp field, door on, reserve 0, work code; `StatusReports` reads it back |
| Replies.ApplyReply | board/protocol_robot.c:306-330 | header with CMD_APPLY_REPLY, the floor, the request's byte 4 and the status for the lamp of the requested floor; shape stated by `FixedRepliesFit` |
| Replies.ReleaseReply | board/protocol_robot.c:342-350 | header with CMD_RELEASE_REPLY, the request's byte 4 and 0; shape stated by `FixedRepliesFit` |
| Replies.CheckinReply | board/protocol_robot.c:370-378 | header with CMD_CHECKIN_REPLY and the request's bytes 4 and 5; shape stated by `FixedRepliesFit` |
| Replies.InquireReply | board/protocol_robot.c:392-417 | header with CMD_INQUIRE_REPLY, the floor, the checkin floor and the status for its lamp; shape stated by `FixedRepliesFit` |
| Replies.DoorOpenReply | board/protocol_robot.c:425-433 | the bare header with CMD_DOOR_OPEN_REPLY |
| Replies.DoorCloseReply | board/protocol_robot.c:445-453 | the bare header with CMD_DOOR_CLOSE_REPLY |
| Replies.BtNameReply | board/protocol_robot.c:478-490 | header with code 37, the BT name and its terminating zero; `BtNameReplyShape` states it |
| Replies.NotifyArrivePayload | board/protocol_robot.c:497-513 | header for the holder with CMD_NOTIFY_ARRIVE, the floor and the status for the arrival floor's lamp; shape stated by `FixedRepliesFit` |
| Replies.BusyPayload | board/protocol_robot.c:519-544 | header for the asking robot with CMD_BUSY, the floor, the holder's id and the status; shape stated by `FixedRepliesFit` |
| Replies.Unpack | board/protocol_robot.c:53-64 | every status byte splits into fields that fit their widths |
| Replies.DivMod4 | board/protocol_robot.c:55-63 | a 2-bit field is recovered by division and remainder by 4 |
| Replies.DivMod2 | board/protocol_robot.c:55-63 | a 1-bit field is recovered by division and remainder by 2 |
| Replies.UnpackPack | board/protocol_robot.c:53-64 | fields that fit their widths survive packing into the status byte and reading back |
| Replies.PackUnpack | board/protocol_robot.c:53-64 | every status byte is the packing of its fields |
| Replies.LedField | board/protocol_robot.c:318-325 | the lamp field is LED_ON exactly when the floor is not DEFAULT_FLOOR and its lamp is lit, LED_OFF otherwise |
| Replies.StatusReports | board/protocol_robot.c:316-329 | the status byte reads back as the run code, the lamp field, door on, reserve 0 and the work code |
| Replies.FixedRepliesFit | board/protocol_robot.c:306-545 | the APPLY, RELEASE, CHECKIN and INQUIRE replies, NOTIFY_ARRIVE and BUSY have their lengths and their four header bytes (controller, elevator, robot, command); NOTIFY_ARRIVE and BUSY carry the current floor, BUSY then the holder's id; every fixed reply fits the frame buffer |
| Replies.BtNameReplyShape | board/protocol_robot.c:478-491 | the BT name reply carries code 37, then the name and its terminating zero; a name of at most 9 bytes fits |
| Elevator.NextUp | board/elevator.c:228-248 | the floor after going up is a char and never 0 |
| Elevator.NextDown | board/elevator.c:203-223 | the floor after going down is a char and never 0 |
| Elevator.RingIndex | board/elevator.c:203-248 | the 255 reachable floors are numbered 0..254 |
| Elevator.RingStep | board/elevator.c:203-248 | up and down move one place forward and back on the ring of 255 floors |
| Elevator.UpDownInverse | board/elevator.c:203-248 | one floor down undoes one floor up, and vice versa |
| Elevator.RingInjective | board/elevator.c:203-248 | distinct floors have distinct ring places |
| Elevator.Climb | board/elevator.c:228-248 | n > 0 floors up from anywhere is a non-zero char floor |
| Elevator.ClimbAdvances | board/elevator.c:228-248 | n floors up is n places forward on the ring |
| Elevator.ModSuccessor | board/elevator.c:228-248 | the ring place after a remainder is the remainder of the successor |
| Elevator.ClimbFromFirstFloor | board/elevator.c:253-257 | counting up from the first floor gives 2, 3, … up to 127 |
| Elevator.ClimbFullCircle | board/elevator.c:228-248 | 255 steps up return to the same floor |
| Elevator.AfterHoldTick | board/elevator.c:48-65 | one pass of vElevHold: with a hold on, the uint8_t counter advances and past 15 the hold ends and the open key is released; `HoldCountsTicks` and `HoldReleasesOnSixteenthTick` state its effect |
| Elevator.HoldCountsTicks | board/elevator.c:48-65 | after a hold opens, k ≤ 15 ticks leave the hold on with the counter at k |
| Elevator.HoldReleasesOnSixteenthTick | board/elevator.c:48-65 | opening presses the open key and the sixteenth tick releases it and ends the hold |
| Elevator.HoldOpenNoEffect | board/elevator.c:177-198 | elev_hold_open changes nothing exactly when opening without the arrival switch or releasing with no hold |
| Elevator.LatestCallWins | board/elevator.c:71-83 | a second call overwrites the first in the one-slot queue, and the control task presses and releases only its key |
| Elevator.AfterArrived | board/elevator.c:157-171 | elev_arrived: one notification and the floor queued, exactly when `ArrivedActsIffGate`'s gate holds |
| Elevator.Resends | board/elevator.c:95-107 | the number of notify_arrive calls in one round; `ResendsFromCounts` and `ResendsBound` state its value |
| Elevator.AfterArriveRound | board/elevator.c:89-110 | one round of vElevArrive: the queued floor is taken and the notification repeated `Resends` times; `UnacknowledgedArrivalSentSixTimes` and `AcknowledgedArrivalStops` state its effect |
| Elevator.ResendsFromCounts | board/elevator.c:89-110 | the re-notification count is the index of the first successful take, capped at 5 |
| Elevator.ResendsBound | board/elevator.c:89-110 | a round re-notifies at most 5 times, and not at all when a give was already pending |
| Elevator.FirstTaken | board/elevator.c:95-107 | the first successful take at or after j, or 5, with every take before it timed out |
| Elevator.RepeatShift | board/elevator.c:103 | one more notification appends the same frames |
| Elevator.RepeatLength | board/elevator.c:103 | n notifications put n times the frames on the wire |
| Elevator.UnacknowledgedArrivalSentSixTimes | board/elevator.c:89-110 | an arrival never acknowledged is sent once by elev_arrived and five more times by the task, as one frame each time, whatever floor was already waiting in the overwritten slot |
| Elevator.AcknowledgedArrivalStops | board/elevator.c:89-110 | an acknowledgement in the k-th wait stops the round after k re-notifications |
| Elevator.ArrivedActsIffGate | board/elevator.c:157-171 | elev_arrived acts exactly when a robot holds the car, is checked in at that floor and the car is there; it then sends one frame and queues the floor |
| Elevator.StepsKeepInv | board/elevator.c:28-293 | every elevator operation keeps the floor a non-zero char and the hold counter within 0..15, 0 when no hold |
| Elevator.Car.constructor | board/elevator.c:126-140 | elev_init: floor 1, stopped, idle, no hold, empty queues, invariant holds |
| Elevator.Car.Increase | board/elevator.c:228-248 | elev_increase: new state is the up step with the direction the lamps imply |
| Elevator.Car.Decrease | board/elevator.c:203-223 | elev_decrease: new state is the down step with the direction the lamps imply |
| Elevator.Car.SetFirstFloor | board/elevator.c:253-257 | the floor counter becomes 1 |
| Elevator.Car.HoldOpen | board/elevator.c:177-198 | the new state is `AfterHoldOpen`: opening at a landing zeroes the counter, sets the hold and presses the open key; closing a hold clears it and releases the key; anything else changes nothing |
| Elevator.Car.HoldTick | board/elevator.c:48-65 | one tick of the hold task |
| Elevator.Car.Control | board/elevator.c:71-83 | the control task takes the queued call and presses and releases its key |
| Elevator.Car.Go | board/elevator.c:146-151 | elev_go queues the floor's key, overwriting any pending call |
| Elevator.Car.NotifyArrive | board/protocol_robot.c:497-514 | appends the NOTIFY_ARRIVE frame and changes nothing else |
| Elevator.Car.Arrived | board/elevator.c:157-171 | the new state is `AfterArrived`: when the gate holds, one NOTIFY_ARRIVE frame is sent and the floor is queued for the arrive task; otherwise nothing changes |
| Elevator.Car.TakeSemaphore | board/elevator.c:95 | a take succeeds when a give is pending or the robot acknowledges during the wait; it clears the semaphore |
| Elevator.Car.ArriveRound | board/elevator.c:89-110 | the while loop's new state is `AfterArriveRound`: the queued floor is taken, the semaphore cleared and `Resends` copies of the notification sent |
| Elevator.Car.RetryStep | board/elevator.c:95-107 | one retry: stops on a successful take, otherwise counts one more re-notification |
| Elevator.Car.NotifyAgain | board/elevator.c:103 | appends one more notification to the round |
| Elevator.Car.ArriveHook | board/elevator.c:117-120 | arrive_hook gives the semaphore |
| Elevator.Car.SetStateWork | board/elevator.c:281-284 | only the work mode changes |
| Dispatcher.Route | board/protocol_robot.c:186-236 | the gating of process_robot_data: ignore, BUSY to the sender or the command's handler, with the monitor reset for the holder; `RouteCases` states every case |
| Dispatcher.Execute | board/protocol_robot.c:186-236 | the gating followed by its effect: nothing, the BUSY frame or the handler; `ForeignRequestsIgnored`, `OtherRobotGetsBusy` and `ExecuteKeepsInv` state its effect |
| Dispatcher.Received | board/protocol_robot.c:152-184 | the 30-byte buffer the routing reads: the decoded payload followed by the buffer's stale bytes; `FramesAreDelivered` states it for every built frame |
| Dispatcher.Dispatch | board/protocol_robot.c:144-241 | process_robot_data: FALSE for a wrong head, TRUE otherwise, and the routing of a well-formed frame; `BadFramesChangeNothing` and `FramesAreDelivered` state its cases |
| Dispatcher.RouteCases | board/protocol_robot.c:186-236 | a request is ignored exactly when its command is unknown or its addresses differ; a handler runs exactly for the holder's non-APPLY request or an APPLY to an idle car; BUSY goes to the sender; the monitor reset happens exactly for the holder |
| Dispatcher.BadFramesChangeNothing | board/protocol_robot.c:144-154 | FALSE exactly for a wrong head byte; a wrong tail or checksum changes nothing |
| Dispatcher.FramesAreDelivered | board/protocol_robot.c:144-236 | every frame send_data builds reaches the routing with its payload in front of the stale buffer bytes |
| Dispatcher.ForeignRequestsIgnored | board/protocol_robot.c:186-197 | requests for another controller or elevator, or with unknown commands, change nothing |
| Dispatcher.OtherRobotGetsBusy | board/protocol_robot.c:199-219 | while one robot holds the car, any other robot gets only a BUSY frame naming itself and the holder |
| Dispatcher.ApplyTakesIdleCar | board/protocol_robot.c:306-335 | APPLY on an idle car replies with an idle status, then records the robot, enters robot mode and starts the monitor |
| Dispatcher.ReleaseFreesCar | board/protocol_robot.c:342-358 | RELEASE by the holder replies, ends any hold, resets id and checkin, returns to idle and stops the monitor |
| Dispatcher.CheckinOnlyInRange | board/protocol_robot.c:365-385 | CHECKIN replies, records the floor and calls the car exactly for floors 1..total; otherwise only the monitor reset happens |
| Dispatcher.ExecuteKeepsInv | board/protocol_robot.c:186-236 | routing a request keeps the elevator invariant |
| Dispatcher.HandlerKeepsInv | board/protocol_robot.c:306-491 | every handler keeps the elevator invariant |
| Dispatcher.RobotProtocol.constructor | board/protocol_robot.c:43 | no arrive callback is registered |
| Dispatcher.RobotProtocol.RegisterArriveCb | board/protocol_robot.c:551-554 | the arrive callback is registered |
| Dispatcher.RobotProtocol.LookupHandler | board/protocol_robot.c:186-188 | the table scan finds a handler exactly for the eight commands |
| Dispatcher.RobotProtocol.ProcessRobotData | board/protocol_robot.c:144-241 | the new state and the returned flag are those of `Dispatch`: FALSE for a wrong head, no effect for a bad tail or checksum, otherwise the routing of the decoded buffer |
| Dispatcher.RobotProtocol.RouteRequest | board/protocol_robot.c:186-236 | the table scan and address checks leave the state `Execute` gives: nothing, BUSY or the handler, with the monitor reset for the holder |
| Dispatcher.RobotProtocol.Invoke | board/protocol_robot.c:207 | calls the handler of the command |
| Dispatcher.RobotProtocol.ProcessApply | board/protocol_robot.c:306-335 | the new state is `AfterApply`: the reply, then the robot id, robot mode and a monitor start |
| Dispatcher.RobotProtocol.ProcessRelease | board/protocol_robot.c:342-358 | the new state is `AfterRelease`: the reply, the hold released, id and checkin reset, idle mode and a monitor stop |
| Dispatcher.RobotProtocol.ProcessCheckin | board/protocol_robot.c:365-385 | the new state is `AfterCheckin`: for floors 1..total the reply, the recorded checkin and a call to that floor; nothing otherwise |
| Dispatcher.RobotProtocol.ProcessInquire | board/protocol_robot.c:392-418 | appends the INQUIRE reply and changes nothing else |
| Dispatcher.RobotProtocol.ProcessDoorOpen | board/protocol_robot.c:425-437 | replies, then opens a door hold |
| Dispatcher.RobotProtocol.ProcessDoorClose | board/protocol_robot.c:445-457 | replies, then releases the door hold |
| Dispatcher.RobotProtocol.ProcessArrive | board/protocol_robot.c:464-471 | gives the semaphore exactly when the callback is registered |
| Dispatcher.RobotProtocol.ProcessBtName | board/protocol_robot.c:478-491 | appends the BT name reply and changes nothing else |
| Dispatcher.RobotProtocol.NotifyBusy | board/protocol_robot.c:519-545 | appends the BUSY frame and changes nothing else |
| LedMonitor.TickWraps | board/led_monitor.c:178 | the poll counter is incremented modulo 2^32 and wraps to 0 only from its largest value |
| LedMonitor.PositionsFromMembers | board/led_monitor.c:152-173 | the positions visited from bit i are exactly the set bits at or above i |
| LedMonitor.PositionsFromAbove | board/led_monitor.c:152-173 | no visited position lies below the starting bit |
| LedMonitor.PositionsFromAscending | board/led_monitor.c:152-173 | the positions are visited in ascending order |
| LedMonitor.ConsAscending | board/led_monitor.c:152-173 | a smaller position in front of an ascending list keeps it ascending |
| LedMonitor.PositionsExact | board/led_monitor.c:152-173 | the changed bits visited are exactly the set bits, lowest first, none for a zero mask |
| LedMonitor.MaskFacts | board/led_monitor.c:154-172 | `x & ~(x-1)` isolates the lowest set bit and `x &= x-1` clears exactly that bit |
| LedMonitor.MaskAt | board/led_monitor.c:154-172 | the isolated bit is set in x and cleared by `x & (x-1)` |
| LedMonitor.MaskBelow | board/led_monitor.c:154-172 | no bit below the isolated one is set, before or after clearing |
| LedMonitor.MaskAbove | board/led_monitor.c:154-172 | bits above the isolated one are left alone by clearing |
| LedMonitor.SameAbove | board/led_monitor.c:152-173 | masks that agree from bit i up visit the same positions from i |
| LedMonitor.SkipClear | board/led_monitor.c:152-173 | a clear bit is not visited |
| LedMonitor.TakeSet | board/led_monitor.c:152-173 | a set bit is visited before the higher ones |
| LedMonitor.SplitFrom | board/led_monitor.c:152-173 | clearing the lowest set bit removes exactly the first visited position |
| LedMonitor.Split | board/led_monitor.c:154-172 | one do-while iteration consumes the lowest changed position |
| LedMonitor.LowestBit | board/led_monitor.c:154 | `x & ~(x-1)` is the single-bit mask of the lowest set bit |
| LedMonitor.IsFloorArrive | board/led_monitor.c:53-56 | is_floor_arrive: the old snapshot and the changed bit share no set bit; `SingleBitArrival` states what it means for one bit |
| LedMonitor.SingleBitArrival | board/led_monitor.c:53-56 | is_floor_arrive on a single changed bit holds exactly when the bit was 0 (the lamp was lit) before |
| LedMonitor.BitToPos | board/led_monitor.c:62-72 | bit_to_pos returns the position of the lowest set bit |
| LedMonitor.WrapFreeAgreement | board/led_monitor.c:89-92 | the check as written and the wrap-free check agree whenever the product fits in 32 bits |
| LedMonitor.WrappedSpanRecalibrates | board/led_monitor.c:92 | as written, a password pressed 21474837 polls earlier still recalibrates |
| LedMonitor.Recalibrates | board/led_monitor.c:89-102 | the evidently intended check on the shifted window: the three older entries are the configured floors and the newest came less than 6000 ms after the oldest, without wrap-around |
| LedMonitor.RecalibratesAsWritten | board/led_monitor.c:89-102 | the check as the firmware computes it, with `(t3 - t0) * 200` taken modulo 2^32 |
| LedMonitor.IntendedWindow | board/led_monitor.c:89-102 | the intended check holds exactly when the newest entry is 1..29 polls after the oldest and the three older entries are the configured floors |
| LedMonitor.WrappedSpanPushResets | board/led_monitor.c:89-102 | as written, push_pwd_node resets the floor counter when the configured floors were pressed 21474837 polls before the newest press |
| LedMonitor.AfterPush | board/led_monitor.c:78-105 | push_pwd_node with the uint32_t check as written; the window keeps four entries |
| LedMonitor.PushOnlyRecalibrates | board/led_monitor.c:78-105 | a push shifts the window and appends the node; the floor counter is reset to 1 exactly when the three older entries are the configured floors and the node is later than the oldest by less than 6000 ms in uint32_t arithmetic, and the elevator is untouched otherwise |
| LedMonitor.PasswordSetsFirstFloor | board/led_monitor.c:78-105 | pressing the three configured floors in order, each at any poll count, and then any floor 1..29 polls after the first of them, puts the counter on floor 1 and leaves those four presses in the window, whatever the window held |
| LedMonitor.Visit | board/led_monitor.c:155-170 | visiting a changed bit keeps the window at four entries |
| LedMonitor.WalkBitsIsWalk | board/led_monitor.c:152-173 | the walk by bit index visits the set bits lowest first, each once |
| LedMonitor.WalkBitsSkips | board/led_monitor.c:152-173 | clear bits contribute nothing to the walk |
| LedMonitor.WalkBitsAbove | board/led_monitor.c:152-173 | the walk from bit i depends only on the mask's bits from i up |
| LedMonitor.WalkBitsStep | board/led_monitor.c:152-173 | one iteration visits the lowest changed bit, then walks the mask with it cleared |
| LedMonitor.PollWalkIs | board/led_monitor.c:147-173 | the poll walks exactly the bits where the new snapshot differs from the old one |
| LedMonitor.XorZero | board/led_monitor.c:148-149 | no changed bits exactly when the snapshot is unchanged |
| LedMonitor.XorBit | board/led_monitor.c:148 | a bit changed exactly when old and new snapshots differ there |
| LedMonitor.AndBit | board/led_monitor.c:55 | a bit of `a & b` is set exactly when it is set in both |
| LedMonitor.QuietWalk | board/led_monitor.c:149 | an unchanged snapshot leaves the state alone |
| LedMonitor.AfterPoll | board/led_monitor.c:147-178 | one iteration of vLedMonitor: the walk over the changed bits, the new snapshot and the count advanced; `PollTakesSnapshot` and `WalkVisitsSetBits` state its effect |
| LedMonitor.PollTakesSnapshot | board/led_monitor.c:147-178 | after a poll the snapshot is the new reading and the counter advanced by one modulo 2^32; an unchanged reading changes nothing else |
| LedMonitor.WalkVisitsSetBits | board/led_monitor.c:152-173 | the walk visits exactly the changed bits, lowest first |
| LedMonitor.WalkSharesTimestamp | board/led_monitor.c:168 | every press pushed during one poll carries that poll's count, and the snapshot is not touched mid-walk |
| LedMonitor.ArrivalsLeaveWindow | board/led_monitor.c:158-163 | changed bits that were 0 before (lamps going out) never touch the password window |
| LedMonitor.PressesOnlyRecalibrate | board/led_monitor.c:164-170 | changed bits that were 1 before (lamps coming on) can only reset the floor counter to 1, nothing else in the elevator |
| LedMonitor.PressVisit | board/led_monitor.c:164-170 | one press changes the elevator at most by the recalibration |
| LedMonitor.WorkMonitorTarget | board/led_monitor.c:117-127 | the floor vLedWorkMonitor calls the car to, if any; `WorkMonitorCalls` states when |
| LedMonitor.WorkMonitorCalls | board/led_monitor.c:111-131 | the car is re-called exactly when a robot holds it, its checkin is set, that lamp is out and the car is elsewhere; the call goes to that floor's key and nothing else changes |
| LedMonitor.Monitor.constructor | board/led_monitor.c:137-144 | empty window, first snapshot taken, poll count 0 |
| LedMonitor.Monitor.PushPwdNode | board/led_monitor.c:78-105 | shifts the array window by one, stores the node last, and compares the product modulo 2^32 as the firmware does; the new state is `AfterPush` of the old one |
| LedMonitor.Monitor.VisitBit | board/led_monitor.c:155-170 | the new state is `Visit` of the changed bit: nothing for an invalid floor, an arrival for a bit that was 0 (a lamp going out), a password push for a bit that was 1 (a lamp coming on) |
| LedMonitor.Monitor.VisitLowest | board/led_monitor.c:154-172 | visits the lowest changed bit and clears it; fewer changed bits remain and the rest of the walk is unchanged |
| LedMonitor.Monitor.WalkChanges | board/led_monitor.c:152-173 | the do-while leaves the state the walk over the changed bits gives |
| LedMonitor.Monitor.Poll | board/led_monitor.c:147-178 | the new state is `AfterPoll`: the walk over the changed bits, the new snapshot and the count advanced modulo 2^32 |
| LedMonitor.Monitor.WorkMonitor | board/led_monitor.c:117-127 | the new elevator state is `AfterWorkMonitor`: a call to the checkin floor exactly when `WorkMonitorTarget` names one |

## Left out

- FreeRTOS tasks, queues, delays and the binary semaphore are not modelled as concurrency. Each task's loop body is one operation. The semaphore is a flag. Whether a robot acknowledges during each 500 ms wait is an input sequence (`acks`).
- The transport choice in `send_data` (`board/protocol_robot.c:290-298`, Bluetooth or the other link) is collapsed into one list of frames on the wire. For NOTIFY_ARRIVE the choice is not even defined: `board/elevator.c:106` and `:166` call `notify_arrive(floor)` with one argument, while its definition takes `pargs` too (`board/protocol_robot.c:497`). So `send_data` reads an indeterminate pointer there.
- TRACE logging is not modelled.
- The robot registers (id, checkin, monitor start/stop/reset) are plain storage; their module, `robot.c`, is not part of this model. Two assumptions about it follow:
  - `robot_checkin_cur()` (`board/led_monitor.c:119-121`) is taken to read the same register that `robot_checkin_set` and `robot_checkin_get` use (`board/protocol_robot.c:381`, `:400`): one field, `Board.Sys.checkin`. `LedMonitor.WorkMonitorCalls` depends on this.
  - `robot_is_checkin` (`board/elevator.c:161`) is an unconstrained lookup (`Board.Env.robotIsCheckin`), not tied to that register. `Elevator.ArrivedActsIffGate` is stated over that lookup.
- The key map, the floor map, the lamp reader, the arrival switch and the key controller are not part of this model. They are lookups in an environment value, and key presses are a list of events.
- The board parameters (controller and elevator ids, total floors, password digits, BT name, default checkin) are a configuration value. `parameter.c` is not part of this model.
- The uninitialised 30-byte payload buffer of `process_robot_data` is an input (`stale`); the handlers read its bytes beyond the decoded ones.
- WireCodec.UnescapeRegion: a region that decodes to more than 30 bytes is refused, where the firmware overruns its buffer.
- WireCodec.SendData: a payload whose frame exceeds 33 bytes produces no frame, where the firmware overruns its buffer. No payload the firmware builds is that long, except possibly a BT name of over 9 bytes; `Replies.BtNameReplyShape` proves that a name of 9 bytes or fewer always fits.
- Dispatcher.RobotProtocol.ProcessRobotData: a 2-byte frame makes `sum_check` read before the frame. The model relies on its second digit being the head byte, which fails the check whatever that read returns.
- Dispatcher.RobotProtocol.ProcessRobotData: a zero-length frame makes `process_robot_data` read `data[0]` (`board/protocol_robot.c:146`) past its end; the model takes frames of at least one byte (`Dispatcher.Dispatch`, `Dispatcher.BadFramesChangeNothing`), because what that read returns is not defined.
- Replies.Unpack: the bit-field order follows the GCC/ARM convention (first field in the lowest bits); other compilers may differ.
- Elevator.Car.Increase: the floor counter is modelled as a signed char (`ToChar`), matching the firmware's use of negative floors. Where plain `char` is unsigned, as with GCC on ARM, a floor below 1 would be 255 instead. The bytes put on the wire (`ToByte`) are the same either way.
- LedMonitor.AfterPoll: the firmware's `if (changed)` guard is not written out in the specification function, because the walk and the snapshot update are no-ops when nothing changed (`LedMonitor.QuietWalk`). The method `LedMonitor.Monitor.Poll` keeps the guard.

## Findings

| source | as written | input that shows it | evidently intended | confidence | as-written member | corrected member |
|---|---|---|---|---|---|---|
| board/led_monitor.c:92 | `(pwds[3].time - pwds[0].time) * LED_INTERVAL` is computed in uint32 and wraps | the three password floors pressed at polls 0, 1, 2 and any floor at poll 21474837: 21474837·200 wraps to 104 < 6000 | only presses less than 30 polls (6 s) apart recalibrate | high, not executed | LedMonitor.WrappedSpanPushResets | LedMonitor.IntendedWindow |

The monitor's transition (`LedMonitor.AfterPush`, `LedMonitor.Monitor.PushPwdNode`) follows the firmware as written. `LedMonitor.Recalibrates` is the corrected check: `LedMonitor.IntendedWindow` states what it accepts, and `LedMonitor.WrapFreeAgreement` shows the two agree whenever the product fits in 32 bits, which is why `LedMonitor.PasswordSetsFirstFloor` holds for the transition as written.
