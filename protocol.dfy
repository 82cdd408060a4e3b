/**
 * Wire constants of the AM43 blind actuator protocol, as the client's
 * header declares them (src/AM43Client.h).
 */
module Protocol {

  /** An unsigned 32-bit value (the client's `unsigned long` millisecond timestamps). */
  newtype U32 = x: int | 0 <= x < 0x1_0000_0000

  /** Unsigned 32-bit subtraction, wrapping around modulo 2^32. */
  function Minus(a: U32, b: U32): (r: U32)
    ensures r as int == (a as int - b as int) % 0x1_0000_0000
  {
    if a >= b then a - b else (a as int - b as int + 0x1_0000_0000) as U32
  }

  /** Unsigned 32-bit addition, wrapping around modulo 2^32. */
  function Plus(a: U32, b: U32): (r: U32)
    ensures r as int == (a as int + b as int) % 0x1_0000_0000
  {
    if a as int + b as int < 0x1_0000_0000 then a + b else (a as int + b as int - 0x1_0000_0000) as U32
  }

  /** Command / reply opcodes (byte 5 of an outbound frame, byte 1 of a reply). */
  const CommandMove: bv8 := 0x0A
  const CommandSetPosition: bv8 := 0x0D
  const NotifyPosition: bv8 := 0xA1
  const CommandGetBattery: bv8 := 0xA2
  const CommandGetPosition: bv8 := 0xA7
  const ReplyUnknown1: bv8 := 0xA8
  const ReplyUnknown2: bv8 := 0xA9
  /** The current header uses 0xAA here; an older revision used 0xA0. */
  const CommandGetLight: bv8 := 0xAA
  const CommandLogin: bv8 := 0x17

  /** Acknowledge / refuse markers found at byte 3 of LOGIN, MOVE and SET_POSITION replies. */
  const ResponseAck: bv8 := 0x5A
  const ResponseNack: bv8 := 0xA5

  /** First byte of every notification the client accepts. */
  const ReplyMarker: bv8 := 0x9A

  const DefaultPin: bv16 := 8888

  /** Poll interval in milliseconds: 30000 in the current header, 120000 in the older one. */
  const UpdateInterval: U32 := 30000
  const LegacyUpdateInterval: U32 := 120000

  /** Flags that enable each telemetry query; their running sums label the polling cursor. */
  const UpdateBattery: bv8 := 1
  const UpdatePosition: bv8 := 1
  const UpdateLight: bv8 := 1

  /** Payload bytes of the MOVE command. */
  const MoveOpen: bv8 := 0xDD
  const MoveStop: bv8 := 0xCC
  const MoveClose: bv8 := 0xEE

  /** Payload of every telemetry request (battery, position, light). */
  const QueryPayload: seq<bv8> := [0x01]
}
