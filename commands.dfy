/**
 * The commands the AM43 client sends and the frame each becomes: the
 * payload builders of src/AM43Client.cpp (telemetry requests, the PIN,
 * open / stop / close and set-position), each feeding the frame codec.
 */
module Commands {
  import opened Protocol
  import opened FrameCodec

  /** One outbound command; `SetPosition` carries the target byte unchecked. */
  datatype Command =
    | GetBattery
    | GetLight
    | GetPosition
    | Login(pin: bv16)
    | Open
    | Stop
    | Close
    | SetPosition(pos: bv8)

  /** The LOGIN payload: the PIN, most significant byte first. */
  function PinPayload(pin: bv16): (p: seq<bv8>)
    ensures |p| == 2
    ensures ((p[0] as bv16) << 8) | (p[1] as bv16) == pin
  {
    [((pin & 0xFF00) >> 8) as bv8, (pin & 0xFF) as bv8]
  }

  /** The default PIN 8888 is 0x22B8 on the wire. */
  lemma DefaultPinPayload()
    ensures PinPayload(DefaultPin) == [0x22, 0xB8]
  {
  }

  function Opcode(c: Command): bv8
  {
    match c
    case GetBattery => CommandGetBattery
    case GetLight => CommandGetLight
    case GetPosition => CommandGetPosition
    case Login(_) => CommandLogin
    case Open | Stop | Close => CommandMove
    case SetPosition(_) => CommandSetPosition
  }

  function Payload(c: Command): seq<bv8>
  {
    match c
    case GetBattery | GetLight | GetPosition => QueryPayload
    case Login(pin) => PinPayload(pin)
    case Open => [MoveOpen]
    case Stop => [MoveStop]
    case Close => [MoveClose]
    case SetPosition(pos) => [pos]
  }

  /** The single frame a command writes: the start packet, the command's opcode, and an XOR of 0xFF. */
  function Encode(c: Command): (f: seq<bv8>)
    ensures |f| == 8 + |Payload(c)|
    ensures f[..5] == StartPacket && f[5] == Opcode(c)
    ensures XorFold(f) == 0xFF
  {
    FrameLayout(Opcode(c), Payload(c));
    FrameXorIsFF(Opcode(c), Payload(c));
    Frame(Opcode(c), Payload(c))
  }

  /**
   * What each command puts on the wire: its opcode at byte 5, a length byte,
   * its payload from byte 7, then the checksum; every frame is 9 or 10 bytes.
   */
  lemma EncodeLayout(c: Command)
    ensures var f := Encode(c);
      && f[..5] == StartPacket
      && f[5] == Opcode(c)
      && (c.Login? ==> |f| == 10 && f[6] == 2 && f[7..9] == PinPayload(c.pin))
      && (!c.Login? ==> |f| == 9 && f[6] == 1)
      && (c.GetBattery? || c.GetLight? || c.GetPosition? ==> f[7] == 0x01)
      && (c.Open? ==> f[5] == 0x0A && f[7] == 0xDD)
      && (c.Stop? ==> f[5] == 0x0A && f[7] == 0xCC)
      && (c.Close? ==> f[5] == 0x0A && f[7] == 0xEE)
      && (c.SetPosition? ==> f[5] == 0x0D && f[7] == c.pos)
      && XorFold(f) == 0xFF
  {
    FrameLayout(Opcode(c), Payload(c));
    FrameXorIsFF(Opcode(c), Payload(c));
  }

  /** Different commands never produce the same frame. */
  lemma EncodeInjective(c1: Command, c2: Command)
    requires Encode(c1) == Encode(c2)
    ensures c1 == c2
  {
    FrameInjective(Opcode(c1), Payload(c1), Opcode(c2), Payload(c2));
    if c1.Login? {
      var p1 := PinPayload(c1.pin);
      var p2 := PinPayload(c2.pin);
      assert ((p1[0] as bv16) << 8) | (p1[1] as bv16) == ((p2[0] as bv16) << 8) | (p2[1] as bv16);
    }
  }

  /** The frames written for a sequence of commands, in order. */
  function EncodeAll(cs: seq<Command>): (fs: seq<seq<bv8>>)
    ensures |fs| == |cs|
    ensures forall i :: 0 <= i < |cs| ==> fs[i] == Encode(cs[i])
  {
    if cs == [] then [] else [Encode(cs[0])] + EncodeAll(cs[1..])
  }
}
