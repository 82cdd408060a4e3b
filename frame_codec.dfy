/**
 * Outbound frame layout of the AM43 protocol and its XOR checksum
 * (src/AM43Client.cpp: the start packet, checksum and the byte layout
 * sendCommand writes).
 *
 * A frame is: the 5-byte start packet 00 FF 00 00 9A, the opcode, one
 * length byte, the payload, and a checksum byte that makes the XOR of the
 * whole frame 0xFF.
 */
module FrameCodec {

  const StartPacket: seq<bv8> := [0x00, 0xFF, 0x00, 0x00, 0x9A]

  /** XOR of all bytes of `s`, folded left to right from 0. */
  function XorFold(s: seq<bv8>): bv8
  {
    if s == [] then 0 else XorFold(s[..|s| - 1]) ^ s[|s| - 1]
  }

  /** XOR folding distributes over concatenation. */
  lemma {:induction false} XorFoldConcat(a: seq<bv8>, b: seq<bv8>)
    ensures XorFold(a + b) == XorFold(a) ^ XorFold(b)
  {
    if b == [] {
      assert a + b == a;
    } else {
      var b' := b[..|b| - 1];
      assert (a + b)[..|a + b| - 1] == a + b';
      XorFoldConcat(a, b');
    }
  }

  /**
   * The checksum byte of a buffer: the XOR of its bytes, XORed with 0xFF.
   * Appending it makes the XOR of the extended buffer 0xFF.
   */
  method Checksum(data: seq<bv8>) returns (c: bv8)
    ensures c == XorFold(data) ^ 0xFF
    ensures XorFold(data + [c]) == 0xFF
  {
    c := 0;
    var i := 0;
    while i < |data|
      invariant 0 <= i <= |data|
      invariant c == XorFold(data[..i])
    {
      assert data[..i + 1][..i] == data[..i];
      c := c ^ data[i];
      i := i + 1;
    }
    assert data[..|data|] == data;
    c := c ^ 0xFF;
    assert (data + [c])[..|data|] == data;
  }

  /**
   * The length byte: the payload size cast to one byte, so a payload of 256
   * bytes or more has its length truncated modulo 256.
   */
  function LengthByte(n: nat): bv8
  {
    (n % 256) as bv8
  }

  /** Everything the checksum covers: start packet, opcode, length byte, payload. */
  function Header(command: bv8, data: seq<bv8>): seq<bv8>
  {
    StartPacket + [command, LengthByte(|data|)] + data
  }

  /** The frame sent for `command` with payload `data`. */
  function Frame(command: bv8, data: seq<bv8>): (f: seq<bv8>)
    ensures |f| == 8 + |data|
  {
    var h := Header(command, data);
    h + [XorFold(h) ^ 0xFF]
  }

  /** Where each part of a frame sits. */
  lemma FrameLayout(command: bv8, data: seq<bv8>)
    ensures var f := Frame(command, data);
      && |f| == 8 + |data|
      && f[..5] == [0x00, 0xFF, 0x00, 0x00, 0x9A]
      && f[5] == command
      && f[6] == (|data| % 256) as bv8
      && f[7..7 + |data|] == data
      && f[7 + |data|] == XorFold(f[..7 + |data|]) ^ 0xFF
  {
    var h := Header(command, data);
    var f := Frame(command, data);
    assert f[..7 + |data|] == h;
    assert h[..5] == StartPacket;
    assert h[5] == command && h[6] == LengthByte(|data|);
    assert f[7..7 + |data|] == h[7..] == data;
  }

  /** The XOR of every byte of a frame, checksum included, is 0xFF (not 0). */
  lemma FrameXorIsFF(command: bv8, data: seq<bv8>)
    ensures XorFold(Frame(command, data)) == 0xFF
  {
    var h := Header(command, data);
    var f := Frame(command, data);
    assert f[..|f| - 1] == h;
  }

  /**
   * The checksum byte in closed form: the start packet contributes 0x65,
   * and the final XOR with 0xFF turns that into 0x9A.
   */
  lemma FrameChecksumValue(command: bv8, data: seq<bv8>)
    ensures var f := Frame(command, data);
      f[|f| - 1] == 0x9A ^ command ^ LengthByte(|data|) ^ XorFold(data)
  {
    var len := LengthByte(|data|);
    var f := Frame(command, data);
    assert f[|f| - 1] == XorFold(Header(command, data)) ^ 0xFF;
    StartPacketFold();
    XorFoldSnoc(StartPacket, command);
    XorFoldSnoc(StartPacket + [command], len);
    assert StartPacket + [command] + [len] == StartPacket + [command, len];
    XorFoldConcat(StartPacket + [command, len], data);
  }

  /** Appending one byte XORs it into the fold. */
  lemma XorFoldSnoc(s: seq<bv8>, x: bv8)
    ensures XorFold(s + [x]) == XorFold(s) ^ x
  {
    assert (s + [x])[..|s|] == s;
  }

  /** The start packet alone folds to 0x65 (0xFF ^ 0x9A). */
  lemma StartPacketFold()
    ensures XorFold(StartPacket) == 0x65
  {
    var s1: seq<bv8> := [0x00];
    var s2 := s1 + [0xFF];
    var s3 := s2 + [0x00];
    var s4 := s3 + [0x00];
    var s5 := s4 + [0x9A];
    XorFoldSnoc([], 0x00);
    assert [] + [0x00] == s1;
    XorFoldSnoc(s1, 0xFF);
    XorFoldSnoc(s2, 0x00);
    XorFoldSnoc(s3, 0x00);
    XorFoldSnoc(s4, 0x9A);
    assert s5 == StartPacket;
  }

  /** A frame determines its opcode and payload, even when the length byte wraps around. */
  lemma FrameInjective(c1: bv8, d1: seq<bv8>, c2: bv8, d2: seq<bv8>)
    requires Frame(c1, d1) == Frame(c2, d2)
    ensures c1 == c2 && d1 == d2
  {
    FrameLayout(c1, d1);
    FrameLayout(c2, d2);
  }

  /** Changing any single byte of a frame whose XOR is 0xFF makes its XOR differ from 0xFF. */
  lemma SingleByteErrorDetected(f: seq<bv8>, k: nat, b: bv8)
    requires XorFold(f) == 0xFF
    requires k < |f|
    requires b != f[k]
    ensures XorFold(f[k := b]) != 0xFF
  {
    var g := f[k := b];
    assert f == f[..k] + [f[k]] + f[k + 1..];
    assert g == f[..k] + [b] + f[k + 1..];
    XorFoldConcat(f[..k] + [f[k]], f[k + 1..]);
    XorFoldConcat(f[..k], [f[k]]);
    XorFoldConcat(f[..k] + [b], f[k + 1..]);
    XorFoldConcat(f[..k], [b]);
    assert XorFold([f[k]]) == f[k] by { assert [f[k]][..0] == []; }
    assert XorFold([b]) == b by { assert [b][..0] == []; }
  }
}
