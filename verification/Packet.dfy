/**
 * The 16-byte little-endian packet from the safety loop to the watchdog
 * (pkg/server/safety.go:89-123, crates/rosplus_safety/src/main.rs:67-69):
 * a 64-bit timestamp, a 32-bit node count and 32-bit flags.
 */
module Packet {
  import opened Outcomes

  type byte = x: int | 0 <= x < 256

  /** 256 to the power n. */
  function Span(n: nat): (r: nat)
    ensures r > 0
  {
    if n == 0 then 1 else 256 * Span(n - 1)
  }

  /** The n low bytes of v, lowest first; higher bytes are cut off. */
  function Little(v: nat, n: nat): (bytes: seq<byte>)
    ensures |bytes| == n
  {
    if n == 0 then [] else [v % 256] + Little(v / 256, n - 1)
  }

  function Value(bytes: seq<byte>): nat {
    if bytes == [] then 0 else bytes[0] + 256 * Value(bytes[1..])
  }

  /** Writing n bytes and reading them back keeps v modulo the field's width. */
  lemma {:induction false} LittleValue(v: nat, n: nat)
    ensures Value(Little(v, n)) == v % Span(n)
  {
    if n > 0 {
      LittleValue(v / 256, n - 1);
      assert Little(v, n)[1..] == Little(v / 256, n - 1);
      LowByte(v, Span(n - 1));
    }
  }

  lemma LowByte(v: nat, m: nat)
    requires m > 0
    ensures v % 256 + 256 * ((v / 256) % m) == v % (256 * m)
  {
    var q, r := v / 256, v % 256;
    var k, t := q / m, q % m;
    assert v == (256 * m) * k + (256 * t + r) by {
      assert q == m * k + t;
      assert 256 * q == 256 * (m * k) + 256 * t;
      assert 256 * (m * k) == (256 * m) * k;
    }
    Remainder(v, 256 * m, k, 256 * t + r);
  }

  lemma Remainder(v: nat, d: nat, k: nat, r: nat)
    requires d > 0 && v == d * k + r && r < d
    ensures v % d == r
  {
    var k', r' := v / d, v % d;
    assert v == d * k' + r' && r' < d;
    assert k' < k ==> d * (k' + 1) <= d * k;
    assert k < k' ==> d * (k + 1) <= d * k';
  }

  datatype Fields = Fields(timestamp: nat, count: nat, flags: nat)

  function Encode(f: Fields): (packet: seq<byte>)
    ensures |packet| == 16
  {
    Little(f.timestamp, 8) + Little(f.count, 4) + Little(f.flags, 4)
  }

  /** The watchdog takes exactly 16 bytes; its buffer of 17 tells longer datagrams apart. */
  function Decode(packet: seq<byte>): Option<Fields> {
    if |packet| != 16 then None
    else Some(Fields(Value(packet[..8]), Value(packet[8..12]), Value(packet[12..])))
  }

  /** The packet carries every field modulo its width: a count of 2^32 nodes or more wraps. */
  lemma RoundTrip(f: Fields)
    ensures Decode(Encode(f)) ==
            Some(Fields(f.timestamp % 0x1_0000_0000_0000_0000, f.count % 0x1_0000_0000, f.flags % 0x1_0000_0000))
  {
    var p := Encode(f);
    assert p[..8] == Little(f.timestamp, 8);
    assert p[8..12] == Little(f.count, 4);
    assert p[12..] == Little(f.flags, 4);
    LittleValue(f.timestamp, 8);
    LittleValue(f.count, 4);
    LittleValue(f.flags, 4);
    Spans();
  }

  lemma Spans()
    ensures Span(4) == 0x1_0000_0000 && Span(8) == 0x1_0000_0000_0000_0000
  {
    assert Span(2) == 65536;
    assert Span(4) == 256 * (256 * Span(2));
    assert Span(6) == 256 * (256 * Span(4));
    assert Span(8) == 256 * (256 * Span(6));
  }

  /** Every 16-byte packet is the encoding of its fields: nothing is lost in decoding. */
  lemma DecodeInjective(packet: seq<byte>)
    requires |packet| == 16
    ensures Encode(Decode(packet).value) == packet
  {
    ValueLittle(packet[..8]);
    ValueLittle(packet[8..12]);
    ValueLittle(packet[12..]);
    assert packet == packet[..8] + packet[8..12] + packet[12..];
  }

  lemma {:induction false} ValueLittle(bytes: seq<byte>)
    ensures Little(Value(bytes), |bytes|) == bytes
  {
    if bytes != [] {
      ValueLittle(bytes[1..]);
      var v := Value(bytes);
      assert v % 256 == bytes[0] && v / 256 == Value(bytes[1..]);
    }
  }

  function Word(a: nat, b: nat, c: nat, d: nat): nat { a + 0x100 * b + 0x1_0000 * c + 0x100_0000 * d }

  /** The fields by their place: eight bytes of timestamp, four of node count, four of flags, low bytes first. */
  lemma Places(p: seq<byte>)
    requires |p| == 16
    ensures Decode(p) == Some(Fields(
      Word(p[0], p[1], p[2], p[3]) + 0x1_0000_0000 * Word(p[4], p[5], p[6], p[7]),
      Word(p[8], p[9], p[10], p[11]), Word(p[12], p[13], p[14], p[15])))
  {
    FourBytes(p[8..12]);
    FourBytes(p[12..]);
    TailOf(p[..8], p[0], p[1..8]);
    TailOf(p[1..8], p[1], p[2..8]);
    TailOf(p[2..8], p[2], p[3..8]);
    TailOf(p[3..8], p[3], p[4..8]);
    FourBytes(p[4..8]);
  }

  lemma TailOf(bytes: seq<byte>, low: byte, rest: seq<byte>)
    requires bytes == [low] + rest
    ensures Value(bytes) == low + 0x100 * Value(rest)
  {
    assert bytes[1..] == rest;
  }

  lemma FourBytes(b: seq<byte>)
    requires |b| == 4
    ensures Value(b) == Word(b[0], b[1], b[2], b[3])
  {
    TailOf(b, b[0], b[1..]);
    TailOf(b[1..], b[1], b[2..]);
    TailOf(b[2..], b[2], b[3..]);
    TailOf(b[3..], b[3], []);
  }

  /** The bit test flags & 3 == 3. */
  predicate Good(flags: nat) { flags % 4 == 3 }
}
