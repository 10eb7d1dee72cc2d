/** Fixed-width integers and the big-endian byte helpers of the wire protocol. */
module Octets {

  type uint8 = x: int | 0 <= x < 0x100
  type uint16 = x: int | 0 <= x < 0x1_0000
  type uint32 = x: int | 0 <= x < 0x1_0000_0000
  type int16 = x: int | -0x8000 <= x < 0x8000
  type int32 = x: int | -0x8000_0000 <= x < 0x8000_0000

  type octets = seq<uint8>

  datatype Option<+T> = None | Some(value: T)

  function Min(a: int, b: int): int {
    if a <= b then a else b
  }

  // ---------- Casts ----------

  /** `static_cast<uint16_t>`: the low sixteen bits. */
  function ToU16(v: int): uint16 {
    v % 0x1_0000
  }

  /** `static_cast<int16_t>` of a 16-bit pattern: two's complement. */
  function ToI16(v: uint16): int16 {
    if v < 0x8000 then v else v - 0x1_0000
  }

  /** `static_cast<int32_t>` of a 32-bit pattern: two's complement. */
  function ToI32(v: uint32): int32 {
    if v < 0x8000_0000 then v else v - 0x1_0000_0000
  }

  /** Both casts to signed keep the bit pattern. */
  lemma TwosComplement(v: uint16, w: uint32)
    ensures ToI16(v) % 0x1_0000 == v && ToI32(w) % 0x1_0000_0000 == w
  {
  }

  // ---------- Big-endian encodings ----------

  function PutU16(v: uint16): (b: octets)
    ensures |b| == 2
  {
    [v / 0x100, v % 0x100]
  }

  function PutI16(v: int16): (b: octets)
    ensures |b| == 2
  {
    PutU16(ToU16(v))
  }

  function PutU32(v: uint32): (b: octets)
    ensures |b| == 4
  {
    [v / 0x100_0000, v / 0x1_0000 % 0x100, v / 0x100 % 0x100, v % 0x100]
  }

  function GetU16(b: octets, at: nat): uint16
    requires at + 2 <= |b|
  {
    b[at] as int * 0x100 + b[at + 1]
  }

  function GetI16(b: octets, at: nat): int16
    requires at + 2 <= |b|
  {
    ToI16(GetU16(b, at))
  }

  function GetU32(b: octets, at: nat): uint32
    requires at + 4 <= |b|
  {
    b[at] as int * 0x100_0000 + b[at + 1] as int * 0x1_0000 + b[at + 2] as int * 0x100 + b[at + 3]
  }

  // ---------- Reading back what was written ----------

  lemma GetPutU16(before: octets, v: uint16, after: octets)
    ensures GetU16(before + PutU16(v) + after, |before|) == v
  {
    var b := before + PutU16(v) + after;
    assert b[|before|] == v / 0x100 && b[|before| + 1] == v % 0x100;
  }

  lemma GetPutI16(before: octets, v: int16, after: octets)
    ensures GetI16(before + PutI16(v) + after, |before|) == v
  {
    GetPutU16(before, ToU16(v), after);
  }

  lemma FourOctets(v: uint32)
    ensures v == v / 0x100_0000 * 0x100_0000 + v / 0x1_0000 % 0x100 * 0x1_0000 + v / 0x100 % 0x100 * 0x100 + v % 0x100
  {
    assert v / 0x1_0000 == v / 0x100_0000 * 0x100 + v / 0x1_0000 % 0x100;
    assert v / 0x100 == v / 0x1_0000 * 0x100 + v / 0x100 % 0x100;
  }

  lemma GetPutU32(before: octets, v: uint32, after: octets)
    ensures GetU32(before + PutU32(v) + after, |before|) == v
  {
    var b := before + PutU32(v) + after;
    assert b[|before|] == v / 0x100_0000;
    assert b[|before| + 1] == v / 0x1_0000 % 0x100;
    assert b[|before| + 2] == v / 0x100 % 0x100;
    assert b[|before| + 3] == v % 0x100;
    FourOctets(v);
  }

  /** And writing back what was read. */
  lemma PutGetU16(b: octets, at: nat)
    requires at + 2 <= |b|
    ensures PutU16(GetU16(b, at)) == b[at..at + 2]
  {
  }

  lemma PutGetI16(b: octets, at: nat)
    requires at + 2 <= |b|
    ensures PutI16(GetI16(b, at)) == b[at..at + 2]
  {
    PutGetU16(b, at);
  }

  lemma PutGetU32(b: octets, at: nat)
    requires at + 4 <= |b|
    ensures PutU32(GetU32(b, at)) == b[at..at + 4]
  {
    var v := GetU32(b, at);
    var hi, lo := b[at] as int * 0x100 + b[at + 1], b[at + 2] as int * 0x100 + b[at + 3];
    assert v == hi * 0x1_0000 + lo && 0 <= lo < 0x1_0000;
    assert v / 0x1_0000 == hi && v / 0x100_0000 == b[at];
    assert v / 0x100 == hi * 0x100 + b[at + 2];
  }

  // ---------- In-place writers ----------

  method WriteU16(p: array<uint8>, at: nat, v: uint16)
    requires at + 2 <= p.Length
    modifies p
    ensures p[..] == old(p[..at]) + PutU16(v) + old(p[at + 2..])
  {
    p[at] := v / 0x100;
    p[at + 1] := v % 0x100;
  }

  method WriteI16(p: array<uint8>, at: nat, v: int16)
    requires at + 2 <= p.Length
    modifies p
    ensures p[..] == old(p[..at]) + PutI16(v) + old(p[at + 2..])
  {
    WriteU16(p, at, ToU16(v));
  }

  method WriteU32(p: array<uint8>, at: nat, v: uint32)
    requires at + 4 <= p.Length
    modifies p
    ensures p[..] == old(p[..at]) + PutU32(v) + old(p[at + 4..])
  {
    p[at] := v / 0x100_0000;
    p[at + 1] := v / 0x1_0000 % 0x100;
    p[at + 2] := v / 0x100 % 0x100;
    p[at + 3] := v % 0x100;
  }

  /** `memcpy` of all of `source` to offset `at`. */
  method CopyBytes(p: array<uint8>, at: nat, source: octets)
    requires at + |source| <= p.Length
    modifies p
    ensures p[..] == old(p[..at]) + source + old(p[at + |source|..])
  {
    forall i | 0 <= i < |source| {
      p[at + i] := source[i];
    }
  }
}
