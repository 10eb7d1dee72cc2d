/** What the codec promises: round trip, unique parse and normal form, with the exact width limits. */
module ProtocolLaws {
  import opened Octets
  import opened Protocol

  /** What survives the wire: a Hello name is cut to 255 bytes. */
  function CanonPayload(p: Payload): Payload {
    match p
    case Hello(v, w, h, name) => Hello(v, w, h, name[..NameLength(name)])
    case _ => p
  }

  function CanonMessage(m: Message): Message {
    Message(m.header.(payloadLength := ToU16(|EncodePayload(m.payload)|)), CanonPayload(m.payload))
  }

  /** The type field names the payload, and the payload length fits the sixteen-bit length field. */
  predicate Encodable(m: Message) {
    m.header.kind == TypeOf(m.payload) && |EncodePayload(m.payload)| <= 0xFFFF
  }

  // ---------- Round trip ----------

  /** The length field, read from an encoded clipboard or any prefix that still contains it. */
  lemma ClipboardLength(format: uint8, data: octets, k: nat)
    requires |data| < 0x1_0000_0000
    requires 5 <= k <= 5 + |data|
    ensures var e := EncodePayload(ClipboardUpdate(format, data));
            |e| == 5 + |data| && e[0] == format && e[5..] == data && GetU32(e[..k], 1) == |data|
  {
    var n: uint32 := |data|;
    var e := EncodePayload(ClipboardUpdate(format, data));
    assert n % 0x1_0000_0000 == n;
    assert e == [format] + PutU32(n) + data;
    assert e[..k] == [format] + PutU32(n) + data[..k - 5];
    GetPutU32([format], n, data[..k - 5]);
  }

  lemma ClipboardRoundTrip(format: uint8, data: octets, junk: octets)
    requires |data| < 0x1_0000_0000 - 5
    ensures DecodeClipboard(EncodePayload(ClipboardUpdate(format, data)) + junk) == Accepted(ClipboardUpdate(format, data))
  {
    var e := EncodePayload(ClipboardUpdate(format, data));
    ClipboardLength(format, data, 5 + |data|);
    assert e[..5 + |data|] == e;
    GetInPrefix(e, junk, 1);
    assert (e + junk)[5..5 + |data|] == e[5..] == data;
  }

  lemma GetInPrefix(a: octets, b: octets, at: nat)
    requires at + 4 <= |a|
    ensures GetU32(a + b, at) == GetU32(a, at)
  {
  }

  lemma HelloRoundTrip(v: uint16, w: uint16, h: uint16, name: octets, junk: octets)
    ensures DecodeHello(EncodePayload(Hello(v, w, h, name)) + junk) == Accepted(CanonPayload(Hello(v, w, h, name)))
  {
    var e := EncodePayload(Hello(v, w, h, name)) + junk;
    var n := NameLength(name);
    var tail := [n] + name[..n] + junk;
    assert e == [] + PutU16(v) + (PutU16(w) + PutU16(h) + tail);
    GetPutU16([], v, PutU16(w) + PutU16(h) + tail);
    assert e == PutU16(v) + PutU16(w) + (PutU16(h) + tail);
    GetPutU16(PutU16(v), w, PutU16(h) + tail);
    assert e == PutU16(v) + PutU16(w) + PutU16(h) + tail;
    GetPutU16(PutU16(v) + PutU16(w), h, tail);
    assert e[6] == n && e[7..7 + n] == name[..n];
  }

  lemma KeyFields(code: uint16, mods: uint32, junk: octets)
    ensures var e := PutU16(code) + PutU32(mods) + junk;
            |e| >= 6 && GetU16(e, 0) == code && GetU32(e, 2) == mods
  {
    hide PutU16, PutU32, GetU16, GetU32;
    GetPutU16([], code, PutU32(mods) + junk);
    GetPutU32(PutU16(code), mods, junk);
    assert [] + PutU16(code) + (PutU32(mods) + junk) == PutU16(code) + PutU32(mods) + junk;
  }

  lemma DeltaFields(dx: int16, dy: int16, junk: octets)
    ensures var e := PutI16(dx) + PutI16(dy) + junk;
            |e| >= 4 && GetI16(e, 0) == dx && GetI16(e, 2) == dy
  {
    hide PutI16, GetI16;
    GetPutI16([], dx, PutI16(dy) + junk);
    GetPutI16(PutI16(dx), dy, junk);
    assert [] + PutI16(dx) + (PutI16(dy) + junk) == PutI16(dx) + PutI16(dy) + junk;
  }

  lemma FixedFieldsRoundTrip(p: Payload, junk: octets)
    requires !p.ClipboardUpdate? && !p.Hello?
    ensures DecodePayload(TypeOf(p), EncodePayload(p) + junk) == Accepted(p)
  {
    match p
    case MouseMove(dx, dy) => hide PutI16, GetI16; DeltaFields(dx, dy, junk);
    case MouseScroll(dx, dy) => hide PutI16, GetI16; DeltaFields(dx, dy, junk);
    case KeyDown(code, mods) => hide PutU16, PutU32, GetU16, GetU32; KeyFields(code, mods, junk);
    case KeyUp(code, mods) => hide PutU16, PutU32, GetU16, GetU32; KeyFields(code, mods, junk);
    case _ =>
  }

  /** The codec keeps the first 255 bytes of a name and changes nothing else. */
  lemma NameCut(p: Payload)
    ensures CanonPayload(p) == if p.Hello? && |p.name| > 255 then p.(name := p.name[..255]) else p
  {
    if p.Hello? && |p.name| <= 255 {
      assert p.name[..|p.name|] == p.name;
    }
  }

  /** Bytes after the payload do not matter. */
  lemma PayloadWithJunk(p: Payload, junk: octets)
    requires p.ClipboardUpdate? ==> |p.data| < 0x1_0000_0000 - 5
    ensures DecodePayload(TypeOf(p), EncodePayload(p) + junk) == Accepted(CanonPayload(p))
  {
    match p
    case ClipboardUpdate(format, data) => ClipboardRoundTrip(format, data, junk);
    case Hello(v, w, h, name) => HelloRoundTrip(v, w, h, name, junk);
    case _ => FixedFieldsRoundTrip(p, junk);
  }

  lemma PayloadRoundTrip(p: Payload)
    requires |EncodePayload(p)| <= 0xFFFF
    ensures DecodePayload(TypeOf(p), EncodePayload(p)) == Accepted(CanonPayload(p))
  {
    assert EncodePayload(p) + [] == EncodePayload(p);
    PayloadWithJunk(p, []);
  }

  /** What is decoded is what the bytes begin with. */
  lemma DecodedIsPrefix(kind: uint16, data: octets)
    requires DecodePayload(kind, data).Accepted?
    ensures EncodePayload(DecodePayload(kind, data).value) <= data
  {
    hide GetU16, GetU32, GetI16, PutU16, PutU32, PutI16;
    if kind == HELLO {
      DecodedHelloIsPrefix(data);
    } else if kind == CLIPBOARD_UPDATE {
      DecodedClipboardIsPrefix(data);
    } else {
      forall at: nat | at + 2 <= |data| ensures PutU16(GetU16(data, at)) == data[at..at + 2] { PutGetU16(data, at); }
      forall at: nat | at + 2 <= |data| ensures PutI16(GetI16(data, at)) == data[at..at + 2] { PutGetI16(data, at); }
      forall at: nat | at + 4 <= |data| ensures PutU32(GetU32(data, at)) == data[at..at + 4] { PutGetU32(data, at); }
    }
  }

  lemma DecodedClipboardIsPrefix(data: octets)
    requires DecodeClipboard(data).Accepted?
    ensures EncodePayload(DecodeClipboard(data).value) <= data
  {
    hide GetU32, PutU32, DecodeClipboard, EncodePayload;
    DecodedClipboardParts(data);
    PutGetU32(data, 1);
    var n: int := GetU32(data, 1);
    ClipboardPayload(data[0], data[5..5 + n]);
    ThreeParts(data, 1, 5, 5 + n);
  }

  lemma DecodedClipboardParts(data: octets)
    requires DecodeClipboard(data).Accepted?
    ensures 5 <= |data| && 5 + GetU32(data, 1) as int <= |data|
    ensures DecodeClipboard(data).value == ClipboardUpdate(data[0], data[5..5 + GetU32(data, 1) as int])
  {
    hide GetU32;
  }

  lemma ClipboardPayload(format: uint8, data: octets)
    requires |data| < 0x1_0000_0000
    ensures EncodePayload(ClipboardUpdate(format, data)) == [format] + PutU32(|data|) + data
  {
    hide PutU32;
    assert |data| % 0x1_0000_0000 == |data|;
  }

  lemma ThreeParts(s: octets, a: nat, b: nat, c: nat)
    requires a <= b <= c <= |s|
    ensures s[..a] + s[a..b] + s[b..c] == s[..c] <= s
  {
  }

  lemma DecodedHelloIsPrefix(data: octets)
    requires DecodeHello(data).Accepted?
    ensures EncodePayload(DecodeHello(data).value) <= data
  {
    hide GetU16, PutU16;
    PutGetU16(data, 0);
    PutGetU16(data, 2);
    PutGetU16(data, 4);
    var name := DecodeHello(data).value.name;
    assert name[..|name|] == name;
  }

  /**
    A payload is accepted exactly if it is of the type asked for, its name is not too long, and the bytes
    begin with its encoding.
  */
  lemma AcceptedExactly(kind: uint16, data: octets, p: Payload)
    requires |data| <= 0xFFFF
    ensures DecodePayload(kind, data) == Accepted(p) <==> kind == TypeOf(p) && CanonPayload(p) == p && EncodePayload(p) <= data
  {
    hide DecodePayload, EncodePayload, CanonPayload;
    if DecodePayload(kind, data) == Accepted(p) {
      DecodedFits(kind, data);
      DecodedIsPrefix(kind, data);
    }
    if kind == TypeOf(p) && CanonPayload(p) == p && EncodePayload(p) <= data {
      ClipboardFits(p);
      PayloadWithJunk(p, data[|EncodePayload(p)|..]);
      assert data == EncodePayload(p) + data[|EncodePayload(p)|..];
    }
  }

  lemma ClipboardFits(p: Payload)
    ensures p.ClipboardUpdate? ==> |p.data| <= |EncodePayload(p)|
  {
  }

  lemma HeaderRoundTrip(h: Header, rest: octets)
    ensures DecodeHeader(EncodeHeader(h) + rest) == Some(h)
  {
    var e := EncodeHeader(h) + rest;
    GetPutU16([], h.kind, PutU16(h.payloadLength) + PutU32(h.sequence) + rest);
    assert e == [] + PutU16(h.kind) + (PutU16(h.payloadLength) + PutU32(h.sequence) + rest);
    GetPutU16(PutU16(h.kind), h.payloadLength, PutU32(h.sequence) + rest);
    assert e == PutU16(h.kind) + PutU16(h.payloadLength) + (PutU32(h.sequence) + rest);
    GetPutU32(PutU16(h.kind) + PutU16(h.payloadLength), h.sequence, rest);
  }

  /** How the decoder sees an encoded message: the header's sixteen-bit length decides the frame. */
  lemma DecodeEncoded(m: Message, rest: octets)
    ensures var e := EncodeMessage(m);
            var n := |EncodePayload(m.payload)|;
            && |e| == HEADER_SIZE + n
            && DecodeHeader(e + rest) == Some(m.header.(payloadLength := ToU16(n)))
            && (e + rest)[HEADER_SIZE..HEADER_SIZE + n % 0x1_0000] == EncodePayload(m.payload)[..n % 0x1_0000]
  {
    hide EncodePayload, EncodeHeader, DecodeHeader;
    var h := m.header.(payloadLength := ToU16(|EncodePayload(m.payload)|));
    assert EncodeMessage(m) + rest == EncodeHeader(h) + (EncodePayload(m.payload) + rest);
    HeaderRoundTrip(h, EncodePayload(m.payload) + rest);
  }

  lemma EncodableRoundTrip(m: Message, rest: octets)
    requires Encodable(m)
    ensures DecodeMessage(EncodeMessage(m) + rest) == Accepted((CanonMessage(m), |EncodeMessage(m)|))
  {
    hide DecodePayload, EncodePayload, CanonPayload;
    DecodeEncoded(m, rest);
    PayloadRoundTrip(m.payload);
    var p := EncodePayload(m.payload);
    assert p[..|p|] == p;
  }

  /** Whatever is decoded carries the type it was decoded under and needs no more bytes than it came from. */
  lemma DecodedFits(kind: uint16, data: octets)
    requires DecodePayload(kind, data).Accepted?
    ensures var p := DecodePayload(kind, data).value;
            TypeOf(p) == kind && CanonPayload(p) == p && |EncodePayload(p)| <= |data|
  {
  }

  /**
    Round trip, exactly: with any bytes following, decoding returns the message (name cut, length
    recomputed) and the encoded length if and only if the message is encodable.
  */
  lemma RoundTripExactly(m: Message, rest: octets)
    ensures DecodeMessage(EncodeMessage(m) + rest) == Accepted((CanonMessage(m), |EncodeMessage(m)|))
       <==> Encodable(m)
  {
    if Encodable(m) {
      EncodableRoundTrip(m, rest);
    } else {
      DecodeEncoded(m, rest);
      var data := EncodeMessage(m) + rest;
      var h := DecodeHeader(data).value;
      var total := HEADER_SIZE + h.payloadLength;
      if DecodeMessage(data).Accepted? && m.header.kind != TypeOf(m.payload) {
        DecodedFits(h.kind, data[HEADER_SIZE..total]);
      }
    }
  }

  // ---------- Unique parse ----------

  lemma StrictPrefixRejected(m: Message, k: nat)
    requires Encodable(m) && k < |EncodeMessage(m)|
    ensures DecodeMessage(EncodeMessage(m)[..k]) == Rejected
  {
    hide DecodePayload, EncodePayload;
    var e := EncodeMessage(m);
    if HEADER_SIZE <= k {
      DecodeEncoded(m, []);
      assert e + [] == e;
      var h := DecodeHeader(e).value;
      assert e[..k] == EncodeHeader(h) + e[HEADER_SIZE..k];
      HeaderRoundTrip(h, e[HEADER_SIZE..k]);
    }
  }

  /** Two streams that begin with encodable messages and agree as bytes begin with the same message. */
  lemma UniqueParse(a: Message, restA: octets, b: Message, restB: octets)
    requires Encodable(a) && Encodable(b)
    requires EncodeMessage(a) + restA == EncodeMessage(b) + restB
    ensures CanonMessage(a) == CanonMessage(b) && EncodeMessage(a) == EncodeMessage(b) && restA == restB
  {
    EncodableRoundTrip(a, restA);
    EncodableRoundTrip(b, restB);
    var s, n := EncodeMessage(a) + restA, |EncodeMessage(a)|;
    assert EncodeMessage(a) == s[..n] && EncodeMessage(b) == s[..n];
    assert restA == s[n..] && restB == s[n..];
  }

  lemma CanonEncodesAlike(m: Message)
    ensures EncodeMessage(CanonMessage(m)) == EncodeMessage(m)
    ensures Encodable(CanonMessage(m)) <==> Encodable(m)
  {
    match m.payload
    case Hello(v, w, h, name) =>
      var n := NameLength(name);
      assert name[..n][..NameLength(name[..n])] == name[..n];
    case _ =>
  }

  /** The encoding forgets the name tail and the stale length field, and nothing else. */
  lemma EncodingInjective(a: Message, b: Message)
    requires Encodable(a) && Encodable(b)
    ensures EncodeMessage(a) == EncodeMessage(b) <==> CanonMessage(a) == CanonMessage(b)
  {
    if EncodeMessage(a) == EncodeMessage(b) {
      UniqueParse(a, [], b, []);
    } else {
      CanonEncodesAlike(a);
      CanonEncodesAlike(b);
    }
  }

  // ---------- Normal form ----------

  /**
    The decoder tolerates trailing payload bytes.  Re-encoding what it accepted is never longer than
    what it consumed, and decodes to the same type, sequence number and payload.
  */
  lemma NormalForm(data: octets, rest: octets)
    requires DecodeMessage(data).Accepted?
    ensures var (m, used) := DecodeMessage(data).value;
            var e := EncodeMessage(m);
            && used <= |data| && |e| <= used && Encodable(m)
            && DecodeMessage(e + rest)
               == Accepted((Message(m.header.(payloadLength := |EncodePayload(m.payload)|), m.payload), |e|))
  {
    var (m, used) := DecodeMessage(data).value;
    DecodedFits(m.header.kind, data[HEADER_SIZE..used]);
    EncodableRoundTrip(m, rest);
  }

  // ---------- The bytes themselves ----------

  lemma PutExamples()
    ensures PutU16(1) == [0, 1] && PutU16(0x0102) == [1, 2] && PutU16(0x0203) == [2, 3] && PutU16(0x0304) == [3, 4]
    ensures PutU16(0x0405) == [4, 5] && PutU16(0x0506) == [5, 6] && PutU16(0x0708) == [7, 8]
    ensures PutI16(0x0102) == [1, 2] && PutI16(-2) == [0xFF, 0xFE]
    ensures PutU32(3) == [0, 0, 0, 3] && PutU32(0x0304_0506) == [3, 4, 5, 6]
  {
  }

  /** The frame around a payload of at most 255 bytes. */
  lemma StampBytes(p: Payload, body: octets)
    requires EncodePayload(p) == body && |body| < 0x100
    ensures TypeOf(p) < 0x100 && EncodeMessage(Stamp(p, 1)) == [0, TypeOf(p), 0, |body|, 0, 0, 0, 1] + body
  {
    SmallType(p);
    hide EncodePayload, EncodeHeader, TypeOf;
    FirstHeaderBytes(TypeOf(p), |body|);
  }

  lemma SmallType(p: Payload)
    ensures TypeOf(p) < 0x100
  {
  }

  lemma FirstHeaderBytes(kind: uint16, length: uint16)
    requires kind < 0x100 && length < 0x100
    ensures EncodeHeader(Header(kind, length, 1)) == [0, kind, 0, length, 0, 0, 0, 1]
  {
  }

  /** The sequence number is the last field of the header, its highest byte first. */
  lemma SequenceBytes()
    ensures EncodeMessage(Stamp(Keepalive, 0x0A0B_0C0D)) == [0, 0xFF, 0, 0, 0x0A, 0x0B, 0x0C, 0x0D]
  {
  }

  // One message of each kind, byte for byte: type, length, sequence number and fields, all big-endian.

  lemma MotionBytes()
    ensures EncodeMessage(Stamp(MouseMove(0x0102, -2), 1)) == [0, 0x01, 0, 4, 0, 0, 0, 1, 1, 2, 0xFF, 0xFE]
    ensures EncodeMessage(Stamp(MouseMoveAbs(0x0102, 0x0304), 1)) == [0, 0x02, 0, 4, 0, 0, 0, 1, 1, 2, 3, 4]
    ensures EncodeMessage(Stamp(MouseScroll(0x0102, -2), 1)) == [0, 0x04, 0, 4, 0, 0, 0, 1, 1, 2, 0xFF, 0xFE]
  {
    hide EncodeMessage, Stamp, PutU16, PutI16;
    PutExamples();
    StampBytes(MouseMove(0x0102, -2), [1, 2, 0xFF, 0xFE]);
    StampBytes(MouseMoveAbs(0x0102, 0x0304), [1, 2, 3, 4]);
    StampBytes(MouseScroll(0x0102, -2), [1, 2, 0xFF, 0xFE]);
  }

  lemma ButtonBytes()
    ensures EncodeMessage(Stamp(MouseButton(2, 1), 1)) == [0, 0x03, 0, 2, 0, 0, 0, 1, 2, 1]
  {
    StampBytes(MouseButton(2, 1), [2, 1]);
  }

  lemma KeyBytes()
    ensures EncodeMessage(Stamp(KeyDown(0x0102, 0x0304_0506), 1)) == [0, 0x05, 0, 6, 0, 0, 0, 1, 1, 2, 3, 4, 5, 6]
    ensures EncodeMessage(Stamp(KeyUp(0x0102, 0x0304_0506), 1)) == [0, 0x06, 0, 6, 0, 0, 0, 1, 1, 2, 3, 4, 5, 6]
  {
    hide EncodeMessage, Stamp, PutU16, PutU32;
    PutExamples();
    var body: octets := [1, 2] + [3, 4, 5, 6];
    assert body == [1, 2, 3, 4, 5, 6];
    StampBytes(KeyDown(0x0102, 0x0304_0506), body);
    StampBytes(KeyUp(0x0102, 0x0304_0506), body);
  }

  lemma ScreenBytes()
    ensures EncodeMessage(Stamp(ScreenEnter(0x0102, 0x0304, 0x0506, 0x0708), 1))
         == [0, 0x07, 0, 8, 0, 0, 0, 1, 0x01, 0x02, 0x03, 0x04, 0x05, 0x06, 0x07, 0x08]
    ensures EncodeMessage(Stamp(ScreenLeave, 1)) == [0, 0x08, 0, 0, 0, 0, 0, 1]
  {
    hide EncodeMessage, Stamp, PutU16;
    PutExamples();
    assert EncodePayload(ScreenEnter(0x0102, 0x0304, 0x0506, 0x0708)) == [1, 2] + [3, 4] + [5, 6] + [7, 8];
    StampBytes(ScreenEnter(0x0102, 0x0304, 0x0506, 0x0708), [1, 2, 3, 4, 5, 6, 7, 8]);
    StampBytes(ScreenLeave, []);
  }

  lemma ClipboardBytes()
    ensures EncodeMessage(Stamp(ClipboardUpdate(2, [7, 8, 9]), 1))
         == [0, 0x10, 0, 8, 0, 0, 0, 1, 2, 0, 0, 0, 3, 7, 8, 9]
  {
    hide EncodeMessage, Stamp, PutU32;
    PutExamples();
    StampBytes(ClipboardUpdate(2, [7, 8, 9]), [2, 0, 0, 0, 3, 7, 8, 9]);
  }

  lemma HelloBytes()
    ensures EncodeMessage(Stamp(Hello(1, 0x0203, 0x0405, [0x61, 0x62]), 1))
         == [0, 0x20, 0, 9, 0, 0, 0, 1, 0, 1, 2, 3, 4, 5, 2, 0x61, 0x62]
    ensures EncodeMessage(Stamp(HelloAck(0x0102, 3), 1)) == [0, 0x21, 0, 3, 0, 0, 0, 1, 1, 2, 3]
  {
    hide EncodeMessage, Stamp, PutU16;
    PutExamples();
    assert EncodePayload(Hello(1, 0x0203, 0x0405, [0x61, 0x62])) == [0, 1] + [2, 3] + [4, 5] + [2] + [0x61, 0x62];
    StampBytes(Hello(1, 0x0203, 0x0405, [0x61, 0x62]), [0, 1, 2, 3, 4, 5, 2, 0x61, 0x62]);
    StampBytes(HelloAck(0x0102, 3), [1, 2, 3]);
  }

  lemma ConnectionBytes()
    ensures EncodeMessage(Stamp(Disconnect, 1)) == [0, 0x22, 0, 0, 0, 0, 0, 1]
    ensures EncodeMessage(Stamp(Reconnect, 1)) == [0, 0x23, 0, 0, 0, 0, 0, 1]
    ensures EncodeMessage(Stamp(Keepalive, 1)) == [0, 0xFF, 0, 0, 0, 0, 0, 1]
  {
    hide EncodeMessage, Stamp;
    StampBytes(Disconnect, []);
    StampBytes(Reconnect, []);
    StampBytes(Keepalive, []);
  }

  // ---------- The two width limits ----------

  /** A clipboard that lost its end promises more than there is. */
  lemma CutClipboardRejected(format: uint8, data: octets, k: nat)
    requires |data| <= MAX_PAYLOAD_SIZE && k < 5 + |data|
    ensures |EncodePayload(ClipboardUpdate(format, data))| == 5 + |data|
    ensures DecodePayload(CLIPBOARD_UPDATE, EncodePayload(ClipboardUpdate(format, data))[..k]) == Rejected
  {
    hide PutU32, GetU32;
    if 5 <= k {
      ClipboardLength(format, data, k);
    }
  }

  /** A clipboard over 65530 bytes, up to the 10 MB the protocol header allows for, is never decoded. */
  lemma OversizeClipboardRejected(format: uint8, data: octets, sequence: uint32, rest: octets)
    requires 65530 < |data| <= MAX_PAYLOAD_SIZE
    ensures DecodeMessage(EncodeMessage(Stamp(ClipboardUpdate(format, data), sequence)) + rest) == Rejected
  {
    hide EncodeMessage, EncodePayload, DecodePayload, DecodeHeader;
    DecodeEncoded(Stamp(ClipboardUpdate(format, data), sequence), rest);
    CutClipboardRejected(format, data, (5 + |data|) % 0x1_0000);
  }

  /** The smallest such clipboard: its length field reads zero, so the frame looks empty. */
  lemma OversizeExample()
    ensures var m := Stamp(ClipboardUpdate(0, seq(65531, _ => 0)), 0);
            && m.header.payloadLength == 0
            && DecodeMessage(EncodeMessage(m)) == Rejected
  {
    var data: octets := seq(65531, _ => 0);
    var m := Stamp(ClipboardUpdate(0, data), 0);
    OversizeClipboardRejected(0, data, 0, []);
    assert EncodeMessage(m) + [] == EncodeMessage(m);
  }

  /** The 32-bit length test is wrong exactly when the declared clipboard length is within five of 2^32. */
  lemma UndefinedExactly(kind: uint16, data: octets)
    requires |data| <= 0xFFFF
    ensures DecodePayload(kind, data) == Undefined
       <==> kind == CLIPBOARD_UPDATE && |data| >= 5 && GetU32(data, 1) >= 0x1_0000_0000 - 5
  {
  }

  /** For example, five bytes that declare the longest clipboard there can be. */
  lemma UndefinedExample()
    ensures DecodePayload(CLIPBOARD_UPDATE, [0, 0xFF, 0xFF, 0xFF, 0xFF]) == Undefined
  {
    UndefinedExactly(CLIPBOARD_UPDATE, [0, 0xFF, 0xFF, 0xFF, 0xFF]);
  }

  /** Every message `make_message` builds is encodable, oversize clipboards excepted. */
  lemma StampEncodable(p: Payload, sequence: uint32)
    ensures Encodable(Stamp(p, sequence)) <==> (p.ClipboardUpdate? ==> |p.data| <= 65530)
  {
  }
}
