/**
  The wire protocol (src/core/protocol.h, src/core/protocol.cpp): fourteen payload types behind an
  eight-byte big-endian header.  The `Encode...` functions say what the bytes are; the `Serialize...`
  methods fill a buffer in place, as the program does, and are proved to produce those bytes.
*/
module Protocol {
  import opened Octets

  const PROTOCOL_VERSION: uint16 := 1
  const DEFAULT_UDP_PORT: uint16 := 24801
  const HEADER_SIZE := 8
  const MAX_PAYLOAD_SIZE := 10 * 1024 * 1024

  // Message types.  A decoded header may hold any 16-bit value, so a type is a number.
  const MOUSE_MOVE: uint16 := 0x0001
  const MOUSE_MOVE_ABS: uint16 := 0x0002
  const MOUSE_BUTTON: uint16 := 0x0003
  const MOUSE_SCROLL: uint16 := 0x0004
  const KEY_DOWN: uint16 := 0x0005
  const KEY_UP: uint16 := 0x0006
  const SCREEN_ENTER: uint16 := 0x0007
  const SCREEN_LEAVE: uint16 := 0x0008
  const CLIPBOARD_UPDATE: uint16 := 0x0010
  const HELLO: uint16 := 0x0020
  const HELLO_ACK: uint16 := 0x0021
  const DISCONNECT: uint16 := 0x0022
  const RECONNECT: uint16 := 0x0023
  const KEEPALIVE: uint16 := 0x00FF

  datatype Payload =
    | MouseMove(dx: int16, dy: int16)
    | MouseMoveAbs(x: uint16, y: uint16)
    | MouseButton(button: uint8, pressed: uint8)
    | MouseScroll(sx: int16, sy: int16)
    | KeyDown(scancode: uint16, modifiers: uint32)
    | KeyUp(scancode: uint16, modifiers: uint32)
    | ScreenEnter(entryX: uint16, entryY: uint16, w: uint16, h: uint16)
    | ScreenLeave
    | ClipboardUpdate(format: uint8, data: octets)
    | Hello(version: uint16, screenW: uint16, screenH: uint16, name: octets)
    | HelloAck(version: uint16, accepted: uint8)
    | Disconnect
    | Reconnect
    | Keepalive

  /** What a machine's clipboard holds. */
  datatype Clip = Clip(format: uint8, data: octets)

  datatype Header = Header(kind: uint16, payloadLength: uint16, sequence: uint32)

  datatype Message = Message(header: Header, payload: Payload)

  /** `Undefined` is a read past the end of the buffer, which C++ leaves undefined. */
  datatype Decoded<+T> = Accepted(value: T) | Rejected | Undefined

  function TypeOf(p: Payload): uint16 {
    match p
    case MouseMove(_, _) => MOUSE_MOVE
    case MouseMoveAbs(_, _) => MOUSE_MOVE_ABS
    case MouseButton(_, _) => MOUSE_BUTTON
    case MouseScroll(_, _) => MOUSE_SCROLL
    case KeyDown(_, _) => KEY_DOWN
    case KeyUp(_, _) => KEY_UP
    case ScreenEnter(_, _, _, _) => SCREEN_ENTER
    case ScreenLeave => SCREEN_LEAVE
    case ClipboardUpdate(_, _) => CLIPBOARD_UPDATE
    case Hello(_, _, _, _) => HELLO
    case HelloAck(_, _) => HELLO_ACK
    case Disconnect => DISCONNECT
    case Reconnect => RECONNECT
    case Keepalive => KEEPALIVE
  }

  // ---------- What the bytes are ----------

  function NameLength(name: octets): uint8 {
    Min(|name|, 255)
  }

  function EncodePayload(p: Payload): octets {
    match p
    case MouseMove(dx, dy) => PutI16(dx) + PutI16(dy)
    case MouseMoveAbs(x, y) => PutU16(x) + PutU16(y)
    case MouseButton(b, d) => [b, d]
    case MouseScroll(dx, dy) => PutI16(dx) + PutI16(dy)
    case KeyDown(code, mods) => PutU16(code) + PutU32(mods)
    case KeyUp(code, mods) => PutU16(code) + PutU32(mods)
    case ScreenEnter(x, y, w, h) => PutU16(x) + PutU16(y) + PutU16(w) + PutU16(h)
    case ClipboardUpdate(format, data) => [format] + PutU32(|data| % 0x1_0000_0000) + data
    case Hello(v, w, h, name) =>
      PutU16(v) + PutU16(w) + PutU16(h) + [NameLength(name)] + name[..NameLength(name)]
    case HelloAck(v, accepted) => PutU16(v) + [accepted]
    case _ => []
  }

  function EncodeHeader(h: Header): (b: octets)
    ensures |b| == HEADER_SIZE
  {
    PutU16(h.kind) + PutU16(h.payloadLength) + PutU32(h.sequence)
  }

  function EncodeMessage(m: Message): octets {
    var payload := EncodePayload(m.payload);
    EncodeHeader(m.header.(payloadLength := ToU16(|payload|))) + payload
  }

  // ---------- Reading the bytes ----------

  function DecodeHeader(data: octets): Option<Header> {
    if |data| < HEADER_SIZE then None
    else
      var h := Header(GetU16(data, 0), GetU16(data, 2), GetU32(data, 4));
      if h.payloadLength > MAX_PAYLOAD_SIZE then None else Some(h)
  }

  function DecodePayload(kind: uint16, data: octets): Decoded<Payload> {
    if kind == MOUSE_MOVE then
      if |data| < 4 then Rejected else Accepted(MouseMove(GetI16(data, 0), GetI16(data, 2)))
    else if kind == MOUSE_MOVE_ABS then
      if |data| < 4 then Rejected else Accepted(MouseMoveAbs(GetU16(data, 0), GetU16(data, 2)))
    else if kind == MOUSE_BUTTON then
      if |data| < 2 then Rejected else Accepted(MouseButton(data[0], data[1]))
    else if kind == MOUSE_SCROLL then
      if |data| < 4 then Rejected else Accepted(MouseScroll(GetI16(data, 0), GetI16(data, 2)))
    else if kind == KEY_DOWN then
      if |data| < 6 then Rejected else Accepted(KeyDown(GetU16(data, 0), GetU32(data, 2)))
    else if kind == KEY_UP then
      if |data| < 6 then Rejected else Accepted(KeyUp(GetU16(data, 0), GetU32(data, 2)))
    else if kind == SCREEN_ENTER then
      if |data| < 8 then Rejected
      else Accepted(ScreenEnter(GetU16(data, 0), GetU16(data, 2), GetU16(data, 4), GetU16(data, 6)))
    else if kind == SCREEN_LEAVE then Accepted(ScreenLeave)
    else if kind == CLIPBOARD_UPDATE then DecodeClipboard(data)
    else if kind == HELLO then DecodeHello(data)
    else if kind == HELLO_ACK then
      if |data| < 3 then Rejected else Accepted(HelloAck(GetU16(data, 0), data[2]))
    else if kind == DISCONNECT then Accepted(Disconnect)
    else if kind == RECONNECT then Accepted(Reconnect)
    else if kind == KEEPALIVE then Accepted(Keepalive)
    else Rejected
  }

  /** The length test adds in 32 bits; the copy that follows it uses the full `dataLength`. */
  function DecodeClipboard(data: octets): Decoded<Payload> {
    if |data| < 5 then Rejected
    else
      var dataLength := GetU32(data, 1);
      if |data| < (5 + dataLength) % 0x1_0000_0000 then Rejected
      else if |data| < 5 + dataLength then Undefined
      else Accepted(ClipboardUpdate(data[0], data[5..5 + dataLength]))
  }

  function DecodeHello(data: octets): Decoded<Payload> {
    if |data| < 7 then Rejected
    else if |data| < 7 + data[6] as int then Rejected
    else Accepted(Hello(GetU16(data, 0), GetU16(data, 2), GetU16(data, 4), data[7..7 + data[6] as int]))
  }

  /** One message from the front of `data`, and the number of bytes it took. */
  function DecodeMessage(data: octets): Decoded<(Message, nat)> {
    match DecodeHeader(data)
    case None => Rejected
    case Some(h) =>
      var total := HEADER_SIZE + h.payloadLength;
      if |data| < total then Rejected
      else
        match DecodePayload(h.kind, data[HEADER_SIZE..total])
        case Rejected => Rejected
        case Undefined => Undefined
        case Accepted(p) => Accepted((Message(h, p), total))
  }

  // ---------- Serializers ----------

  method SerializeHeader(h: Header, out: array<uint8>)
    requires HEADER_SIZE <= out.Length
    modifies out
    ensures out[..] == EncodeHeader(h) + old(out[HEADER_SIZE..])
  {
    WriteU16(out, 0, h.kind);
    assert out[..2] == PutU16(h.kind);
    WriteU16(out, 2, h.payloadLength);
    assert out[..4] == PutU16(h.kind) + PutU16(h.payloadLength);
    WriteU32(out, 4, h.sequence);
  }

  method SerializePayload(p: Payload) returns (buf: array<uint8>)
    ensures fresh(buf) && buf[..] == EncodePayload(p)
  {
    match p
    case MouseMove(dx, dy) =>
      buf := new uint8[4];
      WriteI16(buf, 0, dx);
      WriteI16(buf, 2, dy);
    case MouseMoveAbs(x, y) =>
      buf := new uint8[4];
      WriteU16(buf, 0, x);
      WriteU16(buf, 2, y);
    case MouseButton(b, d) =>
      buf := new uint8[2];
      buf[0] := b;
      buf[1] := d;
    case MouseScroll(dx, dy) =>
      buf := new uint8[4];
      WriteI16(buf, 0, dx);
      WriteI16(buf, 2, dy);
    case KeyDown(code, mods) =>
      buf := SerializeKey(code, mods);
    case KeyUp(code, mods) =>
      buf := SerializeKey(code, mods);
    case ScreenEnter(x, y, w, h) =>
      buf := new uint8[8];
      WriteU16(buf, 0, x);
      WriteU16(buf, 2, y);
      assert buf[..4] == PutU16(x) + PutU16(y);
      WriteU16(buf, 4, w);
      assert buf[..6] == PutU16(x) + PutU16(y) + PutU16(w);
      WriteU16(buf, 6, h);
    case ClipboardUpdate(format, data) =>
      buf := new uint8[5 + |data|];
      buf[0] := format;
      WriteU32(buf, 1, |data| % 0x1_0000_0000);
      assert buf[..5] == [format] + PutU32(|data| % 0x1_0000_0000);
      CopyBytes(buf, 5, data);
    case Hello(v, w, h, name) =>
      buf := SerializeHello(v, w, h, name);
    case HelloAck(v, accepted) =>
      buf := new uint8[3];
      WriteU16(buf, 0, v);
      buf[2] := accepted;
    case _ =>
      buf := new uint8[0];
  }

  method SerializeKey(code: uint16, mods: uint32) returns (buf: array<uint8>)
    ensures fresh(buf) && buf[..] == PutU16(code) + PutU32(mods)
  {
    buf := new uint8[6];
    WriteU16(buf, 0, code);
    WriteU32(buf, 2, mods);
  }

  method SerializeHello(v: uint16, w: uint16, h: uint16, name: octets) returns (buf: array<uint8>)
    ensures fresh(buf) && buf[..] == EncodePayload(Hello(v, w, h, name))
  {
    var nameLength := NameLength(name);
    buf := new uint8[7 + nameLength];
    WriteU16(buf, 0, v);
    WriteU16(buf, 2, w);
    assert buf[..4] == PutU16(v) + PutU16(w);
    WriteU16(buf, 4, h);
    assert buf[..6] == PutU16(v) + PutU16(w) + PutU16(h);
    buf[6] := nameLength;
    assert buf[..7] == PutU16(v) + PutU16(w) + PutU16(h) + [nameLength];
    CopyBytes(buf, 7, name[..nameLength]);
  }

  method SerializeMessage(m: Message) returns (buf: array<uint8>)
    ensures fresh(buf) && buf[..] == EncodeMessage(m)
  {
    var payload := SerializePayload(m.payload);
    buf := new uint8[HEADER_SIZE + payload.Length];
    var h := m.header.(payloadLength := ToU16(payload.Length));
    SerializeHeader(h, buf);
    assert buf[..HEADER_SIZE] == EncodeHeader(h);
    if payload.Length != 0 {
      CopyBytes(buf, HEADER_SIZE, payload[..]);
    }
  }

  // ---------- make_message ----------

  /** The message `make_message` builds when the sequence counter reads `sequence`. */
  function Stamp(p: Payload, sequence: uint32): Message {
    Message(Header(TypeOf(p), ToU16(|EncodePayload(p)|), sequence), p)
  }

  /** The process-wide sequence counter. */
  class Sequencer {
    var sequence: uint32

    constructor ()
      ensures sequence == 0
    {
      sequence := 0;
    }

    /** `fetch_add(1)` on an unsigned 32-bit counter. */
    method MakeMessage(p: Payload) returns (m: Message)
      modifies this
      ensures m == Stamp(p, old(sequence)) && m.payload == p && m.header.sequence == old(sequence)
      ensures sequence == (old(sequence) + 1) % 0x1_0000_0000
    {
      var payload := SerializePayload(p);
      m := Message(Header(TypeOf(p), ToU16(payload.Length), sequence), p);
      sequence := (sequence + 1) % 0x1_0000_0000;
    }

    method ResetSequence()
      modifies this
      ensures sequence == 0
    {
      sequence := 0;
    }
  }
}
