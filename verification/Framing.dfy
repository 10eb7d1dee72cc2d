/**
  How a byte stream is cut into messages (the receive loop of src/net/tcp_connection.cpp), as a function
  of the bytes alone, and its laws.  The loop itself is in TcpConnection.dfy.
*/
module Framing {
  import opened Octets
  import opened Protocol
  import opened ProtocolLaws

  /** Messages found, bytes left over, and whether the loop ran into an undefined read. */
  datatype Parsed = Parsed(messages: seq<Message>, rest: octets, stuck: bool)

  /** Length of the frame at the front of `s`, if all of it is there. */
  function FrameLength(s: octets): (n: Option<nat>)
    ensures n.Some? ==> HEADER_SIZE <= n.value <= |s|
  {
    if |s| < HEADER_SIZE || |s| < HEADER_SIZE + GetU16(s, 2) as int then None
    else Some(HEADER_SIZE + GetU16(s, 2) as int)
  }

  function HeaderOf(s: octets): Header
    requires HEADER_SIZE <= |s|
  {
    Header(GetU16(s, 0), GetU16(s, 2), GetU32(s, 4))
  }

  /** Frames whose payload does not decode are skipped. */
  function Parse(s: octets): Parsed {
    match FrameLength(s)
    case None => Parsed([], s, false)
    case Some(n) =>
      match DecodePayload(HeaderOf(s).kind, s[HEADER_SIZE..n])
      case Undefined => Parsed([], s, true)
      case Rejected => Parse(s[n..])
      case Accepted(p) =>
        var later := Parse(s[n..]);
        later.(messages := [Message(HeaderOf(s), p)] + later.messages)
  }

  // ---------- Cutting the stream anywhere changes nothing ----------

  lemma FrameLengthStable(a: octets, b: octets)
    requires FrameLength(a).Some?
    ensures FrameLength(a + b) == FrameLength(a) && HeaderOf(a + b) == HeaderOf(a)
    ensures var n := FrameLength(a).value;
            (a + b)[HEADER_SIZE..n] == a[HEADER_SIZE..n] && (a + b)[n..] == a[n..] + b
  {
  }

  /** The receive loop carrying on from `first` when the bytes `b` arrive. */
  function Resume(first: Parsed, b: octets): Parsed {
    if first.stuck then first.(rest := first.rest + b)
    else
      var second := Parse(first.rest + b);
      second.(messages := first.messages + second.messages)
  }

  function Prepend(m: Message, later: Parsed): Parsed {
    later.(messages := [m] + later.messages)
  }

  /** One turn of the receive loop. */
  lemma ParseStep(s: octets)
    ensures match FrameLength(s)
            case None => Parse(s) == Parsed([], s, false)
            case Some(n) =>
              match DecodePayload(HeaderOf(s).kind, s[HEADER_SIZE..n])
              case Undefined => Parse(s) == Parsed([], s, true)
              case Rejected => Parse(s) == Parse(s[n..])
              case Accepted(p) => Parse(s) == Prepend(Message(HeaderOf(s), p), Parse(s[n..]))
  {
  }

  lemma ResumePrepend(m: Message, first: Parsed, b: octets)
    ensures Resume(Prepend(m, first), b) == Prepend(m, Resume(first, b))
  {
    if !first.stuck {
      var more := Parse(first.rest + b).messages;
      assert [m] + first.messages + more == [m] + (first.messages + more);
    }
  }

  /** Reading `a` and later `b` finds what reading `a + b` finds. */
  lemma {:induction false} ParseAppend(a: octets, b: octets)
    ensures Parse(a + b) == Resume(Parse(a), b)
    decreases |a|
  {
    hide DecodePayload, Parse;
    ParseStep(a);
    match FrameLength(a)
    case None =>
    case Some(n) =>
      FrameLengthStable(a, b);
      ParseStep(a + b);
      match DecodePayload(HeaderOf(a).kind, a[HEADER_SIZE..n])
      case Undefined =>
      case Rejected => ParseAppend(a[n..], b);
      case Accepted(p) =>
        ParseAppend(a[n..], b);
        ResumePrepend(Message(HeaderOf(a), p), Parse(a[n..]), b);
  }

  /** What has been delivered after some of the bytes is a prefix of what is delivered after more. */
  lemma ParseMonotone(s: octets, k: nat)
    requires k <= |s|
    ensures Parse(s[..k]).messages <= Parse(s).messages
  {
    assert s == s[..k] + s[k..];
    ParseAppend(s[..k], s[k..]);
  }

  lemma {:induction false} RestHasNoFrame(s: octets)
    ensures !Parse(s).stuck ==> FrameLength(Parse(s).rest).None?
    decreases |s|
  {
    match FrameLength(s)
    case None =>
    case Some(n) => RestHasNoFrame(s[n..]);
  }

  // ---------- Resynchronisation on arbitrary frames ----------

  datatype Frame = Frame(kind: uint16, sequence: uint32, body: octets)

  predicate FitsFrame(f: Frame) {
    |f.body| <= 0xFFFF
  }

  function FrameBytes(f: Frame): octets
    requires FitsFrame(f)
  {
    EncodeHeader(Header(f.kind, |f.body|, f.sequence)) + f.body
  }

  function StreamBytes(fs: seq<Frame>): octets
    requires forall f <- fs :: FitsFrame(f)
  {
    if fs == [] then [] else FrameBytes(fs[0]) + StreamBytes(fs[1..])
  }

  /** The messages of those frames whose payload decodes, in order. */
  function DecodableFrames(fs: seq<Frame>): seq<Message> {
    if fs == [] then []
    else
      match DecodePayload(fs[0].kind, fs[0].body)
      case Accepted(p) =>
        [Message(Header(fs[0].kind, |fs[0].body| % 0x1_0000, fs[0].sequence), p)] + DecodableFrames(fs[1..])
      case _ => DecodableFrames(fs[1..])
  }

  lemma FrontFrame(f: Frame, after: octets)
    requires FitsFrame(f)
    ensures var s := FrameBytes(f) + after;
            && FrameLength(s) == Some(HEADER_SIZE + |f.body|)
            && HeaderOf(s) == Header(f.kind, |f.body|, f.sequence)
            && s[HEADER_SIZE..HEADER_SIZE + |f.body|] == f.body
            && s[HEADER_SIZE + |f.body|..] == after
  {
    var h := Header(f.kind, |f.body|, f.sequence);
    assert FrameBytes(f) + after == EncodeHeader(h) + (f.body + after);
    HeaderRoundTrip(h, f.body + after);
  }

  /** A frame that does not decode disturbs none of its neighbours. */
  lemma {:induction false} Resynchronises(fs: seq<Frame>, tail: octets)
    requires forall f <- fs :: FitsFrame(f) && DecodePayload(f.kind, f.body) != Undefined
    requires FrameLength(tail).None?
    ensures Parse(StreamBytes(fs) + tail) == Parsed(DecodableFrames(fs), tail, false)
  {
    hide DecodePayload, Parse, FrameBytes, FrameLength, HeaderOf;
    if fs == [] {
      assert StreamBytes(fs) + tail == tail;
      ParseStep(tail);
    } else {
      var after := StreamBytes(fs[1..]) + tail;
      var s := FrameBytes(fs[0]) + after;
      assert StreamBytes(fs) + tail == s;
      FrontFrame(fs[0], after);
      ParseStep(s);
      Resynchronises(fs[1..], tail);
    }
  }

  /** Calling `deserialize_message` over and over until it fails. */
  function DecodeRepeatedly(s: octets): seq<Message> {
    match DecodeMessage(s)
    case Accepted((m, n)) => if 0 < n <= |s| then [m] + DecodeRepeatedly(s[n..]) else []
    case _ => []
  }

  /** `deserialize_message` sees the same frame as the receive loop. */
  lemma DecodeStep(s: octets)
    ensures match FrameLength(s)
            case None => DecodeMessage(s) == Rejected
            case Some(n) =>
              match DecodePayload(HeaderOf(s).kind, s[HEADER_SIZE..n])
              case Undefined => DecodeMessage(s) == Undefined
              case Rejected => DecodeMessage(s) == Rejected
              case Accepted(p) => DecodeMessage(s) == Accepted((Message(HeaderOf(s), p), n))
  {
    hide DecodePayload;
  }

  /** On any stream, repeated decoding delivers what the receive loop delivers, up to the first bad frame. */
  lemma {:induction false} RepeatedDecodePrefix(s: octets)
    ensures DecodeRepeatedly(s) <= Parse(s).messages
    decreases |s|
  {
    hide DecodePayload, DecodeMessage, Parse;
    DecodeStep(s);
    ParseStep(s);
    match FrameLength(s)
    case None =>
    case Some(n) =>
      if DecodePayload(HeaderOf(s).kind, s[HEADER_SIZE..n]).Accepted? {
        RepeatedDecodePrefix(s[n..]);
      }
  }

  /** The two agree on streams in which every frame decodes. */
  lemma {:induction false} RepeatedDecodeAgrees(fs: seq<Frame>, tail: octets)
    requires forall f <- fs :: FitsFrame(f) && DecodePayload(f.kind, f.body).Accepted?
    requires FrameLength(tail).None?
    ensures DecodeRepeatedly(StreamBytes(fs) + tail) == Parse(StreamBytes(fs) + tail).messages
    ensures |DecodeRepeatedly(StreamBytes(fs) + tail)| == |fs|
  {
    hide DecodePayload, DecodeMessage, Parse, FrameBytes, FrameLength, HeaderOf;
    if fs == [] {
      assert StreamBytes(fs) + tail == tail;
      DecodeStep(tail);
      ParseStep(tail);
    } else {
      var after := StreamBytes(fs[1..]) + tail;
      var s := FrameBytes(fs[0]) + after;
      assert StreamBytes(fs) + tail == s;
      FrontFrame(fs[0], after);
      DecodeStep(s);
      ParseStep(s);
      RepeatedDecodeAgrees(fs[1..], tail);
    }
  }

  // ---------- A clipboard that does not fit its frame ----------

  /**
    A clipboard whose length is a multiple of 2^16 is announced as five bytes: the loop skips those and
    goes on to read the clipboard's own content as messages.
  */
  lemma OversizeClipboardIsReparsed(format: uint8, data: octets, sequence: uint32, after: octets)
    requires 0 < |data| < 0x1_0000_0000 - 5 && |data| % 0x1_0000 == 0
    ensures Parse(EncodeMessage(Stamp(ClipboardUpdate(format, data), sequence)) + after) == Parse(data + after)
  {
    hide Parse, DecodePayload, FrameBytes, EncodeMessage, FrameLength, HeaderOf, PutU32;
    var f := Frame(CLIPBOARD_UPDATE, sequence, [format] + PutU32(|data|));
    OversizeClipboardBytes(format, data, sequence);
    assert FrameBytes(f) + data + after == FrameBytes(f) + (data + after);
    FrontFrame(f, data + after);
    ParseStep(FrameBytes(f) + (data + after));
    LoneClipboardHeader(format, |data|);
  }

  lemma OversizeClipboardBytes(format: uint8, data: octets, sequence: uint32)
    requires 0 < |data| < 0x1_0000_0000 - 5 && |data| % 0x1_0000 == 0
    ensures EncodeMessage(Stamp(ClipboardUpdate(format, data), sequence))
         == FrameBytes(Frame(CLIPBOARD_UPDATE, sequence, [format] + PutU32(|data|))) + data
  {
    hide PutU32, EncodeHeader;
    var payload := EncodePayload(ClipboardUpdate(format, data));
    assert payload == [format] + PutU32(|data|) + data;
    assert ToU16(|payload|) == 5;
    var h := EncodeHeader(Header(CLIPBOARD_UPDATE, 5, sequence));
    assert h + payload == h + ([format] + PutU32(|data|)) + data;
  }

  /** The five bytes before a clipboard's content promise content that is not there. */
  lemma LoneClipboardHeader(format: uint8, n: uint32)
    requires 0 < n < 0x1_0000_0000 - 5
    ensures DecodePayload(CLIPBOARD_UPDATE, [format] + PutU32(n)) == Rejected
  {
    hide PutU32, GetU32;
    assert [format] + PutU32(n) == [format] + PutU32(n) + [];
    GetPutU32([format], n, []);
  }

  /** For example, 65536 bytes that begin like a key press deliver that key press, which nobody sent. */
  lemma ClipboardReadAsKey(data: octets, sequence: uint32)
    requires |data| == 0x1_0000 && data[..14] == EncodeMessage(Stamp(KeyDown(4, 0), 0))
    ensures var found := Parse(EncodeMessage(Stamp(ClipboardUpdate(0, data), sequence))).messages;
            found != [] && found[0] == Stamp(KeyDown(4, 0), 0)
  {
    hide Parse, EncodeMessage;
    var m := Stamp(KeyDown(4, 0), 0);
    OversizeClipboardIsReparsed(0, data, sequence, []);
    var e := EncodeMessage(Stamp(ClipboardUpdate(0, data), sequence));
    assert e + [] == e && data + [] == data;
    StampEncodable(KeyDown(4, 0), 0);
    ParseOne(m, data[14..]);
    assert data == EncodeMessage(m) + data[14..];
  }

  // ---------- Streams of sent messages ----------

  function EncodeAll(ms: seq<Message>): octets {
    if ms == [] then [] else EncodeMessage(ms[0]) + EncodeAll(ms[1..])
  }

  function CanonAll(ms: seq<Message>): (r: seq<Message>)
    ensures |r| == |ms|
  {
    seq(|ms|, i requires 0 <= i < |ms| => CanonMessage(ms[i]))
  }

  predicate AllEncodable(ms: seq<Message>) {
    forall m <- ms :: Encodable(m)
  }

  lemma {:induction false} EncodeAllAppend(a: seq<Message>, b: seq<Message>)
    ensures EncodeAll(a + b) == EncodeAll(a) + EncodeAll(b)
  {
    if a == [] {
      assert a + b == b;
    } else {
      assert (a + b)[1..] == a[1..] + b;
      EncodeAllAppend(a[1..], b);
    }
  }

  function FrameOf(m: Message): Frame {
    Frame(m.header.kind, m.header.sequence, EncodePayload(m.payload))
  }

  lemma EncodingIsFrame(m: Message)
    requires Encodable(m)
    ensures FitsFrame(FrameOf(m)) && EncodeMessage(m) == FrameBytes(FrameOf(m))
  {
  }

  lemma ParseOne(m: Message, after: octets)
    requires Encodable(m)
    ensures Parse(EncodeMessage(m) + after) == Prepend(CanonMessage(m), Parse(after))
  {
    hide Parse, DecodePayload, EncodePayload;
    EncodingIsFrame(m);
    FrontFrame(FrameOf(m), after);
    ParseStep(EncodeMessage(m) + after);
    PayloadRoundTrip(m.payload);
  }

  /** A tail too short to be the next frame is kept, not delivered. */
  lemma {:induction false} ParseSent(ms: seq<Message>, tail: octets)
    requires AllEncodable(ms) && FrameLength(tail).None?
    ensures Parse(EncodeAll(ms) + tail) == Parsed(CanonAll(ms), tail, false)
  {
    hide Parse, EncodeMessage, CanonMessage, Encodable;
    if ms == [] {
      assert EncodeAll(ms) + tail == tail;
      ParseStep(tail);
    } else {
      var after := EncodeAll(ms[1..]) + tail;
      assert EncodeAll(ms) + tail == EncodeMessage(ms[0]) + after;
      ParseOne(ms[0], after);
      ParseSent(ms[1..], tail);
      assert CanonAll(ms) == [CanonMessage(ms[0])] + CanonAll(ms[1..]);
    }
  }

  lemma CutFrameIsNoFrame(m: Message, k: nat)
    requires Encodable(m) && k < |EncodeMessage(m)|
    ensures FrameLength(EncodeMessage(m)[..k]).None?
  {
    if HEADER_SIZE <= k {
      EncodingIsFrame(m);
      assert EncodeMessage(m) == FrameBytes(FrameOf(m)) + [];
      FrontFrame(FrameOf(m), []);
    }
  }

  /** How many of the messages lie wholly within the first `k` bytes. */
  function WholeMessages(ms: seq<Message>, k: nat): (j: nat)
    ensures j <= |ms|
  {
    if ms == [] || k < |EncodeMessage(ms[0])| then 0
    else 1 + WholeMessages(ms[1..], k - |EncodeMessage(ms[0])|)
  }

  lemma EncodeAllFront(ms: seq<Message>, j: nat)
    requires 0 < j <= |ms|
    ensures EncodeAll(ms[..j]) == EncodeMessage(ms[0]) + EncodeAll(ms[1..][..j - 1])
  {
    assert ms[..j][1..] == ms[1..][..j - 1];
  }

  /** Where the cut falls: `j` whole encodings, then a strict prefix of the next one. */
  lemma {:induction false} CutPoint(ms: seq<Message>, k: nat)
    requires k <= |EncodeAll(ms)|
    ensures var j := WholeMessages(ms, k);
            var start := |EncodeAll(ms[..j])|;
            && start <= k && EncodeAll(ms)[..start] == EncodeAll(ms[..j])
            && if j == |ms| then start == k
               else
                 && k - start < |EncodeMessage(ms[j])|
                 && EncodeAll(ms)[start..k] == EncodeMessage(ms[j])[..k - start]
  {
    hide EncodeMessage;
    var j := WholeMessages(ms, k);
    if 0 < j {
      var n, later := |EncodeMessage(ms[0])|, ms[1..];
      CutPoint(later, k - n);
      EncodeAllFront(ms, j);
      assert EncodeAll(ms) == EncodeMessage(ms[0]) + EncodeAll(later);
      var start := |EncodeAll(later[..j - 1])|;
      assert EncodeAll(ms)[..n + start] == EncodeMessage(ms[0]) + EncodeAll(later)[..start];
      assert EncodeAll(ms)[n + start..k] == EncodeAll(later)[start..k - n];
      assert j < |ms| ==> later[j - 1] == ms[j];
    } else {
      assert ms[..0] == [];
    }
  }

  lemma {:induction false} AllWhole(ms: seq<Message>)
    ensures WholeMessages(ms, |EncodeAll(ms)|) == |ms|
  {
    if ms != [] {
      AllWhole(ms[1..]);
    }
  }

  /**
    After any prefix of the bytes, exactly the messages that lie wholly inside it have been delivered,
    in order, and the cut-off tail is still waiting.
  */
  lemma PrefixDelivery(ms: seq<Message>, k: nat)
    requires AllEncodable(ms) && k <= |EncodeAll(ms)|
    ensures var j := WholeMessages(ms, k);
            var start := |EncodeAll(ms[..j])|;
            start <= k && Parse(EncodeAll(ms)[..k]) == Parsed(CanonAll(ms[..j]), EncodeAll(ms)[start..k], false)
    ensures k == |EncodeAll(ms)| ==> WholeMessages(ms, k) == |ms|
  {
    hide EncodeMessage, Parse;
    CutPoint(ms, k);
    AllWhole(ms);
    var j := WholeMessages(ms, k);
    var start := |EncodeAll(ms[..j])|;
    var tail := EncodeAll(ms)[start..k];
    assert EncodeAll(ms)[..k] == EncodeAll(ms)[..start] + tail;
    if j < |ms| {
      assert Encodable(ms[j]);
      CutFrameIsNoFrame(ms[j], |tail|);
    }
    ParseSent(ms[..j], tail);
  }
}
