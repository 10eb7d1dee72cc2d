/**
  The layers stacked: the server's trace, encoded and cut anywhere on its way, parsed by the receive
  loop and handled by the client.  This also discharges the channel that Session.dfy assumes.
*/
module EndToEnd {
  import opened Octets
  import opened Protocol
  import opened ProtocolLaws
  import opened Framing
  import Servers
  import opened Traces
  import opened ServerLaws
  import opened Clients
  import opened Sessions
  import opened SessionLaws

  /** `ms` are the payloads of `t`, stamped by `make_message` with whatever sequence numbers. */
  predicate Stamps(ms: seq<Message>, t: seq<Payload>) {
    |ms| == |t| && forall i :: 0 <= i < |ms| ==> ms[i] == Stamp(t[i], ms[i].header.sequence)
  }

  /** A clipboard must fit its sixteen-bit frame, and a Hello name its eight-bit length. */
  predicate FitsTheWire(t: seq<Payload>) {
    forall p <- t :: (p.ClipboardUpdate? ==> |p.data| <= MAX_CLIPBOARD) && (p.Hello? ==> |p.name| <= 255)
  }

  function Payloads(ms: seq<Message>): (r: seq<Payload>)
    ensures |r| == |ms|
  {
    seq(|ms|, i requires 0 <= i < |ms| => ms[i].payload)
  }

  /** The client's receive callback, message after message, until it closes the connection. */
  function Handle(c: ClientView, ps: seq<Payload>): ClientView {
    if ps == [] then c
    else
      var before := Handle(c, ps[..|ps| - 1]);
      if before.connected then OnServerMessage(before, ps[|ps| - 1]) else before
  }

  lemma StampsEncodable(ms: seq<Message>, t: seq<Payload>)
    requires Stamps(ms, t) && FitsTheWire(t)
    ensures AllEncodable(ms) && forall i :: 0 <= i < |t| ==> CanonMessage(ms[i]).payload == t[i]
  {
    forall m | m in ms ensures Encodable(m) {
      var i :| 0 <= i < |ms| && ms[i] == m;
      assert t[i] in t;
      StampEncodable(t[i], m.header.sequence);
    }
    forall i | 0 <= i < |t| ensures CanonPayload(t[i]) == t[i] {
      assert t[i] in t;
    }
  }

  /** What the server sends on a connection always fits. */
  lemma GrammaticalFits(t: seq<Payload>)
    requires Scan(t) != Broken
    ensures FitsTheWire(t)
  {
    GrammarMeaning(t);
    forall p | p in t
      ensures (p.ClipboardUpdate? ==> |p.data| <= MAX_CLIPBOARD) && (p.Hello? ==> |p.name| <= 255)
    {
      var i :| 0 <= i < |t| && t[i] == p;
      assert WellPlaced(t, i);
      NoHelloSent(t, i);
    }
  }

  /** The server never sends a Hello, the only payload the codec may change. */
  lemma NoHelloSent(t: seq<Payload>, i: nat)
    requires i < |t| && Scan(t) != Broken
    ensures !t[i].Hello?
  {
    ScanPrefix(t, i + 1);
    assert t[..i + 1][..i] == t[..i];
  }

  /**
    After any prefix of the bytes, what the receive loop has delivered is what was sent up to the last
    whole message: the reliable, ordered channel of the step machine.
  */
  lemma WireIsTheChannel(t: seq<Payload>, ms: seq<Message>, k: nat)
    requires FitsTheWire(t) && Stamps(ms, t) && k <= |EncodeAll(ms)|
    ensures !Parse(EncodeAll(ms)[..k]).stuck && Received(ms, k) == t[..Min(WholeMessages(ms, k), |t|)]
    ensures WholeMessages(ms, k) <= |t| && (k == |EncodeAll(ms)| ==> WholeMessages(ms, k) == |t|)
  {
    hide Parse, EncodeAll, Encodable, WholeMessages, CanonMessage;
    StampsEncodable(ms, t);
    PrefixDelivery(ms, k);
    var j := WholeMessages(ms, k);
    var got := Parse(EncodeAll(ms)[..k]);
    forall i | 0 <= i < j ensures Payloads(got.messages)[i] == t[i] {
      assert got.messages[i] == CanonMessage(ms[i]);
    }
  }

  /** Nothing the loop finds in any bytes is longer than the sixteen-bit frame it came in. */
  lemma {:induction false} ParsedFits(s: octets)
    ensures FitsTheWire(Payloads(Parse(s).messages))
    decreases |s|
  {
    hide Parse, DecodePayload, FitsTheWire;
    ParseStep(s);
    match FrameLength(s)
    case None => NothingFits();
    case Some(n) =>
      ParsedFits(s[n..]);
      match DecodePayload(HeaderOf(s).kind, s[HEADER_SIZE..n])
      case Undefined => NothingFits();
      case Rejected =>
      case Accepted(p) =>
        DecodedFits(HeaderOf(s).kind, s[HEADER_SIZE..n]);
        OneMoreFits(p, Payloads(Parse(s[n..]).messages));
        assert Payloads(Parse(s).messages) == [p] + Payloads(Parse(s[n..]).messages);
  }

  lemma NothingFits()
    ensures Payloads([]) == [] && FitsTheWire([])
  {
  }

  lemma OneMoreFits(p: Payload, later: seq<Payload>)
    requires CanonPayload(p) == p && |EncodePayload(p)| <= 0xFFFF && FitsTheWire(later)
    ensures FitsTheWire([p] + later)
  {
  }

  /** The wire carries a sequence of payloads unchanged exactly if each of them fits. */
  lemma WireCarriesExactly(t: seq<Payload>, ms: seq<Message>)
    requires Stamps(ms, t)
    ensures Received(ms, |EncodeAll(ms)|) == t <==> FitsTheWire(t)
  {
    hide Parse, EncodeAll, FitsTheWire, WholeMessages;
    var all := EncodeAll(ms);
    assert all[..|all|] == all;
    ParsedFits(all);
    if FitsTheWire(t) {
      WireIsTheChannel(t, ms, |all|);
    }
  }

  lemma {:induction false} HandledPrefix(c: ClientView, t: seq<Payload>, j: nat)
    requires IsNewClient(c) && j <= |t| && Scan(t) != Broken
    ensures EndInv(Endpoint(Handle(c, t[..j]), j, false, false), t) && Handle(c, t[..j]).connected
  {
    if j == 0 {
      assert t[..0] == [];
    } else {
      HandledPrefix(c, t, j - 1);
      assert t[..j][..j - 1] == t[..j - 1];
      hide Scan, Strokes, AsInjections, StrokesInjected;
      DeliveredKeeps(Endpoint(Handle(c, t[..j - 1]), j - 1, false, false), t);
    }
  }

  // ---------- A frame that never arrives ----------

  /** The server never tells a client to close. */
  predicate LeavesOpen(p: Payload) {
    !p.Disconnect? && (p.HelloAck? ==> p.accepted != 0)
  }

  /** Whatever else arrives or is lost, a client is ACTIVE exactly if the last transition it received is an enter. */
  lemma {:induction false} ActiveByLastTransition(c: ClientView, ps: seq<Payload>)
    requires IsNewClient(c) && forall p <- ps :: LeavesOpen(p)
    ensures Handle(c, ps).connected && (Handle(c, ps).state == Active <==> LastTransition(ps) == Some(true))
    ensures Handle(c, ps).state == Active || Handle(c, ps).state == Connected
  {
    if ps != [] {
      ActiveByLastTransition(c, ps[..|ps| - 1]);
      assert ps[|ps| - 1] in ps;
    }
  }

  lemma {:induction false} LastTransitionAppend(a: seq<Payload>, b: seq<Payload>)
    ensures LastTransition(a + b) == if LastTransition(b).Some? then LastTransition(b) else LastTransition(a)
  {
    if b == [] {
      assert a + b == a;
    } else {
      assert (a + b)[..|a + b| - 1] == a + b[..|b| - 1];
      LastTransitionAppend(a, b[..|b| - 1]);
    }
  }

  lemma NeverClosed(t: seq<Payload>, i: nat)
    requires i < |t| && Scan(t) != Broken
    ensures LeavesOpen(t[i])
  {
    ScanPrefix(t, i + 1);
    assert t[..i + 1][..i] == t[..i];
  }

  /**
    If one message of a connection is lost and the others arrive, the client ends in another state exactly
    if the lost one was a screen transition and no later transition followed.
  */
  lemma LostFrameExactly(c: ClientView, t: seq<Payload>, i: nat)
    requires IsNewClient(c) && i < |t| && Scan(t) != Broken
    ensures (Handle(c, t[..i] + t[i + 1..]).state == Handle(c, t).state)
       <==> !((t[i].ScreenEnter? || t[i].ScreenLeave?) && LastTransition(t[i + 1..]).None?)
  {
    hide Handle, LastTransition, Scan, LeavesOpen;
    forall p | p in t ensures LeavesOpen(p) {
      var k :| 0 <= k < |t| && t[k] == p;
      NeverClosed(t, k);
    }
    ActiveByLastTransition(c, t);
    ActiveByLastTransition(c, t[..i] + t[i + 1..]);
    GrammarMeaning(t);
    assert WellPlaced(t, i);
    LastTransitionAppend(t[..i], t[i + 1..]);
    assert t == t[..i] + ([t[i]] + t[i + 1..]);
    LastTransitionAppend(t[..i], [t[i]] + t[i + 1..]);
    LastTransitionAppend([t[i]], t[i + 1..]);
    LastTransitionOne(t[i]);
  }

  lemma LastTransitionOne(p: Payload)
    ensures LastTransition([p]) == if p.ScreenEnter? then Some(true) else if p.ScreenLeave? then Some(false) else None
  {
    assert [p][..0] == [];
  }

  // ---------- All the layers ----------

  /**
    From the keyboard to the other machine's screen: in every run, however the bytes of a connection have
    been cut, the keys and buttons the client injects are a prefix of those captured while it was active,
    in order; all of them once all bytes are in, and then its clipboard is the one last sent and the client
    of a registered connection is ACTIVE exactly if the server takes it to be.
  */
  lemma KeystrokesEndToEnd(s: System, id: string, ms: seq<Message>, k: nat, c: ClientView)
    requires Reachable(s) && id != "" && Stamps(ms, Trace(s, id))
    requires k <= |EncodeAll(ms)| && IsNewClient(c)
    ensures TypesWhatWasCaptured(s, id, Handle(c, Received(ms, k)), k == |EncodeAll(ms)|)
  {
    hide Reachable, SystemInv, TypesWhatWasCaptured, Received, EncodeAll, Stamps;
    ReachableInv(s);
    BytesToStrokes(s, id, ms, k, c);
  }

  predicate IsNewClient(c: ClientView) {
    c.connected && c.state == Connected && c.injected == [] && c.clipboard == None
  }

  /** The payloads the receive loop finds in the first `k` bytes. */
  function Received(ms: seq<Message>, k: nat): seq<Payload>
    requires k <= |EncodeAll(ms)|
  {
    Payloads(Parse(EncodeAll(ms)[..k]).messages)
  }

  predicate TypesWhatWasCaptured(s: System, id: string, end: ClientView, allBytesIn: bool) {
    var injected, expected := StrokesInjected(end.injected), AsInjections(CapturedFor(s.captured, id));
    && injected <= expected
    && (allBytesIn ==>
          && injected == expected
          && end.clipboard == LastClip(Trace(s, id))
          && (id in s.hub.clients ==> (end.state == Active <==> s.hub.activeId == id)))
  }

  lemma BytesToStrokes(s: System, id: string, ms: seq<Message>, k: nat, c: ClientView)
    requires SystemInv(s) && id != "" && Stamps(ms, Trace(s, id))
    requires k <= |EncodeAll(ms)| && IsNewClient(c)
    ensures TypesWhatWasCaptured(s, id, Handle(c, Received(ms, k)), k == |EncodeAll(ms)|)
  {
    hide Parse, EncodeAll, SystemInv, EndInv, Scan, Strokes, AsInjections, StrokesInjected, CapturedFor, Handle,
      WholeMessages, Stamps, FitsTheWire, LastClip;
    var t, j := Trace(s, id), WholeMessages(ms, k);
    TraceFacts(s, id);
    GrammaticalFits(t);
    WireIsTheChannel(t, ms, k);
    HandledPrefix(c, t, j);
    var e := Endpoint(Handle(c, t[..j]), j, false, false);
    EndStrokes(e, t);
    if j == |t| {
      FullState(e, t);
      FullClip(e, t);
    }
  }

  lemma FullState(e: Endpoint, t: seq<Payload>)
    requires EndInv(e, t) && e.received == |t| && e.client.connected
    ensures e.client.state == Active <==> Scan(t) == Inside
  {
    hide Scan;
    assert t[..|t|] == t;
  }

  lemma TraceFacts(s: System, id: string)
    requires SystemInv(s) && id != ""
    ensures Complete(Trace(s, id)) && CapturedFor(s.captured, id) == Strokes(Trace(s, id))
    ensures id in s.hub.clients ==> (Scan(Trace(s, id)) == Inside <==> id == s.hub.activeId)
  {
    hide EndInv, Scan, Strokes, CapturedFor;
    TraceNotBroken(s, id);
  }
}
