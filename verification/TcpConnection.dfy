/**
  One end of a TCP connection (src/net/tcp_connection.cpp): partial writes, partial reads and the
  receive loop, over a socket whose answers are nondeterministic.
*/
module TcpConnections {
  import opened Octets
  import opened Protocol
  import opened ProtocolLaws
  import opened Framing

  /** The kernel's side.  `incoming` is everything the peer's stream still holds for this end. */
  class Socket {
    var written: octets
    var incoming: octets
    var broken: bool  // some receive failed although bytes were left

    constructor (incoming: octets)
      ensures this.incoming == incoming && written == [] && !broken
    {
      this.incoming := incoming;
      written := [];
      broken := false;
    }

    /** `::send`: takes some positive number of the bytes offered, or fails. */
    method Send(data: array<uint8>, from: nat) returns (n: int)
      requires from < data.Length
      modifies this`written
      ensures n <= data.Length - from
      ensures written == old(written) + if 0 < n then data[from..from + n] else []
    {
      n :| -1 <= n <= data.Length - from;
      if 0 < n {
        written := written + data[from..from + n];
      }
    }

    /** `::recv`: some positive number of the bytes waiting; zero at the end of the stream; or an error. */
    method Recv(buf: array<uint8>, at: nat) returns (n: int)
      requires at < buf.Length
      modifies this`incoming, this`broken, buf
      ensures n <= buf.Length - at && n <= |old(incoming)|
      ensures 0 < n ==> buf[..] == old(buf[..at]) + old(incoming)[..n] + old(buf[at + n..])
      ensures 0 < n ==> incoming == old(incoming)[n..] && broken == old(broken)
      ensures n <= 0 ==> incoming == old(incoming) && buf[..] == old(buf[..])
      ensures n <= 0 ==> broken == (old(broken) || incoming != [])
    {
      n :| -1 <= n <= buf.Length - at && n <= |incoming|;
      if 0 < n {
        CopyBytes(buf, at, incoming[..n]);
        incoming := incoming[n..];
      } else {
        broken := broken || incoming != [];
      }
    }
  }

  class TcpConnection {
    const socket: Socket
    var connected: bool
    var running: bool
    var delivered: seq<Message>  // arguments of the on_message callback, in order
    var disconnects: nat         // calls of the on_disconnect callback
    var faulted: bool            // an undefined read was reached
    ghost var sendFailed: bool   // some send on this connection has failed

    constructor (socket: Socket)
      ensures this.socket == socket && connected && running
      ensures delivered == [] && disconnects == 0 && !faulted && !sendFailed
    {
      this.socket := socket;
      connected, running := true, true;
      delivered, disconnects, faulted, sendFailed := [], 0, false, false;
    }

    /**
      What other threads, and the callbacks, may do to a connection at any time: `close()` clears both
      flags, a failed send clears `connected` alone.
    */
    method Interference()
      modifies this`running, this`connected, this`sendFailed
      ensures running ==> old(running)
      ensures connected ==> old(connected)
      ensures old(sendFailed) ==> sendFailed
      ensures old(connected) && !connected ==> !running || sendFailed
    {
      var closed: bool := *;
      if closed {
        running, connected := false, false;
      }
      var failed: bool := *;
      if failed {
        connected, sendFailed := false, true;
      }
    }

    /** Everything is written, or a strict prefix is and the connection is marked as lost. */
    method SendRaw(data: array<uint8>) returns (ok: bool)
      modifies this`connected, this`sendFailed, socket`written
      ensures ok ==> socket.written == old(socket.written) + data[..]
      ensures ok ==> connected == old(connected) && sendFailed == old(sendFailed)
      ensures !ok ==> !connected && sendFailed
      ensures !ok ==> var k := |socket.written| - |old(socket.written)|;
                      0 <= k < data.Length && socket.written == old(socket.written) + data[..k]
    {
      var sent := 0;
      while sent < data.Length
        invariant 0 <= sent <= data.Length
        invariant socket.written == old(socket.written) + data[..sent]
        invariant connected == old(connected) && sendFailed == old(sendFailed)
      {
        var n := socket.Send(data, sent);
        if n <= 0 {
          connected, sendFailed := false, true;
          return false;
        }
        assert data[..sent + n] == data[..sent] + data[sent..sent + n];
        sent := sent + n;
      }
      return true;
    }

    /** Does not look at `connected` first, just as the program does not. */
    method Send(m: Message) returns (ok: bool)
      modifies this`connected, this`sendFailed, socket`written
      ensures ok ==> socket.written == old(socket.written) + EncodeMessage(m)
      ensures ok ==> connected == old(connected) && sendFailed == old(sendFailed)
      ensures !ok ==> !connected && sendFailed
      ensures !ok ==> var k := |socket.written| - |old(socket.written)|;
                      0 <= k < |EncodeMessage(m)| && socket.written == old(socket.written) + EncodeMessage(m)[..k]
    {
      var data := SerializeMessage(m);
      ok := SendRaw(data);
    }

    /**
      From position `at` of the peer's stream, the whole buffer is filled with the next bytes, or fewer
      bytes than asked for were consumed because the stream ended, broke, or was closed from this side.
    */
    method RecvExact(buf: array<uint8>, ghost stream: octets, ghost at: nat) returns (ok: bool, ghost end: nat)
      requires at <= |stream| && socket.incoming == stream[at..]
      modifies this`running, this`connected, this`sendFailed, socket`incoming, socket`broken, buf
      ensures at <= end <= |stream| && socket.incoming == stream[end..]
      ensures if ok then end == at + buf.Length && buf[..] == stream[at..end] else end < at + buf.Length
      ensures !ok && running && !socket.broken ==> end == |stream|
      ensures ok ==> socket.broken == old(socket.broken)
      ensures old(socket.broken) ==> socket.broken
      ensures running ==> old(running)
      ensures old(sendFailed) ==> sendFailed
      ensures old(connected) && !connected ==> !running || sendFailed
    {
      var received := 0;
      end := at;
      Interference();
      while received < buf.Length && running
        invariant 0 <= received <= buf.Length && end == at + received <= |stream|
        invariant socket.incoming == stream[end..]
        invariant buf[..received] == stream[at..end]
        invariant socket.broken == old(socket.broken)
        invariant running ==> old(running)
        invariant old(sendFailed) ==> sendFailed
        invariant old(connected) && !connected ==> !running || sendFailed
      {
        var n := socket.Recv(buf, received);
        if n <= 0 {
          return false, end;
        }
        assert buf[..received + n] == stream[at..end] + stream[end..][..n];
        received, end := received + n, end + n;
        Interference();
      }
      ok := received == buf.Length;
      if ok {
        assert buf[..] == buf[..received];
      }
    }

    method LoseConnection()
      modifies this`connected, this`disconnects
      ensures !connected && disconnects == old(disconnects) + 1
    {
      connected := false;
      disconnects := disconnects + 1;
    }

    /** The callback may reply on this connection, as the server does to a Hello, and the reply may fail. */
    method OnMessage(m: Message)
      modifies this`delivered, this`running, this`connected, this`sendFailed
      ensures delivered == old(delivered) + [m]
      ensures running ==> old(running)
      ensures old(sendFailed) ==> sendFailed
      ensures old(connected) && !connected ==> !running || sendFailed
    {
      delivered := delivered + [m];
      Interference();
    }

    /**
      However the reads are split, the loop delivers what `Parse` finds in the bytes it consumed.  The
      loss of the connection is reported exactly once, unless the loop ended at its guard (`stopped`):
      between two frames, with the connection closed from this side or marked as lost by a failed send.
      Unless it is stopped, closed or broken, it consumes every byte.
    */
    method RecvLoop() returns (ghost stopped: bool)
      requires !socket.broken && !faulted
      modifies this`running, this`connected, this`delivered, this`disconnects, this`faulted, this`sendFailed
      modifies socket`incoming, socket`broken
      ensures |socket.incoming| <= |old(socket.incoming)|
      ensures var used := |old(socket.incoming)| - |socket.incoming|;
              var found := Parse(old(socket.incoming)[..used]);
              && socket.incoming == old(socket.incoming)[used..]
              && delivered == old(delivered) + found.messages
              && faulted == found.stuck
              && (stopped ==> found.rest == [] && !faulted)
      ensures disconnects == old(disconnects) + if stopped || faulted then 0 else 1
      ensures stopped ==> !(running && connected)
      ensures stopped && running && old(connected) ==> sendFailed
      ensures !stopped && !faulted ==> !connected
      ensures !stopped && !faulted && running && !socket.broken ==> socket.incoming == []
      ensures !(old(running) && old(connected)) ==> stopped && socket.incoming == old(socket.incoming)
    {
      hide Parse, DecodePayload, DecodeHeader, HeaderOf, GetU16, GetU32;
      ghost var stream := socket.incoming;
      ghost var used, found := 0, [];
      var headerBuf := new uint8[HEADER_SIZE];
      ParseStep([]);
      assert stream[..0] == [];
      while true
        invariant 0 <= used <= |stream| && socket.incoming == stream[used..]
        invariant AtBoundary(stream, used, found)
        invariant delivered == old(delivered) + found
        invariant disconnects == old(disconnects) && !faulted && !socket.broken
        invariant running ==> old(running)
        invariant old(connected) && !connected ==> !running || sendFailed
        invariant !(old(running) && old(connected)) ==> !(running && connected) && used == 0
        decreases |stream| - used
      {
        Interference();
        if !(running && connected) {
          return true;
        }
        var ok, end := RecvExact(headerBuf, stream, used);
        if !ok {
          CutShort(stream, used, end, found);
          LoseConnection();
          return false;
        }
        HeaderAt(stream, used);
        // A sixteen-bit length never exceeds MAX_PAYLOAD_SIZE, so a complete header is never refused.
        var header := DecodeHeader(headerBuf[..]).value;
        var payloadBuf := new uint8[header.payloadLength];
        if header.payloadLength > 0 {
          ok, end := RecvExact(payloadBuf, stream, used + HEADER_SIZE);
          if !ok {
            CutShort(stream, used, end, found);
            LoseConnection();
            return false;
          }
        }
        WholeFrame(stream, used, end, found);
        assert payloadBuf[..] == stream[used + HEADER_SIZE..end];
        var payload := DecodePayload(header.kind, payloadBuf[..]);
        used := end;
        match payload
        case Undefined =>
          faulted := true;
          return false;
        case Rejected =>
        case Accepted(p) =>
          OnMessage(Message(header, p));
          found := found + [Message(header, p)];
      }
    }

    /**
      The callback that gets lost: whatever the peer has sent by then, a send that fails before the loop
      looks at its guard leaves every byte unread and nobody told.
    */
    method ReceiveAfterSend(m: Message) returns (ok: bool)
      requires running && connected && !socket.broken && !faulted
      modifies this`running, this`connected, this`delivered, this`disconnects, this`faulted, this`sendFailed
      modifies socket`written, socket`incoming, socket`broken
      ensures !ok ==> socket.incoming == old(socket.incoming) && delivered == old(delivered)
      ensures !ok ==> disconnects == old(disconnects)
      ensures ok && running && !sendFailed && !socket.broken && !faulted ==> disconnects == old(disconnects) + 1
    {
      ok := Send(m);
      ghost var stopped := RecvLoop();
      ParseStep([]);
      assert old(socket.incoming)[..0] == [];
    }

    /** On a socket that holds the first `k` bytes of what the peer sent, whole messages come out, in order. */
    method ReceiveSent(ghost ms: seq<Message>, ghost k: nat) returns (ghost stopped: bool)
      requires AllEncodable(ms) && k <= |EncodeAll(ms)| && socket.incoming == EncodeAll(ms)[..k]
      requires delivered == [] && !socket.broken && !faulted
      modifies this`running, this`connected, this`delivered, this`disconnects, this`faulted, this`sendFailed
      modifies socket`incoming, socket`broken
      ensures !faulted && |socket.incoming| <= k
      ensures var j := WholeMessages(ms, k - |socket.incoming|);
              && delivered == CanonAll(ms[..j])
              && (stopped ==> k - |socket.incoming| == |EncodeAll(ms[..j])|)
      ensures !stopped && running && !socket.broken ==> delivered == CanonAll(ms[..WholeMessages(ms, k)])
      ensures disconnects == old(disconnects) + if stopped then 0 else 1
    {
      hide Parse, EncodeAll, WholeMessages;
      ghost var all := EncodeAll(ms);
      stopped := RecvLoop();
      ghost var used := k - |socket.incoming|;
      assert all[..k][..used] == all[..used];
      PrefixDelivery(ms, used);
    }
  }

  /** The first `used` bytes are whole frames, and `found` is what they deliver. */
  ghost predicate AtBoundary(stream: octets, used: nat, found: seq<Message>)
    requires used <= |stream|
  {
    Parse(stream[..used]) == Parsed(found, [], false)
  }

  /** At a frame boundary, further bytes parse on their own. */
  lemma ParseFromBoundary(stream: octets, used: nat, after: nat, found: seq<Message>)
    requires used <= after <= |stream| && AtBoundary(stream, used, found)
    ensures var more := Parse(stream[used..after]);
            Parse(stream[..after]) == more.(messages := found + more.messages)
  {
    assert stream[..after] == stream[..used] + stream[used..after];
    assert [] + stream[used..after] == stream[used..after];
    ParseAppend(stream[..used], stream[used..after]);
  }

  lemma HeaderAt(stream: octets, at: nat)
    requires at + HEADER_SIZE <= |stream|
    ensures var s := stream[at..at + HEADER_SIZE];
            DecodeHeader(s) == Some(HeaderOf(s)) && HeaderOf(s).payloadLength == GetU16(stream, at + 2)
  {
  }

  /** Fewer bytes than the frame needs deliver nothing more. */
  lemma CutShort(stream: octets, used: nat, end: nat, found: seq<Message>)
    requires used <= end <= |stream| && AtBoundary(stream, used, found)
    requires HEADER_SIZE <= end - used ==> end - used < HEADER_SIZE + GetU16(stream, used + 2) as int
    ensures Parse(stream[..end]) == Parsed(found, stream[used..end], false)
  {
    ParseFromBoundary(stream, used, end, found);
  }

  /** A header and as many bytes as it announces are one frame. */
  lemma WholeFrame(stream: octets, used: nat, end: nat, found: seq<Message>)
    requires used + HEADER_SIZE <= end <= |stream|
    requires end - used == HEADER_SIZE + GetU16(stream, used + 2) as int
    requires AtBoundary(stream, used, found)
    ensures var h := HeaderOf(stream[used..used + HEADER_SIZE]);
            match DecodePayload(h.kind, stream[used + HEADER_SIZE..end])
            case Undefined => Parse(stream[..end]) == Parsed(found, stream[used..end], true)
            case Rejected => AtBoundary(stream, end, found)
            case Accepted(p) => AtBoundary(stream, end, found + [Message(h, p)])
  {
    hide Parse, DecodePayload;
    var s := stream[used..end];
    ParseFromBoundary(stream, used, end, found);
    ParseStep(s);
    ParseStep([]);
    assert FrameLength(s) == Some(|s|) && s[HEADER_SIZE..|s|] == stream[used + HEADER_SIZE..end] && s[|s|..] == [];
    assert HeaderOf(s) == HeaderOf(stream[used..used + HEADER_SIZE]);
  }
}
