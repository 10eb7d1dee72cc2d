/** What every handler of the server keeps. */
module ServerLaws {
  import opened Octets
  import opened Protocol
  import opened ScreenLayouts
  import opened Servers
  import opened Traces

  /**
    The server forwards exactly when a client is active and local input is suppressed; the active
    client is registered; every trace is grammatical, and a registered client's screen is open in its
    trace exactly if it is the active one; only motion travels as datagrams, to the active client's host.
  */
  ghost predicate HubInv(h: Hub) {
    && (h.state == ClientActive || h.state == LocalActive)
    && (h.state == ClientActive <==> h.activeId != "")
    && (h.suppress <==> h.activeId != "")
    && (h.activeId != "" ==> h.activeId in h.clients)
    && "" !in h.clients
    && h.clients.Keys <= h.sent.Keys
    && (forall id <- h.sent :: Complete(h.sent[id]))
    && (forall id <- h.clients :: Scan(h.sent[id]) == Inside <==> id == h.activeId)
    && (forall d <- h.datagrams :: IsMotion(d.payload))
    && (forall id <- h.clients :: PeerInv(id, h.clients[id]))
    && (h.activeId != "" ==> h.udpTarget == TargetOf(h.activeId))
  }

  /** A peer's datagrams go to its own host, and nothing ever chooses an edge for its screen. */
  predicate PeerInv(id: string, peer: Peer) {
    Target(peer.udpHost, peer.udpPort) == TargetOf(id) && peer.screen.adjacentEdge == Left
  }

  predicate Complete(t: seq<Payload>) {
    Scan(t) == Outside || Scan(t) == Inside
  }

  /** No connection comes or goes, traces only grow, and the strokes they gained are `p` on `owner`. */
  ghost predicate Grows(h: Hub, h': Hub, owner: string, p: Option<Payload>) {
    && h'.sent.Keys == h.sent.Keys
    && (forall id :: Trace(h, id) <= Trace(h', id))
    && (forall id :: Strokes(Trace(h', id)) ==
                     if p.Some? && id == owner then Strokes(Trace(h, id)) + [p.value] else Strokes(Trace(h, id)))
  }

  ghost predicate Quiet(h: Hub, h': Hub) {
    Grows(h, h', "", None)
  }

  lemma SendTraces(h: Hub, id: string, p: Payload)
    requires id in h.sent
    ensures forall other :: Trace(Send(h, id, p), other) == if other == id then Trace(h, id) + [p] else Trace(h, other)
    ensures Scan(Trace(Send(h, id, p), id)) == Next(Scan(Trace(h, id)), p)
    ensures Grows(h, Send(h, id, p), id, if IsStroke(p) then Some(p) else None)
  {
    ScanSnoc(Trace(h, id), p);
  }

  // ---------- Handler by handler ----------

  /** Accepting a connection keeps the invariant unless the peer's address is that of the active client. */
  lemma ConnectedKeepsExactly(h: Hub, peer: string, now: int)
    requires HubInv(h)
    ensures HubInv(OnConnected(h, peer, now)) <==> peer != "" && peer != h.activeId
  {
    hide TargetOf, Scan;
    var h' := OnConnected(h, peer, now);
    assert h'.sent[peer] == [] && peer in h'.clients;
    assert Scan([]) == Outside by { ScanEmpty(); }
  }

  lemma ScanEmpty()
    ensures Scan([]) == Outside
  {
  }

  lemma {:induction false} UpToFirstColon(host: string, port: string)
    requires ':' !in host
    ensures UpToColon(host + ":" + port) == host
  {
    if host == "" {
      assert host + ":" + port == ":" + port;
    } else {
      UpToFirstColon(host[1..], port);
      assert (host + ":" + port)[1..] == host[1..] + ":" + port;
    }
  }

  /** Datagrams for the connection from `host:port` go to port 24801 of `host`. */
  lemma HostOfAddress(host: string, port: string)
    requires ':' !in host
    ensures HostPart(host + ":" + port) == host && TargetOf(host + ":" + port) == Target(host, 24801)
    ensures HostPart(host) == ""
  {
    UpToFirstColon(host, port);
    assert (host + ":" + port)[|host|] == ':';
  }

  /** The newcomer is registered as just heard, with nothing sent to it yet; nobody else is touched. */
  lemma ConnectedMeaning(h: Hub, host: string, port: string, now: int)
    requires ':' !in host
    ensures var peer, h' := host + ":" + port, OnConnected(h, host + ":" + port, now);
            && h' == h.(clients := h'.clients, sent := h'.sent)
            && h'.clients == h.clients[peer := Peer([], ScreenInfo([], "", ScreenRect(0, 0, 0, 0), Left), host, 24801, now)]
            && h'.sent == h.sent[peer := []]
  {
    HostOfAddress(host, port);
  }

  /** A new address changes no trace. */
  lemma ConnectedTraces(h: Hub, peer: string, now: int)
    requires peer !in h.sent
    ensures OnConnected(h, peer, now).sent.Keys == h.sent.Keys + {peer}
    ensures forall id :: Trace(OnConnected(h, peer, now), id) == Trace(h, id)
  {
    hide TargetOf;
  }

  lemma DisconnectedKeeps(h: Hub, id: string)
    requires HubInv(h)
    ensures HubInv(OnDisconnected(h, id)) && Quiet(h, OnDisconnected(h, id))
  {
    hide Without, Scan, Strokes, TargetOf;
  }

  /** A lost connection is forgotten, in the layout too; nobody else is touched and nothing is sent. */
  lemma DisconnectedMeaning(h: Hub, id: string)
    requires HubInv(h)
    ensures var h' := OnDisconnected(h, id);
            && h'.clients == h.clients - {id} && h'.sent == h.sent
            && (forall other :: Find(h'.layout.clients, other) == if other == id then None else Find(h.layout.clients, other))
            && h'.activeId == (if h.activeId == id then "" else h.activeId)
  {
    hide Scan, Without, Find;
    forall other
      ensures Find(OnDisconnected(h, id).layout.clients, other) == if other == id then None else Find(h.layout.clients, other)
    {
      FindWithout(h.layout.clients, id, other);
    }
  }

  lemma {:induction false} FindAppend(a: seq<ScreenInfo>, b: seq<ScreenInfo>, id: string)
    ensures Find(a + b, id) == if Find(a, id).Some? then Find(a, id) else Find(b, id)
  {
    if a == [] {
      assert a + b == b;
    } else {
      assert (a + b)[1..] == a[1..] + b;
      FindAppend(a[1..], b, id);
    }
  }

  lemma {:induction false} FindWithout(list: seq<ScreenInfo>, gone: string, id: string)
    ensures Find(Without(list, gone), id) == if id == gone then None else Find(list, id)
  {
    if list != [] {
      var front, last := list[..|list| - 1], [list[|list| - 1]];
      FindWithout(front, gone, id);
      assert list == front + last;
      FindAppend(front, last, id);
      FindAppend(Without(front, gone), if last[0].clientId == gone then [] else last, id);
    }
  }

  lemma HelloKeeps(h: Hub, id: string, name: octets, w: uint16, hgt: uint16)
    requires HubInv(h) && id in h.clients
    ensures HubInv(OnHello(h, id, name, w, hgt)) && Quiet(h, OnHello(h, id, name, w, hgt))
  {
    hide Scan, Strokes, Added, TargetOf;
    var screen := h.clients[id].screen.(name := name, clientId := id, rect := ScreenRect(0, 0, w, hgt));
    var h1 := h.(clients := h.clients[id := h.clients[id].(name := name, screen := screen)],
                 layout := h.layout.(clients := Added(h.layout.clients, screen)));
    assert h1.clients.Keys == h.clients.Keys;
    SendTraces(h1, id, HelloAck(PROTOCOL_VERSION, 1));
  }

  /** Neither the layout nor the time a client was last heard matters to the invariant. */
  lemma TouchKeeps(h: Hub, id: string, now: int)
    requires HubInv(h) && id in h.clients
    ensures var h' := h.(clients := h.clients[id := h.clients[id].(lastKeepalive := now)]);
            HubInv(h') && Quiet(h, h')
  {
    hide Scan, Strokes, TargetOf;
  }

  lemma RelayoutKeeps(h: Hub, layout: Layout)
    requires HubInv(h)
    ensures HubInv(h.(layout := layout)) && Quiet(h, h.(layout := layout))
  {
    hide Scan, Strokes, TargetOf;
  }

  lemma MessageKeeps(h: Hub, id: string, p: Payload, now: int)
    requires HubInv(h)
    ensures HubInv(OnMessage(h, id, p, now)) && Quiet(h, OnMessage(h, id, p, now))
  {
    hide HubInv, Grows, OnHello, OnDisconnected;
    if p.Disconnect? {
      DisconnectedKeeps(h, id);
    } else if id in h.clients {
      var h1 := h.(clients := h.clients[id := h.clients[id].(lastKeepalive := now)]);
      TouchKeeps(h, id, now);
      match p
      case Hello(_, w, hgt, name) =>
        HelloKeeps(h1, id, name, w, hgt);
        QuietTrans(h, h1, OnHello(h1, id, name, w, hgt));
      case _ =>
    } else {
      NothingKeeps(h);
    }
  }

  /**
    What any message but a Hello does: a goodbye is a lost connection; a sender that is not registered is
    ignored; and of every other message only the time is kept.
  */
  lemma MessageMeaning(h: Hub, id: string, p: Payload, now: int)
    requires HubInv(h) && !p.Hello?
    ensures var h' := OnMessage(h, id, p, now);
            if p.Disconnect? then
              && h'.clients == h.clients - {id} && h'.sent == h.sent
              && Find(h'.layout.clients, id) == None && h'.activeId == (if h.activeId == id then "" else h.activeId)
            else if id in h.clients then h' == h.(clients := h.clients[id := h.clients[id].(lastKeepalive := now)])
            else h' == h
  {
    hide HubInv, OnDisconnected, Find;
    if p.Disconnect? {
      DisconnectedMeaning(h, id);
    }
  }

  lemma NothingKeeps(h: Hub)
    ensures Quiet(h, h)
  {
  }

  lemma QuietTrans(a: Hub, b: Hub, c: Hub)
    requires Quiet(a, b) && Quiet(b, c)
    ensures Quiet(a, c)
  {
    forall id ensures Trace(a, id) <= Trace(c, id) {
      assert Trace(a, id) <= Trace(b, id) <= Trace(c, id);
    }
  }

  /** The messages a switch sends. */
  function Opening(h: Hub, id: string, clip: Option<Clip>): seq<Payload> {
    match clip
    case Some(c) => [ClipboardUpdate(c.format, c.data), EnterMessage(h.layout, id)]
    case None => [EnterMessage(h.layout, id)]
  }

  lemma TransitionSent(h: Hub, id: string, clip: Option<Clip>)
    requires id in h.clients
    ensures TransitionToClient(h, id, clip)
         == h.(sent := h.sent[id := Trace(h, id) + Opening(h, id, clip)],
               udpTarget := Target(h.clients[id].udpHost, h.clients[id].udpPort),
               suppress := true, activeId := id, state := ClientActive)
  {
    hide EnterMessage;
    if clip.Some? {
      var update := ClipboardUpdate(clip.value.format, clip.value.data);
      assert Trace(h, id) + [update] + [EnterMessage(h.layout, id)] == Trace(h, id) + Opening(h, id, clip);
    }
  }

  lemma OpeningScan(h: Hub, t: seq<Payload>, id: string, clip: Option<Clip>)
    ensures Strokes(t + Opening(h, id, clip)) == Strokes(t)
    ensures Scan(t + Opening(h, id, clip)) == match Scan(t) case Outside => if ClipFits(clip) then Inside else Broken
                                              case Clipped => if clip.Some? then Broken else Inside
                                              case Inside => Broken case Broken => Broken
  {
    hide Scan, Strokes;
    var enter := EnterMessage(h.layout, id);
    if clip.Some? {
      var update := ClipboardUpdate(clip.value.format, clip.value.data);
      ScanSnoc(t, update);
      ScanSnoc(t + [update], enter);
      assert t + [update] + [enter] == t + Opening(h, id, clip);
    } else {
      ScanSnoc(t, enter);
    }
  }

  /**
    Switching to a client keeps the invariant exactly when the server is in control of local input and
    the clipboard fits its frame, or the client is unknown and nothing happens.  While another client is
    active the switch sends that client no ScreenLeave, so its screen stays open.
  */
  lemma TransitionKeepsExactly(h: Hub, id: string, clip: Option<Clip>)
    requires HubInv(h)
    ensures HubInv(TransitionToClient(h, id, clip)) <==> (h.state == LocalActive && ClipFits(clip)) || id !in h.clients
    ensures Quiet(h, TransitionToClient(h, id, clip))
  {
    hide Scan, Strokes, Opening, EnterMessage, Send;
    if id in h.clients {
      TransitionSent(h, id, clip);
      OpeningScan(h, Trace(h, id), id, clip);
      var h' := TransitionToClient(h, id, clip);
      if h.state == ClientActive && h.activeId != id {
        assert Scan(h'.sent[h.activeId]) == Inside && h.activeId in h'.clients;
      } else if h.state == ClientActive || !ClipFits(clip) {
        assert Scan(h'.sent[id]) == Broken && id in h'.sent;
      }
    }
  }

  /** Going back to local: the active client is told to leave, and everything else about it is cleared. */
  lemma ToLocalMeaning(h: Hub)
    requires HubInv(h)
    ensures var h' := TransitionToLocal(h);
            && h'.activeId == "" && !h'.suppress && h'.state == LocalActive
            && (forall id :: Trace(h', id) == if id != "" && id == h.activeId then Trace(h, id) + [ScreenLeave] else Trace(h, id))
            && h'.clients == h.clients && h'.layout == h.layout && h'.datagrams == h.datagrams
  {
    hide Scan, TargetOf;
  }

  lemma ToLocalKeeps(h: Hub)
    requires HubInv(h)
    ensures HubInv(TransitionToLocal(h)) && Quiet(h, TransitionToLocal(h))
  {
    hide Scan, Strokes, TargetOf;
    if h.activeId != "" {
      SendTraces(h, h.activeId, ScreenLeave);
    }
  }

  /** Handling `p` enters a registered client: the pointer is on an edge while the server is in control. */
  predicate EntersClient(h: Hub, p: Payload) {
    && h.state != ClientActive && p.MouseMoveAbs?
    && var hit := FirstHit(h.layout.screen, h.layout.clients, p.x, p.y);
       hit.Some? && hit.value in h.clients
  }

  /**
    An input event: a stroke goes to the active client and nobody else, or, when the server is in
    control, to nobody at all.  The invariant breaks exactly when a client is entered with a clipboard
    too large for its frame.
  */
  lemma InputKeeps(h: Hub, p: Payload, clip: Option<Clip>)
    requires HubInv(h) && (IsStroke(p) || IsMotion(p))
    ensures HubInv(OnInput(h, p, clip)) <==> ClipFits(clip) || !EntersClient(h, p)
    ensures Grows(h, OnInput(h, p, clip), h.activeId,
                  if IsStroke(p) && h.state == ClientActive then Some(p) else None)
    ensures IsStroke(p) && h.state == LocalActive ==> OnInput(h, p, clip) == h
  {
    hide Scan, Strokes, FirstHit, TransitionToClient;
    if h.state == ClientActive {
      if !IsMotion(p) {
        SendTraces(h, h.activeId, p);
      }
    } else if p.MouseMoveAbs? {
      match FirstHit(h.layout.screen, h.layout.clients, p.x, p.y)
      case Some(id) => TransitionKeepsExactly(h, id, clip);
      case None =>
    }
  }

  /** What becomes of each kind of input event. */
  lemma InputByKind(h: Hub, p: Payload, clip: Option<Clip>)
    requires HubInv(h)
    ensures h.activeId != "" && (p.MouseMove? || p.MouseMoveAbs? || p.MouseScroll?) ==>
      OnInput(h, p, clip) == h.(datagrams := h.datagrams + [Datagram(TargetOf(h.activeId), p)])
    ensures h.activeId != "" && (p.MouseButton? || p.KeyDown? || p.KeyUp?) ==>
      OnInput(h, p, clip) == h.(sent := h.sent[h.activeId := h.sent[h.activeId] + [p]])
    ensures h.activeId == "" && !p.MouseMoveAbs? ==> OnInput(h, p, clip) == h
    ensures h.activeId == "" && p.MouseMoveAbs? ==>
      var hit := FirstHit(h.layout.screen, h.layout.clients, p.x, p.y);
      OnInput(h, p, clip) == if hit.Some? then TransitionToClient(h, hit.value, clip) else h
  {
    hide Scan, TargetOf, FirstHit, TransitionToClient;
  }

  lemma StrokeMeaning(h: Hub, p: Payload, clip: Option<Clip>)
    requires HubInv(h) && IsStroke(p)
    ensures var h' := OnInput(h, p, clip);
            if h.suppress then
              && h'.suppress && h.activeId in h.clients
              && (forall id :: Trace(h', id) == if id == h.activeId then Trace(h, id) + [p] else Trace(h, id))
            else !h'.suppress && h' == h
  {
    hide Scan, Strokes, TransitionToClient, TargetOf;
    if h.suppress {
      SendTraces(h, h.activeId, p);
    }
  }

  lemma MotionMeaning(h: Hub, p: Payload, clip: Option<Clip>)
    requires HubInv(h) && IsMotion(p) && h.suppress
    ensures var h' := OnInput(h, p, clip);
            h'.sent == h.sent && h'.datagrams == h.datagrams + [Datagram(TargetOf(h.activeId), p)]
  {
    hide Scan, TransitionToClient, TargetOf;
  }

  /**
    A keepalive pass removes exactly the clients silent for four seconds or more, sends one Keepalive to
    each survivor and nothing to anyone else, and takes local control exactly if the active client went.
  */
  lemma KeepalivePassMeaning(h: Hub, now: int)
    requires HubInv(h)
    ensures var h' := AfterKeepalive(h, now);
            && (forall id :: id in h'.clients <==> id in h.clients && now - h.clients[id].lastKeepalive < 4000)
            && (forall id <- h'.clients :: h'.clients[id] == h.clients[id])
            && (forall id :: Trace(h', id) == if id in h'.clients then Trace(h, id) + [Keepalive] else Trace(h, id))
            && h'.sent.Keys == h.sent.Keys && h'.layout == h.layout
            && h'.activeId == if h.activeId in h'.clients then h.activeId else ""
  {
    hide Scan, Strokes, TargetOf;
    assert forall id <- h.clients :: Expired(h.clients[id], now) <==> now - h.clients[id].lastKeepalive >= 4000;
    assert h.clients.Keys * Survivors(h, now) == Survivors(h, now);
    assert h.clients.Keys * h.clients.Keys == h.clients.Keys;
  }

  lemma KeepaliveKeeps(h: Hub, now: int)
    requires HubInv(h)
    ensures HubInv(AfterKeepalive(h, now)) && Quiet(h, AfterKeepalive(h, now))
  {
    hide Scan, AfterKeepalive, TargetOf, Grows;
    var h' := AfterKeepalive(h, now);
    KeepalivePassMeaning(h, now);
    AfterKeepaliveFields(h, now);
    KeepaliveQuiet(h, now);
    forall id
      ensures id in h'.clients ==> Scan(Trace(h', id)) == Next(Scan(Trace(h, id)), Keepalive)
      ensures id in h'.sent ==> Complete(h'.sent[id])
    {
      ScanSnoc(Trace(h, id), Keepalive);
    }
  }

  lemma KeepaliveQuiet(h: Hub, now: int)
    requires HubInv(h)
    ensures Quiet(h, AfterKeepalive(h, now))
  {
    hide Scan, Strokes, AfterKeepalive, TargetOf, HubInv;
    KeepalivePassMeaning(h, now);
    forall id ensures Strokes(Trace(AfterKeepalive(h, now), id)) == Strokes(Trace(h, id)) {
      ScanSnoc(Trace(h, id), Keepalive);
    }
  }

  lemma AfterKeepaliveFields(h: Hub, now: int)
    requires HubInv(h)
    ensures var h' := AfterKeepalive(h, now);
            h'.datagrams == h.datagrams && h'.udpTarget == h.udpTarget
            && h'.suppress == (h'.activeId != "") && (h'.state == if h'.activeId != "" then ClientActive else LocalActive)
  {
  }

  // ---------- The keepalive invariant holds at every turn of the pass, not only at its end ----------

  lemma VisitKeeps(h: Hub, now: int, id: string)
    requires HubInv(h) && id in h.clients
    ensures HubInv(Visit(h, now, id)) && Quiet(h, Visit(h, now, id))
  {
    hide Scan, Strokes, Expired, TargetOf;
    if !Expired(h.clients[id], now) {
      SendTraces(h, id, Keepalive);
    }
  }

  /** Every intermediate state of the erase-while-iterating loop, for every order of visiting. */
  lemma {:induction false} EveryTurnKeeps(h: Hub, now: int, done: set<string>)
    requires HubInv(h) && done <= h.clients.Keys
    ensures HubInv(AfterVisiting(h, now, done))
  {
    hide HubInv, AfterVisiting, Visit, Grows;
    if done == {} {
      VisitingNobody(h, now);
    } else {
      var id :| id in done;
      EveryTurnKeeps(h, now, done - {id});
      assert done - {id} + {id} == done;
      VisitingOneMore(h, now, done - {id}, id);
      VisitKeeps(AfterVisiting(h, now, done - {id}), now, id);
    }
  }

  // ---------- What the entering client is told ----------

  lemma FindOne(info: ScreenInfo)
    ensures Find([info], info.clientId) == Some(info)
  {
  }

  lemma HelloState(h: Hub, id: string, v: uint16, w: uint16, hgt: uint16, name: octets, now: int)
    requires id in h.clients
    ensures var h1 := OnMessage(h, id, Hello(v, w, hgt, name), now);
            id in h1.clients && h1.clients[id].name == name && Trace(h1, id) == Trace(h, id) + [HelloAck(1, 1)]
            && EnterMessage(h1.layout, id) == ScreenEnter(w / 2, hgt / 2, w, hgt)
  {
    hide Without, Find;
    var screen := h.clients[id].screen.(name := name, clientId := id, rect := ScreenRect(0, 0, w, hgt));
    FindWithout(h.layout.clients, id, id);
    FindAppend(Without(h.layout.clients, id), [Placed(screen)], id);
    assert Find([Placed(screen)], id) == Some(Placed(screen)) by { FindOne(Placed(screen)); }
  }

  /** Every client that says Hello is put on the right edge, again each time it says it. */
  lemma HelloPlacesRight(h: Hub, id: string, v: uint16, w: uint16, hgt: uint16, name: octets, now: int)
    requires HubInv(h) && id in h.clients
    ensures var h1 := OnMessage(h, id, Hello(v, w, hgt, name), now);
            Find(h1.layout.clients, id) == Some(ScreenInfo(name, id, ScreenRect(0, 0, w, hgt), Right))
  {
    hide Without, Find, Scan, TargetOf;
    var screen := h.clients[id].screen.(name := name, clientId := id, rect := ScreenRect(0, 0, w, hgt));
    FindWithout(h.layout.clients, id, id);
    FindAppend(Without(h.layout.clients, id), [Placed(screen)], id);
    FindOne(Placed(screen));
  }

  /**
    A client that said Hello is entered at the centre of the screen size it announced, and its clipboard
    update, if any, comes right before the enter.
  */
  lemma EnterAnnouncedScreen(h: Hub, id: string, v: uint16, w: uint16, hgt: uint16, name: octets, now: int, clip: Option<Clip>)
    requires id in h.clients
    ensures var h1 := OnMessage(h, id, Hello(v, w, hgt, name), now);
            var h2 := TransitionToClient(h1, id, clip);
            Trace(h2, id) == Trace(h, id) + [HelloAck(1, 1)]
              + (match clip case Some(c) => [ClipboardUpdate(c.format, c.data)] case None => [])
              + [ScreenEnter(w / 2, hgt / 2, w, hgt)]
  {
    hide OnMessage, EnterMessage, TransitionToClient;
    var h1 := OnMessage(h, id, Hello(v, w, hgt, name), now);
    HelloState(h, id, v, w, hgt, name, now);
    TransitionSent(h1, id, clip);
    if clip.None? {
      assert Trace(h, id) + [HelloAck(1, 1)] + [] == Trace(h, id) + [HelloAck(1, 1)];
    }
  }
}
