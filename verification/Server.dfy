/** The server half (src/core/server.h, src/core/server.cpp), one handler per atomic step. */
module Servers {
  import opened Octets
  import opened Protocol
  import opened ScreenLayouts

  datatype ServerState = LocalActive | ClientActive | Disconnected

  /** One `ClientConnection`; its socket is represented by the trace in `Hub.sent`. */
  datatype Peer = Peer(name: octets, screen: ScreenInfo, udpHost: string, udpPort: uint16, lastKeepalive: int)

  datatype Target = Target(host: string, port: uint16)

  datatype Datagram = Datagram(target: Target, payload: Payload)

  /**
    The server's fields.  `activeId` is empty when no client is active; `suppress` is the capture's flag.
    `sent` holds, per connection, everything ever passed to its `tcp.send`, and outlives the connection;
    `datagrams` is everything passed to the UDP channel.  Times are in milliseconds.
  */
  datatype Hub = Hub(
    state: ServerState,
    activeId: string,
    suppress: bool,
    clients: map<string, Peer>,
    layout: Layout,
    sent: map<string, seq<Payload>>,
    udpTarget: Target,
    datagrams: seq<Datagram>)

  function Fresh(layout: Layout): Hub {
    Hub(LocalActive, "", false, map[], layout, map[], Target("", 0), [])
  }

  // ---------- What the handlers do ----------

  function Trace(h: Hub, id: string): seq<Payload> {
    if id in h.sent then h.sent[id] else []
  }

  function Send(h: Hub, id: string, p: Payload): Hub {
    h.(sent := h.sent[id := Trace(h, id) + [p]])
  }

  /** The address up to the first colon; empty if there is none. */
  function HostPart(peer: string): string {
    if ':' in peer then UpToColon(peer) else ""
  }

  function UpToColon(s: string): string {
    if s == "" || s[0] == ':' then "" else [s[0]] + UpToColon(s[1..])
  }

  /** Where datagrams for a connection go: its host, on the default UDP port. */
  function TargetOf(peer: string): Target {
    Target(HostPart(peer), if ':' in peer then DEFAULT_UDP_PORT else 0)
  }

  function OnConnected(h: Hub, peer: string, now: int): Hub {
    var client := Peer([], BlankScreen, TargetOf(peer).host, TargetOf(peer).port, now);
    h.(clients := h.clients[peer := client], sent := h.sent[peer := []])
  }

  const BlankScreen := ScreenInfo([], "", ScreenRect(0, 0, 0, 0), Left)

  function ToLocal(h: Hub): Hub {
    h.(suppress := false, activeId := "", state := LocalActive)
  }

  function OnDisconnected(h: Hub, id: string): Hub {
    var h1 := h.(clients := h.clients - {id}, layout := h.layout.(clients := Without(h.layout.clients, id)));
    if h.state == ClientActive && h.activeId == id then ToLocal(h1) else h1
  }

  function OnHello(h: Hub, id: string, name: octets, w: uint16, hgt: uint16): Hub
    requires id in h.clients
  {
    var screen := h.clients[id].screen.(name := name, clientId := id, rect := ScreenRect(0, 0, w, hgt));
    var h1 := h.(clients := h.clients[id := h.clients[id].(name := name, screen := screen)],
                 layout := h.layout.(clients := Added(h.layout.clients, screen)));
    Send(h1, id, HelloAck(PROTOCOL_VERSION, 1))
  }

  function OnMessage(h: Hub, id: string, p: Payload, now: int): Hub {
    if p.Disconnect? then OnDisconnected(h, id)
    else if id !in h.clients then h
    else
      var h1 := h.(clients := h.clients[id := h.clients[id].(lastKeepalive := now)]);
      match p
      case Hello(_, w, hgt, name) => OnHello(h1, id, name, w, hgt)
      case _ => h1
  }

  /** The message that opens a client's screen: entry at the centre of the screen it announced. */
  function EnterMessage(layout: Layout, id: string): Payload {
    match Find(layout.clients, id)
    case Some(info) =>
      ScreenEnter(ToU16(info.rect.width / 2), ToU16(info.rect.height / 2), ToU16(info.rect.width), ToU16(info.rect.height))
    case None => ScreenEnter(0, 0, 1920, 1080)
  }

  /** `clip` is the clipboard's content at this moment, if there is any. */
  function TransitionToClient(h: Hub, id: string, clip: Option<Clip>): Hub {
    if id !in h.clients then h
    else
      var h1 := match clip
                case Some(c) => Send(h, id, ClipboardUpdate(c.format, c.data))
                case None => h;
      var h2 := Send(h1, id, EnterMessage(h.layout, id));
      h2.(udpTarget := Target(h.clients[id].udpHost, h.clients[id].udpPort),
          suppress := true, activeId := id, state := ClientActive)
  }

  function TransitionToLocal(h: Hub): Hub {
    ToLocal(if h.activeId != "" && h.activeId in h.clients then Send(h, h.activeId, ScreenLeave) else h)
  }

  predicate IsMotion(p: Payload) {
    p.MouseMove? || p.MouseMoveAbs? || p.MouseScroll?
  }

  function SendToActive(h: Hub, p: Payload): Hub {
    if IsMotion(p) then h.(datagrams := h.datagrams + [Datagram(h.udpTarget, p)])
    else if h.activeId in h.clients then Send(h, h.activeId, p)
    else h
  }

  function OnInput(h: Hub, p: Payload, clip: Option<Clip>): Hub {
    if h.state == ClientActive then SendToActive(h, p)
    else if p.MouseMoveAbs? then
      match FirstHit(h.layout.screen, h.layout.clients, p.x, p.y)
      case Some(id) => TransitionToClient(h, id, clip)
      case None => h
    else h
  }

  // ---------- One pass of the keepalive loop ----------

  /** `duration_cast<seconds>`: truncates toward zero. */
  function WholeSeconds(ms: int): int {
    if ms >= 0 then ms / 1000 else -((-ms) / 1000)
  }

  predicate Expired(peer: Peer, now: int) {
    WholeSeconds(now - peer.lastKeepalive) > 3
  }

  function Survivors(h: Hub, now: int): set<string> {
    set id | id in h.clients && !Expired(h.clients[id], now)
  }

  /**
    Every silent client is gone, every other client gets one Keepalive, and if the active client is
    gone the input is local again.  The layout is not touched, and no ScreenLeave is sent.
  */
  function AfterKeepalive(h: Hub, now: int): Hub {
    AfterVisiting(h, now, h.clients.Keys)
  }

  /** The same for the clients in `done` only. */
  function AfterVisiting(h: Hub, now: int, done: set<string>): Hub {
    var alive := Survivors(h, now);
    var gone := done * h.clients.Keys - alive;
    var h1 := h.(clients := h.clients - gone, sent := Pinged(h, done * alive));
    if h.state == ClientActive && h.activeId in gone then ToLocal(h1) else h1
  }

  /** The traces once each of `ids` has been sent a Keepalive. */
  function Pinged(h: Hub, ids: set<string>): map<string, seq<Payload>> {
    map id | id in h.sent.Keys + ids :: if id in ids then Trace(h, id) + [Keepalive] else Trace(h, id)
  }

  /** One turn of the loop. */
  function Visit(h: Hub, now: int, id: string): Hub
    requires id in h.clients
  {
    if Expired(h.clients[id], now) then
      var h1 := h.(clients := h.clients - {id});
      if h.state == ClientActive && h.activeId == id then ToLocal(h1) else h1
    else Send(h, id, Keepalive)
  }

  lemma PingedOneMore(h: Hub, ids: set<string>, id: string)
    requires id !in ids
    ensures Pinged(h, {}) == h.sent
    ensures Pinged(h, ids + {id}) == Pinged(h, ids)[id := Trace(h, id) + [Keepalive]]
  {
  }

  lemma VisitingNobody(h: Hub, now: int)
    ensures AfterVisiting(h, now, {}) == h
  {
    PingedOneMore(h, {}, "");
    assert {} * Survivors(h, now) == {} && {} * h.clients.Keys - Survivors(h, now) == {};
    assert h.clients - {} == h.clients;
  }

  /** Whichever unvisited client comes next, visiting it extends the visited set by it. */
  lemma VisitingOneMore(h: Hub, now: int, done: set<string>, id: string)
    requires id in h.clients && id !in done
    ensures var mid := AfterVisiting(h, now, done);
            id in mid.clients && mid.clients[id] == h.clients[id]
            && Visit(mid, now, id) == AfterVisiting(h, now, done + {id})
  {
    hide Pinged, Expired;
    var alive := Survivors(h, now);
    var mid := AfterVisiting(h, now, done);
    var gone := done * h.clients.Keys - alive;
    if id in alive {
      assert (done + {id}) * alive == done * alive + {id};
      assert (done + {id}) * h.clients.Keys - alive == gone;
      PingedOneMore(h, done * alive, id);
      assert Trace(mid, id) == Trace(h, id) by { PingedTrace(h, done * alive, id); }
    } else {
      assert (done + {id}) * alive == done * alive;
      assert (done + {id}) * h.clients.Keys - alive == gone + {id};
      assert h.clients - gone - {id} == h.clients - (gone + {id});
    }
  }

  lemma PingedTrace(h: Hub, ids: set<string>, id: string)
    requires id !in ids
    ensures (if id in Pinged(h, ids) then Pinged(h, ids)[id] else []) == Trace(h, id)
  {
  }

  // ---------- The object ----------

  class Server {
    const layout: ScreenLayout
    var state: ServerState
    var activeId: string
    var suppress: bool
    var clients: map<string, Peer>
    var sent: map<string, seq<Payload>>
    var udpTarget: Target
    var datagrams: seq<Datagram>

    constructor (display: Option<ScreenRect>)
      ensures fresh(layout)
      ensures View() == Fresh(Layout(if display.Some? then display.value else ScreenRect(0, 0, 0, 0), []))
    {
      layout := new ScreenLayout();
      state, activeId, suppress := LocalActive, "", false;
      clients, sent := map[], map[];
      udpTarget, datagrams := Target("", 0), [];
      new;
      if display.Some? {
        layout.SetServerScreen(display.value);
      }
    }

    function View(): Hub
      reads this, layout
    {
      Hub(state, activeId, suppress, clients, layout.View(), sent, udpTarget, datagrams)
    }

    method TcpSend(id: string, p: Payload)
      modifies this`sent
      ensures View() == Send(old(View()), id, p)
    {
      sent := sent[id := (if id in sent then sent[id] else []) + [p]];
    }

    method HandleConnected(peer: string, now: int)
      modifies this
      ensures View() == OnConnected(old(View()), peer, now)
    {
      var client := Peer([], BlankScreen, "", 0, now);
      if ':' in peer {
        client := client.(udpHost := UpToColon(peer), udpPort := DEFAULT_UDP_PORT);
      }
      clients := clients[peer := client];
      sent := sent[peer := []];
    }

    method HandleMessage(id: string, p: Payload, now: int)
      modifies this, layout
      ensures View() == OnMessage(old(View()), id, p, now)
    {
      if p.Disconnect? {
        HandleDisconnected(id);
        return;
      }
      if id !in clients {
        return;
      }
      clients := clients[id := clients[id].(lastKeepalive := now)];
      match p
      case Hello(_, w, h, name) =>
        var screen := clients[id].screen.(name := name, clientId := id, rect := ScreenRect(0, 0, w, h));
        clients := clients[id := clients[id].(name := name, screen := screen)];
        layout.AddClient(screen);
        TcpSend(id, HelloAck(PROTOCOL_VERSION, 1));
      case _ =>
    }

    method HandleDisconnected(id: string)
      modifies this, layout
      ensures View() == OnDisconnected(old(View()), id)
    {
      var wasActive := state == ClientActive && activeId == id;
      clients := clients - {id};
      layout.RemoveClient(id);
      if wasActive {
        suppress := false;
        activeId := "";
        state := LocalActive;
      }
    }

    method HandleInput(p: Payload, clip: Option<Clip>)
      modifies this
      ensures View() == OnInput(old(View()), p, clip)
    {
      if state == ClientActive {
        SendToActiveClient(p);
        return;
      }
      if p.MouseMoveAbs? {
        var hit := layout.CheckEdge(p.x, p.y);
        if hit.Some? {
          SwitchToClient(hit.value, clip);
        }
      }
    }

    method SwitchToClient(id: string, clip: Option<Clip>)
      modifies this
      ensures View() == TransitionToClient(old(View()), id, clip)
    {
      if id !in clients {
        return;
      }
      if clip.Some? {
        TcpSend(id, ClipboardUpdate(clip.value.format, clip.value.data));
      }
      var info := layout.GetClient(id);
      var entryX, entryY := 0, 0;
      if info.Some? {
        entryX := ToU16(info.value.rect.width / 2);
        entryY := ToU16(info.value.rect.height / 2);
      }
      TcpSend(id, ScreenEnter(entryX, entryY,
                              if info.Some? then ToU16(info.value.rect.width) else 1920,
                              if info.Some? then ToU16(info.value.rect.height) else 1080));
      udpTarget := Target(clients[id].udpHost, clients[id].udpPort);
      suppress := true;
      activeId := id;
      state := ClientActive;
    }

    method SwitchToLocal()
      modifies this
      ensures View() == TransitionToLocal(old(View()))
    {
      if activeId != "" {
        if activeId in clients {
          TcpSend(activeId, ScreenLeave);
        }
      }
      suppress := false;
      activeId := "";
      state := LocalActive;
    }

    method SendToActiveClient(p: Payload)
      modifies this
      ensures View() == SendToActive(old(View()), p)
    {
      if IsMotion(p) {
        datagrams := datagrams + [Datagram(udpTarget, p)];
      } else if activeId in clients {
        TcpSend(activeId, p);
      }
    }

    /**
      One pass over the client map, erasing while iterating, in whatever order the map yields its keys.
      `todo` holds the keys not yet visited.
    */
    method KeepalivePass(now: int)
      modifies this
      ensures View() == AfterKeepalive(old(View()), now)
    {
      ghost var h := View();
      var todo := clients.Keys;
      VisitingNobody(h, now);
      assert h.clients.Keys - todo == {};
      while todo != {}
        invariant todo <= h.clients.Keys
        invariant View() == AfterVisiting(h, now, h.clients.Keys - todo)
      {
        var id :| id in todo;
        VisitingOneMore(h, now, h.clients.Keys - todo, id);
        assert h.clients.Keys - todo + {id} == h.clients.Keys - (todo - {id});
        todo := todo - {id};
        var elapsed := WholeSeconds(now - clients[id].lastKeepalive);
        if elapsed > 3 {
          var wasActive := state == ClientActive && activeId == id;
          clients := clients - {id};
          if wasActive {
            suppress := false;
            activeId := "";
            state := LocalActive;
          }
        } else {
          TcpSend(id, Keepalive);
        }
      }
      assert h.clients.Keys - {} == h.clients.Keys;
    }
  }
}
