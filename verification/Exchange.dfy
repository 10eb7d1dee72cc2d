/** What a client says, as the server hears it. */
module Exchanges {
  import opened Octets
  import opened Protocol
  import opened ScreenLayouts
  import Servers
  import opened Traces
  import opened ServerLaws
  import opened Clients

  /** The message a client has just sent. */
  function Said(before: ClientView, after: ClientView): Option<Payload> {
    if |after.sent| == |before.sent| + 1 && before.sent <= after.sent then Some(after.sent[|before.sent|]) else None
  }

  /** A heartbeat does nothing but say that the client is alive. */
  lemma HeartbeatRefreshes(c: ClientView, h: Servers.Hub, id: string, now: int)
    requires c.connected && id in h.clients
    ensures var said := Said(c, OnKeepaliveTick(c, true));
            && said.Some?
            && Servers.OnMessage(h, id, said.value, now)
               == h.(clients := h.clients[id := h.clients[id].(lastKeepalive := now)])
    ensures OnKeepaliveTick(c, true).(sent := c.sent) == c
  {
  }

  /** Only a connected client sends one, and one that cannot be sent changes nothing else. */
  lemma HeartbeatFails(c: ClientView)
    ensures !c.connected ==> OnKeepaliveTick(c, true) == c && OnKeepaliveTick(c, false) == c
    ensures c.connected ==> OnKeepaliveTick(c, false) == OnKeepaliveTick(c, true).(connected := false)
  {
  }

  /** A client that quits is forgotten by the server as soon as it hears of it, and does not come back. */
  lemma GoodbyeForgets(c: ClientView, h: Servers.Hub, id: string, now: int)
    requires HubInv(h) && c.connected
    ensures var said := Said(c, Quit(c));
            && said.Some?
            && var h' := Servers.OnMessage(h, id, said.value, now);
               id !in h'.clients && Find(h'.layout.clients, id) == None && h'.sent == h.sent
               && h'.activeId == (if h.activeId == id then "" else h.activeId)
    ensures !Quit(c).connected && !Quit(c).autoReconnect && Quit(c).state == Disconnected
  {
    hide HubInv, Servers.OnMessage, Find;
    MessageMeaning(h, id, Disconnect, now);
  }

  /** A client that was not connected has nobody to say goodbye to. */
  lemma QuietQuit(c: ClientView)
    requires !c.connected
    ensures Quit(c) == c.(running := false, autoReconnect := false, state := ClientState.Disconnected)
  {
  }

  /** A greeting introduces the client by its name and by its display, or 1920x1080 if it has none. */
  lemma GreetingIntroduces(h: Servers.Hub, id: string, name: octets, display: Option<(uint32, uint32)>, now: int)
    requires HubInv(h) && id in h.clients
    ensures var h' := Servers.OnMessage(h, id, Greeting(name, display), now);
            var (w, hgt) := match display case Some((w, hgt)) => (w % 0x1_0000, hgt % 0x1_0000) case None => (1920, 1080);
            && id in h'.clients && h'.clients[id].name == name && h'.clients[id].lastKeepalive == now
            && Find(h'.layout.clients, id) == Some(ScreenInfo(name, id, ScreenRect(0, 0, w, hgt), Right))
            && Servers.Trace(h', id) == Servers.Trace(h, id) + [HelloAck(1, 1)]
  {
    hide HubInv, Servers.OnMessage, Find;
    var (w, hgt) := match display case Some((w, hgt)) => (w % 0x1_0000, hgt % 0x1_0000) case None => (1920, 1080);
    HelloState(h, id, 1, w, hgt, name, now);
    HelloPlacesRight(h, id, 1, w, hgt, name, now);
    HeardNow(h, id, Greeting(name, display), now);
  }

  lemma HeardNow(h: Servers.Hub, id: string, p: Payload, now: int)
    requires id in h.clients && !p.Disconnect?
    ensures id in Servers.OnMessage(h, id, p, now).clients && Servers.OnMessage(h, id, p, now).clients[id].lastKeepalive == now
  {
  }

  /** A rejected client leaves for good; one told to disconnect comes back if it wants to. */
  lemma ToldToGo(c: ClientView, version: uint16, accepted: uint8)
    ensures OnServerMessage(c, HelloAck(version, accepted)) == if accepted == 0 then Quit(c) else c
    ensures var c' := OnServerMessage(c, Disconnect);
            && !c'.connected && c'.sent == c.sent && c'.injected == c.injected
            && c'.state == (if c.autoReconnect && c.running then Reconnecting else ClientState.Disconnected)
  {
  }
}
