/** The main results: what holds in every state any run can reach. */
module SessionLaws {
  import opened Octets
  import opened Protocol
  import opened ScreenLayouts
  import Servers
  import opened Traces
  import opened ServerLaws
  import opened Clients
  import opened Sessions

  /** The input events are those a client can inject, each travelling one way. */
  lemma InputsTravelOneWay(p: Payload)
    ensures InjectionOf(p).Some? <==> IsStroke(p) || Servers.IsMotion(p)
    ensures !(IsStroke(p) && Servers.IsMotion(p))
    ensures IsStroke(p) <==> p.MouseButton? || p.KeyDown? || p.KeyUp?
  {
  }

  lemma InputStepHub(s: System, p: Payload, clip: Option<Clip>)
    requires Enabled(s, Input(p, clip))
    ensures Apply(s, Input(p, clip)).hub == Servers.OnInput(s.hub, p, clip)
  {
    hide Servers.OnInput;
  }

  // ---------- Keystrokes ----------

  lemma {:induction false} AsInjectionsPrefix(ps: seq<Payload>, k: nat)
    requires k <= |ps|
    ensures AsInjections(ps[..k]) <= AsInjections(ps)
  {
    if k < |ps| {
      var front := ps[..|ps| - 1];
      AsInjectionsPrefix(front, k);
      assert front[..k] == ps[..k];
    } else {
      assert ps[..k] == ps;
    }
  }

  /**
    In every reachable state, the keys and buttons a client has injected for a connection are a prefix of
    those captured while that connection was active, in capture order; all of them once its channel is
    empty.
  */
  lemma StrokesDelivered(s: System, id: string)
    requires Reachable(s) && id in s.ends
    ensures InjectsWhatWasCaptured(s, id)
  {
    hide Reachable, SystemInv, EndInv, Strokes, AsInjections, StrokesInjected, CapturedFor;
    ReachableInv(s);
    InvFacts(s, id);
    EndStrokes(s.ends[id], Trace(s, id));
  }

  predicate InjectsWhatWasCaptured(s: System, id: string)
    requires id in s.ends
  {
    var injected := StrokesInjected(s.ends[id].client.injected);
    var expected := AsInjections(CapturedFor(s.captured, id));
    && injected <= expected
    && (s.ends[id].received == |Trace(s, id)| ==> injected == expected)
  }

  /** At any point of a trace, the strokes injected are a prefix of the trace's strokes. */
  lemma EndStrokes(e: Endpoint, t: seq<Payload>)
    requires EndInv(e, t)
    ensures var injected, expected := StrokesInjected(e.client.injected), AsInjections(Strokes(t));
            injected <= expected && (e.received == |t| ==> injected == expected)
  {
    hide Scan, Strokes, AsInjections, StrokesInjected, LastClip;
    var k := e.received;
    StrokesPrefix(t, k);
    assert Strokes(t[..k]) == Strokes(t)[..|Strokes(t[..k])|];
    AsInjectionsPrefix(Strokes(t), |Strokes(t[..k])|);
    if k == |t| {
      assert t[..k] == t;
    }
  }

  /**
    The next captured stroke goes to one place: to the server's own desktop, with nothing sent; or, with
    the local event suppressed, to the active connection and to no other.
  */
  lemma StrokeGoesOnePlace(s: System, stroke: Payload, clip: Option<Clip>)
    requires Reachable(s) && Enabled(s, Input(stroke, clip)) && IsStroke(stroke)
    ensures var h' := Apply(s, Input(stroke, clip)).hub;
            if s.hub.suppress then
              && h'.suppress && s.hub.activeId in s.hub.clients
              && (forall id :: Servers.Trace(h', id) == if id == s.hub.activeId then Trace(s, id) + [stroke] else Trace(s, id))
            else !h'.suppress && h' == s.hub
  {
    hide Reachable, SystemInv, HubInv, Servers.OnInput, Apply, Enabled;
    ReachableInv(s);
    InvHub(s);
    InputStepHub(s, stroke, clip);
    StrokeMeaning(s.hub, stroke, clip);
  }

  /** Pointer motion goes to the active client's host by datagram, and to nobody's TCP connection. */
  lemma MotionGoesOnePlace(s: System, motion: Payload, clip: Option<Clip>, host: string, port: string)
    requires Reachable(s) && Enabled(s, Input(motion, clip)) && Servers.IsMotion(motion) && s.hub.suppress
    ensures var h' := Apply(s, Input(motion, clip)).hub;
            && h'.sent == s.hub.sent
            && h'.datagrams == s.hub.datagrams + [Servers.Datagram(Servers.TargetOf(s.hub.activeId), motion)]
    ensures ':' !in host && s.hub.activeId == host + ":" + port ==>
      Apply(s, Input(motion, clip)).hub.datagrams == s.hub.datagrams + [Servers.Datagram(Servers.Target(host, 24801), motion)]
  {
    if ':' !in host {
      HostOfAddress(host, port);
    }
    hide Reachable, SystemInv, HubInv, Servers.OnInput, Servers.TargetOf, Apply, Enabled;
    ReachableInv(s);
    InvHub(s);
    InputStepHub(s, motion, clip);
    MotionMeaning(s.hub, motion, clip);
  }

  /** `inject_event` has no state check on the TCP path, and needs none. */
  lemma NoStrokeWhileInactive(s: System, id: string)
    requires Reachable(s) && Enabled(s, Deliver(id))
    ensures IsStroke(Trace(s, id)[s.ends[id].received]) ==> s.ends[id].client.state == Active
  {
    hide Reachable, SystemInv, EndInv, Scan;
    ReachableInv(s);
    InvFacts(s, id);
    DeliveredKeeps(s.ends[id], Trace(s, id));
  }

  // ---------- Agreement on who is active ----------

  /** Deliver everything still in the channel. */
  function Drained(e: Endpoint, t: seq<Payload>): Endpoint
    decreases |t| - e.received
  {
    if e.client.connected && e.received < |t| then Drained(Delivered(e, t), t) else e
  }

  /** Once the server has dropped a connection, its client meets the end of the stream after draining it. */
  function Settled(s: System, id: string): ClientView
    requires id in s.ends
  {
    var c := Drained(s.ends[id], Trace(s, id)).client;
    if id in s.hub.sent && id !in s.hub.clients && c.connected then Lost(c) else c
  }

  lemma {:induction false} DrainedState(e: Endpoint, t: seq<Payload>)
    requires EndInv(e, t) && e.client.connected && Scan(t) != Broken
    ensures Drained(e, t).client.connected
    ensures Drained(e, t).client.state == if Scan(t) == Inside then Active else Connected
    decreases |t| - e.received
  {
    hide Scan, Strokes, AsInjections, StrokesInjected, OnServerMessage;
    if e.received < |t| {
      DeliveredKeeps(e, t);
      DrainedState(Delivered(e, t), t);
    } else {
      assert t[..e.received] == t;
    }
  }

  /**
    In every reachable state, each client that still holds its connection ends up ACTIVE, once what is
    in flight has arrived, exactly if the server takes it to be the active one.
  */
  lemma EveryoneAgrees(s: System, id: string)
    requires Reachable(s) && id in s.ends && s.ends[id].client.connected
    ensures Settled(s, id).state == Active <==> s.hub.activeId == id
  {
    hide Reachable, SystemInv, HubInv, Scan, EndInv, Drained;
    ReachableInv(s);
    InvHub(s);
    InvFacts(s, id);
    ActiveHasTrace(s.hub);
    DrainedState(s.ends[id], Trace(s, id));
    if id !in s.hub.sent {
      EmptyTraceOutside(s, id);
    }
  }

  lemma EmptyTraceOutside(s: System, id: string)
    requires id !in s.hub.sent
    ensures Scan(Trace(s, id)) == Outside
  {
  }

  /** The last screen transition that the client's receive loop has delivered is an enter. */
  predicate SeenOpen(e: Endpoint, t: seq<Payload>) {
    e.received <= |t| && LastTransition(t[..e.received]) == Some(true)
  }

  /** A client that has not been told otherwise is as the messages delivered so far left it. */
  lemma ListeningState(e: Endpoint, t: seq<Payload>)
    requires EndInv(e, t) && Scan(t) != Broken
    ensures e.client.state == Active <==> Listening(e) && SeenOpen(e, t)
  {
    hide Strokes, StrokesInjected, AsInjections, LastClip, Scan, LastTransition, WellPlaced;
    ScanPrefix(t, e.received);
    GrammarMeaning(t[..e.received]);
  }

  /**
    Which clients settle ACTIVE, in every reachable state: of those that hold their connection, the one
    the server takes to be active; of the others, those stranded with their screen open.
  */
  lemma SettledActiveExactly(s: System, id: string)
    requires Reachable(s) && id in s.ends
    ensures Settled(s, id).state == Active
       <==> if s.ends[id].client.connected then s.hub.activeId == id
            else s.ends[id].stranded && SeenOpen(s.ends[id], Trace(s, id))
  {
    hide Reachable, SystemInv, EndInv, Scan, SeenOpen;
    if s.ends[id].client.connected {
      EveryoneAgrees(s, id);
    } else {
      ReachableInv(s);
      InvFacts(s, id);
      ListeningState(s.ends[id], Trace(s, id));
    }
  }

  /**
    At most one client in the whole system settles ACTIVE exactly if no client was stranded with its
    screen open, or only one was and the active client no longer holds its connection.
  */
  lemma AtMostOneActiveExactly(s: System)
    requires Reachable(s)
    ensures (forall a, b :: a in s.ends && b in s.ends && Settled(s, a).state == Active && Settled(s, b).state == Active
                            ==> a == b)
       <==> (forall a, b :: a in s.ends && b in s.ends && a != b && StrandedOpen(s, a)
                            ==> !StrandedOpen(s, b) && !(s.ends[b].client.connected && s.hub.activeId == b))
  {
    hide Reachable, Settled, SeenOpen;
    forall id | id in s.ends
      ensures Settled(s, id).state == Active
         <==> StrandedOpen(s, id) || (s.ends[id].client.connected && s.hub.activeId == id)
    {
      SettledActiveExactly(s, id);
      if s.ends[id].stranded {
        StrandedNotConnected(s, id);
      }
    }
  }

  predicate StrandedOpen(s: System, id: string)
    requires id in s.ends
  {
    s.ends[id].stranded && SeenOpen(s.ends[id], Trace(s, id))
  }

  lemma StrandedNotConnected(s: System, id: string)
    requires Reachable(s) && id in s.ends && s.ends[id].stranded
    ensures !s.ends[id].client.connected
  {
    hide Reachable;
    ReachableInv(s);
    assert EndInv(s.ends[id], Trace(s, id));
  }

  /** So, stranded clients apart, at most one client in the whole system settles ACTIVE. */
  lemma AtMostOneActive(s: System, a: string, b: string)
    requires Reachable(s) && a in s.ends && b in s.ends && !s.ends[a].stranded && !s.ends[b].stranded
    requires Settled(s, a).state == Active && Settled(s, b).state == Active
    ensures a == b
  {
    hide Reachable, Settled, SeenOpen;
    SettledActiveExactly(s, a);
    SettledActiveExactly(s, b);
  }

  /**
    At any moment, whatever is still in flight or will never arrive: a client that has not been told that
    its connection is gone agrees with the server exactly if the messages it has not received would leave
    its screen as it is, or, once the server has dropped it, if its screen is closed.
  */
  lemma AgreesNowExactly(s: System, id: string)
    requires Reachable(s) && id in s.ends && Listening(s.ends[id])
    ensures (s.ends[id].client.state == Active <==> s.hub.activeId == id)
       <==> var seen := SeenOpen(s.ends[id], Trace(s, id));
            if id in s.hub.clients then seen == (LastTransition(Trace(s, id)) == Some(true)) else !seen
  {
    hide Reachable, SystemInv, HubInv, EndInv, Scan, SeenOpen, LastTransition, WellPlaced;
    ReachableInv(s);
    InvHub(s);
    InvFacts(s, id);
    ActiveHasTrace(s.hub);
    ListeningState(s.ends[id], Trace(s, id));
    GrammarMeaning(Trace(s, id));
  }

  // ---------- Agreement before the close is seen ----------

  /**
    Before the client has seen the end of its stream, the two agree exactly if the server still has it
    registered or dropped it while its screen was closed.
  */
  lemma AgreesBeforeCloseExactly(s: System, id: string)
    requires Reachable(s) && id in s.ends && s.ends[id].client.connected
    ensures (Drained(s.ends[id], Trace(s, id)).client.state == Active <==> s.hub.activeId == id)
       <==> id in s.hub.clients || LastTransition(Trace(s, id)) != Some(true)
  {
    hide Reachable, SystemInv, HubInv, Scan, EndInv, Drained, LastTransition, WellPlaced;
    ReachableInv(s);
    InvHub(s);
    InvFacts(s, id);
    ActiveHasTrace(s.hub);
    DrainedState(s.ends[id], Trace(s, id));
    GrammarMeaning(Trace(s, id));
  }

  /**
    The end of the stream matters: a client evicted while active is told nothing, and stays ACTIVE after
    draining its channel until it notices that the connection is gone.
  */
  lemma EvictedStaysActiveUntilClosed(s: System, now: int)
    requires Reachable(s) && s.hub.activeId != ""
    requires s.hub.activeId in s.hub.clients && s.hub.activeId in s.ends && s.ends[s.hub.activeId].client.connected
    requires now - s.hub.clients[s.hub.activeId].lastKeepalive >= 4000
    ensures var id := s.hub.activeId;
            var s' := Apply(s, Tick(now));
            && s'.hub.activeId == "" && id !in s'.hub.clients
            && Drained(s'.ends[id], Trace(s', id)).client.state == Active
            && Settled(s', id).state != Active
  {
    hide Reachable, SystemInv, HubInv, EndInv, Scan, Servers.AfterKeepalive, Drained;
    ReachableInv(s);
    var id := s.hub.activeId;
    var s' := Apply(s, Tick(now));
    ApplyKeepsInv(s, Tick(now));
    InvHub(s);
    ActiveHasTrace(s.hub);
    KeepalivePassMeaning(s.hub, now);
    InvFacts(s, id);
    InvFacts(s', id);
    ScanSnoc(Trace(s, id), Keepalive);
    DrainedState(s'.ends[id], Trace(s', id));
  }

  lemma {:induction false} DrainedReceivesAll(e: Endpoint, t: seq<Payload>)
    requires EndInv(e, t) && e.client.connected && Scan(t) != Broken
    ensures EndInv(Drained(e, t), t) && Drained(e, t).received == |t|
    decreases |t| - e.received
  {
    hide Scan, Strokes, AsInjections, StrokesInjected, OnServerMessage, LastClip;
    if e.received < |t| {
      DeliveredKeeps(e, t);
      DrainedReceivesAll(Delivered(e, t), t);
    }
  }

  /**
    Copy here, paste there: a client entered through its edge while the clipboard held `clip` is ACTIVE
    and holds it, once its channel is empty.
  */
  lemma ClipboardFollows(s: System, id: string, x: uint16, y: uint16, clip: Clip)
    requires Reachable(s) && Enabled(s, Input(MouseMoveAbs(x, y), Some(clip))) && s.hub.state == Servers.LocalActive
    requires FirstHit(s.hub.layout.screen, s.hub.layout.clients, x, y) == Some(id)
    requires id in s.hub.clients && id in s.ends && s.ends[id].client.connected
    ensures var s' := Apply(s, Input(MouseMoveAbs(x, y), Some(clip)));
            var c := Drained(s'.ends[id], Trace(s', id)).client;
            c.state == Active && c.clipboard == Some(clip)
  {
    hide Reachable, SystemInv, HubInv, Apply, Enabled, Drained, Servers.TransitionToClient, FirstHit;
    ReachableInv(s);
    ApplyKeepsInv(s, Input(MouseMoveAbs(x, y), Some(clip)));
    EdgeHitStepHub(s, id, x, y, Some(clip));
    SwitchedClip(s, Apply(s, Input(MouseMoveAbs(x, y), Some(clip))), id, clip);
  }

  lemma EdgeHitStepHub(s: System, id: string, x: uint16, y: uint16, clip: Option<Clip>)
    requires Enabled(s, Input(MouseMoveAbs(x, y), clip)) && s.hub.state == Servers.LocalActive
    requires FirstHit(s.hub.layout.screen, s.hub.layout.clients, x, y) == Some(id)
    ensures var s' := Apply(s, Input(MouseMoveAbs(x, y), clip));
            s'.hub == Servers.TransitionToClient(s.hub, id, clip) && s'.ends == s.ends
  {
    hide Servers.TransitionToClient, FirstHit;
  }

  /** The same for a manual switch. */
  lemma ClipboardFollowsSwitch(s: System, id: string, clip: Clip)
    requires Reachable(s) && Enabled(s, Switch(id, Some(clip)))
    requires id in s.hub.clients && id in s.ends && s.ends[id].client.connected
    ensures var s' := Apply(s, Switch(id, Some(clip)));
            var c := Drained(s'.ends[id], Trace(s', id)).client;
            c.state == Active && c.clipboard == Some(clip)
  {
    hide Reachable, SystemInv, HubInv, Apply, Enabled, Drained, Servers.TransitionToClient;
    ReachableInv(s);
    ApplyKeepsInv(s, Switch(id, Some(clip)));
    SwitchStepHub(s, id, Some(clip));
    SwitchedClip(s, Apply(s, Switch(id, Some(clip))), id, clip);
  }

  lemma SwitchStepHub(s: System, id: string, clip: Option<Clip>)
    requires Enabled(s, Switch(id, clip))
    ensures Apply(s, Switch(id, clip)) == s.(hub := Servers.TransitionToClient(s.hub, id, clip))
  {
    hide Servers.TransitionToClient;
  }

  lemma SwitchedClip(s: System, s': System, id: string, clip: Clip)
    requires id in s.hub.clients && id in s.ends && s.ends[id].client.connected
    requires SystemInv(s') && s'.ends == s.ends && s'.hub == Servers.TransitionToClient(s.hub, id, Some(clip))
    ensures var c := Drained(s'.ends[id], Trace(s', id)).client;
            c.state == Active && c.clipboard == Some(clip)
  {
    hide SystemInv, Drained, HubInv, EndInv, Servers.TransitionToClient, Scan, LastClip;
    SwitchClip(s.hub, id, clip);
    InvFacts(s', id);
    var t := Trace(s', id);
    DrainedState(s'.ends[id], t);
    DrainedReceivesAll(s'.ends[id], t);
    FullClip(Drained(s'.ends[id], t), t);
  }

  lemma FullClip(e: Endpoint, t: seq<Payload>)
    requires EndInv(e, t) && e.received == |t|
    ensures e.client.clipboard == LastClip(t)
  {
    assert t[..|t|] == t;
  }

  lemma InvFacts(s: System, id: string)
    requires SystemInv(s) && id in s.ends
    ensures EndInv(s.ends[id], Trace(s, id)) && Complete(Trace(s, id))
    ensures id in s.hub.clients ==> (Scan(Trace(s, id)) == Inside <==> id == s.hub.activeId)
    ensures id != "" && CapturedFor(s.captured, id) == Strokes(Trace(s, id))
  {
    hide EndInv, Scan, Strokes, CapturedFor;
    TraceNotBroken(s, id);
  }

  lemma SwitchClip(h: Servers.Hub, id: string, clip: Clip)
    requires id in h.clients
    ensures var h' := Servers.TransitionToClient(h, id, Some(clip));
            h'.activeId == id && id in h'.clients && LastClip(Servers.Trace(h', id)) == Some(clip)
  {
    hide Servers.EnterMessage, Servers.TransitionToClient, LastClip;
    TransitionSent(h, id, Some(clip));
    EnterIsEnter(h.layout, id);
    LastClipBeforeEnter(Servers.Trace(h, id), ClipboardUpdate(clip.format, clip.data), Servers.EnterMessage(h.layout, id));
  }

  lemma LastClipBeforeEnter(t: seq<Payload>, update: Payload, enter: Payload)
    requires update.ClipboardUpdate? && enter.ScreenEnter?
    ensures LastClip(t + [update, enter]) == Some(Clip(update.format, update.data))
  {
    assert (t + [update, enter])[..|t| + 1] == t + [update];
  }

  /**
    From the client's own display to its own pointer: the size it greets with comes back in the enter, and
    handling the enter makes it ACTIVE with the pointer at the centre of that display.
  */
  lemma EnteredAtOwnCentre(
    h: Servers.Hub, id: string, name: octets, w: uint16, hgt: uint16, now: int, clip: Option<Clip>, c: ClientView)
    requires id in h.clients
    ensures var h1 := Servers.OnMessage(h, id, Greeting(name, Some((w, hgt))), now);
            var t := Servers.Trace(Servers.TransitionToClient(h1, id, clip), id);
            t != [] && OnServerMessage(c, t[|t| - 1]) == c.(state := Active, injected := c.injected + [Move(w / 2, hgt / 2)])
  {
    hide Servers.OnMessage, Servers.TransitionToClient;
    EnterAnnouncedScreen(h, id, PROTOCOL_VERSION, w, hgt, name, now, clip);
  }

  // ---------- Back to local ----------

  /**
    After the escape hotkey no client settles ACTIVE over the connection it holds.  Once drained it is
    back to CONNECTED, exactly if it is registered or was dropped while its screen was closed.
  */
  lemma EscapeReturnsScreens(s: System, id: string)
    requires Reachable(s) && id in s.ends && s.ends[id].client.connected
    ensures var s' := Apply(s, SwitchLocal);
            && (Drained(s'.ends[id], Trace(s', id)).client.state == Connected
                <==> id in s.hub.clients || LastTransition(Trace(s, id)) != Some(true))
            && Settled(s', id).state != Active
  {
    hide Reachable, SystemInv, HubInv, EndInv, Scan, Servers.TransitionToLocal, Drained, LastTransition, WellPlaced;
    var s' := Apply(s, SwitchLocal);
    ReachableInv(s);
    ApplyKeepsInv(s, SwitchLocal);
    InvHub(s);
    ActiveHasTrace(s.hub);
    ToLocalMeaning(s.hub);
    InvFacts(s', id);
    DrainedState(s'.ends[id], Trace(s', id));
    GrammarMeaning(Trace(s', id));
    if id !in s.hub.clients {
      assert Trace(s', id) == Trace(s, id);
      if id !in s'.hub.sent {
        EmptyTraceOutside(s', id);
      }
    }
  }

  /** And the keyboard is the server's own again: the next stroke is let through and sent to nobody. */
  lemma EscapeReturnsKeyboard(s: System, stroke: Payload, clip: Option<Clip>)
    requires Reachable(s) && IsStroke(stroke) && ClipFits(clip)
    ensures var s' := Apply(s, SwitchLocal);
            !s'.hub.suppress && Enabled(s', Input(stroke, clip)) && Apply(s', Input(stroke, clip)).hub == s'.hub
  {
    hide Reachable, SystemInv, HubInv, Servers.TransitionToLocal, Servers.OnInput;
    var s' := Apply(s, SwitchLocal);
    ReachableInv(s);
    ApplyKeepsInv(s, SwitchLocal);
    InvHub(s);
    InvHub(s');
    ToLocalMeaning(s.hub);
    StrokeMeaning(s'.hub, stroke, clip);
  }

  // ---------- The shape of every channel ----------

  /** Each connection's trace is grammatical, and its screen is open exactly while its client is active. */
  lemma ChannelGrammar(s: System, id: string)
    requires Reachable(s)
    ensures var t := Trace(s, id);
            && (Scan(t) == Outside || Scan(t) == Inside)
            && (id in s.hub.clients ==> (LastTransition(t) == Some(true) <==> s.hub.activeId == id))
  {
    hide Reachable;
    ReachableInv(s);
    TraceNotBroken(s, id);
    GrammarMeaning(Trace(s, id));
  }

  /** The server forwards exactly while a registered client is active and local input is suppressed. */
  lemma ServerConsistent(s: System)
    requires Reachable(s)
    ensures var h := s.hub;
            && h.state != Servers.ServerState.Disconnected
            && (h.state == Servers.ClientActive <==> h.activeId != "")
            && (h.activeId != "" <==> h.suppress)
            && (h.activeId != "" ==> h.activeId in h.clients)
  {
    hide Reachable;
    ReachableInv(s);
  }

  // ---------- The handshake comes first ----------

  predicate InLayout(layout: Layout, id: string) {
    exists c <- layout.clients :: c.clientId == id
  }

  /** Registered clients in the layout have been greeted; evicted ones may linger in the layout. */
  ghost predicate GreetingInv(h: Servers.Hub) {
    && (forall id <- h.sent :: GreetedFirst(h.sent[id]))
    && (forall id <- h.clients :: id in h.sent && (InLayout(h.layout, id) ==> Greeted(h.sent[id])))
    && (forall id :: InLayout(h.layout, id) ==> id in h.sent)
  }

  /** A manual switch is polite unless it enters a registered client that has not been greeted. */
  ghost predicate PoliteSwitch(s: System, step: Step)
    requires step.Switch?
  {
    Enabled(s, step) && step.id in s.hub.clients ==> Greeted(Trace(s, step.id))
  }

  ghost predicate PoliteRun(layout: Layout, steps: seq<Step>) {
    forall k :: 0 <= k < |steps| && steps[k].Switch? ==> PoliteSwitch(Exec(Start(layout), steps[..k]), steps[k])
  }

  lemma PoliteSnoc(layout: Layout, steps: seq<Step>)
    requires steps != []
    ensures var front, step := steps[..|steps| - 1], steps[|steps| - 1];
            PoliteRun(layout, steps)
            <==> PoliteRun(layout, front) && (step.Switch? ==> PoliteSwitch(Exec(Start(layout), front), step))
  {
    hide PoliteSwitch, Exec;
    var front, step := steps[..|steps| - 1], steps[|steps| - 1];
    forall k | 0 <= k < |front| ensures front[k] == steps[k] && front[..k] == steps[..k] {}
    if PoliteRun(layout, front) && (step.Switch? ==> PoliteSwitch(Exec(Start(layout), front), step)) {
      forall k | 0 <= k < |steps| && steps[k].Switch?
        ensures PoliteSwitch(Exec(Start(layout), steps[..k]), steps[k])
      {
        if k < |front| {
          assert front[k].Switch?;
        }
      }
    }
  }

  lemma {:induction false} FirstHitInLayout(layout: Layout, list: seq<ScreenInfo>, x: int, y: int)
    requires forall c <- list :: c in layout.clients
    requires FirstHit(layout.screen, list, x, y).Some?
    ensures InLayout(layout, FirstHit(layout.screen, list, x, y).value)
  {
    if !Hit(layout.screen, list[0], x, y) {
      FirstHitInLayout(layout, list[1..], x, y);
    }
  }

  lemma {:induction false} WithoutInLayout(list: seq<ScreenInfo>, id: string)
    ensures forall c <- Without(list, id) :: c in list && c.clientId != id
  {
    if list != [] {
      WithoutInLayout(list[..|list| - 1], id);
    }
  }

  lemma {:induction false} WithEdgeInLayout(list: seq<ScreenInfo>, id: string, edge: Edge)
    ensures forall c <- WithEdge(list, id, edge) :: exists d <- list :: d.clientId == c.clientId
  {
    if list != [] && list[0].clientId != id {
      WithEdgeInLayout(list[1..], id, edge);
    } else if list != [] {
      forall c | c in WithEdge(list, id, edge) ensures exists d <- list :: d.clientId == c.clientId {
        if c.clientId == id {
          assert list[0] in list && list[0].clientId == id;
        } else {
          assert c in list;
        }
      }
    }
  }

  /** Sending anything but an enter is always polite; an enter is, to a greeted client. */
  lemma SendGreeting(h: Servers.Hub, id: string, p: Payload)
    requires GreetingInv(h) && id in h.sent && (p.ScreenEnter? ==> Greeted(h.sent[id]))
    ensures GreetingInv(Servers.Send(h, id, p))
    ensures IsGreeting(p) || Greeted(h.sent[id]) ==> Greeted(Servers.Send(h, id, p).sent[id])
  {
    hide Greeted, GreetedFirst;
    GreetedSnoc(h.sent[id], p);
  }

  lemma TransitionGreeting(h: Servers.Hub, id: string, clip: Option<Clip>)
    requires GreetingInv(h) && (id in h.clients ==> Greeted(Servers.Trace(h, id)))
    ensures GreetingInv(Servers.TransitionToClient(h, id, clip))
  {
    hide Greeted, GreetedFirst, Servers.EnterMessage, Servers.Send, InLayout;
    if id in h.clients {
      var h1 := h;
      if clip.Some? {
        var update := ClipboardUpdate(clip.value.format, clip.value.data);
        h1 := Servers.Send(h, id, update);
        SendGreeting(h, id, update);
        SendFields(h, id, update);
      }
      var enter := Servers.EnterMessage(h.layout, id);
      assert enter.ScreenEnter? by { EnterIsEnter(h.layout, id); }
      SendGreeting(h1, id, enter);
      SendFields(h1, id, enter);
    }
  }

  lemma EnterIsEnter(layout: Layout, id: string)
    ensures Servers.EnterMessage(layout, id).ScreenEnter?
  {
  }

  lemma SendFields(h: Servers.Hub, id: string, p: Payload)
    ensures var h' := Servers.Send(h, id, p);
            h'.clients == h.clients && h'.layout == h.layout && id in h'.sent && h'.sent.Keys == h.sent.Keys + {id}
  {
  }

  lemma LocalGreeting(h: Servers.Hub)
    requires GreetingInv(h)
    ensures GreetingInv(Servers.TransitionToLocal(h))
  {
    hide Greeted, GreetedFirst, InLayout;
    if h.activeId != "" && h.activeId in h.clients {
      SendGreeting(h, h.activeId, ScreenLeave);
    }
  }

  lemma InputGreeting(h: Servers.Hub, p: Payload, clip: Option<Clip>)
    requires GreetingInv(h) && (IsStroke(p) || Servers.IsMotion(p))
    ensures GreetingInv(Servers.OnInput(h, p, clip))
  {
    hide Greeted, GreetedFirst, InLayout, Servers.TransitionToClient;
    if h.state == Servers.ClientActive {
      if h.activeId in h.clients && !Servers.IsMotion(p) {
        SendGreeting(h, h.activeId, p);
      }
    } else if p.MouseMoveAbs? && FirstHit(h.layout.screen, h.layout.clients, p.x, p.y).Some? {
      FirstHitInLayout(h.layout, h.layout.clients, p.x, p.y);
      TransitionGreeting(h, FirstHit(h.layout.screen, h.layout.clients, p.x, p.y).value, clip);
    }
  }

  lemma DisconnectedGreeting(h: Servers.Hub, id: string)
    requires GreetingInv(h)
    ensures GreetingInv(Servers.OnDisconnected(h, id))
  {
    hide Greeted, GreetedFirst;
    WithoutInLayout(h.layout.clients, id);
    var h' := Servers.OnDisconnected(h, id);
    forall other | InLayout(h'.layout, other) ensures InLayout(h.layout, other) {}
  }

  lemma HelloGreeting(h: Servers.Hub, id: string, name: octets, w: uint16, hgt: uint16)
    requires GreetingInv(h) && id in h.clients
    ensures GreetingInv(Servers.OnHello(h, id, name, w, hgt))
  {
    hide Greeted, GreetedFirst;
    WithoutInLayout(h.layout.clients, id);
    var screen := h.clients[id].screen.(name := name, clientId := id, rect := ScreenRect(0, 0, w, hgt));
    var ack := HelloAck(PROTOCOL_VERSION, 1);
    var h1 := Servers.Send(h, id, ack);
    SendGreeting(h, id, ack);
    SendFields(h, id, ack);
    var h' := Servers.OnHello(h, id, name, w, hgt);
    assert h'.sent == h1.sent;
    assert h'.layout.clients == Added(h.layout.clients, screen);
    forall other | InLayout(h'.layout, other) && other != id ensures InLayout(h.layout, other) {
      assert Placed(screen).clientId == id;
    }
  }

  lemma MessageGreeting(h: Servers.Hub, id: string, p: Payload, now: int)
    requires GreetingInv(h)
    ensures GreetingInv(Servers.OnMessage(h, id, p, now))
  {
    hide Greeted, GreetedFirst, InLayout, Servers.OnHello;
    if p.Disconnect? {
      DisconnectedGreeting(h, id);
    } else if id in h.clients {
      var h1 := h.(clients := h.clients[id := h.clients[id].(lastKeepalive := now)]);
      assert GreetingInv(h1);
      match p
      case Hello(_, w, hgt, name) => HelloGreeting(h1, id, name, w, hgt);
      case _ =>
    }
  }

  lemma TickGreeting(h: Servers.Hub, now: int)
    requires GreetingInv(h) && HubInv(h)
    ensures GreetingInv(Servers.AfterKeepalive(h, now))
  {
    hide Greeted, GreetedFirst, InLayout, Servers.AfterKeepalive, Scan;
    KeepalivePassMeaning(h, now);
    var h' := Servers.AfterKeepalive(h, now);
    forall id | id in h'.sent
      ensures GreetedFirst(h'.sent[id]) && (Greeted(h.sent[id]) ==> Greeted(h'.sent[id]))
    {
      GreetedSnoc(h.sent[id], Keepalive);
      assert h'.sent[id] == Servers.Trace(h', id) && h.sent[id] == Servers.Trace(h, id);
    }
  }

  lemma SetEdgeGreeting(h: Servers.Hub, id: string, edge: Edge)
    requires GreetingInv(h)
    ensures GreetingInv(h.(layout := h.layout.(clients := WithEdge(h.layout.clients, id, edge))))
  {
    hide Greeted, GreetedFirst;
    WithEdgeInLayout(h.layout.clients, id, edge);
    var layout := h.layout.(clients := WithEdge(h.layout.clients, id, edge));
    forall other | InLayout(layout, other) ensures InLayout(h.layout, other) {}
  }

  lemma AcceptGreeting(h: Servers.Hub, id: string, now: int)
    requires GreetingInv(h) && id !in h.sent
    ensures GreetingInv(Servers.OnConnected(h, id, now))
  {
    hide Servers.HostPart, InLayout;
  }

  lemma StepGreeting(s: System, step: Step)
    requires SystemInv(s) && GreetingInv(s.hub) && Enabled(s, step) && (step.Switch? ==> PoliteSwitch(s, step))
    ensures GreetingInv(Apply(s, step).hub)
  {
    var h := s.hub;
    hide Greeted, GreetedFirst, InLayout, GreetingInv, Servers.OnMessage, Servers.OnDisconnected, Servers.TransitionToLocal,
      Servers.OnInput, Servers.AfterKeepalive, Servers.OnConnected, Servers.TransitionToClient;
    match step
    case Switch(id, clip) => TransitionGreeting(h, id, clip);
    case Accept(id, now) => AcceptGreeting(h, id, now);
    case FromClient(id, p, now) => MessageGreeting(h, id, p, now);
    case ServerLost(id) => DisconnectedGreeting(h, id);
    case Input(p, clip) => InputGreeting(h, p, clip);
    case SwitchLocal => LocalGreeting(h);
    case Tick(now) => TickGreeting(h, now);
    case SetEdge(id, edge) => SetEdgeGreeting(h, id, edge);
    case _ =>
  }

  /** A switch respects the handshake exactly if the client is unknown or has been greeted. */
  lemma SwitchGreetedExactly(h: Servers.Hub, id: string, clip: Option<Clip>)
    requires GreetedFirst(Servers.Trace(h, id))
    ensures GreetedFirst(Servers.Trace(Servers.TransitionToClient(h, id, clip), id))
       <==> id !in h.clients || Greeted(Servers.Trace(h, id))
  {
    if id in h.clients {
      hide GreetedFirst, Greeted, Servers.TransitionToClient, Servers.EnterMessage;
      TransitionSent(h, id, clip);
      var t := Servers.Trace(h, id);
      var enter := Servers.EnterMessage(h.layout, id);
      EnterIsEnter(h.layout, id);
      if clip.Some? {
        var update := ClipboardUpdate(clip.value.format, clip.value.data);
        GreetedSnoc(t, update);
        EnterGreetedExactly(t + [update], enter);
        assert t + [update] + [enter] == t + Opening(h, id, clip);
      } else {
        EnterGreetedExactly(t, enter);
      }
    }
  }

  lemma EnterGreetedExactly(t: seq<Payload>, enter: Payload)
    requires GreetedFirst(t) && enter.ScreenEnter?
    ensures GreetedFirst(t + [enter]) <==> Greeted(t)
  {
    GreetedSnoc(t, enter);
    assert (t + [enter])[..|t|] == t && (t + [enter])[|t|] == enter;
  }

  /** Whatever happens, nothing already sent is taken back. */
  lemma TracesGrow(s: System, step: Step, id: string)
    requires SystemInv(s) && Enabled(s, step)
    ensures Trace(s, id) <= Trace(Apply(s, step), id)
  {
    hide HubInv, EndInv, Strokes, Servers.OnMessage, Servers.OnDisconnected, Servers.TransitionToLocal, Servers.OnInput,
      Servers.AfterKeepalive, Servers.OnConnected, Servers.TransitionToClient;
    match step
    case Accept(peer, now) => ConnectedTraces(s.hub, peer, now);
    case FromClient(peer, p, now) => MessageKeeps(s.hub, peer, p, now);
    case ServerLost(peer) => DisconnectedKeeps(s.hub, peer);
    case Input(p, clip) => InputKeeps(s.hub, p, clip);
    case SwitchLocal => ToLocalKeeps(s.hub);
    case Switch(peer, clip) => TransitionKeepsExactly(s.hub, peer, clip);
    case Tick(now) => KeepaliveKeeps(s.hub, now);
    case _ =>
  }

  lemma GreetedFirstPrefix(t: seq<Payload>, t': seq<Payload>)
    requires t <= t' && GreetedFirst(t')
    ensures GreetedFirst(t)
  {
    hide Greeted;
    forall i | 0 <= i < |t| && t[i].ScreenEnter? ensures Greeted(t[..i]) {
      assert t'[i] == t[i] && t'[..i] == t[..i];
    }
  }

  ghost predicate AllGreetedFirst(s: System) {
    forall id :: GreetedFirst(Trace(s, id))
  }

  lemma StepNeverMends(s: System, step: Step)
    requires SystemInv(s) && Enabled(s, step) && AllGreetedFirst(Apply(s, step))
    ensures AllGreetedFirst(s)
    ensures step.Switch? ==> PoliteSwitch(s, step)
  {
    hide SystemInv, Apply, Enabled, GreetedFirst, Greeted;
    forall id ensures GreetedFirst(Trace(s, id)) {
      TracesGrow(s, step, id);
      GreetedFirstPrefix(Trace(s, id), Trace(Apply(s, step), id));
    }
    assert AllGreetedFirst(s);
    if step.Switch? {
      assert GreetedFirst(Trace(s, step.id)) && GreetedFirst(Trace(Apply(s, step), step.id));
      SwitchStepHub(s, step.id, step.clip);
      SwitchGreetedExactly(s.hub, step.id, step.clip);
    }
  }

  /**
    In every run, every ScreenEnter on every connection comes after a HelloAck on that connection, exactly
    if no manual switch went to a client that was registered but not greeted.  Entering through edges is
    always safe, although evicted clients stay in the layout.
  */
  lemma {:induction false} HandshakeExactly(layout: Layout, steps: seq<Step>)
    requires layout.clients == []
    ensures AllGreetedFirst(Exec(Start(layout), steps)) <==> PoliteRun(layout, steps)
    ensures PoliteRun(layout, steps) ==> GreetingInv(Exec(Start(layout), steps).hub)
  {
    hide AllGreetedFirst;
    if steps == [] {
      GreetingAtStart(layout);
    } else {
      var front, step := steps[..|steps| - 1], steps[|steps| - 1];
      var before := Exec(Start(layout), front);
      HandshakeExactly(layout, front);
      RunsKeepInv(layout, front);
      PoliteSnoc(layout, steps);
      hide Apply, Enabled, SystemInv, GreetingInv, PoliteRun;
      if Enabled(before, step) {
        if PoliteRun(layout, steps) {
          StepGreeting(before, step);
          GreetingOfTraces(Apply(before, step));
        } else if AllGreetedFirst(Apply(before, step)) {
          StepNeverMends(before, step);
        }
      }
    }
  }

  lemma GreetingAtStart(layout: Layout)
    requires layout.clients == []
    ensures GreetingInv(Start(layout).hub) && AllGreetedFirst(Start(layout))
  {
  }

  lemma GreetingOfTraces(s: System)
    requires GreetingInv(s.hub)
    ensures AllGreetedFirst(s)
  {
  }

  /** For example, a manual switch to a client that has connected but not said Hello. */
  lemma ManualSwitchSkipsHandshake(layout: Layout)
    requires layout.clients == []
    ensures var steps := [Connect("a:1", true, Keepalive), Accept("a:1", 0), Switch("a:1", None)];
            var s := Exec(Start(layout), steps);
            Trace(s, "a:1") == [ScreenEnter(0, 0, 1920, 1080)] && !GreetedFirst(Trace(s, "a:1"))
  {
    var c, a, w := Connect("a:1", true, Keepalive), Accept("a:1", 0), Switch("a:1", None);
    assert Exec(Start(layout), []) == Start(layout);
    var s1 := Apply(Start(layout), c);
    assert [c][..0] == [] && Exec(Start(layout), [c]) == s1;
    assert [c, a][..1] == [c] && Exec(Start(layout), [c, a]) == Apply(s1, a);
    assert [c, a, w][..2] == [c, a] && Exec(Start(layout), [c, a, w]) == Apply(Apply(s1, a), w);
    var t := [ScreenEnter(0, 0, 1920, 1080)];
    assert !Greeted(t[..0]);
  }
}
