/**
  The whole system as a step machine: one server, any number of clients, one reliable ordered channel
  per connection from server to client, and an unordered, lossy bag of datagrams.  A handler runs as one
  step.  What a client sends is arbitrary; connection ids are never reused.  Clipboards fit their frame;
  EndToEnd.dfy shows that the channel is reliable for exactly those.
*/
module Sessions {
  import opened Octets
  import opened Protocol
  import opened ScreenLayouts
  import Servers
  import opened Traces
  import opened ServerLaws
  import opened Clients

  /**
    The client's end of a connection; `received` counts the messages its receive loop has delivered.  It is
    stranded when one of its sends has failed and its receive loop has not reported the loss; `ended` says
    that the loop has since left at its guard, and never will.
  */
  datatype Endpoint = Endpoint(client: ClientView, received: nat, stranded: bool, ended: bool)

  /** The client has not been told that the connection is gone. */
  predicate Listening(e: Endpoint) {
    e.client.connected || e.stranded
  }

  /** The receive loop may still be at work. */
  predicate Reading(e: Endpoint) {
    Listening(e) && !e.ended
  }

  /** An input event and the connection that was active when it was captured; "" for none. */
  datatype Captured = Captured(owner: string, event: Payload)

  /** `captured` holds the strokes and `motions` the pointer events captured so far. */
  datatype System =
    System(hub: Servers.Hub, ends: map<string, Endpoint>, captured: seq<Captured>, motions: seq<Captured>)

  datatype Step =
    | Connect(id: string, autoReconnect: bool, hello: Payload)  // also a successful reconnect
    | Accept(id: string, now: int)
    | FromClient(id: string, message: Payload, now: int)
    | ServerLost(id: string)
    | Input(event: Payload, clip: Option<Clip>)
    | SwitchLocal                                               // also the escape hotkey
    | Switch(id: string, clip: Option<Clip>)
    | Tick(now: int)
    | SetEdge(id: string, edge: Edge)
    | Deliver(id: string)
    | DeliverDatagram(id: string, index: nat)
    | ClientKeepalive(id: string, sendOk: bool)
    | LoopExits(id: string)
    | ClientLost(id: string)
    | ClientQuit(id: string)

  function Start(layout: Layout): System {
    System(Servers.Fresh(layout), map[], [], [])
  }

  /** Everything sent to this connection so far. */
  function Trace(s: System, id: string): seq<Payload> {
    Servers.Trace(s.hub, id)
  }

  ghost predicate Enabled(s: System, step: Step) {
    match step
    case Connect(id, _, _) => id != "" && id !in s.ends
    case Accept(id, _) => id in s.ends && id !in s.hub.sent
    case FromClient(id, _, _) => id in s.hub.sent
    case ServerLost(id) => id in s.hub.sent
    case Input(p, clip) => (IsStroke(p) || Servers.IsMotion(p)) && ClipFits(clip)
    case SwitchLocal => true
    case Switch(_, clip) => s.hub.state == Servers.LocalActive && ClipFits(clip)
    case Tick(_) => true
    case SetEdge(_, _) => true
    case Deliver(id) => id in s.ends && Reading(s.ends[id]) && s.ends[id].received < |Trace(s, id)|
    case DeliverDatagram(id, i) =>
      id in s.ends && Listening(s.ends[id])
      && i < |s.hub.datagrams| && s.hub.datagrams[i].target.host == Servers.HostPart(id)
    case ClientKeepalive(id, _) => id in s.ends
    case LoopExits(id) => id in s.ends && s.ends[id].stranded && !s.ends[id].ended
    case ClientLost(id) => id in s.ends && Reading(s.ends[id])
    case ClientQuit(id) => id in s.ends
  }

  function Owner(h: Servers.Hub): string {
    if h.state == Servers.ClientActive then h.activeId else ""
  }

  function OnEnd(s: System, id: string, e: Endpoint): System {
    s.(ends := s.ends[id := e])
  }

  ghost function Apply(s: System, step: Step): System
    requires Enabled(s, step)
  {
    var h := s.hub;
    match step
    case Connect(id, auto, hello) =>
      OnEnd(s, id, Endpoint(ClientView(Connected, true, auto, true, [], None, [hello]), 0, false, false))
    case Accept(id, now) => s.(hub := Servers.OnConnected(h, id, now))
    case FromClient(id, p, now) => s.(hub := Servers.OnMessage(h, id, p, now))
    case ServerLost(id) => s.(hub := Servers.OnDisconnected(h, id))
    case Input(p, clip) =>
      s.(hub := Servers.OnInput(h, p, clip),
         captured := if IsStroke(p) then s.captured + [Captured(Owner(h), p)] else s.captured,
         motions := if IsStroke(p) then s.motions else s.motions + [Captured(Owner(h), p)])
    case SwitchLocal => s.(hub := Servers.TransitionToLocal(h))
    case Switch(id, clip) => s.(hub := Servers.TransitionToClient(h, id, clip))
    case Tick(now) => s.(hub := Servers.AfterKeepalive(h, now))
    case SetEdge(id, edge) => s.(hub := h.(layout := h.layout.(clients := WithEdge(h.layout.clients, id, edge))))
    case Deliver(id) => OnEnd(s, id, Delivered(s.ends[id], Trace(s, id)))
    case DeliverDatagram(id, i) =>
      OnEnd(s, id, s.ends[id].(client := OnUdpMessage(s.ends[id].client, h.datagrams[i].payload)))
    case ClientKeepalive(id, ok) => OnEnd(s, id, KeptAlive(s.ends[id], ok))
    case LoopExits(id) => OnEnd(s, id, s.ends[id].(ended := true))
    case ClientLost(id) => OnEnd(s, id, Closing(s.ends[id], Lost(s.ends[id].client)))
    case ClientQuit(id) => OnEnd(s, id, Closing(s.ends[id], Quit(s.ends[id].client)))
  }

  function Closing(e: Endpoint, c: ClientView): Endpoint {
    e.(client := c, stranded := false, ended := false)
  }

  function KeptAlive(e: Endpoint, sendOk: bool): Endpoint {
    e.(client := OnKeepaliveTick(e.client, sendOk), stranded := e.stranded || (e.client.connected && !sendOk))
  }

  function Delivered(e: Endpoint, t: seq<Payload>): Endpoint
    requires e.received < |t|
  {
    e.(client := OnServerMessage(e.client, t[e.received]), received := e.received + 1)
  }

  /** A run; a step that is not enabled does nothing. */
  ghost function Exec(s: System, steps: seq<Step>): System {
    if steps == [] then s
    else
      var before, step := Exec(s, steps[..|steps| - 1]), steps[|steps| - 1];
      if Enabled(before, step) then Apply(before, step) else before
  }

  // ---------- Observations ----------

  /** The strokes captured while connection `id` was active, in capture order. */
  function CapturedFor(captured: seq<Captured>, id: string): seq<Payload> {
    if captured == [] then []
    else
      var last := captured[|captured| - 1];
      var before := CapturedFor(captured[..|captured| - 1], id);
      if last.owner == id then before + [last.event] else before
  }

  lemma CapturedSnoc(captured: seq<Captured>, c: Captured)
    ensures forall id :: CapturedFor(captured + [c], id)
                         == if c.owner == id then CapturedFor(captured, id) + [c.event] else CapturedFor(captured, id)
  {
    assert (captured + [c])[..|captured|] == captured;
  }

  predicate IsStrokeInjection(i: Injection) {
    i.Button? || i.KeyPress? || i.KeyRelease?
  }

  /** The key and button events a client has injected, from whichever channel. */
  function StrokesInjected(calls: seq<Injection>): seq<Injection> {
    if calls == [] then []
    else StrokesInjected(calls[..|calls| - 1]) + if IsStrokeInjection(calls[|calls| - 1]) then [calls[|calls| - 1]] else []
  }

  function AsInjections(ps: seq<Payload>): seq<Injection> {
    if ps == [] then []
    else
      AsInjections(ps[..|ps| - 1]) + match InjectionOf(ps[|ps| - 1]) case Some(i) => [i] case None => []
  }

  /** The clipboard most recently sent. */
  function LastClip(ps: seq<Payload>): Option<Clip> {
    if ps == [] then None
    else if ps[|ps| - 1].ClipboardUpdate? then Some(Clip(ps[|ps| - 1].format, ps[|ps| - 1].data))
    else LastClip(ps[..|ps| - 1])
  }

  // ---------- The invariant ----------

  /** How a client stands after the first `received` messages of its trace. */
  ghost predicate EndInv(e: Endpoint, t: seq<Payload>) {
    && e.received <= |t|
    && StrokesInjected(e.client.injected) == AsInjections(Strokes(t[..e.received]))
    && e.client.clipboard == LastClip(t[..e.received])
    && (e.ended ==> e.stranded) && (e.stranded ==> !e.client.connected)
    && (if Listening(e) then e.client.state == if Scan(t[..e.received]) == Inside then Active else Connected
        else e.client.state == Disconnected || e.client.state == Reconnecting)
  }

  ghost predicate SystemInv(s: System) {
    && HubInv(s.hub)
    && "" !in s.ends
    && s.hub.sent.Keys <= s.ends.Keys
    && (forall id <- s.ends :: EndInv(s.ends[id], Trace(s, id)))
    && (forall id :: id != "" ==> CapturedFor(s.captured, id) == Strokes(Trace(s, id)))
  }

  lemma EndInvGrows(e: Endpoint, t: seq<Payload>, t': seq<Payload>)
    requires EndInv(e, t) && t <= t'
    ensures EndInv(e, t')
  {
    assert t'[..e.received] == t[..e.received];
  }

  lemma SnocInjected(calls: seq<Injection>, i: Injection)
    ensures StrokesInjected(calls + [i]) == if IsStrokeInjection(i) then StrokesInjected(calls) + [i] else StrokesInjected(calls)
  {
    assert (calls + [i])[..|calls|] == calls;
  }

  lemma SnocAsInjections(ps: seq<Payload>, p: Payload)
    requires IsStroke(p)
    ensures AsInjections(ps + [p]) == AsInjections(ps) + [InjectionOf(p).value]
  {
    assert (ps + [p])[..|ps|] == ps;
  }

  /** What one more message adds to the observations of a trace. */
  lemma OneMore(t: seq<Payload>, k: nat)
    requires k < |t| && Scan(t) != Broken
    ensures var p := t[k];
            && Scan(t[..k + 1]) == Next(Scan(t[..k]), p) && Scan(t[..k + 1]) != Broken
            && Strokes(t[..k + 1]) == (if IsStroke(p) then Strokes(t[..k]) + [p] else Strokes(t[..k]))
            && LastClip(t[..k + 1]) == if p.ClipboardUpdate? then Some(Clip(p.format, p.data)) else LastClip(t[..k])
  {
    hide Next;
    ScanPrefix(t, k + 1);
    assert t[..k + 1][..k] == t[..k];
  }

  predicate InStep(c: ClientView, phase: Phase) {
    c.state == if phase == Inside then Active else Connected
  }

  /** A client in step with its trace stays in step, and injects the enter's position and the strokes. */
  lemma HandledInStep(c: ClientView, phase: Phase, p: Payload)
    requires InStep(c, phase) && Next(phase, p) != Broken
    ensures var c' := OnServerMessage(c, p);
            && InStep(c', Next(phase, p)) && c'.connected == c.connected
            && c'.running == c.running && c'.autoReconnect == c.autoReconnect
            && c'.clipboard == (if p.ClipboardUpdate? then Some(Clip(p.format, p.data)) else c.clipboard)
            && c'.injected == if p.ScreenEnter? then c.injected + [Move(p.entryX, p.entryY)]
                              else if IsStroke(p) then c.injected + [InjectionOf(p).value] else c.injected
    ensures IsStroke(p) ==> c.state == Active
  {
  }

  /** The strokes injected keep up with the strokes of the trace. */
  lemma InjectedInStep(calls: seq<Injection>, t: seq<Payload>, k: nat)
    requires k < |t| && Scan(t) != Broken && StrokesInjected(calls) == AsInjections(Strokes(t[..k]))
    ensures var p := t[k];
            var calls' := if p.ScreenEnter? then calls + [Move(p.entryX, p.entryY)]
                          else if IsStroke(p) then calls + [InjectionOf(p).value] else calls;
            StrokesInjected(calls') == AsInjections(Strokes(t[..k + 1]))
  {
    hide Scan, Strokes, AsInjections, StrokesInjected, LastClip, Next;
    var p := t[k];
    OneMore(t, k);
    if p.ScreenEnter? {
      SnocInjected(calls, Move(p.entryX, p.entryY));
    } else if IsStroke(p) {
      SnocInjected(calls, InjectionOf(p).value);
      SnocAsInjections(Strokes(t[..k]), p);
    }
  }

  /** Delivering the next message of a grammatical trace. */
  lemma DeliveredKeeps(e: Endpoint, t: seq<Payload>)
    requires EndInv(e, t) && Listening(e) && e.received < |t| && Scan(t) != Broken
    ensures EndInv(Delivered(e, t), t) && Delivered(e, t).client.connected == e.client.connected
    ensures IsStroke(t[e.received]) ==> e.client.state == Active
  {
    hide Scan, Strokes, AsInjections, StrokesInjected, LastClip, Next, OnServerMessage, IsStroke, InjectionOf;
    var k := e.received;
    OneMore(t, k);
    HandledInStep(e.client, Scan(t[..k]), t[k]);
    InjectedInStep(e.client.injected, t, k);
  }

  /** A datagram disturbs the strokes a client has injected exactly if it is a stroke and the client ACTIVE. */
  lemma DatagramKeepsExactly(e: Endpoint, t: seq<Payload>, p: Payload)
    requires EndInv(e, t)
    ensures EndInv(e.(client := OnUdpMessage(e.client, p)), t) <==> !(IsStroke(p) && e.client.state == Active)
    ensures e.client.state != Active ==> OnUdpMessage(e.client, p) == e.client
  {
    hide Scan, Strokes, AsInjections, StrokesInjected, LastClip;
    if InjectionOf(p).Some? {
      SnocInjected(e.client.injected, InjectionOf(p).value);
    }
  }

  // ---------- Step by step ----------

  /** A server step that grows the traces carries every endpoint along. */
  lemma HubStep(s: System, hub: Servers.Hub, captured: seq<Captured>, p: Option<Payload>)
    requires SystemInv(s) && HubInv(hub) && Grows(s.hub, hub, Owner(s.hub), p)
    requires captured == if p.Some? then s.captured + [Captured(Owner(s.hub), p.value)] else s.captured
    requires p.Some? ==> Owner(s.hub) != ""
    ensures SystemInv(s.(hub := hub, captured := captured))
  {
    hide HubInv, Strokes, Scan, CapturedFor;
    var s' := s.(hub := hub, captured := captured);
    forall id | id in s'.ends ensures EndInv(s'.ends[id], Trace(s', id)) {
      EndInvGrows(s.ends[id], Trace(s, id), Trace(s', id));
    }
    if p.Some? {
      CapturedSnoc(s.captured, Captured(Owner(s.hub), p.value));
    }
  }

  lemma QuietStep(s: System, hub: Servers.Hub)
    requires SystemInv(s) && HubInv(hub) && Quiet(s.hub, hub)
    ensures SystemInv(s.(hub := hub))
  {
    hide HubInv, Strokes;
    HubStep(s, hub, s.captured, None);
  }

  lemma OwnerIsActive(h: Servers.Hub)
    requires HubInv(h)
    ensures Owner(h) == h.activeId && (h.state == Servers.ClientActive <==> h.activeId != "")
    ensures h.state == Servers.ClientActive || h.state == Servers.LocalActive
  {
    hide Scan, Servers.TargetOf;
  }

  /** A stroke captured for the server's own desktop. */
  lemma LocalStroke(s: System, p: Payload)
    requires SystemInv(s)
    ensures SystemInv(s.(captured := s.captured + [Captured("", p)]))
  {
    hide HubInv, Strokes, EndInv, CapturedFor;
    CapturedSnoc(s.captured, Captured("", p));
  }

  lemma MotionsAside(s: System, motions: seq<Captured>)
    requires SystemInv(s)
    ensures SystemInv(s.(motions := motions))
  {
    hide HubInv, Strokes, EndInv, CapturedFor;
  }

  lemma InputStep(s: System, p: Payload, clip: Option<Clip>)
    requires SystemInv(s) && Enabled(s, Input(p, clip))
    ensures SystemInv(Apply(s, Input(p, clip)))
  {
    hide HubInv, Grows, Servers.OnInput, SystemInv;
    InvHub(s);
    OwnerIsActive(s.hub);
    InputKeeps(s.hub, p, clip);
    var hub := Servers.OnInput(s.hub, p, clip);
    if !IsStroke(p) {
      HubStep(s, hub, s.captured, None);
      MotionsAside(s.(hub := hub), s.motions + [Captured(Owner(s.hub), p)]);
    } else if s.hub.state == Servers.ClientActive {
      HubStep(s, hub, s.captured + [Captured(Owner(s.hub), p)], Some(p));
    } else {
      LocalStroke(s, p);
    }
  }

  lemma ActiveHasTrace(h: Servers.Hub)
    requires HubInv(h)
    ensures h.activeId != "" ==> h.activeId in h.clients
    ensures h.clients.Keys <= h.sent.Keys
  {
  }

  lemma AcceptStep(s: System, id: string, now: int)
    requires SystemInv(s) && Enabled(s, Accept(id, now))
    ensures SystemInv(Apply(s, Accept(id, now)))
  {
    hide HubInv, Strokes, Scan, EndInv, Servers.OnConnected, Servers.Trace;
    assert id != "" && id != s.hub.activeId by { ActiveHasTrace(s.hub); }
    ConnectedKeepsExactly(s.hub, id, now);
    ConnectedTraces(s.hub, id, now);
  }

  lemma ConnectStep(s: System, id: string, auto: bool, hello: Payload)
    requires SystemInv(s) && Enabled(s, Connect(id, auto, hello))
    ensures SystemInv(Apply(s, Connect(id, auto, hello)))
  {
    hide HubInv;
    var s' := Apply(s, Connect(id, auto, hello));
    assert Trace(s, id)[..0] == [];
    forall other | other in s'.ends ensures EndInv(s'.ends[other], Trace(s', other)) {}
  }

  /** A step of one client that keeps its endpoint consistent. */
  lemma EndStep(s: System, id: string, e: Endpoint)
    requires SystemInv(s) && id in s.ends && EndInv(e, Trace(s, id))
    ensures SystemInv(OnEnd(s, id, e))
  {
    hide HubInv, EndInv, Strokes, Scan;
  }

  lemma SetEdgeStep(s: System, id: string, edge: Edge)
    requires SystemInv(s)
    ensures SystemInv(Apply(s, SetEdge(id, edge)))
  {
    hide HubInv, Grows, EndInv, WithEdge, SystemInv;
    var layout := s.hub.layout.(clients := WithEdge(s.hub.layout.clients, id, edge));
    assert HubInv(s.hub) by { InvHub(s); }
    RelayoutKeeps(s.hub, layout);
    QuietStep(s, s.hub.(layout := layout));
  }

  lemma InvHub(s: System)
    requires SystemInv(s)
    ensures HubInv(s.hub)
  {
    hide HubInv;
  }

  lemma ApplyKeepsInv(s: System, step: Step)
    requires SystemInv(s) && Enabled(s, step)
    ensures SystemInv(Apply(s, step))
  {
    hide Strokes, Scan, HubInv, Grows, EndInv, Servers.OnMessage, Servers.OnDisconnected, Servers.TransitionToLocal,
      Servers.TransitionToClient, Servers.AfterKeepalive;
    assert HubInv(s.hub);
    match step
    case Connect(id, auto, hello) => ConnectStep(s, id, auto, hello);
    case Accept(id, now) => AcceptStep(s, id, now);
    case FromClient(id, p, now) => MessageKeeps(s.hub, id, p, now); QuietStep(s, Servers.OnMessage(s.hub, id, p, now));
    case ServerLost(id) => DisconnectedKeeps(s.hub, id); QuietStep(s, Servers.OnDisconnected(s.hub, id));
    case Input(p, clip) => InputStep(s, p, clip);
    case SwitchLocal => ToLocalKeeps(s.hub); QuietStep(s, Servers.TransitionToLocal(s.hub));
    case Switch(id, clip) => TransitionKeepsExactly(s.hub, id, clip); QuietStep(s, Servers.TransitionToClient(s.hub, id, clip));
    case Tick(now) => KeepaliveKeeps(s.hub, now); QuietStep(s, Servers.AfterKeepalive(s.hub, now));
    case SetEdge(id, edge) => SetEdgeStep(s, id, edge);
    case Deliver(id) => DeliverStep(s, id);
    case DeliverDatagram(id, i) => DatagramStep(s, id, i);
    case ClientKeepalive(id, ok) => ClientKeepaliveStep(s, id, ok);
    case LoopExits(id) => LoopExitsStep(s, id);
    case ClientLost(id) => LostStep(s, id);
    case ClientQuit(id) => QuitStep(s, id);
  }

  lemma DeliverStep(s: System, id: string)
    requires SystemInv(s) && Enabled(s, Deliver(id))
    ensures SystemInv(Apply(s, Deliver(id)))
  {
    TraceNotBroken(s, id);
    DeliveredKeeps(s.ends[id], Trace(s, id));
    EndStep(s, id, Delivered(s.ends[id], Trace(s, id)));
  }

  lemma TraceNotBroken(s: System, id: string)
    requires HubInv(s.hub)
    ensures Complete(Trace(s, id))
  {
  }

  lemma DatagramStep(s: System, id: string, i: nat)
    requires SystemInv(s) && Enabled(s, DeliverDatagram(id, i))
    ensures SystemInv(Apply(s, DeliverDatagram(id, i)))
  {
    var e, p := s.ends[id], s.hub.datagrams[i].payload;
    DatagramKeepsExactly(e, Trace(s, id), p);
    EndStep(s, id, e.(client := OnUdpMessage(e.client, p)));
  }

  lemma ClosingKeeps(e: Endpoint, t: seq<Payload>)
    requires EndInv(e, t)
    ensures EndInv(Closing(e, Lost(e.client)), t) && EndInv(Closing(e, Quit(e.client)), t)
  {
    hide Strokes, Scan, LastClip, StrokesInjected, AsInjections;
  }

  lemma LoopExitsStep(s: System, id: string)
    requires SystemInv(s) && Enabled(s, LoopExits(id))
    ensures SystemInv(Apply(s, LoopExits(id)))
  {
    hide HubInv, Strokes, Scan, LastClip, StrokesInjected, AsInjections;
    EndStep(s, id, s.ends[id].(ended := true));
  }

  lemma ClientKeepaliveStep(s: System, id: string, sendOk: bool)
    requires SystemInv(s) && Enabled(s, ClientKeepalive(id, sendOk))
    ensures SystemInv(Apply(s, ClientKeepalive(id, sendOk)))
  {
    hide HubInv, Strokes, Scan, LastClip, StrokesInjected, AsInjections;
    EndStep(s, id, KeptAlive(s.ends[id], sendOk));
  }

  lemma LostStep(s: System, id: string)
    requires SystemInv(s) && Enabled(s, ClientLost(id))
    ensures SystemInv(Apply(s, ClientLost(id)))
  {
    hide HubInv, EndInv;
    ClosingKeeps(s.ends[id], Trace(s, id));
    EndStep(s, id, Closing(s.ends[id], Lost(s.ends[id].client)));
  }

  lemma QuitStep(s: System, id: string)
    requires SystemInv(s) && Enabled(s, ClientQuit(id))
    ensures SystemInv(Apply(s, ClientQuit(id)))
  {
    hide HubInv, EndInv;
    ClosingKeeps(s.ends[id], Trace(s, id));
    EndStep(s, id, Closing(s.ends[id], Quit(s.ends[id].client)));
  }

  /** Every reachable state satisfies the invariant. */
  lemma {:induction false} RunsKeepInv(layout: Layout, steps: seq<Step>)
    ensures SystemInv(Exec(Start(layout), steps))
  {
    hide SystemInv, Enabled, Apply;
    if steps == [] {
      StartInv(layout);
    } else {
      RunsKeepInv(layout, steps[..|steps| - 1]);
      var before, step := Exec(Start(layout), steps[..|steps| - 1]), steps[|steps| - 1];
      if Enabled(before, step) {
        ApplyKeepsInv(before, step);
      }
    }
  }

  lemma StartInv(layout: Layout)
    ensures SystemInv(Start(layout))
  {
  }

  // ---------- Reachability ----------

  ghost predicate ReachedBy(s: System, layout: Layout, steps: seq<Step>) {
    s == Exec(Start(layout), steps)
  }

  /** Some run, from some initial layout, ends in `s`. */
  ghost predicate Reachable(s: System) {
    exists layout, steps :: ReachedBy(s, layout, steps)
  }

  lemma ReachableInv(s: System)
    requires Reachable(s)
    ensures SystemInv(s)
  {
    var layout, steps :| ReachedBy(s, layout, steps);
    RunsKeepInv(layout, steps);
  }
}
