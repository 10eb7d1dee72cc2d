/** Pointer motion over whole runs: datagrams may be lost, repeated or reordered, but never invented. */
module MotionLaws {
  import opened Octets
  import opened Protocol
  import opened ScreenLayouts
  import Servers
  import opened Traces
  import opened ServerLaws
  import opened Clients
  import opened Sessions
  import opened SessionLaws

  // ---------- What is sent ----------

  /** The motions captured while a client was active, each addressed to that client's host. */
  function Forwarded(motions: seq<Captured>): seq<Servers.Datagram> {
    if motions == [] then []
    else
      var before, last := Forwarded(motions[..|motions| - 1]), motions[|motions| - 1];
      if last.owner == "" then before else before + [Servers.Datagram(Servers.TargetOf(last.owner), last.event)]
  }

  lemma ForwardedSnoc(motions: seq<Captured>, m: Captured)
    ensures Forwarded(motions + [m])
         == if m.owner == "" then Forwarded(motions) else Forwarded(motions) + [Servers.Datagram(Servers.TargetOf(m.owner), m.event)]
  {
    assert (motions + [m])[..|motions|] == motions;
  }

  lemma {:induction false} ForwardedFrom(motions: seq<Captured>, d: Servers.Datagram)
    requires d in Forwarded(motions)
    ensures exists m <- motions :: m.owner != "" && d == Servers.Datagram(Servers.TargetOf(m.owner), m.event)
  {
    hide Servers.TargetOf;
    var front, last := motions[..|motions| - 1], motions[|motions| - 1];
    if d in Forwarded(front) {
      ForwardedFrom(front, d);
      var m :| m in front && m.owner != "" && d == Servers.Datagram(Servers.TargetOf(m.owner), m.event);
      assert m in motions;
    } else {
      assert last in motions;
    }
  }

  lemma InputDatagrams(h: Servers.Hub, p: Payload, clip: Option<Clip>)
    requires HubInv(h) && (IsStroke(p) || Servers.IsMotion(p))
    ensures Servers.OnInput(h, p, clip).datagrams
         == if Servers.IsMotion(p) && h.activeId != "" then h.datagrams + [Servers.Datagram(Servers.TargetOf(h.activeId), p)]
            else h.datagrams
  {
    hide Scan, Servers.TargetOf, FirstHit, Servers.EnterMessage;
  }

  lemma OtherDatagrams(s: System, step: Step)
    requires Enabled(s, step) && !step.Input?
    ensures Apply(s, step).hub.datagrams == s.hub.datagrams && Apply(s, step).motions == s.motions
  {
    hide Servers.TargetOf, Servers.EnterMessage, Servers.Survivors, Servers.Pinged;
  }

  lemma InputMotions(s: System, p: Payload, clip: Option<Clip>)
    requires HubInv(s.hub) && Enabled(s, Input(p, clip)) && s.hub.datagrams == Forwarded(s.motions)
    ensures var s' := Apply(s, Input(p, clip)); s'.hub.datagrams == Forwarded(s'.motions)
    ensures s.motions <= Apply(s, Input(p, clip)).motions && Apply(s, Input(p, clip)).ends == s.ends
  {
    hide HubInv, Servers.OnInput, Servers.TargetOf, Forwarded;
    InputDatagrams(s.hub, p, clip);
    OwnerIsActive(s.hub);
    ForwardedSnoc(s.motions, Captured(Owner(s.hub), p));
  }

  // ---------- What is injected ----------

  /** One of the messages received so far is an enter to this point. */
  predicate ByEnter(e: Endpoint, t: seq<Payload>, i: Injection) {
    exists k :: 0 <= k < e.received && k < |t| && t[k].ScreenEnter? && i == Move(t[k].entryX, t[k].entryY)
  }

  /** It was captured while a connection from the host of `id` was active. */
  predicate ByMotion(motions: seq<Captured>, id: string, i: Injection) {
    exists m <- motions ::
      m.owner != "" && Servers.HostPart(m.owner) == Servers.HostPart(id) && InjectionOf(m.event) == Some(i)
  }

  predicate Explained(e: Endpoint, t: seq<Payload>, motions: seq<Captured>, id: string) {
    forall i <- e.client.injected :: IsStrokeInjection(i) || ByEnter(e, t, i) || ByMotion(motions, id, i)
  }

  ghost predicate MotionInv(s: System) {
    && s.hub.datagrams == Forwarded(s.motions)
    && forall id <- s.ends :: Explained(s.ends[id], Trace(s, id), s.motions, id)
  }

  lemma ExplainedGrows(
    e: Endpoint, t: seq<Payload>, t': seq<Payload>, motions: seq<Captured>, motions': seq<Captured>, id: string)
    requires Explained(e, t, motions, id) && t <= t' && motions <= motions'
    ensures Explained(e, t', motions', id)
  {
    hide IsStrokeInjection, Servers.HostPart, InjectionOf;
    forall i | i in e.client.injected && !IsStrokeInjection(i) ensures ByEnter(e, t', i) || ByMotion(motions', id, i) {
      if ByEnter(e, t, i) {
        var k :| 0 <= k < e.received && k < |t| && t[k].ScreenEnter? && i == Move(t[k].entryX, t[k].entryY);
        assert t'[k] == t[k];
      } else {
        var m :| m in motions && m.owner != "" && Servers.HostPart(m.owner) == Servers.HostPart(id)
                 && InjectionOf(m.event) == Some(i);
        assert m in motions';
      }
    }
  }

  /** Steps of the server and of the input. */
  lemma ServerStepExplained(s: System, s': System)
    requires MotionInv(s) && s'.ends == s.ends && s.motions <= s'.motions && s'.hub.datagrams == Forwarded(s'.motions)
    requires forall id <- s.ends :: Trace(s, id) <= Trace(s', id)
    ensures MotionInv(s')
  {
    hide Explained, Forwarded;
    forall id | id in s'.ends ensures Explained(s'.ends[id], Trace(s', id), s'.motions, id) {
      ExplainedGrows(s.ends[id], Trace(s, id), Trace(s', id), s.motions, s'.motions, id);
    }
  }

  /** Steps of one client. */
  lemma EndStepExplained(s: System, id: string, e: Endpoint)
    requires MotionInv(s) && Explained(e, Trace(s, id), s.motions, id)
    ensures MotionInv(OnEnd(s, id, e))
  {
    hide Explained, Forwarded;
  }

  lemma DeliverExplained(e: Endpoint, t: seq<Payload>, motions: seq<Captured>, id: string)
    requires EndInv(e, t) && Listening(e) && e.received < |t| && Scan(t) != Broken
    requires Explained(e, t, motions, id)
    ensures Explained(Delivered(e, t), t, motions, id)
  {
    hide Scan, Strokes, AsInjections, StrokesInjected, LastClip, Next, OnServerMessage, ByMotion;
    var k := e.received;
    OneMore(t, k);
    HandledInStep(e.client, Scan(t[..k]), t[k]);
    var e' := Delivered(e, t);
    forall i | i in e'.client.injected ensures IsStrokeInjection(i) || ByEnter(e', t, i) || ByMotion(motions, id, i) {
      if i in e.client.injected {
        if ByEnter(e, t, i) {
          var j :| 0 <= j < e.received && j < |t| && t[j].ScreenEnter? && i == Move(t[j].entryX, t[j].entryY);
          assert j < e'.received;
        }
      } else if t[k].ScreenEnter? {
        assert i == Move(t[k].entryX, t[k].entryY) && k < e'.received;
      }
    }
  }

  lemma DatagramExplained(s: System, id: string, index: nat)
    requires MotionInv(s) && Enabled(s, DeliverDatagram(id, index))
    ensures var e := s.ends[id];
            Explained(e.(client := OnUdpMessage(e.client, s.hub.datagrams[index].payload)), Trace(s, id), s.motions, id)
  {
    hide Forwarded, Servers.HostPart, IsStrokeInjection;
    var e, d := s.ends[id], s.hub.datagrams[index];
    ForwardedFrom(s.motions, d);
    var m :| m in s.motions && m.owner != "" && d == Servers.Datagram(Servers.TargetOf(m.owner), m.event);
    var e' := e.(client := OnUdpMessage(e.client, d.payload));
    forall i | i in e'.client.injected
      ensures IsStrokeInjection(i) || ByEnter(e', Trace(s, id), i) || ByMotion(s.motions, id, i)
    {
      if i in e.client.injected {
        assert ByEnter(e, Trace(s, id), i) ==> ByEnter(e', Trace(s, id), i);
      } else {
        assert InjectionOf(m.event) == Some(i);
      }
    }
  }

  lemma SameExplained(e: Endpoint, e': Endpoint, t: seq<Payload>, motions: seq<Captured>, id: string)
    requires Explained(e, t, motions, id) && e'.received == e.received && e'.client.injected == e.client.injected
    ensures Explained(e', t, motions, id)
  {
    hide ByMotion, IsStrokeInjection;
    forall i | i in e'.client.injected && ByEnter(e, t, i) ensures ByEnter(e', t, i) {
      var k :| 0 <= k < e.received && k < |t| && t[k].ScreenEnter? && i == Move(t[k].entryX, t[k].entryY);
      assert k < e'.received;
    }
  }

  lemma QuietEndExplained(s: System, id: string, e: Endpoint)
    requires MotionInv(s) && id in s.ends
    requires e.received == s.ends[id].received && e.client.injected == s.ends[id].client.injected
    ensures MotionInv(OnEnd(s, id, e))
  {
    hide Explained, Forwarded;
    SameExplained(s.ends[id], e, Trace(s, id), s.motions, id);
    EndStepExplained(s, id, e);
  }

  lemma StepKeepsMotionInv(s: System, step: Step)
    requires SystemInv(s) && MotionInv(s) && Enabled(s, step)
    ensures MotionInv(Apply(s, step))
  {
    hide HubInv, EndInv, Explained, Forwarded, SystemInv, Servers.OnMessage, Servers.OnDisconnected,
      Servers.TransitionToLocal, Servers.OnInput, Servers.AfterKeepalive, Servers.OnConnected, Servers.TransitionToClient;
    var s' := Apply(s, step);
    InvHub(s);
    match step
    case Connect(id, _, _) =>
      FreshExplained(s'.ends[id], Trace(s, id), s.motions, id);
      EndStepExplained(s, id, s'.ends[id]);
    case Deliver(id) =>
      InvFacts(s, id);
      DeliverExplained(s.ends[id], Trace(s, id), s.motions, id);
      EndStepExplained(s, id, s'.ends[id]);
    case DeliverDatagram(id, index) =>
      DatagramExplained(s, id, index);
      EndStepExplained(s, id, s'.ends[id]);
    case Input(p, clip) =>
      InputMotions(s, p, clip);
      forall id | id in s.ends ensures Trace(s, id) <= Trace(s', id) { TracesGrow(s, step, id); }
      ServerStepExplained(s, s');
    case ClientKeepalive(id, _) => QuietEndExplained(s, id, s'.ends[id]);
    case LoopExits(id) => QuietEndExplained(s, id, s'.ends[id]);
    case ClientLost(id) => QuietEndExplained(s, id, s'.ends[id]);
    case ClientQuit(id) => QuietEndExplained(s, id, s'.ends[id]);
    case _ =>
      OtherDatagrams(s, step);
      forall id | id in s.ends ensures Trace(s, id) <= Trace(s', id) { TracesGrow(s, step, id); }
      ServerStepExplained(s, s');
  }

  lemma FreshExplained(e: Endpoint, t: seq<Payload>, motions: seq<Captured>, id: string)
    requires e.client.injected == []
    ensures Explained(e, t, motions, id)
  {
  }

  lemma {:induction false} RunsKeepMotionInv(layout: Layout, steps: seq<Step>)
    ensures MotionInv(Exec(Start(layout), steps))
  {
    if steps != [] {
      var front, step := steps[..|steps| - 1], steps[|steps| - 1];
      RunsKeepMotionInv(layout, front);
      RunsKeepInv(layout, front);
      hide MotionInv, SystemInv, Apply, Enabled;
      if Enabled(Exec(Start(layout), front), step) {
        StepKeepsMotionInv(Exec(Start(layout), front), step);
      }
    }
  }

  /**
    In every reachable state the datagrams sent are exactly the motions captured while a client was
    active, in capture order, each addressed to the host of the client that was active then.
  */
  lemma DatagramsExactly(s: System, hosts: seq<string>)
    requires Reachable(s)
    ensures s.hub.datagrams == Forwarded(s.motions)
    ensures Addresses(s.motions, hosts) ==> s.hub.datagrams == SentTo(hosts, s.motions)
  {
    hide Exec, Forwarded, Addresses;
    var layout, steps :| ReachedBy(s, layout, steps);
    RunsKeepMotionInv(layout, steps);
    if Addresses(s.motions, hosts) {
      ForwardedIsSentTo(s.motions, hosts);
    }
  }

  /** `hosts[k]` is the host in the address, `host:port`, of the connection that owns the k-th motion. */
  ghost predicate Addresses(motions: seq<Captured>, hosts: seq<string>) {
    |hosts| == |motions| && forall k :: 0 <= k < |motions| && motions[k].owner != "" ==> HasHost(motions[k].owner, hosts[k])
  }

  ghost predicate HasHost(address: string, host: string) {
    ':' !in host && exists port: string :: address == host + ":" + port
  }

  function SentTo(hosts: seq<string>, motions: seq<Captured>): seq<Servers.Datagram>
    requires |hosts| == |motions|
  {
    if motions == [] then []
    else
      var n := |motions| - 1;
      SentTo(hosts[..n], motions[..n])
      + if motions[n].owner == "" then [] else [Servers.Datagram(Servers.Target(hosts[n], 24801), motions[n].event)]
  }

  lemma {:induction false} ForwardedIsSentTo(motions: seq<Captured>, hosts: seq<string>)
    requires Addresses(motions, hosts)
    ensures Forwarded(motions) == SentTo(hosts, motions)
  {
    hide Servers.TargetOf;
    if motions != [] {
      var n := |motions| - 1;
      ForwardedIsSentTo(motions[..n], hosts[..n]);
      if motions[n].owner != "" {
        assert HasHost(motions[n].owner, hosts[n]);
        var port: string :| motions[n].owner == hosts[n] + ":" + port;
        HostOfAddress(hosts[n], port);
      }
    }
  }

  /**
    And whatever a client has done with its pointer, it was entered there, or the motion was captured
    while a connection from its own host was active.
  */
  lemma MotionsCaptured(s: System, id: string, i: Injection)
    requires Reachable(s) && id in s.ends && i in s.ends[id].client.injected && (i.Move? || i.MoveRelative? || i.Scroll?)
    ensures ByEnter(s.ends[id], Trace(s, id), i) || ByMotion(s.motions, id, i)
  {
    hide Exec, ByEnter, ByMotion;
    var layout, steps :| ReachedBy(s, layout, steps);
    RunsKeepMotionInv(layout, steps);
  }
}
