/** Clients whose send has failed and whose receive loop ended at its guard without reporting the loss. */
module StrandedLaws {
  import opened Octets
  import opened Protocol
  import opened ScreenLayouts
  import Servers
  import opened Traces
  import opened ServerLaws
  import opened Clients
  import opened Sessions
  import opened SessionLaws

  // ---------- Stranded for good ----------

  /** The receive loop is gone without a word, and the client is ACTIVE; or it was, and has quit. */
  predicate Forsaken(e: Endpoint, quit: bool) {
    && !e.client.connected
    && if quit then !e.stranded && !e.ended && e.client.state == Disconnected
       else e.stranded && e.ended && e.client.state == Active
  }

  lemma ForsakenStep(s: System, step: Step, id: string, quit: bool)
    requires Enabled(s, step) && id in s.ends && Forsaken(s.ends[id], quit)
    ensures id in Apply(s, step).ends && Forsaken(Apply(s, step).ends[id], quit || step == ClientQuit(id))
  {
    hide Servers.OnMessage, Servers.OnDisconnected, Servers.TransitionToLocal, Servers.OnInput,
      Servers.AfterKeepalive, Servers.OnConnected, Servers.TransitionToClient;
  }

  lemma {:induction false} ForsakenRun(s: System, steps: seq<Step>, id: string)
    requires id in s.ends && Forsaken(s.ends[id], false)
    ensures id in Exec(s, steps).ends && Forsaken(Exec(s, steps).ends[id], ClientQuit(id) in steps)
  {
    hide Apply, Enabled, Forsaken;
    if steps != [] {
      var front, step := steps[..|steps| - 1], steps[|steps| - 1];
      ForsakenRun(s, front, id);
      assert steps == front + [step];
      if Enabled(Exec(s, front), step) {
        ForsakenStep(Exec(s, front), step, id, ClientQuit(id) in front);
      } else {
        assert step != ClientQuit(id) by { QuitEnabled(Exec(s, front), id); }
      }
    }
  }

  lemma QuitEnabled(s: System, id: string)
    requires id in s.ends
    ensures Enabled(s, ClientQuit(id))
  {
  }

  /**
    A client that is ACTIVE when its receive loop ends without reporting the loss stays ACTIVE in every
    continuation, whatever the server and the network do, exactly until it quits.
  */
  lemma EndedStaysActiveExactly(s: System, id: string, steps: seq<Step>)
    requires Reachable(s) && id in s.ends && s.ends[id].ended && s.ends[id].client.state == Active
    ensures var s' := Exec(s, steps);
            id in s'.ends && (Settled(s', id).state == Active <==> ClientQuit(id) !in steps)
  {
    hide Reachable, SystemInv, Exec;
    ReachableInv(s);
    EndedIsForsaken(s, id);
    ForsakenRun(s, steps, id);
  }

  lemma EndedIsForsaken(s: System, id: string)
    requires SystemInv(s) && id in s.ends && s.ends[id].ended && s.ends[id].client.state == Active
    ensures Forsaken(s.ends[id], false)
  {
    assert EndInv(s.ends[id], Trace(s, id));
  }

  // ---------- A run that gets there ----------

  lemma {:induction false} ExecAppend(s: System, a: seq<Step>, b: seq<Step>)
    ensures Exec(s, a + b) == Exec(Exec(s, a), b)
  {
    hide Enabled, Apply;
    if b == [] {
      assert a + b == a;
    } else {
      assert (a + b)[..|a + b| - 1] == a + b[..|b| - 1];
      ExecAppend(s, a, b[..|b| - 1]);
    }
  }

  lemma ExecPair(s: System, a: Step, b: Step)
    requires Enabled(s, a) && Enabled(Apply(s, a), b)
    ensures Exec(s, [a, b]) == Apply(Apply(s, a), b)
  {
    hide Enabled, Apply;
    assert [a, b][..1] == [a] && [a][..0] == [];
    assert Exec(s, []) == s;
    assert Exec(s, [a]) == Apply(s, a);
  }

  /** A client connects, is accepted, and is entered. */
  function Entering(id: string, now: int): seq<Step> {
    [Connect(id, true, Keepalive), Accept(id, now)] + [Switch(id, None), Deliver(id)]
  }

  lemma Joins(s: System, id: string, now: int)
    requires id != "" && id !in s.ends && id !in s.hub.sent
    ensures var s' := Exec(s, [Connect(id, true, Keepalive), Accept(id, now)]);
            && s'.ends == s.ends[id := Endpoint(ClientView(Connected, true, true, true, [], None, [Keepalive]), 0, false, false)]
            && s'.hub == Servers.OnConnected(s.hub, id, now)
  {
    hide Servers.OnConnected, Exec;
    ExecPair(s, Connect(id, true, Keepalive), Accept(id, now));
  }

  lemma IsEntered(s: System, id: string)
    requires s.hub.state == Servers.LocalActive && id in s.hub.clients && Trace(s, id) == []
    requires id in s.ends && Reading(s.ends[id]) && s.ends[id].received == 0
    ensures var s' := Exec(s, [Switch(id, None), Deliver(id)]);
            && s'.ends.Keys == s.ends.Keys && s'.ends[id].client.state == Active
            && s'.ends[id].client.connected == s.ends[id].client.connected && s'.ends[id].ended == s.ends[id].ended
            && (forall other <- s.ends :: other != id ==> s'.ends[other] == s.ends[other])
            && s'.hub == Servers.TransitionToClient(s.hub, id, None)
  {
    hide Servers.EnterMessage, Servers.TransitionToClient, Exec;
    TransitionSent(s.hub, id, None);
    EnterIsEnter(s.hub.layout, id);
    SwitchStepHub(s, id, None);
    ExecPair(s, Switch(id, None), Deliver(id));
  }

  lemma EntersFresh(s: System, id: string, now: int)
    requires s.hub.state == Servers.LocalActive && id != "" && id !in s.ends && id !in s.hub.sent
    ensures var s' := Exec(s, Entering(id, now));
            && s'.ends.Keys == s.ends.Keys + {id} && s'.ends[id].client.state == Active
            && s'.ends[id].client.connected && !s'.ends[id].ended
            && (forall other <- s.ends :: s'.ends[other] == s.ends[other])
            && s'.hub.sent.Keys == s.hub.sent.Keys + {id} && s'.hub.activeId == id && s'.hub.state == Servers.ClientActive
            && id in s'.hub.clients && s'.hub.clients[id].lastKeepalive == now
  {
    hide Exec, Servers.TransitionToClient, Servers.TargetOf;
    ExecAppend(s, [Connect(id, true, Keepalive), Accept(id, now)], [Switch(id, None), Deliver(id)]);
    Joins(s, id, now);
    var mid := Exec(s, [Connect(id, true, Keepalive), Accept(id, now)]);
    IsEntered(mid, id);
    TransitionSent(mid.hub, id, None);
  }

  lemma ExecOne(s: System, step: Step)
    requires Enabled(s, step)
    ensures Exec(s, [step]) == Apply(s, step)
  {
    hide Enabled, Apply;
    assert [step][..0] == [];
    assert Exec(s, []) == s;
  }

  lemma Evicted(s: System, id: string, now: int)
    requires s.hub.state == Servers.ClientActive && s.hub.activeId == id && id in s.hub.clients
    requires s.hub.clients[id].lastKeepalive + 4000 <= now
    requires s.hub.clients.Keys <= s.hub.sent.Keys
    ensures var s' := Exec(s, [Tick(now)]);
            && s'.ends == s.ends && s'.hub.state == Servers.LocalActive && s'.hub.sent.Keys == s.hub.sent.Keys
  {
    hide Servers.TargetOf, Exec;
    ExecOne(s, Tick(now));
  }

  lemma Strands(s: System, id: string)
    requires id in s.ends && s.ends[id].client.connected && !s.ends[id].ended
    ensures var s' := Exec(s, [ClientKeepalive(id, false), LoopExits(id)]);
            && s'.hub == s.hub && s'.ends.Keys == s.ends.Keys
            && s'.ends[id] == KeptAlive(s.ends[id], false).(ended := true)
  {
    hide Exec;
    ExecPair(s, ClientKeepalive(id, false), LoopExits(id));
  }

  function StrandingRun(): seq<Step> {
    Entering("a:1", 0) + [ClientKeepalive("a:1", false), LoopExits("a:1")] + [Tick(4000)] + Entering("b:1", 4000)
  }

  lemma StrandingRunEnds(layout: Layout)
    ensures var s := Exec(Start(layout), StrandingRun());
            && "a:1" in s.ends && s.ends["a:1"].client.state == Active && s.ends["a:1"].ended
            && "b:1" in s.ends && s.ends["b:1"].client.connected && s.hub.activeId == "b:1"
  {
    hide Exec, Apply, Entering, SystemInv, HubInv;
    var strand, evict, next := [ClientKeepalive("a:1", false), LoopExits("a:1")], [Tick(4000)], Entering("b:1", 4000);
    var enter := Entering("a:1", 0);
    var s1 := Exec(Start(layout), enter);
    EntersFresh(Start(layout), "a:1", 0);
    RunsKeepInv(layout, enter);
    InvHub(s1);
    ActiveHasTrace(s1.hub);
    Strands(s1, "a:1");
    ExecAppend(Start(layout), enter, strand);
    Evicted(Exec(s1, strand), "a:1", 4000);
    ExecAppend(Start(layout), enter + strand, evict);
    EntersFresh(Exec(Exec(s1, strand), evict), "b:1", 4000);
    ExecAppend(Start(layout), enter + strand + evict, next);
  }

  /**
    For example, a client whose keepalive cannot be sent, and whose receive loop ends without reporting
    it, is evicted by the server and settles ACTIVE beside the next client to be entered.
  */
  lemma TwoSettleActive(layout: Layout)
    ensures var s := Exec(Start(layout), StrandingRun());
            && "a:1" in s.ends && Settled(s, "a:1").state == Active && s.ends["a:1"].ended
            && "b:1" in s.ends && Settled(s, "b:1").state == Active && s.hub.activeId == "b:1"
  {
    hide Exec, StrandingRun, Drained, SystemInv, Forsaken, SeenOpen;
    var s := Exec(Start(layout), StrandingRun());
    StrandingRunEnds(layout);
    assert ReachedBy(s, layout, StrandingRun());
    EveryoneAgrees(s, "b:1");
    EndedStaysActiveExactly(s, "a:1", []);
    assert Exec(s, []) == s by { ExecNothing(s); }
  }

  lemma ExecNothing(s: System)
    ensures Exec(s, []) == s
  {
  }
}
