/** Which clients come back, over whole runs. */
module ReconnectLaws {
  import opened Octets
  import opened Protocol
  import opened ScreenLayouts
  import Servers
  import opened Traces
  import opened ServerLaws
  import opened Clients
  import opened Sessions
  import opened SessionLaws

  /** Step `k` is the one that opens connection `id`. */
  predicate OpenedAt(steps: seq<Step>, id: string, k: int) {
    && 0 <= k < |steps| && steps[k].Connect? && steps[k].id == id
    && forall j :: 0 <= j < k ==> !(steps[j].Connect? && steps[j].id == id)
  }

  /** Nobody quits the client after step `k`. */
  predicate NotQuitSince(steps: seq<Step>, id: string, k: int) {
    forall j :: 0 <= k < j < |steps| ==> steps[j] != ClientQuit(id)
  }

  /** Connection `id` was opened with auto-reconnect on, and its client has not been quit since. */
  ghost predicate Persists(steps: seq<Step>, id: string) {
    exists k :: OpenedAt(steps, id, k) && steps[k].autoReconnect && NotQuitSince(steps, id, k)
  }

  ghost predicate Opened(steps: seq<Step>, id: string) {
    exists k :: OpenedAt(steps, id, k)
  }

  lemma OpenedSnoc(front: seq<Step>, step: Step, id: string)
    ensures var steps := front + [step];
            var opens := step.Connect? && step.id == id && !Opened(front, id);
            && (Opened(steps, id) <==> Opened(front, id) || opens)
            && (Persists(steps, id)
                <==> if opens then step.autoReconnect else Persists(front, id) && step != ClientQuit(id))
  {
    var steps := front + [step];
    forall k | 0 <= k < |front| ensures OpenedAt(steps, id, k) <==> OpenedAt(front, id, k) {
      assert forall j :: 0 <= j < |front| ==> steps[j] == front[j];
    }
    forall k | 0 <= k < |front| ensures NotQuitSince(steps, id, k) <==> NotQuitSince(front, id, k) && step != ClientQuit(id) {
      assert forall j :: 0 <= j < |front| ==> steps[j] == front[j];
      assert steps[|front|] == step;
    }
    if step.Connect? && step.id == id {
      FirstConnect(front, id);
      assert OpenedAt(steps, id, |front|) <==> !Opened(front, id);
    }
  }

  /** If some step connects `id`, a first one does. */
  lemma {:induction false} FirstConnect(steps: seq<Step>, id: string)
    ensures !Opened(steps, id) ==> forall j :: 0 <= j < |steps| ==> !(steps[j].Connect? && steps[j].id == id)
  {
    if steps != [] {
      var front := steps[..|steps| - 1];
      FirstConnect(front, id);
      if Opened(front, id) {
        var k :| OpenedAt(front, id, k);
        assert OpenedAt(steps, id, k);
      } else if steps[|front|].Connect? && steps[|front|].id == id {
        assert forall j :: 0 <= j < |front| ==> front[j] == steps[j];
        assert OpenedAt(steps, id, |front|);
      }
    }
  }

  /** What a client wants, and what it does about it once it knows that the connection is gone. */
  predicate Wanting(e: Endpoint, wants: bool) {
    && (e.client.running && e.client.autoReconnect <==> wants)
    && (!Listening(e) ==> e.client.state == if wants then Reconnecting else Disconnected)
  }

  lemma DeliveredWanting(e: Endpoint, t: seq<Payload>, wants: bool)
    requires EndInv(e, t) && Listening(e) && e.received < |t| && Scan(t) != Broken && Wanting(e, wants)
    ensures Wanting(Delivered(e, t), wants)
  {
    hide Scan, Strokes, AsInjections, StrokesInjected, LastClip, Next, OnServerMessage;
    OneMore(t, e.received);
    HandledInStep(e.client, Scan(t[..e.received]), t[e.received]);
  }

  lemma StepWanting(s: System, step: Step, id: string, wants: bool)
    requires SystemInv(s) && Enabled(s, step) && id in s.ends && Wanting(s.ends[id], wants)
    ensures id in Apply(s, step).ends && Wanting(Apply(s, step).ends[id], wants && step != ClientQuit(id))
  {
    hide HubInv, EndInv, SystemInv, Servers.OnMessage, Servers.OnDisconnected, Servers.TransitionToLocal, Servers.OnInput,
      Servers.AfterKeepalive, Servers.OnConnected, Servers.TransitionToClient, OnServerMessage;
    if step == Deliver(id) {
      InvFacts(s, id);
      DeliveredWanting(s.ends[id], Trace(s, id), wants);
    }
  }

  lemma OtherEnds(s: System, step: Step, id: string)
    requires Enabled(s, step) && id !in s.ends
    ensures id in Apply(s, step).ends <==> step.Connect? && step.id == id
    ensures step.Connect? && step.id == id ==> Wanting(Apply(s, step).ends[id], step.autoReconnect)
    ensures step != ClientQuit(id)
  {
    hide Servers.OnMessage, Servers.OnDisconnected, Servers.TransitionToLocal, Servers.OnInput,
      Servers.AfterKeepalive, Servers.OnConnected, Servers.TransitionToClient, OnServerMessage;
  }

  lemma {:induction false} RunWanting(layout: Layout, steps: seq<Step>, id: string)
    requires id != ""
    ensures var s := Exec(Start(layout), steps);
            && (id in s.ends <==> Opened(steps, id))
            && (id in s.ends ==> Wanting(s.ends[id], Persists(steps, id)))
  {
    hide Wanting, Apply, SystemInv, Opened, Persists;
    if steps == [] {
      NothingOpened(id);
    } else {
      var front, step := steps[..|steps| - 1], steps[|steps| - 1];
      var before := Exec(Start(layout), front);
      assert steps == front + [step];
      RunWanting(layout, front, id);
      RunsKeepInv(layout, front);
      OpenedSnoc(front, step, id);
      if Enabled(before, step) {
        if id in before.ends {
          StepWanting(before, step, id, Persists(front, id));
        } else {
          OtherEnds(before, step, id);
          NeverOpened(front, id);
        }
      } else {
        NeverOpened(front, id);
      }
    }
  }

  lemma NothingOpened(id: string)
    ensures !Opened([], id)
  {
  }

  lemma NeverOpened(steps: seq<Step>, id: string)
    ensures Persists(steps, id) ==> Opened(steps, id)
  {
  }

  /**
    In every run, a client that knows that its connection is gone is RECONNECTING exactly if it was opened
    with auto-reconnect on and has not been quit since, and DISCONNECTED otherwise.
  */
  lemma ReconnectsExactly(layout: Layout, steps: seq<Step>, id: string)
    requires id in Exec(Start(layout), steps).ends && !Listening(Exec(Start(layout), steps).ends[id])
    ensures Exec(Start(layout), steps).ends[id].client.state == if Persists(steps, id) then Reconnecting else Disconnected
  {
    hide Exec, Persists, HubInv, EndInv;
    RunsKeepInv(layout, steps);
    RunWanting(layout, steps, id);
  }
}
