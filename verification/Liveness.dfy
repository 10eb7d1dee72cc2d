/** How soon a silent client is noticed, in milliseconds of the server's clock. */
module Liveness {
  import opened Octets
  import opened Protocol
  import Clients
  import opened Servers
  import opened Traces
  import opened ServerLaws

  /** What touches the server's client table over time. */
  datatype Event =
    | Heard(at: int, id: string, message: Payload)
    | Tick(at: int)
    | Joined(at: int, id: string)
    | Dropped(at: int, id: string)
    | Captured(at: int, event: Payload, clip: Option<Clip>)
    | Escaped(at: int)

  function ApplyEvent(h: Hub, e: Event): Hub {
    match e
    case Heard(t, id, p) => OnMessage(h, id, p, t)
    case Tick(t) => AfterKeepalive(h, t)
    case Joined(t, id) => OnConnected(h, id, t)
    case Dropped(_, id) => OnDisconnected(h, id)
    case Captured(_, p, clip) => OnInput(h, p, clip)
    case Escaped(_) => TransitionToLocal(h)
  }

  function Run(h: Hub, events: seq<Event>): Hub {
    if events == [] then h else ApplyEvent(Run(h, events[..|events| - 1]), events[|events| - 1])
  }

  /** The event is about connection `c` itself. */
  predicate Concerns(e: Event, c: string) {
    match e
    case Heard(_, id, _) => id == c
    case Joined(_, id) => id == c
    case Dropped(_, id) => id == c
    case _ => false
  }

  /** Only ticks and its own events can change when `c` was last heard. */
  lemma OthersLeaveAlone(h: Hub, e: Event, c: string)
    requires !Concerns(e, c) && !e.Tick?
    ensures var h' := ApplyEvent(h, e);
            (c in h'.clients <==> c in h.clients) && (c in h.clients ==> h'.clients[c].lastKeepalive == h.clients[c].lastKeepalive)
  {
    hide HostPart, EnterMessage;
  }

  lemma TickKeepsOrEvicts(h: Hub, now: int, c: string)
    ensures var h' := AfterKeepalive(h, now);
            (c in h'.clients <==> c in h.clients && now - h.clients[c].lastKeepalive < 4000)
            && (c in h'.clients ==> h'.clients[c] == h.clients[c])
  {
    assert h.clients.Keys * h.clients.Keys == h.clients.Keys;
  }

  // ---------- A silent client ----------

  /** `c` does nothing and the server does nothing to it but tick. */
  predicate Silent(events: seq<Event>, c: string) {
    forall e <- events :: !Concerns(e, c)
  }

  /**
    A client silent since `t` is still registered exactly if every tick so far came before `t + 4000`:
    it is evicted at the first tick at or after that moment, and not before.
  */
  lemma {:induction false} SilentEvictedExactly(h: Hub, events: seq<Event>, c: string)
    requires c in h.clients && Silent(events, c)
    ensures var h' := Run(h, events);
            (c in h'.clients <==> forall e <- events :: e.Tick? ==> e.at < h.clients[c].lastKeepalive + 4000)
            && (c in h'.clients ==> h'.clients[c].lastKeepalive == h.clients[c].lastKeepalive)
  {
    hide AfterKeepalive, OnInput, OnMessage, OnConnected, OnDisconnected, TransitionToLocal;
    if events != [] {
      var front, e := events[..|events| - 1], events[|events| - 1];
      assert e in events && events == front + [e];
      SilentEvictedExactly(h, front, c);
      if e.Tick? {
        TickKeepsOrEvicts(Run(h, front), e.at, c);
      } else {
        OthersLeaveAlone(Run(h, front), e, c);
      }
    }
  }

  /** With ticks at most `gap` apart, that tick comes less than `gap` after the deadline. */
  lemma {:induction false} DeadlineTick(ticks: seq<int>, deadline: int, gap: int) returns (i: nat)
    requires ticks != [] && ticks[0] < deadline <= ticks[|ticks| - 1]
    requires forall k :: 0 <= k < |ticks| - 1 ==> ticks[k] <= ticks[k + 1] <= ticks[k] + gap
    ensures i < |ticks| && deadline <= ticks[i] < deadline + gap
    ensures forall k :: 0 <= k < i ==> ticks[k] < deadline
  {
    if ticks[1] >= deadline {
      i := 1;
    } else {
      i := DeadlineTick(ticks[1..], deadline, gap);
      forall k | 0 <= k < i + 1 ensures ticks[k] < deadline {
        if 0 < k { assert ticks[k] == ticks[1..][k - 1]; }
      }
      i := i + 1;
    }
  }

  /** From the event at `n` on, `c` is not registered. */
  predicate GoneFrom(h: Hub, events: seq<Event>, c: string, n: nat) {
    forall m :: n < m <= |events| ==> c !in Run(h, events[..m]).clients
  }

  lemma GoneFromTick(h: Hub, events: seq<Event>, c: string, n: nat)
    requires c in h.clients && Silent(events, c) && n < |events|
    requires events[n].Tick? && h.clients[c].lastKeepalive + 4000 <= events[n].at
    ensures GoneFrom(h, events, c, n)
  {
    hide Run;
    forall m | n < m <= |events| ensures c !in Run(h, events[..m]).clients {
      SilentEvictedExactly(h, events[..m], c);
      assert events[..m][n] in events[..m];
    }
  }

  /** With ticks at most `gap` apart, it is gone from a tick on that comes less than `gap` after the deadline. */
  lemma EvictedWithinGap(h: Hub, events: seq<Event>, c: string, ticks: seq<int>, gap: int)
    requires c in h.clients && Silent(events, c)
    requires forall u <- ticks :: Tick(u) in events
    requires ticks != [] && forall k :: 0 <= k < |ticks| - 1 ==> ticks[k] <= ticks[k + 1] <= ticks[k] + gap
    requires ticks[0] < h.clients[c].lastKeepalive + 4000 <= ticks[|ticks| - 1]
    ensures exists n :: 0 <= n < |events| && events[n].Tick? && GoneFrom(h, events, c, n)
                        && h.clients[c].lastKeepalive + 4000 <= events[n].at < h.clients[c].lastKeepalive + 4000 + gap
  {
    hide GoneFrom;
    var i := DeadlineTick(ticks, h.clients[c].lastKeepalive + 4000, gap);
    assert Tick(ticks[i]) in events;
    var n :| 0 <= n < |events| && events[n] == Tick(ticks[i]);
    GoneFromTick(h, events, c, n);
  }

  /** What the handlers are called with: a new address, an event of the capture, a clipboard that fits. */
  predicate Allowed(h: Hub, e: Event) {
    match e
    case Joined(_, id) => id != "" && id != h.activeId
    case Captured(_, p, clip) => (IsStroke(p) || IsMotion(p)) && (ClipFits(clip) || !EntersClient(h, p))
    case _ => true
  }

  predicate Orderly(h: Hub, events: seq<Event>) {
    events == [] || (Orderly(h, events[..|events| - 1]) && Allowed(Run(h, events[..|events| - 1]), events[|events| - 1]))
  }

  lemma EventKeepsInv(h: Hub, e: Event)
    requires HubInv(h) && Allowed(h, e)
    ensures HubInv(ApplyEvent(h, e))
  {
    hide HubInv, Grows, AfterKeepalive, OnInput, OnMessage, OnConnected, OnDisconnected, TransitionToLocal, EntersClient;
    match e
    case Heard(t, id, p) => MessageKeeps(h, id, p, t);
    case Tick(t) => KeepaliveKeeps(h, t);
    case Joined(t, id) => ConnectedKeepsExactly(h, id, t);
    case Dropped(_, id) => DisconnectedKeeps(h, id);
    case Captured(_, p, clip) => InputKeeps(h, p, clip);
    case Escaped(_) => ToLocalKeeps(h);
  }

  lemma {:induction false} RunKeepsInv(h: Hub, events: seq<Event>, m: nat)
    requires HubInv(h) && Orderly(h, events) && m <= |events|
    ensures HubInv(Run(h, events[..m])) && Orderly(h, events[..m])
  {
    hide HubInv, ApplyEvent, Allowed;
    if m < |events| {
      RunKeepsInv(h, events[..|events| - 1], m);
      assert events[..|events| - 1][..m] == events[..m];
    } else {
      assert events[..m] == events;
      if events != [] {
        RunKeepsInv(h, events[..|events| - 1], |events| - 1);
        assert events[..|events| - 1][..|events| - 1] == events[..|events| - 1];
        EventKeepsInv(Run(h, events[..|events| - 1]), events[|events| - 1]);
      }
    }
  }

  /** From the event at `n` on, no input goes to `c`; what is suppressed goes to some registered client. */
  predicate FreeFrom(h: Hub, events: seq<Event>, c: string, n: nat) {
    forall m :: n < m <= |events| ==>
      var h' := Run(h, events[..m]);
      h'.activeId != c && (h'.suppress <==> h'.activeId in h'.clients)
  }

  /** If `c` was active when that event came, the input is local right after it. */
  predicate LocalAfter(h: Hub, events: seq<Event>, c: string, n: nat)
    requires n < |events|
  {
    var h' := Run(h, events[..n + 1]);
    Run(h, events[..n]).activeId == c ==> h'.state == LocalActive && !h'.suppress && h'.activeId == ""
  }

  lemma GoneMeansFree(h: Hub, c: string)
    requires HubInv(h) && c !in h.clients && c != ""
    ensures h.activeId != c && (h.suppress <==> h.activeId in h.clients)
  {
    hide Scan;
  }

  lemma TickFrees(h: Hub, now: int, c: string)
    requires HubInv(h) && h.activeId == c && c != "" && c !in AfterKeepalive(h, now).clients
    ensures var h' := AfterKeepalive(h, now); h'.state == LocalActive && !h'.suppress && h'.activeId == ""
  {
    hide AfterKeepalive;
    KeepalivePassMeaning(h, now);
    AfterKeepaliveFields(h, now);
  }

  /**
    A client that falls silent while it is active does not hold the keyboard for long: from that tick on
    nothing is suppressed for it, and if it was active then, the server has local input right after.
  */
  lemma LocalControlWithinGap(h: Hub, events: seq<Event>, c: string, ticks: seq<int>, gap: int)
    requires HubInv(h) && Orderly(h, events)
    requires c in h.clients && Silent(events, c)
    requires forall u <- ticks :: Tick(u) in events
    requires ticks != [] && forall k :: 0 <= k < |ticks| - 1 ==> ticks[k] <= ticks[k + 1] <= ticks[k] + gap
    requires ticks[0] < h.clients[c].lastKeepalive + 4000 <= ticks[|ticks| - 1]
    ensures exists n :: 0 <= n < |events| && events[n].Tick? && FreeFrom(h, events, c, n) && LocalAfter(h, events, c, n)
                        && h.clients[c].lastKeepalive + 4000 <= events[n].at < h.clients[c].lastKeepalive + 4000 + gap
  {
    hide HubInv, Orderly, Run, GoneFrom, AfterKeepalive;
    EvictedWithinGap(h, events, c, ticks, gap);
    var n :| 0 <= n < |events| && events[n].Tick? && GoneFrom(h, events, c, n)
             && h.clients[c].lastKeepalive + 4000 <= events[n].at < h.clients[c].lastKeepalive + 4000 + gap;
    RegisteredHasName(h, c);
    forall m | n < m <= |events|
      ensures var h' := Run(h, events[..m]); h'.activeId != c && (h'.suppress <==> h'.activeId in h'.clients)
    {
      RunKeepsInv(h, events, m);
      assert c !in Run(h, events[..m]).clients by { GoneAt(h, events, c, n, m); }
      GoneMeansFree(Run(h, events[..m]), c);
    }
    if Run(h, events[..n]).activeId == c {
      RunKeepsInv(h, events, n);
      GoneAt(h, events, c, n, n + 1);
      RunOneMore(h, events, n);
      TickFrees(Run(h, events[..n]), events[n].at, c);
    }
  }

  lemma GoneAt(h: Hub, events: seq<Event>, c: string, n: nat, m: nat)
    requires GoneFrom(h, events, c, n) && n < m <= |events|
    ensures c !in Run(h, events[..m]).clients
  {
  }

  lemma RunOneMore(h: Hub, events: seq<Event>, n: nat)
    requires n < |events|
    ensures Run(h, events[..n + 1]) == ApplyEvent(Run(h, events[..n]), events[n])
  {
    hide ApplyEvent;
    assert events[..n + 1][..n] == events[..n];
  }

  lemma RegisteredHasName(h: Hub, c: string)
    requires HubInv(h) && c in h.clients
    ensures c != ""
  {
  }

  // ---------- A client that keeps sending ----------

  /** How many messages of `c` the events contain. */
  function Arrived(events: seq<Event>, c: string): nat {
    if events == [] then 0
    else Arrived(events[..|events| - 1], c) + if events[|events| - 1].Heard? && events[|events| - 1].id == c then 1 else 0
  }

  /**
    The k-th message of `c` arrives at `arrival(k)`, no connection event concerns it, and a tick never
    comes after a message that has not been handled yet.
  */
  ghost predicate Follows(events: seq<Event>, c: string, arrival: nat -> int) {
    events == [] ||
      var front, e := events[..|events| - 1], events[|events| - 1];
      && Follows(front, c, arrival)
      && match e
         case Heard(t, id, p) => id == c ==> t == arrival(Arrived(front, c) + 1) && !p.Disconnect?
         case Tick(t) => t <= arrival(Arrived(front, c) + 1)
         case _ => !Concerns(e, c)
  }

  /**
    A client that sends at least every `period` ms, each message delayed by at most `delay`, is never
    evicted if `period + delay < 4000`.  Message 0 is the one the server heard last at the start.
  */
  lemma {:induction false} SteadyNeverEvicted(
    h: Hub, events: seq<Event>, c: string, departure: nat -> int, arrival: nat -> int, period: int, delay: int)
    requires c in h.clients && h.clients[c].lastKeepalive == arrival(0)
    requires period + delay < 4000
    requires forall k: nat :: departure(k) <= departure(k + 1) <= departure(k) + period
    requires forall k: nat :: departure(k) <= arrival(k) <= departure(k) + delay
    requires Follows(events, c, arrival)
    ensures c in Run(h, events).clients
    ensures Run(h, events).clients[c].lastKeepalive == arrival(Arrived(events, c))
  {
    hide AfterKeepalive, OnInput, OnConnected, OnDisconnected, TransitionToLocal, OnHello;
    if events != [] {
      var front, e := events[..|events| - 1], events[|events| - 1];
      SteadyNeverEvicted(h, front, c, departure, arrival, period, delay);
      var before := Run(h, front);
      if e.Tick? {
        var k := Arrived(front, c);
        assert arrival(k + 1) <= departure(k + 1) + delay <= departure(k) + period + delay;
        TickKeepsOrEvicts(before, e.at, c);
      } else if Concerns(e, c) {
        HeardRefreshes(before, c, e.message, e.at);
      } else {
        OthersLeaveAlone(before, e, c);
      }
    }
  }

  // ---------- The heartbeats that keep it registered ----------

  /** A client after `k` turns of its keepalive loop in which the send succeeds. */
  function AfterTicks(c: Clients.ClientView, k: nat): Clients.ClientView {
    if k == 0 then c else Clients.OnKeepaliveTick(AfterTicks(c, k - 1), true)
  }

  lemma {:induction false} OneMessageATick(c: Clients.ClientView, k: nat)
    requires c.connected
    ensures AfterTicks(c, k).connected && |AfterTicks(c, k).sent| == |c.sent| + k
    ensures forall j :: |c.sent| <= j < |AfterTicks(c, k).sent| ==> !AfterTicks(c, k).sent[j].Disconnect?
  {
    if k != 0 {
      OneMessageATick(c, k - 1);
    }
  }

  /** The k-th message of `c` is what the k-th turn of its keepalive loop sent, and arrives at `arrival(k)`. */
  ghost predicate Beats(events: seq<Event>, c: string, client: Clients.ClientView, arrival: nat -> int)
    requires client.connected
  {
    events == [] ||
      var front, e := events[..|events| - 1], events[|events| - 1];
      && Beats(front, c, client, arrival)
      && match e
         case Heard(t, id, p) =>
           var k := Arrived(front, c) + 1;
           OneMessageATick(client, k);
           id == c ==> t == arrival(k) && p == AfterTicks(client, k).sent[|client.sent| + k - 1]
         case Tick(t) => t <= arrival(Arrived(front, c) + 1)
         case _ => !Concerns(e, c)
  }

  lemma {:induction false} BeatsFollow(events: seq<Event>, c: string, client: Clients.ClientView, arrival: nat -> int)
    requires client.connected && Beats(events, c, client, arrival)
    ensures Follows(events, c, arrival)
  {
    hide AfterTicks, Arrived, Concerns;
    if events != [] {
      BeatsFollow(events[..|events| - 1], c, client, arrival);
      OneMessageATick(client, Arrived(events[..|events| - 1], c) + 1);
    }
  }

  /**
    So the client's own keepalive loop keeps it registered: what its turns send, every `period` ms and
    each delayed by at most `delay`, prevents its eviction if `period + delay < 4000`.
  */
  lemma HeartbeatsNeverEvicted(
    h: Hub, events: seq<Event>, c: string, client: Clients.ClientView,
    departure: nat -> int, arrival: nat -> int, period: int, delay: int)
    requires c in h.clients && h.clients[c].lastKeepalive == arrival(0)
    requires client.connected && period + delay < 4000
    requires forall k: nat :: departure(k) <= departure(k + 1) <= departure(k) + period
    requires forall k: nat :: departure(k) <= arrival(k) <= departure(k) + delay
    requires Beats(events, c, client, arrival)
    ensures c in Run(h, events).clients
    ensures Run(h, events).clients[c].lastKeepalive == arrival(Arrived(events, c))
  {
    hide Beats, Follows, Run, Arrived;
    BeatsFollow(events, c, client, arrival);
    SteadyNeverEvicted(h, events, c, departure, arrival, period, delay);
  }

  lemma HeardRefreshes(h: Hub, c: string, p: Payload, now: int)
    requires c in h.clients && !p.Disconnect?
    ensures c in OnMessage(h, c, p, now).clients && OnMessage(h, c, p, now).clients[c].lastKeepalive == now
  {
  }
}
