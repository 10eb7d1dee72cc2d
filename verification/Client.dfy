/** The client half (src/core/client.h, src/core/client.cpp), one handler per atomic step. */
module Clients {
  import opened Octets
  import opened Protocol

  datatype ClientState = Disconnected | Connected | Active | Reconnecting

  /** Calls into the platform's `InputInject`. */
  datatype Injection =
    | Move(x: uint16, y: uint16)
    | MoveRelative(dx: int16, dy: int16)
    | Button(button: uint8, down: bool)
    | Scroll(sx: int16, sy: int16)
    | KeyPress(scancode: uint16, modifiers: uint32)
    | KeyRelease(scancode: uint16, modifiers: uint32)

  datatype ClientView = ClientView(
    state: ClientState,
    running: bool,
    autoReconnect: bool,
    connected: bool,           // tcp_.is_connected()
    injected: seq<Injection>,  // in order
    clipboard: Option<Clip>,   // last content set
    sent: seq<Payload>)        // sent on the current connection

  // ---------- What the handlers do ----------

  function InjectionOf(p: Payload): Option<Injection> {
    match p
    case MouseMove(dx, dy) => Some(MoveRelative(dx, dy))
    case MouseMoveAbs(x, y) => Some(Move(x, y))
    case MouseButton(b, pressed) => Some(Button(b, pressed != 0))
    case MouseScroll(dx, dy) => Some(Scroll(dx, dy))
    case KeyDown(code, mods) => Some(KeyPress(code, mods))
    case KeyUp(code, mods) => Some(KeyRelease(code, mods))
    case _ => None
  }

  /** A button is down for any value but zero; the other fields go through as they are. */
  lemma ButtonsAndKeys(button: uint8, pressed: uint8, code: uint16, mods: uint32)
    ensures InjectionOf(MouseButton(button, pressed)) == Some(Button(button, 0 < pressed))
    ensures InjectionOf(KeyDown(code, mods)) == Some(KeyPress(code, mods))
    ensures InjectionOf(KeyUp(code, mods)) == Some(KeyRelease(code, mods))
  {
  }

  function Injected(c: ClientView, p: Payload): ClientView {
    match InjectionOf(p)
    case Some(i) => c.(injected := c.injected + [i])
    case None => c
  }

  function Closed(c: ClientView): ClientView {
    c.(connected := false)
  }

  function Lost(c: ClientView): ClientView {
    Closed(c).(state := if c.autoReconnect && c.running then Reconnecting else Disconnected)
  }

  function Quit(c: ClientView): ClientView {
    Closed(c).(running := false, autoReconnect := false, state := Disconnected,
               sent := if c.connected then c.sent + [Disconnect] else c.sent)
  }

  function OnServerMessage(c: ClientView, p: Payload): ClientView {
    match p
    case HelloAck(_, accepted) => if accepted != 0 then c else Quit(c)
    case ScreenEnter(x, y, _, _) => c.(state := Active, injected := c.injected + [Move(x, y)])
    case ScreenLeave => c.(state := Connected)
    case ClipboardUpdate(format, data) => c.(clipboard := Some(Clip(format, data)))
    case Keepalive => c
    case Disconnect => Lost(c)
    case _ => Injected(c, p)
  }

  /** One turn of the keepalive loop; a send that fails marks the connection as lost and tells nobody. */
  function OnKeepaliveTick(c: ClientView, sendOk: bool): ClientView {
    if c.connected then c.(sent := c.sent + [Keepalive], connected := sendOk) else c
  }

  function OnUdpMessage(c: ClientView, p: Payload): ClientView {
    if c.state == Active then Injected(c, p) else c
  }

  /** The greeting: the primary display's size cut to sixteen bits, or 1920x1080. */
  function Greeting(name: octets, display: Option<(uint32, uint32)>): Payload {
    match display
    case Some((w, h)) => Hello(PROTOCOL_VERSION, ToU16(w), ToU16(h), name)
    case None => Hello(PROTOCOL_VERSION, 1920, 1080, name)
  }

  // ---------- What a captured action becomes on the client ----------

  /** An event of the macOS tap.  A motion reports where the pointer is and how far it came. */
  datatype Action =
    | Motion(x: uint16, y: uint16, dx: int, dy: int)
    | Click(button: uint8, down: bool)
    | Wheel(dx: int, dy: int)
    | Press(scancode: uint16, modifiers: uint32)
    | Release(scancode: uint16, modifiers: uint32)
    | Escape(scancode: uint16, modifiers: uint32)  // the escape key going down

  /**
    The messages of one event: a motion sends its position, and then its delta too unless that is zero.
    While local input is suppressed the escape key is consumed.
  */
  function Capture(a: Action, suppress: bool): seq<Payload> {
    match a
    case Motion(x, y, dx, dy) =>
      [MouseMoveAbs(x, y)] + if dx != 0 || dy != 0 then [MouseMove(ToI16(ToU16(dx)), ToI16(ToU16(dy)))] else []
    case Click(b, down) => [MouseButton(b, if down then 1 else 0)]
    case Wheel(dx, dy) => [MouseScroll(ToI16(ToU16(dx)), ToI16(ToU16(dy)))]
    case Press(code, mods) => [KeyDown(code, mods)]
    case Release(code, mods) => [KeyUp(code, mods)]
    case Escape(code, mods) => if suppress then [] else [KeyDown(code, mods)]
  }

  /** `inject_event` on each message in turn. */
  function Replay(c: ClientView, ps: seq<Payload>): ClientView {
    if ps == [] then c else Injected(Replay(c, ps[..|ps| - 1]), ps[|ps| - 1])
  }

  lemma ReplayPair(c: ClientView, p: Payload, q: Payload)
    ensures Replay(c, [p]) == Injected(c, p)
    ensures Replay(c, [p, q]) == Injected(Injected(c, p), q)
  {
    assert [p][..0] == [] && [p, q][..1] == [p];
  }

  /** The one call that does on the client what was done on the server. */
  function Repetition(a: Action): Injection {
    match a
    case Motion(x, y, _, _) => Move(x, y)
    case Click(b, down) => Button(b, down)
    case Wheel(dx, dy) => Scroll(ToI16(ToU16(dx)), ToI16(ToU16(dy)))
    case Press(code, mods) => KeyPress(code, mods)
    case Release(code, mods) => KeyRelease(code, mods)
    case Escape(code, mods) => KeyPress(code, mods)
  }

  /** An action is repeated once exactly if it is neither a motion with a delta nor the consumed escape key. */
  lemma RepeatedExactly(c: ClientView, a: Action, suppress: bool)
    ensures Replay(c, Capture(a, suppress)).injected == c.injected + [Repetition(a)]
       <==> !(a.Motion? && (a.dx != 0 || a.dy != 0)) && !(a.Escape? && suppress)
  {
    var ps := Capture(a, suppress);
    if ps == [] {
      return;
    }
    ReplayPair(c, ps[0], if |ps| == 2 then ps[1] else ps[0]);
    assert ps == if |ps| == 2 then [ps[0], ps[1]] else [ps[0]];
  }

  /** Where the pointer is after some calls, moving by a delta from wherever it was. */
  function PointerAfter(at: (int, int), calls: seq<Injection>): (int, int) {
    if calls == [] then at
    else
      var (x, y) := PointerAfter(at, calls[..|calls| - 1]);
      match calls[|calls| - 1]
      case Move(toX, toY) => (toX, toY)
      case MoveRelative(dx, dy) => (x + dx, y + dy)
      case _ => (x, y)
  }

  lemma PointerSnoc(at: (int, int), calls: seq<Injection>, i: Injection)
    ensures var (x, y) := PointerAfter(at, calls);
            PointerAfter(at, calls + [i]) == match i case Move(toX, toY) => (toX as int, toY as int)
                                                   case MoveRelative(dx, dy) => (x + dx, y + dy)
                                                   case _ => (x, y)
  {
    assert (calls + [i])[..|calls|] == calls;
  }

  /** The datagrams of a motion as they arrive at the client: any of them, in any order, any number of times. */
  function Arrive(c: ClientView, ps: seq<Payload>): ClientView {
    if ps == [] then c else OnUdpMessage(Arrive(c, ps[..|ps| - 1]), ps[|ps| - 1])
  }

  /** How many messages have come since the last position. */
  function SincePosition(ps: seq<Payload>): nat {
    if ps == [] || ps[|ps| - 1].MouseMoveAbs? then 0 else 1 + SincePosition(ps[..|ps| - 1])
  }

  predicate OfMotion(ps: seq<Payload>, position: Payload, delta: Payload) {
    forall p <- ps :: p == position || p == delta
  }

  /**
    Where an ACTIVE client's pointer ends: at the position, if that has arrived at all, and then on by the
    delta once for each delta that came later.
  */
  lemma {:induction false} ArrivalsLand(
    c: ClientView, from: (int, int), x: uint16, y: uint16, dx: int16, dy: int16, ps: seq<Payload>)
    requires OfMotion(ps, MouseMoveAbs(x, y), MouseMove(dx, dy))
    ensures c.state != Active ==> Arrive(c, ps) == c
    ensures c.state == Active ==>
      var (ox, oy) := if MouseMoveAbs(x, y) in ps then (x as int, y as int) else PointerAfter(from, c.injected);
      && Arrive(c, ps).state == Active
      && PointerAfter(from, Arrive(c, ps).injected) == (ox + SincePosition(ps) * dx, oy + SincePosition(ps) * dy)
  {
    hide PointerAfter;
    if ps != [] {
      var front, p := ps[..|ps| - 1], ps[|ps| - 1];
      assert ps == front + [p] && p in ps;
      assert forall q <- front :: q in ps;
      ArrivalsLand(c, from, x, y, dx, dy, front);
      if c.state == Active {
        PointerSnoc(from, Arrive(c, front).injected, InjectionOf(p).value);
        assert (1 + SincePosition(front)) * dx == SincePosition(front) * dx + dx;
        assert (1 + SincePosition(front)) * dy == SincePosition(front) * dy + dy;
      }
    }
  }

  lemma CutIsZero(v: int)
    ensures ToI16(ToU16(v)) == 0 <==> v % 0x1_0000 == 0
  {
  }

  /**
    So, once the position of a captured motion has arrived, the client's pointer is where the server's was
    exactly if no delta came after it, or the delta is zero when cut to sixteen bits.
  */
  lemma MotionLandsExactly(c: ClientView, from: (int, int), x: uint16, y: uint16, dx: int, dy: int, ps: seq<Payload>)
    requires c.state == Active && MouseMoveAbs(x, y) in ps && forall p <- ps :: p in Capture(Motion(x, y, dx, dy), true)
    ensures PointerAfter(from, Arrive(c, ps).injected) == (x as int, y as int)
       <==> SincePosition(ps) == 0 || (dx % 0x1_0000 == 0 && dy % 0x1_0000 == 0)
  {
    hide PointerAfter, Arrive, ToI16, ToU16, SincePosition;
    var u, v := ToI16(ToU16(dx)), ToI16(ToU16(dy));
    ArrivalsLand(c, from, x, y, u, v, ps);
    CutIsZero(dx);
    CutIsZero(dy);
    NoProduct(SincePosition(ps), u);
    NoProduct(SincePosition(ps), v);
  }

  /** When both arrive as they were sent, the pointer overshoots by the delta. */
  lemma MotionInOrder(c: ClientView, from: (int, int), x: uint16, y: uint16, dx: int, dy: int)
    requires c.state == Active
    ensures PointerAfter(from, Arrive(c, Capture(Motion(x, y, dx, dy), true)).injected)
         == (x + ToI16(ToU16(dx)), y + ToI16(ToU16(dy)))
  {
    hide PointerAfter, Arrive, ToI16, ToU16;
    CutIsZero(0);
    var u, v := ToI16(ToU16(dx)), ToI16(ToU16(dy));
    var ps := Capture(Motion(x, y, dx, dy), true);
    ArrivalsLand(c, from, x, y, u, v, ps);
    assert ps[0] == MouseMoveAbs(x, y);
    if |ps| == 2 {
      assert ps[..1] == [MouseMoveAbs(x, y)];
    }
  }

  lemma NoProduct(n: nat, d: int)
    ensures n * d == 0 <==> n == 0 || d == 0
  {
  }

  // ---------- The object ----------

  /**
    What one turn of the reconnect loop meets: a `disconnect()` during the sleep, or reconnecting being
    switched off; the connect's outcome; and that of sending the greeting, which is not looked at.
  */
  datatype Attempt = Attempt(stopped: bool, switchedOff: bool, connects: bool, greets: bool)

  predicate Fruitless(a: Attempt) {
    !a.stopped && !a.switchedOff && !a.connects
  }

  /** The first attempt that something comes of. */
  predicate FirstFruitful(attempts: seq<Attempt>, k: nat)
    requires k < |attempts|
  {
    !Fruitless(attempts[k]) && forall j :: 0 <= j < k ==> Fruitless(attempts[j])
  }

  class Client {
    const name: octets
    var state: ClientState
    var running: bool
    var autoReconnect: bool
    var connected: bool
    var injected: seq<Injection>
    var clipboard: Option<Clip>
    var sent: seq<Payload>

    constructor (name: octets)
      ensures View() == ClientView(Disconnected, false, true, false, [], None, [])
      ensures this.name == name
    {
      this.name := name;
      state, running, autoReconnect, connected := Disconnected, false, true, false;
      injected, clipboard, sent := [], None, [];
    }

    function View(): ClientView
      reads this
    {
      ClientView(state, running, autoReconnect, connected, injected, clipboard, sent)
    }

    /** A greeting that cannot be sent leaves the client CONNECTED over a connection marked as lost. */
    method Connect(tcpOk: bool, udpOk: bool, helloOk: bool, display: Option<(uint32, uint32)>) returns (ok: bool)
      modifies this
      ensures ok == (tcpOk && udpOk)
      ensures !tcpOk ==> View() == old(View())
      ensures tcpOk && !udpOk ==> View() == Closed(old(View()))
      ensures ok ==> View() == old(View()).(state := Connected, running := true, connected := helloOk,
                                            sent := [Greeting(name, display)])
    {
      if !tcpOk {
        return false;
      }
      connected := true;
      if !udpOk {
        connected := false;
        return false;
      }
      sent := [Greeting(name, display)];
      if !helloOk {
        connected := false;
      }
      running := true;
      state := Connected;
      return true;
    }

    method Disconnect()
      modifies this
      ensures View() == Quit(old(View()))
    {
      running := false;
      autoReconnect := false;
      if connected {
        sent := sent + [Payload.Disconnect];
      }
      connected := false;
      state := Disconnected;
    }

    method HandleServerMessage(p: Payload)
      modifies this
      ensures View() == OnServerMessage(old(View()), p)
    {
      match p
      case HelloAck(_, accepted) =>
        if accepted == 0 {
          Disconnect();
        }
      case ScreenEnter(x, y, _, _) =>
        state := Active;
        injected := injected + [Move(x, y)];
      case ScreenLeave => state := Connected;
      case ClipboardUpdate(format, data) => clipboard := Some(Clip(format, data));
      case Keepalive =>
      case Disconnect => HandleServerDisconnected();
      case _ => InjectEvent(p);
    }

    method HandleServerDisconnected()
      modifies this
      ensures View() == Lost(old(View()))
    {
      state := Disconnected;
      connected := false;
      if autoReconnect && running {
        state := Reconnecting;
      }
    }

    method HandleUdpMessage(p: Payload)
      modifies this
      ensures View() == OnUdpMessage(old(View()), p)
    {
      if state != Active {
        return;
      }
      InjectEvent(p);
    }

    method InjectEvent(p: Payload)
      modifies this
      ensures View() == Injected(old(View()), p)
    {
      match p
      case MouseMove(dx, dy) => injected := injected + [MoveRelative(dx, dy)];
      case MouseMoveAbs(x, y) => injected := injected + [Move(x, y)];
      case MouseButton(b, pressed) => injected := injected + [Button(b, pressed != 0)];
      case MouseScroll(dx, dy) => injected := injected + [Scroll(dx, dy)];
      case KeyDown(code, mods) => injected := injected + [KeyPress(code, mods)];
      case KeyUp(code, mods) => injected := injected + [KeyRelease(code, mods)];
      case _ =>
    }

    /** One turn of `keepalive_loop`. */
    method KeepaliveTick(sendOk: bool)
      modifies this
      ensures View() == OnKeepaliveTick(old(View()), sendOk)
    {
      if connected {
        sent := sent + [Keepalive];
        if !sendOk {
          connected := false;
        }
      }
    }

    /**
      Whatever the attempts meet, the sleeps follow the schedule, and the loop goes on until it is
      stopped or connects; a fresh connection starts with the greeting.
    */
    method ReconnectLoop(attempts: seq<Attempt>, display: Option<(uint32, uint32)>) returns (sleeps: seq<nat>)
      requires state == Reconnecting && running && autoReconnect && !connected
      modifies this
      ensures |sleeps| <= |attempts| && sleeps == Schedule(|sleeps|)
      ensures forall k :: 0 <= k < |sleeps| - 1 ==> Fruitless(attempts[k])
      ensures |sleeps| < |attempts| ==> 0 < |sleeps|
      ensures sleeps == [] ==> View() == old(View())
      ensures 0 < |sleeps| ==>
        var last := attempts[|sleeps| - 1];
        if last.stopped then View() == Quit(old(View()))
        else if last.switchedOff then View() == old(View()).(autoReconnect := false)
        else if last.connects then
          View() == old(View()).(state := Connected, connected := last.greets, sent := [Greeting(name, display)])
        else View() == old(View()) && |sleeps| == |attempts|
    {
      var backoff := 1000;
      sleeps := [];
      while |sleeps| < |attempts| && running && autoReconnect && state == Reconnecting
        invariant |sleeps| <= |attempts| && sleeps == Schedule(|sleeps|)
        invariant backoff == Backoff(|sleeps|)
        invariant View() == old(View())
        invariant forall k :: 0 <= k < |sleeps| ==> Fruitless(attempts[k])
      {
        var attempt := attempts[|sleeps|];
        sleeps := sleeps + [backoff];
        assert sleeps == Schedule(|sleeps|);
        if attempt.stopped {
          Disconnect();
        } else if attempt.switchedOff {
          autoReconnect := false;
        }
        if !running || !autoReconnect {
          break;
        }
        if attempt.connects {
          connected := attempt.greets;
          sent := [Greeting(name, display)];
          state := Connected;
          return;
        }
        BackoffDoubles(|sleeps| - 1);
        backoff := Min(backoff * 2, 30000);
      }
    }

    /**
      The server is gone, and the thread that `on_server_disconnected` starts runs.  A client that wants to
      reconnect ends Connected over a fresh greeting at the first attempt that is not fruitless, if that
      one connects; it waits at first one second; and it gives up only when it is stopped or switched off.
    */
    method ServerGone(attempts: seq<Attempt>, display: Option<(uint32, uint32)>) returns (sleeps: seq<nat>)
      modifies this
      ensures !(old(running) && old(autoReconnect)) ==>
        sleeps == [] && View() == old(View()).(connected := false, state := Disconnected)
      ensures old(running) && old(autoReconnect) ==>
        forall k :: 0 <= k < |attempts| && FirstFruitful(attempts, k) ==>
          && |sleeps| == k + 1 && sleeps[0] == 1000
          && (attempts[k].stopped ==> state == Disconnected && !running && !autoReconnect && !connected)
          && (!attempts[k].stopped && attempts[k].switchedOff ==> state == Reconnecting && !connected)
          && (!attempts[k].stopped && !attempts[k].switchedOff ==>
                View() == old(View()).(connected := attempts[k].greets, state := Connected, sent := [Greeting(name, display)]))
      ensures old(running) && old(autoReconnect) && (forall a <- attempts :: Fruitless(a)) ==>
        |sleeps| == |attempts| && View() == old(View()).(connected := false, state := Reconnecting)
    {
      HandleServerDisconnected();
      sleeps := [];
      if state == Reconnecting {
        sleeps := ReconnectLoop(attempts, display);
        assert sleeps != [] ==> attempts[|sleeps| - 1] in attempts;
      }
    }
  }

  // ---------- The reconnect schedule ----------

  function Pow2(k: nat): (p: nat)
    ensures 1 <= p
  {
    if k == 0 then 1 else 2 * Pow2(k - 1)
  }

  /** Milliseconds slept before attempt `k`, in closed form. */
  function Backoff(k: nat): nat {
    Min(1000 * Pow2(k), 30000)
  }

  function Schedule(n: nat): (r: seq<nat>)
    ensures |r| == n
  {
    seq(n, k requires 0 <= k < n => Backoff(k))
  }

  function Total(sleeps: seq<nat>): nat {
    if sleeps == [] then 0 else Total(sleeps[..|sleeps| - 1]) + sleeps[|sleeps| - 1]
  }

  lemma BackoffDoubles(k: nat)
    ensures Backoff(k + 1) == Min(Backoff(k) * 2, 30000)
    ensures Backoff(k) <= Backoff(k + 1)
  {
  }

  lemma {:induction false} BackoffSettles(k: nat)
    requires 5 <= k
    ensures Backoff(k) == 30000
  {
    if k == 5 {
      assert Pow2(5) == 2 * Pow2(4) == 4 * Pow2(3) == 8 * Pow2(2) == 16 * Pow2(1) == 32;
    } else {
      BackoffSettles(k - 1);
      BackoffDoubles(k - 1);
    }
  }

  /** Thirty-one seconds for the first five attempts, thirty for each one after. */
  lemma {:induction false} TotalSleep(n: nat)
    ensures Total(Schedule(n)) == if n <= 5 then 1000 * (Pow2(n) - 1) else 31000 + 30000 * (n - 5)
  {
    if n != 0 {
      assert Schedule(n)[..n - 1] == Schedule(n - 1);
      TotalSleep(n - 1);
      assert Pow2(4) == 2 * Pow2(3) == 4 * Pow2(2) == 8 * Pow2(1) == 16;
      if n > 5 {
        BackoffSettles(n - 1);
      } else {
        PowGrows(n - 1, 4);
      }
    }
  }

  lemma {:induction false} PowGrows(a: nat, b: nat)
    requires a <= b
    ensures Pow2(a) <= Pow2(b)
  {
    if a < b {
      PowGrows(a, b - 1);
    }
  }
}
