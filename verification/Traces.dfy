/** What the sequence of messages the server sends on one connection looks like. */
module Traces {
  import opened Octets
  import opened Protocol

  /** Input events that travel over TCP. */
  predicate IsStroke(p: Payload) {
    p.MouseButton? || p.KeyDown? || p.KeyUp?
  }

  /** A handshake reply that accepts the client. */
  predicate IsGreeting(p: Payload) {
    p.HelloAck? && p.accepted != 0
  }

  /** The most that one frame's sixteen-bit length leaves for a clipboard's content. */
  const MAX_CLIPBOARD := 65530

  /** `clip`, if there is one, can be carried by one frame. */
  predicate ClipFits(clip: Option<Clip>) {
    clip.Some? ==> |clip.value.data| <= MAX_CLIPBOARD
  }

  /** Where a trace stands: no client screen open, a clipboard just sent, a screen open, or ungrammatical. */
  datatype Phase = Outside | Clipped | Inside | Broken

  function Next(phase: Phase, p: Payload): Phase {
    match phase
    case Outside =>
      if IsGreeting(p) || p.Keepalive? then Outside
      else if p.ClipboardUpdate? && |p.data| <= MAX_CLIPBOARD then Clipped
      else if p.ScreenEnter? then Inside
      else Broken
    case Clipped => if p.ScreenEnter? then Inside else Broken
    case Inside =>
      if IsGreeting(p) || p.Keepalive? || IsStroke(p) then Inside
      else if p.ScreenLeave? then Outside
      else Broken
    case Broken => Broken
  }

  function Scan(t: seq<Payload>): Phase {
    if t == [] then Outside else Next(Scan(t[..|t| - 1]), t[|t| - 1])
  }

  /** The key and button events of a trace. */
  function Strokes(t: seq<Payload>): seq<Payload> {
    if t == [] then []
    else if IsStroke(t[|t| - 1]) then Strokes(t[..|t| - 1]) + [t[|t| - 1]]
    else Strokes(t[..|t| - 1])
  }

  lemma ScanSnoc(t: seq<Payload>, p: Payload)
    ensures Scan(t + [p]) == Next(Scan(t), p)
    ensures Strokes(t + [p]) == if IsStroke(p) then Strokes(t) + [p] else Strokes(t)
  {
    assert (t + [p])[..|t|] == t;
  }

  lemma {:induction false} ScanPrefix(t: seq<Payload>, k: nat)
    requires k <= |t| && Scan(t) != Broken
    ensures Scan(t[..k]) != Broken
  {
    if k < |t| {
      var front := t[..|t| - 1];
      ScanPrefix(front, k);
      assert front[..k] == t[..k];
    } else {
      assert t[..k] == t;
    }
  }

  lemma {:induction false} StrokesPrefix(t: seq<Payload>, k: nat)
    requires k <= |t|
    ensures Strokes(t[..k]) <= Strokes(t)
  {
    if k < |t| {
      var front := t[..|t| - 1];
      StrokesPrefix(front, k);
      assert front[..k] == t[..k];
    } else {
      assert t[..k] == t;
    }
  }

  /** The most recent screen transition: `Some(true)` for an enter, `Some(false)` for a leave. */
  function LastTransition(t: seq<Payload>): Option<bool> {
    if t == [] then None
    else if t[|t| - 1].ScreenEnter? then Some(true)
    else if t[|t| - 1].ScreenLeave? then Some(false)
    else LastTransition(t[..|t| - 1])
  }

  /** The place of `t[i]` in a grammatical trace. */
  predicate WellPlaced(t: seq<Payload>, i: nat)
    requires i < |t|
  {
    && (IsStroke(t[i]) ==> LastTransition(t[..i]) == Some(true))
    && (t[i].ScreenEnter? ==> LastTransition(t[..i]) != Some(true))
    && (t[i].ScreenLeave? ==> LastTransition(t[..i]) == Some(true))
    && (t[i].ClipboardUpdate? ==> |t[i].data| <= MAX_CLIPBOARD && (i + 1 < |t| ==> t[i + 1].ScreenEnter?))
  }

  /**
    What being grammatical means: a screen is open exactly after an unmatched enter; enters and leaves
    alternate; every stroke falls in an open screen; and a clipboard fits its frame and is directly
    followed by an enter.
  */
  lemma {:induction false} GrammarMeaning(t: seq<Payload>)
    requires Scan(t) != Broken
    ensures Scan(t) == Inside <==> LastTransition(t) == Some(true)
    ensures Scan(t) == Clipped <==> t != [] && t[|t| - 1].ClipboardUpdate?
    ensures forall i :: 0 <= i < |t| ==> WellPlaced(t, i)
  {
    if t != [] {
      var n := |t| - 1;
      var front := t[..n];
      GrammarMeaning(front);
      forall i | 0 <= i < |t| ensures WellPlaced(t, i) {
        if i < n {
          assert WellPlaced(front, i);
          assert front[..i] == t[..i] && front[i] == t[i];
          if i + 1 < n {
            assert front[i + 1] == t[i + 1];
          }
        }
      }
    }
  }

  // ---------- The handshake ----------

  predicate Greeted(t: seq<Payload>) {
    exists i :: 0 <= i < |t| && IsGreeting(t[i])
  }

  /** Every enter comes after an accepting HelloAck. */
  predicate GreetedFirst(t: seq<Payload>) {
    forall i :: 0 <= i < |t| && t[i].ScreenEnter? ==> Greeted(t[..i])
  }

  lemma GreetedSnoc(t: seq<Payload>, p: Payload)
    ensures Greeted(t + [p]) <==> Greeted(t) || IsGreeting(p)
    ensures GreetedFirst(t) && (p.ScreenEnter? ==> Greeted(t)) ==> GreetedFirst(t + [p])
  {
    var t' := t + [p];
    if Greeted(t) {
      var i :| 0 <= i < |t| && IsGreeting(t[i]);
      assert IsGreeting(t'[i]);
    }
    if IsGreeting(p) {
      assert IsGreeting(t'[|t|]);
    }
    if GreetedFirst(t) && (p.ScreenEnter? ==> Greeted(t)) {
      forall i | 0 <= i < |t'| && t'[i].ScreenEnter? ensures Greeted(t'[..i]) {
        assert t'[..i] == t[..i];
        assert t[..|t|] == t;
      }
    }
  }
}
