/**
  Several threads calling `TcpConnection::send` on one connection: each serializes its message, takes
  the mutex, writes in as many pieces as the kernel likes, and releases the mutex.  A step is one
  lock operation or one call of `::send`.
*/
module SendLock {
  import opened Octets
  import opened Protocol
  import opened ProtocolLaws
  import opened Framing

  datatype Thread = Idle | Waiting(message: Message) | Writing(message: Message, count: nat)

  /** A finished call of `send` and the number of bytes it got out; all of them when it returned true. */
  datatype Sent = Sent(message: Message, count: nat)

  datatype Line = Line(threads: map<nat, Thread>, holder: Option<nat>, wire: octets, finished: seq<Sent>)

  datatype Step =
    | Begin(thread: nat, message: Message)
    | Lock(thread: nat)
    | Write(thread: nat, taken: nat)
    | Fail(thread: nat)
    | Finish(thread: nat)

  const Quiet := Line(map[], None, [], [])

  function ThreadOf(s: Line, t: nat): Thread {
    if t in s.threads then s.threads[t] else Idle
  }

  predicate Enabled(s: Line, step: Step) {
    var th := ThreadOf(s, step.thread);
    match step
    case Begin(_, _) => th.Idle?
    case Lock(_) => th.Waiting? && s.holder.None?
    case Write(_, n) => th.Writing? && 0 < n <= |EncodeMessage(th.message)| - th.count
    case Fail(_) => th.Writing? && th.count < |EncodeMessage(th.message)|
    case Finish(_) => th.Writing? && th.count == |EncodeMessage(th.message)|
  }

  function Apply(s: Line, step: Step): Line
    requires Enabled(s, step)
  {
    var t, th := step.thread, ThreadOf(s, step.thread);
    match step
    case Begin(_, m) => s.(threads := s.threads[t := Waiting(m)])
    case Lock(_) => s.(threads := s.threads[t := Writing(th.message, 0)], holder := Some(t))
    case Write(_, n) =>
      s.(threads := s.threads[t := th.(count := th.count + n)],
         wire := s.wire + EncodeMessage(th.message)[th.count..th.count + n])
    case Fail(_) => Leave(s, t, th)
    case Finish(_) => Leave(s, t, th)
  }

  /** The lock guard's destructor. */
  function Leave(s: Line, t: nat, th: Thread): Line
    requires th.Writing?
  {
    s.(threads := s.threads[t := Idle], holder := None, finished := s.finished + [Sent(th.message, th.count)])
  }

  /** A run; a step that is not enabled does nothing. */
  function Exec(s: Line, steps: seq<Step>): Line {
    if steps == [] then s
    else
      var before := Exec(s, steps[..|steps| - 1]);
      var step := steps[|steps| - 1];
      if Enabled(before, step) then Apply(before, step) else before
  }

  predicate PiecesFit(sent: seq<Sent>) {
    forall x <- sent :: x.count <= |EncodeMessage(x.message)|
  }

  /** What finished sends put on the wire, in lock order. */
  function Pieces(sent: seq<Sent>): octets
    requires PiecesFit(sent)
  {
    if sent == [] then []
    else
      var x := sent[|sent| - 1];
      Pieces(sent[..|sent| - 1]) + EncodeMessage(x.message)[..x.count]
  }

  /** The part of its frame that the lock holder has written. */
  function Partial(s: Line): octets {
    match s.holder
    case Some(t) =>
      var th := ThreadOf(s, t);
      if th.Writing? && th.count <= |EncodeMessage(th.message)| then EncodeMessage(th.message)[..th.count] else []
    case None => []
  }

  /** Exactly the lock holder is writing, and the wire holds the finished pieces and the holder's prefix. */
  ghost predicate Inv(s: Line) {
    && (forall t: nat :: ThreadOf(s, t).Writing? ==> s.holder == Some(t))
    && (s.holder.Some? ==> WritesWithin(ThreadOf(s, s.holder.value)))
    && PiecesFit(s.finished)
    && s.wire == Pieces(s.finished) + Partial(s)
  }

  predicate WritesWithin(th: Thread) {
    th.Writing? && th.count <= |EncodeMessage(th.message)|
  }

  lemma ApplyKeepsInv(s: Line, step: Step)
    requires Inv(s) && Enabled(s, step)
    ensures Inv(Apply(s, step))
  {
    hide EncodeMessage, Pieces;
    match step
    case Begin(_, _) =>
    case Lock(_) =>
    case Write(t, n) => WriteKeepsInv(s, t, n);
    case Fail(t) => LeaveKeepsInv(s, t);
    case Finish(t) => LeaveKeepsInv(s, t);
  }

  lemma WriteKeepsInv(s: Line, t: nat, n: nat)
    requires Inv(s) && Enabled(s, Write(t, n))
    ensures Inv(Apply(s, Write(t, n)))
  {
    hide EncodeMessage, Pieces;
    var th := ThreadOf(s, t);
    var e := EncodeMessage(th.message);
    assert Partial(s) == e[..th.count];
    assert Partial(Apply(s, Write(t, n))) == e[..th.count + n];
    assert e[..th.count] + e[th.count..th.count + n] == e[..th.count + n];
  }

  lemma LeaveKeepsInv(s: Line, t: nat)
    requires Inv(s) && ThreadOf(s, t).Writing?
    ensures Inv(Leave(s, t, ThreadOf(s, t)))
  {
    hide EncodeMessage;
    var th := ThreadOf(s, t);
    var s' := Leave(s, t, th);
    assert s'.finished[..|s'.finished| - 1] == s.finished;
    assert s'.wire == Pieces(s'.finished) + [];
  }

  /**
    In every run the wire is the finished pieces in lock order, each whole frame or failed part, then a
    prefix of the lock holder's frame.
  */
  lemma {:induction false} FramesNeverInterleave(steps: seq<Step>)
    ensures Inv(Exec(Quiet, steps))
  {
    if steps != [] {
      var before, step := Exec(Quiet, steps[..|steps| - 1]), steps[|steps| - 1];
      FramesNeverInterleave(steps[..|steps| - 1]);
      if Enabled(before, step) {
        ApplyKeepsInv(before, step);
      }
    }
  }

  // ---------- Which frames arrive whole ----------

  function Messages(sent: seq<Sent>): (r: seq<Message>)
    ensures |r| == |sent|
  {
    seq(|sent|, i requires 0 <= i < |sent| => sent[i].message)
  }

  predicate IsWhole(x: Sent) {
    x.count == |EncodeMessage(x.message)|
  }

  /** The finished sends that got all their bytes out, in lock order. */
  function Whole(sent: seq<Sent>): seq<Sent> {
    if sent == [] then []
    else
      var front, x := Whole(sent[..|sent| - 1]), sent[|sent| - 1];
      if IsWhole(x) then front + [x] else front
  }

  /** Every failed send failed before its first byte. */
  predicate Untorn(sent: seq<Sent>) {
    forall x <- sent :: x.count == 0 || IsWhole(x)
  }

  lemma MessagesSnoc(sent: seq<Sent>, x: Sent)
    ensures EncodeAll(Messages(sent + [x])) == EncodeAll(Messages(sent)) + EncodeMessage(x.message)
  {
    hide EncodeMessage;
    assert Messages(sent + [x]) == Messages(sent) + [x.message];
    EncodeAllAppend(Messages(sent), [x.message]);
    EncodeAllOne(x.message);
  }

  /** Torn pieces only ever add bytes, so the whole frames make up the pieces exactly if nothing is torn. */
  lemma {:induction false} PiecesExactly(sent: seq<Sent>)
    requires PiecesFit(sent)
    ensures |EncodeAll(Messages(Whole(sent)))| <= |Pieces(sent)|
    ensures |EncodeAll(Messages(Whole(sent)))| == |Pieces(sent)| <==> Untorn(sent)
    ensures Untorn(sent) ==> Pieces(sent) == EncodeAll(Messages(Whole(sent)))
  {
    hide EncodeMessage, Messages;
    if sent == [] {
      NothingWhole();
    } else {
      var front, x := sent[..|sent| - 1], sent[|sent| - 1];
      PiecesExactly(front);
      assert forall y <- sent :: y in front || y == x;
      var piece := EncodeMessage(x.message)[..x.count];
      if IsWhole(x) {
        assert piece == EncodeMessage(x.message);
        MessagesSnoc(Whole(front), x);
      } else {
        assert |Pieces(sent)| == |Pieces(front)| + x.count;
        assert x.count == 0 ==> Pieces(sent) == Pieces(front) + [];
      }
    }
  }

  lemma NothingWhole()
    ensures EncodeAll(Messages(Whole([]))) == []
  {
  }

  /**
    In every run, the wire is the whole frames in lock order and the holder's prefix, exactly if no send
    has failed part-way; one that failed before its first byte does no harm.
  */
  lemma WireIsWholeFramesExactly(steps: seq<Step>)
    ensures var s := Exec(Quiet, steps);
            s.wire == EncodeAll(Messages(Whole(s.finished))) + Partial(s) <==> Untorn(s.finished)
  {
    hide EncodeMessage, EncodeAll, Pieces, Whole, Untorn, Exec;
    FramesNeverInterleave(steps);
    var s := Exec(Quiet, steps);
    PiecesExactly(s.finished);
    if s.wire == EncodeAll(Messages(Whole(s.finished))) + Partial(s) {
      assert |s.wire| == |Pieces(s.finished)| + |Partial(s)|;
    }
  }

  lemma {:induction false} NoFailureUntorn(steps: seq<Step>)
    requires forall step <- steps :: !step.Fail?
    ensures Untorn(Exec(Quiet, steps).finished)
  {
    if steps != [] {
      assert steps[|steps| - 1] in steps;
      NoFailureUntorn(steps[..|steps| - 1]);
    }
  }

  /** The holder's message, once it has written its whole frame. */
  function HolderDone(s: Line): seq<Message> {
    match s.holder
    case Some(t) =>
      var th := ThreadOf(s, t);
      if th.Writing? && th.count == |EncodeMessage(th.message)| then [th.message] else []
    case None => []
  }

  /**
    While no send has failed part-way, the receiving end's loop finds exactly the messages whose send got
    all its bytes out, in the order the lock was taken, then the holder's if its whole frame is written;
    and it is waiting on the holder's part otherwise.
  */
  lemma ReceiverSeesLockOrder(steps: seq<Step>)
    requires Untorn(Exec(Quiet, steps).finished)
    requires AllEncodable(Messages(Whole(Exec(Quiet, steps).finished)))
    requires forall t: nat :: ThreadOf(Exec(Quiet, steps), t).Writing? ==> Encodable(ThreadOf(Exec(Quiet, steps), t).message)
    ensures var s := Exec(Quiet, steps);
            var done := HolderDone(s);
            Parse(s.wire)
            == Parsed(CanonAll(Messages(Whole(s.finished)) + done), if done == [] then Partial(s) else [], false)
  {
    hide EncodeMessage, Parse, Encodable, Exec, Whole, Untorn;
    var s := Exec(Quiet, steps);
    FramesNeverInterleave(steps);
    PiecesExactly(s.finished);
    var sent := Messages(Whole(s.finished));
    match s.holder
    case None =>
      ParseSent(sent, []);
      assert sent + [] == sent;
    case Some(t) =>
      var th := ThreadOf(s, t);
      if th.count < |EncodeMessage(th.message)| {
        CutFrameIsNoFrame(th.message, th.count);
        ParseSent(sent, Partial(s));
        assert sent + [] == sent;
      } else {
        EncodeAllAppend(sent, [th.message]);
        EncodeAllOne(th.message);
        assert Partial(s) == EncodeMessage(th.message);
        ParseSent(sent + [th.message], []);
        assert s.wire == EncodeAll(sent + [th.message]) + [];
      }
  }

  lemma EncodeAllOne(m: Message)
    ensures EncodeAll([m]) == EncodeMessage(m) && HEADER_SIZE <= |EncodeMessage(m)|
  {
    assert EncodeAll([m]) == EncodeMessage(m) + EncodeAll([]);
  }

  // ---------- After a failed send ----------

  lemma ExecEmpty(s: Line)
    ensures Exec(s, []) == s
  {
  }

  lemma ExecSnoc(s: Line, steps: seq<Step>, step: Step)
    ensures var before := Exec(s, steps);
            Exec(s, steps + [step]) == if Enabled(before, step) then Apply(before, step) else before
  {
    assert (steps + [step])[..|steps|] == steps;
  }

  /** `send` does not ask whether an earlier one failed, so a whole frame can follow a torn one. */
  lemma TornFrame(a: Message, b: Message, k: nat)
    requires 0 < k < |EncodeMessage(a)|
    ensures var steps := [Begin(0, a)] + [Lock(0)] + [Write(0, k)] + [Fail(0)]
                       + [Begin(0, b)] + [Lock(0)] + [Write(0, |EncodeMessage(b)|)] + [Finish(0)];
            Exec(Quiet, steps).wire == EncodeMessage(a)[..k] + EncodeMessage(b)
  {
    hide EncodeMessage, Exec;
    EncodeAllOne(b);
    var ea, eb := EncodeMessage(a), EncodeMessage(b);
    var s1 := [Begin(0, a)];
    assert Exec(Quiet, s1) == Line(map[0 := Waiting(a)], None, [], []) by {
      ExecEmpty(Quiet);
      ExecSnoc(Quiet, [], Begin(0, a));
      assert [] + [Begin(0, a)] == s1;
    }
    var s2 := s1 + [Lock(0)];
    assert Exec(Quiet, s2) == Line(map[0 := Writing(a, 0)], Some(0), [], []) by { ExecSnoc(Quiet, s1, Lock(0)); }
    var s3 := s2 + [Write(0, k)];
    assert Exec(Quiet, s3) == Line(map[0 := Writing(a, k)], Some(0), ea[..k], []) by {
      ExecSnoc(Quiet, s2, Write(0, k));
      assert [] + ea[0..k] == ea[..k];
    }
    var s4 := s3 + [Fail(0)];
    assert Exec(Quiet, s4) == Line(map[0 := Idle], None, ea[..k], [Sent(a, k)]) by { ExecSnoc(Quiet, s3, Fail(0)); }
    var s5 := s4 + [Begin(0, b)];
    assert Exec(Quiet, s5) == Line(map[0 := Waiting(b)], None, ea[..k], [Sent(a, k)]) by {
      ExecSnoc(Quiet, s4, Begin(0, b));
    }
    var s6 := s5 + [Lock(0)];
    assert Exec(Quiet, s6) == Line(map[0 := Writing(b, 0)], Some(0), ea[..k], [Sent(a, k)]) by {
      ExecSnoc(Quiet, s5, Lock(0));
    }
    var s7 := s6 + [Write(0, |eb|)];
    assert Exec(Quiet, s7) == Line(map[0 := Writing(b, |eb|)], Some(0), ea[..k] + eb, [Sent(a, k)]) by {
      ExecSnoc(Quiet, s6, Write(0, |eb|));
      assert eb[0..|eb|] == eb;
    }
    ExecSnoc(Quiet, s7, Finish(0));
  }

  /** What the receiver then makes of two copies of one message: a message nobody sent. */
  lemma TornFrameMisread()
    ensures var m := Stamp(ScreenLeave, 0);
            Parse(EncodeMessage(m)[..4] + EncodeMessage(m)).messages
            == [Message(Header(SCREEN_LEAVE, 0, 0x8_0000), ScreenLeave)]
  {
    var e := EncodeMessage(Stamp(ScreenLeave, 0));
    assert e == [0, 8, 0, 0, 0, 0, 0, 0];
    var wire := e[..4] + e;
    assert wire == [0, 8, 0, 0, 0, 8, 0, 0, 0, 0, 0, 0];
    ParseStep(wire);
    ParseStep(wire[8..]);
  }
}
