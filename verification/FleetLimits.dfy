/** The counters behind the stream, over any run: what a slow node loses, when a connection is given up, and
    what the hub believes a node holds. */
module FleetLimits {
  import opened Common
  import opened Fleet
  import opened FleetStream

  // ------------------------------------------------------------- unwritten frames

  /** Writes that have ended. */
  function Ended(ss: seq<Step>): nat {
    if ss == [] then 0 else Ended(ss[..|ss| - 1]) + if ss[|ss| - 1].Done? then 1 else 0
  }

  /** A write ends only after it was handed over. */
  predicate InOrder(ss: seq<Step>) {
    forall n :: 0 <= n <= |ss| ==> Ended(ss[..n]) <= |Run(Fresh(), ss[..n]).wire.sent|
  }

  lemma InOrderInit(ss: seq<Step>)
    requires ss != [] && InOrder(ss)
    ensures InOrder(ss[..|ss| - 1]) && Ended(ss) <= |Run(Fresh(), ss).wire.sent|
  {
    var init := ss[..|ss| - 1];
    assert ss[..|ss|] == ss;
    forall n | 0 <= n <= |init| ensures Ended(init[..n]) <= |Run(Fresh(), init[..n]).wire.sent| {
      assert init[..n] == ss[..n];
    }
  }

  /** The step's frame goes out: the node is connected, the event loop takes the write, and the frame either
      decides something or finds fewer than 200 before it. */
  predicate GoesOut(r: Remote, s: Step, unwritten: int) {
    r.wire.connected && s.Do? && s.scheduled && (!s.call.EndTick? || unwritten < 200)
  }

  lemma StepSends(r: Remote, s: Step)
    ensures var r' := Next(r, s);
            && r'.wire.sent == (if GoesOut(r, s, r.wire.queued) then r.wire.sent + Attempt(r, s) else r.wire.sent)
            && r'.wire.queued == (if s.Done? then if r.wire.queued == 0 then 0 else r.wire.queued - 1
                                  else r.wire.queued + |r'.wire.sent| - |r.wire.sent|)
  {
    assert r.wire.sent + [] == r.wire.sent;
  }

  /** The queue is the frames handed over whose writes have not ended. */
  lemma {:induction false} QueueIsUnwritten(ss: seq<Step>)
    requires InOrder(ss)
    ensures var w := Run(Fresh(), ss).wire; w.queued == |w.sent| - Ended(ss)
  {
    if ss != [] {
      var init, s := ss[..|ss| - 1], ss[|ss| - 1];
      InOrderInit(ss);
      QueueIsUnwritten(init);
      StepSends(Run(Fresh(), init), s);
      StepMoves(Run(Fresh(), init), s);
      hide Next, Attempt, InOrder;
    }
  }

  /** What is sent, exactly: a frame with a decision whenever the connection is up and takes it; a poll frame only
      while fewer than 200 frames are unwritten. */
  lemma SentExactly(ss: seq<Step>, s: Step)
    requires InOrder(ss)
    ensures var r := Run(Fresh(), ss);
            Run(Fresh(), ss + [s]).wire.sent
            == r.wire.sent + if GoesOut(r, s, |r.wire.sent| - Ended(ss)) then Attempt(r, s) else []
  {
    hide *;
    var r := Run(Fresh(), ss);
    RunSnoc(ss, s);
    QueueIsUnwritten(ss);
    StepSends(r, s);
    assert r.wire.sent + [] == r.wire.sent;
  }

  lemma RunSnoc(ss: seq<Step>, s: Step)
    ensures Run(Fresh(), ss + [s]) == Next(Run(Fresh(), ss), s)
  {
    hide Next;
    assert (ss + [s])[..|ss|] == ss;
  }

  /** The step costs the connection: a write fails, or the event loop refuses a frame that would have gone out. */
  predicate GivesUp(r: Remote, s: Step, unwritten: int) {
    || (s.Done? && s.failed)
    || (Attempt(r, s) != [] && !s.scheduled && (!s.call.EndTick? || unwritten < 200))
  }

  predicate CostsAt(ss: seq<Step>, n: nat)
    requires n < |ss|
  {
    var r := Run(Fresh(), ss[..n]);
    GivesUp(r, ss[n], |r.wire.sent| - Ended(ss[..n]))
  }

  predicate GaveUp(ss: seq<Step>) { exists n :: 0 <= n < |ss| && CostsAt(ss, n) }

  lemma StepConnects(r: Remote, s: Step)
    ensures Next(r, s).wire.connected <==> r.wire.connected && !GivesUp(r, s, r.wire.queued)
  {
  }

  lemma GaveUpSnoc(ss: seq<Step>)
    requires ss != []
    ensures GaveUp(ss) <==> GaveUp(ss[..|ss| - 1]) || CostsAt(ss, |ss| - 1)
  {
    var init := ss[..|ss| - 1];
    forall n | 0 <= n < |init| ensures CostsAt(init, n) == CostsAt(ss, n) { assert init[..n] == ss[..n]; }
    hide CostsAt;
    if GaveUp(init) {
      var n :| 0 <= n < |init| && CostsAt(init, n);
      assert CostsAt(ss, n);
    }
  }

  /** A node starts connected, and its connection is given up exactly when some step costs it. */
  lemma {:induction false} ConnectedExactly(ss: seq<Step>)
    requires InOrder(ss)
    ensures Run(Fresh(), ss).wire.connected <==> !GaveUp(ss)
  {
    if ss != [] {
      var init, s := ss[..|ss| - 1], ss[|ss| - 1];
      InOrderInit(ss);
      ConnectedExactly(init);
      QueueIsUnwritten(init);
      StepConnects(Run(Fresh(), init), s);
      GaveUpSnoc(ss);
      hide Next, GaveUp, GivesUp, InOrder;
    }
  }

  // ------------------------------------------------------------- what the node is believed to hold

  /** When the last signal for the symbol was sent, unless an exit for it was since, or the node declined. */
  function LastSignal(ss: seq<Step>, x: string): (at: Option<int>)
    decreases |ss|
  {
    if ss == [] then None
    else
      var init, s := ss[..|ss| - 1], ss[|ss| - 1];
      var connected := Run(Fresh(), init).wire.connected;
      if s == Declined(x) then None
      else if s.Do? && connected && s.call.OnExit? && s.call.symbol == x then None
      else if s.Do? && connected && s.scheduled && s.call.OnSignal? && s.call.symbol == x then Some(s.call.at)
      else LastSignal(init, x)
  }

  lemma {:induction false} PendingIsLast(ss: seq<Step>, x: string)
    ensures var r := Run(Fresh(), ss);
            match LastSignal(ss, x)
            case None => x !in r.pending
            case Some(at) => x in r.pending && r.pending[x] == at
  {
    if ss != [] {
      var init, s := ss[..|ss| - 1], ss[|ss| - 1];
      var r := Run(Fresh(), init);
      PendingIsLast(init, x);
      PendingStep(r, s, x);
      hide Next;
    }
  }

  lemma PendingStep(r: Remote, s: Step, x: string)
    ensures var r' := Next(r, s);
            if s == Declined(x) || (s.Do? && r.wire.connected && s.call.OnExit? && s.call.symbol == x) then
              x !in r'.pending
            else if s.Do? && r.wire.connected && s.scheduled && s.call.OnSignal? && s.call.symbol == x then
              x in r'.pending && r'.pending[x] == s.call.at
            else (x in r'.pending <==> x in r.pending) && (x in r.pending ==> r'.pending[x] == r.pending[x])
  {
    StepSends(r, s);
    if s.Do? && s.call.OnSignal? { assert r.wire.sent + Attempt(r, s) != r.wire.sent <==> Attempt(r, s) != []; }
  }

  /** The hub believes a symbol held exactly when the node reports it, or for 20 seconds after the last signal
      sent for it, unless an exit went out since or the node declined. */
  lemma HeldExactly(ss: seq<Step>, reported: set<string>, x: string, now: int)
    ensures Holds(Run(Fresh(), ss), reported, x, now)
            <==> x in reported || (LastSignal(ss, x).Some? && now - LastSignal(ss, x).value < 20_000)
  {
    PendingIsLast(ss, x);
  }
}
