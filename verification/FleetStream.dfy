/** The stream a node receives, over any run of runner calls, socket completions and acks. */
module FleetStream {
  import opened Fleet

  function Run(r: Remote, ss: seq<Step>): Remote {
    if ss == [] then r else Next(Run(r, ss[..|ss| - 1]), ss[|ss| - 1])
  }

  /** The frames a run handed to the socket. */
  function TriedBy(r: Remote, ss: seq<Step>): seq<Frame> {
    if ss == [] then [] else TriedBy(r, ss[..|ss| - 1]) + Attempt(Run(r, ss[..|ss| - 1]), ss[|ss| - 1])
  }

  /** The calls the runner made on a connected account. */
  function Calls(r: Remote, ss: seq<Step>): seq<Call> {
    if ss == [] then [] else Calls(r, ss[..|ss| - 1]) + Made(Run(r, ss[..|ss| - 1]), ss[|ss| - 1])
  }

  function Made(r: Remote, s: Step): (cs: seq<Call>)
    ensures |cs| <= 1
  {
    if s.Do? && r.wire.connected then [s.call] else []
  }

  /** Those calls as one list of events, signals numbered in the order they were made. */
  function AsEvents(cs: seq<Call>): seq<Event> {
    if cs == [] then []
    else AsEvents(cs[..|cs| - 1]) + EventOf(cs[|cs| - 1], Signals(cs[..|cs| - 1]) + 1)
  }

  function Signals(cs: seq<Call>): nat {
    if cs == [] then 0 else Signals(cs[..|cs| - 1]) + if cs[|cs| - 1].OnSignal? then 1 else 0
  }

  function Flat(fs: seq<Frame>): seq<Event> {
    if fs == [] then [] else Flat(fs[..|fs| - 1]) + fs[|fs| - 1].events
  }

  predicate Quiet(es: seq<Event>) { forall i :: 0 <= i < |es| ==> !Decision(es[i]) }

  /** Only a poll frame may be dropped, and it decides nothing; any other ends with its decision. */
  predicate WellFramed(f: Frame) {
    && f.events != []
    && Quiet(f.events[..|f.events| - 1])
    && (Decision(f.events[|f.events| - 1]) <==> !f.droppable)
  }

  predicate Numbered(fs: seq<Frame>) { forall i :: 0 <= i < |fs| ==> fs[i].number == i + 1 }

  /** sent is tried with some droppable frames left out. */
  predicate Thinned(sent: seq<Frame>, tried: seq<Frame>) {
    if tried == [] then sent == []
    else
      var n := |tried| - 1;
      || (sent != [] && sent[|sent| - 1] == tried[n] && Thinned(sent[..|sent| - 1], tried[..n]))
      || (tried[n].droppable && Thinned(sent, tried[..n]))
  }

  function Decisions(es: seq<Event>): seq<Event> {
    if es == [] then []
    else Decisions(es[..|es| - 1]) + if Decision(es[|es| - 1]) then [es[|es| - 1]] else []
  }

  // ------------------------------------------------------------- framing

  lemma FlatSnoc(fs: seq<Frame>, more: seq<Frame>)
    requires |more| <= 1
    ensures Flat(fs + more) == Flat(fs) + Flat(more)
  {
    if more == [] {
      assert fs + more == fs;
    } else {
      assert (fs + more)[..|fs|] == fs && more[..0] == [];
    }
  }

  lemma SaidSnoc(cs: seq<Call>, more: seq<Call>)
    requires |more| <= 1
    ensures AsEvents(cs + more) == AsEvents(cs) + Says(more, Signals(cs))
    ensures Signals(cs + more) == Signals(cs) + Signals(more)
  {
    if more == [] {
      assert cs + more == cs && AsEvents(cs) + [] == AsEvents(cs);
    } else {
      var c := more[0];
      assert more == [c];
      SaidOne(cs, c);
      SignalsOne(c);
      hide AsEvents, Signals, EventOf;
    }
  }

  lemma SaidOne(cs: seq<Call>, c: Call)
    ensures AsEvents(cs + [c]) == AsEvents(cs) + EventOf(c, Signals(cs) + 1)
    ensures Signals(cs + [c]) == Signals(cs) + if c.OnSignal? then 1 else 0
  {
    hide EventOf;
    assert (cs + [c])[..|cs|] == cs;
  }

  lemma SignalsOne(c: Call)
    ensures Signals([c]) == if c.OnSignal? then 1 else 0
  {
    assert [c][..0] == [];
  }

  /** The events of at most one call, after n signals. */
  function Says(cs: seq<Call>, n: nat): seq<Event>
    requires |cs| <= 1
  {
    if cs == [] then [] else EventOf(cs[0], n + 1)
  }

  /** A step moves events from the call to the buffer and from the buffer to a frame, in order. */
  lemma StepMoves(r: Remote, s: Step)
    ensures |Attempt(r, s)| <= 1
    ensures Flat(Attempt(r, s)) + Next(r, s).buf == r.buf + Says(Made(r, s), r.sigN)
    ensures Next(r, s).number == r.number + |Attempt(r, s)|
    ensures Attempt(r, s) != [] ==> Attempt(r, s)[0].number == r.number + 1
    ensures Next(r, s).sigN == r.sigN + Signals(Made(r, s))
  {
  }

  /** Frames are numbered 1, 2, 3 and so on, and so are signals. */
  lemma {:induction false} FramesAreNumbered(ss: seq<Step>)
    ensures var r, tried := Run(Fresh(), ss), TriedBy(Fresh(), ss);
            r.sigN == Signals(Calls(Fresh(), ss)) && r.number == |tried| && Numbered(tried)
  {
    hide Next, Attempt, Made;
    if ss != [] {
      var init, s := ss[..|ss| - 1], ss[|ss| - 1];
      FramesAreNumbered(init);
      var r := Run(Fresh(), init);
      StepMoves(r, s);
      NumberedSnoc(TriedBy(Fresh(), init), Attempt(r, s));
      SaidSnoc(Calls(Fresh(), init), Made(r, s));
    }
  }

  /** What a node is sent is what the runner said: the attempted frames, with what is still
      buffered, are the calls in order. */
  lemma {:induction false} StreamIsCalls(ss: seq<Step>)
    ensures Flat(TriedBy(Fresh(), ss)) + Run(Fresh(), ss).buf == AsEvents(Calls(Fresh(), ss))
  {
    hide Next, Attempt, Made, Says;
    if ss != [] {
      var init, s := ss[..|ss| - 1], ss[|ss| - 1];
      StreamIsCalls(init);
      FramesAreNumbered(init);
      var r, cs, tried := Run(Fresh(), init), Calls(Fresh(), init), TriedBy(Fresh(), init);
      StepMoves(r, s);
      FlatSnoc(tried, Attempt(r, s));
      SaidSnoc(cs, Made(r, s));
      Regroup(Flat(tried), Flat(Attempt(r, s)), Next(r, s).buf, r.buf, Says(Made(r, s), r.sigN));
    }
  }

  lemma Regroup<T>(a: seq<T>, b: seq<T>, c: seq<T>, d: seq<T>, e: seq<T>)
    requires b + c == d + e
    ensures (a + b) + c == (a + d) + e
  {
    assert (a + b) + c == a + (b + c);
    assert (a + d) + e == a + (d + e);
  }

  lemma NumberedSnoc(fs: seq<Frame>, more: seq<Frame>)
    requires Numbered(fs) && |more| <= 1 && (more != [] ==> more[0].number == |fs| + 1)
    ensures Numbered(fs + more)
  {
  }

  /** Every frame is well framed, and nothing buffered is a decision. */
  lemma {:induction false} FramesAreWellFormed(ss: seq<Step>)
    ensures Quiet(Run(Fresh(), ss).buf)
    ensures forall i :: 0 <= i < |TriedBy(Fresh(), ss)| ==> WellFramed(TriedBy(Fresh(), ss)[i])
  {
    if ss != [] {
      var init, s := ss[..|ss| - 1], ss[|ss| - 1];
      FramesAreWellFormed(init);
      StepFrames(Run(Fresh(), init), s);
    }
  }

  lemma StepFrames(r: Remote, s: Step)
    requires Quiet(r.buf)
    ensures Quiet(Next(r, s).buf)
    ensures forall i :: 0 <= i < |Attempt(r, s)| ==> WellFramed(Attempt(r, s)[i])
  {
  }

  // ------------------------------------------------------------- dropping

  /** While the node stays connected only droppable frames are lost, however slow it is. */
  lemma {:induction false} OnlyPollsAreDropped(ss: seq<Step>)
    requires Run(Fresh(), ss).wire.connected
    ensures Thinned(Run(Fresh(), ss).wire.sent, TriedBy(Fresh(), ss))
  {
    if ss != [] {
      var init, s := ss[..|ss| - 1], ss[|ss| - 1];
      OnlyPollsAreDropped(init);
      var r, tried := Run(Fresh(), init), TriedBy(Fresh(), init);
      SendThins(r, s);
      assert TriedBy(Fresh(), ss) == tried + Attempt(r, s) && Run(Fresh(), ss) == Next(r, s);
      hide Run, TriedBy, Next, Attempt;
      ThinnedSnoc(r.wire.sent, tried, Attempt(r, s), Next(r, s).wire.sent);
    }
  }

  /** A step that leaves the node connected sends what it attempts, or drops a droppable frame. */
  lemma SendThins(r: Remote, s: Step)
    requires Next(r, s).wire.connected
    ensures var more, sent := Attempt(r, s), Next(r, s).wire.sent;
            && |more| <= 1 && r.wire.connected
            && (sent == r.wire.sent + more || (sent == r.wire.sent && more != [] && more[0].droppable))
  {
    assert r.wire.sent + [] == r.wire.sent;
  }

  lemma ThinnedSnoc(sent: seq<Frame>, tried: seq<Frame>, more: seq<Frame>, sent': seq<Frame>)
    requires Thinned(sent, tried) && |more| <= 1
    requires sent' == sent + more || (sent' == sent && more != [] && more[0].droppable)
    ensures Thinned(sent', tried + more)
  {
    if more == [] {
      assert tried + more == tried && sent + more == sent;
    } else {
      assert (tried + more)[..|tried|] == tried && (sent + more)[..|sent|] == sent;
    }
  }

  lemma {:induction false} DecisionsAppend(a: seq<Event>, b: seq<Event>)
    ensures Decisions(a + b) == Decisions(a) + Decisions(b)
  {
    if b == [] {
      assert a + b == a;
    } else {
      assert (a + b)[..|a + b| - 1] == a + b[..|b| - 1];
      DecisionsAppend(a, b[..|b| - 1]);
    }
  }

  lemma {:induction false} QuietDecides(es: seq<Event>)
    requires Quiet(es)
    ensures Decisions(es) == []
  {
    if es != [] { QuietDecides(es[..|es| - 1]); }
  }

  lemma {:induction false} ThinnedDecides(sent: seq<Frame>, tried: seq<Frame>)
    requires Thinned(sent, tried) && forall i :: 0 <= i < |tried| ==> WellFramed(tried[i])
    ensures Decisions(Flat(sent)) == Decisions(Flat(tried))
    decreases |tried|
  {
    if tried != [] {
      var n := |tried| - 1;
      var f := tried[n];
      DecisionsAppend(Flat(tried[..n]), f.events);
      if sent != [] && sent[|sent| - 1] == f && Thinned(sent[..|sent| - 1], tried[..n]) {
        ThinnedDecides(sent[..|sent| - 1], tried[..n]);
        DecisionsAppend(Flat(sent[..|sent| - 1]), f.events);
      } else {
        ThinnedDecides(sent, tried[..n]);
        assert WellFramed(f);
        assert Quiet(f.events);
        QuietDecides(f.events);
      }
    }
  }

  /** No decision is ever lost, reordered or invented on a connection that stays up: the signals
      and exits among the frames sent are exactly the runner's, in the runner's order. */
  lemma DecisionsArrive(ss: seq<Step>)
    requires Run(Fresh(), ss).wire.connected
    ensures Decisions(Flat(Run(Fresh(), ss).wire.sent)) == Decisions(AsEvents(Calls(Fresh(), ss)))
  {
    var r, tried := Run(Fresh(), ss), TriedBy(Fresh(), ss);
    StreamIsCalls(ss);
    FramesAreWellFormed(ss);
    OnlyPollsAreDropped(ss);
    ThinnedDecides(r.wire.sent, tried);
    DecisionsAppend(Flat(tried), r.buf);
    QuietDecides(r.buf);
  }

  // ------------------------------------------------------------- identities and the grace period

  /** Every signal id in the stream is different. */
  predicate DistinctIds(es: seq<Event>) {
    forall i, j :: 0 <= i < j < |es| && es[i].Signal? && es[j].Signal? ==> es[i].id != es[j].id
  }

  lemma {:induction false} SignalsAreNumbered(cs: seq<Call>)
    ensures DistinctIds(AsEvents(cs))
    ensures forall i :: 0 <= i < |AsEvents(cs)| && AsEvents(cs)[i].Signal? ==> AsEvents(cs)[i].id.n <= Signals(cs)
  {
    if cs != [] {
      var init, c := cs[..|cs| - 1], cs[|cs| - 1];
      SignalsAreNumbered(init);
      SaidOne(init, c);
      assert cs == init + [c];
      hide AsEvents, Signals;
      NextSignalIsNew(AsEvents(init), EventOf(c, Signals(init) + 1), Signals(init));
    }
  }

  lemma NextSignalIsNew(es: seq<Event>, more: seq<Event>, n: nat)
    requires DistinctIds(es) && |more| <= 1
    requires forall i :: 0 <= i < |es| && es[i].Signal? ==> es[i].id.n <= n
    requires more != [] && more[0].Signal? ==> more[0].id.n == n + 1
    ensures DistinctIds(es + more)
    ensures forall i :: 0 <= i < |es + more| && (es + more)[i].Signal? ==> (es + more)[i].id.n <= n + 1
    ensures more == [] || !more[0].Signal? ==>
              forall i :: 0 <= i < |es + more| && (es + more)[i].Signal? ==> (es + more)[i].id.n <= n
  {
  }

  /** From the moment a signal is forwarded the hub believes the node holds its symbol for 20
      seconds, unless an exit for it is sent or the node declines it. */
  lemma {:induction false} HeldThroughTheGap(r: Remote, ss: seq<Step>, x: string, at: int, now: int,
                                             reported: set<string>)
    requires x in r.pending && at <= r.pending[x] && now - at < PENDING_TTL
    requires forall i :: 0 <= i < |ss| ==>
               && ss[i] != Declined(x)
               && (ss[i].Do? && ss[i].call.OnExit? ==> ss[i].call.symbol != x)
               && (ss[i].Do? && ss[i].call.OnSignal? ==> at <= ss[i].call.at)
    ensures var r' := Run(r, ss); x in r'.pending && at <= r'.pending[x] && Holds(r', reported, x, now)
  {
    if ss != [] {
      assert forall i :: 0 <= i < |ss| - 1 ==> ss[..|ss| - 1][i] == ss[i];
      HeldThroughTheGap(r, ss[..|ss| - 1], x, at, now, reported);
    }
  }
}
