/** What reaches a node's accounts, over every frame it ever receives. */
module HubProofs {
  import opened Fleet
  import opened FleetStream
  import opened HubLink

  /** An event, and the age of the frame it came in. */
  datatype Arrival = Arrival(event: Event, age: real)

  function Events(xs: seq<Arrival>): seq<Event> {
    if xs == [] then [] else Events(xs[..|xs| - 1]) + [xs[|xs| - 1].event]
  }

  function Arrivals(es: seq<Event>, age: real): seq<Arrival> {
    if es == [] then [] else Arrivals(es[..|es| - 1], age) + [Arrival(es[|es| - 1], age)]
  }

  /** Everything a node's accounts are asked, when it began with these ids remembered. */
  function CallsOf(seen: seq<SignalId>, known: set<string>, xs: seq<Arrival>): seq<AccountCall> {
    if xs == [] then []
    else
      var init, x := xs[..|xs| - 1], xs[|xs| - 1];
      CallsOf(seen, known, init) + Asks(RememberAll(seen, known, Events(init)), known, x.event, x.age)
  }

  /** Every signal id it accepts, in order. */
  function Ids(seen: seq<SignalId>, known: set<string>, xs: seq<Arrival>): seq<SignalId> {
    if xs == [] then []
    else
      var init, e := xs[..|xs| - 1], xs[|xs| - 1].event;
      Ids(seen, known, init) + if New(RememberAll(seen, known, Events(init)), known, e) then [e.id] else []
  }

  /** The ids of the signals the accounts were asked about, or told were late. */
  function Answered(calls: seq<AccountCall>): seq<SignalId> {
    if calls == [] then []
    else
      var c := calls[|calls| - 1];
      Answered(calls[..|calls| - 1]) + if c.Signalled? || c.Told? then [c.id] else []
  }

  // ------------------------------------------------------------- frames and arrivals

  lemma {:induction false} RememberAppend(seen: seq<SignalId>, known: set<string>, a: seq<Event>, b: seq<Event>)
    ensures RememberAll(RememberAll(seen, known, a), known, b) == RememberAll(seen, known, a + b)
  {
    if b == [] {
      assert a + b == a;
    } else {
      assert (a + b)[..|a + b| - 1] == a + b[..|b| - 1];
      RememberAppend(seen, known, a, b[..|b| - 1]);
    }
  }

  lemma {:induction false} EventsAppend(xs: seq<Arrival>, es: seq<Event>, age: real)
    ensures Events(xs + Arrivals(es, age)) == Events(xs) + es
  {
    if es == [] {
      assert xs + [] == xs && Events(xs) + es == Events(xs);
    } else {
      var init, e := es[..|es| - 1], es[|es| - 1];
      var more := Arrivals(init, age);
      EventsAppend(xs, init, age);
      assert Arrivals(es, age) == more + [Arrival(e, age)];
      hide Events, Arrivals;
      Assoc(xs, more, [Arrival(e, age)]);
      EventsSnoc(xs + more, Arrival(e, age));
      Assoc(Events(xs), init, [e]);
      assert init + [e] == es;
    }
  }

  /** A frame handled after others asks what its events ask at the end of that longer stream. */
  lemma {:induction false} FrameContinues(seen: seq<SignalId>, known: set<string>, xs: seq<Arrival>, es: seq<Event>,
                                          age: real)
    ensures CallsOf(seen, known, xs + Arrivals(es, age))
            == CallsOf(seen, known, xs) + AsksAll(RememberAll(seen, known, Events(xs)), known, es, age)
  {
    if es == [] {
      assert xs + [] == xs;
    } else {
      var init, e := es[..|es| - 1], es[|es| - 1];
      var more := Arrivals(init, age);
      hide Asks, Remember, RememberAll, AsksAll, CallsOf, Events, Arrivals;
      FrameContinues(seen, known, xs, init, age);
      var now := RememberAll(seen, known, Events(xs));
      FrameSnoc(now, known, es, age);
      EventsAppend(xs, init, age);
      RememberAppend(seen, known, Events(xs), init);
      CallsSnoc(seen, known, xs + more, Arrival(e, age));
      Assoc(xs, more, [Arrival(e, age)]);
      Assoc(CallsOf(seen, known, xs), AsksAll(now, known, init, age),
            Asks(RememberAll(now, known, init), known, e, age));
    }
  }

  lemma Assoc<T>(a: seq<T>, b: seq<T>, c: seq<T>)
    ensures (a + b) + c == a + (b + c)
  {
  }

  lemma FrameSnoc(seen: seq<SignalId>, known: set<string>, es: seq<Event>, age: real)
    requires es != []
    ensures var init, e := es[..|es| - 1], es[|es| - 1];
            && AsksAll(seen, known, es, age)
               == AsksAll(seen, known, init, age) + Asks(RememberAll(seen, known, init), known, e, age)
            && Arrivals(es, age) == Arrivals(init, age) + [Arrival(e, age)]
  {
  }

  lemma CallsSnoc(seen: seq<SignalId>, known: set<string>, xs: seq<Arrival>, x: Arrival)
    ensures CallsOf(seen, known, xs + [x])
            == CallsOf(seen, known, xs) + Asks(RememberAll(seen, known, Events(xs)), known, x.event, x.age)
  {
    assert (xs + [x])[..|xs|] == xs;
  }

  // ------------------------------------------------------------- at most once

  lemma LastSnoc<T>(xs: seq<T>, x: T, n: nat)
    requires n > 0
    ensures Last(Last(xs, n) + [x], n) == Last(xs + [x], n)
  {
  }

  /** The bounded memory is the last 500 ids accepted, those it began with included. */
  lemma {:induction false} SeenIsLast(seen: seq<SignalId>, known: set<string>, xs: seq<Arrival>)
    requires |seen| <= SEEN_KEEP
    ensures RememberAll(seen, known, Events(xs)) == Last(seen + Ids(seen, known, xs), SEEN_KEEP)
  {
    if xs == [] {
      assert seen + Ids(seen, known, xs) == seen;
    } else {
      var init, e := xs[..|xs| - 1], xs[|xs| - 1].event;
      var before := Ids(seen, known, init);
      SeenIsLast(seen, known, init);
      assert Events(xs)[..|Events(init)|] == Events(init);
      if New(RememberAll(seen, known, Events(init)), known, e) {
        LastSnoc(seen + before, e.id, SEEN_KEEP);
        Assoc(seen, before, [e.id]);
      } else {
        assert before + [] == before;
      }
    }
  }

  /** At most once: an id is accepted again only after 500 other acceptances, those remembered from
      before included. */
  lemma {:induction false} AtMostOnce(seen: seq<SignalId>, known: set<string>, xs: seq<Arrival>)
    requires |seen| <= SEEN_KEEP
    ensures var ids := seen + Ids(seen, known, xs);
            forall i, j :: 0 <= i < j < |ids| && |seen| <= j <= i + 500 ==> ids[i] != ids[j]
  {
    if xs != [] {
      var init, e := xs[..|xs| - 1], xs[|xs| - 1].event;
      AtMostOnce(seen, known, init);
      SeenIsLast(seen, known, init);
      var before, now := seen + Ids(seen, known, init), RememberAll(seen, known, Events(init));
      var ids := seen + Ids(seen, known, xs);
      if New(now, known, e) {
        assert ids == before + [e.id] by { Assoc(seen, Ids(seen, known, init), [e.id]); }
        forall i | 0 <= i < |before| && |before| - i <= SEEN_KEEP ensures before[i] != e.id {
          var k := if |before| <= SEEN_KEEP then i else i - (|before| - SEEN_KEEP);
          assert now[k] == before[i];
        }
      } else {
        assert ids == before;
      }
    }
  }

  /** And the accounts hear of exactly the accepted ids, in order. */
  lemma {:induction false} AnsweredAreIds(seen: seq<SignalId>, known: set<string>, xs: seq<Arrival>)
    ensures Answered(CallsOf(seen, known, xs)) == Ids(seen, known, xs)
  {
    hide Asks, New;
    if xs != [] {
      var init, x := xs[..|xs| - 1], xs[|xs| - 1];
      AnsweredAreIds(seen, known, init);
      var now := RememberAll(seen, known, Events(init));
      AskedOnce(now, known, x.event, x.age);
      AnsweredSnoc(CallsOf(seen, known, init), Asks(now, known, x.event, x.age));
    }
  }

  lemma AskedOnce(seen: seq<SignalId>, known: set<string>, e: Event, age: real)
    ensures Answered(Asks(seen, known, e, age)) == if New(seen, known, e) then [e.id] else []
  {
  }

  lemma AnsweredSnoc(calls: seq<AccountCall>, more: seq<AccountCall>)
    requires |more| <= 1
    ensures Answered(calls + more) == Answered(calls) + Answered(more)
  {
    if more == [] {
      assert calls + more == calls;
    } else {
      assert (calls + more)[..|calls|] == calls && more[..0] == [];
    }
  }

  // ------------------------------------------------------------- the replay

  /** The plain replay: every event by itself, nothing remembered. */
  function Plain(known: set<string>, xs: seq<Arrival>): seq<AccountCall> {
    if xs == [] then [] else Plain(known, xs[..|xs| - 1]) + Asks([], known, xs[|xs| - 1].event, xs[|xs| - 1].age)
  }

  /** The ids of all signals for these symbols, in order. */
  function KnownIds(known: set<string>, es: seq<Event>): seq<SignalId> {
    if es == [] then []
    else
      var e := es[|es| - 1];
      KnownIds(known, es[..|es| - 1]) + if e.Signal? && e.symbol in known then [e.id] else []
  }

  /** No signal for these symbols repeats one of the 500 ids before it, remembered ones included. */
  predicate Unremembered(seen: seq<SignalId>, known: set<string>, es: seq<Event>) {
    forall i :: 0 <= i < |es| && es[i].Signal? && es[i].symbol in known ==>
      es[i].id !in Last(seen + KnownIds(known, es[..i]), SEEN_KEEP)
  }

  lemma UnrememberedSnoc(seen: seq<SignalId>, known: set<string>, es: seq<Event>, e: Event)
    ensures Unremembered(seen, known, es + [e])
            <==> Unremembered(seen, known, es)
                 && (e.Signal? && e.symbol in known ==> e.id !in Last(seen + KnownIds(known, es), SEEN_KEEP))
  {
    var all := es + [e];
    assert all[..|es|] == es && all[|es|] == e;
    assert forall i :: 0 <= i < |es| ==> all[i] == es[i] && all[..i] == es[..i];
    if Unremembered(seen, known, all) {
      forall i | 0 <= i < |es| && es[i].Signal? && es[i].symbol in known
        ensures es[i].id !in Last(seen + KnownIds(known, es[..i]), SEEN_KEEP)
      {
        assert all[i] == es[i] && all[..i] == es[..i];
      }
    }
  }

  /** A signal is swallowed exactly when it is remembered; nothing else ever is. */
  lemma AsksLess(seen: seq<SignalId>, known: set<string>, e: Event, age: real)
    ensures var swallowed := e.Signal? && e.symbol in known && e.id in seen;
            && (swallowed ==> |Asks(seen, known, e, age)| < |Asks([], known, e, age)|)
            && (!swallowed ==> Asks(seen, known, e, age) == Asks([], known, e, age))
  {
  }

  lemma {:induction false} ReplayLength(seen: seq<SignalId>, known: set<string>, xs: seq<Arrival>)
    requires |seen| <= SEEN_KEEP
    ensures |CallsOf(seen, known, xs)| <= |Plain(known, xs)|
    ensures Unremembered(seen, known, Events(xs)) ==>
              && CallsOf(seen, known, xs) == Plain(known, xs)
              && RememberAll(seen, known, Events(xs)) == Last(seen + KnownIds(known, Events(xs)), SEEN_KEEP)
    ensures !Unremembered(seen, known, Events(xs)) ==> |CallsOf(seen, known, xs)| < |Plain(known, xs)|
  {
    hide Unremembered, Asks;
    if xs == [] {
      NothingSwallowed(seen, known);
    } else {
      var init, x := xs[..|xs| - 1], xs[|xs| - 1];
      var es, e := Events(init), x.event;
      var now := RememberAll(seen, known, es);
      ReplayLength(seen, known, init);
      EventsSnoc(init, x);
      assert init + [x] == xs && Events(xs) == es + [e] && (es + [e])[..|es|] == es;
      UnrememberedSnoc(seen, known, es, e);
      AsksLess(now, known, e, x.age);
      if e.Signal? && e.symbol in known {
        LastSnoc(seen + KnownIds(known, es), e.id, SEEN_KEEP);
        Assoc(seen, KnownIds(known, es), [e.id]);
      } else {
        assert KnownIds(known, es) + [] == KnownIds(known, es);
      }
    }
  }

  lemma NothingSwallowed(seen: seq<SignalId>, known: set<string>)
    requires |seen| <= SEEN_KEEP
    ensures Unremembered(seen, known, []) && Last(seen + KnownIds(known, []), SEEN_KEEP) == seen
  {
    assert seen + [] == seen;
  }

  /** Whatever a node remembers, it replays its stream filtered by nothing but its own symbols and
      lateness if and only if no signal repeats one of the 500 ids before it. */
  lemma ReplayExactly(seen: seq<SignalId>, known: set<string>, xs: seq<Arrival>)
    requires |seen| <= SEEN_KEEP
    ensures CallsOf(seen, known, xs) == Plain(known, xs) <==> Unremembered(seen, known, Events(xs))
  {
    ReplayLength(seen, known, xs);
  }

  lemma {:induction false} KnownIdsAreSignals(known: set<string>, es: seq<Event>)
    ensures forall id :: id in KnownIds(known, es) ==> exists i :: 0 <= i < |es| && es[i].Signal? && es[i].id == id
  {
    if es != [] {
      var n := |es| - 1;
      KnownIdsAreSignals(known, es[..n]);
      forall id | id in KnownIds(known, es) ensures exists i :: 0 <= i < |es| && es[i].Signal? && es[i].id == id {
        if id in KnownIds(known, es[..n]) {
          var i :| 0 <= i < n && es[..n][i].Signal? && es[..n][i].id == id;
          assert es[i].Signal? && es[i].id == id;
        } else {
          assert es[n].Signal? && es[n].id == id;
        }
      }
    }
  }

  /** None of the signals is remembered. */
  predicate NoneRemembered(seen: seq<SignalId>, es: seq<Event>) {
    forall i :: 0 <= i < |es| && es[i].Signal? ==> es[i].id !in seen
  }

  /** With every signal id different, it is enough that none is remembered when the stream begins. */
  lemma DistinctReplay(seen: seq<SignalId>, known: set<string>, xs: seq<Arrival>)
    requires |seen| <= SEEN_KEEP && DistinctIds(Events(xs)) && NoneRemembered(seen, Events(xs))
    ensures CallsOf(seen, known, xs) == Plain(known, xs)
  {
    DistinctIsUnremembered(seen, known, Events(xs));
    ReplayExactly(seen, known, xs);
  }

  lemma DistinctIsUnremembered(seen: seq<SignalId>, known: set<string>, es: seq<Event>)
    requires DistinctIds(es) && NoneRemembered(seen, es)
    ensures Unremembered(seen, known, es)
  {
    forall i | 0 <= i < |es| && es[i].Signal? && es[i].symbol in known
      ensures es[i].id !in Last(seen + KnownIds(known, es[..i]), SEEN_KEEP)
    {
      var ids := KnownIds(known, es[..i]);
      KnownIdsAreSignals(known, es[..i]);
      assert forall j :: 0 <= j < i ==> es[..i][j] == es[j];
      LastAreMembers(seen, ids, es[i].id);
    }
  }

  lemma LastAreMembers(seen: seq<SignalId>, ids: seq<SignalId>, id: SignalId)
    requires id !in seen && id !in ids
    ensures id !in Last(seen + ids, SEEN_KEEP)
  {
  }

  // ------------------------------------------------------------- hub to node

  /** The frames sent, each arriving with its age. */
  function Delivered(fs: seq<Frame>, ages: seq<real>): seq<Arrival>
    requires |fs| == |ages|
  {
    if fs == [] then []
    else Delivered(fs[..|fs| - 1], ages[..|ages| - 1]) + Arrivals(fs[|fs| - 1].events, ages[|ages| - 1])
  }

  /** The decisions among the calls, as the runner would have given them to a local account. */
  function Acted(calls: seq<AccountCall>): seq<AccountCall> {
    if calls == [] then []
    else
      var c := calls[|calls| - 1];
      Acted(calls[..|calls| - 1]) + if c.Began? || c.Ticked? then [] else [c]
  }

  /** The arrivals that carry a decision. */
  function Decided(xs: seq<Arrival>): seq<Arrival> {
    if xs == [] then []
    else Decided(xs[..|xs| - 1]) + if Decision(xs[|xs| - 1].event) then [xs[|xs| - 1]] else []
  }

  /** What each decision asks of a node that knows these symbols: exits always, signals unless late. */
  function Meant(known: set<string>, xs: seq<Arrival>): seq<AccountCall> {
    if xs == [] then [] else Meant(known, xs[..|xs| - 1]) + MeantBy(known, xs[|xs| - 1])
  }

  function MeantBy(known: set<string>, x: Arrival): (calls: seq<AccountCall>)
    ensures |calls| <= 1
  {
    var e := x.event;
    if e.Exit? && e.symbol in known then [Exited(e.symbol, e.price, e.reason)]
    else if e.Signal? && e.symbol in known then
      if x.age > MAX_SIGNAL_AGE then [Told(e.id)] else [Signalled(e.id, e.symbol, e.body)]
    else []
  }

  /** The decisions themselves, for these symbols. */
  function Obeyed(known: set<string>, es: seq<Event>): seq<AccountCall> {
    if es == [] then [] else Obeyed(known, es[..|es| - 1]) + MeantBy(known, Arrival(es[|es| - 1], 0.0))
  }

  lemma {:induction false} DeliveredEvents(fs: seq<Frame>, ages: seq<real>)
    requires |fs| == |ages|
    ensures Events(Delivered(fs, ages)) == Flat(fs)
  {
    if fs != [] {
      var n := |fs| - 1;
      DeliveredEvents(fs[..n], ages[..n]);
      EventsAppend(Delivered(fs[..n], ages[..n]), fs[n].events, ages[n]);
    }
  }

  lemma {:induction false} ArrivalAges(es: seq<Event>, age: real)
    ensures forall i :: 0 <= i < |Arrivals(es, age)| ==> Arrivals(es, age)[i].age == age
  {
    if es != [] { ArrivalAges(es[..|es| - 1], age); }
  }

  lemma {:induction false} DeliveredAges(fs: seq<Frame>, ages: seq<real>, limit: real)
    requires |fs| == |ages| && forall i :: 0 <= i < |ages| ==> ages[i] <= limit
    ensures forall i :: 0 <= i < |Delivered(fs, ages)| ==> Delivered(fs, ages)[i].age <= limit
  {
    if fs != [] {
      var n := |fs| - 1;
      DeliveredAges(fs[..n], ages[..n], limit);
      ArrivalAges(fs[n].events, ages[n]);
    }
  }

  /** Distinctness is a matter of the decisions alone. */
  lemma {:induction false} DecisionsKeepSignals(es: seq<Event>)
    ensures forall e :: e in Decisions(es) <==> e in es && Decision(e)
    ensures DistinctIds(es) <==> DistinctIds(Decisions(es))
  {
    if es != [] {
      var init, e := es[..|es| - 1], es[|es| - 1];
      DecisionsKeepSignals(init);
      assert es == init + [e];
      DistinctSnoc(init, e);
      DistinctSnoc(Decisions(init), e);
      assert Decisions(es) == if Decision(e) then Decisions(init) + [e] else Decisions(init);
    }
  }

  lemma DistinctSnoc(es: seq<Event>, e: Event)
    ensures DistinctIds(es + [e])
            <==> DistinctIds(es) && (e.Signal? ==> forall x :: x in es && x.Signal? ==> x.id != e.id)
  {
    var all := es + [e];
    assert forall i :: 0 <= i < |es| ==> all[i] == es[i];
    assert all[|es|] == e;
    if DistinctIds(all) {
      assert forall i, j :: 0 <= i < j < |es| ==> all[i] == es[i] && all[j] == es[j];
    }
  }

  lemma ActedSnoc(calls: seq<AccountCall>, more: seq<AccountCall>)
    requires |more| <= 1
    ensures Acted(calls + more) == Acted(calls) + Acted(more)
  {
    if more == [] {
      assert calls + more == calls;
    } else {
      assert (calls + more)[..|calls|] == calls && more[..0] == [];
    }
  }

  /** One event by itself makes an account act exactly when it is a decision for its symbols. */
  lemma PlainAct(known: set<string>, x: Arrival)
    ensures Acted(Asks([], known, x.event, x.age)) == MeantBy(known, x)
    ensures !Decision(x.event) ==> MeantBy(known, x) == []
  {
    var asks := Asks([], known, x.event, x.age);
    assert asks != [] ==> asks[..0] == [];
  }

  lemma {:induction false} PlainActs(known: set<string>, xs: seq<Arrival>)
    ensures Acted(Plain(known, xs)) == Meant(known, Decided(xs))
  {
    hide Asks, MeantBy;
    if xs != [] {
      var init, x := xs[..|xs| - 1], xs[|xs| - 1];
      PlainActs(known, init);
      ActedSnoc(Plain(known, init), Asks([], known, x.event, x.age));
      PlainAct(known, x);
      assert Acted(Plain(known, xs)) == Meant(known, Decided(init)) + MeantBy(known, x);
      if Decision(x.event) {
        assert (Decided(init) + [x])[..|Decided(init)|] == Decided(init);
      } else {
        assert Decided(init) + [] == Decided(init);
      }
    }
  }

  lemma {:induction false} DecidedEvents(xs: seq<Arrival>)
    ensures Events(Decided(xs)) == Decisions(Events(xs))
  {
    if xs != [] {
      var init, x := xs[..|xs| - 1], xs[|xs| - 1];
      DecidedEvents(init);
      EventsSnoc(init, x);
      DecisionsAppend(Events(init), [x.event]);
      assert Decisions([x.event]) == if Decision(x.event) then [x.event] else [] by { assert [x.event][..0] == []; }
      hide Events, Decisions;
      if Decision(x.event) {
        EventsSnoc(Decided(init), x);
      } else {
        assert Decided(init) + [] == Decided(init) && Decisions(Events(init)) + [] == Decisions(Events(init));
      }
      assert init + [x] == xs;
    }
  }

  lemma EventsSnoc(xs: seq<Arrival>, x: Arrival)
    ensures Events(xs + [x]) == Events(xs) + [x.event]
  {
    assert (xs + [x])[..|xs|] == xs;
  }

  /** From the runner's call to the account: on a connection that stays up, whatever poll frames are
      dropped, however late the frames are and whatever the node remembers, the decisions it is sent
      are exactly the runner's, in the runner's order; and it replays the stream filtered by its own
      symbols and by lateness alone if and only if no signal repeats one of the 500 ids before it. Then
      each exit is acted on, and each signal, or told late when its frame was. */
  lemma HubToAccount(ss: seq<Step>, ages: seq<real>, seen: seq<SignalId>, known: set<string>)
    requires var r := Run(Fresh(), ss); r.wire.connected && |ages| == |r.wire.sent|
    requires |seen| <= SEEN_KEEP
    ensures var xs := Delivered(Run(Fresh(), ss).wire.sent, ages);
            && Events(Decided(xs)) == Decisions(AsEvents(Calls(Fresh(), ss)))
            && (CallsOf(seen, known, xs) == Plain(known, xs) <==> Unremembered(seen, known, Events(xs)))
            && (NoneRemembered(seen, Events(xs)) ==> Unremembered(seen, known, Events(xs)))
            && (Unremembered(seen, known, Events(xs)) ==>
                  Acted(CallsOf(seen, known, xs)) == Meant(known, Decided(xs)))
  {
    var sent, cs := Run(Fresh(), ss).wire.sent, Calls(Fresh(), ss);
    var xs := Delivered(sent, ages);
    hide Run, Calls, AsEvents, Unremembered, NoneRemembered;
    DeliveredEvents(sent, ages);
    DecisionsArrive(ss);
    SignalsAreNumbered(cs);
    DecisionsKeepSignals(AsEvents(cs));
    DecisionsKeepSignals(Flat(sent));
    ReplayExactly(seen, known, xs);
    if NoneRemembered(seen, Events(xs)) { DistinctIsUnremembered(seen, known, Events(xs)); }
    PlainActs(known, xs);
    DecidedEvents(xs);
  }

  /** The stream of a new connection numbers its signals from one again: when a node still remembers
      the first id of an earlier connection for the same symbol and bar, it drops the new one
      unanswered. */
  lemma RestartedNumberIsDropped(symbol: string, barTs: int, body: int, age: real)
    ensures var id := SignalId(symbol, barTs, 1);
            var xs := [Arrival(Signal(id, symbol, body), age)];
            && AsEvents([OnSignal(symbol, barTs, body, 0)]) == Events(xs)
            && CallsOf([id], {symbol}, xs) == [] && Plain({symbol}, xs) != []
  {
    var xs := [Arrival(Signal(SignalId(symbol, barTs, 1), symbol, body), age)];
    assert xs[..0] == [];
  }

  lemma {:induction false} DecidedAges(xs: seq<Arrival>, limit: real)
    requires forall i :: 0 <= i < |xs| ==> xs[i].age <= limit
    ensures forall i :: 0 <= i < |Decided(xs)| ==> Decided(xs)[i].age <= limit
  {
    if xs != [] { DecidedAges(xs[..|xs| - 1], limit); }
  }

  lemma {:induction false} PromptIsObeyed(known: set<string>, xs: seq<Arrival>)
    requires forall i :: 0 <= i < |xs| ==> xs[i].age <= MAX_SIGNAL_AGE
    ensures Meant(known, xs) == Obeyed(known, Events(xs))
  {
    if xs != [] {
      var init, x := xs[..|xs| - 1], xs[|xs| - 1];
      PromptIsObeyed(known, init);
      assert Events(xs)[..|Events(init)|] == Events(init);
    }
  }

  /** With no frame late and no signal remembered the accounts act on exactly the runner's signals and exits
      for their symbols. */
  lemma HubToAccountInTime(ss: seq<Step>, ages: seq<real>, seen: seq<SignalId>, known: set<string>)
    requires var r := Run(Fresh(), ss); r.wire.connected && |ages| == |r.wire.sent|
    requires |seen| <= SEEN_KEEP && NoneRemembered(seen, Flat(Run(Fresh(), ss).wire.sent))
    requires forall i :: 0 <= i < |ages| ==> ages[i] <= MAX_SIGNAL_AGE
    ensures var xs := Delivered(Run(Fresh(), ss).wire.sent, ages);
            Acted(CallsOf(seen, known, xs)) == Obeyed(known, Decisions(AsEvents(Calls(Fresh(), ss))))
  {
    var xs := Delivered(Run(Fresh(), ss).wire.sent, ages);
    hide Run, Calls, AsEvents, Acted, CallsOf;
    HubToAccount(ss, ages, seen, known);
    DeliveredEvents(Run(Fresh(), ss).wire.sent, ages);
    DeliveredAges(Run(Fresh(), ss).wire.sent, ages, MAX_SIGNAL_AGE);
    DecidedAges(xs, MAX_SIGNAL_AGE);
    PromptIsObeyed(known, Decided(xs));
  }

  // ------------------------------------------------------------- lateness

  /** Clock differences of frames with these delays under a constant skew. */
  function Skewed(delays: seq<real>, skew: real): (r: seq<real>)
    ensures |r| == |delays| && forall i :: 0 <= i < |r| ==> r[i] == delays[i] + skew
  {
    seq(|delays|, i requires 0 <= i < |delays| => delays[i] + skew)
  }

  function AgeOf(differences: seq<real>): real
    requires differences != []
  {
    Age(Last(differences, AGE_WINDOW))
  }

  lemma MinShift(xs: seq<real>, ys: seq<real>, skew: real)
    requires |xs| == |ys| > 0 && forall i :: 0 <= i < |xs| ==> ys[i] == xs[i] + skew
    ensures Min(ys) == Min(xs) + skew
  {
  }

  /** A node whose clock is off by any constant computes the same ages. */
  lemma SkewDoesNotMatter(delays: seq<real>, skew: real)
    requires delays != []
    ensures AgeOf(Skewed(delays, skew)) == AgeOf(delays)
  {
    var xs, ys := Last(delays, AGE_WINDOW), Last(Skewed(delays, skew), AGE_WINDOW);
    MinShift(xs, ys, skew);
  }

  /** An age is the delay in excess of the best of the last 60 frames: never negative, never more
      than the delay itself, and over a limit exactly when a recent frame was faster by more. */
  lemma AgeExactly(delays: seq<real>, skew: real, limit: real)
    requires delays != [] && limit >= 0.0 && forall i :: 0 <= i < |delays| ==> delays[i] >= 0.0
    ensures var last, age := delays[|delays| - 1], AgeOf(Skewed(delays, skew));
            && 0.0 <= age <= last
            && (age > limit <==>
                  exists i :: 0 <= i < |delays| && i >= |delays| - 60 && delays[i] + limit < last)
  {
    SkewDoesNotMatter(delays, skew);
    var d, start := delays, if |delays| <= AGE_WINDOW then 0 else |delays| - AGE_WINDOW;
    assert Last(d, AGE_WINDOW) == d[start..] by { assert d[0..] == d; }
    hide Skewed;
    AgeOfRecent(d, start, limit);
  }

  /** The same for the frames from `start` on. */
  lemma AgeOfRecent(delays: seq<real>, start: nat, limit: real)
    requires start < |delays| && limit >= 0.0 && forall i :: 0 <= i < |delays| ==> delays[i] >= 0.0
    ensures var last, age := delays[|delays| - 1], Age(delays[start..]);
            && 0.0 <= age <= last
            && (age > limit <==> exists i :: start <= i < |delays| && delays[i] + limit < last)
  {
    var recent := delays[start..];
    var m := Min(recent);
    hide Min;
    assert recent[|recent| - 1] == delays[|delays| - 1];
    assert recent[|recent| - 1] in recent;
    var i :| 0 <= i < |recent| && recent[i] == m;
    assert delays[start + i] == m;
    forall j | start <= j < |delays| ensures delays[j] >= m { assert recent[j - start] in recent; }
  }

  /** So a new signal that took at most five seconds is acted on, whatever the two clocks say. */
  lemma PromptIsNeverLate(seen: seq<SignalId>, known: set<string>, e: Event, delays: seq<real>, skew: real)
    requires New(seen, known, e)
    requires delays != [] && (forall i :: 0 <= i < |delays| ==> delays[i] >= 0.0)
             && delays[|delays| - 1] <= MAX_SIGNAL_AGE
    ensures Asks(seen, known, e, AgeOf(Skewed(delays, skew))) == [Signalled(e.id, e.symbol, e.body)]
  {
    AgeExactly(delays, skew, MAX_SIGNAL_AGE);
  }
}
