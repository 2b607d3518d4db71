/** What a node keeps besides its accounts: the acks it sends back, and the last prices. */
module HubAcks {
  import opened Common
  import opened Fleet
  import opened HubLink
  import opened HubProofs

  // ------------------------------------------------------------- acks

  /** A new signal is acked as entered exactly when it was in time and an account took it. */
  function AcksFor(ids: seq<SignalId>, age: real, takes: set<SignalId>): seq<Ack> {
    if ids == [] then []
    else
      var id := ids[|ids| - 1];
      AcksFor(ids[..|ids| - 1], age, takes) + [Ack(id, age <= 5.0 && id in takes)]
  }

  lemma AcksSnoc(ids: seq<SignalId>, id: SignalId, age: real, takes: set<SignalId>)
    ensures AcksFor(ids + [id], age, takes) == AcksFor(ids, age, takes) + [Ack(id, age <= 5.0 && id in takes)]
  {
    assert (ids + [id])[..|ids|] == ids;
  }

  lemma AckIs(seen: seq<SignalId>, known: set<string>, e: Event, age: real, takes: set<SignalId>)
    ensures AckFor(Asks(seen, known, e, age), takes)
            == if e.Signal? && e.symbol in known && e.id !in seen then [Ack(e.id, age <= 5.0 && e.id in takes)] else []
  {
  }

  lemma AfterSnoc(n: Node, known: set<string>, es: seq<Event>, age: real, takes: set<SignalId>)
    requires es != []
    ensures var init, e := es[..|es| - 1], es[|es| - 1];
            AfterAll(n, known, es, age, takes).acks
            == AfterAll(n, known, init, age, takes).acks
               + AckFor(Asks(RememberAll(n.seen, known, init), known, e, age), takes)
  {
    hide Asks, AckFor, Remember, RememberAll;
    SeenAfterAll(n, known, es[..|es| - 1], age, takes);
  }

  lemma IdsSnoc(seen: seq<SignalId>, known: set<string>, es: seq<Event>, age: real)
    requires es != []
    ensures var init, e := es[..|es| - 1], es[|es| - 1];
            Ids(seen, known, Arrivals(es, age))
            == Ids(seen, known, Arrivals(init, age))
               + if e.Signal? && e.symbol in known && e.id !in RememberAll(seen, known, init) then [e.id] else []
  {
    var init, e := es[..|es| - 1], es[|es| - 1];
    hide RememberAll;
    EventsAppend([], init, age);
    assert [] + Arrivals(init, age) == Arrivals(init, age) && Events([]) + init == init;
    assert Arrivals(es, age) == Arrivals(init, age) + [Arrival(e, age)];
    assert Arrivals(es, age)[..|Arrivals(init, age)|] == Arrivals(init, age);
  }

  lemma NoMoreAcks(acks: seq<Ack>, ids: seq<SignalId>)
    ensures acks + [] == acks && ids + [] == ids
  {
  }

  /** Every frame: one ack for each id accepted from it, in order, saying whether some account entered; none for
      any other event. */
  lemma {:induction false} FrameAcks(n: Node, known: set<string>, es: seq<Event>, age: real, takes: set<SignalId>)
    ensures AfterAll(n, known, es, age, takes).acks
            == n.acks + AcksFor(Ids(n.seen, known, Arrivals(es, age)), age, takes)
  {
    if es == [] {
      NoMoreAcks(n.acks, []);
    } else {
      hide *;
      var init, e := es[..|es| - 1], es[|es| - 1];
      var now, ids := RememberAll(n.seen, known, init), Ids(n.seen, known, Arrivals(init, age));
      FrameAcks(n, known, init, age, takes);
      AfterSnoc(n, known, es, age, takes);
      IdsSnoc(n.seen, known, es, age);
      AckIs(now, known, e, age, takes);
      NoMoreAcks(AcksFor(ids, age, takes), ids);
      Assoc(n.acks, AcksFor(ids, age, takes), AckFor(Asks(now, known, e, age), takes));
      if e.Signal? && e.symbol in known && e.id !in now { AcksSnoc(ids, e.id, age, takes); }
    }
  }

  // ------------------------------------------------------------- last prices

  function LastPrice(es: seq<Event>, x: string): Option<real> {
    if es == [] then None
    else
      var e := es[|es| - 1];
      if e.Tick? && e.symbol == x then Some(e.price) else LastPrice(es[..|es| - 1], x)
  }

  /** Each of the node's symbols is at the price of its last tick, or where it was before; others have no price. */
  lemma {:induction false} FramePrices(n: Node, known: set<string>, es: seq<Event>, age: real, takes: set<SignalId>,
                                       x: string)
    ensures var prices := AfterAll(n, known, es, age, takes).prices;
            if x in known && LastPrice(es, x).Some? then x in prices && prices[x] == LastPrice(es, x).value
            else (x in prices <==> x in n.prices) && (x in n.prices ==> prices[x] == n.prices[x])
  {
    hide Remember, AckFor, Asks;
    if es != [] { FramePrices(n, known, es[..|es| - 1], age, takes, x); }
  }
}
