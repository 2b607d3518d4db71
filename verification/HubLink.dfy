/** A node's side of the fleet link (hub_link.py, and FrameAge of fleet_protocol.py): events are
    replayed into the node's accounts in order, a signal at most once and never late. */
module HubLink {
  import opened Fleet

  const SEEN_KEEP: nat := 500
  const AGE_WINDOW: nat := 60
  const MAX_SIGNAL_AGE: real := 5.0

  /** What an account is asked to do; Told is a log line only. */
  datatype AccountCall =
    | Began(now: int, status: string)
    | Ticked(symbol: string, price: real, body: int)
    | Exited(symbol: string, price: real, reason: string)
    | Signalled(id: SignalId, symbol: string, body: int)
    | Told(id: SignalId)

  datatype Ack = Ack(id: SignalId, entered: bool)

  /** The last n of a list. */
  function Last<T>(xs: seq<T>, n: nat): (r: seq<T>)
    ensures |r| <= n && |r| <= |xs|
  {
    if |xs| <= n then xs else xs[|xs| - n..]
  }

  // ------------------------------------------------------------- one event

  /** The signal is for a symbol this node trades and its id is not remembered. */
  predicate New(seen: seq<SignalId>, known: set<string>, e: Event) { e.Signal? && e.symbol in known && e.id !in seen }

  function Remember(seen: seq<SignalId>, known: set<string>, e: Event): seq<SignalId> {
    if New(seen, known, e) then Last(seen + [e.id], SEEN_KEEP) else seen
  }

  /** What each account is asked for one event of a frame of the given age. */
  function Asks(seen: seq<SignalId>, known: set<string>, e: Event, age: real): (asks: seq<AccountCall>)
    ensures |asks| <= 1
  {
    match e
    case Begin(now, status) => [Began(now, status)]
    case Tick(x, p, body) => if x in known then [Ticked(x, p, body)] else []
    case Exit(x, p, why) => if x in known then [Exited(x, p, why)] else []
    case Signal(id, x, body) =>
      if !New(seen, known, e) then [] else if age > MAX_SIGNAL_AGE then [Told(id)] else [Signalled(id, x, body)]
  }

  function AckFor(asks: seq<AccountCall>, takes: set<SignalId>): seq<Ack> {
    if asks != [] && asks[0].Signalled? then [Ack(asks[0].id, asks[0].id in takes)]
    else if asks != [] && asks[0].Told? then [Ack(asks[0].id, false)]
    else []
  }

  /** A runner on a node: ids remembered, last prices, acks sent. */
  datatype Node = Node(seen: seq<SignalId>, prices: map<string, real>, acks: seq<Ack>)

  /** The node after one event, when `takes` are the signals some account enters. */
  function After(n: Node, known: set<string>, e: Event, age: real, takes: set<SignalId>): Node {
    Node(Remember(n.seen, known, e),
         if e.Tick? && e.symbol in known then n.prices[e.symbol := e.price] else n.prices,
         n.acks + AckFor(Asks(n.seen, known, e, age), takes))
  }

  function AfterAll(n: Node, known: set<string>, es: seq<Event>, age: real, takes: set<SignalId>): Node {
    if es == [] then n else After(AfterAll(n, known, es[..|es| - 1], age, takes), known, es[|es| - 1], age, takes)
  }

  /** What each account is asked for the events of one frame. */
  function AsksAll(seen: seq<SignalId>, known: set<string>, es: seq<Event>, age: real): seq<AccountCall> {
    if es == [] then []
    else
      var init := es[..|es| - 1];
      AsksAll(seen, known, init, age) + Asks(RememberAll(seen, known, init), known, es[|es| - 1], age)
  }

  function RememberAll(seen: seq<SignalId>, known: set<string>, es: seq<Event>): seq<SignalId> {
    if es == [] then seen
    else Remember(RememberAll(seen, known, es[..|es| - 1]), known, es[|es| - 1])
  }

  // ------------------------------------------------------------- the objects

  /** An engine, as far as the link sees it: what it is asked, and which signals it enters. */
  class Account {
    const takes: set<SignalId>
    var calls: seq<AccountCall>

    constructor (takes: set<SignalId>)
      ensures this.takes == takes && calls == []
    {
      this.takes := takes;
      calls := [];
    }

    method Handle(c: AccountCall) returns (entered: bool)
      modifies this
      ensures calls == old(calls) + [c]
      ensures entered == (c.Signalled? && c.id in takes)
    {
      calls := calls + [c];
      entered := c.Signalled? && c.id in takes;
    }
  }

  /** The signals at least one of these accounts enters. */
  function TakenBy(accounts: seq<Account>): set<SignalId> {
    set i, id | 0 <= i < |accounts| && id in accounts[i].takes :: id
  }

  class HubRunner {
    const known: set<string>
    var accounts: seq<Account>
    var seen: seq<SignalId>
    var prices: map<string, real>
    var acks: seq<Ack>

    constructor (known: set<string>)
      ensures this.known == known && accounts == [] && seen == [] && prices == map[] && acks == []
    {
      this.known := known;
      accounts, seen, prices, acks := [], [], map[], [];
    }

    function View(): Node reads this { Node(seen, prices, acks) }

    predicate Valid() reads this {
      && (forall i, j :: 0 <= i < j < |accounts| ==> accounts[i] != accounts[j])
      && |seen| <= SEEN_KEEP
    }

    method Subscribe(a: Account)
      requires Valid()
      modifies this`accounts
      ensures Valid() && accounts == if a in old(accounts) then old(accounts) else old(accounts) + [a]
    {
      if a !in accounts { accounts := accounts + [a]; }
    }

    /** One call to every account; true when any of them entered. */
    method Broadcast(c: AccountCall) returns (entered: bool)
      requires Valid()
      modifies accounts
      ensures forall a :: a in accounts ==> a.calls == old(a.calls) + [c]
      ensures entered == (c.Signalled? && c.id in TakenBy(accounts))
      ensures entered <==> c.Signalled? && exists a :: a in accounts && c.id in a.takes
    {
      entered := false;
      var i := 0;
      while i < |accounts|
        invariant 0 <= i <= |accounts|
        invariant forall j :: 0 <= j < i ==> accounts[j].calls == old(accounts[j].calls) + [c]
        invariant forall j :: i <= j < |accounts| ==> accounts[j].calls == old(accounts[j].calls)
        invariant entered <==> exists j :: 0 <= j < i && c.Signalled? && c.id in accounts[j].takes
      {
        var e := accounts[i].Handle(c);
        entered := entered || e;
        i := i + 1;
      }
    }

    method RememberId(id: SignalId)
      requires Valid() && id !in seen
      modifies this`seen
      ensures Valid() && seen == Last(old(seen) + [id], SEEN_KEEP)
    {
      seen := seen + [id];
      assert seen == (old(seen) + [id])[0..];
      while |seen| > SEEN_KEEP
        invariant exists k :: 0 <= k <= |old(seen)| + 1
                              && seen == (old(seen) + [id])[k..] && (k > 0 ==> |seen| >= SEEN_KEEP)
        decreases |seen|
      {
        seen := seen[1..];
      }
    }

    method HandleSignal(e: Event, age: real)
      requires Valid() && e.Signal?
      modifies this`seen, this`acks, accounts
      ensures Valid() && View() == After(old(View()), known, e, age, TakenBy(accounts))
      ensures forall a :: a in accounts ==> a.calls == old(a.calls) + Asks(old(seen), known, e, age)
    {
      if e.symbol !in known || e.id in seen { return; }
      RememberId(e.id);
      if age > MAX_SIGNAL_AGE {
        var _ := Broadcast(Told(e.id));
        acks := acks + [Ack(e.id, false)];
        return;
      }
      var entered := Broadcast(Signalled(e.id, e.symbol, e.body));
      acks := acks + [Ack(e.id, entered)];
    }

    method HandleEvent(e: Event, age: real)
      requires Valid()
      modifies this`seen, this`acks, this`prices, accounts
      ensures Valid() && View() == After(old(View()), known, e, age, TakenBy(accounts))
      ensures forall a :: a in accounts ==> a.calls == old(a.calls) + Asks(old(seen), known, e, age)
    {
      match e {
        case Begin(now, status) =>
          var _ := Broadcast(Began(now, status));
        case Tick(x, price, body) =>
          if x in known {
            prices := prices[x := price];
            var _ := Broadcast(Ticked(x, price, body));
          }
        case Exit(x, price, reason) =>
          if x in known {
            var _ := Broadcast(Exited(x, price, reason));
          }
        case Signal(_, _, _) =>
          HandleSignal(e, age);
      }
    }

    /** A frame's events, in order, to every account; nothing at all while there is none. */
    method HandleEvents(events: seq<Event>, age: real)
      requires Valid()
      modifies this`seen, this`acks, this`prices, accounts
      ensures Valid()
      ensures View()
              == if accounts == [] then old(View()) else AfterAll(old(View()), known, events, age, TakenBy(accounts))
      ensures forall a :: a in accounts ==> a.calls == old(a.calls) + AsksAll(old(seen), known, events, age)
    {
      if accounts == [] { return; }
      hide Asks, After, AckFor;
      ghost var takes := TakenBy(accounts);
      var i := 0;
      while i < |events|
        invariant 0 <= i <= |events| && Valid()
        invariant View() == AfterAll(old(View()), known, events[..i], age, takes)
        invariant forall a :: a in accounts ==> a.calls == old(a.calls) + AsksAll(old(seen), known, events[..i], age)
      {
        PrefixStep(old(View()), known, events, i, age, takes);
        HandleEvent(events[i], age);
        i := i + 1;
      }
      assert events[..i] == events;
    }
  }

  lemma PrefixStep(n: Node, known: set<string>, events: seq<Event>, i: nat, age: real, takes: set<SignalId>)
    requires i < |events|
    ensures var was := AfterAll(n, known, events[..i], age, takes);
            && AfterAll(n, known, events[..i + 1], age, takes) == After(was, known, events[i], age, takes)
            && AsksAll(n.seen, known, events[..i + 1], age)
               == AsksAll(n.seen, known, events[..i], age) + Asks(was.seen, known, events[i], age)
  {
    assert events[..i + 1][..i] == events[..i];
    SeenAfterAll(n, known, events[..i], age, takes);
  }

  lemma {:induction false} SeenAfterAll(n: Node, known: set<string>, es: seq<Event>, age: real, takes: set<SignalId>)
    ensures AfterAll(n, known, es, age, takes).seen == RememberAll(n.seen, known, es)
  {
    if es != [] { SeenAfterAll(n, known, es[..|es| - 1], age, takes); }
  }

  // ------------------------------------------------------------- lateness

  function Min(xs: seq<real>): (m: real)
    requires xs != []
    ensures m in xs && forall x :: x in xs ==> m <= x
  {
    if |xs| == 1 then xs[0]
    else
      var rest := Min(xs[..|xs| - 1]);
      var x := xs[|xs| - 1];
      assert xs == xs[..|xs| - 1] + [x];
      if x < rest then x else rest
  }

  function Age(samples: seq<real>): real
    requires samples != []
  {
    var late := samples[|samples| - 1] - Min(samples);
    if late < 0.0 then 0.0 else late
  }

  class FrameAge {
    var samples: seq<real>

    constructor ()
      ensures samples == []
    {
      samples := [];
    }

    /** Record a frame stamped hubTs that is read at nodeNow; its age in seconds. */
    method Observe(hubTs: real, nodeNow: real) returns (age: real)
      modifies this
      ensures samples == Last(old(samples) + [nodeNow - hubTs], AGE_WINDOW)
      ensures samples != [] && age == Age(samples)
    {
      samples := Last(samples + [nodeNow - hubTs], AGE_WINDOW);
      age := Age(samples);
    }
  }
}
