/** The hub's side of the fleet link (fleet_broadcast.py): each call the runner makes on a node's
    account becomes an event, events travel in numbered frames, and a slow node loses poll frames
    only. Times are milliseconds. */
module Fleet {

  datatype SignalId = SignalId(symbol: string, barTs: int, n: nat)

  /** What a frame carries; body is the part of a message nobody on the way looks at. */
  datatype Event =
    | Begin(now: int, status: string)
    | Tick(symbol: string, price: real, body: int)
    | Exit(symbol: string, price: real, reason: string)
    | Signal(id: SignalId, symbol: string, body: int)

  datatype Call =
    | BeginTick(now: int, status: string)
    | OnTick(symbol: string, price: real, body: int)
    | OnSignal(symbol: string, barTs: int, body: int, at: int)
    | OnExit(symbol: string, price: real, reason: string)
    | EndTick

  datatype Frame = Frame(number: nat, droppable: bool, events: seq<Event>)

  /** A node's socket: connected, frames not yet written, frames handed over in order. */
  datatype Wire = Wire(connected: bool, queued: nat, sent: seq<Frame>)

  datatype Remote = Remote(buf: seq<Event>, number: nat, sigN: nat, pending: map<string, int>, wire: Wire)

  datatype Step =
    | Do(call: Call, scheduled: bool)   // scheduled: the event loop took the write
    | Done(failed: bool)                // a queued write ended
    | Declined(symbol: string)          // the node's ack: not entered

  const MAX_QUEUED: nat := 200
  const PENDING_TTL: int := 20_000

  function Fresh(): Remote { Remote([], 0, 0, map[], Wire(true, 0, [])) }

  // ------------------------------------------------------------- the rules

  function Accepts(w: Wire, droppable: bool): bool { w.connected && !(droppable && w.queued >= MAX_QUEUED) }

  function Send(w: Wire, f: Frame, scheduled: bool): Wire {
    if !Accepts(w, f.droppable) then w
    else if !scheduled then w.(connected := false)
    else w.(queued := w.queued + 1, sent := w.sent + [f])
  }

  function WriteDone(w: Wire, failed: bool): Wire {
    w.(queued := if w.queued > 0 then w.queued - 1 else 0, connected := w.connected && !failed)
  }

  /** The event a call appends, when the next signal is number n. */
  function EventOf(c: Call, n: nat): seq<Event> {
    match c
    case BeginTick(now, status) => [Begin(now, status)]
    case OnTick(x, p, body) => [Tick(x, p, body)]
    case OnSignal(x, ts, body, _) => [Signal(SignalId(x, ts, n), x, body)]
    case OnExit(x, p, why) => [Exit(x, p, why)]
    case EndTick => []
  }

  predicate Decision(e: Event) { e.Signal? || e.Exit? }

  /** The frame a step hands to the socket. */
  function Attempt(r: Remote, s: Step): seq<Frame> {
    if s.Do? && r.wire.connected && !(s.call.BeginTick? || s.call.OnTick?) && r.buf + EventOf(s.call, r.sigN + 1) != []
    then [Frame(r.number + 1, s.call.EndTick?, r.buf + EventOf(s.call, r.sigN + 1))]
    else []
  }

  function Next(r: Remote, s: Step): Remote {
    match s
    case Do(c, scheduled) =>
      if !r.wire.connected then r
      else
        var frames := Attempt(r, s);
        var wire := if frames == [] then r.wire else Send(r.wire, frames[0], scheduled);
        Remote(if frames == [] then r.buf + EventOf(c, r.sigN + 1) else [],
               r.number + |frames|,
               if c.OnSignal? then r.sigN + 1 else r.sigN,
               if c.OnSignal? && wire.sent != r.wire.sent then r.pending[c.symbol := c.at]
               else if c.OnExit? then r.pending - {c.symbol}
               else r.pending,
               wire)
    case Done(failed) => r.(wire := WriteDone(r.wire, failed))
    case Declined(x) => r.(pending := r.pending - {x})
  }

  /** Does the node hold symbol x, as far as the hub can say? */
  predicate Holds(r: Remote, reported: set<string>, x: string, now: int) {
    x in reported || (x in r.pending && now - r.pending[x] < PENDING_TTL)
  }

  // ------------------------------------------------------------- the objects

  class NodeConnection {
    var connected: bool
    var queued: nat
    var sent: seq<Frame>

    constructor ()
      ensures View() == Wire(true, 0, [])
    {
      connected, queued, sent := true, 0, [];
    }

    function View(): Wire reads this { Wire(connected, queued, sent) }

    method SendFrame(f: Frame, scheduled: bool) returns (ok: bool)
      modifies this
      ensures View() == Send(old(View()), f, scheduled)
      ensures ok == (Accepts(old(View()), f.droppable) && scheduled)
    {
      if !connected { return false; }
      if f.droppable && queued >= MAX_QUEUED { return false; }
      queued := queued + 1;
      if !scheduled {
        connected := false;
        queued := queued - 1;
        return false;
      }
      sent := sent + [f];
      return true;
    }

    method Finish(failed: bool)
      modifies this
      ensures View() == WriteDone(old(View()), failed)
    {
      if queued > 0 { queued := queued - 1; }
      if failed { connected := false; }
    }
  }

  class RemoteAccount {
    const conn: NodeConnection
    var buf: seq<Event>
    var number: nat
    var sigN: nat
    var pending: map<string, int>

    constructor (conn: NodeConnection)
      ensures this.conn == conn && View() == Remote([], 0, 0, map[], conn.View())
    {
      this.conn := conn;
      buf, number, sigN, pending := [], 0, 0, map[];
    }

    function View(): Remote reads this, conn { Remote(buf, number, sigN, pending, conn.View()) }

    method Flush(droppable: bool, scheduled: bool) returns (ok: bool)
      modifies this`buf, this`number, conn
      ensures buf == [] && sigN == old(sigN) && pending == old(pending)
      ensures var f := Frame(old(number) + 1, droppable, old(buf));
              if old(buf) == [] then ok && number == old(number) && conn.View() == old(conn.View())
              else number == old(number) + 1 && conn.View() == Send(old(conn.View()), f, scheduled)
                   && ok == (Accepts(old(conn.View()), droppable) && scheduled)
    {
      if buf == [] { return true; }
      number := number + 1;
      var frame := Frame(number, droppable, buf);
      buf := [];
      ok := conn.SendFrame(frame, scheduled);
    }

    method DoBeginTick(now: int, status: string)
      modifies this`buf
      ensures View() == Next(old(View()), Do(BeginTick(now, status), true))
    {
      if !conn.connected { return; }
      buf := buf + [Begin(now, status)];
    }

    method DoTick(x: string, price: real, body: int)
      modifies this`buf
      ensures View() == Next(old(View()), Do(OnTick(x, price, body), true))
    {
      if !conn.connected { return; }
      buf := buf + [Tick(x, price, body)];
    }

    method DoSignal(x: string, barTs: int, body: int, at: int, scheduled: bool) returns (sent: bool)
      modifies this, conn
      ensures View() == Next(old(View()), Do(OnSignal(x, barTs, body, at), scheduled))
      ensures sent == (old(conn.connected) && scheduled)
    {
      if !conn.connected { return false; }
      sigN := sigN + 1;
      buf := buf + [Signal(SignalId(x, barTs, sigN), x, body)];
      sent := Flush(false, scheduled);
      if sent { pending := pending[x := at]; }
    }

    method DoExit(x: string, price: real, reason: string, reported: set<string>, now: int, scheduled: bool)
        returns (held: bool)
      modifies this, conn
      ensures View() == Next(old(View()), Do(OnExit(x, price, reason), scheduled))
      ensures held == (old(conn.connected) && Holds(old(View()), reported, x, now))
    {
      if !conn.connected { return false; }
      held := Holds(View(), reported, x, now);
      buf := buf + [Exit(x, price, reason)];
      var _ := Flush(false, scheduled);
      pending := pending - {x};
    }

    method DoEndTick(scheduled: bool) returns (ok: bool)
      modifies this`buf, this`number, conn
      ensures View() == Next(old(View()), Do(EndTick, scheduled))
      ensures ok == (old(conn.connected) && (old(buf) == [] || (scheduled && old(conn.queued) < 200)))
    {
      if !conn.connected { return false; }
      assert buf + [] == buf;
      ok := Flush(true, scheduled);
    }

    method OnAck(x: string, entered: bool)
      modifies this`pending
      ensures View() == if entered then old(View()) else Next(old(View()), Declined(x))
    {
      if !entered { pending := pending - {x}; }
    }
  }
}
