/** Registration and ping timeouts, over whole runs with a monotone clock. */
module Liveness {
  import opened Wrappers

  // Durations in clock ticks, a millisecond each; the clock is only ever subtracted and compared.
  const PING_INTERVAL := 60_000
  const PING_TIMEOUT := 120_000
  const CONNECT_TIMEOUT := 60_000

  datatype Reason = Open | RegistrationTimeout | PingTimeout | Other

  /** The timing fields of a client. reason is Open as long as it is not marked for close. */
  datatype Client = Client(connectedAt: int, lastActiveAt: int, pingSentAt: int,
                           pingPending: bool, registered: bool, reason: Reason)

  function Accepted(now: int): Client
  {
    Client(now, now, 0, false, false, Open)
  }

  /** Data read from the client, or a PONG line. */
  function Heard(c: Client, now: int): Client
  {
    c.(lastActiveAt := now, pingPending := false)
  }

  /** One client under the reaper; overflow says that the ping does not fit its send buffer. */
  function Reap(c: Client, now: int, overflow: bool): Client
  {
    if c.reason != Open then c
    else if !c.registered then
      if now - c.connectedAt > CONNECT_TIMEOUT then c.(reason := RegistrationTimeout) else c
    else if c.pingPending then
      if now - c.pingSentAt > PING_TIMEOUT - PING_INTERVAL then c.(reason := PingTimeout) else c
    else if now - c.lastActiveAt > PING_INTERVAL then
      c.(pingPending := true, pingSentAt := now, reason := if overflow then Other else Open)
    else c
  }

  function ReapAll(cs: map<int, Client>, now: int, overflow: set<int>): map<int, Client>
  {
    map cid | cid in cs :: Reap(cs[cid], now, cid in overflow)
  }

  class Reaper {
    var clients: map<int, Client>
    var lastReapAt: int

    constructor (now: int)
      ensures clients == map[] && lastReapAt == now
    {
      clients, lastReapAt := map[], now;
    }

    /** The scan treats every client once, in whatever order the table yields them. */
    method ReapTimeouts(now: int, overflow: set<int>)
      modifies this
      ensures lastReapAt == now
      ensures clients == ReapAll(old(clients), now, overflow)
    {
      var rest: set<int> := clients.Keys;
      while rest != {}
        invariant clients.Keys == old(clients).Keys && rest <= clients.Keys
        invariant forall cid :: cid in rest ==> clients[cid] == old(clients)[cid]
        invariant forall cid :: cid in clients && cid !in rest ==>
                    clients[cid] == ReapAll(old(clients), now, overflow)[cid]
        decreases rest
      {
        var cid := AnyOf(rest);
        rest := rest - {cid};
        var c := clients[cid];
        if c.reason != Open {
          continue;
        }
        if !c.registered {
          if now - c.connectedAt > CONNECT_TIMEOUT {
            clients := clients[cid := c.(reason := RegistrationTimeout)];
          }
          continue;
        }
        if c.pingPending {
          if now - c.pingSentAt > PING_TIMEOUT - PING_INTERVAL {
            clients := clients[cid := c.(reason := PingTimeout)];
          }
        } else if now - c.lastActiveAt > PING_INTERVAL {
          if cid in overflow {
            c := c.(reason := Other);
          }
          clients := clients[cid := c.(pingPending := true, pingSentAt := now)];
        }
      }
      assert clients.Keys == ReapAll(old(clients), now, overflow).Keys;
      assert forall cid :: cid in clients ==> clients[cid] == ReapAll(old(clients), now, overflow)[cid];
      lastReapAt := now;
    }

    method Pong(cid: int, now: int)
      requires cid in clients
      modifies this
      ensures clients == old(clients)[cid := Heard(old(clients)[cid], now)]
      ensures lastReapAt == old(lastReapAt)
    {
      clients := clients[cid := clients[cid].(lastActiveAt := now, pingPending := false)];
    }
  }

  // ---------------------------------------------------------------- runs

  datatype Event = Input(at: int) | Register(at: int) | Reaped(at: int, overflow: bool) | CloseOther(at: int)

  function Step(c: Client, e: Event): Client
  {
    match e
    case Input(t) => Heard(c, t)
    case Register(_) => c.(registered := true)
    case Reaped(t, overflow) => Reap(c, t, overflow)
    case CloseOther(_) => c.(reason := Other)
  }

  function Run(c: Client, es: seq<Event>): Client
  {
    if es == [] then c else Step(Run(c, es[..|es| - 1]), es[|es| - 1])
  }

  /** The clock never runs backwards. */
  ghost predicate Monotone(start: int, es: seq<Event>)
  {
    && (forall i :: 0 <= i < |es| ==> start <= es[i].at)
    && (forall i, j :: 0 <= i < j < |es| ==> es[i].at <= es[j].at)
  }

  /** When the client was last heard: its last input, or the moment it connected. */
  function LastHeard(start: int, es: seq<Event>): int
  {
    if es == [] then start
    else if es[|es| - 1].Input? then es[|es| - 1].at
    else LastHeard(start, es[..|es| - 1])
  }

  function LastReap(start: int, es: seq<Event>): int
  {
    if es == [] then start
    else if es[|es| - 1].Reaped? then es[|es| - 1].at
    else LastReap(start, es[..|es| - 1])
  }

  lemma {:induction false} TimingInvariant(start: int, es: seq<Event>)
    requires Monotone(start, es)
    ensures var c := Run(Accepted(start), es);
            && c.connectedAt == start
            && c.lastActiveAt == LastHeard(start, es)
            && (c.pingPending ==> c.pingSentAt - c.lastActiveAt > PING_INTERVAL)
            && (c.pingPending && c.reason == Open && c.registered ==>
                  LastReap(start, es) - c.pingSentAt <= PING_TIMEOUT - PING_INTERVAL)
            && (c.pingPending ==> c.pingSentAt <= LastReap(start, es))
            && (c.pingPending ==> c.registered)
    ensures start <= LastReap(start, es) && start <= LastHeard(start, es)
    ensures es != [] ==> LastReap(start, es) <= es[|es| - 1].at && LastHeard(start, es) <= es[|es| - 1].at
  {
    if es != [] {
      TimingInvariant(start, es[..|es| - 1]);
    }
  }

  /** A client closed for "Ping timeout" has been silent for more than 120 seconds. */
  lemma PingTimeoutMeansSilence(start: int, es: seq<Event>, now: int, overflow: bool)
    requires Monotone(start, es + [Reaped(now, overflow)])
    requires Run(Accepted(start), es).reason == Open
    requires Run(Accepted(start), es + [Reaped(now, overflow)]).reason == PingTimeout
    ensures now - LastHeard(start, es) > PING_TIMEOUT
  {
    var all := es + [Reaped(now, overflow)];
    assert all[..|all| - 1] == es;
    assert forall i :: 0 <= i < |es| ==> all[i] == es[i];
    TimingInvariant(start, es);
  }

  /** Reaps come at most gap apart, from the one at last to the moment end. */
  predicate Dense(es: seq<Event>, last: int, gap: int, end: int)
    decreases |es|
  {
    if es == [] then end - last <= gap
    else if es[0].Reaped? then es[0].at - last <= gap && Dense(es[1..], es[0].at, gap, end)
    else Dense(es[1..], last, gap, end)
  }

  predicate Silent(es: seq<Event>)
  {
    forall i :: 0 <= i < |es| ==> !es[i].Input?
  }

  /** Where a silent client stands after the reap at last, if it is not closed yet. */
  ghost predicate Pursued(c: Client, since: int, last: int, gap: int)
  {
    && c.registered
    && (c.reason == Open && !c.pingPending ==> c.lastActiveAt <= since && last - since <= PING_INTERVAL)
    && (c.reason == Open && c.pingPending ==>
          && c.pingSentAt - since <= PING_INTERVAL + gap
          && last - c.pingSentAt <= PING_TIMEOUT - PING_INTERVAL)
  }

  function RunOn(c: Client, es: seq<Event>): Client
    decreases |es|
  {
    if es == [] then c else RunOn(Step(c, es[0]), es[1..])
  }

  lemma {:induction false} RunConcat(c: Client, es: seq<Event>, fs: seq<Event>)
    ensures Run(c, es + fs) == RunOn(Run(c, es), fs)
    decreases |fs|
  {
    if fs == [] {
      assert es + fs == es;
    } else {
      assert es + fs == (es + [fs[0]]) + fs[1..];
      RunConcat(c, es + [fs[0]], fs[1..]);
      assert (es + [fs[0]])[..|es|] == es;
    }
  }

  lemma {:induction false} SilenceIsFatal(c: Client, es: seq<Event>, since: int, last: int, gap: int, end: int)
    requires Pursued(c, since, last, gap) && Silent(es) && Dense(es, last, gap, end) && gap >= 0
    requires end > since + PING_TIMEOUT + 2 * gap
    ensures RunOn(c, es).reason != Open
    decreases |es|
  {
    if es != [] {
      var c' := Step(c, es[0]);
      var last' := if es[0].Reaped? then es[0].at else last;
      assert !es[0].Input?;
      SilenceIsFatal(c', es[1..], since, last', gap, end);
    }
  }

  /** Detection bound: a registered client heard no more after since is marked for close
      before any moment later than 120 seconds plus two reap gaps. */
  lemma SilentClientIsClosed(start: int, es: seq<Event>, later: seq<Event>, since: int, gap: int, end: int)
    requires Monotone(start, es) && start <= since && (es != [] ==> es[|es| - 1].at <= since)
    requires Run(Accepted(start), es).registered
    requires Silent(later) && gap >= 0 && Dense(later, LastReap(start, es), gap, end)
    requires end > since + PING_TIMEOUT + 2 * gap
    ensures Run(Accepted(start), es + later).reason != Open
  {
    TimingInvariant(start, es);
    RunConcat(Accepted(start), es, later);
    SilenceIsFatal(Run(Accepted(start), es), later, since, LastReap(start, es), gap, end);
  }

  predicate NeverRegisters(es: seq<Event>)
  {
    forall i :: 0 <= i < |es| ==> !es[i].Register?
  }

  lemma {:induction false} LoiteringIsFatal(c: Client, es: seq<Event>, last: int, gap: int, end: int)
    requires !c.registered && NeverRegisters(es) && Dense(es, last, gap, end)
    requires c.reason == Open ==> last - c.connectedAt <= CONNECT_TIMEOUT
    requires end > c.connectedAt + CONNECT_TIMEOUT + gap
    ensures RunOn(c, es).reason != Open
    decreases |es|
  {
    if es != [] {
      assert !es[0].Register?;
      LoiteringIsFatal(Step(c, es[0]), es[1..], if es[0].Reaped? then es[0].at else last, gap, end);
    }
  }

  /** A connection that never registers is closed one minute and one reap gap after it opened,
      however much it sends. */
  lemma UnregisteredIsClosed(start: int, es: seq<Event>, gap: int, end: int)
    requires NeverRegisters(es) && gap >= 0 && Dense(es, start, gap, end)
    requires end > start + CONNECT_TIMEOUT + gap
    ensures Run(Accepted(start), es).reason != Open
  {
    RunConcat(Accepted(start), [], es);
    assert [] + es == es;
    LoiteringIsFatal(Accepted(start), es, start, gap, end);
  }

  // ---------------------------------------------------------------- exactly whom a reap closes

  predicate HasRegistered(es: seq<Event>)
  {
    exists i :: 0 <= i < |es| && es[i].Register?
  }

  /** When the ping was sent that is still unanswered, if there is one: at the first reap that
      found the client registered and silent for more than a minute. */
  function Unanswered(start: int, es: seq<Event>): Option<int>
  {
    if es == [] then None
    else
      var init, e := es[..|es| - 1], es[|es| - 1];
      match e
      case Input(_) => None
      case Reaped(t, _) =>
        if Unanswered(start, init) == None && HasRegistered(init) && t - LastHeard(start, init) > 60_000 then Some(t)
        else Unanswered(start, init)
      case _ => Unanswered(start, init)
  }

  lemma HasRegisteredSnoc(es: seq<Event>)
    requires es != []
    ensures HasRegistered(es) <==> es[|es| - 1].Register? || HasRegistered(es[..|es| - 1])
  {
    if es[|es| - 1].Register? {
      assert es[|es| - 1].Register?;
    } else if HasRegistered(es) {
      var i :| 0 <= i < |es| && es[i].Register?;
      assert es[..|es| - 1][i].Register?;
    }
  }

  /** As long as a client is open, its fields say what has happened to it. */
  lemma {:induction false} FieldsExact(start: int, es: seq<Event>)
    ensures var c := Run(Accepted(start), es);
            && c.connectedAt == start && c.lastActiveAt == LastHeard(start, es)
            && (c.registered <==> HasRegistered(es))
            && (c.reason == Open ==>
                  if c.pingPending then Unanswered(start, es) == Some(c.pingSentAt)
                  else Unanswered(start, es) == None)
  {
    if es != [] {
      FieldsExact(start, es[..|es| - 1]);
      HasRegisteredSnoc(es);
    }
  }

  /** What a reap makes of an open client: it closes one that is not registered a minute after it
      connected, and one whose ping is unanswered for a minute; it pings one that has been silent
      for a minute, which closes it only if the ping does not fit its buffer; and no other. */
  lemma ReapExact(start: int, es: seq<Event>, now: int, overflow: bool)
    requires Run(Accepted(start), es).reason == Open
    ensures Run(Accepted(start), es + [Reaped(now, overflow)]).reason ==
            if !HasRegistered(es) then (if now - start > 60_000 then RegistrationTimeout else Open)
            else
              match Unanswered(start, es)
              case Some(t) => if now - t > 60_000 then PingTimeout else Open
              case None => if now - LastHeard(start, es) > 60_000 && overflow then Other else Open
  {
    FieldsExact(start, es);
    var all := es + [Reaped(now, overflow)];
    assert all[..|all| - 1] == es && all[|all| - 1] == Reaped(now, overflow);
  }
}
