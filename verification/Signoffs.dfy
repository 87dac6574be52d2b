/** What the server hands to the WHOWAS store in the course of a run. */
module Signoffs {
  import opened IrcText
  import IrcMessage
  import opened ServerState
  import opened SweepOrder
  import Registration
  import Runs
  import Whowas

  /** A client as it is remembered. */
  function SignoffOf(c: Client, serverName: string, now: int): Whowas.Entry
  {
    Whowas.Entry(c.nick, c.user, c.host, c.realname, serverName, now)
  }

  /** A rename that takes place leaves the old nick behind; a first nick leaves nothing. */
  function NickSignoffs(s: State, id: int, params: seq<string>, serverName: string, now: int): seq<Whowas.Entry>
    requires id in s.clients
  {
    if params != [] && s.clients[id].nick != "" && Registration.Nick(s, id, params[0]) != s then
      [SignoffOf(s.clients[id], serverName, now)]
    else []
  }

  function VerbSignoffs(s: State, id: int, v: Runs.Verb, params: seq<string>, serverName: string, now: int)
    : seq<Whowas.Entry>
    requires id in s.clients
  {
    if v == Runs.Nick then NickSignoffs(s, id, params, serverName, now) else []
  }

  function LineSignoffs(s: State, id: int, line: string, serverName: string, now: int): seq<Whowas.Entry>
    requires id in s.clients
  {
    var msg := IrcMessage.Tokenize(line);
    match Runs.Gate(s.clients[id].registered, msg.command, |msg.params|)
    case Accepted(v) => VerbSignoffs(s, id, v, msg.params, serverName, now)
    case _ => []
  }

  /** The clients of a sweep that visits them in that order, the last of them first. */
  function SweepSignoffs(s: State, order: seq<int>, serverName: string, now: int): seq<Whowas.Entry>
    requires Ids(order) <= s.clients.Keys
  {
    seq(|order|, i requires 0 <= i < |order| =>
      var id := order[|order| - 1 - i];
      assert id in Ids(order);
      SignoffOf(s.clients[id], serverName, now))
  }

  lemma SweepSignoffsSnoc(s: State, order: seq<int>, id: int, serverName: string, now: int)
    requires Ids(order) <= s.clients.Keys && id in s.clients
    ensures Ids(order + [id]) == Ids(order) + {id}
    ensures SweepSignoffs(s, order + [id], serverName, now) ==
            [SignoffOf(s.clients[id], serverName, now)] + SweepSignoffs(s, order, serverName, now)
  {
    assert forall x :: x in order + [id] <==> x in order || x == id;
  }

  /** The records of one step, newest first. The order within a sweep is the table's. */
  ghost predicate StepSignoffs(s: State, e: Runs.Event, serverName: string, log: seq<Whowas.Entry>)
  {
    match e
    case Line(id, text, now) => log == if id in s.clients then LineSignoffs(s, id, text, serverName, now) else []
    case Sweep(now) =>
      exists order :: NoDup(order) && Ids(order) == Runs.Marked(s) && log == SweepSignoffs(s, order, serverName, now)
    case _ => log == []
  }

  /** The records of a run, newest first. */
  ghost predicate RunSignoffs(s: State, es: seq<Runs.Event>, serverName: string, log: seq<Whowas.Entry>)
    decreases |es|
  {
    if es == [] then log == []
    else
      exists later, first :: log == later + first && StepSignoffs(s, es[0], serverName, first) &&
                             RunSignoffs(Runs.Step(s, es[0]), es[1..], serverName, later)
  }

  /** t is where the run leads, and log what it leaves behind. */
  ghost predicate Follows(s: State, es: seq<Runs.Event>, t: State, serverName: string, log: seq<Whowas.Entry>)
  {
    t == Runs.Run(s, es) && RunSignoffs(s, es, serverName, log)
  }

  lemma FollowsStart(s: State, serverName: string)
    ensures Follows(s, [], s, serverName, [])
  {
  }

  lemma FollowsStep(s: State, es: seq<Runs.Event>, t: State, e: Runs.Event, serverName: string,
                    log: seq<Whowas.Entry>, last: seq<Whowas.Entry>)
    requires Follows(s, es, t, serverName, log) && StepSignoffs(t, e, serverName, last)
    ensures Follows(s, es + [e], Runs.Step(t, e), serverName, last + log)
  {
    RunSignoffsSnoc(s, es, e, serverName, log, last);
  }

  lemma {:induction false} RunSignoffsSnoc(s: State, es: seq<Runs.Event>, e: Runs.Event, serverName: string,
                                           log: seq<Whowas.Entry>, last: seq<Whowas.Entry>)
    requires RunSignoffs(s, es, serverName, log) && StepSignoffs(Runs.Run(s, es), e, serverName, last)
    ensures RunSignoffs(s, es + [e], serverName, last + log)
    ensures Runs.Run(s, es + [e]) == Runs.Step(Runs.Run(s, es), e)
    decreases |es|
  {
    var all := es + [e];
    if es == [] {
      assert all == [e] && all[1..] == [];
      assert last + log == [] + last;
      assert RunSignoffs(Runs.Step(s, e), [], serverName, []);
    } else {
      var later, first :| log == later + first && StepSignoffs(s, es[0], serverName, first) &&
                          RunSignoffs(Runs.Step(s, es[0]), es[1..], serverName, later);
      assert all[0] == es[0] && all[1..] == es[1..] + [e];
      RunSignoffsSnoc(Runs.Step(s, es[0]), es[1..], e, serverName, later, last);
      Prepend(last, later, first);
    }
  }
}
