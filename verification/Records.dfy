/** Exactly which clients a step hands to the WHOWAS store, and how they are remembered. */
module Records {
  import opened ServerState
  import opened SweepOrder
  import Effects
  import Registration
  import Runs
  import Signoffs
  import Whowas
  import Words

  /** A client as it was when it left its nick. */
  predicate Remembers(e: Whowas.Entry, c: Client, serverName: string, now: int)
  {
    e == Whowas.Entry(c.nick, c.user, c.host, c.realname, serverName, now)
  }

  /** The line takes id from one nick to another. */
  ghost predicate Renames(s: State, id: int, line: string)
  {
    && id in s.clients && Words.Says(line, "NICK") && Words.Params(line) != []
    && var c, nick := s.clients[id], Words.Params(line)[0];
       c.nick != "" && nick != c.nick && Effects.Free(s, id, nick)
  }

  lemma RenameTakesPlace(s: State, id: int, nick: string)
    requires IndexOk(s) && id in s.clients && s.clients[id].nick != ""
    ensures Registration.Nick(s, id, nick) != s <==> nick != s.clients[id].nick && Effects.Free(s, id, nick)
  {
    Effects.NickDoes(s, id, nick);
    var s' := Registration.Nick(s, id, nick);
    if nick != s.clients[id].nick && Effects.Free(s, id, nick) {
      assert s'.clients[id].nick == nick;
    } else if nick == s.clients[id].nick {
      assert s' == s;
    }
  }

  lemma VerbRecords(s: State, id: int, line: string, serverName: string, now: int)
    requires id in s.clients
    ensures Signoffs.LineSignoffs(s, id, line, serverName, now) ==
            if Words.Gives(s, id, line, Runs.Nick) then
              Signoffs.NickSignoffs(s, id, Words.Params(line), serverName, now)
            else []
  {
    Words.GivesGate(s, id, line, Runs.Nick);
  }

  /** A line leaves a record exactly if it is a rename: one, of the client as it was. */
  lemma RenamesRecorded(s: State, id: int, line: string, serverName: string, now: int)
    requires IndexOk(s) && id in s.clients
    ensures var log := Signoffs.LineSignoffs(s, id, line, serverName, now);
            if Renames(s, id, line) then |log| == 1 && Remembers(log[0], s.clients[id], serverName, now) else log == []
  {
    VerbRecords(s, id, line, serverName, now);
    if Words.Gives(s, id, line, Runs.Nick) && s.clients[id].nick != "" {
      RenameTakesPlace(s, id, Words.Params(line)[0]);
    }
  }

  function Backwards(order: seq<int>): seq<int>
  {
    seq(|order|, i requires 0 <= i < |order| => order[|order| - 1 - i])
  }

  lemma BackwardsIds(order: seq<int>)
    requires NoDup(order)
    ensures NoDup(Backwards(order)) && Ids(Backwards(order)) == Ids(order)
  {
    forall x
      ensures x in Backwards(order) <==> x in order
    {
      if x in order {
        var i :| 0 <= i < |order| && order[i] == x;
        assert Backwards(order)[|order| - 1 - i] == x;
      }
    }
  }

  lemma SweptEntry(s: State, order: seq<int>, serverName: string, now: int, i: nat)
    requires Ids(order) <= s.clients.Keys && i < |order|
    ensures Backwards(order)[i] in s.clients
    ensures Signoffs.SweepSignoffs(s, order, serverName, now)[i] ==
            Signoffs.SignoffOf(s.clients[Backwards(order)[i]], serverName, now)
  {
    assert order[|order| - 1 - i] in Ids(order);
  }

  /** A sweep leaves one record of each client that was marked, as it was. */
  lemma SweepRecorded(s: State, now: int, serverName: string, log: seq<Whowas.Entry>)
    requires Signoffs.StepSignoffs(s, Runs.Sweep(now), serverName, log)
    ensures exists order: seq<int> :: NoDup(order) && |order| == |log| &&
              Ids(order) == (set x | x in s.clients && s.clients[x].marked) &&
              forall i :: 0 <= i < |log| ==>
                order[i] in s.clients && Remembers(log[i], s.clients[order[i]], serverName, now)
  {
    var order :| NoDup(order) && Ids(order) == Runs.Marked(s) &&
                 log == Signoffs.SweepSignoffs(s, order, serverName, now);
    BackwardsIds(order);
    var rev := Backwards(order);
    forall i | 0 <= i < |log|
      ensures rev[i] in s.clients && Remembers(log[i], s.clients[rev[i]], serverName, now)
    {
      SweptEntry(s, order, serverName, now, i);
    }
  }

  /** No other step leaves any. */
  lemma NothingElseRecorded(s: State, e: Runs.Event, serverName: string, log: seq<Whowas.Entry>)
    requires Signoffs.StepSignoffs(s, e, serverName, log) && log != []
    ensures e.Sweep? || (e.Line? && e.id in s.clients)
  {
  }
}
