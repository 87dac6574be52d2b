/** What any step leaves of a channel: who comes in, on what terms, and what those who stay keep. */
module Outcomes {
  import opened Wrappers
  import opened IrcText
  import opened ServerState
  import opened Departures
  import opened SweepOrder
  import opened Membership
  import opened Modes
  import opened Authority
  import Histories
  import Runs
  import Words

  // ---------------------------------------------------------------- who comes in

  /** id puts itself on k by this line: registered, with the word JOIN and a list, other than 0,
      among whose channels that open to it is k, not too far back for the slots id has left. */
  predicate PutsOn(s: State, id: int, line: string, k: string)
  {
    && id in s.clients && s.clients[id].registered && Words.Says(line, "JOIN")
    && var params := Words.Params(line);
       params != [] && params[0] != "0" && Listed(s, id, params, k)
  }

  predicate Listed(s: State, id: int, params: seq<string>, k: string)
    requires id in s.clients
  {
    k in First(Wanted(s, id, JoinNames(params), GivenKeys(params), 0, {}), Slots(s, id))
  }

  /** The same of a step. */
  ghost predicate JoinsBy(s: State, e: Runs.Event, k: string, x: int)
  {
    e.Line? && e.id == x && PutsOn(s, x, e.text, k)
  }

  lemma JoinListEntry(s: State, id: int, params: seq<string>, k: string)
    requires id in s.clients && params != [] && params[0] != "0" && !On(s, k, id)
    ensures On(Membership.Join(s, id, params), k, id) <==> Listed(s, id, params, k)
  {
    JoinExact(s, id, params, k);
  }

  lemma NoOtherEntry(s: State, id: int, line: string, now: int, k: string, x: int)
    requires Inv(s) && id in s.clients && !On(s, k, x)
    ensures On(Runs.HandleLine(s, id, line, now), k, x) ==> x == id && Words.Gives(s, id, line, Runs.Join)
  {
    var s', v := Runs.HandleLine(s, id, line, now), Words.Command(s, id, line);
    LineLawful(s, id, line, now);
    if v.Some? && k in s.channels && On(s', k, x) {
      LawfulGain(s, s', k, id, v.value, Words.Params(line), now, x);
    }
  }

  lemma JoinZeroEntry(s: State, id: int, params: seq<string>, k: string, x: int)
    requires Inv(s) && id in s.clients && !On(s, k, x) && params != [] && params[0] == "0"
    ensures !On(Membership.Join(s, id, params), k, x)
  {
    PartAllKeys(s, id);
    if k in s.channels {
      PartAllAt(s, id, k);
      BereftFields(s.channels[k], id, s.clients.Keys);
    }
  }

  lemma JoinGiven(s: State, id: int, line: string)
    requires id in s.clients
    ensures Words.Gives(s, id, line, Runs.Join) <==>
            s.clients[id].registered && Words.Says(line, "JOIN") && Words.Params(line) != []
  {
  }

  lemma OwnJoinEntry(s: State, id: int, params: seq<string>, k: string)
    requires Inv(s) && id in s.clients && !On(s, k, id) && params != []
    ensures On(Membership.Join(s, id, params), k, id) <==> params[0] != "0" && Listed(s, id, params, k)
  {
    if params[0] == "0" {
      JoinZeroEntry(s, id, params, k, id);
    } else {
      JoinListEntry(s, id, params, k);
    }
  }

  lemma LineEntry(s: State, id: int, line: string, now: int, k: string, x: int)
    requires Inv(s) && id in s.clients && !On(s, k, x)
    ensures On(Runs.HandleLine(s, id, line, now), k, x) <==> x == id && PutsOn(s, id, line, k)
  {
    JoinGiven(s, id, line);
    if x == id && Words.Gives(s, id, line, Runs.Join) {
      Words.JoinGiven(s, id, line, now);
      OwnJoinEntry(s, id, Words.Params(line), k);
    } else {
      NoOtherEntry(s, id, line, now, k, x);
    }
  }

  lemma QuietEntry(s: State, e: Runs.Event, k: string, x: int)
    requires !On(s, k, x) && !(e.Line? && e.id in s.clients)
    ensures !On(Runs.Step(s, e), k, x)
  {
    if e.Sweep? {
      if k in s.channels {
        GoneAllMembers(s.channels[k], Runs.Marked(s));
      }
    } else {
      assert Runs.Step(s, e).channels == s.channels;
    }
  }

  /** Over all steps, a client comes to be on a channel exactly so. */
  lemma EntryExact(s: State, e: Runs.Event, k: string, x: int)
    requires Inv(s) && !On(s, k, x)
    ensures On(Runs.Step(s, e), k, x) <==> JoinsBy(s, e, k, x)
  {
    if e.Line? && e.id in s.clients {
      LineEntry(s, e.id, e.text, e.now, k, x);
    } else {
      QuietEntry(s, e, k, x);
    }
  }

  // ---------------------------------------------------------------- on what terms

  /** ch' is ch with x as its youngest member and its invitation used up, and is otherwise the same. */
  predicate TakenIn(ch: Channel, ch': Channel, x: int)
  {
    && x !in ch.members
    && ch' == ch.(members := ch.members + {x}, invited := ch.invited - {x},
                  joinOrder := ch.joinOrder[x := ch.nextJoinSeq], nextJoinSeq := ch.nextJoinSeq + 1)
  }

  lemma LawfulEntry(s: State, s': State, k: string, id: int, v: Runs.Verb, params: seq<string>, now: int, x: int)
    requires ChannelsOk(s) && k in s.channels && k in s'.channels && Lawful(s, s', k, id, v, params, now)
    requires x in s'.channels[k].members && x !in s.channels[k].members
    ensures TakenIn(s.channels[k], s'.channels[k], x)
  {
    var ch := s.channels[k];
    assert ChannelOk(k, ch, s.nextGen);
    if v.Join? && params[0] != "0" {
      var j :| EnteredBy(s, s', k, id, JoinNames(params), GivenKeys(params), j);
    } else if v.Mode? {
      ModeLoopKeeps(s, k, s.nextGen, params[1], Start(ch, params[2..]));
    } else {
      NoOtherGain(s, s', k, id, v, params, now);
    }
  }

  /** Whoever comes into a channel is its youngest member and nothing else about it changes; a
      channel that comes into being has the name as typed, nothing set, and its founder as only
      member and operator. */
  lemma EntryTerms(s: State, e: Runs.Event, k: string, x: int)
    requires Inv(s) && !On(s, k, x) && On(Runs.Step(s, e), k, x)
    ensures k in s.channels ==> TakenIn(s.channels[k], Runs.Step(s, e).channels[k], x)
    ensures k !in s.channels ==> e.Line? && FoundedBy(Runs.Step(s, e), k, x, JoinNames(Words.Params(e.text)))
  {
    EntryExact(s, e, k, x);
    var v := Words.Command(s, e.id, e.text);
    LineLawful(s, e.id, e.text, e.now);
    if v.Some? && k in s.channels {
      LawfulEntry(s, Runs.Step(s, e), k, e.id, v.value, Words.Params(e.text), e.now, x);
    }
  }

  // ---------------------------------------------------------------- what those who stay keep

  /** From ch to ch', nobody who stays changes place in the order of joining, and newcomers come
      last; and an invitation lasts until its holder comes in or is gone. */
  ghost predicate Kept(ch: Channel, ch': Channel, live: set<int>)
  {
    && (forall x :: x in ch.members && x in ch'.members ==>
          x in ch.joinOrder && x in ch'.joinOrder && ch'.joinOrder[x] == ch.joinOrder[x])
    && (forall x, y :: x in ch.members && y in ch'.members && y !in ch.members ==>
          x in ch.joinOrder && y in ch'.joinOrder && ch.joinOrder[x] < ch'.joinOrder[y])
    && (forall t :: t in ch.invited ==> (t in ch'.invited <==> t !in ch'.members && t in live))
  }

  lemma AllStay(ch: Channel, ch': Channel, live: set<int>)
    requires OrderOk(ch) && ch.invited !! ch.members && ch.invited <= live
    requires ch'.members == ch.members && ch'.joinOrder == ch.joinOrder && ch.invited <= ch'.invited
    ensures Kept(ch, ch', live)
  {
  }

  lemma TakenInKept(ch: Channel, x: int, live: set<int>)
    requires OrderOk(ch) && ch.invited !! ch.members && ch.invited <= live && x !in ch.members
    ensures Kept(ch, WithMember(ch, x), live)
  {
  }

  lemma BereftKept(ch: Channel, t: int, among: set<int>, live: set<int>)
    requires OrderOk(ch) && ch.invited !! ch.members && ch.invited <= live && t in ch.members
    ensures Kept(ch, Bereft(ch, t, among), live)
  {
    BereftFields(ch, t, among);
  }

  lemma InvitedAreLive(s: State, k: string)
    requires RosterOk(s) && k in s.channels
    ensures s.channels[k].invited <= s.clients.Keys
  {
    forall t | t in s.channels[k].invited
      ensures t in s.clients
    {
    }
  }

  lemma LawfulKept(s: State, s': State, k: string, id: int, v: Runs.Verb, params: seq<string>, now: int)
    requires ChannelsOk(s) && RosterOk(s) && k in s.channels && k in s'.channels
    requires Lawful(s, s', k, id, v, params, now)
    ensures Kept(s.channels[k], s'.channels[k], s.clients.Keys)
  {
    var ch, ch', live := s.channels[k], s'.channels[k], s.clients.Keys;
    assert ChannelOk(k, ch, s.nextGen);
    InvitedAreLive(s, k);
    if Untouched(s, s', k) {
      AllStay(ch, ch', live);
    } else if v.Mode? {
      ModeLoopKeeps(s, k, s.nextGen, params[1], Start(ch, params[2..]));
      AllStay(ch, ch', live);
    } else if t :| LeftBy(s, s', k, t) {
      BereftKept(ch, t, live, live);
    } else if v.Join? {
      var j :| EnteredBy(s, s', k, id, JoinNames(params), GivenKeys(params), j);
      TakenInKept(ch, id, live);
    } else {
      AllStay(ch, ch', live);
    }
  }

  lemma SweptKept(ch: Channel, ids: set<int>, before: set<int>)
    requires OrderOk(ch) && ch.invited !! ch.members && ch.invited <= before
    ensures Kept(ch, GoneAll(ch, ids), before - ids)
  {
    GoneAllMembers(ch, ids);
    assert GoneAll(ch, ids).joinOrder == ch.joinOrder - ids;
    assert GoneAll(ch, ids).invited == ch.invited - ids;
  }

  lemma LineKept(s: State, id: int, line: string, now: int, k: string)
    requires Inv(s) && id in s.clients && k in s.channels && k in Runs.HandleLine(s, id, line, now).channels
    ensures var s' := Runs.HandleLine(s, id, line, now); Kept(s.channels[k], s'.channels[k], s'.clients.Keys)
  {
    var s', v := Runs.HandleLine(s, id, line, now), Words.Command(s, id, line);
    LineLawful(s, id, line, now);
    Histories.HandleLineOnward(s, id, line, now);
    if v.Some? {
      LawfulKept(s, s', k, id, v.value, Words.Params(line), now);
    } else {
      LawfulKept(s, s', k, id, Runs.Quit, [], now);
    }
  }

  /** In every step, places and invitations are kept. */
  lemma PlacesKept(s: State, e: Runs.Event, k: string)
    requires Inv(s) && k in s.channels && k in Runs.Step(s, e).channels
    ensures Kept(s.channels[k], Runs.Step(s, e).channels[k], Runs.Step(s, e).clients.Keys)
  {
    if e.Line? && e.id in s.clients {
      LineKept(s, e.id, e.text, e.now, k);
    } else {
      QuietKept(s, e, k);
    }
  }

  lemma QuietKept(s: State, e: Runs.Event, k: string)
    requires Inv(s) && k in s.channels && k in Runs.Step(s, e).channels && !(e.Line? && e.id in s.clients)
    ensures Kept(s.channels[k], Runs.Step(s, e).channels[k], Runs.Step(s, e).clients.Keys)
  {
    var ch := s.channels[k];
    assert ChannelOk(k, ch, s.nextGen);
    InvitedAreLive(s, k);
    if e.Sweep? {
      SweptKept(ch, Runs.Marked(s), s.clients.Keys);
    } else {
      assert Runs.Step(s, e).channels == s.channels && s.clients.Keys <= Runs.Step(s, e).clients.Keys;
      AllStay(ch, ch, Runs.Step(s, e).clients.Keys);
    }
  }

  // ---------------------------------------------------------------- operators who stay

  lemma BereftOffice(ch: Channel, t: int, live: set<int>, x: int)
    ensures var r := Bereft(ch, t, live); x in ch.operators && x in r.members ==> x in r.operators
  {
    BereftFields(ch, t, live);
    if x in ch.operators && x != t {
      assert x in ch.operators - {t};
    }
  }

  lemma LawfulOffice(s: State, s': State, k: string, id: int, v: Runs.Verb, params: seq<string>, now: int, x: int)
    requires ChannelsOk(s) && k in s.channels && k in s'.channels && Lawful(s, s', k, id, v, params, now)
    requires x in s.channels[k].operators && x in s'.channels[k].members
    ensures x in s'.channels[k].operators || (v == Runs.Mode && id in s.channels[k].operators)
  {
    assert ChannelOk(k, s.channels[k], s.nextGen);
    if t :| LeftBy(s, s', k, t) {
      BereftOffice(s.channels[k], t, s.clients.Keys, x);
    }
  }

  lemma SweptOffice(ch: Channel, ids: set<int>, x: int)
    ensures var r := GoneAll(ch, ids); x in ch.operators && x in r.members ==> x in r.operators
  {
    GoneAllMembers(ch, ids);
    if x in ch.operators && x !in ids {
      assert x in ch.operators - ids;
    }
  }

  /** An operator who stays on the channel loses that office only by the MODE of an operator. */
  lemma OfficeKept(s: State, e: Runs.Event, k: string, x: int)
    requires Inv(s) && k in s.channels && x in s.channels[k].operators && On(Runs.Step(s, e), k, x)
    requires x !in Runs.Step(s, e).channels[k].operators
    ensures e.Line? && e.id in s.channels[k].operators && Words.Says(e.text, "MODE")
  {
    if e.Line? && e.id in s.clients {
      LineLawful(s, e.id, e.text, e.now);
      var v := Words.Command(s, e.id, e.text);
      if v.Some? {
        LawfulOffice(s, Runs.Step(s, e), k, e.id, v.value, Words.Params(e.text), e.now, x);
      }
    } else if e.Sweep? {
      SweptOffice(s.channels[k], Runs.Marked(s), x);
    }
  }
}
