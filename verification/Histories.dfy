/** What holds over whole runs of the server, whatever the clients send and in whatever order. */
module Histories {
  import opened Wrappers
  import opened IrcText
  import IrcMessage
  import opened ServerState
  import opened Departures
  import opened Sweeps
  import opened SweepOrder
  import opened Registration
  import opened Membership
  import opened Modes
  import Runs
  import Words

  // ---------------------------------------------------------------- clients only move onward

  /** Every client that is still there has moved onward, and nobody came in. */
  ghost predicate AllOnward(s: State, s': State)
  {
    && s'.nextCid == s.nextCid
    && s'.clients.Keys == s.clients.Keys
    && forall i :: i in s.clients ==> Onward(s.clients[i], s'.clients[i])
  }

  lemma OnlyListsTwice(s: State, mid: State, s': State)
    requires OnlyListsChanged(s, mid) && OnlyListsChanged(mid, s')
    ensures OnlyListsChanged(s, s')
  {
    forall i | i in s.clients
      ensures s'.clients[i] == s.clients[i].(channels := s'.clients[i].channels)
    {
      assert mid.clients[i] == s.clients[i].(channels := mid.clients[i].channels);
    }
  }

  lemma JoinOneLists(s: State, id: int, name: string, key: string)
    requires id in s.clients
    ensures OnlyListsChanged(s, JoinOne(s, id, name, key))
  {
  }

  lemma {:induction false} JoinFromLists(s: State, id: int, names: seq<string>, keys: seq<string>, i: nat)
    requires id in s.clients && i <= |names|
    ensures OnlyListsChanged(s, JoinFrom(s, id, names, keys, i))
    decreases |names| - i
  {
    if i < |names| {
      var mid := JoinOne(s, id, names[i], KeyAt(keys, i));
      JoinOneLists(s, id, names[i], KeyAt(keys, i));
      JoinFromLists(mid, id, names, keys, i + 1);
      OnlyListsTwice(s, mid, JoinFrom(mid, id, names, keys, i + 1));
    }
  }

  lemma {:induction false} PartFromLists(s: State, id: int, names: seq<string>, i: nat)
    requires id in s.clients && i <= |names|
    ensures OnlyListsChanged(s, PartFrom(s, id, names, i))
    decreases |names| - i
  {
    if i < |names| {
      var mid := PartNamed(s, id, names[i]);
      assert OnlyListsChanged(s, mid);
      PartFromLists(mid, id, names, i + 1);
      OnlyListsTwice(s, mid, PartFrom(mid, id, names, i + 1));
    }
  }

  lemma OneOnward(s: State, id: int, c: Client)
    requires id in s.clients && Onward(s.clients[id], c)
    ensures AllOnward(s, OnClient(s, id, c))
  {
  }

  /** Nobody comes or goes, and what is changed of a client is its channel list or the time of its
      last invitation. */
  ghost predicate SameIdentities(s: State, s': State)
  {
    && s'.nextCid == s.nextCid && s'.clients.Keys == s.clients.Keys
    && forall i :: i in s.clients ==>
         s'.clients[i] == s.clients[i].(channels := s'.clients[i].channels, lastInviteAt := s'.clients[i].lastInviteAt)
  }

  lemma ListsIdentities(s: State, s': State)
    requires OnlyListsChanged(s, s')
    ensures SameIdentities(s, s')
  {
    forall i | i in s.clients
      ensures s'.clients[i] ==
              s.clients[i].(channels := s'.clients[i].channels, lastInviteAt := s'.clients[i].lastInviteAt)
    {
      assert s'.clients[i] == s.clients[i].(channels := s'.clients[i].channels);
    }
  }

  lemma JoinIdentities(s: State, id: int, params: seq<string>)
    requires id in s.clients
    ensures SameIdentities(s, Membership.Join(s, id, params))
  {
    if params != [] && params[0] != "" && params[0] != "0" {
      JoinFromLists(s, id, FirstNames(Split(params[0], ',')), KeyList(params), 0);
    }
    ListsIdentities(s, Membership.Join(s, id, params));
  }

  lemma PartIdentities(s: State, id: int, params: seq<string>)
    requires id in s.clients
    ensures SameIdentities(s, Part(s, id, params))
  {
    if params != [] {
      PartFromLists(s, id, Split(params[0], ','), 0);
    }
    ListsIdentities(s, Part(s, id, params));
  }

  lemma KickIdentities(s: State, id: int, params: seq<string>)
    ensures SameIdentities(s, Kick(s, id, params))
  {
    ListsIdentities(s, Kick(s, id, params));
  }

  lemma InviteIdentities(s: State, id: int, params: seq<string>, now: int)
    requires id in s.clients
    ensures SameIdentities(s, Invite(s, id, params, now))
  {
  }

  lemma ModeIdentities(s: State, id: int, params: seq<string>)
    ensures SameIdentities(s, Mode(s, id, params))
  {
    assert Mode(s, id, params).clients == s.clients;
  }

  predicate ChannelVerb(v: Runs.Verb)
  {
    v.Join? || v.Part? || v.Kick? || v.Invite? || v.Mode? || v.Asking?
  }

  lemma ChannelCommandIdentities(s: State, id: int, v: Runs.Verb, params: seq<string>, now: int)
    requires id in s.clients && ChannelVerb(v)
    ensures SameIdentities(s, Runs.Execute(s, id, v, params, now))
  {
    match v
    case Join => JoinIdentities(s, id, params);
    case Part => PartIdentities(s, id, params);
    case Kick => KickIdentities(s, id, params);
    case Invite => InviteIdentities(s, id, params, now);
    case Mode => ModeIdentities(s, id, params);
    case Asking(_) =>
  }

  lemma IdentitiesOnward(s: State, s': State)
    requires SameIdentities(s, s')
    ensures AllOnward(s, s')
    ensures forall i :: i in s.clients ==> s'.clients[i].registered == s.clients[i].registered
  {
    forall i | i in s.clients
      ensures Onward(s.clients[i], s'.clients[i]) && s'.clients[i].registered == s.clients[i].registered
    {
      assert s'.clients[i] ==
             s.clients[i].(channels := s'.clients[i].channels, lastInviteAt := s'.clients[i].lastInviteAt);
    }
  }

  lemma NickCommandOnward(s: State, id: int, nick: string)
    requires id in s.clients
    ensures AllOnward(s, Nick(s, id, nick))
  {
    forall i | i in s.clients
      ensures Onward(s.clients[i], Nick(s, id, nick).clients[i])
    {
      NickOnward(s, id, nick, i);
    }
  }

  lemma ExecuteOnward(s: State, id: int, v: Runs.Verb, params: seq<string>, now: int)
    requires id in s.clients
    ensures AllOnward(s, Runs.Execute(s, id, v, params, now))
  {
    var c := s.clients[id];
    match v
    case Cap =>
      CapOnward(s.password, c, params);
      OneOnward(s, id, Cap(s.password, c, params));
    case Pass =>
      UserOnward(s.password, c, params);
      OneOnward(s, id, Pass(c, params));
    case User =>
      UserOnward(s.password, c, params);
      OneOnward(s, id, User(s.password, c, params));
    case Quit => OneOnward(s, id, c.(marked := true));
    case Nick =>
      if params != [] {
        NickCommandOnward(s, id, params[0]);
      }
    case _ =>
      ChannelCommandIdentities(s, id, v, params, now);
      IdentitiesOnward(s, Runs.Execute(s, id, v, params, now));
  }

  lemma HandleLineOnward(s: State, id: int, line: string, now: int)
    requires id in s.clients
    ensures AllOnward(s, Runs.HandleLine(s, id, line, now))
  {
    var msg := IrcMessage.Tokenize(line);
    match Runs.Gate(s.clients[id].registered, msg.command, |msg.params|)
    case Accepted(v) => ExecuteOnward(s, id, v, msg.params, now);
    case _ =>
  }

  /** The same over steps that admit and remove clients. */
  ghost predicate Advances(s: State, s': State)
  {
    && s.nextCid <= s'.nextCid
    && (forall i :: i in s'.clients && i in s.clients ==> Onward(s.clients[i], s'.clients[i]))
    && (forall i :: i in s'.clients && i < s.nextCid ==> i in s.clients)
    && (forall i :: i in s'.clients && i !in s.clients ==> s'.clients[i].enabledCaps <= {CAP_NOTIFY, INVITE_NOTIFY})
  }

  lemma OnwardAdvances(s: State, s': State)
    requires AllOnward(s, s')
    ensures Advances(s, s')
  {
  }

  lemma AcceptAdvances(s: State, host: string)
    requires ClientsOk(s)
    ensures Advances(s, Runs.AcceptOne(s, host))
  {
  }

  lemma CloseAdvances(s: State, id: int)
    requires id in s.clients
    ensures Advances(s, Mark(s, id))
  {
  }

  lemma SweepAdvances(s: State, ids: set<int>)
    ensures Advances(s, Removed(s, ids))
  {
  }

  lemma StepAdvances(s: State, e: Runs.Event)
    requires Inv(s)
    ensures Advances(s, Runs.Step(s, e))
  {
    match e
    case Accept(host) => AcceptAdvances(s, host);
    case Line(id, text, now) =>
      if id in s.clients {
        HandleLineOnward(s, id, text, now);
        OnwardAdvances(s, Runs.HandleLine(s, id, text, now));
      }
    case Close(id) =>
      if id in s.clients {
        CloseAdvances(s, id);
      }
    case Sweep(_) => SweepAdvances(s, Runs.Marked(s));
  }

  lemma AdvancesTwice(s: State, mid: State, s': State)
    requires Advances(s, mid) && Advances(mid, s') && ClientsOk(s)
    ensures Advances(s, s')
  {
    forall i | i in s'.clients && i in s.clients
      ensures Onward(s.clients[i], s'.clients[i])
    {
      assert i < s.nextCid && i in mid.clients;
    }
  }

  /** Over any run: a client that is still connected has not lost its registration, its sticky
      capabilities or its close mark, only advertised capabilities are enabled, and an id that
      was torn down never comes back. */
  lemma {:induction false} RunAdvances(s: State, es: seq<Runs.Event>)
    requires Inv(s)
    ensures Advances(s, Runs.Run(s, es))
    decreases |es|
  {
    if es != [] {
      var mid := Runs.Step(s, es[0]);
      StepAdvances(s, es[0]);
      Runs.StepKeeps(s, es[0]);
      RunAdvances(mid, es[1..]);
      AdvancesTwice(s, mid, Runs.Run(mid, es[1..]));
    }
  }

  /** Registration never gets stuck: whatever was sent, a client that is not on its way out is
      registered exactly when it has a nick and a user name and is not negotiating. */
  lemma RegisteredIffReady(password: string, es: seq<Runs.Event>, id: int)
    ensures var s := Runs.Run(Initial(password), es);
            id in s.clients && !s.clients[id].marked ==>
              (s.clients[id].registered <==>
                 s.clients[id].nick != "" && s.clients[id].user != "" && !s.clients[id].capNegotiating)
  {
    Runs.ReachableOk(password, es);
    var s := Runs.Run(Initial(password), es);
    assert id in s.clients ==> RegistrationOk(s.clients[id]);
  }

  /** In every run the nick index is exact: a lookup yields the one connected client whose nick
      folds to the same, and fails only when there is none. */
  lemma NicksExact(password: string, es: seq<Runs.Event>, nick: string)
    requires nick != ""
    ensures var s := Runs.Run(Initial(password), es);
            match FindByNick(s, nick)
            case Some(id) => id in s.clients && forall i :: i in s.clients ==>
                               (Fold(s.clients[i].nick) == Fold(nick) <==> i == id)
            case None => forall i :: i in s.clients ==> Fold(s.clients[i].nick) != Fold(nick)
  {
    Runs.ReachableOk(password, es);
    LookupExact(Runs.Run(Initial(password), es), nick);
  }

  /** Nothing but id's own entry and the nick index. */
  ghost predicate OnlyOne(s: State, s': State, id: int)
  {
    s'.channels == s.channels && s'.clients - {id} == s.clients - {id}
  }

  lemma OnClientOnly(s: State, id: int, c: Client)
    ensures OnlyOne(s, OnClient(s, id, c), id)
  {
  }

  lemma NickOnly(s: State, id: int, nick: string)
    requires id in s.clients
    ensures OnlyOne(s, Nick(s, id, nick), id)
  {
  }

  lemma EarlyOnly(s: State, id: int, v: Runs.Verb, params: seq<string>, now: int)
    requires id in s.clients && Runs.Early(v)
    ensures OnlyOne(s, Runs.Execute(s, id, v, params, now), id)
  {
    var c := s.clients[id];
    match v
    case Cap => OnClientOnly(s, id, Cap(s.password, c, params));
    case Pass => OnClientOnly(s, id, Pass(c, params));
    case User => OnClientOnly(s, id, User(s.password, c, params));
    case Quit => OnClientOnly(s, id, c.(marked := true));
    case Nick =>
      if params != [] {
        NickOnly(s, id, params[0]);
      }
    case _ =>
  }

  /** Before it is registered, a client cannot touch a channel, nor anybody else. */
  lemma StrangersTouchNothing(s: State, id: int, line: string, now: int)
    requires id in s.clients && !s.clients[id].registered
    ensures var s' := Runs.HandleLine(s, id, line, now);
            s'.channels == s.channels && s'.clients - {id} == s.clients - {id}
  {
    var msg := IrcMessage.Tokenize(line);
    Runs.GateHoldsBack(msg.command, |msg.params|);
    match Runs.Gate(false, msg.command, |msg.params|)
    case Accepted(v) =>
      Runs.DispatchRuns(s, id, msg.command, msg.params, now, v);
      EarlyOnly(s, id, v, msg.params, now);
    case _ =>
  }

  // ---------------------------------------------------------------- operators over whole runs

  ghost predicate Shrank(before: Channel, after: Channel)
  {
    exists m :: m in before.members && m !in after.members
  }

  /** A channel that had an operator, is new, or has just lost a member, has an operator. */
  ghost predicate Manned(before: map<string, Channel>, after: map<string, Channel>)
  {
    forall k :: k in after && (k in before ==> before[k].operators != {} || Shrank(before[k], after[k])) ==>
                  after[k].operators != {}
  }

  lemma MannedTwice(before: map<string, Channel>, mid: map<string, Channel>, after: map<string, Channel>)
    requires Manned(before, mid) && Manned(mid, after)
    ensures Manned(before, after)
  {
    forall k | k in after && (k in before ==> before[k].operators != {} || Shrank(before[k], after[k]))
      ensures after[k].operators != {}
    {
      if k in mid && k in before && before[k].operators == {} {
        var m :| m in before[k].members && m !in after[k].members;
        if m in mid[k].members {
          assert Shrank(mid[k], after[k]);
        } else {
          assert Shrank(before[k], mid[k]);
        }
      }
    }
  }

  lemma MannedSame(channels: map<string, Channel>)
    ensures Manned(channels, channels)
  {
  }

  lemma LeaveManned(s: State, id: int, k: string)
    requires ChannelsOk(s) && RosterOk(s) && id in s.clients && k in s.channels && id in s.channels[k].members
    ensures Manned(s.channels, Leave(s, id, k).channels)
  {
    LeaveOutcome(s, id, k);
    var after := Leave(s, id, k).channels;
    assert forall j :: j != k && j in after ==> j in s.channels - {k} && after[j] == (after - {k})[j];
  }

  lemma {:induction false} PartFromManned(s: State, id: int, names: seq<string>, i: nat)
    requires Inv(s) && id in s.clients && i <= |names|
    ensures Manned(s.channels, PartFrom(s, id, names, i).channels)
    decreases |names| - i
  {
    if i < |names| {
      var k, mid := Fold(names[i]), PartNamed(s, id, names[i]);
      if k in s.channels && id in s.channels[k].members {
        LeaveKeeps(s, id, k);
        LeaveManned(s, id, k);
      }
      PartFromManned(mid, id, names, i + 1);
      MannedTwice(s.channels, mid.channels, PartFrom(mid, id, names, i + 1).channels);
    }
  }

  lemma JoinOneManned(s: State, id: int, name: string, key: string)
    requires id in s.clients
    ensures Manned(s.channels, JoinOne(s, id, name, key).channels)
  {
  }

  lemma {:induction false} JoinFromManned(s: State, id: int, names: seq<string>, keys: seq<string>, i: nat)
    requires id in s.clients && i <= |names|
    ensures Manned(s.channels, JoinFrom(s, id, names, keys, i).channels)
    decreases |names| - i
  {
    if i < |names| {
      var mid := JoinOne(s, id, names[i], KeyAt(keys, i));
      JoinOneManned(s, id, names[i], KeyAt(keys, i));
      JoinFromManned(mid, id, names, keys, i + 1);
      MannedTwice(s.channels, mid.channels, JoinFrom(mid, id, names, keys, i + 1).channels);
    }
  }

  lemma GoneAllManned(ch: Channel, ids: set<int>)
    requires ch.operators <= ch.members && ch.members - ids != {}
    requires ch.operators != {} || Shrank(ch, GoneAll(ch, ids))
    ensures GoneAll(ch, ids).operators != {}
  {
    GoneAllMembers(ch, ids);
    if ch.members !! ids {
      assert ch.members - ids == ch.members && ch.operators - ids == ch.operators;
    }
  }

  lemma RemovalManned(s: State, ids: set<int>)
    requires ChannelsOk(s)
    ensures Manned(s.channels, ChannelsWithout(s.channels, ids))
  {
    var after := ChannelsWithout(s.channels, ids);
    forall k | k in after && (s.channels[k].operators != {} || Shrank(s.channels[k], after[k]))
      ensures after[k].operators != {}
    {
      assert ChannelOk(k, s.channels[k], s.nextGen);
      GoneAllManned(s.channels[k], ids);
    }
  }

  /** JOIN 0 is a teardown scan as far as members and operators go. */
  lemma PartAllManned(s: State, id: int)
    requires Inv(s) && id in s.clients
    ensures Manned(s.channels, PartAll(s, id).channels)
  {
    WalkMeetsScan(s, id);
    TeardownIsRemoval(s, id);
    RemovalManned(s, {id});
    var walk, scan := PartAll(s, id).channels, ChannelsWithout(s.channels, {id});
    forall k | k in walk
      ensures k in scan && walk[k].members == scan[k].members && walk[k].operators == scan[k].operators
    {
    }
  }

  lemma ModeManned(s: State, id: int, params: seq<string>)
    requires Inv(s)
    requires NoDeopIn(s, id, params)
    ensures Manned(s.channels, Mode(s, id, params).channels)
  {
    match ModeRun(s, id, params)
    case None =>
    case Some(r) =>
      var k := Fold(params[0]);
      var ch := s.channels[k];
      assert ChannelOk(k, ch, s.nextGen);
      ModeLoopChains(s, ch, params[1], Start(ch, params[2..]));
      ChainKeepsOperators(s, ch, r.applied, r.ch);
      ModeLoopKeeps(s, k, s.nextGen, params[1], Start(ch, params[2..]));
  }

  ghost predicate NoDeopIn(s: State, id: int, params: seq<string>)
  {
    match ModeRun(s, id, params) case Some(r) => NoDeop(r.applied) case None => true
  }

  /** A command that announces no `-o`. */
  ghost predicate PeacefulCommand(s: State, id: int, command: string, params: seq<string>)
    requires id in s.clients
  {
    s.clients[id].registered && Words.Spells(command, "MODE") ==> NoDeopIn(s, id, params)
  }

  /** The step announces no `-o`. */
  ghost predicate Peaceful(s: State, e: Runs.Event)
  {
    match e
    case Line(id, text, now) =>
      var msg := IrcMessage.Tokenize(text);
      id in s.clients ==> PeacefulCommand(s, id, msg.command, msg.params)
    case _ => true
  }

  lemma JoinManned(s: State, id: int, params: seq<string>)
    requires Inv(s) && id in s.clients
    ensures Manned(s.channels, Membership.Join(s, id, params).channels)
  {
    if params != [] && params[0] != "" {
      if params[0] == "0" {
        PartAllManned(s, id);
      } else {
        JoinFromManned(s, id, FirstNames(Split(params[0], ',')), KeyList(params), 0);
      }
    }
  }

  lemma KickManned(s: State, id: int, params: seq<string>)
    requires Inv(s)
    ensures Manned(s.channels, Kick(s, id, params).channels)
  {
    match Kicked(s, id, params)
    case None =>
    case Some(t) => LeaveManned(s, t, Fold(params[0]));
  }

  lemma InviteManned(s: State, id: int, params: seq<string>, now: int)
    requires id in s.clients
    ensures Manned(s.channels, Invite(s, id, params, now).channels)
  {
  }

  lemma ExecuteManned(s: State, id: int, v: Runs.Verb, params: seq<string>, now: int)
    requires Inv(s) && id in s.clients
    requires v.Mode? ==> NoDeopIn(s, id, params)
    ensures Manned(s.channels, Runs.Execute(s, id, v, params, now).channels)
  {
    match v
    case Join => JoinManned(s, id, params);
    case Part =>
      if params != [] {
        PartFromManned(s, id, Split(params[0], ','), 0);
      }
    case Kick => KickManned(s, id, params);
    case Invite => InviteManned(s, id, params, now);
    case Mode => ModeManned(s, id, params);
    case _ => MannedSame(s.channels);
  }

  lemma PeacefulMode(s: State, id: int, command: string, params: seq<string>)
    requires id in s.clients && PeacefulCommand(s, id, command, params)
    requires Runs.Gate(s.clients[id].registered, command, |params|) == Runs.Accepted(Runs.Mode)
    ensures NoDeopIn(s, id, params)
  {
    Words.GateExact(s.clients[id].registered, command, |params|, Runs.Mode);
  }

  lemma DispatchManned(s: State, id: int, command: string, params: seq<string>, now: int)
    requires Inv(s) && id in s.clients && PeacefulCommand(s, id, command, params)
    ensures Manned(s.channels, Runs.Dispatch(s, id, command, params, now).channels)
  {
    MannedSame(s.channels);
    match Runs.Gate(s.clients[id].registered, command, |params|)
    case Accepted(v) =>
      if v.Mode? {
        PeacefulMode(s, id, command, params);
      }
      ExecuteManned(s, id, v, params, now);
    case _ =>
  }

  /** Succession in every step but an announced `-o`. */
  lemma StepManned(s: State, e: Runs.Event)
    requires Inv(s) && Peaceful(s, e)
    ensures Manned(s.channels, Runs.Step(s, e).channels)
  {
    MannedSame(s.channels);
    match e
    case Line(id, text, now) =>
      if id in s.clients {
        var msg := IrcMessage.Tokenize(text);
        DispatchManned(s, id, msg.command, msg.params, now);
      }
    case Sweep(_) => RemovalManned(s, Runs.Marked(s));
    case _ =>
  }

  /** MODE removes nobody. */
  lemma ModeKeepsMembers(s: State, id: int, params: seq<string>, k: string)
    requires ChannelsOk(s) && k in s.channels
    ensures k in Mode(s, id, params).channels && Mode(s, id, params).channels[k].members == s.channels[k].members
  {
    match ModeRun(s, id, params)
    case None =>
    case Some(r) =>
      var key := Fold(params[0]);
      assert ChannelOk(key, s.channels[key], s.nextGen);
      ModeLoopKeeps(s, key, s.nextGen, params[1], Start(s.channels[key], params[2..]));
  }

  /** Every channel that lost a member between the two tables has an operator. */
  ghost predicate Succeeded(before: map<string, Channel>, after: map<string, Channel>)
  {
    forall k :: k in before && k in after && Shrank(before[k], after[k]) ==> after[k].operators != {}
  }

  lemma MannedSucceeded(before: map<string, Channel>, after: map<string, Channel>)
    requires Manned(before, after)
    ensures Succeeded(before, after)
  {
  }

  lemma ModeSucceeded(s: State, id: int, params: seq<string>)
    requires ChannelsOk(s)
    ensures Succeeded(s.channels, Mode(s, id, params).channels)
  {
    forall k | k in s.channels
      ensures k in Mode(s, id, params).channels &&
              Mode(s, id, params).channels[k].members == s.channels[k].members
    {
      ModeKeepsMembers(s, id, params, k);
    }
  }

  lemma OthersSucceeded(s: State, id: int, v: Runs.Verb, params: seq<string>, now: int)
    requires Inv(s) && id in s.clients && !v.Mode?
    ensures Succeeded(s.channels, Runs.Execute(s, id, v, params, now).channels)
  {
    ExecuteManned(s, id, v, params, now);
    MannedSucceeded(s.channels, Runs.Execute(s, id, v, params, now).channels);
  }

  lemma ExecuteSucceeded(s: State, id: int, v: Runs.Verb, params: seq<string>, now: int)
    requires Inv(s) && id in s.clients
    ensures Succeeded(s.channels, Runs.Execute(s, id, v, params, now).channels)
  {
    if v.Mode? {
      ModeSucceeded(s, id, params);
    } else {
      OthersSucceeded(s, id, v, params, now);
    }
  }

  /** Whatever the step, `-o` included: a channel that lost a member is gone or has an operator. */
  lemma StepSucceeded(s: State, e: Runs.Event)
    requires Inv(s)
    ensures Succeeded(s.channels, Runs.Step(s, e).channels)
  {
    if e.Line? {
      if e.id in s.clients {
        var msg := IrcMessage.Tokenize(e.text);
        match Runs.Gate(s.clients[e.id].registered, msg.command, |msg.params|) {
          case Accepted(v) => ExecuteSucceeded(s, e.id, v, msg.params, e.now);
          case _ =>
        }
      }
    } else {
      StepManned(s, e);
      MannedSucceeded(s.channels, Runs.Step(s, e).channels);
    }
  }

  lemma DeopLoop(s: State, ch: Channel, id: int, nick: string)
    requires FindByNick(s, nick) == Some(id) && id in ch.members && id in ch.operators
    ensures ModeLoop(s, "-o", Start(ch, [nick])).ch == ch.(operators := ch.operators - {id})
  {
    var o := ['o'] + "";
    LoopTwo(s, '-', o, Start(ch, [nick]));
    LoopTwo(s, 'o', "", Start(ch, [nick]).(sign := '-'));
    assert "-o" == ['-'] + o;
  }

  /** With `-o` it fails: an operator that is alone in that office can lay it down, and no
      successor is appointed. */
  lemma DeopLeavesNone(s: State, id: int, name: string)
    requires ChannelsOk(s) && RosterOk(s) && ClientsOk(s) && IndexOk(s)
    requires IsChannelName(name) && Fold(name) in s.channels && s.channels[Fold(name)].operators == {id}
    ensures id in s.clients
    ensures var s' := Mode(s, id, [name, "-o", s.clients[id].nick]);
            Fold(name) in s'.channels && s'.channels[Fold(name)].operators == {}
  {
    var k := Fold(name);
    var ch := s.channels[k];
    assert ChannelOk(k, ch, s.nextGen) && id in ch.operators;
    assert RegistrationOk(s.clients[id]);
    var nick := s.clients[id].nick;
    OwnNickResolves(s, id);
    DeopLoop(s, ch, id, nick);
    var params := [name, "-o", nick];
    assert params[2..] == [nick];
    assert |params[1]| == 2 && params[1][0] == '-';
    assert !ModeQuery(s, params);
    assert ch.operators - {id} == {};
  }

  // ---------------------------------------------------------------- JOIN, then PART

  /** The channel as a visitor leaves it who was there but briefly. */
  function Visited(ch: Channel, id: int): Channel
  {
    ch.(invited := ch.invited - {id}, nextJoinSeq := ch.nextJoinSeq + 1)
  }

  lemma VisitList(c: Client, p: ChanPtr)
    requires p !in c.channels
    ensures var mid := c.(channels := c.channels + [p]);
            mid.(channels := RemovePtr(mid.channels, p)) == c
  {
    LastPtrRemoved(c.channels, p);
  }

  /** Entering and leaving again: only the channel's own entry can differ. */
  lemma VisitState(s: State, id: int, k: string, w: Channel)
    requires id in s.clients && k in s.channels && PtrTo(k, w) !in s.clients[id].channels
    ensures var r := Bereft(w, id, s.clients.Keys);
            r.members != {} ==> Leave(Enter(s, id, k, w), id, k) == s.(channels := s.channels[k := r])
  {
    var c, mid := s.clients[id], Enter(s, id, k, w);
    VisitList(c, PtrTo(k, w));
    assert mid.clients.Keys == s.clients.Keys && mid.channels[k] == w;
    assert Leave(mid, id, k).clients == mid.clients[id := c];
    assert mid.clients[id := c] == s.clients;
  }

  lemma VisitChannel(ch: Channel, id: int, live: set<int>)
    requires OrderOk(ch) && ch.operators <= ch.members <= live && ch.voiced <= ch.members
    requires id !in ch.members && ch.members != {}
    ensures var r := Bereft(WithMember(ch, id), id, live);
            r.members == ch.members && (r == Visited(ch, id) <==> ch.operators != {})
  {
    ReturnTrip(ch, id);
  }

  /** Parting right after joining puts a populated channel back as it was, but for the spent
      invitation and place number - unless it had no operator, for then the departure appoints one. */
  lemma JoinThenPart(s: State, id: int, name: string, key: string)
    requires ChannelsOk(s) && RosterOk(s) && ListsOk(s)
    requires id in s.clients && Fold(name) in s.channels && Enters(s, id, name, key)
    ensures var k := Fold(name);
            var s' := PartNamed(JoinOne(s, id, name, key), id, name);
            s' == s.(channels := s.channels[k := Visited(s.channels[k], id)]) <==> s.channels[k].operators != {}
  {
    var k := Fold(name);
    var ch := s.channels[k];
    assert ChannelOk(k, ch, s.nextGen);
    assert ListOk(id, s.clients[id].channels, s.channels);
    MembersLive(s, k);
    VisitChannel(ch, id, s.clients.Keys);
    VisitState(s, id, k, WithMember(ch, id));
    var r := Bereft(WithMember(ch, id), id, s.clients.Keys);
    EntriesDiffer(s.channels, k, r, Visited(ch, id));
  }

  lemma EntriesDiffer(channels: map<string, Channel>, k: string, a: Channel, b: Channel)
    ensures channels[k := a] == channels[k := b] <==> a == b
  {
    assert channels[k := a][k] == a && channels[k := b][k] == b;
  }

  lemma ReturnTrip(ch: Channel, id: int)
    requires OrderOk(ch) && ch.operators <= ch.members && ch.voiced <= ch.members && id !in ch.members
    ensures Without(WithMember(ch, id), id) == Visited(ch, id)
  {
    assert (ch.members + {id}) - {id} == ch.members;
    assert ch.operators - {id} == ch.operators && ch.voiced - {id} == ch.voiced;
    assert ch.invited - {id} - {id} == ch.invited - {id};
    assert ch.joinOrder[id := ch.nextJoinSeq] - {id} == ch.joinOrder;
  }

  lemma {:induction false} LastPtrRemoved(ps: seq<ChanPtr>, p: ChanPtr)
    requires p !in ps
    ensures RemovePtr(ps + [p], p) == ps
    decreases |ps|
  {
    if ps == [] {
      assert ps + [p] == [p];
    } else {
      assert (ps + [p])[1..] == ps[1..] + [p];
      LastPtrRemoved(ps[1..], p);
    }
  }
}
