/** The commands that change channels: JOIN, PART, KICK, INVITE and MODE. */
module Membership {
  import opened Wrappers
  import opened IrcText
  import opened Bans
  import opened ServerState
  import opened Departures
  import opened Sweeps
  import opened Modes

  const MAX_JOINS_PER_COMMAND := 10
  const INVITE_INTERVAL := 1000

  // ---------------------------------------------------------------- JOIN

  /** An existing channel lets a newcomer in; an invitation overrides every other rule. */
  predicate Admits(ch: Channel, id: int, c: Client, key: string)
  {
    || id in ch.invited
    || (&& !BanHits(ch.banMasks, c.nick, c.user, c.host)
        && !ch.inviteOnly
        && (ch.key == "" || ch.key == key)
        && (ch.userLimit == 0 || |ch.members| < ch.userLimit))
  }

  function WithMember(ch: Channel, id: int): Channel
  {
    ch.(members := ch.members + {id}, joinOrder := ch.joinOrder[id := ch.nextJoinSeq],
        nextJoinSeq := ch.nextJoinSeq + 1, invited := ch.invited - {id})
  }

  function Founded(name: string, gen: nat, id: int): Channel
  {
    WithMember(NewChannel(name, gen), id).(operators := {id})
  }

  /** id enters: r is what is stored under k from now on. */
  function Enter(s: State, id: int, k: string, r: Channel): State
    requires id in s.clients
  {
    var c := s.clients[id];
    s.(channels := s.channels[k := r],
       clients := s.clients[id := c.(channels := c.channels + [PtrTo(k, r)])])
  }

  /** The conditions under which a JOIN for one name takes effect. */
  predicate Enters(s: State, id: int, name: string, key: string)
    requires id in s.clients
  {
    var c := s.clients[id];
    && ValidChannelName(name)
    && |c.channels| < MAX_CHANNELS_PER_USER
    && (Fold(name) in s.channels ==>
          var ch := s.channels[Fold(name)];
          id !in ch.members && Admits(ch, id, c, key) && |ch.members| < MAX_USERS_PER_CHANNEL)
  }

  function JoinOne(s: State, id: int, name: string, key: string): (s': State)
    requires id in s.clients
    ensures s'.clients.Keys == s.clients.Keys
  {
    var k := Fold(name);
    if !Enters(s, id, name, key) then s
    else if k in s.channels then Enter(s, id, k, WithMember(s.channels[k], id))
    else Enter(s, id, k, Founded(name, s.nextGen, id)).(nextGen := s.nextGen + 1)
  }

  function KeyAt(keys: seq<string>, i: nat): string
  {
    if i < |keys| then keys[i] else ""
  }

  function JoinFrom(s: State, id: int, names: seq<string>, keys: seq<string>, i: nat): (s': State)
    requires id in s.clients && i <= |names|
    ensures s'.clients.Keys == s.clients.Keys
    decreases |names| - i
  {
    if i == |names| then s else JoinFrom(JoinOne(s, id, names[i], KeyAt(keys, i)), id, names, keys, i + 1)
  }

  function FirstNames(names: seq<string>): seq<string>
  {
    if |names| > MAX_JOINS_PER_COMMAND then names[..MAX_JOINS_PER_COMMAND] else names
  }

  function KeyList(params: seq<string>): seq<string>
  {
    if |params| > 1 then Split(params[1], ',') else []
  }

  ghost function Join(s: State, id: int, params: seq<string>): State
    requires id in s.clients
  {
    if params == [] || params[0] == "" then s
    else if params[0] == "0" then PartAll(s, id)
    else JoinFrom(s, id, FirstNames(Split(params[0], ',')), KeyList(params), 0)
  }

  // ---------------------------------------------------------------- PART, KICK

  ghost function PartNamed(s: State, id: int, name: string): (s': State)
    requires id in s.clients
    ensures s'.clients.Keys == s.clients.Keys
  {
    var k := Fold(name);
    if k in s.channels && id in s.channels[k].members then Leave(s, id, k) else s
  }

  ghost function PartFrom(s: State, id: int, names: seq<string>, i: nat): (s': State)
    requires id in s.clients && i <= |names|
    ensures s'.clients.Keys == s.clients.Keys
    decreases |names| - i
  {
    if i == |names| then s else PartFrom(PartNamed(s, id, names[i]), id, names, i + 1)
  }

  ghost function Part(s: State, id: int, params: seq<string>): State
    requires id in s.clients
  {
    if params == [] then s else PartFrom(s, id, Split(params[0], ','), 0)
  }

  /** The member that a KICK removes, if it removes one. */
  function Kicked(s: State, id: int, params: seq<string>): Option<int>
  {
    if |params| < 2 || params[0] == "" || params[1] == "" then None
    else if Fold(params[0]) !in s.channels then None
    else
      var ch := s.channels[Fold(params[0])];
      if id in ch.members && id in ch.operators then Target(s, ch, params[1]) else None
  }

  ghost function Kick(s: State, id: int, params: seq<string>): State
  {
    match Kicked(s, id, params)
    case None => s
    case Some(t) => Leave(s, t, Fold(params[0]))
  }

  // ---------------------------------------------------------------- INVITE, MODE

  /** The client an INVITE is meant for, once every rule but the rate limit is passed. */
  function Invitee(s: State, id: int, params: seq<string>): Option<int>
  {
    if |params| < 2 || params[0] == "" || params[1] == "" then None
    else
      match FindByNick(s, params[0])
      case None => None
      case Some(t) =>
        if !s.clients[t].registered || Fold(params[1]) !in s.channels then None
        else
          var ch := s.channels[Fold(params[1])];
          if id in ch.members && t !in ch.members && (ch.inviteOnly ==> id in ch.operators) then Some(t)
          else None
  }

  function Stamped(s: State, id: int, now: int): State
    requires id in s.clients
  {
    OnClient(s, id, s.clients[id].(lastInviteAt := now))
  }

  /** The rate limit counts every attempt that gets this far, even one that finds the list full. */
  function SendInvite(s: State, id: int, k: string, t: int, now: int): State
    requires id in s.clients && k in s.channels
  {
    var ch := s.channels[k];
    if now - s.clients[id].lastInviteAt < INVITE_INTERVAL then s
    else if |ch.invited| >= MAX_INVITES_PER_CHANNEL then Stamped(s, id, now)
    else Stamped(s, id, now).(channels := s.channels[k := ch.(invited := ch.invited + {t})])
  }

  function Invite(s: State, id: int, params: seq<string>, now: int): State
    requires id in s.clients
  {
    match Invitee(s, id, params)
    case None => s
    case Some(t) => SendInvite(s, id, Fold(params[1]), t, now)
  }

  /** MODE asks rather than changes: about a user, about a missing channel, or for a listing. */
  predicate ModeQuery(s: State, params: seq<string>)
  {
    || params == [] || !IsChannelName(params[0]) || Fold(params[0]) !in s.channels || |params| < 2
    || ((params[1] == "b" || params[1] == "+b") && |params| < 3)
  }

  function ModeRun(s: State, id: int, params: seq<string>): Option<Run>
  {
    if ModeQuery(s, params) || id !in s.channels[Fold(params[0])].operators then None
    else Some(ModeLoop(s, params[1], Start(s.channels[Fold(params[0])], params[2..])))
  }

  function Mode(s: State, id: int, params: seq<string>): State
  {
    match ModeRun(s, id, params)
    case None => s
    case Some(r) => s.(channels := s.channels[Fold(params[0]) := r.ch])
  }

  // ---------------------------------------------------------------- JOIN keeps the invariant

  lemma WithMemberOk(k: string, ch: Channel, nextGen: nat, id: int)
    requires ChannelOk(k, ch, nextGen) && id !in ch.members && |ch.members| < MAX_USERS_PER_CHANNEL
    ensures ChannelOk(k, WithMember(ch, id), nextGen)
  {
    SubsetSize(ch.invited - {id}, ch.invited);
  }

  lemma FoundedOk(name: string, gen: nat, id: int)
    requires ValidChannelName(name)
    ensures ChannelOk(Fold(name), Founded(name, gen, id), gen + 1)
  {
  }

  /** What a channel entered by id has to do with the one that was there, if one was. */
  ghost predicate Entered(channels: map<string, Channel>, k: string, r: Channel, id: int, nextGen: nat)
  {
    if k in channels then
      && id !in channels[k].members && r.members == channels[k].members + {id} && r.gen == channels[k].gen
      && r.invited <= channels[k].invited
    else r.members == {id} && r.gen == nextGen && r.invited == {}
  }

  lemma EnterListOwn(id: int, ps: seq<ChanPtr>, channels: map<string, Channel>, k: string, r: Channel, nextGen: nat)
    requires ListOk(id, ps, channels) && |ps| < MAX_CHANNELS_PER_USER && Entered(channels, k, r, id, nextGen)
    ensures ListOk(id, ps + [PtrTo(k, r)], channels[k := r])
  {
    var p, cs := PtrTo(k, r), channels[k := r];
    assert p !in ps;
    assert forall q :: q in ps + [p] <==> q in ps || q == p;
  }

  lemma EnterPointer(i: int, channels: map<string, Channel>, k: string, r: Channel, id: int, nextGen: nat, p: ChanPtr)
    requires Live(channels, p) && i in channels[p.key].members && Entered(channels, k, r, id, nextGen)
    ensures Live(channels[k := r], p) && i in channels[k := r][p.key].members
  {
  }

  lemma EnterChannel(i: int, ps: seq<ChanPtr>, channels: map<string, Channel>, k: string, r: Channel, id: int,
                     nextGen: nat, j: string)
    requires Lists(i, ps, channels) && i != id && Entered(channels, k, r, id, nextGen)
    requires j in channels[k := r] && i in channels[k := r][j].members
    ensures PtrTo(j, channels[k := r][j]) in ps
  {
    assert j in channels && i in channels[j].members;
  }

  lemma EnterListOther(i: int, id: int, ps: seq<ChanPtr>, channels: map<string, Channel>, k: string, r: Channel,
                       nextGen: nat)
    requires ListOk(i, ps, channels) && i != id && Entered(channels, k, r, id, nextGen)
    ensures ListOk(i, ps, channels[k := r])
  {
    var cs := channels[k := r];
    forall p | p in ps
      ensures Live(cs, p) && i in cs[p.key].members
    {
      EnterPointer(i, channels, k, r, id, nextGen, p);
    }
    forall j | j in cs && i in cs[j].members
      ensures PtrTo(j, cs[j]) in ps
    {
      EnterChannel(i, ps, channels, k, r, id, nextGen, j);
    }
  }

  lemma EnterLists(s: State, id: int, k: string, r: Channel)
    requires ListsOk(s) && id in s.clients && |s.clients[id].channels| < MAX_CHANNELS_PER_USER
    requires Entered(s.channels, k, r, id, s.nextGen)
    ensures ListsOk(Enter(s, id, k, r))
  {
    var s' := Enter(s, id, k, r);
    forall i | i in s'.clients
      ensures ListOk(i, s'.clients[i].channels, s'.channels)
    {
      assert ListOk(i, s.clients[i].channels, s.channels);
      if i == id {
        EnterListOwn(id, s.clients[id].channels, s.channels, k, r, s.nextGen);
      } else {
        EnterListOther(i, id, s.clients[i].channels, s.channels, k, r, s.nextGen);
      }
    }
  }

  lemma EnterRoster(s: State, id: int, k: string, r: Channel)
    requires RosterOk(s) && id in s.clients && s.clients[id].registered
    requires Entered(s.channels, k, r, id, s.nextGen)
    ensures RosterOk(Enter(s, id, k, r))
  {
  }

  lemma EnterKeeps(s: State, id: int, k: string, r: Channel, nextGen: nat)
    requires Inv(s) && id in s.clients && s.clients[id].registered
    requires |s.clients[id].channels| < MAX_CHANNELS_PER_USER
    requires Entered(s.channels, k, r, id, s.nextGen) && ChannelOk(k, r, nextGen) && s.nextGen <= nextGen
    ensures Inv(Enter(s, id, k, r).(nextGen := nextGen))
  {
    var s' := Enter(s, id, k, r);
    EnterLists(s, id, k, r);
    EnterRoster(s, id, k, r);
    OnlyListsKeeps(s, s');
    EnterChannels(s.channels, s.nextGen, k, r, nextGen);
    WithNextGen(s', nextGen);
  }

  lemma EnterChannels(channels: map<string, Channel>, gen: nat, k: string, r: Channel, nextGen: nat)
    requires forall j :: j in channels ==> ChannelOk(j, channels[j], gen)
    requires ChannelOk(k, r, nextGen) && gen <= nextGen
    ensures var after := channels[k := r]; forall j :: j in after ==> ChannelOk(j, after[j], nextGen)
  {
    var after := channels[k := r];
    forall j | j in after
      ensures ChannelOk(j, after[j], nextGen)
    {
      assert j != k ==> ChannelOk(j, channels[j], gen);
    }
  }

  lemma WithNextGen(s: State, nextGen: nat)
    requires RosterOk(s) && ListsOk(s) && IndexOk(s) && ClientsOk(s)
    ensures var s' := s.(nextGen := nextGen); RosterOk(s') && ListsOk(s') && IndexOk(s') && ClientsOk(s')
  {
  }

  lemma JoinOneKeeps(s: State, id: int, name: string, key: string)
    requires Inv(s) && id in s.clients && s.clients[id].registered
    ensures Inv(JoinOne(s, id, name, key)) && JoinOne(s, id, name, key).clients[id].registered
  {
    var k := Fold(name);
    if Enters(s, id, name, key) {
      if k in s.channels {
        var r := WithMember(s.channels[k], id);
        WithMemberOk(k, s.channels[k], s.nextGen, id);
        EnterKeeps(s, id, k, r, s.nextGen);
        assert Enter(s, id, k, r).(nextGen := s.nextGen) == Enter(s, id, k, r);
      } else {
        FoundedOk(name, s.nextGen, id);
        EnterKeeps(s, id, k, Founded(name, s.nextGen, id), s.nextGen + 1);
      }
    }
  }

  lemma {:induction false} JoinFromKeeps(s: State, id: int, names: seq<string>, keys: seq<string>, i: nat)
    requires Inv(s) && id in s.clients && s.clients[id].registered && i <= |names|
    ensures Inv(JoinFrom(s, id, names, keys, i))
    decreases |names| - i
  {
    if i < |names| {
      JoinOneKeeps(s, id, names[i], KeyAt(keys, i));
      JoinFromKeeps(JoinOne(s, id, names[i], KeyAt(keys, i)), id, names, keys, i + 1);
    }
  }

  lemma JoinKeeps(s: State, id: int, params: seq<string>)
    requires Inv(s) && id in s.clients && s.clients[id].registered
    ensures Inv(Join(s, id, params))
  {
    if params != [] && params[0] != "" {
      if params[0] == "0" {
        PartAllKeeps(s, id);
      } else {
        JoinFromKeeps(s, id, FirstNames(Split(params[0], ',')), KeyList(params), 0);
      }
    }
  }

  // ---------------------------------------------------------------- the others keep it too

  lemma {:induction false} PartFromKeeps(s: State, id: int, names: seq<string>, i: nat)
    requires Inv(s) && id in s.clients && i <= |names|
    ensures Inv(PartFrom(s, id, names, i))
    decreases |names| - i
  {
    if i < |names| {
      var k := Fold(names[i]);
      if k in s.channels && id in s.channels[k].members {
        LeaveKeeps(s, id, k);
      }
      PartFromKeeps(PartNamed(s, id, names[i]), id, names, i + 1);
    }
  }

  lemma PartKeeps(s: State, id: int, params: seq<string>)
    requires Inv(s) && id in s.clients
    ensures Inv(Part(s, id, params))
  {
    if params != [] {
      PartFromKeeps(s, id, Split(params[0], ','), 0);
    }
  }

  lemma KickKeeps(s: State, id: int, params: seq<string>)
    requires Inv(s)
    ensures Inv(Kick(s, id, params))
  {
    match Kicked(s, id, params)
    case None =>
    case Some(t) => LeaveKeeps(s, t, Fold(params[0]));
  }

  /** A channel is replaced by one with the same members. */
  ghost predicate Resettled(s: State, k: string, r: Channel)
  {
    && k in s.channels && ChannelOk(k, r, s.nextGen)
    && r.members == s.channels[k].members && r.gen == s.channels[k].gen
    && forall i :: i in r.invited ==> i in s.clients
  }

  lemma ResettlePointer(i: int, channels: map<string, Channel>, k: string, r: Channel, p: ChanPtr)
    requires k in channels && r.members == channels[k].members && r.gen == channels[k].gen
    requires Live(channels, p) && i in channels[p.key].members
    ensures Live(channels[k := r], p) && i in channels[k := r][p.key].members
  {
  }

  lemma ResettleChannel(i: int, channels: map<string, Channel>, k: string, r: Channel, j: string)
    requires k in channels && r.members == channels[k].members && r.gen == channels[k].gen
    requires j in channels[k := r] && i in channels[k := r][j].members
    ensures j in channels && i in channels[j].members && PtrTo(j, channels[k := r][j]) == PtrTo(j, channels[j])
  {
  }

  lemma ResettledLists(i: int, ps: seq<ChanPtr>, channels: map<string, Channel>, k: string, r: Channel)
    requires Lists(i, ps, channels) && k in channels
    requires r.members == channels[k].members && r.gen == channels[k].gen
    ensures Lists(i, ps, channels[k := r])
  {
    var cs := channels[k := r];
    forall p | p in ps
      ensures Live(cs, p) && i in cs[p.key].members
    {
      ResettlePointer(i, channels, k, r, p);
    }
    forall j | j in cs && i in cs[j].members
      ensures PtrTo(j, cs[j]) in ps
    {
      ResettleChannel(i, channels, k, r, j);
    }
  }

  lemma ResettleList(i: int, ps: seq<ChanPtr>, channels: map<string, Channel>, k: string, r: Channel)
    requires ListOk(i, ps, channels) && k in channels
    requires r.members == channels[k].members && r.gen == channels[k].gen
    ensures ListOk(i, ps, channels[k := r])
  {
    ResettledLists(i, ps, channels, k, r);
  }

  lemma ResettleLists(s: State, k: string, r: Channel)
    requires ListsOk(s) && Resettled(s, k, r)
    ensures ListsOk(s.(channels := s.channels[k := r]))
  {
    var s' := s.(channels := s.channels[k := r]);
    forall i | i in s'.clients
      ensures ListOk(i, s'.clients[i].channels, s'.channels)
    {
      ResettleList(i, s.clients[i].channels, s.channels, k, r);
    }
  }

  lemma ResettleRoster(s: State, k: string, r: Channel)
    requires ChannelsOk(s) && RosterOk(s) && Resettled(s, k, r)
    ensures ChannelsOk(s.(channels := s.channels[k := r])) && RosterOk(s.(channels := s.channels[k := r]))
  {
  }

  lemma ResettleKeeps(s: State, k: string, r: Channel)
    requires Inv(s) && Resettled(s, k, r)
    ensures Inv(s.(channels := s.channels[k := r]))
  {
    ResettleLists(s, k, r);
    ResettleRoster(s, k, r);
  }

  lemma StampKeeps(s: State, id: int, now: int)
    requires Inv(s) && id in s.clients
    ensures Inv(Stamped(s, id, now))
  {
    assert RegistrationOk(s.clients[id]);
    OnClientKeeps(s, id, s.clients[id].(lastInviteAt := now));
  }

  lemma InvitedOk(s: State, k: string, t: int)
    requires ChannelsOk(s) && RosterOk(s) && k in s.channels && t in s.clients && t !in s.channels[k].members
    requires |s.channels[k].invited| < MAX_INVITES_PER_CHANNEL
    ensures Resettled(s, k, s.channels[k].(invited := s.channels[k].invited + {t}))
  {
    var ch := s.channels[k];
    assert ChannelOk(k, ch, s.nextGen);
    assert OrderOk(ch.(invited := ch.invited + {t})) && SettingsOk(ch.(invited := ch.invited + {t}));
  }

  lemma InviteAdds(s: State, k: string, t: int)
    requires Inv(s) && k in s.channels && t in s.clients && t !in s.channels[k].members
    requires |s.channels[k].invited| < MAX_INVITES_PER_CHANNEL
    ensures Inv(s.(channels := s.channels[k := s.channels[k].(invited := s.channels[k].invited + {t})]))
  {
    InvitedOk(s, k, t);
    ResettleKeeps(s, k, s.channels[k].(invited := s.channels[k].invited + {t}));
  }

  lemma SendInviteKeeps(s: State, id: int, k: string, t: int, now: int)
    requires Inv(s) && id in s.clients && k in s.channels && t in s.clients && t !in s.channels[k].members
    ensures Inv(SendInvite(s, id, k, t, now))
  {
    StampKeeps(s, id, now);
    var s1 := Stamped(s, id, now);
    assert s1.channels == s.channels && s1.clients.Keys == s.clients.Keys;
    if |s.channels[k].invited| < MAX_INVITES_PER_CHANNEL {
      InviteAdds(s1, k, t);
    }
  }

  lemma InviteKeeps(s: State, id: int, params: seq<string>, now: int)
    requires Inv(s) && id in s.clients
    ensures Inv(Invite(s, id, params, now))
  {
    match Invitee(s, id, params)
    case None =>
    case Some(t) => SendInviteKeeps(s, id, Fold(params[1]), t, now);
  }

  lemma ModeKeeps(s: State, id: int, params: seq<string>)
    requires Inv(s)
    ensures Inv(Mode(s, id, params))
  {
    match ModeRun(s, id, params)
    case None =>
    case Some(r) =>
      var k := Fold(params[0]);
      assert ChannelOk(k, s.channels[k], s.nextGen);
      ModeLoopKeeps(s, k, s.nextGen, params[1], Start(s.channels[k], params[2..]));
      ResettleKeeps(s, k, r.ch);
  }
}
