/** The server's shared tables, and the invariant that ties them together. */
module ServerState {
  import opened Wrappers
  import opened IrcText

  const MAX_CHANNELS_PER_USER := 20
  const MAX_USERS_PER_CHANNEL := 1000
  const MAX_BAN_LIST := 50
  const MAX_INVITES_PER_CHANNEL := 100
  const MAX_USER_LIMIT := 100000
  const NO_SEQ := 0xFFFF_FFFF_FFFF_FFFF

  /** A pointer into the channel table: the entry's key, and which allocation of it is meant.
      A channel that is erased and created again gets another gen. */
  datatype ChanPtr = ChanPtr(key: string, gen: nat)

  datatype Channel = Channel(name: string, gen: nat,
                             members: set<int>, operators: set<int>, voiced: set<int>, invited: set<int>,
                             inviteOnly: bool, topicRestricted: bool, moderated: bool,
                             key: string, userLimit: nat, banMasks: set<string>,
                             joinOrder: map<int, nat>, nextJoinSeq: nat)

  datatype Client = Client(host: string, nick: string, user: string, realname: string,
                           registered: bool, capNegotiating: bool, cap302: bool, enabledCaps: set<string>,
                           suppliedPass: string, marked: bool, lastInviteAt: int, channels: seq<ChanPtr>)

  datatype State = State(clients: map<int, Client>, nicks: map<string, int>, channels: map<string, Channel>,
                         nextCid: int, nextGen: nat, password: string)

  function Initial(password: string): State
  {
    State(map[], map[], map[], 1, 0, password)
  }

  function NewClient(host: string): Client
  {
    Client(host, "", "", "", false, false, false, {}, "", false, 0, [])
  }

  function NewChannel(name: string, gen: nat): Channel
  {
    Channel(name, gen, {}, {}, {}, {}, false, false, false, "", 0, {}, map[], 0)
  }

  // ---------------------------------------------------------------- lookups

  /** The live client a nick leads to through the index. */
  function FindByNick(s: State, nick: string): Option<int>
  {
    if Fold(nick) in s.nicks && s.nicks[Fold(nick)] in s.clients then Some(s.nicks[Fold(nick)]) else None
  }

  function PtrTo(k: string, ch: Channel): ChanPtr { ChanPtr(k, ch.gen) }

  /** The pointer leads to a channel that still exists, and to the one it was taken from. */
  predicate Live(channels: map<string, Channel>, p: ChanPtr)
  {
    p.key in channels && channels[p.key].gen == p.gen
  }

  function RemovePtr(ps: seq<ChanPtr>, p: ChanPtr): seq<ChanPtr>
  {
    if ps == [] then []
    else (if ps[0] == p then [] else [ps[0]]) + RemovePtr(ps[1..], p)
  }

  predicate NoDup<T(==)>(ps: seq<T>)
  {
    forall i, j :: 0 <= i < j < |ps| ==> ps[i] != ps[j]
  }

  lemma {:induction false} RemovePtrContents(ps: seq<ChanPtr>, p: ChanPtr)
    ensures forall q :: q in RemovePtr(ps, p) <==> q in ps && q != p
    ensures |RemovePtr(ps, p)| <= |ps|
    ensures NoDup(ps) ==> NoDup(RemovePtr(ps, p))
  {
    if ps != [] {
      RemovePtrContents(ps[1..], p);
      var rest := RemovePtr(ps[1..], p);
      assert forall q :: q in ps <==> q == ps[0] || q in ps[1..];
      if ps[0] == p {
        assert RemovePtr(ps, p) == rest;
      } else {
        assert forall q :: q in [ps[0]] + rest <==> q == ps[0] || q in rest;
      }
      if NoDup(ps) {
        assert ps[0] !in ps[1..];
        assert ps[0] !in rest;
      }
    }
  }

  // ---------------------------------------------------------------- the invariant

  predicate Injective(m: map<int, nat>)
  {
    forall i, j :: i in m && j in m && i != j ==> m[i] != m[j]
  }

  /** One channel, as stored under key k. */
  ghost predicate ChannelOk(k: string, ch: Channel, nextGen: nat)
  {
    && ValidChannelName(ch.name) && Fold(ch.name) == k && ch.gen < nextGen
    && 0 < |ch.members| <= MAX_USERS_PER_CHANNEL
    && ch.operators <= ch.members && ch.voiced <= ch.members && ch.invited !! ch.members
    && |ch.invited| <= MAX_INVITES_PER_CHANNEL
    && OrderOk(ch)
    && SettingsOk(ch)
  }

  /** Every member has its own place in the order of joining. */
  ghost predicate OrderOk(ch: Channel)
  {
    && ch.joinOrder.Keys == ch.members
    && Injective(ch.joinOrder)
    && forall id :: id in ch.joinOrder ==> ch.joinOrder[id] < ch.nextJoinSeq
  }

  ghost predicate SettingsOk(ch: Channel)
  {
    && ch.userLimit <= MAX_USER_LIMIT
    && |ch.banMasks| <= MAX_BAN_LIST
    && forall m :: m in ch.banMasks ==> '!' in m && '@' in m
  }

  ghost predicate ChannelsOk(s: State)
  {
    forall k :: k in s.channels ==> ChannelOk(k, s.channels[k], s.nextGen)
  }

  /** Members are live registered clients; invitations are to live clients. */
  ghost predicate RosterOk(s: State)
  {
    && (forall k, id :: k in s.channels && id in s.channels[k].members ==>
          id in s.clients && s.clients[id].registered)
    && (forall k, id :: k in s.channels && id in s.channels[k].invited ==> id in s.clients)
  }

  /** The pointers are the live channels with id among their members, no more and no fewer. */
  ghost predicate Lists(id: int, ps: seq<ChanPtr>, channels: map<string, Channel>)
  {
    && (forall p :: p in ps ==> Live(channels, p) && id in channels[p.key].members)
    && (forall k :: k in channels && id in channels[k].members ==> PtrTo(k, channels[k]) in ps)
  }

  /** A client's own list names, once each, exactly the live channels it is a member of. */
  ghost predicate ListOk(id: int, ps: seq<ChanPtr>, channels: map<string, Channel>)
  {
    NoDup(ps) && |ps| <= MAX_CHANNELS_PER_USER && Lists(id, ps, channels)
  }

  ghost predicate ListsOk(s: State)
  {
    forall id :: id in s.clients ==> ListOk(id, s.clients[id].channels, s.channels)
  }

  /** The nick index is a bijection with the clients that have a nick. */
  ghost predicate IndexOk(s: State)
  {
    && (forall n :: n in s.nicks ==>
          && s.nicks[n] in s.clients
          && s.clients[s.nicks[n]].nick != ""
          && Fold(s.clients[s.nicks[n]].nick) == n)
    && (forall id :: id in s.clients && s.clients[id].nick != "" ==>
          Fold(s.clients[id].nick) in s.nicks && s.nicks[Fold(s.clients[id].nick)] == id)
  }

  predicate Ready(c: Client) { c.nick != "" && c.user != "" && !c.capNegotiating }

  /** Registered means ready; and a client that is ready has been registered, unless it is on
      its way out. */
  predicate RegistrationOk(c: Client)
  {
    && (c.registered ==> Ready(c))
    && (Ready(c) && !c.marked ==> c.registered)
    && (c.nick != "" ==> ValidNick(c.nick))
    && (c.user != "" ==> ValidUsername(c.user))
  }

  ghost predicate ClientsOk(s: State)
  {
    && 0 < s.nextCid
    && forall id :: id in s.clients ==> 0 < id < s.nextCid && RegistrationOk(s.clients[id])
  }

  ghost predicate Inv(s: State)
  {
    ChannelsOk(s) && RosterOk(s) && ListsOk(s) && IndexOk(s) && ClientsOk(s)
  }

  // ---------------------------------------------------------------- one client changes

  function OnClient(s: State, id: int, c: Client): State
  {
    s.(clients := s.clients[id := c])
  }

  lemma OnClientTables(s: State, id: int, c: Client)
    requires IndexOk(s) && ClientsOk(s) && id in s.clients && RegistrationOk(c) && c.nick == s.clients[id].nick
    ensures IndexOk(OnClient(s, id, c)) && ClientsOk(OnClient(s, id, c))
  {
  }

  lemma OnClientLists(s: State, id: int, c: Client)
    requires ListsOk(s) && id in s.clients && c.channels == s.clients[id].channels
    ensures ListsOk(OnClient(s, id, c))
  {
    var s' := OnClient(s, id, c);
    forall i | i in s'.clients
      ensures ListOk(i, s'.clients[i].channels, s'.channels)
    {
      assert ListOk(i, s.clients[i].channels, s.channels);
    }
  }

  lemma OnClientRoster(s: State, id: int, c: Client)
    requires ChannelsOk(s) && RosterOk(s) && id in s.clients && (s.clients[id].registered ==> c.registered)
    ensures ChannelsOk(OnClient(s, id, c)) && RosterOk(OnClient(s, id, c))
  {
  }

  /** A change to one client that leaves its nick and its channels alone. */
  lemma OnClientKeeps(s: State, id: int, c: Client)
    requires Inv(s) && id in s.clients && RegistrationOk(c)
    requires c.nick == s.clients[id].nick && c.channels == s.clients[id].channels
    requires s.clients[id].registered ==> c.registered
    ensures Inv(OnClient(s, id, c))
  {
    OnClientTables(s, id, c);
    OnClientLists(s, id, c);
    OnClientRoster(s, id, c);
  }

  // ---------------------------------------------------------------- consequences

  /** findClientByNick is exact: it yields the one client whose nick is the same, if any. */
  lemma LookupExact(s: State, nick: string)
    requires IndexOk(s) && nick != ""
    ensures match FindByNick(s, nick)
            case Some(id) =>
              && id in s.clients && Fold(s.clients[id].nick) == Fold(nick)
              && (forall other :: other in s.clients && Fold(s.clients[other].nick) == Fold(nick) ==> other == id)
            case None => forall id :: id in s.clients ==> Fold(s.clients[id].nick) != Fold(nick)
  {
    forall id | id in s.clients && Fold(s.clients[id].nick) == Fold(nick)
      ensures FindByNick(s, nick) == Some(id)
    {
      assert |s.clients[id].nick| == |nick|;
      assert s.clients[id].nick != "";
    }
  }

  /** And it agrees with nickExists: no entry leads to a client that is gone. */
  lemma NoStaleNick(s: State, nick: string)
    requires IndexOk(s)
    ensures Fold(nick) in s.nicks <==> FindByNick(s, nick).Some?
  {
  }

  /** A client's announced nick resolves back to that client. */
  lemma OwnNickResolves(s: State, id: int)
    requires IndexOk(s) && id in s.clients && s.clients[id].nick != ""
    ensures FindByNick(s, s.clients[id].nick) == Some(id)
  {
  }

  /** No client holds a pointer to a channel that is gone or was replaced. */
  lemma NoDanglingPointer(s: State, id: int, p: ChanPtr)
    requires Inv(s) && id in s.clients && p in s.clients[id].channels
    ensures Live(s.channels, p) && id in s.channels[p.key].members
    ensures Fold(s.channels[p.key].name) == p.key
  {
  }
}
