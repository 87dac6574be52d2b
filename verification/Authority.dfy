/** Who may do what: every way in which a step can change a channel, and who has to be behind it. */
module Authority {
  import opened Wrappers
  import opened IrcText
  import opened Secret
  import Bans
  import Glob
  import IrcMessage
  import opened ServerState
  import opened Departures
  import opened Sweeps
  import opened SweepOrder
  import opened Membership
  import opened Modes
  import Registration
  import Runs
  import Words
  import Histories

  // ---------------------------------------------------------------- the lawful changes

  predicate Named(names: seq<string>, i: nat, k: string)
  {
    exists j :: i <= j < |names| && Fold(names[j]) == k
  }

  /** The names a JOIN looks at: the first ten of its list. */
  function JoinNames(params: seq<string>): seq<string>
  {
    if params == [] then []
    else
      var names := Split(params[0], ',');
      if |names| > 10 then names[..10] else names
  }

  /** The keys that come with a JOIN, the i-th for the i-th name. */
  function GivenKeys(params: seq<string>): seq<string>
  {
    if |params| >= 2 then Split(params[1], ',') else []
  }

  function GivenKey(keys: seq<string>, i: nat): string { if i < |keys| then keys[i] else "" }

  /** The rules of a channel for newcomers: no ban that fits, open to all, the right key if there
      is one, and a place left if there is a limit. An invitation stands for all of them. */
  predicate LetsIn(ch: Channel, x: int, c: Client, key: string)
  {
    || x in ch.invited
    || (&& (forall m :: m in ch.banMasks ==> !Glob.Greedy(m, c.nick + "!" + c.user + "@" + c.host))
        && !ch.inviteOnly
        && (ch.key == "" || ch.key == key)
        && (ch.userLimit == 0 || |ch.members| < ch.userLimit))
  }

  lemma AdmitsExact(ch: Channel, x: int, c: Client, key: string)
    ensures Admits(ch, x, c, key) <==> LetsIn(ch, x, c, key)
  {
    assert Bans.UserMask(c.nick, c.user, c.host) == c.nick + "!" + c.user + "@" + c.host;
  }

  lemma GivenNamesAndKeys(params: seq<string>, i: nat)
    requires params != []
    ensures JoinNames(params) == FirstNames(Split(params[0], ','))
    ensures GivenKeys(params) == KeyList(params)
    ensures GivenKey(GivenKeys(params), i) == KeyAt(KeyList(params), i)
  {
  }

  ghost predicate Untouched(s: State, s': State, k: string)
    requires k in s.channels
  {
    k in s'.channels && s'.channels[k] == s.channels[k]
  }

  /** id came in under the j-th name of a list, with the j-th key. */
  ghost predicate EnteredBy(s: State, s': State, k: string, id: int, names: seq<string>, keys: seq<string>, j: nat)
    requires k in s.channels
  {
    var ch := s.channels[k];
    && j < |names| && Fold(names[j]) == k
    && id in s.clients && id !in ch.members && LetsIn(ch, id, s.clients[id], GivenKey(keys, j))
    && |ch.members| < MAX_USERS_PER_CHANNEL
    && k in s'.channels && s'.channels[k] == WithMember(ch, id)
  }

  ghost predicate EnteredSomewhere(s: State, s': State, k: string, id: int, names: seq<string>, keys: seq<string>)
    requires k in s.channels
  {
    exists j :: EnteredBy(s, s', k, id, names, keys, j)
  }

  ghost predicate LeftBy(s: State, s': State, k: string, t: int)
    requires k in s.channels
  {
    var ch := s.channels[k];
    && t in ch.members
    && if ch.members - {t} == {} then k !in s'.channels
       else k in s'.channels && s'.channels[k] == Bereft(ch, t, s.clients.Keys)
  }

  ghost predicate KickedBy(s: State, s': State, k: string, id: int, nick: string, t: int)
    requires k in s.channels
  {
    id in s.channels[k].operators && FindByNick(s, nick) == Some(t) && LeftBy(s, s', k, t)
  }

  ghost predicate InvitedBy(s: State, s': State, k: string, id: int, t: int, now: int)
    requires k in s.channels
  {
    var ch := s.channels[k];
    && id in s.clients && id in ch.members && (ch.inviteOnly ==> id in ch.operators)
    && t in s.clients && s.clients[t].registered && t !in ch.members
    && now - s.clients[id].lastInviteAt >= INVITE_INTERVAL && |ch.invited| < MAX_INVITES_PER_CHANNEL
    && k in s'.channels && s'.channels[k] == ch.(invited := ch.invited + {t})
  }

  ghost predicate SetBy(s: State, s': State, k: string, id: int, flags: string, args: seq<string>)
    requires k in s.channels
  {
    && id in s.channels[k].operators
    && k in s'.channels && s'.channels[k] == ModeLoop(s, flags, Start(s.channels[k], args)).ch
  }

  /** Everything that a command from id can do to one existing channel: nothing; or, to a channel
      the command names, let id in by the rules and with the key that goes with the name, let id
      go, let go whom an operator kicks, note one invitation, or run an operator's mode list.
      Only JOIN 0 reaches channels it does not name. */
  ghost predicate Lawful(s: State, s': State, k: string, id: int, v: Runs.Verb, params: seq<string>, now: int)
    requires k in s.channels
  {
    || Untouched(s, s', k)
    || match v
       case Join =>
         params != [] &&
         if params[0] == "0" then LeftBy(s, s', k, id)
         else EnteredSomewhere(s, s', k, id, JoinNames(params), GivenKeys(params))
       case Part => params != [] && Named(Split(params[0], ','), 0, k) && LeftBy(s, s', k, id)
       case Kick => |params| >= 2 && Fold(params[0]) == k && exists t :: KickedBy(s, s', k, id, params[1], t)
       case Invite =>
         |params| >= 2 && Fold(params[1]) == k &&
         exists t :: FindByNick(s, params[0]) == Some(t) && InvitedBy(s, s', k, id, t, now)
       case Mode => |params| >= 2 && Fold(params[0]) == k && SetBy(s, s', k, id, params[1], params[2..])
       case _ => false
  }

  /** A new channel has the name as it was typed and nothing set, and its founder as only member
      and operator. */
  ghost predicate FoundedBy(s': State, k: string, id: int, names: seq<string>)
    requires k in s'.channels
  {
    var ch := s'.channels[k];
    exists j :: 0 <= j < |names| && Fold(names[j]) == k && ValidChannelName(names[j]) &&
      ch == Channel(names[j], ch.gen, {id}, {id}, {}, {}, false, false, false, "", 0, {}, map[id := 0], 1)
  }

  ghost predicate AllLawful(s: State, s': State, id: int, v: Runs.Verb, params: seq<string>, now: int)
  {
    && (forall k :: k in s.channels ==> Lawful(s, s', k, id, v, params, now))
    && (forall k :: k in s'.channels && k !in s.channels ==>
          v == Runs.Join && Named(JoinNames(params), 0, k) && FoundedBy(s', k, id, JoinNames(params)))
  }

  lemma SameChannelsLawful(s: State, s': State, id: int, v: Runs.Verb, params: seq<string>, now: int)
    requires s'.channels == s.channels
    ensures AllLawful(s, s', id, v, params, now)
  {
  }

  // ---------------------------------------------------------------- JOIN

  lemma JoinOneAt(s: State, id: int, names: seq<string>, keys: seq<string>, i: nat, k: string)
    requires id in s.clients && k in s.channels && i < |names|
    ensures var s' := JoinOne(s, id, names[i], KeyAt(keys, i));
            && (Untouched(s, s', k) || EnteredBy(s, s', k, id, names, keys, i))
            && id in s'.clients && s'.clients[id] == s.clients[id].(channels := s'.clients[id].channels)
  {
    AdmitsExact(s.channels[k], id, s.clients[id], GivenKey(keys, i));
  }

  /** A list lets a client into a channel at one of its names for it, by the key beside that name. */
  lemma {:induction false} JoinFromAt(s: State, id: int, names: seq<string>, keys: seq<string>, i: nat, k: string)
    requires id in s.clients && k in s.channels && i <= |names|
    ensures var s' := JoinFrom(s, id, names, keys, i);
            Untouched(s, s', k) || EnteredSomewhere(s, s', k, id, names, keys)
    decreases |names| - i
  {
    if i < |names| {
      var mid := JoinOne(s, id, names[i], KeyAt(keys, i));
      var s' := JoinFrom(mid, id, names, keys, i + 1);
      JoinOneAt(s, id, names, keys, i, k);
      assert k in mid.channels;
      JoinFromAt(mid, id, names, keys, i + 1, k);
      EnteredOnce(s, mid, s', k, id, names, keys, i);
    }
  }

  /** Two stretches of a list let a client in at most once between them. */
  lemma EnteredOnce(s: State, mid: State, s': State, k: string, id: int, names: seq<string>, keys: seq<string>, i: nat)
    requires k in s.channels && k in mid.channels && id in s.clients && id in mid.clients
    requires mid.clients[id] == s.clients[id].(channels := mid.clients[id].channels)
    requires Untouched(s, mid, k) || EnteredBy(s, mid, k, id, names, keys, i)
    requires Untouched(mid, s', k) || EnteredSomewhere(mid, s', k, id, names, keys)
    ensures Untouched(s, s', k) || EnteredSomewhere(s, s', k, id, names, keys)
  {
    if j :| EnteredBy(mid, s', k, id, names, keys, j) {
      assert EnteredBy(s, s', k, id, names, keys, j);
    } else if !Untouched(s, mid, k) {
      assert EnteredBy(s, s', k, id, names, keys, i);
    }
  }

  lemma JoinOneNew(s: State, id: int, names: seq<string>, key: string, i: nat, k: string)
    requires id in s.clients && i < |names| && k !in s.channels && k in JoinOne(s, id, names[i], key).channels
    ensures k == Fold(names[i]) && FoundedBy(JoinOne(s, id, names[i], key), k, id, names)
    ensures id in JoinOne(s, id, names[i], key).channels[k].members
  {
  }

  lemma {:induction false} JoinFromNew(s: State, id: int, names: seq<string>, keys: seq<string>, i: nat, k: string)
    requires id in s.clients && i <= |names|
    requires k !in s.channels && k in JoinFrom(s, id, names, keys, i).channels
    ensures Named(names, i, k) && FoundedBy(JoinFrom(s, id, names, keys, i), k, id, names)
    decreases |names| - i
  {
    if i < |names| {
      var mid := JoinOne(s, id, names[i], KeyAt(keys, i));
      if k in mid.channels {
        JoinOneNew(s, id, names, KeyAt(keys, i), i, k);
        JoinFromAt(mid, id, names, keys, i + 1, k);
      } else {
        JoinFromNew(mid, id, names, keys, i + 1, k);
      }
    }
  }

  lemma PartAllAt(s: State, id: int, k: string)
    requires Inv(s) && id in s.clients && k in s.channels
    ensures Untouched(s, PartAll(s, id), k) || LeftBy(s, PartAll(s, id), k, id)
  {
    var ps := s.clients[id].channels;
    assert ListOk(id, ps, s.channels);
    OwnListWalkable(id, ps, s.channels);
    PartWalkForm(s.channels, id, ps, s.clients.Keys);
  }

  lemma PartAllKeys(s: State, id: int)
    requires Inv(s) && id in s.clients
    ensures PartAll(s, id).channels.Keys <= s.channels.Keys
  {
    var ps := s.clients[id].channels;
    assert ListOk(id, ps, s.channels);
    OwnListWalkable(id, ps, s.channels);
    PartWalkForm(s.channels, id, ps, s.clients.Keys);
  }

  lemma JoinListLawful(s: State, id: int, params: seq<string>, now: int)
    requires id in s.clients && params != [] && params[0] != "" && params[0] != "0"
    ensures AllLawful(s, Membership.Join(s, id, params), id, Runs.Join, params, now)
  {
    var s' := Membership.Join(s, id, params);
    var names, keys := JoinNames(params), GivenKeys(params);
    GivenNamesAndKeys(params, 0);
    assert s' == JoinFrom(s, id, names, keys, 0);
    forall k | k in s.channels
      ensures Lawful(s, s', k, id, Runs.Join, params, now)
    {
      JoinFromAt(s, id, names, keys, 0, k);
    }
    forall k | k in s'.channels && k !in s.channels
      ensures Named(names, 0, k) && FoundedBy(s', k, id, names)
    {
      JoinFromNew(s, id, names, keys, 0, k);
    }
  }

  lemma JoinLawful(s: State, id: int, params: seq<string>, now: int)
    requires Inv(s) && id in s.clients
    ensures AllLawful(s, Membership.Join(s, id, params), id, Runs.Join, params, now)
  {
    var s' := Membership.Join(s, id, params);
    if params == [] || params[0] == "" {
      SameChannelsLawful(s, s', id, Runs.Join, params, now);
    } else if params[0] == "0" {
      PartAllKeys(s, id);
      forall k | k in s.channels
        ensures Lawful(s, s', k, id, Runs.Join, params, now)
      {
        PartAllAt(s, id, k);
      }
    } else {
      JoinListLawful(s, id, params, now);
    }
  }

  // ---------------------------------------------------------------- PART, KICK

  lemma LeaveAt(s: State, t: int, name: string, k: string)
    requires t in s.clients && Fold(name) in s.channels && t in s.channels[Fold(name)].members && k in s.channels
    ensures var s' := Leave(s, t, Fold(name));
            (k != Fold(name) ==> Untouched(s, s', k)) && (k == Fold(name) ==> LeftBy(s, s', k, t))
    ensures Leave(s, t, Fold(name)).channels.Keys <= s.channels.Keys
  {
    BereftFields(s.channels[Fold(name)], t, s.clients.Keys);
  }

  lemma PartNamedAt(s: State, id: int, name: string, k: string)
    requires id in s.clients && k in s.channels
    ensures Untouched(s, PartNamed(s, id, name), k) || (Fold(name) == k && LeftBy(s, PartNamed(s, id, name), k, id))
  {
    if Fold(name) in s.channels && id in s.channels[Fold(name)].members {
      LeaveAt(s, id, name, k);
    }
  }

  lemma PartNamedKeys(s: State, id: int, name: string)
    requires id in s.clients
    ensures PartNamed(s, id, name).channels.Keys <= s.channels.Keys
  {
  }

  lemma {:induction false} PartFromKeys(s: State, id: int, names: seq<string>, i: nat)
    requires id in s.clients && i <= |names|
    ensures PartFrom(s, id, names, i).channels.Keys <= s.channels.Keys
    decreases |names| - i
  {
    if i < |names| {
      PartNamedKeys(s, id, names[i]);
      PartFromKeys(PartNamed(s, id, names[i]), id, names, i + 1);
    }
  }

  /** A channel one has left is not touched again by the rest of the list. */
  lemma {:induction false} PartFromAt(s: State, id: int, names: seq<string>, i: nat, k: string)
    requires id in s.clients && k in s.channels && i <= |names|
    ensures var s' := PartFrom(s, id, names, i);
            Untouched(s, s', k) || (Named(names, i, k) && LeftBy(s, s', k, id))
    decreases |names| - i
  {
    if i < |names| {
      var mid := PartNamed(s, id, names[i]);
      PartNamedAt(s, id, names[i], k);
      PartFromKeys(mid, id, names, i + 1);
      if k in mid.channels {
        BereftFields(s.channels[k], id, s.clients.Keys);
        PartFromAt(mid, id, names, i + 1, k);
      }
    }
  }

  lemma PartLawful(s: State, id: int, params: seq<string>, now: int)
    requires id in s.clients
    ensures AllLawful(s, Part(s, id, params), id, Runs.Part, params, now)
  {
    if params == [] {
      SameChannelsLawful(s, s, id, Runs.Part, params, now);
    } else {
      var names := Split(params[0], ',');
      PartFromKeys(s, id, names, 0);
      forall k | k in s.channels
        ensures Lawful(s, Part(s, id, params), k, id, Runs.Part, params, now)
      {
        PartFromAt(s, id, names, 0, k);
      }
    }
  }

  lemma KickLawful(s: State, id: int, params: seq<string>, now: int)
    requires id in s.clients
    ensures AllLawful(s, Kick(s, id, params), id, Runs.Kick, params, now)
  {
    var s' := Kick(s, id, params);
    match Kicked(s, id, params)
    case None => SameChannelsLawful(s, s, id, Runs.Kick, params, now);
    case Some(t) =>
      forall k | k in s.channels
        ensures Untouched(s, s', k) || (Fold(params[0]) == k && KickedBy(s, s', k, id, params[1], t))
        ensures s'.channels.Keys <= s.channels.Keys
      {
        LeaveAt(s, t, params[0], k);
      }
  }

  // ---------------------------------------------------------------- INVITE, MODE

  lemma InviteLawful(s: State, id: int, params: seq<string>, now: int)
    requires id in s.clients
    ensures AllLawful(s, Invite(s, id, params, now), id, Runs.Invite, params, now)
  {
    match Invitee(s, id, params)
    case None => SameChannelsLawful(s, s, id, Runs.Invite, params, now);
    case Some(t) =>
      var s' := Invite(s, id, params, now);
      forall k | k in s.channels
        ensures Untouched(s, s', k) || (Fold(params[1]) == k && InvitedBy(s, s', k, id, t, now))
      {
      }
  }

  lemma ModeLawful(s: State, id: int, params: seq<string>, now: int)
    requires id in s.clients
    ensures AllLawful(s, Mode(s, id, params), id, Runs.Mode, params, now)
  {
    var s' := Mode(s, id, params);
    match ModeRun(s, id, params)
    case None => SameChannelsLawful(s, s, id, Runs.Mode, params, now);
    case Some(r) =>
      forall k | k in s.channels
        ensures Untouched(s, s', k) || (Fold(params[0]) == k && SetBy(s, s', k, id, params[1], params[2..]))
      {
      }
  }

  // ---------------------------------------------------------------- every command

  lemma ExecuteLawful(s: State, id: int, v: Runs.Verb, params: seq<string>, now: int)
    requires Inv(s) && id in s.clients
    ensures AllLawful(s, Runs.Execute(s, id, v, params, now), id, v, params, now)
  {
    match v
    case Join => JoinLawful(s, id, params, now);
    case Part => PartLawful(s, id, params, now);
    case Kick => KickLawful(s, id, params, now);
    case Invite => InviteLawful(s, id, params, now);
    case Mode => ModeLawful(s, id, params, now);
    case _ => SameChannelsLawful(s, Runs.Execute(s, id, v, params, now), id, v, params, now);
  }

  /** A line that runs a command changes each channel in at most one lawful way, however many
      names it lists, and a channel that is new was named and has its founder as only member and
      operator. Any other line changes nothing. */
  lemma LineLawful(s: State, id: int, line: string, now: int)
    requires Inv(s) && id in s.clients
    ensures match Words.Command(s, id, line)
            case Some(v) =>
              && !v.Asking? && Words.Gives(s, id, line, v)
              && AllLawful(s, Runs.HandleLine(s, id, line, now), id, v, Words.Params(line), now)
            case None => Runs.HandleLine(s, id, line, now) == s
  {
    Words.LineRuns(s, id, line, now);
    var v := Words.Command(s, id, line);
    if v.Some? {
      ExecuteLawful(s, id, v.value, Words.Params(line), now);
    }
  }

  /** The channels that a command names. */
  predicate Mentions(v: Runs.Verb, params: seq<string>, k: string)
  {
    match v
    case Join => Named(JoinNames(params), 0, k)
    case Part => params != [] && Named(Split(params[0], ','), 0, k)
    case Kick => params != [] && Fold(params[0]) == k
    case Invite => |params| >= 2 && Fold(params[1]) == k
    case Mode => params != [] && Fold(params[0]) == k
    case _ => false
  }

  /** A line leaves every channel alone that it does not name, JOIN 0 apart. */
  lemma LineFrame(s: State, id: int, line: string, now: int, k: string)
    requires Inv(s) && id in s.clients
    requires match Words.Command(s, id, line)
             case Some(v) =>
               var params := Words.Params(line);
               !Mentions(v, params, k) && !(v == Runs.Join && params != [] && params[0] == "0")
             case None => true
    ensures var s' := Runs.HandleLine(s, id, line, now);
            (k in s'.channels <==> k in s.channels) && (k in s.channels ==> Untouched(s, s', k))
  {
    LineLawful(s, id, line, now);
    var s' := Runs.HandleLine(s, id, line, now);
    match Words.Command(s, id, line)
    case Some(v) =>
      if k in s.channels {
        assert Lawful(s, s', k, id, v, Words.Params(line), now);
        LawfulMentions(s, s', k, id, v, Words.Params(line), now);
      }
    case None =>
  }

  lemma LawfulMentions(s: State, s': State, k: string, id: int, v: Runs.Verb, params: seq<string>, now: int)
    requires k in s.channels && Lawful(s, s', k, id, v, params, now)
    ensures Untouched(s, s', k) || Mentions(v, params, k) || (v == Runs.Join && params != [] && params[0] == "0")
  {
    if v.Join? && !Untouched(s, s', k) && params[0] != "0" {
      var j :| EnteredBy(s, s', k, id, JoinNames(params), GivenKeys(params), j);
      assert Named(JoinNames(params), 0, k);
    }
  }

  // ---------------------------------------------------------------- what this means for members

  /** x came into k by its own JOIN: some name of the list is k's, and k admits x with the key
      that stands beside that name. */
  ghost predicate JoinedBy(s: State, x: int, k: string, params: seq<string>, j: nat)
    requires k in s.channels
  {
    var names := JoinNames(params);
    && j < |names| && Fold(names[j]) == k && x in s.clients
    && LetsIn(s.channels[k], x, s.clients[x], GivenKey(GivenKeys(params), j))
  }

  lemma LawfulGain(s: State, s': State, k: string, id: int, v: Runs.Verb, params: seq<string>, now: int, x: int)
    requires ChannelsOk(s) && k in s.channels && k in s'.channels && Lawful(s, s', k, id, v, params, now)
    requires x in s'.channels[k].members && x !in s.channels[k].members
    ensures v == Runs.Join && x == id && exists j :: JoinedBy(s, x, k, params, j)
  {
    var ch := s.channels[k];
    assert ChannelOk(k, ch, s.nextGen);
    if v.Join? && params[0] != "0" {
      var j :| EnteredBy(s, s', k, id, JoinNames(params), GivenKeys(params), j);
      assert JoinedBy(s, id, k, params, j);
    } else if v.Mode? {
      ModeLoopKeeps(s, k, s.nextGen, params[1], Start(ch, params[2..]));
    } else {
      NoOtherGain(s, s', k, id, v, params, now);
    }
  }

  lemma NoOtherGain(s: State, s': State, k: string, id: int, v: Runs.Verb, params: seq<string>, now: int)
    requires k in s.channels && k in s'.channels && Lawful(s, s', k, id, v, params, now)
    requires !v.Mode? && (v.Join? ==> params == [] || params[0] == "0")
    ensures s'.channels[k].members <= s.channels[k].members
  {
    if t :| LeftBy(s, s', k, t) {
      BereftFields(s.channels[k], t, s.clients.Keys);
    }
  }

  /** A command of id that takes x off k: its own JOIN 0, its own PART with k in the list, or the
      KICK of one of k's operators that names k and x. */
  predicate TakesOff(s: State, id: int, v: Runs.Verb, params: seq<string>, k: string, x: int)
    requires k in s.channels && x in s.clients
  {
    match v
    case Join => x == id && params != [] && params[0] == "0"
    case Part => x == id && params != [] && Named(Split(params[0], ','), 0, k)
    case Kick =>
      |params| >= 2 && Fold(params[0]) == k && id in s.channels[k].operators &&
      Fold(params[1]) == Fold(s.clients[x].nick)
    case _ => false
  }

  lemma LawfulLoss(s: State, s': State, k: string, id: int, v: Runs.Verb, params: seq<string>, now: int, x: int)
    requires ChannelsOk(s) && IndexOk(s) && k in s.channels && Lawful(s, s', k, id, v, params, now)
    requires On(s, k, x) && !On(s', k, x) && x in s.clients
    ensures TakesOff(s, id, v, params, k, x)
  {
    var ch := s.channels[k];
    assert ChannelOk(k, ch, s.nextGen);
    if v.Mode? {
      ModeLoopKeeps(s, k, s.nextGen, params[1], Start(ch, params[2..]));
    } else if v.Kick? && !Untouched(s, s', k) {
      var t :| KickedBy(s, s', k, id, params[1], t);
      BereftFields(ch, t, s.clients.Keys);
      assert x == t || x in ch.members - {t};
    } else if LeftBy(s, s', k, id) {
      BereftFields(ch, id, s.clients.Keys);
      assert x == id || x in ch.members - {id};
    }
  }

  lemma PartAllTakesOff(s: State, id: int, k: string)
    requires Inv(s) && id in s.clients
    ensures !On(PartAll(s, id), k, id)
  {
    var ps := s.clients[id].channels;
    assert ListOk(id, ps, s.channels);
    OwnListWalkable(id, ps, s.channels);
    PartWalkForm(s.channels, id, ps, s.clients.Keys);
    if On(s, k, id) {
      BereftFields(s.channels[k], id, s.clients.Keys);
    }
  }

  lemma PartTakesOff(s: State, id: int, params: seq<string>, k: string)
    requires id in s.clients && On(s, k, id) && params != [] && Named(Split(params[0], ','), 0, k)
    ensures !On(Part(s, id, params), k, id)
  {
    PartExact(s, id, Split(params[0], ','), 0, k);
  }

  lemma JoinZeroTakesOff(s: State, id: int, params: seq<string>, k: string)
    requires Inv(s) && id in s.clients && params != [] && params[0] == "0"
    ensures !On(Membership.Join(s, id, params), k, id)
  {
    PartAllTakesOff(s, id, k);
    assert Membership.Join(s, id, params) == PartAll(s, id);
  }

  /** Nobody is put into an existing channel but by its own JOIN, registered, by naming the channel
      and past every rule the channel has at that moment, with the key given for that name. */
  lemma EntryIsAuthorised(s: State, e: Runs.Event, k: string, x: int)
    requires Inv(s) && k in s.channels && k in Runs.Step(s, e).channels
    requires x !in s.channels[k].members && x in Runs.Step(s, e).channels[k].members
    ensures e.Line? && e.id == x && x in s.clients && s.clients[x].registered
    ensures Words.Says(e.text, "JOIN")
    ensures exists j :: JoinedBy(s, x, k, Words.Params(e.text), j)
  {
    if e.Line? && e.id in s.clients {
      LineLawful(s, e.id, e.text, e.now);
      var v := Words.Command(s, e.id, e.text);
      if v.Some? {
        LawfulGain(s, Runs.Step(s, e), k, e.id, v.value, Words.Params(e.text), e.now, x);
      }
      if !s.clients[e.id].registered {
        Histories.StrangersTouchNothing(s, e.id, e.text, e.now);
      }
    } else if e.Sweep? {
      GoneAllMembers(s.channels[k], Runs.Marked(s));
    }
  }

  lemma SweptMember(channels: map<string, Channel>, ids: set<int>, k: string, x: int)
    requires k in channels && x in channels[k].members
    ensures var after := ChannelsWithout(channels, ids);
            x in ids <==> !(k in after && x in after[k].members)
  {
    GoneAllMembers(channels[k], ids);
    assert x in ids || x in channels[k].members - ids;
  }

  /** What takes a member off a channel: the line JOIN 0 of its own, its own PART that lists the
      channel, the KICK of an operator that names channel and member, or the teardown of a client
      that was marked. */
  ghost predicate RemovedBy(s: State, e: Runs.Event, k: string, x: int)
    requires k in s.channels && x in s.clients
  {
    match e
    case Line(id, text, _) => id in s.clients && SentOff(s, id, text, k, x)
    case Sweep(_) => s.clients[x].marked
    case _ => false
  }

  predicate SentOff(s: State, id: int, line: string, k: string, x: int)
    requires k in s.channels && x in s.clients
  {
    var params := Words.Params(line);
    || (x == id && Words.Says(line, "JOIN") && params != [] && params[0] == "0")
    || (x == id && Words.Says(line, "PART") && params != [] && Named(Split(params[0], ','), 0, k))
    || (&& Words.Says(line, "KICK") && |params| >= 2 && Fold(params[0]) == k
        && id in s.channels[k].operators && Fold(params[1]) == Fold(s.clients[x].nick))
  }

  lemma MemberIsRegistered(s: State, k: string, x: int)
    requires RosterOk(s) && On(s, k, x)
    ensures x in s.clients && s.clients[x].registered
  {
  }

  /** A command that takes x off, said in words. */
  lemma TakenOffInWords(s: State, id: int, line: string, v: Runs.Verb, k: string, x: int)
    requires k in s.channels && x in s.clients && !v.Asking? && Words.Gives(s, id, line, v)
    ensures TakesOff(s, id, v, Words.Params(line), k, x) ==> SentOff(s, id, line, k, x)
  {
  }

  lemma JoinZeroLeaves(s: State, id: int, line: string, now: int, params: seq<string>, k: string)
    requires Inv(s) && Words.Gives(s, id, line, Runs.Join)
    requires params == Words.Params(line) && params != [] && params[0] == "0"
    ensures !On(Runs.HandleLine(s, id, line, now), k, id)
  {
    Words.JoinGiven(s, id, line, now);
    JoinZeroTakesOff(s, id, params, k);
  }

  lemma PartLeaves(s: State, id: int, line: string, now: int, params: seq<string>, k: string)
    requires On(s, k, id) && Words.Gives(s, id, line, Runs.Part)
    requires params == Words.Params(line) && params != [] && Named(Split(params[0], ','), 0, k)
    ensures !On(Runs.HandleLine(s, id, line, now), k, id)
  {
    Words.PartGiven(s, id, line, now);
    PartTakesOff(s, id, params, k);
  }

  lemma KickLeaves(s: State, id: int, line: string, now: int, params: seq<string>, k: string, x: int)
    requires Inv(s) && On(s, k, x) && x in s.clients && Words.Gives(s, id, line, Runs.Kick)
    requires params == Words.Params(line) && |params| >= 2 && Fold(params[0]) == k
    requires id in s.channels[k].operators && Fold(params[1]) == Fold(s.clients[x].nick)
    ensures !On(Runs.HandleLine(s, id, line, now), k, x)
  {
    Words.KickGiven(s, id, line, now);
    KickExact(s, id, params, k, x);
  }

  /** Who says such a line is heard. */
  lemma SentOffGives(s: State, id: int, line: string)
    requires id in s.clients && s.clients[id].registered
    ensures Words.Says(line, "JOIN") && Words.Params(line) != [] ==> Words.Gives(s, id, line, Runs.Join)
    ensures Words.Says(line, "PART") ==> Words.Gives(s, id, line, Runs.Part)
    ensures Words.Says(line, "KICK") ==> Words.Gives(s, id, line, Runs.Kick)
  {
  }

  lemma SenderIsRegistered(s: State, id: int, line: string, k: string, x: int)
    requires ChannelsOk(s) && RosterOk(s) && On(s, k, x) && x in s.clients && SentOff(s, id, line, k, x)
    ensures id in s.clients && s.clients[id].registered
  {
    assert ChannelOk(k, s.channels[k], s.nextGen);
    assert id in s.channels[k].members;
    MemberIsRegistered(s, k, id);
  }

  lemma SentOffLeaves(s: State, id: int, line: string, now: int, k: string, x: int)
    requires Inv(s) && id in s.clients && On(s, k, x) && x in s.clients && SentOff(s, id, line, k, x)
    ensures !On(Runs.HandleLine(s, id, line, now), k, x)
  {
    SenderIsRegistered(s, id, line, k, x);
    SentOffGives(s, id, line);
    var params := Words.Params(line);
    if x == id && Words.Says(line, "JOIN") && params != [] && params[0] == "0" {
      JoinZeroLeaves(s, id, line, now, params, k);
    } else if x == id && Words.Says(line, "PART") && params != [] && Named(Split(params[0], ','), 0, k) {
      PartLeaves(s, id, line, now, params, k);
    } else {
      KickLeaves(s, id, line, now, params, k, x);
    }
  }

  lemma LineExit(s: State, id: int, line: string, now: int, k: string, x: int)
    requires Inv(s) && id in s.clients && On(s, k, x) && x in s.clients
    ensures !On(Runs.HandleLine(s, id, line, now), k, x) <==> SentOff(s, id, line, k, x)
  {
    LineLawful(s, id, line, now);
    var v := Words.Command(s, id, line);
    if SentOff(s, id, line, k, x) {
      SentOffLeaves(s, id, line, now, k, x);
    } else if v.Some? && !On(Runs.HandleLine(s, id, line, now), k, x) {
      LawfulLoss(s, Runs.HandleLine(s, id, line, now), k, id, v.value, Words.Params(line), now, x);
      TakenOffInWords(s, id, line, v.value, k, x);
    }
  }

  lemma QuietExit(s: State, e: Runs.Event, k: string, x: int)
    requires On(s, k, x) && x in s.clients && !e.Sweep? && !(e.Line? && e.id in s.clients)
    ensures On(Runs.Step(s, e), k, x) && !RemovedBy(s, e, k, x)
  {
    assert Runs.Step(s, e).channels == s.channels;
  }

  lemma SweepExit(s: State, now: int, k: string, x: int)
    requires On(s, k, x) && x in s.clients
    ensures !On(Runs.Step(s, Runs.Sweep(now)), k, x) <==> RemovedBy(s, Runs.Sweep(now), k, x)
  {
    SweptMember(s.channels, Runs.Marked(s), k, x);
  }

  /** Over all steps, a member loses its place in a channel exactly by one of these. */
  lemma ExitIsAuthorised(s: State, e: Runs.Event, k: string, x: int)
    requires Inv(s) && On(s, k, x)
    ensures x in s.clients
    ensures !On(Runs.Step(s, e), k, x) <==> RemovedBy(s, e, k, x)
  {
    MemberHasNick(s, k, x);
    match e
    case Sweep(now) => SweepExit(s, now, k, x);
    case Line(id, text, now) =>
      if id in s.clients {
        LineExit(s, id, text, now, k, x);
      } else {
        QuietExit(s, e, k, x);
      }
    case _ => QuietExit(s, e, k, x);
  }

  // ---------------------------------------------------------------- settings

  /** The settings of a channel, its voices included as far as they are granted. */
  ghost predicate SameSettings(ch: Channel, ch': Channel)
  {
    && ch'.name == ch.name && ch'.inviteOnly == ch.inviteOnly && ch'.topicRestricted == ch.topicRestricted
    && ch'.moderated == ch.moderated && ch'.key == ch.key && ch'.userLimit == ch.userLimit
    && ch'.banMasks == ch.banMasks && ch'.voiced == ch.voiced * ch'.members
  }

  lemma LawfulSettings(s: State, s': State, k: string, id: int, v: Runs.Verb, params: seq<string>, now: int)
    requires ChannelsOk(s) && k in s.channels && k in s'.channels && Lawful(s, s', k, id, v, params, now)
    ensures SameSettings(s.channels[k], s'.channels[k]) || (v == Runs.Mode && id in s.channels[k].operators)
  {
    assert ChannelOk(k, s.channels[k], s.nextGen);
    if t :| LeftBy(s, s', k, t) {
      BereftFields(s.channels[k], t, s.clients.Keys);
    }
  }

  lemma SweptSettings(ch: Channel, ids: set<int>)
    requires ch.voiced <= ch.members
    ensures SameSettings(ch, GoneAll(ch, ids)) && GoneAll(ch, ids).invited <= ch.invited
  {
  }

  /** A step that is not a client's line leaves every surviving channel's settings alone. */
  lemma QuietStep(s: State, e: Runs.Event, k: string)
    requires ChannelsOk(s) && k in s.channels && k in Runs.Step(s, e).channels
    requires !(e.Line? && e.id in s.clients)
    ensures SameSettings(s.channels[k], Runs.Step(s, e).channels[k])
    ensures Runs.Step(s, e).channels[k].invited <= s.channels[k].invited
  {
    assert ChannelOk(k, s.channels[k], s.nextGen);
    if e.Sweep? {
      SweptSettings(s.channels[k], Runs.Marked(s));
    } else {
      assert Runs.Step(s, e).channels == s.channels;
    }
  }

  /** Modes, key, limit, bans and voices of a channel change only by the line of one of its
      operators. */
  lemma SettingsAreAuthorised(s: State, e: Runs.Event, k: string)
    requires Inv(s) && k in s.channels && k in Runs.Step(s, e).channels
    requires !SameSettings(s.channels[k], Runs.Step(s, e).channels[k])
    ensures e.Line? && e.id in s.clients && e.id in s.channels[k].operators
    ensures Words.Says(e.text, "MODE")
  {
    if e.Line? && e.id in s.clients {
      LineLawful(s, e.id, e.text, e.now);
      var v := Words.Command(s, e.id, e.text);
      if v.Some? {
        LawfulSettings(s, Runs.Step(s, e), k, e.id, v.value, Words.Params(e.text), e.now);
      }
    } else {
      QuietStep(s, e, k);
    }
  }

  // ---------------------------------------------------------------- operators

  /** x took over a channel that nobody who stayed was in charge of, as the member that had
      joined first. */
  ghost predicate SucceededTo(ch: Channel, ch': Channel, x: int)
  {
    && ch.operators !! ch'.members && ch'.operators == {x} && x in ch'.members
    && forall m :: m in ch'.members && m != x ==> Seq(ch, x) < Seq(ch, m)
  }

  lemma HeirSucceeds(ch: Channel, w: Channel, ids: set<int>)
    requires OrderOk(ch) && w == WithoutAll(ch, ids) && w.operators == {} && w.members != {}
    ensures SucceededTo(ch, w.(operators := {Heir(w)}), Heir(w))
  {
    var x := Heir(w);
    forall m | m in w.members && m != x
      ensures Seq(ch, x) < Seq(ch, m)
    {
      assert Seq(w, x) <= Seq(w, m);
      assert x in ch.joinOrder && m in ch.joinOrder;
    }
    assert forall o :: o in ch.operators ==> o in ids || o in ch.operators - ids;
  }

  lemma BereftOperators(ch: Channel, t: int, live: set<int>, x: int)
    requires OrderOk(ch) && ch.members - {t} != {}
    requires x in Bereft(ch, t, live).operators && x !in ch.operators
    ensures SucceededTo(ch, Bereft(ch, t, live), x)
  {
    var w := Without(ch, t);
    assert w == WithoutAll(ch, {t});
    if w.operators == {} {
      HeirSucceeds(ch, w, {t});
    }
  }

  lemma LawfulOperators(s: State, s': State, k: string, id: int, v: Runs.Verb, params: seq<string>, now: int, x: int)
    requires ChannelsOk(s) && k in s.channels && k in s'.channels && Lawful(s, s', k, id, v, params, now)
    requires x in s'.channels[k].operators && x !in s.channels[k].operators
    ensures || (v == Runs.Mode && id in s.channels[k].operators)
            || SucceededTo(s.channels[k], s'.channels[k], x)
  {
    assert OrderOk(s.channels[k]) by {
      assert ChannelOk(k, s.channels[k], s.nextGen);
    }
    if t :| LeftBy(s, s', k, t) {
      BereftOperators(s.channels[k], t, s.clients.Keys, x);
    }
  }

  lemma SweptOperators(ch: Channel, ids: set<int>, x: int)
    requires OrderOk(ch) && ch.members - ids != {}
    requires x in GoneAll(ch, ids).operators && x !in ch.operators
    ensures SucceededTo(ch, GoneAll(ch, ids), x)
  {
    var w := WithoutAll(ch, ids);
    if w.operators == {} {
      HeirSucceeds(ch, w, ids);
    }
  }

  /** Nobody becomes operator of an existing channel but at the word of one of its operators, or
      as the rightful successor when none of them is left. */
  lemma OperatorsAreAuthorised(s: State, e: Runs.Event, k: string, x: int)
    requires Inv(s) && k in s.channels && k in Runs.Step(s, e).channels
    requires x in Runs.Step(s, e).channels[k].operators && x !in s.channels[k].operators
    ensures || (e.Line? && e.id in s.clients && e.id in s.channels[k].operators &&
                Words.Says(e.text, "MODE"))
            || SucceededTo(s.channels[k], Runs.Step(s, e).channels[k], x)
  {
    if e.Line? && e.id in s.clients {
      LineLawful(s, e.id, e.text, e.now);
      var v := Words.Command(s, e.id, e.text);
      if v.Some? {
        LawfulOperators(s, Runs.Step(s, e), k, e.id, v.value, Words.Params(e.text), e.now, x);
      }
    } else if e.Sweep? {
      assert ChannelOk(k, s.channels[k], s.nextGen);
      SweptOperators(s.channels[k], Runs.Marked(s), x);
    }
  }

  // ---------------------------------------------------------------- invitations

  lemma LawfulInvitations(s: State, s': State, k: string, id: int, v: Runs.Verb, params: seq<string>, now: int, t: int)
    requires ChannelsOk(s) && k in s.channels && k in s'.channels && Lawful(s, s', k, id, v, params, now)
    requires t in s'.channels[k].invited && t !in s.channels[k].invited
    ensures v == Runs.Invite && InvitedBy(s, s', k, id, t, now)
  {
    var ch := s.channels[k];
    assert ChannelOk(k, ch, s.nextGen);
    if x :| LeftBy(s, s', k, x) {
      BereftFields(ch, x, s.clients.Keys);
    } else if v.Mode? {
      ModeLoopKeeps(s, k, s.nextGen, params[1], Start(ch, params[2..]));
    }
  }

  /** An invitation comes from a member, from an operator if the channel is invite-only, goes to
      a registered outsider, and follows the sender's last one by a second at least. */
  lemma InvitationsAreAuthorised(s: State, e: Runs.Event, k: string, t: int)
    requires Inv(s) && k in s.channels && k in Runs.Step(s, e).channels
    requires t in Runs.Step(s, e).channels[k].invited && t !in s.channels[k].invited
    ensures e.Line? && InvitedBy(s, Runs.Step(s, e), k, e.id, t, e.now)
    ensures Words.Says(e.text, "INVITE") && Words.Gives(s, e.id, e.text, Runs.Invite)
  {
    if e.Line? && e.id in s.clients {
      LineLawful(s, e.id, e.text, e.now);
      var v := Words.Command(s, e.id, e.text);
      if v.Some? {
        LawfulInvitations(s, Runs.Step(s, e), k, e.id, v.value, Words.Params(e.text), e.now, t);
      }
    } else {
      QuietStep(s, e, k);
    }
  }

  // ---------------------------------------------------------------- registration

  /** Who was registered between c and c' had the right password, if there is one. */
  predicate Guarded(password: string, c: Client, c': Client)
  {
    !c.registered && c'.registered ==> password == "" || SecretEq(c.suppliedPass, password)
  }

  lemma CapGuarded(password: string, c: Client, params: seq<string>)
    ensures Guarded(password, c, Registration.Cap(password, c, params))
  {
  }

  lemma UserGuarded(password: string, c: Client, params: seq<string>)
    ensures Guarded(password, c, Registration.User(password, c, params))
    ensures Guarded(password, c, Registration.Pass(c, params))
  {
  }

  lemma NickGuarded(s: State, id: int, nick: string, x: int)
    requires id in s.clients && x in s.clients
    ensures Guarded(s.password, s.clients[x], Registration.Nick(s, id, nick).clients[x])
    ensures x != id ==> Registration.Nick(s, id, nick).clients[x] == s.clients[x]
  {
  }

  lemma ExecuteGuarded(s: State, id: int, v: Runs.Verb, params: seq<string>, now: int, x: int)
    requires id in s.clients && x in s.clients && x in Runs.Execute(s, id, v, params, now).clients
    requires !s.clients[x].registered && Runs.Execute(s, id, v, params, now).clients[x].registered
    requires v.Cap? || v.Pass? || v.Nick? || v.User? || v.Quit?
    ensures x == id && Guarded(s.password, s.clients[x], Runs.Execute(s, id, v, params, now).clients[x])
  {
    match v
    case Cap => CapGuarded(s.password, s.clients[id], params);
    case Pass => UserGuarded(s.password, s.clients[id], params);
    case User => UserGuarded(s.password, s.clients[id], params);
    case Nick =>
      if params != [] {
        NickGuarded(s, id, params[0], x);
      }
    case Quit =>
  }

  lemma LineGuarded(s: State, id: int, line: string, now: int, x: int)
    requires id in s.clients && x in s.clients && x in Runs.HandleLine(s, id, line, now).clients
    requires !s.clients[x].registered && Runs.HandleLine(s, id, line, now).clients[x].registered
    ensures x == id && (s.password == "" || SecretEq(s.clients[x].suppliedPass, s.password))
  {
    var msg := IrcMessage.Tokenize(line);
    match Runs.Gate(s.clients[id].registered, msg.command, |msg.params|)
    case Accepted(v) =>
      Runs.DispatchRuns(s, id, msg.command, msg.params, now, v);
      if Histories.ChannelVerb(v) {
        Histories.ChannelCommandIdentities(s, id, v, msg.params, now);
        Histories.IdentitiesOnward(s, Runs.Execute(s, id, v, msg.params, now));
      } else {
        ExecuteGuarded(s, id, v, msg.params, now, x);
      }
    case _ =>
  }

  /** Nobody is registered but by its own line, and with the right password if there is one. */
  lemma RegistrationIsAuthorised(s: State, e: Runs.Event, x: int)
    requires Inv(s) && x in s.clients && x in Runs.Step(s, e).clients
    requires !s.clients[x].registered && Runs.Step(s, e).clients[x].registered
    ensures e.Line? && e.id == x && (s.password == "" || SecretEq(s.clients[x].suppliedPass, s.password))
  {
    if e.Line? && e.id in s.clients {
      LineGuarded(s, e.id, e.text, e.now, x);
    }
  }

  // ---------------------------------------------------------------- and what is granted

  ghost predicate On(s: State, k: string, id: int)
  {
    k in s.channels && id in s.channels[k].members
  }

  lemma PartFromOff(s: State, id: int, names: seq<string>, i: nat, k: string)
    requires id in s.clients && i <= |names| && !On(s, k, id)
    ensures !On(PartFrom(s, id, names, i), k, id)
  {
    PartFromKeys(s, id, names, i);
    if k in s.channels {
      PartFromAt(s, id, names, i, k);
    }
  }

  /** PART takes a client off exactly the channels it names, whatever else it lists and how
      often. */
  lemma {:induction false} PartExact(s: State, id: int, names: seq<string>, i: nat, k: string)
    requires id in s.clients && i <= |names| && On(s, k, id)
    ensures On(PartFrom(s, id, names, i), k, id) <==> !Named(names, i, k)
    decreases |names| - i
  {
    if i < |names| {
      var mid := PartNamed(s, id, names[i]);
      PartNamedAt(s, id, names[i], k);
      if On(mid, k, id) {
        PartExact(mid, id, names, i + 1, k);
        assert Named(names, i, k) <==> Fold(names[i]) == k || Named(names, i + 1, k);
        assert Fold(names[i]) != k by {
          NamedIsLeft(s, id, names[i]);
        }
      } else {
        PartFromOff(mid, id, names, i + 1, k);
      }
    }
  }

  lemma NamedIsLeft(s: State, id: int, name: string)
    requires id in s.clients
    ensures !On(PartNamed(s, id, name), Fold(name), id)
  {
    if On(s, Fold(name), id) {
      BereftFields(s.channels[Fold(name)], id, s.clients.Keys);
    }
  }

  lemma FoundExactly(s: State, nick: string, x: int)
    requires IndexOk(s) && x in s.clients && s.clients[x].nick != ""
    ensures FindByNick(s, nick) == Some(x) <==> Fold(nick) == Fold(s.clients[x].nick)
  {
  }

  lemma MemberHasNick(s: State, k: string, x: int)
    requires Inv(s) && On(s, k, x)
    ensures k != "" && x in s.clients && s.clients[x].nick != ""
  {
    assert ChannelOk(k, s.channels[k], s.nextGen);
    assert s.clients[x].registered && RegistrationOk(s.clients[x]);
  }

  lemma KickedExactly(s: State, id: int, params: seq<string>, k: string, x: int)
    requires IndexOk(s) && On(s, k, x) && x in s.clients && s.clients[x].nick != "" && k != ""
    requires s.channels[k].operators <= s.channels[k].members
    ensures Kicked(s, id, params) == Some(x) && Fold(params[0]) == k <==>
            |params| >= 2 && Fold(params[0]) == k && id in s.channels[k].operators &&
            Fold(params[1]) == Fold(s.clients[x].nick)
  {
    if |params| >= 2 {
      FoundExactly(s, params[1], x);
    }
  }

  lemma KickTakesOff(s: State, id: int, params: seq<string>, k: string, x: int)
    requires On(s, k, x)
    ensures !On(Kick(s, id, params), k, x) <==> Kicked(s, id, params) == Some(x) && Fold(params[0]) == k
  {
    if Kicked(s, id, params).Some? {
      LeaveAt(s, Kicked(s, id, params).value, params[0], k);
      BereftFields(s.channels[k], Kicked(s, id, params).value, s.clients.Keys);
    }
  }

  /** KICK takes off exactly the member whose nick it gives, and only from the channel it names
      and for one of its operators. */
  lemma KickExact(s: State, id: int, params: seq<string>, k: string, x: int)
    requires Inv(s) && On(s, k, x)
    ensures x in s.clients
    ensures !On(Kick(s, id, params), k, x) <==>
            |params| >= 2 && Fold(params[0]) == k && id in s.channels[k].operators &&
            Fold(params[1]) == Fold(s.clients[x].nick)
  {
    MemberHasNick(s, k, x);
    assert ChannelOk(k, s.channels[k], s.nextGen);
    KickedExactly(s, id, params, k, x);
    KickTakesOff(s, id, params, k, x);
  }

  // ---------------------------------------------------------------- a whole JOIN list

  /** k would take id in as things stand: it is new, or admits id and has room. */
  predicate Opens(s: State, id: int, k: string, key: string)
    requires id in s.clients
  {
    k in s.channels ==>
      var ch := s.channels[k];
      id !in ch.members && LetsIn(ch, id, s.clients[id], key) && |ch.members| < 1000
  }

  /** The channels that a list would take id into, were there no limit: each once, in the order
      of the first name that opens it. All of them are judged before the first is entered. */
  function Wanted(s: State, id: int, names: seq<string>, keys: seq<string>, i: nat, seen: set<string>): seq<string>
    requires id in s.clients && i <= |names|
    decreases |names| - i
  {
    if i == |names| then []
    else
      var k := Fold(names[i]);
      if ValidChannelName(names[i]) && k !in seen && Opens(s, id, k, GivenKey(keys, i)) then
        [k] + Wanted(s, id, names, keys, i + 1, seen + {k})
      else Wanted(s, id, names, keys, i + 1, seen)
  }

  /** How many more channels id may be on. */
  function Slots(s: State, id: int): nat
    requires id in s.clients
  {
    var n := |s.clients[id].channels|;
    if n >= MAX_CHANNELS_PER_USER then 0 else MAX_CHANNELS_PER_USER - n
  }

  function First(ks: seq<string>, n: nat): seq<string> { if n <= |ks| then ks[..n] else ks }

  /** In the middle of a list: the channels in seen have been entered since s, the others are as
      they were. */
  ghost predicate Midway(s: State, t: State, id: int, seen: set<string>)
  {
    && id in s.clients && id in t.clients && t.clients[id] == s.clients[id].(channels := t.clients[id].channels)
    && (forall k :: k in seen ==> On(t, k, id))
    && (forall k :: k !in seen ==>
          (k in t.channels <==> k in s.channels) && (k in s.channels ==> t.channels[k] == s.channels[k]))
  }

  lemma EntersMidway(s: State, t: State, id: int, name: string, key: string, seen: set<string>)
    requires Midway(s, t, id, seen)
    ensures Enters(t, id, name, key) <==>
            ValidChannelName(name) && Slots(t, id) > 0 && Fold(name) !in seen && Opens(s, id, Fold(name), key)
    ensures Enters(t, id, name, key) ==>
              Midway(s, JoinOne(t, id, name, key), id, seen + {Fold(name)}) &&
              Slots(JoinOne(t, id, name, key), id) == Slots(t, id) - 1
  {
    if Fold(name) in s.channels {
      AdmitsExact(s.channels[Fold(name)], id, s.clients[id], key);
    }
  }

  lemma JoinOneOn(t: State, id: int, name: string, key: string, k: string)
    requires id in t.clients
    ensures On(JoinOne(t, id, name, key), k, id) <==>
            On(t, k, id) || (Enters(t, id, name, key) && Fold(name) == k)
  {
  }

  /** One name of a list puts the client on its channel exactly if the channel opens to it and a
      slot is left. */
  lemma JoinOneExact(s: State, id: int, name: string, key: string)
    requires id in s.clients
    ensures On(JoinOne(s, id, name, key), Fold(name), id) <==>
            || On(s, Fold(name), id)
            || (ValidChannelName(name) && |s.clients[id].channels| < 20 && Opens(s, id, Fold(name), key))
  {
    JoinOneOn(s, id, name, key, Fold(name));
    if Fold(name) in s.channels {
      AdmitsExact(s.channels[Fold(name)], id, s.clients[id], key);
    }
  }

  lemma {:induction false} NoSlotsLeft(t: State, id: int, names: seq<string>, keys: seq<string>, i: nat)
    requires id in t.clients && i <= |names| && Slots(t, id) == 0
    ensures JoinFrom(t, id, names, keys, i) == t
    decreases |names| - i
  {
    if i < |names| {
      NoSlotsLeft(t, id, names, keys, i + 1);
    }
  }

  lemma FirstOfMore(k: string, ks: seq<string>, n: nat, x: string)
    requires n > 0
    ensures x in First([k] + ks, n) <==> x == k || x in First(ks, n - 1)
  {
    if n <= |ks| + 1 {
      assert ([k] + ks)[..n] == [k] + ks[..n - 1];
    }
  }

  lemma {:induction false} JoinFromExact(s: State, t: State, id: int, names: seq<string>, keys: seq<string>, i: nat,
                                         seen: set<string>, k: string)
    requires Midway(s, t, id, seen) && i <= |names|
    ensures On(JoinFrom(t, id, names, keys, i), k, id) <==>
            On(t, k, id) || k in First(Wanted(s, id, names, keys, i, seen), Slots(t, id))
    decreases |names| - i
  {
    if Slots(t, id) == 0 {
      NoSlotsLeft(t, id, names, keys, i);
    } else if i < |names| {
      var name, key := names[i], KeyAt(keys, i);
      EntersMidway(s, t, id, name, key, seen);
      JoinOneOn(t, id, name, key, k);
      var mid := JoinOne(t, id, name, key);
      if Enters(t, id, name, key) {
        var more := seen + {Fold(name)};
        JoinFromExact(s, mid, id, names, keys, i + 1, more, k);
        FirstOfMore(Fold(name), Wanted(s, id, names, keys, i + 1, more), Slots(t, id), k);
      } else {
        JoinFromExact(s, mid, id, names, keys, i + 1, seen, k);
      }
    }
  }

  /** A JOIN list puts the client on exactly as many of the channels that open to it as it has
      slots left, first come first served: a channel named twice, or closed, or misspelt, costs
      nothing, and one may open at its second name if that comes with the right key. */
  lemma JoinExact(s: State, id: int, params: seq<string>, k: string)
    requires id in s.clients && params != [] && params[0] != "0"
    ensures On(Membership.Join(s, id, params), k, id) <==>
            On(s, k, id) || k in First(Wanted(s, id, JoinNames(params), GivenKeys(params), 0, {}), Slots(s, id))
  {
    GivenNamesAndKeys(params, 0);
    JoinFromExact(s, s, id, JoinNames(params), GivenKeys(params), 0, {}, k);
    if params[0] == "" {
      SplitOne("", ',');
    }
  }
}
