/** The server itself: its tables, updated in place by the commands and by the event loop. */
module Server {
  import opened Wrappers
  import opened IrcText
  import IrcMessage
  import opened Bans
  import opened Secret
  import opened ServerState
  import opened Departures
  import opened Sweeps
  import opened SweepOrder
  import opened Closing
  import opened SweepMarks
  import Registration
  import Membership
  import ModeRequests
  import Modes
  import Runs
  import Announcing
  import Authority
  import Effects
  import InviteRate
  import Signoffs
  import Whowas
  import Words

  // ---------------------------------------------------------------- facts the methods need

  /** What is known about one stored channel. */
  lemma StoredChannel(s: State, k: string)
    requires Inv(s) && k in s.channels
    ensures ChannelOk(k, s.channels[k], s.nextGen)
    ensures s.channels[k].members <= s.clients.Keys
    ensures -1 !in s.channels[k].members
  {
    MembersLive(s, k);
    assert -1 !in s.clients;
  }

  ghost predicate AllOk(channels: map<string, Channel>, nextGen: nat)
  {
    forall k :: k in channels ==> ChannelOk(k, channels[k], nextGen) && -1 !in channels[k].members
  }

  lemma OwnWalk(s: State, id: int)
    requires Inv(s) && id in s.clients
    ensures Walkable(s.channels, id, s.clients[id].channels) && AllOk(s.channels, s.nextGen)
  {
    assert ListOk(id, s.clients[id].channels, s.channels);
    OwnListWalkable(id, s.clients[id].channels, s.channels);
    forall k | k in s.channels
      ensures ChannelOk(k, s.channels[k], s.nextGen) && -1 !in s.channels[k].members
    {
      StoredChannel(s, k);
    }
  }

  lemma PutBackOk(channels: map<string, Channel>, nextGen: nat, k: string, id: int, live: set<int>)
    requires AllOk(channels, nextGen) && k in channels
    ensures AllOk(PutBack(channels, k, Bereft(channels[k], id, live)), nextGen)
  {
    BereftFields(channels[k], id, live);
    if channels[k].members - {id} != {} {
      BereftOk(k, channels[k], nextGen, id, live);
    }
  }

  /** One stop of the walk leaves the rest of it walkable. */
  lemma WalkStep(channels: map<string, Channel>, nextGen: nat, id: int, ps: seq<ChanPtr>, live: set<int>)
    requires ps != [] && Walkable(channels, id, ps) && AllOk(channels, nextGen)
    ensures Live(channels, ps[0])
    ensures var after := PartOne(channels, id, ps[0], live); Walkable(after, id, ps[1..]) && AllOk(after, nextGen)
  {
    assert ps[0] in ps;
    WalkableRest(channels, id, ps, Bereft(channels[ps[0].key], id, live));
    PutBackOk(channels, nextGen, ps[0].key, id, live);
  }

  /** In the middle of a scan with rest still to visit: the table, and the keys that emptied. */
  ghost function ScanSoFar(before: map<string, Channel>, id: int, live: set<int>, rest: set<string>)
    : map<string, Channel>
  {
    map k | k in before :: if k in rest then before[k] else Scanned(before[k], id, live)
  }

  ghost function EmptiedSoFar(before: map<string, Channel>, id: int, rest: set<string>): set<string>
  {
    set k | k in before && k !in rest && before[k].members - {id} == {}
  }

  lemma ScanStart(before: map<string, Channel>, id: int, live: set<int>)
    ensures ScanSoFar(before, id, live, before.Keys) == before && EmptiedSoFar(before, id, before.Keys) == {}
  {
  }

  lemma ScanStep(before: map<string, Channel>, nextGen: nat, id: int, live: set<int>, rest: set<string>, k: string)
    requires AllOk(before, nextGen) && k in rest && k in before
    ensures OrderOk(before[k]) && -1 !in before[k].members && before[k].members != {}
    ensures ScanSoFar(before, id, live, rest - {k}) ==
            ScanSoFar(before, id, live, rest)[k := Scanned(before[k], id, live)]
    ensures EmptiedSoFar(before, id, rest - {k}) ==
            EmptiedSoFar(before, id, rest) + if before[k].members - {id} == {} then {k} else {}
  {
    assert ChannelOk(k, before[k], nextGen);
    var next, now := ScanSoFar(before, id, live, rest - {k}), ScanSoFar(before, id, live, rest);
    SameMap(next, now[k := Scanned(before[k], id, live)]);
  }

  lemma ScanDone(before: map<string, Channel>, id: int, live: set<int>)
    ensures ScanSoFar(before, id, live, {}) - EmptiedSoFar(before, id, {}) == ScanAll(before, id, live)
  {
    SameMap(ScanSoFar(before, id, live, {}) - EmptiedSoFar(before, id, {}), ScanAll(before, id, live));
  }

  lemma Overwrite<K, V>(m: map<K, V>, k: K, a: V, b: V)
    ensures m[k := a][k := b] == m[k := b] && m[k := a] - {k} == m - {k}
  {
  }

  /** Everybody who shares a channel with id. */
  ghost function Audience(s: State, id: int): set<int>
  {
    set k, m | k in s.channels && id in s.channels[k].members && m in s.channels[k].members :: m
  }

  lemma SameAudience(s: State, s': State, id: int)
    requires s'.channels == s.channels
    ensures Audience(s', id) == Audience(s, id)
  {
  }

  ghost function AudienceOf(ps: seq<ChanPtr>, channels: map<string, Channel>): set<int>
  {
    set p, m | p in ps && p.key in channels && m in channels[p.key].members :: m
  }

  lemma AudienceStep(ps: seq<ChanPtr>, channels: map<string, Channel>, i: nat)
    requires i < |ps| && ps[i].key in channels
    ensures AudienceOf(ps[..i + 1], channels) == AudienceOf(ps[..i], channels) + channels[ps[i].key].members
  {
    var longer, shorter := ps[..i + 1], ps[..i];
    assert longer == shorter + [ps[i]];
    forall m
      ensures m in AudienceOf(longer, channels) <==>
              m in AudienceOf(shorter, channels) || m in channels[ps[i].key].members
    {
      if m in AudienceOf(shorter, channels) {
        var p :| p in shorter && p.key in channels && m in channels[p.key].members;
        assert p in longer;
      }
      if m in channels[ps[i].key].members {
        assert ps[i] in longer;
      }
    }
  }

  /** A client's own list reaches exactly its audience. */
  lemma ListReachesAudience(s: State, id: int)
    requires id in s.clients && ListOk(id, s.clients[id].channels, s.channels)
    ensures AudienceOf(s.clients[id].channels, s.channels) == Audience(s, id)
  {
    var ps := s.clients[id].channels;
    forall k, m | k in s.channels && id in s.channels[k].members && m in s.channels[k].members
      ensures m in AudienceOf(ps, s.channels)
    {
      assert PtrTo(k, s.channels[k]) in ps;
    }
  }

  /** A registered client has a nick and a sound list. */
  lemma QuitterIsSound(s: State, id: int)
    requires Inv(s) && id in s.clients
    ensures ListOk(id, s.clients[id].channels, s.channels)
    ensures s.clients[id].registered ==> s.clients[id].nick != ""
  {
    assert RegistrationOk(s.clients[id]);
  }

  lemma LogGrows(before: State, p: Progress, id: int, serverName: string, now: int, earlier: seq<Whowas.Entry>)
    requires id in before.clients && Ids(p.order) <= before.clients.Keys
    ensures Ids(p.order + [id]) <= before.clients.Keys
    ensures [Signoffs.SignoffOf(before.clients[id], serverName, now)] +
            (Signoffs.SweepSignoffs(before, p.order, serverName, now) + earlier) ==
            Signoffs.SweepSignoffs(before, p.order + [id], serverName, now) + earlier
  {
    Signoffs.SweepSignoffsSnoc(before, p.order, id, serverName, now);
    Prepend([Signoffs.SignoffOf(before.clients[id], serverName, now)],
            Signoffs.SweepSignoffs(before, p.order, serverName, now), earlier);
  }

  /** A sweep without marks in it is the step of that name. */
  lemma QuietSweep(before: State, p: Progress, now: int)
    requires p.early + p.late == {}
    ensures SweptAmidMarks(before, p.early, p.late) == Runs.Step(before, Runs.Sweep(now))
    ensures Runs.Marked(MarkAll(before, p.early)) == Runs.Marked(before)
  {
    assert p.early == {} && p.late == {};
    MarkNone(before);
    MarkNone(Runs.Step(before, Runs.Sweep(now)));
  }

  lemma FoundedForm(channels: map<string, Channel>, k: string, name: string, gen: nat, id: int)
    ensures var w := Membership.WithMember(NewChannel(name, gen), id);
            w.(operators := w.operators + {id}) == Membership.Founded(name, gen, id)
    ensures var r := Membership.Founded(name, gen, id);
            channels[k := NewChannel(name, gen)][k := r] == channels[k := r]
  {
    Overwrite(channels, k, NewChannel(name, gen), Membership.Founded(name, gen, id));
    assert {} + {id} == {id};
  }

  // ---------------------------------------------------------------- small loops

  method ErasePtr(ps: seq<ChanPtr>, p: ChanPtr) returns (out: seq<ChanPtr>)
    ensures out == RemovePtr(ps, p)
  {
    out := [];
    for i := 0 to |ps|
      invariant out + RemovePtr(ps[i..], p) == RemovePtr(ps, p)
    {
      assert ps[i..][1..] == ps[i + 1..];
      Prepend(out, if ps[i] == p then [] else [ps[i]], RemovePtr(ps[i + 1..], p));
      if ps[i] != p {
        out := out + [ps[i]];
      } else {
        assert out + [] == out;
      }
    }
  }

  /** The member with the smallest place in the order of joining, in whatever order the set
      yields them. */
  method Eldest(ch: Channel) returns (chosen: int)
    requires ch.members != {} && -1 !in ch.members && OrderOk(ch)
    ensures chosen == Heir(ch)
  {
    chosen := -1;
    var best := 0;
    var rest := ch.members;
    while rest != {}
      invariant rest <= ch.members && (chosen == -1 ==> rest == ch.members)
      invariant chosen != -1 ==> chosen in ch.members && best == Seq(ch, chosen)
      invariant chosen != -1 ==> forall m :: m in ch.members && m !in rest ==> best <= Seq(ch, m)
      decreases rest
    {
      var id := AnyOf(rest);
      rest := rest - {id};
      var place := if id in ch.joinOrder then ch.joinOrder[id] else NO_SEQ;
      if chosen == -1 || place < best {
        chosen, best := id, place;
      }
    }
    HeirUnique(ch, chosen);
  }

  method AddAll(recipients: set<int>, members: set<int>) returns (all: set<int>)
    ensures all == recipients + members
  {
    all := recipients;
    var rest := members;
    while rest != {}
      invariant rest <= members && all == recipients + (members - rest)
      decreases rest
    {
      var m := AnyOf(rest);
      rest := rest - {m};
      all := all + {m};
    }
  }

  /** The version loop of CAP LS. */
  method ClaimedVersion(v: string) returns (version: nat)
    ensures version == Registration.Version(v, 0)
  {
    version := 0;
    for i := 0 to |v|
      invariant Registration.Version(v[i..], version) == Registration.Version(v, 0)
    {
      assert v[i..][1..] == v[i + 1..];
      if !IsDigit(v[i]) {
        return 0;
      }
      version := version * 10 + (v[i] as int - '0' as int);
      if version > 1000000 {
        return;
      }
    }
  }

  /** A switch as the loop over the tokens writes it down. */
  function Wanted(tok: string): (string, bool)
  {
    (Registration.CapName(tok), Registration.Enabling(tok))
  }

  method ReadSwitch(tok: string, cap302: bool) returns (name: string, enabling: bool, valid: bool)
    requires tok != ""
    ensures (name, enabling) == Wanted(tok) && (valid <==> Registration.Acceptable(tok, cap302))
    ensures name == "" ==> !valid
  {
    enabling, name, valid := true, tok, true;
    if tok[0] == '-' {
      enabling, name := false, tok[1..];
    }
    if name == "" {
      valid := false;
    } else if !Registration.Supported(name) {
      valid := false;
    } else if !enabling && Registration.Sticky(name, cap302) {
      valid := false;
    }
  }

  /** The first loop of CAP REQ: every token is looked at before anything is switched. */
  method ReadRequest(toks: seq<string>, cap302: bool) returns (granted: bool, requested: seq<(string, bool)>)
    requires forall i :: 0 <= i < |toks| ==> toks[i] != ""
    ensures granted <==> Registration.AllAcceptable(toks, cap302)
    ensures granted ==> |requested| == |toks| && forall j :: 0 <= j < |toks| ==> requested[j] == Wanted(toks[j])
  {
    granted, requested := true, [];
    for i := 0 to |toks|
      invariant granted <==> forall j :: 0 <= j < i ==> Registration.Acceptable(toks[j], cap302)
      invariant granted ==> |requested| == i && forall j :: 0 <= j < i ==> requested[j] == Wanted(toks[j])
    {
      var name, enabling, valid := ReadSwitch(toks[i], cap302);
      if !valid {
        granted := false;
      }
      if name == "" {
        continue;
      }
      requested := requested + [(name, enabling)];
    }
  }

  method SwitchCaps(caps: set<string>, cap302: bool, toks: seq<string>) returns (granted: bool, after: set<string>)
    requires forall i :: 0 <= i < |toks| ==> toks[i] != ""
    ensures granted <==> Registration.AllAcceptable(toks, cap302)
    ensures after == if granted then Registration.SwitchAll(caps, toks) else caps
  {
    var requested: seq<(string, bool)>;
    granted, requested := ReadRequest(toks, cap302);
    after := caps;
    if !granted {
      return;
    }
    for j := 0 to |requested|
      invariant Registration.SwitchAll(after, toks[j..]) == Registration.SwitchAll(caps, toks)
    {
      assert toks[j..][1..] == toks[j + 1..];
      var (name, enabling) := requested[j];
      assert (name, enabling) == Wanted(toks[j]);
      after := if enabling then after + {name} else after - {name};
    }
  }

  /** CAP CLEAR: first the capabilities to drop are collected, then they are dropped. */
  method ClearCaps(caps: set<string>, cap302: bool) returns (after: set<string>)
    ensures after == set cap | cap in caps && Registration.Sticky(cap, cap302)
  {
    var toRemove: set<string> := {};
    var rest := caps;
    while rest != {}
      invariant rest <= caps
      invariant forall cap :: cap in toRemove <==> cap in caps && cap !in rest && !Registration.Sticky(cap, cap302)
      decreases rest
    {
      var cap := AnyOf(rest);
      rest := rest - {cap};
      if !Registration.Sticky(cap, cap302) {
        toRemove := toRemove + {cap};
      }
    }
    after := caps;
    rest := toRemove;
    while rest != {}
      invariant rest <= toRemove
      invariant forall cap :: cap in after <==> cap in caps && (cap in toRemove ==> cap in rest)
      decreases rest
    {
      var cap := AnyOf(rest);
      rest := rest - {cap};
      after := after - {cap};
    }
  }

  /** CAP LS, REQ and CLEAR change nothing but the client's own negotiation state. */
  method Negotiate(c0: Client, sub: string, params: seq<string>) returns (c: Client)
    ensures sub == "LS" ==> c == Registration.CapLs(c0, params)
    ensures sub == "REQ" ==> c == Registration.CapReq(c0, params)
    ensures sub == "CLEAR" ==> c == Registration.CapClear(c0)
    ensures sub != "LS" && sub != "REQ" && sub != "CLEAR" ==> c == c0
  {
    c := c0;
    if sub == "LS" {
      if |params| >= 2 {
        var version := ClaimedVersion(params[1]);
        if version >= 302 {
          c := c.(cap302 := true);
        }
      }
      if !c.registered {
        c := c.(capNegotiating := true);
      }
    } else if sub == "REQ" {
      if |params| < 2 {
        return;
      }
      if !c.registered {
        c := c.(capNegotiating := true);
      }
      var toks := SplitFields(params[1], ' ');
      SplitYieldsFields(params[1], ' ', 0);
      assert forall i :: 0 <= i < |toks| ==> IsField(toks[i], ' ');
      var granted, after := SwitchCaps(c.enabledCaps, c.cap302, toks);
      c := c.(enabledCaps := after);
    } else if sub == "CLEAR" {
      var after := ClearCaps(c.enabledCaps, c.cap302);
      c := c.(enabledCaps := after);
    }
  }

  /** A real name loses its control bytes, then what is over the limit. */
  method CleanRealname(raw: string) returns (realname: string)
    ensures realname == Registration.Realname(raw)
  {
    realname := "";
    for i := 0 to |raw|
      invariant |realname| == i && forall j :: 0 <= j < i ==> realname[j] == if IsControl(raw[j]) then ' ' else raw[j]
    {
      realname := realname + [if IsControl(raw[i]) then ' ' else raw[i]];
    }
    if |realname| > Registration.MAX_REALNAMELEN {
      realname := realname[..Registration.MAX_REALNAMELEN];
    }
  }

  class Server {
    var clients: map<int, Client>
    var nicks: map<string, int>
    var channels: map<string, Channel>
    var nextCid: int
    var nextGen: nat
    const password: string
    const serverName: string
    const whowas: Whowas.WhowasStore

    /** The server's tables, as a value. */
    function Tables(): State
      reads this
    {
      State(clients, nicks, channels, nextCid, nextGen, password)
    }

    ghost predicate Valid()
      reads this
    {
      Inv(Tables())
    }

    constructor (password: string, serverName: string)
      ensures Valid() && Tables() == Initial(password)
      ensures fresh(whowas) && whowas.Valid() && whowas.log == []
    {
      this.password, this.serverName := password, serverName;
      whowas := new Whowas.WhowasStore();
      clients, nicks, channels, nextCid, nextGen := map[], map[], map[], 1, 0;
    }

    // -------------------------------------------------------------- connections

    method AcceptOne(host: string)
      requires Valid()
      modifies this
      ensures Valid() && Tables() == Runs.AcceptOne(old(Tables()), host)
    {
      Runs.AcceptKeeps(Tables(), host);
      if |clients| >= Runs.MAX_CONNECTIONS {
        return;
      }
      var cid := nextCid;
      nextCid := nextCid + 1;
      clients := clients[cid := NewClient(host)];
    }

    method CloseClient(id: int)
      requires Valid()
      modifies this
      ensures Valid() && Tables() == Runs.Step(old(Tables()), Runs.Close(id))
    {
      Runs.StepKeeps(Tables(), Runs.Close(id));
      if id !in clients {
        return;
      }
      clients := clients[id := clients[id].(marked := true)];
    }

    // -------------------------------------------------------------- the nick index

    method FindClientByNick(nick: string) returns (found: Option<int>)
      ensures found == FindByNick(Tables(), nick)
    {
      var n := IrcCaseFold(nick);
      if n !in nicks || nicks[n] !in clients {
        return None;
      }
      return Some(nicks[n]);
    }

    method RegisterNick(nick: string, id: int)
      modifies this`nicks
      ensures nicks == old(nicks)[Fold(nick) := id]
    {
      var n := IrcCaseFold(nick);
      nicks := nicks[n := id];
    }

    method UnregisterNick(nick: string)
      modifies this`nicks
      ensures nicks == old(nicks) - {Fold(nick)}
    {
      var n := IrcCaseFold(nick);
      nicks := nicks - {n};
    }

    // -------------------------------------------------------------- registration

    /** Called between the change that may complete a registration and the return to the loop,
        so the client need not be in order yet. */
    method TryCompleteRegistration(id: int)
      requires id in clients
      modifies this`clients
      ensures clients == old(clients)[id := Registration.Completed(password, old(clients)[id])]
      ensures clients == old(clients)[id := Effects.Settled(password, old(clients)[id])]
    {
      Effects.CompletedDoes(password, clients[id]);
      var c := clients[id];
      assert clients[id := c] == clients;
      if c.registered {
        return;
      }
      if c.nick == "" {
        return;
      }
      if c.user == "" {
        return;
      }
      if c.capNegotiating {
        return;
      }
      if password != "" {
        var same := ConstantTimeEquals(c.suppliedPass, password);
        if !same {
          clients := clients[id := c.(marked := true)];
          clients := clients[id := clients[id].(suppliedPass := "")];
          return;
        }
      }
      clients := clients[id := c.(suppliedPass := "")];
      clients := clients[id := clients[id].(registered := true)];
    }

    method PassCommand(id: int, params: seq<string>)
      requires id in clients
      modifies this
      ensures Tables() == Runs.Execute(old(Tables()), id, Runs.Pass, params, 0)
    {
      var c := clients[id];
      assert clients[id := c] == clients;
      if params == [] {
        return;
      }
      if c.registered {
        return;
      }
      clients := clients[id := c.(suppliedPass := params[0])];
    }

    /** A name that passes the validator is short enough already, so nothing is cut off. */
    method UserCommand(id: int, params: seq<string>)
      requires id in clients
      modifies this
      ensures Tables() == Runs.Execute(old(Tables()), id, Runs.User, params, 0)
    {
      ghost var before := clients;
      var c := clients[id];
      assert clients[id := c] == clients;
      if c.registered {
        return;
      }
      if |params| < 4 {
        return;
      }
      var user := params[0];
      while user != "" && user[0] == '~'
        invariant Registration.StripTildes(user) == Registration.StripTildes(params[0])
        decreases |user|
      {
        user := user[1..];
      }
      var valid := IsValidUsername(user);
      if user == "" || !valid {
        return;
      }
      var realname := CleanRealname(params[3]);
      clients := clients[id := c.(user := user, realname := realname)];
      TryCompleteRegistration(id);
      assert clients == before[id := clients[id]];
    }

    method CapCommand(id: int, params: seq<string>)
      requires id in clients
      modifies this
      ensures Tables() == Runs.Execute(old(Tables()), id, Runs.Cap, params, 0)
    {
      ghost var before := clients;
      var c := clients[id];
      assert clients[id := c] == clients;
      if params == [] {
        return;
      }
      var sub := Registration.ToUpper(params[0]);
      if sub == "END" {
        if !c.registered {
          clients := clients[id := c.(capNegotiating := false)];
          TryCompleteRegistration(id);
          assert clients == before[id := clients[id]];
        }
        return;
      }
      c := Negotiate(c, sub, params);
      clients := clients[id := c];
    }

    /** The members of the channels on a client's own list. */
    method CoMembers(id: int) returns (recipients: set<int>)
      requires id in clients && ListOk(id, clients[id].channels, channels)
      ensures recipients == Audience(Tables(), id)
    {
      ListReachesAudience(Tables(), id);
      recipients := {};
      var ps := clients[id].channels;
      for i := 0 to |ps|
        invariant recipients == AudienceOf(ps[..i], channels)
      {
        assert ps[i] in ps && Live(channels, ps[i]);
        AudienceStep(ps, channels, i);
        recipients := AddAll(recipients, channels[ps[i].key].members);
      }
      assert ps[..|ps|] == ps;
    }

    /** Both directions of the index and the client's own record change together. */
    method Rename(id: int, nick: string)
      requires id in clients
      modifies this
      ensures Tables() == old(Tables()).(nicks := (old(nicks) - {Fold(old(clients[id]).nick)})[Fold(nick) := id],
                                   clients := old(clients)[id := old(clients[id]).(nick := nick)])
    {
      UnregisterNick(clients[id].nick);
      RegisterNick(nick, id);
      clients := clients[id := clients[id].(nick := nick)];
    }

    /** An invalid nick, the nick one has already, or one that somebody else has. */
    method NickRefused(id: int, nick: string) returns (refused: bool)
      requires id in clients
      ensures var own := clients[id].nick;
              refused <==> !ValidNick(nick) || nick == own ||
                           (!(own != "" && Fold(nick) == Fold(own)) && Fold(nick) in nicks)
    {
      var c := clients[id];
      var valid := IsValidNick(nick);
      if !valid {
        return true;
      }
      var same := SameNick(nick, c.nick);
      var selfRename := c.nick != "" && same;
      if selfRename && nick == c.nick {
        return true;
      }
      var n := IrcCaseFold(nick);
      return !selfRename && n in nicks;
    }

    method FirstNick(id: int, nick: string)
      requires id in clients
      modifies this
      ensures Tables() == old(Tables()).(nicks := old(nicks)[Fold(nick) := id],
                                   clients := old(clients)[id := Registration.Completed(password,
                                                old(clients)[id].(nick := nick))])
    {
      RegisterNick(nick, id);
      clients := clients[id := clients[id].(nick := nick)];
      TryCompleteRegistration(id);
    }

    /** A rename is told to everybody who shares a channel, and to the client itself; the old nick
        goes into the WHOWAS store. */
    method NickCommand(id: int, params: seq<string>, now: int) returns (recipients: set<int>)
      requires id in clients && ListOk(id, clients[id].channels, channels) && whowas.Valid()
      modifies this, whowas
      ensures Tables() == Runs.Execute(old(Tables()), id, Runs.Nick, params, now)
      ensures whowas.Valid()
      ensures whowas.log == Signoffs.NickSignoffs(old(Tables()), id, params, serverName, now) + old(whowas.log)
      ensures recipients == if old(clients[id]).nick == "" || Tables() == old(Tables()) then {}
                            else Audience(old(Tables()), id) + {id}
    {
      recipients := {};
      if params == [] {
        return;
      }
      var refused := NickRefused(id, params[0]);
      if refused {
        return;
      }
      if clients[id].nick == "" {
        FirstNick(id, params[0]);
        return;
      }
      recipients := ChangeNick(id, params[0], now);
    }

    method ChangeNick(id: int, nick: string, now: int) returns (recipients: set<int>)
      requires id in clients && ListOk(id, clients[id].channels, channels) && whowas.Valid()
      requires nick != clients[id].nick
      modifies this, whowas
      ensures Tables() != old(Tables())
      ensures Tables() == old(Tables()).(nicks := (old(nicks) - {Fold(old(clients[id]).nick)})[Fold(nick) := id],
                                         clients := old(clients)[id := old(clients[id]).(nick := nick)])
      ensures whowas.Valid()
      ensures whowas.log == [Signoffs.SignoffOf(old(clients[id]), serverName, now)] + old(whowas.log)
      ensures recipients == Audience(old(Tables()), id) + {id}
    {
      whowas.Record(Signoffs.SignoffOf(clients[id], serverName, now));
      Rename(id, nick);
      assert clients[id].nick != old(clients[id]).nick;
      SameAudience(old(Tables()), Tables(), id);
      recipients := CoMembers(id);
      recipients := recipients + {id};
    }

    // -------------------------------------------------------------- leaving

    /** An empty office goes to the member that joined first. */
    method SucceedOpIfNeeded(k: string)
      requires k in channels && OrderOk(channels[k]) && -1 !in channels[k].members
      modifies this`channels
      ensures channels == old(channels)[k := Succeed(old(channels)[k], clients.Keys)]
    {
      var ch := channels[k];
      assert channels[k := ch] == channels;
      if ch.members == {} || ch.operators != {} {
        return;
      }
      var chosen := Eldest(ch);
      if chosen !in clients {
        return;
      }
      channels := channels[k := ch.(operators := ch.operators + {chosen})];
      assert ch.operators + {chosen} == {chosen};
    }

    method Strike(id: int, k: string) returns (wasMember: bool)
      requires k in channels
      modifies this`channels
      ensures wasMember == (id in old(channels)[k].members)
      ensures channels == old(channels)[k := Without(old(channels)[k], id)]
    {
      var ch := channels[k];
      wasMember := id in ch.members;
      ch := ch.(members := ch.members - {id}, operators := ch.operators - {id});
      ch := ch.(voiced := ch.voiced - {id}, invited := ch.invited - {id}, joinOrder := ch.joinOrder - {id});
      channels := channels[k := ch];
    }

    /** Strike id off a channel, then erase the channel or see to its succession. */
    method StrikeAndSettle(id: int, k: string)
      requires k in channels && OrderOk(channels[k]) && -1 !in channels[k].members && Fold(channels[k].name) == k
      modifies this`channels
      ensures channels == PutBack(old(channels), k, Bereft(old(channels)[k], id, clients.Keys))
    {
      ghost var before := channels;
      ghost var w, r := Without(before[k], id), Bereft(before[k], id, clients.Keys);
      WithoutOrder(before[k], id);
      BereftFields(before[k], id, clients.Keys);
      Overwrite(before, k, w, r);
      var _ := Strike(id, k);
      if channels[k].members == {} {
        var name := IrcCaseFold(channels[k].name);
        channels := channels - {name};
      } else {
        SucceedOpIfNeeded(k);
      }
    }

    method RemoveClientFromChannel(id: int, k: string)
      requires id in clients && k in channels && ChannelOk(k, channels[k], nextGen) && -1 !in channels[k].members
      modifies this
      ensures Tables() == Leave(old(Tables()), id, k)
    {
      var ch := PtrTo(k, channels[k]);
      StrikeAndSettle(id, k);
      var own := ErasePtr(clients[id].channels, ch);
      clients := clients[id := clients[id].(channels := own)];
    }

    /** One stop of the JOIN 0 walk. The pointer is followed to learn the name to look up, so
        it must still lead to a channel. */
    method PartNext(id: int, p: ChanPtr)
      requires Live(channels, p) && AllOk(channels, nextGen)
      modifies this`channels
      ensures channels == PartOne(old(channels), id, p, clients.Keys)
    {
      assert ChannelOk(p.key, channels[p.key], nextGen);
      var k := IrcCaseFold(channels[p.key].name);
      if k !in channels {
        return;
      }
      if id !in channels[k].members {
        return;
      }
      StrikeAndSettle(id, k);
    }

    /** The walk of JOIN 0: every pointer of the client's own list is still live when its turn
        comes, because the stops before it erase only their own channels. */
    method PartAllChannels(id: int)
      requires Valid() && id in clients
      modifies this
      ensures Tables() == PartAll(old(Tables()), id)
    {
      OwnWalk(Tables(), id);
      WalkOwnList(id);
      clients := clients[id := clients[id].(channels := [])];
    }

    method WalkOwnList(id: int)
      requires id in clients && Walkable(channels, id, clients[id].channels) && AllOk(channels, nextGen)
      modifies this`channels
      ensures channels == PartWalk(old(channels), id, clients[id].channels, clients.Keys)
    {
      var snapshot := clients[id].channels;
      for i := 0 to |snapshot|
        invariant Walkable(channels, id, snapshot[i..]) && AllOk(channels, nextGen)
        invariant PartWalk(channels, id, snapshot[i..], clients.Keys) ==
                  PartWalk(old(channels), id, snapshot, clients.Keys)
      {
        assert snapshot[i..][0] == snapshot[i] && snapshot[i..][1..] == snapshot[i + 1..];
        WalkStep(channels, nextGen, id, snapshot[i..], clients.Keys);
        PartNext(id, snapshot[i]);
      }
    }

    method ScanOne(id: int, k: string) returns (empty: bool)
      requires k in channels && OrderOk(channels[k]) && -1 !in channels[k].members
      requires channels[k].members != {}
      modifies this`channels
      ensures channels == old(channels)[k := Scanned(old(channels)[k], id, clients.Keys)]
      ensures empty <==> old(channels)[k].members - {id} == {}
    {
      ghost var ch := channels[k];
      WithoutOrder(ch, id);
      Overwrite(channels, k, Without(ch, id), Scanned(ch, id, clients.Keys));
      var wasMember := Strike(id, k);
      empty := channels[k].members == {};
      if !empty && wasMember {
        SucceedOpIfNeeded(k);
      }
    }

    /** Strike id off every channel; the keys of those that emptied are collected. */
    method ScanChannels(id: int) returns (emptied: set<string>)
      requires AllOk(channels, nextGen)
      modifies this`channels
      ensures channels == ScanSoFar(old(channels), id, clients.Keys, {})
      ensures emptied == EmptiedSoFar(old(channels), id, {})
    {
      ghost var before := channels;
      emptied := {};
      var rest: set<string> := channels.Keys;
      ScanStart(before, id, clients.Keys);
      while rest != {}
        invariant rest <= before.Keys
        invariant channels == ScanSoFar(before, id, clients.Keys, rest)
        invariant emptied == EmptiedSoFar(before, id, rest)
        decreases rest
      {
        var k := AnyOf(rest);
        ScanStep(before, nextGen, id, clients.Keys, rest, k);
        rest := rest - {k};
        var empty := ScanOne(id, k);
        if empty {
          emptied := emptied + {k};
        }
      }
    }

    method EraseChannels(emptied: set<string>)
      modifies this`channels
      ensures channels == old(channels) - emptied
    {
      var rest := emptied;
      while rest != {}
        invariant rest <= emptied
        invariant forall k :: k in channels <==> k in old(channels) && (k in emptied ==> k in rest)
        invariant forall k :: k in channels ==> channels[k] == old(channels)[k]
        decreases rest
      {
        var k := AnyOf(rest);
        rest := rest - {k};
        channels := channels - {k};
      }
      SameMap(channels, old(channels) - emptied);
    }

    /** The teardown scan over the whole table; channels that emptied are erased after it. */
    method RemoveClientFromAllChannels(id: int)
      requires Valid() && id in clients
      modifies this
      ensures Tables() == Vacate(old(Tables()), id)
    {
      ghost var before := channels;
      OwnWalk(Tables(), id);
      var emptied := ScanChannels(id);
      EraseChannels(emptied);
      ScanDone(before, id, clients.Keys);
      clients := clients[id := clients[id].(channels := [])];
    }

    method TeardownClient(id: int, now: int)
      requires Valid() && id in clients && whowas.Valid()
      modifies this, whowas
      ensures Tables() == Teardown(old(Tables()), id)
      ensures whowas.Valid()
      ensures whowas.log == [Signoffs.SignoffOf(old(clients[id]), serverName, now)] + old(whowas.log)
    {
      whowas.Record(Signoffs.SignoffOf(clients[id], serverName, now));
      var nick := clients[id].nick;
      RemoveClientFromAllChannels(id);
      if nick != "" {
        UnregisterNick(nick);
      }
      clients := clients - {id};
    }

    /** A send to each of ids does not fit its buffer. */
    method MarkOverflown(ids: set<int>)
      modifies this`clients
      ensures Tables() == MarkAll(old(Tables()), ids)
    {
      var rest := ids;
      while rest != {}
        invariant clients.Keys == old(clients).Keys && rest <= ids
        invariant forall i :: i in clients ==> clients[i] == Noted(old(clients)[i], i in ids && i !in rest)
        decreases rest
      {
        var id := AnyOf(rest);
        rest := rest - {id};
        if id in clients {
          clients := clients[id := clients[id].(marked := true)];
        }
      }
      forall i | i in clients
        ensures clients[i] == Noted(old(clients)[i], i in ids)
      {
      }
      SameMap(clients, MarkAll(old(Tables()), ids).clients);
    }

    /** The end of a poll cycle: the marked clients are torn down, in whatever order the table
        yields them, and go into the WHOWAS store in that order. The successions that a teardown
        announces may mark further clients: those that overflow gives for it. If their turn is
        still to come, they go too. */
    method SweepMarked(now: int, overflow: int -> set<int>) returns (ghost p: Progress)
      requires Valid() && whowas.Valid()
      modifies this, whowas
      ensures Valid() && Tables() == SweptAmidMarks(old(Tables()), p.early, p.late)
      ensures NoDup(p.order) && Ids(p.order) == Runs.Marked(MarkAll(old(Tables()), p.early))
      ensures Ids(p.order) <= old(clients).Keys
      ensures p.early + p.late <= Overflown(p.order, overflow)
      ensures whowas.Valid()
      ensures whowas.log == Signoffs.SweepSignoffs(old(Tables()), p.order, serverName, now) + old(whowas.log)
    {
      ghost var before := Tables();
      p := SweepTurns(now, overflow);
      SweepEnds(before, p);
      SweptKeeps(before, p.early, p.late);
    }

    method SweepTurns(now: int, overflow: int -> set<int>) returns (ghost p: Progress)
      requires Valid() && whowas.Valid()
      modifies this, whowas
      ensures SweepGoesOn(old(Tables()), p, {}, overflow) && Tables() == Midway(old(Tables()), p)
      ensures whowas.Valid() && Ids(p.order) <= old(clients).Keys
      ensures whowas.log == Signoffs.SweepSignoffs(old(Tables()), p.order, serverName, now) + old(whowas.log)
    {
      ghost var before := Tables();
      var rest: set<int> := clients.Keys;
      p := Beginning(before);
      SweepBegins(before);
      while rest != {}
        invariant SweepGoesOn(before, p, rest, overflow) && Tables() == Midway(before, p) && whowas.Valid()
        invariant whowas.log == Signoffs.SweepSignoffs(before, p.order, serverName, now) + old(whowas.log)
        decreases rest
      {
        var id := AnyOf(rest);
        TurnComes(before, p, id);
        p := SweepOne(id, before, p, now, overflow, old(whowas.log));
        rest := rest - {id};
      }
    }

    /** The turn of one client. */
    method SweepOne(id: int, ghost before: State, ghost p: Progress, now: int, overflow: int -> set<int>,
                    ghost earlier: seq<Whowas.Entry>)
      returns (ghost next: Progress)
      requires Inv(before) && SweepGoesOn(before, p, p.rest, overflow) && id in p.rest && id in clients
      requires Tables() == Midway(before, p) && whowas.Valid()
      requires clients[id] == Noted(before.clients[id], id in p.early) && Ids(p.order) <= before.clients.Keys
      requires whowas.log == Signoffs.SweepSignoffs(before, p.order, serverName, now) + earlier
      modifies this, whowas
      ensures SweepGoesOn(before, next, p.rest - {id}, overflow) && Tables() == Midway(before, next)
      ensures whowas.Valid() && Ids(next.order) <= before.clients.Keys
      ensures whowas.log == Signoffs.SweepSignoffs(before, next.order, serverName, now) + earlier
    {
      if clients[id].marked {
        TurnTaken(before, p, id, overflow);
        next := TakeDown(id, before, p, now, overflow(id), earlier);
      } else {
        TurnPassed(before, p, id, overflow);
        next := Passed(p, id);
      }
    }

    method TakeDown(id: int, ghost before: State, ghost p: Progress, now: int, marks: set<int>,
                    ghost earlier: seq<Whowas.Entry>)
      returns (ghost next: Progress)
      requires Valid() && whowas.Valid() && id in clients && id in before.clients && Ids(p.order) <= before.clients.Keys
      requires clients[id] == Noted(before.clients[id], id in p.early)
      requires whowas.log == Signoffs.SweepSignoffs(before, p.order, serverName, now) + earlier
      modifies this, whowas
      ensures Tables() == MarkAll(Teardown(old(Tables()), id), marks)
      ensures next == TornDown(p, id, marks, Teardown(old(Tables()), id).clients.Keys)
      ensures whowas.Valid() && Ids(next.order) <= before.clients.Keys
      ensures whowas.log == Signoffs.SweepSignoffs(before, next.order, serverName, now) + earlier
    {
      TearAndMark(id, now, marks);
      next := TornDown(p, id, marks, Teardown(old(Tables()), id).clients.Keys);
      LogGrows(before, p, id, serverName, now, earlier);
    }

    method TearAndMark(id: int, now: int, marks: set<int>)
      requires Valid() && whowas.Valid() && id in clients
      modifies this, whowas
      ensures Tables() == MarkAll(Teardown(old(Tables()), id), marks)
      ensures whowas.Valid()
      ensures whowas.log == [Signoffs.SignoffOf(old(clients[id]), serverName, now)] + old(whowas.log)
    {
      TeardownClient(id, now);
      MarkOverflown(marks);
    }

    // -------------------------------------------------------------- JOIN, PART, KICK

    /** The channel of that name; a new and empty one if there is none. */
    method GetOrCreateChannel(name: string) returns (k: string)
      modifies this`channels, this`nextGen
      ensures k == Fold(name)
      ensures channels == if k in old(channels) then old(channels)
                          else old(channels)[k := NewChannel(name, old(nextGen))]
      ensures nextGen == if k in old(channels) then old(nextGen) else old(nextGen) + 1
    {
      k := IrcCaseFold(name);
      if k in channels {
        return;
      }
      channels := channels[k := NewChannel(name, nextGen)];
      nextGen := nextGen + 1;
    }

    /** The rules of an existing channel, in the order in which they are checked. */
    method MayEnter(ch: Channel, id: int, key: string) returns (ok: bool)
      requires id in clients
      ensures ok <==> Membership.Admits(ch, id, clients[id], key)
      ensures ok <==> Authority.LetsIn(ch, id, clients[id], key)
    {
      Authority.AdmitsExact(ch, id, clients[id], key);
      var c := clients[id];
      var invited := id in ch.invited;
      var banned := IsBanned(ch.banMasks, c.nick, c.user, c.host);
      if banned && !invited {
        return false;
      }
      if ch.inviteOnly && !invited {
        return false;
      }
      if ch.key != "" && ch.key != key && !invited {
        return false;
      }
      if ch.userLimit > 0 && |ch.members| >= ch.userLimit && !invited {
        return false;
      }
      return true;
    }

    method InsertMember(id: int, k: string, created: bool)
      requires id in clients && k in channels
      modifies this
      ensures var ch := Membership.WithMember(old(channels)[k], id);
              Tables() == Membership.Enter(old(Tables()), id, k,
                                        if created then ch.(operators := ch.operators + {id}) else ch)
    {
      var ch := channels[k];
      ch := ch.(members := ch.members + {id}, joinOrder := ch.joinOrder[id := ch.nextJoinSeq]);
      ch := ch.(nextJoinSeq := ch.nextJoinSeq + 1);
      if created {
        ch := ch.(operators := ch.operators + {id});
      }
      clients := clients[id := clients[id].(channels := clients[id].channels + [PtrTo(k, ch)])];
      ch := ch.(invited := ch.invited - {id});
      channels := channels[k := ch];
    }

    method JoinOne(id: int, name: string, key: string)
      requires id in clients
      modifies this
      ensures Tables() == Membership.JoinOne(old(Tables()), id, name, key)
      ensures Authority.On(Tables(), Fold(name), id) <==>
              || Authority.On(old(Tables()), Fold(name), id)
              || (&& ValidChannelName(name) && |old(clients[id]).channels| < 20
                  && Authority.Opens(old(Tables()), id, Fold(name), key))
    {
      Authority.JoinOneExact(Tables(), id, name, key);
      var before := channels;
      var valid := IsValidChannelName(name);
      if !valid {
        return;
      }
      if |clients[id].channels| >= MAX_CHANNELS_PER_USER {
        return;
      }
      var folded := IrcCaseFold(name);
      var created := folded !in channels;
      var k := GetOrCreateChannel(name);
      if id in channels[k].members {
        return;
      }
      if !created {
        var ok := MayEnter(channels[k], id, key);
        if !ok {
          return;
        }
      }
      if |channels[k].members| >= MAX_USERS_PER_CHANNEL {
        return;
      }
      if created {
        FoundedForm(before, k, name, nextGen - 1, id);
      }
      InsertMember(id, k, created);
    }

    method JoinCommand(id: int, params: seq<string>)
      requires Valid() && id in clients
      modifies this
      ensures Tables() == Runs.Execute(old(Tables()), id, Runs.Join, params, 0)
    {
      if params == [] || params[0] == "" {
        return;
      }
      if params[0] == "0" {
        PartAllChannels(id);
        return;
      }
      var names := SplitFields(params[0], ',');
      var keys: seq<string> := [];
      if |params| > 1 {
        keys := SplitFields(params[1], ',');
      }
      if |names| > Membership.MAX_JOINS_PER_COMMAND {
        names := names[..Membership.MAX_JOINS_PER_COMMAND];
      }
      JoinAll(id, names, keys);
    }

    method JoinAll(id: int, names: seq<string>, keys: seq<string>)
      requires id in clients
      modifies this
      ensures Tables() == Membership.JoinFrom(old(Tables()), id, names, keys, 0)
    {
      for i := 0 to |names|
        invariant id in clients
        invariant Membership.JoinFrom(Tables(), id, names, keys, i) ==
                  Membership.JoinFrom(old(Tables()), id, names, keys, 0)
      {
        var key := if i < |keys| then keys[i] else "";
        JoinOne(id, names[i], key);
      }
    }

    method PartCommand(id: int, params: seq<string>)
      requires Valid() && id in clients
      modifies this
      ensures Tables() == Runs.Execute(old(Tables()), id, Runs.Part, params, 0)
    {
      if params == [] {
        return;
      }
      var names := SplitFields(params[0], ',');
      if names == [] {
        return;
      }
      PartEach(id, names);
    }

    method PartEach(id: int, names: seq<string>)
      requires Valid() && id in clients
      modifies this
      ensures Tables() == Membership.PartFrom(old(Tables()), id, names, 0)
    {
      for i := 0 to |names|
        invariant id in clients && Valid()
        invariant Membership.PartFrom(Tables(), id, names, i) == Membership.PartFrom(old(Tables()), id, names, 0)
      {
        PartNamed(id, names[i]);
      }
    }

    method PartNamed(id: int, name: string)
      requires Valid() && id in clients
      modifies this
      ensures Valid() && id in clients && Tables() == Membership.PartNamed(old(Tables()), id, name)
    {
      var k := IrcCaseFold(name);
      if k !in channels {
        return;
      }
      if id !in channels[k].members {
        return;
      }
      StoredChannel(Tables(), k);
      LeaveKeeps(Tables(), id, k);
      RemoveClientFromChannel(id, k);
    }

    method KickCommand(id: int, params: seq<string>)
      requires Valid() && id in clients
      modifies this
      ensures Tables() == Runs.Execute(old(Tables()), id, Runs.Kick, params, 0)
    {
      if |params| < 2 || params[0] == "" || params[1] == "" {
        return;
      }
      var k := IrcCaseFold(params[0]);
      if k !in channels {
        return;
      }
      if id !in channels[k].members {
        return;
      }
      if id !in channels[k].operators {
        return;
      }
      var target := FindClientByNick(params[1]);
      if target.None? || target.value !in channels[k].members {
        return;
      }
      StoredChannel(Tables(), k);
      RemoveClientFromChannel(target.value, k);
    }

    // -------------------------------------------------------------- INVITE, MODE, QUIT

    method InviteCommand(id: int, params: seq<string>, now: int)
      requires id in clients
      modifies this
      ensures Tables() == Runs.Execute(old(Tables()), id, Runs.Invite, params, now)
      ensures IndexOk(old(Tables())) ==>
                id in clients && clients[id].lastInviteAt ==
                  if InviteRate.Attempt(old(Tables()), id, params, now) then now else old(clients[id]).lastInviteAt
    {
      InviteRate.InviteStamped(Tables(), id, params, now);
      if |params| < 2 || params[0] == "" || params[1] == "" {
        return;
      }
      var target := FindClientByNick(params[0]);
      if target.None? || !clients[target.value].registered {
        return;
      }
      var k := IrcCaseFold(params[1]);
      if k !in channels {
        return;
      }
      var ch := channels[k];
      if id !in ch.members {
        return;
      }
      if target.value in ch.members {
        return;
      }
      if ch.inviteOnly && id !in ch.operators {
        return;
      }
      assert Membership.Invitee(Tables(), id, params) == target;
      if now - clients[id].lastInviteAt < Membership.INVITE_INTERVAL {
        return;
      }
      clients := clients[id := clients[id].(lastInviteAt := now)];
      if |ch.invited| >= MAX_INVITES_PER_CHANNEL {
        return;
      }
      channels := channels[k := ch.(invited := ch.invited + {target.value})];
    }

    /** The announcement is empty when nothing changed. */
    method ModeCommand(id: int, params: seq<string>) returns (announcement: string)
      requires id in clients
      modifies this
      ensures Tables() == Runs.Execute(old(Tables()), id, Runs.Mode, params, 0)
      ensures Tables() == ModeRequests.Commanded(old(Tables()), id, params)
      ensures announcement == match Membership.ModeRun(old(Tables()), id, params)
                              case Some(r) => if r.applied == [] then ""
                                              else Announcing.Announcement(params[0], r.applied)
                              case None => ""
    {
      ModeRequests.ModeDoes(Tables(), id, params);
      announcement := "";
      if params == [] {
        return;
      }
      if !IsChannelName(params[0]) {
        return;
      }
      var k := IrcCaseFold(params[0]);
      if k !in channels {
        return;
      }
      if |params| < 2 {
        return;
      }
      if (params[1] == "b" || params[1] == "+b") && |params| < 3 {
        return;
      }
      if id !in channels[k].operators {
        return;
      }
      var ch, applied := Modes.RunModes(Tables(), channels[k], params);
      channels := channels[k := ch];
      if applied != [] {
        announcement := Announcing.Announce(params[0], applied);
      }
    }

    /** Everybody who shares a channel is told once. */
    method QuitCommand(id: int) returns (recipients: set<int>)
      requires Valid() && id in clients
      modifies this
      ensures Tables() == Runs.Execute(old(Tables()), id, Runs.Quit, [], 0)
      ensures recipients == if old(clients[id]).registered then Audience(old(Tables()), id) - {id} else {}
    {
      recipients := {};
      QuitterIsSound(Tables(), id);
      if clients[id].registered && clients[id].nick != "" {
        recipients := CoMembers(id);
        recipients := recipients - {id};
      }
      clients := clients[id := clients[id].(marked := true)];
    }

    // -------------------------------------------------------------- the line handler

    method Execute(id: int, v: Runs.Verb, params: seq<string>, now: int)
      requires Valid() && id in clients && whowas.Valid()
      modifies this, whowas
      ensures Tables() == Runs.Execute(old(Tables()), id, v, params, now)
      ensures whowas.Valid()
      ensures whowas.log == Signoffs.VerbSignoffs(old(Tables()), id, v, params, serverName, now) + old(whowas.log)
    {
      match v
      case Cap => CapCommand(id, params);
      case Pass => PassCommand(id, params);
      case User => UserCommand(id, params);
      case Quit => var _ := QuitCommand(id);
      case Nick =>
        assert ListOk(id, clients[id].channels, channels);
        var _ := NickCommand(id, params, now);
      case Join => JoinCommand(id, params);
      case Part => PartCommand(id, params);
      case Kick => KickCommand(id, params);
      case Invite => InviteCommand(id, params, now);
      case Mode => var _ := ModeCommand(id, params);
      case Asking(_) =>
    }

    method HandleLine(id: int, line: string, now: int)
      requires Valid() && id in clients && whowas.Valid()
      modifies this, whowas
      ensures Valid() && Tables() == Runs.HandleLine(old(Tables()), id, line, now)
      ensures match Words.Command(old(Tables()), id, line)
              case Some(v) => Tables() == Runs.Execute(old(Tables()), id, v, Words.Params(line), now)
              case None => Tables() == old(Tables())
      ensures whowas.Valid()
      ensures whowas.log == Signoffs.LineSignoffs(old(Tables()), id, line, serverName, now) + old(whowas.log)
    {
      Runs.HandleLineKeeps(Tables(), id, line, now);
      Words.LineRuns(Tables(), id, line, now);
      var msg := IrcMessage.TokenizeMsg(line);
      var verdict := Runs.Gate(clients[id].registered, msg.command, |msg.params|);
      if verdict.Accepted? {
        Execute(id, verdict.verb, msg.params, now);
      }
    }

    method ServeOne(e: Runs.Event) returns (ghost signoffs: seq<Whowas.Entry>)
      requires Valid() && whowas.Valid()
      modifies this, whowas
      ensures Valid() && Tables() == Runs.Step(old(Tables()), e)
      ensures whowas.Valid() && Signoffs.StepSignoffs(old(Tables()), e, serverName, signoffs)
      ensures whowas.log == signoffs + old(whowas.log)
    {
      signoffs := [];
      match e
      case Accept(host) => AcceptOne(host);
      case Line(id, text, now) =>
        if id in clients {
          signoffs := Signoffs.LineSignoffs(Tables(), id, text, serverName, now);
          HandleLine(id, text, now);
        }
      case Close(id) => CloseClient(id);
      case Sweep(now) =>
        ghost var before := Tables();
        Runs.StepKeeps(before, e);
        ghost var p := SweepMarked(now, (id: int) => {});
        QuietSweep(before, p, now);
        signoffs := Signoffs.SweepSignoffs(before, p.order, serverName, now);
    }

    /** All is in order after the events in done, which started in before; the WHOWAS store has what
        they left behind, on top of what it had earlier. */
    ghost predicate Serving(before: State, done: seq<Runs.Event>, signoffs: seq<Whowas.Entry>,
                            earlier: seq<Whowas.Entry>)
      reads this, whowas
    {
      && Valid() && whowas.Valid() && Signoffs.Follows(before, done, Tables(), serverName, signoffs)
      && whowas.log == signoffs + earlier
    }

    method ServeNext(ghost before: State, ghost done: seq<Runs.Event>, e: Runs.Event,
                     ghost signoffs: seq<Whowas.Entry>, ghost earlier: seq<Whowas.Entry>)
      returns (ghost more: seq<Whowas.Entry>)
      requires Serving(before, done, signoffs, earlier)
      modifies this, whowas
      ensures Serving(before, done + [e], more, earlier)
    {
      ghost var here := Tables();
      ghost var last := ServeOne(e);
      Signoffs.FollowsStep(before, done, here, e, serverName, signoffs, last);
      Prepend(last, signoffs, earlier);
      more := last + signoffs;
    }

    method ServeAll(events: seq<Runs.Event>, ghost before: State, ghost earlier: seq<Whowas.Entry>)
      returns (ghost signoffs: seq<Whowas.Entry>)
      requires Serving(before, [], [], earlier)
      modifies this, whowas
      ensures Serving(before, events, signoffs, earlier)
    {
      ghost var done: seq<Runs.Event> := [];
      signoffs := [];
      for i := 0 to |events|
        invariant done == events[..i]
        invariant Serving(before, done, signoffs, earlier)
      {
        signoffs := ServeNext(before, done, events[i], signoffs, earlier);
        done := done + [events[i]];
      }
      assert done == events;
    }

    /** The event loop: the tables follow the run, and the WHOWAS store what the run leaves behind. */
    method Serve(events: seq<Runs.Event>) returns (ghost signoffs: seq<Whowas.Entry>)
      requires Valid() && whowas.Valid()
      modifies this, whowas
      ensures Valid() && Tables() == Runs.Run(old(Tables()), events)
      ensures whowas.Valid() && Signoffs.RunSignoffs(old(Tables()), events, serverName, signoffs)
      ensures whowas.log == signoffs + old(whowas.log)
    {
      Signoffs.FollowsStart(Tables(), serverName);
      assert [] + whowas.log == whowas.log;
      signoffs := ServeAll(events, Tables(), whowas.log);
    }
  }
}
