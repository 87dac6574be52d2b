/** Marking a client for close, which any send may do in the middle of a command, is not noticed
    by the command: the mark may as well have come before or after it. */
module Closing {
  import opened Wrappers
  import opened IrcText
  import IrcMessage
  import opened ServerState
  import opened Departures
  import opened Sweeps
  import opened Registration
  import opened Membership
  import opened Modes
  import Runs

  function Noted(c: Client, here: bool): Client
  {
    if here then c.(marked := true) else c
  }

  /** j is marked for close, if it is connected. */
  function MarkIn(s: State, j: int): State
  {
    if j in s.clients then Mark(s, j) else s
  }

  /** Two states that agree but for the mark on j. */
  ghost predicate SameButMark(s: State, t: State, j: int)
  {
    && t.clients.Keys == s.clients.Keys
    && (forall i :: i in s.clients ==> t.clients[i] == Noted(s.clients[i], i == j))
    && t == s.(clients := t.clients)
  }

  lemma MarkedIs(s: State, t: State, j: int)
    ensures SameButMark(s, t, j) <==> t == MarkIn(s, j)
  {
    if SameButMark(s, t, j) {
      assert MarkIn(s, j).clients.Keys == s.clients.Keys;
      forall i
        ensures i in t.clients <==> i in s.clients
      {
        assert i in t.clients <==> i in t.clients.Keys;
      }
      forall i | i in s.clients
        ensures MarkIn(s, j).clients[i] == Noted(s.clients[i], i == j)
      {
      }
      SameMap(t.clients, MarkIn(s, j).clients);
    }
  }

  // ---------------------------------------------------------------- one client

  lemma ReqUnaware(c: Client, params: seq<string>, here: bool)
    ensures CapReq(Noted(c, here), params) == Noted(CapReq(c, params), here)
  {
  }

  lemma LsUnaware(c: Client, params: seq<string>, here: bool)
    ensures CapLs(Noted(c, here), params) == Noted(CapLs(c, params), here)
  {
  }

  lemma EndUnaware(password: string, c: Client, here: bool)
    ensures CapEnd(password, Noted(c, here)) == Noted(CapEnd(password, c), here)
    ensures CapClear(Noted(c, here)) == Noted(CapClear(c), here)
  {
  }

  lemma CapUnaware(password: string, c: Client, params: seq<string>, here: bool)
    ensures Cap(password, Noted(c, here), params) == Noted(Cap(password, c, params), here)
  {
    ReqUnaware(c, params, here);
    LsUnaware(c, params, here);
    EndUnaware(password, c, here);
  }

  lemma UserUnaware(password: string, c: Client, params: seq<string>, here: bool)
    ensures User(password, Noted(c, here), params) == Noted(User(password, c, params), here)
    ensures Pass(Noted(c, here), params) == Noted(Pass(c, params), here)
  {
  }

  lemma OneUnaware(s: State, t: State, j: int, id: int, c: Client)
    requires SameButMark(s, t, j) && id in s.clients
    ensures SameButMark(OnClient(s, id, c), OnClient(t, id, Noted(c, id == j)), j)
  {
  }

  lemma CompletedUnaware(password: string, c: Client, here: bool)
    ensures Completed(password, Noted(c, here)) == Noted(Completed(password, c), here)
  {
  }

  /** Both change the same in the index, and the same of one client. */
  lemma IndexUnaware(s: State, t: State, j: int, id: int, c: Client, nicks: map<string, int>)
    requires SameButMark(s, t, j) && id in s.clients
    ensures SameButMark(s.(nicks := nicks, clients := s.clients[id := c]),
                        t.(nicks := nicks, clients := t.clients[id := Noted(c, id == j)]), j)
  {
  }

  lemma NickUnaware(s: State, t: State, j: int, id: int, nick: string)
    requires SameButMark(s, t, j) && id in s.clients
    ensures SameButMark(Nick(s, id, nick), Nick(t, id, nick), j)
  {
    var c := s.clients[id].(nick := nick);
    assert t.clients[id] == Noted(s.clients[id], id == j);
    CompletedUnaware(s.password, c, id == j);
    var renamed := (s.nicks - {Fold(s.clients[id].nick)})[Fold(nick) := id];
    IndexUnaware(s, t, j, id, c, renamed);
    IndexUnaware(s, t, j, id, Completed(s.password, c), s.nicks[Fold(nick) := id]);
  }

  // ---------------------------------------------------------------- channels

  lemma EnterUnaware(s: State, t: State, j: int, id: int, k: string, r: Channel)
    requires SameButMark(s, t, j) && id in s.clients
    ensures SameButMark(Enter(s, id, k, r), Enter(t, id, k, r), j)
  {
    assert t.clients[id] == Noted(s.clients[id], id == j);
  }

  lemma EntersUnaware(s: State, t: State, j: int, id: int, name: string, key: string)
    requires SameButMark(s, t, j) && id in s.clients
    ensures Enters(s, id, name, key) <==> Enters(t, id, name, key)
  {
    assert t.clients[id] == Noted(s.clients[id], id == j);
  }

  lemma JoinOneUnaware(s: State, t: State, j: int, id: int, name: string, key: string)
    requires SameButMark(s, t, j) && id in s.clients
    ensures SameButMark(JoinOne(s, id, name, key), JoinOne(t, id, name, key), j)
  {
    EntersUnaware(s, t, j, id, name, key);
    var k := Fold(name);
    var r := if k in s.channels then WithMember(s.channels[k], id) else Founded(name, s.nextGen, id);
    EnterUnaware(s, t, j, id, k, r);
  }

  lemma {:induction false} JoinFromUnaware(s: State, t: State, j: int, id: int, names: seq<string>, keys: seq<string>,
                                           i: nat)
    requires SameButMark(s, t, j) && id in s.clients && i <= |names|
    ensures SameButMark(JoinFrom(s, id, names, keys, i), JoinFrom(t, id, names, keys, i), j)
    decreases |names| - i
  {
    if i < |names| {
      var key := KeyAt(keys, i);
      JoinOneUnaware(s, t, j, id, names[i], key);
      JoinFromUnaware(JoinOne(s, id, names[i], key), JoinOne(t, id, names[i], key), j, id, names, keys, i + 1);
    }
  }

  lemma PartAllUnaware(s: State, t: State, j: int, id: int)
    requires SameButMark(s, t, j) && id in s.clients
    ensures SameButMark(PartAll(s, id), PartAll(t, id), j)
  {
  }

  lemma JoinUnaware(s: State, t: State, j: int, id: int, params: seq<string>)
    requires SameButMark(s, t, j) && id in s.clients
    ensures SameButMark(Membership.Join(s, id, params), Membership.Join(t, id, params), j)
  {
    if params != [] && params[0] != "" {
      if params[0] == "0" {
        PartAllUnaware(s, t, j, id);
      } else {
        JoinFromUnaware(s, t, j, id, FirstNames(Split(params[0], ',')), KeyList(params), 0);
      }
    }
  }

  lemma LeaveUnaware(s: State, t: State, j: int, id: int, k: string)
    requires SameButMark(s, t, j) && id in s.clients && k in s.channels
    ensures SameButMark(Leave(s, id, k), Leave(t, id, k), j)
  {
  }

  lemma {:induction false} PartFromUnaware(s: State, t: State, j: int, id: int, names: seq<string>, i: nat)
    requires SameButMark(s, t, j) && id in s.clients && i <= |names|
    ensures SameButMark(PartFrom(s, id, names, i), PartFrom(t, id, names, i), j)
    decreases |names| - i
  {
    if i < |names| {
      var k := Fold(names[i]);
      if k in s.channels && id in s.channels[k].members {
        LeaveUnaware(s, t, j, id, k);
      }
      PartFromUnaware(PartNamed(s, id, names[i]), PartNamed(t, id, names[i]), j, id, names, i + 1);
    }
  }

  lemma KickUnaware(s: State, t: State, j: int, id: int, params: seq<string>)
    requires SameButMark(s, t, j)
    ensures SameButMark(Kick(s, id, params), Kick(t, id, params), j)
  {
    assert Kicked(t, id, params) == Kicked(s, id, params);
    match Kicked(s, id, params)
    case None =>
    case Some(target) => LeaveUnaware(s, t, j, target, Fold(params[0]));
  }

  lemma InviteUnaware(s: State, t: State, j: int, id: int, params: seq<string>, now: int)
    requires SameButMark(s, t, j) && id in s.clients
    ensures SameButMark(Invite(s, id, params, now), Invite(t, id, params, now), j)
  {
    assert Invitee(t, id, params) == Invitee(s, id, params);
    assert t.clients[id] == Noted(s.clients[id], id == j);
  }

  lemma EffectUnaware(s: State, t: State, j: int, ch: Channel, sign: char, m: char, arg: string)
    requires SameButMark(s, t, j)
    ensures Effect(t, ch, sign, m, arg) == Effect(s, ch, sign, m, arg)
  {
    assert FindByNick(t, arg) == FindByNick(s, arg);
    assert Target(t, ch, arg) == Target(s, ch, arg);
    var x := Target(s, ch, arg);
    assert x.Some? ==> t.clients[x.value].nick == s.clients[x.value].nick;
  }

  lemma {:induction false} ModeLoopUnaware(s: State, t: State, j: int, flags: string, r: Run)
    requires SameButMark(s, t, j)
    ensures ModeLoop(t, flags, r) == ModeLoop(s, flags, r)
    decreases |flags|
  {
    if flags != "" {
      var m := flags[0];
      EffectUnaware(s, t, j, r.ch, r.sign, m, if ConsumesArg(r.sign, m) && r.args != [] then r.args[0] else "");
      ModeLoopUnaware(s, t, j, flags[1..], ModeChar(s, m, r));
    }
  }

  lemma ModeUnaware(s: State, t: State, j: int, id: int, params: seq<string>)
    requires SameButMark(s, t, j)
    ensures SameButMark(Mode(s, id, params), Mode(t, id, params), j)
  {
    if !ModeQuery(s, params) {
      ModeLoopUnaware(s, t, j, params[1], Start(s.channels[Fold(params[0])], params[2..]));
    }
  }

  // ---------------------------------------------------------------- a whole line

  lemma ClientCommandUnaware(s: State, t: State, j: int, id: int, v: Runs.Verb, params: seq<string>)
    requires SameButMark(s, t, j) && id in s.clients && (v.Cap? || v.Pass? || v.User? || v.Quit?)
    ensures SameButMark(Runs.Execute(s, id, v, params, 0), Runs.Execute(t, id, v, params, 0), j)
  {
    var c := s.clients[id];
    assert t.clients[id] == Noted(c, id == j);
    match v
    case Cap =>
      CapUnaware(s.password, c, params, id == j);
      OneUnaware(s, t, j, id, Cap(s.password, c, params));
    case Pass =>
      UserUnaware(s.password, c, params, id == j);
      OneUnaware(s, t, j, id, Pass(c, params));
    case User =>
      UserUnaware(s.password, c, params, id == j);
      OneUnaware(s, t, j, id, User(s.password, c, params));
    case Quit => OneUnaware(s, t, j, id, c.(marked := true));
  }

  lemma ExecuteUnaware(s: State, t: State, j: int, id: int, v: Runs.Verb, params: seq<string>, now: int)
    requires SameButMark(s, t, j) && id in s.clients
    ensures SameButMark(Runs.Execute(s, id, v, params, now), Runs.Execute(t, id, v, params, now), j)
  {
    match v
    case Nick =>
      if params != [] {
        NickUnaware(s, t, j, id, params[0]);
      }
    case Join => JoinUnaware(s, t, j, id, params);
    case Part =>
      if params != [] {
        PartFromUnaware(s, t, j, id, Split(params[0], ','), 0);
      }
    case Kick => KickUnaware(s, t, j, id, params);
    case Invite => InviteUnaware(s, t, j, id, params, now);
    case Mode => ModeUnaware(s, t, j, id, params);
    case Asking(_) =>
    case _ => ClientCommandUnaware(s, t, j, id, v, params);
  }

  /** Closing a client and handling a line commute, whoever the client is and whatever the line. */
  lemma CloseCommutes(s: State, j: int, id: int, line: string, now: int)
    ensures Runs.Step(Runs.Step(s, Runs.Close(j)), Runs.Line(id, line, now)) ==
            Runs.Step(Runs.Step(s, Runs.Line(id, line, now)), Runs.Close(j))
  {
    var t := MarkIn(s, j);
    MarkedIs(s, t, j);
    if id in s.clients {
      var msg := IrcMessage.Tokenize(line);
      assert t.clients[id].registered == s.clients[id].registered;
      match Runs.Gate(s.clients[id].registered, msg.command, |msg.params|) {
        case Accepted(v) =>
          ExecuteUnaware(s, t, j, id, v, msg.params, now);
          MarkedIs(Runs.Execute(s, id, v, msg.params, now), Runs.Execute(t, id, v, msg.params, now), j);
        case _ =>
      }
    }
  }

  // ---------------------------------------------------------------- in the middle of a list

  /** The state when the first i names of a JOIN or PART list are done. */
  ghost function JoinTo(s: State, id: int, names: seq<string>, keys: seq<string>, i: nat): (t: State)
    requires id in s.clients && i <= |names|
    ensures id in t.clients
  {
    if i == 0 then s else JoinOne(JoinTo(s, id, names, keys, i - 1), id, names[i - 1], KeyAt(keys, i - 1))
  }

  ghost function PartTo(s: State, id: int, names: seq<string>, i: nat): (t: State)
    requires id in s.clients && i <= |names|
    ensures id in t.clients
  {
    if i == 0 then s else PartNamed(PartTo(s, id, names, i - 1), id, names[i - 1])
  }

  lemma {:induction false} JoinResumes(s: State, id: int, names: seq<string>, keys: seq<string>, i: nat)
    requires id in s.clients && i <= |names|
    ensures JoinFrom(JoinTo(s, id, names, keys, i), id, names, keys, i) == JoinFrom(s, id, names, keys, 0)
  {
    if i > 0 {
      JoinResumes(s, id, names, keys, i - 1);
    }
  }

  lemma {:induction false} PartResumes(s: State, id: int, names: seq<string>, i: nat)
    requires id in s.clients && i <= |names|
    ensures PartFrom(PartTo(s, id, names, i), id, names, i) == PartFrom(s, id, names, 0)
  {
    if i > 0 {
      PartResumes(s, id, names, i - 1);
    }
  }

  /** A mark set between two names of a JOIN list may as well come when the list is done. */
  lemma MarkBetweenJoins(s: State, j: int, id: int, names: seq<string>, keys: seq<string>, i: nat)
    requires id in s.clients && i <= |names|
    ensures JoinFrom(MarkIn(JoinTo(s, id, names, keys, i), j), id, names, keys, i) ==
            MarkIn(JoinFrom(s, id, names, keys, 0), j)
  {
    var t := JoinTo(s, id, names, keys, i);
    MarkedIs(t, MarkIn(t, j), j);
    JoinFromUnaware(t, MarkIn(t, j), j, id, names, keys, i);
    JoinResumes(s, id, names, keys, i);
    MarkedIs(JoinFrom(t, id, names, keys, i), JoinFrom(MarkIn(t, j), id, names, keys, i), j);
  }

  /** And so for a PART list. */
  lemma MarkBetweenParts(s: State, j: int, id: int, names: seq<string>, i: nat)
    requires id in s.clients && i <= |names|
    ensures PartFrom(MarkIn(PartTo(s, id, names, i), j), id, names, i) == MarkIn(PartFrom(s, id, names, 0), j)
  {
    var t := PartTo(s, id, names, i);
    MarkedIs(t, MarkIn(t, j), j);
    PartFromUnaware(t, MarkIn(t, j), j, id, names, i);
    PartResumes(s, id, names, i);
    MarkedIs(PartFrom(t, id, names, i), PartFrom(MarkIn(t, j), id, names, i), j);
  }

  // ---------------------------------------------------------------- in the middle of JOIN 0

  lemma {:induction false} PartWalkSplit(channels: map<string, Channel>, id: int, ps: seq<ChanPtr>, i: nat,
                                         live: set<int>)
    requires i <= |ps|
    ensures PartWalk(PartWalk(channels, id, ps[..i], live), id, ps[i..], live) == PartWalk(channels, id, ps, live)
    decreases i
  {
    if i == 0 {
      assert ps[..0] == [] && ps[0..] == ps;
    } else {
      assert ps[..i][0] == ps[0] && ps[..i][1..] == ps[1..][..i - 1] && ps[1..][i - 1..] == ps[i..];
      PartWalkSplit(PartOne(channels, id, ps[0], live), id, ps[1..], i - 1, live);
    }
  }

  /** The walk of JOIN 0 over ps, from the middle of it: the client's list is cleared at the end. */
  ghost function WalkOn(s: State, id: int, ps: seq<ChanPtr>): State
    requires id in s.clients
  {
    s.(channels := PartWalk(s.channels, id, ps, s.clients.Keys),
       clients := s.clients[id := s.clients[id].(channels := [])])
  }

  /** A mark set between two stops of the walk, as a succession announced at the first of them may
      set it, might as well come when the walk is over. */
  lemma MarkBetweenStops(s: State, j: int, id: int, i: nat)
    requires id in s.clients && i <= |s.clients[id].channels|
    ensures var ps := s.clients[id].channels;
            var mid := s.(channels := PartWalk(s.channels, id, ps[..i], s.clients.Keys));
            WalkOn(MarkIn(mid, j), id, ps[i..]) == MarkIn(PartAll(s, id), j)
  {
    var ps := s.clients[id].channels;
    var mid := s.(channels := PartWalk(s.channels, id, ps[..i], s.clients.Keys));
    var t := MarkIn(mid, j);
    PartWalkSplit(s.channels, id, ps, i, s.clients.Keys);
    MarkedIs(mid, t, j);
    assert WalkOn(mid, id, ps[i..]) == PartAll(s, id);
    assert SameButMark(WalkOn(mid, id, ps[i..]), WalkOn(t, id, ps[i..]), j);
    MarkedIs(WalkOn(mid, id, ps[i..]), WalkOn(t, id, ps[i..]), j);
  }
}
