/** How a connection becomes a registered user: NICK, USER, PASS and CAP in any order. */
module Registration {
  import opened Wrappers
  import opened IrcText
  import opened Secret
  import opened ServerState

  // ---------------------------------------------------------------- completion

  /** A client after tryCompleteRegistration. */
  function Completed(password: string, c: Client): Client
  {
    if c.registered || c.nick == "" || c.user == "" || c.capNegotiating then c
    else if password != "" && !SecretEq(c.suppliedPass, password) then c.(suppliedPass := "", marked := true)
    else c.(suppliedPass := "", registered := true)
  }

  /** What every client keeps, whether or not completion has been tried yet. */
  predicate Sound(c: Client)
  {
    && (c.registered ==> Ready(c))
    && (c.nick != "" ==> ValidNick(c.nick))
    && (c.user != "" ==> ValidUsername(c.user))
  }

  lemma CompletedOk(password: string, c: Client)
    requires Sound(c)
    ensures RegistrationOk(Completed(password, c))
  {
  }

  // ---------------------------------------------------------------- USER, PASS

  function StripTildes(u: string): string
  {
    if u != "" && u[0] == '~' then StripTildes(u[1..]) else u
  }

  const MAX_REALNAMELEN := 200

  /** A real name as it is kept: no line ends or NULs, and cut to length. */
  function Realname(s: string): (r: string)
    ensures |r| <= MAX_REALNAMELEN && forall i :: 0 <= i < |r| ==> !IsControl(r[i])
    ensures |r| == (if |s| > MAX_REALNAMELEN then MAX_REALNAMELEN else |s|)
    ensures forall i :: 0 <= i < |r| && !IsControl(s[i]) ==> r[i] == s[i]
  {
    var n := if |s| > MAX_REALNAMELEN then MAX_REALNAMELEN else |s|;
    seq(n, i requires 0 <= i < n => if IsControl(s[i]) then ' ' else s[i])
  }

  function User(password: string, c: Client, params: seq<string>): Client
  {
    if c.registered || |params| < 4 then c
    else
      var u := StripTildes(params[0]);
      if ValidUsername(u) then Completed(password, c.(user := u, realname := Realname(params[3]))) else c
  }

  function Pass(c: Client, params: seq<string>): Client
  {
    if params == [] || c.registered then c else c.(suppliedPass := params[0])
  }

  // ---------------------------------------------------------------- CAP

  const CAP_NOTIFY := "cap-notify"
  const INVITE_NOTIFY := "invite-notify"

  predicate Supported(name: string) { name == CAP_NOTIFY || name == INVITE_NOTIFY }

  /** A capability that, once acknowledged, the client cannot give up. */
  predicate Sticky(name: string, cap302: bool) { cap302 && name == CAP_NOTIFY }

  function ToUpperChar(c: char): char
  {
    if 'a' <= c <= 'z' then c - 'a' + 'A' else c
  }

  function ToUpper(s: string): (r: string)
    ensures |r| == |s| && forall i :: 0 <= i < |s| ==> r[i] == ToUpperChar(s[i])
  {
    if s == "" then "" else [ToUpperChar(s[0])] + ToUpper(s[1..])
  }

  /** The version a client claims in CAP LS; anything but digits counts as none, and a number
      beyond a million is not read to its end. */
  function Version(v: string, n: nat): nat
  {
    if v == "" then n
    else if !IsDigit(v[0]) then 0
    else
      var n' := n * 10 + (v[0] as int - '0' as int);
      if n' > 1000000 then n' else Version(v[1..], n')
  }

  predicate Enabling(tok: string) { tok == "" || tok[0] != '-' }

  function CapName(tok: string): string { if Enabling(tok) then tok else tok[1..] }

  predicate Acceptable(tok: string, cap302: bool)
  {
    Supported(CapName(tok)) && (Enabling(tok) || !Sticky(CapName(tok), cap302))
  }

  predicate AllAcceptable(toks: seq<string>, cap302: bool)
  {
    forall i :: 0 <= i < |toks| ==> Acceptable(toks[i], cap302)
  }

  function Switch(caps: set<string>, tok: string): set<string>
  {
    if Enabling(tok) then caps + {CapName(tok)} else caps - {CapName(tok)}
  }

  function SwitchAll(caps: set<string>, toks: seq<string>): set<string>
    decreases |toks|
  {
    if toks == [] then caps else SwitchAll(Switch(caps, toks[0]), toks[1..])
  }

  function Negotiating(c: Client): Client
  {
    if c.registered then c else c.(capNegotiating := true)
  }

  function CapLs(c: Client, params: seq<string>): Client
  {
    var claims302 := |params| >= 2 && Version(params[1], 0) >= 302;
    Negotiating(if claims302 then c.(cap302 := true) else c)
  }

  function CapReq(c: Client, params: seq<string>): Client
  {
    if |params| < 2 then c
    else
      var c1 := Negotiating(c);
      var toks := Split(params[1], ' ');
      if AllAcceptable(toks, c1.cap302) then c1.(enabledCaps := SwitchAll(c1.enabledCaps, toks)) else c1
  }

  function CapEnd(password: string, c: Client): Client
  {
    if c.registered then c else Completed(password, c.(capNegotiating := false))
  }

  function CapClear(c: Client): Client
  {
    c.(enabledCaps := set cap | cap in c.enabledCaps && Sticky(cap, c.cap302))
  }

  function Cap(password: string, c: Client, params: seq<string>): Client
  {
    if params == [] then c
    else
      var sub := ToUpper(params[0]);
      if sub == "LS" then CapLs(c, params)
      else if sub == "REQ" then CapReq(c, params)
      else if sub == "END" then CapEnd(password, c)
      else if sub == "CLEAR" then CapClear(c)
      else c
  }

  /** The last token of a request that names a capability decides about it; capabilities that
      are not named stay as they were. */
  predicate Decides(toks: seq<string>, i: int, name: string)
  {
    && 0 <= i < |toks| && CapName(toks[i]) == name
    && forall j :: i < j < |toks| ==> CapName(toks[j]) != name
  }

  lemma {:induction false} LastTokenDecides(caps: set<string>, toks: seq<string>, name: string, i: int)
    requires -1 <= i < |toks|
    requires i >= 0 ==> Decides(toks, i, name)
    requires i < 0 ==> forall j :: 0 <= j < |toks| ==> CapName(toks[j]) != name
    ensures name in SwitchAll(caps, toks) <==> if i < 0 then name in caps else Enabling(toks[i])
    decreases |toks|
  {
    if i > 0 {
      LastTokenDecides(Switch(caps, toks[0]), toks[1..], name, i - 1);
    } else if toks != [] {
      LastTokenDecides(Switch(caps, toks[0]), toks[1..], name, -1);
    }
  }

  /** A refused request changes no capability at all, a granted one follows its last tokens. */
  lemma ReqIsAtomic(c: Client, params: seq<string>, name: string, i: int)
    requires |params| >= 2
    requires var toks := Split(params[1], ' ');
             -1 <= i < |toks| && if i < 0 then forall j :: 0 <= j < |toks| ==> CapName(toks[j]) != name
                                 else Decides(toks, i, name)
    ensures var toks := Split(params[1], ' ');
            name in CapReq(c, params).enabledCaps <==>
              if AllAcceptable(toks, c.cap302) && i >= 0 then Enabling(toks[i]) else name in c.enabledCaps
  {
    LastTokenDecides(c.enabledCaps, Split(params[1], ' '), name, i);
  }

  // ---------------------------------------------------------------- NICK

  function Nick(s: State, id: int, nick: string): State
    requires id in s.clients
  {
    var c := s.clients[id];
    var selfRename := c.nick != "" && Fold(nick) == Fold(c.nick);
    if !ValidNick(nick) then s
    else if selfRename && nick == c.nick then s
    else if !selfRename && Fold(nick) in s.nicks then s
    else if c.nick != "" then
      s.(nicks := (s.nicks - {Fold(c.nick)})[Fold(nick) := id],
         clients := s.clients[id := c.(nick := nick)])
    else
      s.(nicks := s.nicks[Fold(nick) := id],
         clients := s.clients[id := Completed(s.password, c.(nick := nick))])
  }

  // ---------------------------------------------------------------- the invariant is kept

  lemma UserOk(password: string, c: Client, params: seq<string>)
    requires RegistrationOk(c)
    ensures RegistrationOk(User(password, c, params))
  {
    if |params| >= 4 && !c.registered && ValidUsername(StripTildes(params[0])) {
      CompletedOk(password, c.(user := StripTildes(params[0]), realname := Realname(params[3])));
    }
  }

  lemma NegotiationOk(c: Client, params: seq<string>)
    requires RegistrationOk(c)
    ensures RegistrationOk(CapLs(c, params)) && RegistrationOk(CapReq(c, params)) && RegistrationOk(CapClear(c))
  {
  }

  lemma CapEndOk(password: string, c: Client)
    requires RegistrationOk(c)
    ensures RegistrationOk(CapEnd(password, c))
  {
    CompletedOk(password, if c.registered then c else c.(capNegotiating := false));
  }

  lemma CapOk(password: string, c: Client, params: seq<string>)
    requires RegistrationOk(c)
    ensures RegistrationOk(Cap(password, c, params))
  {
    NegotiationOk(c, params);
    CapEndOk(password, c);
  }

  /** A change that leaves nick and channels alone and takes back no registration. */
  predicate SameFields(c: Client, c': Client)
  {
    c'.nick == c.nick && c'.channels == c.channels && (c.registered ==> c'.registered)
  }

  lemma LsFields(c: Client, params: seq<string>)
    ensures SameFields(c, CapLs(c, params))
  {
  }

  lemma ReqFields(c: Client, params: seq<string>)
    ensures SameFields(c, CapReq(c, params))
  {
  }

  lemma EndFields(password: string, c: Client)
    ensures SameFields(c, CapEnd(password, c)) && SameFields(c, CapClear(c))
  {
  }

  lemma CapFields(password: string, c: Client, params: seq<string>)
    ensures SameFields(c, Cap(password, c, params))
  {
    LsFields(c, params);
    ReqFields(c, params);
    EndFields(password, c);
  }

  lemma UserFields(password: string, c: Client, params: seq<string>)
    ensures SameFields(c, User(password, c, params))
  {
  }

  lemma UserKeeps(s: State, id: int, params: seq<string>)
    requires Inv(s) && id in s.clients
    ensures Inv(OnClient(s, id, User(s.password, s.clients[id], params)))
  {
    UserOk(s.password, s.clients[id], params);
    UserFields(s.password, s.clients[id], params);
    OnClientKeeps(s, id, User(s.password, s.clients[id], params));
  }

  lemma PassKeeps(s: State, id: int, params: seq<string>)
    requires Inv(s) && id in s.clients
    ensures Inv(OnClient(s, id, Pass(s.clients[id], params)))
  {
    OnClientKeeps(s, id, Pass(s.clients[id], params));
  }

  lemma CapKeeps(s: State, id: int, params: seq<string>)
    requires Inv(s) && id in s.clients
    ensures Inv(OnClient(s, id, Cap(s.password, s.clients[id], params)))
  {
    CapOk(s.password, s.clients[id], params);
    CapFields(s.password, s.clients[id], params);
    OnClientKeeps(s, id, Cap(s.password, s.clients[id], params));
  }

  /** A client is marked for close. */
  function Mark(s: State, id: int): State
    requires id in s.clients
  {
    OnClient(s, id, s.clients[id].(marked := true))
  }

  lemma MarkKeeps(s: State, id: int)
    requires Inv(s) && id in s.clients
    ensures Inv(Mark(s, id))
  {
    OnClientKeeps(s, id, s.clients[id].(marked := true));
  }

  lemma NickIndex(s: State, id: int, nick: string)
    requires IndexOk(s) && id in s.clients
    ensures IndexOk(Nick(s, id, nick))
  {
    var s' := Nick(s, id, nick);
    if s' != s {
      var c := s.clients[id];
      assert s'.clients[id].nick == nick;
      forall n | n in s'.nicks
        ensures s'.nicks[n] in s'.clients && s'.clients[s'.nicks[n]].nick != ""
        ensures Fold(s'.clients[s'.nicks[n]].nick) == n
      {
        if n != Fold(nick) {
          assert n in s.nicks && s.nicks[n] != id;
        }
      }
      forall i | i in s'.clients && s'.clients[i].nick != ""
        ensures Fold(s'.clients[i].nick) in s'.nicks && s'.nicks[Fold(s'.clients[i].nick)] == i
      {
        if i != id {
          assert s.nicks[Fold(s.clients[i].nick)] == i;
        }
      }
    }
  }

  lemma NickClients(s: State, id: int, nick: string)
    requires ClientsOk(s) && id in s.clients
    ensures ClientsOk(Nick(s, id, nick))
  {
    var c := s.clients[id].(nick := nick);
    assert RegistrationOk(s.clients[id]);
    if ValidNick(nick) {
      CompletedOk(s.password, c);
    }
  }

  lemma NickRoster(s: State, id: int, nick: string)
    requires RosterOk(s) && id in s.clients
    ensures RosterOk(Nick(s, id, nick))
  {
    var s' := Nick(s, id, nick);
    assert s'.channels == s.channels && s'.clients.Keys == s.clients.Keys;
    assert forall i :: i in s.clients && s.clients[i].registered ==> s'.clients[i].registered;
  }

  lemma NickKeepsChannels(s: State, id: int, nick: string)
    requires id in s.clients
    ensures var s' := Nick(s, id, nick);
            && s'.channels == s.channels && s'.clients.Keys == s.clients.Keys
            && forall i :: i in s.clients ==> s'.clients[i].channels == s.clients[i].channels
  {
  }

  lemma NickLists(s: State, id: int, nick: string)
    requires ListsOk(s) && id in s.clients
    ensures ListsOk(Nick(s, id, nick))
  {
    var s' := Nick(s, id, nick);
    NickKeepsChannels(s, id, nick);
    SameLists(s, s');
  }

  lemma SameLists(s: State, s': State)
    requires ListsOk(s) && s'.channels == s.channels && s'.clients.Keys == s.clients.Keys
    requires forall i :: i in s.clients ==> s'.clients[i].channels == s.clients[i].channels
    ensures ListsOk(s')
  {
    forall i | i in s'.clients
      ensures ListOk(i, s'.clients[i].channels, s'.channels)
    {
      assert ListOk(i, s.clients[i].channels, s.channels);
    }
  }

  lemma NickKeeps(s: State, id: int, nick: string)
    requires Inv(s) && id in s.clients
    ensures Inv(Nick(s, id, nick))
  {
    NickIndex(s, id, nick);
    NickClients(s, id, nick);
    NickRoster(s, id, nick);
    NickLists(s, id, nick);
    assert ChannelsOk(Nick(s, id, nick)) by {
      assert Nick(s, id, nick).channels == s.channels && Nick(s, id, nick).nextGen == s.nextGen;
    }
  }

  // ---------------------------------------------------------------- nothing is taken back

  /** How a client may develop: registration, the wish to close, the 302 dialect and sticky
      capabilities are never taken back, and a registered user keeps its name. */
  predicate Onward(c: Client, c': Client)
  {
    && c'.host == c.host
    && (c.registered ==> c'.registered && c'.user == c.user && c'.realname == c.realname)
    && (c.nick != "" ==> c'.nick != "") && (c.user != "" ==> c'.user != "")
    && (c.marked ==> c'.marked)
    && (c.cap302 ==> c'.cap302 && (CAP_NOTIFY in c.enabledCaps ==> CAP_NOTIFY in c'.enabledCaps))
    && (forall cap :: cap in c'.enabledCaps && cap !in c.enabledCaps ==> Supported(cap))
  }

  lemma {:induction false} SwitchAllSticky(caps: set<string>, toks: seq<string>, cap302: bool)
    requires AllAcceptable(toks, cap302)
    ensures cap302 && CAP_NOTIFY in caps ==> CAP_NOTIFY in SwitchAll(caps, toks)
    ensures forall cap :: cap in SwitchAll(caps, toks) && cap !in caps ==> Supported(cap)
    decreases |toks|
  {
    if toks != [] {
      assert Acceptable(toks[0], cap302);
      SwitchAllSticky(Switch(caps, toks[0]), toks[1..], cap302);
    }
  }

  lemma CapReqOnward(c: Client, params: seq<string>)
    ensures Onward(c, CapReq(c, params))
  {
    if |params| >= 2 {
      var toks := Split(params[1], ' ');
      if AllAcceptable(toks, c.cap302) {
        SwitchAllSticky(c.enabledCaps, toks, c.cap302);
      }
    }
  }

  lemma CapLsOnward(c: Client, params: seq<string>)
    ensures Onward(c, CapLs(c, params))
  {
  }

  lemma CapEndOnward(password: string, c: Client)
    ensures Onward(c, CapEnd(password, c)) && Onward(c, CapClear(c))
  {
  }

  lemma CapOnward(password: string, c: Client, params: seq<string>)
    ensures Onward(c, Cap(password, c, params))
  {
    CapReqOnward(c, params);
    CapLsOnward(c, params);
    CapEndOnward(password, c);
    assert Onward(c, c);
  }

  lemma UserOnward(password: string, c: Client, params: seq<string>)
    ensures Onward(c, User(password, c, params)) && Onward(c, Pass(c, params))
  {
  }

  lemma NickOnward(s: State, id: int, nick: string, i: int)
    requires id in s.clients && i in s.clients
    ensures Onward(s.clients[i], Nick(s, id, nick).clients[i])
  {
  }

  // ---------------------------------------------------------------- order does not matter

  /** A connection that has given neither a nick nor a user name yet. */
  predicate Nameless(c: Client) { c.nick == "" && c.user == "" && !c.registered }

  /** NICK and USER may come in either order. */
  lemma NickUserOrder(s: State, id: int, nick: string, params: seq<string>)
    requires id in s.clients && Nameless(s.clients[id])
    ensures var userFirst := OnClient(s, id, User(s.password, s.clients[id], params));
            var nickFirst := Nick(s, id, nick);
            Nick(userFirst, id, nick) ==
            OnClient(nickFirst, id, User(s.password, nickFirst.clients[id], params))
  {
    var c := s.clients[id];
    var userFirst, nickFirst := OnClient(s, id, User(s.password, c, params)), Nick(s, id, nick);
    var last := OnClient(nickFirst, id, User(s.password, nickFirst.clients[id], params));
    assert Nick(userFirst, id, nick).clients[id] == last.clients[id];
    SameMap(Nick(userFirst, id, nick).clients, last.clients);
  }

  /** The end of capability negotiation may come before or after either of them. */
  lemma NickCapEndOrder(s: State, id: int, nick: string)
    requires id in s.clients && s.clients[id].nick == "" && !s.clients[id].registered
    requires s.clients[id].capNegotiating
    ensures var endFirst := OnClient(s, id, CapEnd(s.password, s.clients[id]));
            var nickFirst := Nick(s, id, nick);
            Nick(endFirst, id, nick) == OnClient(nickFirst, id, CapEnd(s.password, nickFirst.clients[id]))
  {
    var c := s.clients[id];
    var endFirst, nickFirst := OnClient(s, id, CapEnd(s.password, c)), Nick(s, id, nick);
    var last := OnClient(nickFirst, id, CapEnd(s.password, nickFirst.clients[id]));
    assert Nick(endFirst, id, nick).clients[id] == last.clients[id];
    SameMap(Nick(endFirst, id, nick).clients, last.clients);
  }

  lemma UserCapEndOrder(password: string, c: Client, params: seq<string>)
    requires c.user == "" && !c.registered && c.capNegotiating
    ensures User(password, CapEnd(password, c), params) == CapEnd(password, User(password, c, params))
  {
  }
}
