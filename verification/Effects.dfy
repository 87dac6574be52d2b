/** What the commands of registration do to the client that sends them, field by field. */
module Effects {
  import opened IrcText
  import opened Decimal
  import opened Secret
  import opened ServerState
  import opened Registration
  import Words

  // ---------------------------------------------------------------- completion

  /** Everything has been given that registration waits for. */
  predicate Complete(c: Client) { c.nick != "" && c.user != "" && !c.capNegotiating }

  /** No password is asked for, or the client's is the same as far as the comparison can tell. */
  predicate Right(password: string, c: Client)
  {
    password == "" || NulExtends(c.suppliedPass, password) || NulExtends(password, c.suppliedPass)
  }

  /** A complete client is registered if its password is right and marked for close if not; either
      way the password is forgotten. Any other client stays as it is. */
  function Settled(password: string, c: Client): Client
  {
    if c.registered || !Complete(c) then c
    else if Right(password, c) then c.(registered := true, suppliedPass := "")
    else c.(marked := true, suppliedPass := "")
  }

  lemma CompletedDoes(password: string, c: Client)
    ensures Completed(password, c) == Settled(password, c)
  {
    SecretExact(c.suppliedPass, password);
  }

  // ---------------------------------------------------------------- NICK, USER, PASS

  /** A nick that id may take: well formed, and nobody else's under folding. */
  predicate Free(s: State, id: int, nick: string)
  {
    ValidNick(nick) && forall i :: i in s.clients && i != id ==> Fold(s.clients[i].nick) != Fold(nick)
  }

  lemma FreeExact(s: State, id: int, nick: string)
    requires IndexOk(s) && id in s.clients && ValidNick(nick)
    ensures var own := s.clients[id].nick != "" && Fold(nick) == Fold(s.clients[id].nick);
            Free(s, id, nick) <==> own || Fold(nick) !in s.nicks
  {
    LookupExact(s, nick);
    NoStaleNick(s, nick);
  }

  /** NICK gives the client the nick exactly as it is asked for, if it is free, whether that is its
      first, another one, or its own in other letters. Only the first can complete registration. */
  lemma NickDoes(s: State, id: int, nick: string)
    requires IndexOk(s) && id in s.clients
    ensures var c := s.clients[id];
            var named := c.(nick := nick);
            var s' := Nick(s, id, nick);
            && s'.channels == s.channels
            && s'.clients ==
               if !Free(s, id, nick) then s.clients
               else s.clients[id := if c.nick == "" then Settled(s.password, named) else named]
  {
    var c := s.clients[id];
    CompletedDoes(s.password, c.(nick := nick));
    if ValidNick(nick) {
      FreeExact(s, id, nick);
      if nick == c.nick {
        assert s.clients[id := c] == s.clients;
      }
    }
  }

  predicate Tildes(t: string) { forall i :: 0 <= i < |t| ==> t[i] == '~' }

  lemma {:induction false} TildesStripped(t: string, u: string)
    requires Tildes(t) && (u == "" || u[0] != '~')
    ensures StripTildes(t + u) == u
    decreases |t|
  {
    if t == "" {
      assert t + u == u;
    } else {
      TildesStripped(t[1..], u);
      assert (t + u)[1..] == t[1..] + u;
    }
  }

  /** A real name as it is kept: cut to 200 bytes, with spaces for CR, LF and NUL. */
  predicate Cleaned(r: string, given: string)
  {
    && |r| == (if |given| > 200 then 200 else |given|)
    && forall i :: 0 <= i < |r| ==> r[i] == if given[i] in {'\r', '\n', '\0'} then ' ' else given[i]
  }

  lemma RealnameCleaned(given: string)
    ensures Cleaned(Realname(given), given)
  {
  }

  /** USER takes its first parameter without leading tildes as the user name, if that is one, and
      its fourth as the real name; after registration it does nothing. */
  lemma UserDoes(password: string, c: Client, params: seq<string>, tildes: string, u: string)
    requires |params| >= 4 && params[0] == tildes + u && Tildes(tildes) && (u == "" || u[0] != '~')
    ensures var c' := User(password, c, params);
            if c.registered || !ValidUsername(u) then c' == c
            else c' == Settled(password, c.(user := u, realname := c'.realname)) && Cleaned(c'.realname, params[3])
  {
    TildesStripped(tildes, u);
    RealnameCleaned(params[3]);
    CompletedDoes(password, c.(user := u, realname := Realname(params[3])));
  }

  /** PASS remembers its first parameter, until registration. */
  lemma PassDoes(c: Client, params: seq<string>)
    requires params != []
    ensures Pass(c, params) == if c.registered then c else c.(suppliedPass := params[0])
  {
  }

  // ---------------------------------------------------------------- CAP

  /** What a negotiation opens with: the client is kept from completing until it says END. */
  function Opened(c: Client): Client { if c.registered then c else c.(capNegotiating := true) }

  /** A version of 302 or more, in digits; or anything that starts with a number above a million. */
  predicate Claims302(v: string)
  {
    || (AllDigits(v) && ValueOf(v) >= 302)
    || exists n :: 0 <= n <= |v| && AllDigits(v[..n]) && ValueOf(v[..n]) > 1000000
  }

  lemma PrefixIsSmaller(p: string, n: nat)
    requires AllDigits(p) && n <= |p|
    ensures AllDigits(p[..n]) && ValueOf(p[..n]) <= ValueOf(p)
  {
    assert p[..n] + p[n..] == p;
    LongerIsLarger(p[..n], p[n..]);
  }

  lemma LetterInPrefix(p: string, v: string, n: nat)
    requires v != "" && !('0' <= v[0] <= '9') && n <= |p + v|
    ensures AllDigits((p + v)[..n]) ==> n <= |p| && (p + v)[..n] == p[..n]
  {
    if n > |p| {
      assert (p + v)[..n][|p|] == v[0];
    }
  }

  lemma NoNumberPastLetter(p: string, v: string)
    requires AllDigits(p) && ValueOf(p) <= 1000000 && v != "" && !('0' <= v[0] <= '9')
    ensures !Claims302(p + v)
  {
    LetterInPrefix(p, v, |p + v|);
    assert (p + v)[..|p + v|] == p + v;
    forall n | 0 <= n <= |p + v|
      ensures AllDigits((p + v)[..n]) ==> ValueOf((p + v)[..n]) <= 1000000
    {
      LetterInPrefix(p, v, n);
      if n <= |p| {
        PrefixIsSmaller(p, n);
      }
    }
  }

  lemma NumberEnds(p: string)
    requires AllDigits(p) && ValueOf(p) <= 1000000
    ensures Claims302(p) <==> ValueOf(p) >= 302
  {
    forall n | 0 <= n <= |p|
      ensures AllDigits(p[..n]) && ValueOf(p[..n]) <= 1000000
    {
      PrefixIsSmaller(p, n);
    }
  }

  lemma {:induction false} VersionExact(p: string, v: string)
    requires AllDigits(p) && ValueOf(p) <= 1000000
    ensures Version(v, ValueOf(p)) >= 302 <==> Claims302(p + v)
    decreases |v|
  {
    if v == "" {
      assert p + v == p;
      NumberEnds(p);
    } else if '0' <= v[0] <= '9' {
      NextDigit(p, v);
      var p' := p + [v[0]];
      if ValueOf(p') <= 1000000 {
        VersionExact(p', v[1..]);
      } else {
        assert (p + v)[..|p'|] == p';
      }
    } else {
      NoNumberPastLetter(p, v);
    }
  }

  /** CAP LS opens a negotiation, and turns the 302 dialect on if the version claims it. */
  lemma CapLsDoes(password: string, c: Client, params: seq<string>)
    requires params != [] && Words.Spells(params[0], "LS")
    ensures Cap(password, c, params) ==
            Opened(c).(cap302 := c.cap302 || (|params| >= 2 && Claims302(params[1])))
  {
    Words.SpellsExact(params[0], "LS");
    if |params| >= 2 {
      assert "" + params[1] == params[1];
      VersionExact("", params[1]);
    }
  }

  /** CAP END closes it, which can complete registration. */
  lemma CapEndDoes(password: string, c: Client, params: seq<string>)
    requires params != [] && Words.Spells(params[0], "END")
    ensures Cap(password, c, params) ==
            if c.registered then c else Settled(password, c.(capNegotiating := false))
  {
    Words.SpellsExact(params[0], "END");
    CompletedDoes(password, c.(capNegotiating := false));
  }

  /** CAP CLEAR turns everything off but cap-notify in the 302 dialect. */
  lemma CapClearDoes(password: string, c: Client, params: seq<string>)
    requires params != [] && Words.Spells(params[0], "CLEAR")
    ensures Cap(password, c, params) ==
            c.(enabledCaps := if c.cap302 then c.enabledCaps * {"cap-notify"} else {})
  {
    Words.SpellsExact(params[0], "CLEAR");
  }

  /** The words of a request: the two capabilities, each on or off; but in the 302 dialect
      cap-notify cannot be turned off. */
  predicate Understood(tok: string, cap302: bool)
  {
    || tok in {"cap-notify", "invite-notify", "-invite-notify"}
    || (tok == "-cap-notify" && !cap302)
  }

  lemma AcceptableExact(tok: string, cap302: bool)
    ensures Acceptable(tok, cap302) <==> Understood(tok, cap302)
  {
    assert "cap-notify"[0] != '-' && "invite-notify"[0] != '-';
    assert "-cap-notify"[0] == '-' && "-invite-notify"[0] == '-';
    assert "-cap-notify"[1..] == "cap-notify" && "-invite-notify"[1..] == "invite-notify";
    if tok != "" && tok[0] == '-' {
      assert tok == "-" + tok[1..];
      assert "-" + "cap-notify" == "-cap-notify" && "-" + "invite-notify" == "-invite-notify";
      assert tok[1..] == "cap-notify" <==> tok == "-cap-notify";
      assert tok[1..] == "invite-notify" <==> tok == "-invite-notify";
    }
  }

  /** The last word about a capability turns it on or off. */
  predicate TurnedOn(toks: seq<string>, name: string, was: bool)
  {
    || (was && "-" + name !in toks)
    || exists i :: 0 <= i < |toks| && toks[i] == name && "-" + name !in toks[i..]
  }

  lemma {:induction false} SwitchedExact(caps: set<string>, toks: seq<string>, name: string)
    requires name in {"cap-notify", "invite-notify"}
    ensures name in SwitchAll(caps, toks) <==> TurnedOn(toks, name, name in caps)
    decreases |toks|
  {
    if toks != [] {
      var rest, off := toks[1..], "-" + name;
      assert off[1..] == name && off[0] == '-';
      assert CapName(toks[0]) == name <==> toks[0] == name || toks[0] == off by {
        assert toks[0] != "" && toks[0][0] == '-' ==> toks[0] == "-" + toks[0][1..];
      }
      SwitchedExact(Switch(caps, toks[0]), rest, name);
      TurnedOnNext(toks, name, name in caps);
    }
  }

  lemma TurnedOnNext(toks: seq<string>, name: string, was: bool)
    requires toks != [] && "-" + name != name
    ensures TurnedOn(toks, name, was) <==>
            TurnedOn(toks[1..], name, if toks[0] == name then true else if toks[0] == "-" + name then false else was)
  {
    var rest, off := toks[1..], "-" + name;
    assert forall i :: 0 <= i < |rest| ==> rest[i] == toks[i + 1] && rest[i..] == toks[i + 1..];
    assert off in toks <==> toks[0] == off || off in rest;
    if i :| 0 <= i < |toks| && toks[i] == name && off !in toks[i..] {
      if i == 0 {
        assert toks[0..] == toks;
      } else {
        assert rest[i - 1] == name && off !in rest[i - 1..];
      }
    }
    if i :| 0 <= i < |rest| && rest[i] == name && off !in rest[i..] {
      assert toks[i + 1] == name && off !in toks[i + 1..];
    }
    if toks[0] == name && off !in rest {
      assert toks[0..] == toks;
    }
  }

  /** CAP REQ opens a negotiation too. If it understands every word it is sent, the last word about
      each capability decides about it; if not, no capability changes. */
  lemma CapReqDoes(password: string, c: Client, params: seq<string>, name: string)
    requires |params| >= 2 && Words.Spells(params[0], "REQ") && name in {"cap-notify", "invite-notify"}
    ensures var c', toks := Cap(password, c, params), Split(params[1], ' ');
            && c' == Opened(c).(enabledCaps := c'.enabledCaps)
            && if forall tok :: tok in toks ==> Understood(tok, c.cap302)
               then name in c'.enabledCaps <==> TurnedOn(toks, name, name in c.enabledCaps)
               else c'.enabledCaps == c.enabledCaps
  {
    Words.SpellsExact(params[0], "REQ");
    var toks := Split(params[1], ' ');
    forall tok | tok in toks
      ensures Acceptable(tok, c.cap302) <==> Understood(tok, c.cap302)
    {
      AcceptableExact(tok, c.cap302);
    }
    SwitchedExact(c.enabledCaps, toks, name);
  }

  /** Other words after CAP change nothing, nor does a REQ without a list. */
  lemma CapOtherwise(password: string, c: Client, params: seq<string>)
    requires params != [] && !Words.OneOf(params[0], ["LS", "END", "CLEAR"])
    requires Words.Spells(params[0], "REQ") ==> |params| < 2
    ensures Cap(password, c, params) == c
  {
    var words := ["LS", "END", "CLEAR"];
    assert words[0] == "LS" && words[1] == "END" && words[2] == "CLEAR";
    Words.SpellsExact(params[0], "LS");
    Words.SpellsExact(params[0], "END");
    Words.SpellsExact(params[0], "CLEAR");
    Words.SpellsExact(params[0], "REQ");
  }
}
