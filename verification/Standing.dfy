/** Who is let in and who is shown out: what makes a connection come, be registered, be marked for
    close and go, over all steps. */
module Standing {
  import opened Wrappers
  import opened ServerState
  import opened Registration
  import opened Effects
  import Histories
  import Runs
  import Words

  // ---------------------------------------------------------------- the sender of a line

  /** How a client may come out of its own line: a registered one stays so and is marked only by
      quitting; one that was not complete is registered exactly if it is complete now and its
      password was right, and marked exactly if it quits or its password was wrong. Whoever is
      registered by it has its password forgotten. */
  predicate Develops(password: string, c: Client, c': Client, quits: bool)
  {
    && (c.registered ==> c'.registered && c'.suppliedPass == c.suppliedPass && (c'.marked <==> c.marked || quits))
    && (!c.registered && !Complete(c) ==>
          && (c'.registered <==> Complete(c') && Right(password, c))
          && (c'.marked <==> c.marked || quits || (Complete(c') && !Right(password, c))))
    && (!c.registered && c'.registered ==> c'.suppliedPass == "")
  }

  lemma SettledDevelops(password: string, c: Client, c1: Client)
    requires c1.registered == c.registered && c1.marked == c.marked && c1.suppliedPass == c.suppliedPass
    ensures Develops(password, c, Settled(password, c1), false)
  {
  }

  lemma PassDevelops(password: string, c: Client, params: seq<string>)
    requires RegistrationOk(c)
    ensures Develops(password, c, Pass(c, params), false)
  {
    if params != [] {
      PassDoes(c, params);
    }
  }

  lemma NickDevelops(s: State, id: int, nick: string)
    requires IndexOk(s) && id in s.clients && RegistrationOk(s.clients[id])
    ensures id in Nick(s, id, nick).clients
    ensures Develops(s.password, s.clients[id], Nick(s, id, nick).clients[id], false)
  {
    NickDoes(s, id, nick);
    SettledDevelops(s.password, s.clients[id], s.clients[id].(nick := nick));
  }

  lemma Untilded(t: string) returns (tildes: string, u: string)
    ensures t == tildes + u && Tildes(tildes) && (u == "" || u[0] != '~')
  {
    tildes, u := "", t;
    while u != "" && u[0] == '~'
      invariant t == tildes + u && Tildes(tildes)
      decreases |u|
    {
      assert tildes + u == (tildes + "~") + u[1..];
      tildes, u := tildes + "~", u[1..];
    }
  }

  lemma UserDevelops(password: string, c: Client, params: seq<string>)
    requires RegistrationOk(c) && |params| >= 4
    ensures Develops(password, c, User(password, c, params), false)
  {
    var tildes, u := Untilded(params[0]);
    UserDoes(password, c, params, tildes, u);
    SettledDevelops(password, c, c.(user := u, realname := User(password, c, params).realname));
  }

  lemma CapDevelops(password: string, c: Client, params: seq<string>)
    requires RegistrationOk(c) && params != []
    ensures Develops(password, c, Cap(password, c, params), false)
  {
    var words := ["LS", "END", "CLEAR"];
    if Words.Spells(params[0], "LS") {
      CapLsDoes(password, c, params);
    } else if Words.Spells(params[0], "END") {
      CapEndDoes(password, c, params);
      SettledDevelops(password, c, c.(capNegotiating := false));
    } else if Words.Spells(params[0], "CLEAR") {
      CapClearDoes(password, c, params);
    } else if Words.Spells(params[0], "REQ") && |params| >= 2 {
      CapReqDoes(password, c, params, "cap-notify");
    } else {
      assert !Words.OneOf(params[0], words);
      CapOtherwise(password, c, params);
    }
  }

  /** Everything but its channel list and the time of its last invitation. */
  predicate SameIdentity(c: Client, c': Client)
  {
    c' == c.(channels := c'.channels, lastInviteAt := c'.lastInviteAt)
  }

  lemma ExecuteDevelops(s: State, id: int, v: Runs.Verb, params: seq<string>, now: int)
    requires IndexOk(s) && id in s.clients && RegistrationOk(s.clients[id])
    requires !v.Asking? && |params| >= Words.Needs(v)
    ensures id in Runs.Execute(s, id, v, params, now).clients
    ensures Develops(s.password, s.clients[id], Runs.Execute(s, id, v, params, now).clients[id], v.Quit?)
  {
    var c := s.clients[id];
    match v
    case Cap => CapDevelops(s.password, c, params);
    case Pass => PassDevelops(s.password, c, params);
    case User => UserDevelops(s.password, c, params);
    case Nick => NickDevelops(s, id, params[0]);
    case Quit =>
    case _ =>
      Histories.ChannelCommandIdentities(s, id, v, params, now);
  }

  lemma SenderDevelops(s: State, id: int, line: string, now: int)
    requires Inv(s) && id in s.clients
    ensures id in Runs.HandleLine(s, id, line, now).clients
    ensures Develops(s.password, s.clients[id], Runs.HandleLine(s, id, line, now).clients[id],
                     Words.Says(line, "QUIT"))
  {
    assert RegistrationOk(s.clients[id]);
    Words.LineRuns(s, id, line, now);
    Words.CommandExact(s, id, line, Runs.Quit);
    var v := Words.Command(s, id, line);
    if v.Some? {
      ExecuteDevelops(s, id, v.value, Words.Params(line), now);
    }
  }

  // ---------------------------------------------------------------- and everybody else

  lemma OthersAlike(s: State, id: int, v: Runs.Verb, params: seq<string>, now: int, x: int)
    requires id in s.clients && x in s.clients && x != id
    ensures x in Runs.Execute(s, id, v, params, now).clients
    ensures SameIdentity(s.clients[x], Runs.Execute(s, id, v, params, now).clients[x])
  {
    if Histories.ChannelVerb(v) {
      Histories.ChannelCommandIdentities(s, id, v, params, now);
    } else {
      Histories.EarlyOnly(s, id, v, params, now);
      assert x in s.clients - {id};
    }
  }

  lemma OthersUnmoved(s: State, id: int, line: string, now: int, x: int)
    requires id in s.clients && x in s.clients && x != id
    ensures x in Runs.HandleLine(s, id, line, now).clients
    ensures SameIdentity(s.clients[x], Runs.HandleLine(s, id, line, now).clients[x])
  {
    Words.LineRuns(s, id, line, now);
    var v := Words.Command(s, id, line);
    if v.Some? {
      OthersAlike(s, id, v.value, Words.Params(line), now, x);
    }
  }

  lemma QuietIdentity(s: State, e: Runs.Event, x: int)
    requires ClientsOk(s) && x in s.clients && x in Runs.Step(s, e).clients && !(e.Line? && e.id in s.clients)
    ensures var c, c' := s.clients[x], Runs.Step(s, e).clients[x];
            c' == if e == Runs.Close(x) then c.(marked := true) else c
  {
  }

  // ---------------------------------------------------------------- over all steps

  /** What a step means for a client that was there before and is there after it. */
  lemma StepDevelops(s: State, e: Runs.Event, x: int)
    requires Inv(s) && x in s.clients && x in Runs.Step(s, e).clients
    ensures var c, c' := s.clients[x], Runs.Step(s, e).clients[x];
            if e == Runs.Close(x) then c' == c.(marked := true)
            else if e.Line? && e.id == x then Develops(s.password, c, c', Words.Says(e.text, "QUIT"))
            else SameIdentity(c, c')
  {
    if e.Line? && e.id in s.clients {
      if e.id == x {
        SenderDevelops(s, x, e.text, e.now);
      } else {
        OthersUnmoved(s, e.id, e.text, e.now, x);
      }
    } else {
      QuietIdentity(s, e, x);
    }
  }

  /** A client comes to be marked exactly if it is closed, quits, or completes its registration
      with a wrong password. */
  lemma MarksExact(s: State, e: Runs.Event, x: int)
    requires Inv(s) && x in s.clients && x in Runs.Step(s, e).clients && !s.clients[x].marked
    ensures var c, c' := s.clients[x], Runs.Step(s, e).clients[x];
            c'.marked <==>
              || e == Runs.Close(x)
              || (e.Line? && e.id == x &&
                  (Words.Says(e.text, "QUIT") || (!c.registered && Complete(c') && !Right(s.password, c))))
  {
    assert RegistrationOk(s.clients[x]);
    StepDevelops(s, e, x);
  }

  /** And it comes to be registered exactly if it completes its registration with a right one. */
  lemma RegistersExact(s: State, e: Runs.Event, x: int)
    requires Inv(s) && x in s.clients && x in Runs.Step(s, e).clients
    requires !s.clients[x].marked && !s.clients[x].registered
    ensures var c, c' := s.clients[x], Runs.Step(s, e).clients[x];
            c'.registered <==> Complete(c') && Right(s.password, c)
  {
    assert RegistrationOk(s.clients[x]);
    StepDevelops(s, e, x);
  }

  // ---------------------------------------------------------------- coming and going

  /** A connection that is accepted gets the next id and is a stranger; at ten thousand none is. */
  lemma AcceptDoes(s: State, host: string)
    ensures Runs.Step(s, Runs.Accept(host)) ==
            if |s.clients| >= 10000 then s
            else s.(nextCid := s.nextCid + 1,
                    clients := s.clients[s.nextCid :=
                      Client(host, "", "", "", false, false, false, {}, "", false, 0, [])])
  {
  }

  /** Who is gone after a step: after a sweep exactly those who were marked, else nobody. */
  lemma GoneExact(s: State, e: Runs.Event, x: int)
    requires x in s.clients
    ensures x !in Runs.Step(s, e).clients <==> e.Sweep? && s.clients[x].marked
  {
    if e.Line? && e.id in s.clients {
      Histories.HandleLineOnward(s, e.id, e.text, e.now);
    }
  }

  /** Who is new: at most the one client that was accepted. */
  lemma NewExact(s: State, e: Runs.Event, x: int)
    requires x !in s.clients
    ensures x in Runs.Step(s, e).clients <==> e.Accept? && x == s.nextCid && |s.clients| < 10000
  {
    if e.Line? && e.id in s.clients {
      Histories.HandleLineOnward(s, e.id, e.text, e.now);
    }
  }

  // ---------------------------------------------------------------- passwords

  ghost predicate Forgotten(s: State)
  {
    forall x :: x in s.clients && s.clients[x].registered ==> s.clients[x].suppliedPass == ""
  }

  lemma StepForgets(s: State, e: Runs.Event)
    requires Inv(s) && Forgotten(s)
    ensures Forgotten(Runs.Step(s, e))
  {
    var s' := Runs.Step(s, e);
    forall x | x in s'.clients && s'.clients[x].registered
      ensures s'.clients[x].suppliedPass == ""
    {
      if x in s.clients {
        StepDevelops(s, e, x);
      } else {
        NewExact(s, e, x);
      }
    }
  }

  lemma {:induction false} RunForgets(s: State, es: seq<Runs.Event>)
    requires Inv(s) && Forgotten(s)
    ensures Forgotten(Runs.Run(s, es))
    decreases |es|
  {
    if es != [] {
      StepForgets(s, es[0]);
      Runs.StepKeeps(s, es[0]);
      RunForgets(Runs.Step(s, es[0]), es[1..]);
    }
  }

  /** In no run does the server still hold the password of a client that is registered. */
  lemma PasswordsForgotten(password: string, es: seq<Runs.Event>, x: int)
    ensures var s := Runs.Run(Initial(password), es);
            x in s.clients && s.clients[x].registered ==> s.clients[x].suppliedPass == ""
  {
    Runs.InitialOk(password);
    RunForgets(Initial(password), es);
  }
}
