/** INVITE: when it is granted, when it is counted, and that one sender's counted attempts lie
    apart over whole runs. */
module InviteRate {
  import opened Wrappers
  import opened IrcText
  import opened ServerState
  import opened Departures
  import opened Membership
  import opened Authority
  import Registration
  import Histories
  import Runs
  import Words

  // ---------------------------------------------------------------- one INVITE

  /** An INVITE of id is meant for t and passes every rule: t is registered, has the nick that is
      given and is not on the channel; id is on the channel, as operator if it is invite-only;
      and a second has gone by since id's last attempt that came this far. */
  predicate Counts(s: State, id: int, params: seq<string>, now: int, t: int)
  {
    && |params| >= 2 && params[0] != "" && params[1] != "" && Fold(params[1]) in s.channels
    && id in s.clients && t in s.clients && s.clients[t].registered
    && Fold(s.clients[t].nick) == Fold(params[0])
    && var ch := s.channels[Fold(params[1])];
       && id in ch.members && t !in ch.members && (ch.inviteOnly ==> id in ch.operators)
       && now - s.clients[id].lastInviteAt >= 1000
  }

  predicate Attempt(s: State, id: int, params: seq<string>, now: int)
  {
    exists t :: t in s.clients && Counts(s, id, params, now, t)
  }

  lemma InviteeExact(s: State, id: int, params: seq<string>, now: int, t: int)
    requires IndexOk(s) && id in s.clients
    ensures Counts(s, id, params, now, t) <==>
            Invitee(s, id, params) == Some(t) && now - s.clients[id].lastInviteAt >= 1000
  {
    if |params| >= 2 && params[0] != "" {
      LookupExact(s, params[0]);
    }
  }

  /** An attempt that counts stamps its sender, and invites t unless a hundred are invited; any
      other changes nothing. */
  lemma InviteDoes(s: State, id: int, params: seq<string>, now: int)
    requires IndexOk(s) && id in s.clients
    ensures forall t :: Counts(s, id, params, now, t) ==>
              var k := Fold(params[1]);
              var ch := s.channels[k];
              Invite(s, id, params, now) ==
              s.(clients := s.clients[id := s.clients[id].(lastInviteAt := now)],
                 channels := if |ch.invited| >= 100 then s.channels
                             else s.channels[k := ch.(invited := ch.invited + {t})])
    ensures (forall t :: !Counts(s, id, params, now, t)) ==> Invite(s, id, params, now) == s
  {
    var invitee := Invitee(s, id, params);
    forall t
      ensures Counts(s, id, params, now, t) <==>
              invitee == Some(t) && now - s.clients[id].lastInviteAt >= 1000
    {
      InviteeExact(s, id, params, now, t);
    }
    if invitee.Some? {
      var t := invitee.value;
      assert Counts(s, id, params, now, t) <==> now - s.clients[id].lastInviteAt >= 1000;
    }
  }

  // ---------------------------------------------------------------- every step

  ghost predicate CountedLine(s: State, e: Runs.Event, id: int)
  {
    && e.Line? && e.id == id && id in s.clients && s.clients[id].registered && Words.Says(e.text, "INVITE")
    && Attempt(s, id, Words.Params(e.text), e.now)
  }

  /** What a step does to one client's time of its last invitation. */
  predicate SameStamp(s: State, s': State, x: int)
  {
    x in s.clients && x in s'.clients ==> s'.clients[x].lastInviteAt == s.clients[x].lastInviteAt
  }

  lemma ListsStamp(s: State, s': State, x: int)
    requires OnlyListsChanged(s, s')
    ensures SameStamp(s, s', x)
  {
    if x in s.clients {
      assert s'.clients[x] == s.clients[x].(channels := s'.clients[x].channels);
    }
  }

  lemma JoinStamp(s: State, id: int, params: seq<string>, x: int)
    requires id in s.clients
    ensures SameStamp(s, Membership.Join(s, id, params), x)
  {
    if params != [] && params[0] != "" && params[0] != "0" {
      Histories.JoinFromLists(s, id, FirstNames(Split(params[0], ',')), KeyList(params), 0);
    }
    ListsStamp(s, Membership.Join(s, id, params), x);
  }

  lemma PartStamp(s: State, id: int, params: seq<string>, x: int)
    requires id in s.clients
    ensures SameStamp(s, Part(s, id, params), x)
  {
    if params != [] {
      Histories.PartFromLists(s, id, Split(params[0], ','), 0);
    }
    ListsStamp(s, Part(s, id, params), x);
  }

  lemma KickStamp(s: State, id: int, params: seq<string>, x: int)
    ensures SameStamp(s, Kick(s, id, params), x)
  {
    ListsStamp(s, Kick(s, id, params), x);
  }

  lemma NickStamp(s: State, id: int, nick: string, x: int)
    requires id in s.clients
    ensures SameStamp(s, Registration.Nick(s, id, nick), x)
  {
  }

  lemma CapStamp(password: string, c: Client, params: seq<string>)
    ensures Registration.Cap(password, c, params).lastInviteAt == c.lastInviteAt
  {
  }

  lemma OwnStamp(s: State, id: int, v: Runs.Verb, params: seq<string>, now: int, x: int)
    requires id in s.clients && v in {Runs.Cap, Runs.Pass, Runs.Nick, Runs.User, Runs.Quit, Runs.Mode}
    ensures SameStamp(s, Runs.Execute(s, id, v, params, now), x)
  {
    match v
    case Cap => CapStamp(s.password, s.clients[id], params);
    case Pass =>
    case User =>
    case Quit =>
    case Mode =>
    case Nick =>
      if params != [] {
        NickStamp(s, id, params[0], x);
      }
  }

  lemma OtherStamp(s: State, id: int, v: Runs.Verb, params: seq<string>, now: int, x: int)
    requires id in s.clients && v != Runs.Invite
    ensures SameStamp(s, Runs.Execute(s, id, v, params, now), x)
  {
    match v
    case Join => JoinStamp(s, id, params, x);
    case Part => PartStamp(s, id, params, x);
    case Kick => KickStamp(s, id, params, x);
    case Asking(_) =>
    case _ => OwnStamp(s, id, v, params, now, x);
  }

  lemma InviteStamp(s: State, id: int, params: seq<string>, now: int, x: int)
    requires IndexOk(s) && id in s.clients && x in s.clients
    ensures var s' := Invite(s, id, params, now);
            && x in s'.clients
            && s'.clients[x].lastInviteAt ==
               if x == id && Attempt(s, id, params, now) then now else s.clients[x].lastInviteAt
  {
    InviteDoes(s, id, params, now);
    if t :| Counts(s, id, params, now, t) {
      assert Invite(s, id, params, now).clients == s.clients[id := s.clients[id].(lastInviteAt := now)];
    }
  }

  lemma InviteStamped(s: State, id: int, params: seq<string>, now: int)
    requires id in s.clients
    ensures IndexOk(s) ==>
              var s' := Invite(s, id, params, now);
              && id in s'.clients
              && s'.clients[id].lastInviteAt ==
                 if Attempt(s, id, params, now) then now else s.clients[id].lastInviteAt
  {
    if IndexOk(s) {
      InviteStamp(s, id, params, now, id);
    }
  }

  lemma UncountedLineStamp(s: State, id: int, line: string, now: int, x: int)
    requires id in s.clients && x in s.clients && !Words.Gives(s, id, line, Runs.Invite)
    ensures SameStamp(s, Runs.HandleLine(s, id, line, now), x)
  {
    Words.LineRuns(s, id, line, now);
    Words.CommandExact(s, id, line, Runs.Invite);
    var v := Words.Command(s, id, line);
    if v.Some? {
      OtherStamp(s, id, v.value, Words.Params(line), now, x);
    }
  }

  lemma CountedGives(s: State, id: int, line: string, now: int, x: int)
    requires id in s.clients
    ensures CountedLine(s, Runs.Line(id, line, now), x) <==>
            x == id && Words.Gives(s, id, line, Runs.Invite) && Attempt(s, id, Words.Params(line), now)
  {
  }

  lemma InviteLineStamp(s: State, id: int, line: string, now: int, params: seq<string>, x: int)
    requires IndexOk(s) && x in s.clients && Words.Gives(s, id, line, Runs.Invite) && params == Words.Params(line)
    ensures var s' := Runs.HandleLine(s, id, line, now);
            && x in s'.clients
            && s'.clients[x].lastInviteAt ==
               if x == id && Attempt(s, id, params, now) then now else s.clients[x].lastInviteAt
  {
    Words.InviteGiven(s, id, line, now);
    InviteStamp(s, id, params, now, x);
  }

  lemma LineStamp(s: State, id: int, line: string, now: int, x: int)
    requires Inv(s) && id in s.clients && x in s.clients && x in Runs.HandleLine(s, id, line, now).clients
    ensures Runs.HandleLine(s, id, line, now).clients[x].lastInviteAt ==
            if CountedLine(s, Runs.Line(id, line, now), x) then now else s.clients[x].lastInviteAt
  {
    CountedGives(s, id, line, now, x);
    if Words.Gives(s, id, line, Runs.Invite) {
      InviteLineStamp(s, id, line, now, Words.Params(line), x);
    } else {
      UncountedLineStamp(s, id, line, now, x);
    }
  }

  /** A step sets the time of a client's last invitation exactly when it is its own INVITE and
      counts, and to the time of that. */
  lemma StampExact(s: State, e: Runs.Event, x: int)
    requires Inv(s) && x in s.clients && x in Runs.Step(s, e).clients
    ensures Runs.Step(s, e).clients[x].lastInviteAt ==
            if CountedLine(s, e, x) then e.now else s.clients[x].lastInviteAt
  {
    if e.Line? && e.id in s.clients {
      LineStamp(s, e.id, e.text, e.now, x);
    } else if e.Accept? {
      assert x < s.nextCid;
    }
  }

  // ---------------------------------------------------------------- whole runs

  lemma StaysBetween(s: State, e: Runs.Event, es: seq<Runs.Event>, id: int)
    requires Inv(s) && id in s.clients && id in Runs.Run(Runs.Step(s, e), es).clients
    ensures id in Runs.Step(s, e).clients
  {
    Histories.StepAdvances(s, e);
    Runs.StepKeeps(s, e);
    Histories.RunAdvances(Runs.Step(s, e), es);
  }

  lemma {:induction false} StampGrows(s: State, es: seq<Runs.Event>, id: int)
    requires Inv(s) && id in s.clients && id in Runs.Run(s, es).clients
    ensures s.clients[id].lastInviteAt <= Runs.Run(s, es).clients[id].lastInviteAt
    decreases |es|
  {
    if es != [] {
      StaysBetween(s, es[0], es[1..], id);
      StampExact(s, es[0], id);
      Runs.StepKeeps(s, es[0]);
      StampGrows(Runs.Step(s, es[0]), es[1..], id);
    }
  }

  /** In any run, two attempts of one client that count are at least a second apart, those that
      find the invitation list full included. */
  lemma AttemptsLieApart(s: State, first: Runs.Event, es: seq<Runs.Event>, second: Runs.Event, id: int)
    requires Inv(s) && CountedLine(s, first, id)
    requires CountedLine(Runs.Run(Runs.Step(s, first), es), second, id)
    ensures second.now - first.now >= 1000
  {
    StaysBetween(s, first, es, id);
    StampExact(s, first, id);
    Runs.StepKeeps(s, first);
    StampGrows(Runs.Step(s, first), es, id);
  }

  // ---------------------------------------------------------------- who is invited

  lemma InviteAdds(s: State, id: int, params: seq<string>, now: int, k: string, t: int)
    requires IndexOk(s) && id in s.clients && k in s.channels && t !in s.channels[k].invited
    ensures var s' := Invite(s, id, params, now);
            && k in s'.channels
            && (t in s'.channels[k].invited <==>
                  Counts(s, id, params, now, t) && Fold(params[1]) == k && |s.channels[k].invited| < 100)
  {
    InviteDoes(s, id, params, now);
    if u :| Counts(s, id, params, now, u) {
      InviteeExact(s, id, params, now, u);
      InviteeExact(s, id, params, now, t);
    }
  }

  lemma NotInvited(s: State, e: Runs.Event, k: string, t: int)
    requires Inv(s) && k in s.channels && k in Runs.Step(s, e).channels && t !in s.channels[k].invited
    ensures t in Runs.Step(s, e).channels[k].invited ==>
            e.Line? && e.id in s.clients && Words.Gives(s, e.id, e.text, Runs.Invite)
  {
    if t in Runs.Step(s, e).channels[k].invited {
      InvitationsAreAuthorised(s, e, k, t);
    }
  }

  /** This line of id invites t to k: it is an INVITE that counts and names them both, while fewer
      than a hundred are invited. */
  predicate Invites(s: State, id: int, line: string, now: int, k: string, t: int)
    requires k in s.channels
  {
    && id in s.clients && s.clients[id].registered && Words.Says(line, "INVITE")
    && Counts(s, id, Words.Params(line), now, t) && Fold(Words.Params(line)[1]) == k
    && |s.channels[k].invited| < 100
  }

  lemma InvitesIfCounted(s: State, id: int, line: string, now: int, k: string, t: int)
    requires k in s.channels && Words.Gives(s, id, line, Runs.Invite)
    ensures Invites(s, id, line, now, k, t) <==>
            && Counts(s, id, Words.Params(line), now, t) && Fold(Words.Params(line)[1]) == k
            && |s.channels[k].invited| < 100
  {
  }

  lemma InviteLineAdds(s: State, id: int, line: string, now: int, params: seq<string>, k: string, t: int)
    requires IndexOk(s) && k in s.channels && t !in s.channels[k].invited
    requires Words.Gives(s, id, line, Runs.Invite) && params == Words.Params(line)
    ensures var s' := Runs.HandleLine(s, id, line, now);
            && k in s'.channels
            && (t in s'.channels[k].invited <==>
                  Counts(s, id, params, now, t) && Fold(params[1]) == k && |s.channels[k].invited| < 100)
  {
    Words.InviteGiven(s, id, line, now);
    InviteAdds(s, id, params, now, k, t);
  }

  lemma InvitesGives(s: State, id: int, line: string, now: int, k: string, t: int)
    requires k in s.channels && Invites(s, id, line, now, k, t)
    ensures Words.Gives(s, id, line, Runs.Invite)
  {
  }

  lemma InviteLineExact(s: State, id: int, line: string, now: int, k: string, t: int)
    requires IndexOk(s) && k in s.channels && t !in s.channels[k].invited && Words.Gives(s, id, line, Runs.Invite)
    ensures var s' := Runs.HandleLine(s, id, line, now);
            k in s'.channels && (t in s'.channels[k].invited <==> Invites(s, id, line, now, k, t))
  {
    InvitesIfCounted(s, id, line, now, k, t);
    InviteLineAdds(s, id, line, now, Words.Params(line), k, t);
  }

  /** Over all steps, t comes to be invited to a channel exactly by such a line. */
  lemma InvitationExact(s: State, e: Runs.Event, k: string, t: int)
    requires Inv(s) && k in s.channels && k in Runs.Step(s, e).channels && t !in s.channels[k].invited
    ensures t in Runs.Step(s, e).channels[k].invited <==> e.Line? && Invites(s, e.id, e.text, e.now, k, t)
  {
    NotInvited(s, e, k, t);
    if e.Line? && Invites(s, e.id, e.text, e.now, k, t) {
      InvitesGives(s, e.id, e.text, e.now, k, t);
    }
    if e.Line? && Words.Gives(s, e.id, e.text, Runs.Invite) {
      InviteLineExact(s, e.id, e.text, e.now, k, t);
    }
  }
}
