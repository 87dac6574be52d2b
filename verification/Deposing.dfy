/** When a channel loses its last operator: what MODE asks for, read without looking at the channel,
    decides exactly who is operator afterwards, and no other step ever takes the last one away. */
module Deposing {
  import opened Wrappers
  import opened IrcText
  import opened ServerState
  import opened Departures
  import opened SweepOrder
  import opened Membership
  import opened Modes
  import opened Histories
  import opened ModeRequests
  import Authority
  import Runs
  import Words

  // ---------------------------------------------------------------- who is operator in the end

  /** The request is about the operator status of x. */
  predicate Names(s: State, w: Wish, x: int)
  {
    AboutMember(s, w, 'o', x)
  }

  predicate NoneNames(s: State, ws: seq<Wish>, i: nat, x: int)
  {
    forall j :: i <= j < |ws| ==> !Names(s, ws[j], x)
  }

  /** The last request about x decides; without one, x stays what it was. */
  predicate EndsOperator(s: State, ws: seq<Wish>, was: bool, x: int)
  {
    || (was && NoneNames(s, ws, 0, x))
    || exists i :: 0 <= i < |ws| && Names(s, ws[i], x) && ws[i].sign == '+' && NoneNames(s, ws, i + 1, x)
  }

  /** Who of the members is operator at the end is what the list says, sight unseen. */
  lemma GrantedOperators(s: State, ch: Channel, ws: seq<Wish>, x: int)
    requires x in ch.members && Signed(ws)
    ensures x in Granted(s, ch, ws).operators <==> EndsOperator(s, ws, x in ch.operators, x)
  {
    var about := (w: Wish) => AboutMember(s, w, 'o', x);
    var i := LastOf(ws, about);
    OperatorsGranted(s, ch, ws, x, i);
    assert NoneNames(s, ws, i + 1, x);
    if i >= 0 {
      assert Names(s, ws[i], x);
    }
  }

  lemma ModeOperators(s: State, k: string, ch: Channel, nextGen: nat, flags: string, args: seq<string>)
    requires ChannelOk(k, ch, nextGen)
    ensures var ch' := ModeLoop(s, flags, Start(ch, args)).ch;
            ch'.operators == set x | x in ch.members && EndsOperator(s, Wishes(flags, args, '+'), x in ch.operators, x)
  {
    var ws := Wishes(flags, args, '+');
    var ch' := ModeLoop(s, flags, Start(ch, args)).ch;
    LoopGrants(s, flags, Start(ch, args));
    WishesSigned(flags, args, '+');
    ModeLoopKeeps(s, k, nextGen, flags, Start(ch, args));
    forall x | x in ch.members
      ensures x in ch'.operators <==> EndsOperator(s, ws, x in ch.operators, x)
    {
      GrantedOperators(s, ch, ws, x);
    }
  }

  // ---------------------------------------------------------------- the MODE that deposes

  /** A MODE command, as it is received, that leaves k without an operator: it is no query, comes
      from an operator of k, and makes none of the members an operator in the end. */
  predicate Deposes(s: State, id: int, params: seq<string>, k: string)
    requires k in s.channels
  {
    var ch := s.channels[k];
    && Commands(s, id, params) && Fold(params[0]) == k
    && forall x :: x in ch.members ==>
         !EndsOperator(s, Wishes(params[1], params[2..], '+'), x in ch.operators, x)
  }

  lemma ModeDeposes(s: State, id: int, params: seq<string>, k: string)
    requires ChannelsOk(s) && k in s.channels && s.channels[k].operators != {}
    ensures k in Mode(s, id, params).channels
    ensures Mode(s, id, params).channels[k].operators == {} <==> Deposes(s, id, params, k)
  {
    var ch := s.channels[k];
    assert ChannelOk(k, ch, s.nextGen);
    ModeDoes(s, id, params);
    if Commands(s, id, params) && Fold(params[0]) == k {
      ModeOperators(s, k, ch, s.nextGen, params[1], params[2..]);
      var ws := Wishes(params[1], params[2..], '+');
      var left := set x | x in ch.members && EndsOperator(s, ws, x in ch.operators, x);
      assert Mode(s, id, params).channels[k].operators == left;
      assert left == {} <==> forall x :: x in ch.members ==> x !in left;
    }
  }

  // ---------------------------------------------------------------- every step

  ghost predicate DeposedBy(s: State, e: Runs.Event, k: string)
    requires k in s.channels
  {
    match e
    case Line(id, text, _) =>
      id in s.clients && s.clients[id].registered && Words.Says(text, "MODE") && Deposes(s, id, Words.Params(text), k)
    case _ => false
  }

  /** No lawful change that keeps the members fills an empty office. */
  lemma VacancyStays(s: State, s': State, k: string, id: int, v: Runs.Verb, params: seq<string>, now: int)
    requires ChannelsOk(s) && k in s.channels && k in s'.channels
    requires Authority.Lawful(s, s', k, id, v, params, now)
    requires s.channels[k].operators == {}
    ensures s'.channels[k].operators == {} || Shrank(s.channels[k], s'.channels[k])
  {
    if t :| Authority.LeftBy(s, s', k, t) {
      BereftFields(s.channels[k], t, s.clients.Keys);
      assert t !in s'.channels[k].members;
    }
  }

  lemma SweptVacancyStays(ch: Channel, ids: set<int>)
    requires ch.operators == {}
    ensures GoneAll(ch, ids).operators == {} || Shrank(ch, GoneAll(ch, ids))
  {
    GoneAllMembers(ch, ids);
    if !(ch.members !! ids) {
      var m := Inhabited(ch.members * ids);
      assert m in ch.members && m !in GoneAll(ch, ids).members;
    }
  }

  lemma StepVacancyStays(s: State, e: Runs.Event, k: string)
    requires Inv(s) && k in s.channels && k in Runs.Step(s, e).channels
    requires s.channels[k].operators == {}
    ensures Runs.Step(s, e).channels[k].operators == {} || Shrank(s.channels[k], Runs.Step(s, e).channels[k])
  {
    if e.Line? && e.id in s.clients {
      Authority.LineLawful(s, e.id, e.text, e.now);
      var v := Words.Command(s, e.id, e.text);
      if v.Some? {
        VacancyStays(s, Runs.Step(s, e), k, e.id, v.value, Words.Params(e.text), e.now);
      }
    } else if e.Sweep? {
      SweptVacancyStays(s.channels[k], Runs.Marked(s));
    }
  }

  ghost predicate RunsMode(s: State, e: Runs.Event)
  {
    e.Line? && e.id in s.clients && s.clients[e.id].registered && Words.Says(e.text, "MODE")
  }

  lemma ModeStep(s: State, e: Runs.Event)
    requires RunsMode(s, e)
    ensures Runs.Step(s, e) == Mode(s, e.id, Words.Params(e.text))
  {
    Words.ModeLine(s, e.id, e.text, e.now);
  }

  lemma OtherStepPeaceful(s: State, e: Runs.Event)
    requires !RunsMode(s, e)
    ensures Peaceful(s, e)
  {
  }

  /** Over all steps: a channel is without an operator afterwards exactly if it was without one
      and lost nobody, or the step is a MODE that deposes its last. */
  lemma StepOperatorsExact(s: State, e: Runs.Event, k: string)
    requires Inv(s) && k in s.channels && k in Runs.Step(s, e).channels
    ensures var ch, ch' := s.channels[k], Runs.Step(s, e).channels[k];
            ch'.operators == {} <==> (ch.operators == {} && !Shrank(ch, ch')) || DeposedBy(s, e, k)
  {
    var ch, ch' := s.channels[k], Runs.Step(s, e).channels[k];
    if ch.operators == {} && !Shrank(ch, ch') {
      StepVacancyStays(s, e, k);
    } else if RunsMode(s, e) {
      ModeStep(s, e);
      var params := Words.Params(e.text);
      ModeKeepsMembers(s, e.id, params, k);
      ModeDeposes(s, e.id, params, k);
    } else {
      OtherStepPeaceful(s, e);
      StepManned(s, e);
    }
  }

  // ---------------------------------------------------------------- whole runs

  ghost predicate AllManned(s: State)
  {
    forall k :: k in s.channels ==> s.channels[k].operators != {}
  }

  ghost predicate NoneDeposed(s: State, e: Runs.Event)
  {
    forall k :: k in s.channels ==> !DeposedBy(s, e, k)
  }

  lemma DeposedChannelStays(s: State, e: Runs.Event, k: string)
    requires ChannelsOk(s) && k in s.channels && DeposedBy(s, e, k)
    ensures k in Runs.Step(s, e).channels
  {
    ModeStep(s, e);
    ModeKeepsMembers(s, e.id, Words.Params(e.text), k);
  }

  lemma NewChannelManned(s: State, e: Runs.Event, k: string)
    requires Inv(s) && k !in s.channels && k in Runs.Step(s, e).channels
    ensures Runs.Step(s, e).channels[k].operators != {}
  {
    if e.Line? && e.id in s.clients {
      Authority.LineLawful(s, e.id, e.text, e.now);
    }
  }

  lemma StepMannedExact(s: State, e: Runs.Event)
    requires Inv(s) && AllManned(s)
    ensures AllManned(Runs.Step(s, e)) <==> NoneDeposed(s, e)
  {
    var s' := Runs.Step(s, e);
    forall k | k in s'.channels
      ensures s'.channels[k].operators == {} <==> k in s.channels && DeposedBy(s, e, k)
    {
      if k in s.channels {
        StepOperatorsExact(s, e, k);
      } else {
        NewChannelManned(s, e, k);
      }
    }
    forall k | k in s.channels && DeposedBy(s, e, k)
      ensures k in s'.channels
    {
      DeposedChannelStays(s, e, k);
    }
  }

  ghost predicate AlwaysManned(s: State, es: seq<Runs.Event>)
    decreases |es|
  {
    AllManned(s) && (es == [] || AlwaysManned(Runs.Step(s, es[0]), es[1..]))
  }

  ghost predicate NeverDeposed(s: State, es: seq<Runs.Event>)
    decreases |es|
  {
    es == [] || (NoneDeposed(s, es[0]) && NeverDeposed(Runs.Step(s, es[0]), es[1..]))
  }

  /** Every channel has an operator at every moment of a run if and only if none of the MODE
      commands in it deposes the last operator of a channel. */
  lemma {:induction false} OperatorsForever(s: State, es: seq<Runs.Event>)
    requires Inv(s) && AllManned(s)
    ensures AlwaysManned(s, es) <==> NeverDeposed(s, es)
    decreases |es|
  {
    if es != [] {
      StepMannedExact(s, es[0]);
      if NoneDeposed(s, es[0]) {
        Runs.StepKeeps(s, es[0]);
        OperatorsForever(Runs.Step(s, es[0]), es[1..]);
      }
    }
  }

  ghost predicate AllPeaceful(s: State, es: seq<Runs.Event>)
    decreases |es|
  {
    es == [] || (Peaceful(s, es[0]) && AllPeaceful(Runs.Step(s, es[0]), es[1..]))
  }

  /** So a run in which no `-o` is announced is safe. */
  lemma {:induction false} PeaceKeepsOperators(s: State, es: seq<Runs.Event>)
    requires Inv(s) && AllManned(s) && AllPeaceful(s, es)
    ensures AlwaysManned(s, es) && AllManned(Runs.Run(s, es))
    decreases |es|
  {
    if es != [] {
      StepManned(s, es[0]);
      Runs.StepKeeps(s, es[0]);
      PeaceKeepsOperators(Runs.Step(s, es[0]), es[1..]);
    }
  }
}
