/** Marks set in the middle of a sweep, as the announcement of a succession may set them. */
module SweepMarks {
  import opened Wrappers
  import opened ServerState
  import opened Sweeps
  import opened SweepOrder
  import opened Closing
  import Runs

  // ---------------------------------------------------------------- many marks

  /** All of ids that are connected are marked for close. */
  function MarkAll(s: State, ids: set<int>): State
  {
    s.(clients := map i | i in s.clients :: Noted(s.clients[i], i in ids))
  }

  lemma MarkNone(s: State)
    ensures MarkAll(s, {}) == s
  {
    forall i | i in s.clients
      ensures Noted(s.clients[i], i in {}) == s.clients[i]
    {
    }
    SameMap(MarkAll(s, {}).clients, s.clients);
  }

  lemma MarkOne(s: State, j: int)
    ensures MarkAll(s, {j}) == MarkIn(s, j)
  {
    var t := MarkIn(s, j);
    forall i | i in s.clients
      ensures Noted(s.clients[i], i in {j}) == t.clients[i]
    {
    }
    SameMap(MarkAll(s, {j}).clients, t.clients);
  }

  lemma MarkTwice(s: State, a: set<int>, b: set<int>)
    ensures MarkAll(MarkAll(s, a), b) == MarkAll(s, a + b)
  {
    var once, both := MarkAll(s, a), MarkAll(s, a + b);
    forall i | i in s.clients
      ensures Noted(once.clients[i], i in b) == both.clients[i]
    {
    }
    SameMap(MarkAll(once, b).clients, both.clients);
  }

  /** Marks neither hinder nor help a removal: those on removed clients go with them. */
  lemma MarkRemoved(s: State, marks: set<int>, gone: set<int>)
    ensures Removed(MarkAll(s, marks), gone) == MarkAll(Removed(s, gone), marks)
    ensures MarkAll(Removed(s, gone), marks) == MarkAll(Removed(s, gone), marks - gone)
  {
    var r := Removed(s, gone);
    SameMap(Removed(MarkAll(s, marks), gone).clients, MarkAll(r, marks).clients);
    SameMap(MarkAll(r, marks).clients, MarkAll(r, marks - gone).clients);
  }

  // ---------------------------------------------------------------- as steps

  /** A sweep during which the clients in early were marked before their turn and those in late
      after it: the former go with the rest, the latter stay and are marked. */
  ghost function SweptAmidMarks(s: State, early: set<int>, late: set<int>): State
  {
    MarkAll(Runs.Step(MarkAll(s, early), Runs.Sweep(0)), late)
  }

  /** The closes of some clients, one after the other. */
  function Closes(order: seq<int>): seq<Runs.Event>
  {
    if order == [] then [] else [Runs.Close(order[0])] + Closes(order[1..])
  }

  lemma {:induction false} ClosesMark(s: State, order: seq<int>)
    ensures Runs.Run(s, Closes(order)) == MarkAll(s, Ids(order))
    decreases |order|
  {
    if order == [] {
      MarkNone(s);
    } else {
      var id, rest := order[0], order[1..];
      var s' := Runs.Step(s, Runs.Close(id));
      assert Closes(order)[1..] == Closes(rest);
      ClosesMark(s', rest);
      MarkOne(s, id);
      MarkTwice(s, {id}, Ids(rest));
      assert forall x :: x in order <==> x == id || x in rest;
      assert {id} + Ids(rest) == Ids(order);
    }
  }

  lemma {:induction false} RunConcat(s: State, es: seq<Runs.Event>, fs: seq<Runs.Event>)
    ensures Runs.Run(s, es + fs) == Runs.Run(Runs.Run(s, es), fs)
    decreases |es|
  {
    if es == [] {
      assert es + fs == fs;
    } else {
      assert (es + fs)[1..] == es[1..] + fs;
      RunConcat(Runs.Step(s, es[0]), es[1..], fs);
    }
  }

  /** So a sweep with marks in it is a run of steps: the early closes, the sweep, the late closes. */
  lemma SweepAmidMarksIsRun(s: State, early: seq<int>, late: seq<int>, now: int)
    ensures SweptAmidMarks(s, Ids(early), Ids(late)) ==
            Runs.Run(s, Closes(early) + ([Runs.Sweep(now)] + Closes(late)))
  {
    var sweep := [Runs.Sweep(now)];
    RunConcat(s, Closes(early), sweep + Closes(late));
    ClosesMark(s, early);
    assert (sweep + Closes(late))[1..] == Closes(late);
    ClosesMark(Runs.Step(MarkAll(s, Ids(early)), Runs.Sweep(now)), late);
  }

  lemma MarkAllKeeps(s: State, ids: set<int>)
    requires Inv(s)
    ensures Inv(MarkAll(s, ids))
  {
    var order := Runs.SweepAsOrder(s, ids * s.clients.Keys);
    ClosesMark(s, order);
    Runs.RunKeeps(s, Closes(order));
    SameMarks(s, ids, ids * s.clients.Keys);
  }

  lemma SameMarks(s: State, a: set<int>, b: set<int>)
    requires a * s.clients.Keys == b * s.clients.Keys
    ensures MarkAll(s, a) == MarkAll(s, b)
  {
    forall i | i in s.clients
      ensures i in a <==> i in b
    {
      assert i in a * s.clients.Keys <==> i in a;
    }
    SameMap(MarkAll(s, a).clients, MarkAll(s, b).clients);
  }

  lemma SweptKeeps(s: State, early: set<int>, late: set<int>)
    requires Inv(s)
    ensures Inv(SweptAmidMarks(s, early, late))
  {
    MarkAllKeeps(s, early);
    Runs.StepKeeps(MarkAll(s, early), Runs.Sweep(0));
    MarkAllKeeps(Runs.Step(MarkAll(s, early), Runs.Sweep(0)), late);
  }

  // ---------------------------------------------------------------- the loop

  /** Where a sweep stands: rest is still to be visited, order has been torn down, early are those
      marked before their turn and late those marked after it. */
  datatype Progress = Progress(rest: set<int>, order: seq<int>, early: set<int>, late: set<int>)

  ghost predicate Consistent(s: State, p: Progress)
  {
    && p.rest <= s.clients.Keys && p.early <= s.clients.Keys
    && NoDup(p.order) && Ids(p.order) <= s.clients.Keys && Ids(p.order) !! p.rest
    && p.late !! p.rest && p.late !! Ids(p.order)
    && forall id :: id in s.clients && id !in p.rest ==>
         (id in Ids(p.order) <==> s.clients[id].marked || id in p.early)
  }

  /** The state in the middle of a sweep. */
  ghost function Midway(s: State, p: Progress): State
  {
    MarkAll(Removed(s, Ids(p.order)), p.early + p.late)
  }

  function Beginning(s: State): Progress
  {
    Progress(s.clients.Keys, [], {}, {})
  }

  lemma SweepBegins(s: State)
    requires ChannelsOk(s)
    ensures Consistent(s, Beginning(s)) && Midway(s, Beginning(s)) == s
  {
    var none: set<int> := {};
    assert Ids([]) == none && none + none == none;
    RemovedNone(s);
    MarkNone(s);
  }

  /** A client whose turn has come is torn down if it was marked in time. */
  lemma TurnComes(s: State, p: Progress, id: int)
    requires Consistent(s, p) && id in p.rest
    ensures id in Midway(s, p).clients
    ensures Midway(s, p).clients[id].marked <==> s.clients[id].marked || id in p.early
    ensures Midway(s, p).clients[id] == Noted(s.clients[id], id in p.early)
  {
  }

  function Passed(p: Progress, id: int): Progress { p.(rest := p.rest - {id}) }

  /** The progress after id was torn down and the clients in marks have been marked; connected are
      those that are left. */
  function TornDown(p: Progress, id: int, marks: set<int>, connected: set<int>): Progress
  {
    var rest := p.rest - {id};
    Progress(rest, p.order + [id], p.early + (marks * connected * rest), p.late + (marks * connected - rest))
  }

  lemma PassedOn(s: State, p: Progress, id: int)
    requires Consistent(s, p) && id in p.rest && !Midway(s, p).clients[id].marked
    ensures Consistent(s, Passed(p, id)) && Midway(s, Passed(p, id)) == Midway(s, p)
  {
    TurnComes(s, p, id);
  }

  lemma IdsSnoc(order: seq<int>, id: int)
    ensures Ids(order + [id]) == Ids(order) + {id}
  {
    assert forall x :: x in order + [id] <==> x in order || x == id;
  }

  lemma TornDownConsistent(s: State, p: Progress, id: int, marks: set<int>, connected: set<int>)
    requires Consistent(s, p) && id in p.rest && (s.clients[id].marked || id in p.early)
    requires connected == s.clients.Keys - Ids(p.order) - {id}
    ensures Consistent(s, TornDown(p, id, marks, connected))
  {
    IdsSnoc(p.order, id);
    assert id !in Ids(p.order);
  }

  lemma TeardownMidway(s: State, gone: set<int>, said: set<int>, id: int)
    requires ChannelsOk(s)
    requires var mid := MarkAll(Removed(s, gone), said);
             ChannelsOk(mid) && RosterOk(mid) && IndexOk(mid) && id in mid.clients
    ensures Teardown(MarkAll(Removed(s, gone), said), id) == MarkAll(Removed(s, gone + {id}), said)
  {
    TeardownIsRemoval(MarkAll(Removed(s, gone), said), id);
    MarkRemoved(Removed(s, gone), said, {id});
    RemovedTwice(s, gone, {id});
  }

  lemma TornDownState(s: State, p: Progress, id: int, marks: set<int>)
    requires id in Midway(s, p).clients
    requires Teardown(Midway(s, p), id) == MarkAll(Removed(s, Ids(p.order) + {id}), p.early + p.late)
    ensures var t := Teardown(Midway(s, p), id);
            MarkAll(t, marks) == Midway(s, TornDown(p, id, marks, t.clients.Keys))
  {
    var base := Removed(s, Ids(p.order) + {id});
    IdsSnoc(p.order, id);
    MarksJoin(base, p, id, marks);
    assert MarkAll(base, p.early + p.late).clients.Keys == base.clients.Keys;
  }

  lemma MarksJoin(base: State, p: Progress, id: int, marks: set<int>)
    ensures var next := TornDown(p, id, marks, base.clients.Keys);
            MarkAll(MarkAll(base, p.early + p.late), marks) == MarkAll(base, next.early + next.late)
  {
    var said, next := p.early + p.late, TornDown(p, id, marks, base.clients.Keys);
    MarkTwice(base, said, marks);
    SameMarks(base, said + marks, next.early + next.late);
  }

  lemma TornDownOn(s: State, p: Progress, id: int, marks: set<int>)
    requires Inv(s) && Consistent(s, p) && id in p.rest
    ensures Inv(Midway(s, p)) && id in Midway(s, p).clients
    ensures var t := Teardown(Midway(s, p), id);
            var next := TornDown(p, id, marks, t.clients.Keys);
            && MarkAll(t, marks) == Midway(s, next)
            && (Midway(s, p).clients[id].marked ==> Consistent(s, next))
  {
    Runs.RemovedKeeps(s, Ids(p.order));
    MarkAllKeeps(Removed(s, Ids(p.order)), p.early + p.late);
    TurnComes(s, p, id);
    TeardownMidway(s, Ids(p.order), p.early + p.late, id);
    TornDownState(s, p, id, marks);
    var t := Teardown(Midway(s, p), id);
    assert t.clients.Keys == s.clients.Keys - Ids(p.order) - {id};
    if Midway(s, p).clients[id].marked {
      TornDownConsistent(s, p, id, marks, t.clients.Keys);
    }
  }

  /** When all have been visited, the sweep took the early with the rest and left the late marked. */
  lemma SweepEnds(s: State, p: Progress)
    requires Consistent(s, p) && p.rest == {}
    ensures Midway(s, p) == SweptAmidMarks(s, p.early, p.late)
    ensures Ids(p.order) == Runs.Marked(MarkAll(s, p.early))
  {
    var gone := Ids(p.order);
    var marked := Runs.Marked(MarkAll(s, p.early));
    forall id
      ensures id in gone <==> id in marked
    {
      if id in s.clients {
        assert MarkAll(s, p.early).clients[id] == Noted(s.clients[id], id in p.early);
      }
    }
    assert gone == marked;
    MarkRemoved(s, p.early, gone);
    assert forall id :: id in p.early ==> id in s.clients.Keys && id !in p.rest && id in gone;
    assert p.early - gone == {};
    MarkNone(Removed(s, gone));
    assert Removed(MarkAll(s, p.early), gone) == Removed(s, gone);
    SameMarks(Removed(s, gone), p.early + p.late, p.late);
  }

  // ---------------------------------------------------------------- which marks there can be

  /** The clients that some teardown of the sweep marked; overflow gives them for each. */
  ghost function Overflown(order: seq<int>, overflow: int -> set<int>): set<int>
  {
    set id, j | id in order && j in overflow(id) :: j
  }

  ghost predicate SweepGoesOn(before: State, p: Progress, rest: set<int>, overflow: int -> set<int>)
  {
    Consistent(before, p) && p.rest == rest && p.early + p.late <= Overflown(p.order, overflow)
  }

  lemma TornDownOverflown(p: Progress, id: int, overflow: int -> set<int>, connected: set<int>)
    requires p.early + p.late <= Overflown(p.order, overflow)
    ensures var next := TornDown(p, id, overflow(id), connected);
            next.early + next.late <= Overflown(next.order, overflow)
  {
    var next := TornDown(p, id, overflow(id), connected);
    assert id in next.order;
    forall j | j in next.early + next.late
      ensures j in Overflown(next.order, overflow)
    {
      if j in p.early + p.late {
        assert j in Overflown(p.order, overflow);
        var x :| x in p.order && j in overflow(x);
        assert x in next.order;
      }
    }
  }

  /** The turn of a marked client, all that is needed of it. */
  lemma TurnTaken(before: State, p: Progress, id: int, overflow: int -> set<int>)
    requires Inv(before) && SweepGoesOn(before, p, p.rest, overflow) && id in p.rest
    requires id in Midway(before, p).clients && Midway(before, p).clients[id].marked
    ensures Inv(Midway(before, p))
    ensures var t := Teardown(Midway(before, p), id);
            var next := TornDown(p, id, overflow(id), t.clients.Keys);
            SweepGoesOn(before, next, p.rest - {id}, overflow) && MarkAll(t, overflow(id)) == Midway(before, next)
  {
    TornDownOn(before, p, id, overflow(id));
    TornDownOverflown(p, id, overflow, Teardown(Midway(before, p), id).clients.Keys);
  }

  lemma TurnPassed(before: State, p: Progress, id: int, overflow: int -> set<int>)
    requires SweepGoesOn(before, p, p.rest, overflow) && id in p.rest
    requires id in Midway(before, p).clients && !Midway(before, p).clients[id].marked
    ensures SweepGoesOn(before, Passed(p, id), p.rest - {id}, overflow)
    ensures Midway(before, Passed(p, id)) == Midway(before, p)
  {
    PassedOn(before, p, id);
  }
}
