/** Greedy packing of names into reply lines, as NAMES, WHOIS, JOIN and CAP LS do it. */
module Packing {
  import opened IrcText

  const LINE_BUDGET := 400

  type Group = seq<string>

  predicate NonEmptyEntries(es: seq<string>)
  {
    forall i :: 0 <= i < |es| ==> es[i] != ""
  }

  predicate Fits(g: Group, budget: nat) { |Join(g, ' ')| <= budget }

  predicate AllFit(gs: seq<Group>, budget: nat)
  {
    forall i :: 0 <= i < |gs| ==> Fits(gs[i], budget)
  }

  predicate NoneEmpty(gs: seq<Group>)
  {
    forall i :: 0 <= i < |gs| ==> gs[i] != []
  }

  function Flatten(gs: seq<Group>): seq<string>
  {
    if gs == [] then [] else gs[0] + Flatten(gs[1..])
  }

  function Lines(gs: seq<Group>): (r: seq<string>)
    ensures |r| == |gs|
    ensures forall i :: 0 <= i < |gs| ==> r[i] == Join(gs[i], ' ')
  {
    seq(|gs|, i requires 0 <= i < |gs| => Join(gs[i], ' '))
  }

  /** The cuts made from a line holding cur, with the entries es still to come. */
  function PackFrom(cur: Group, es: seq<string>, budget: nat): seq<Group>
    decreases |es|
  {
    if es == [] then (if cur == [] then [] else [cur])
    else if cur != [] && |Join(cur, ' ')| + 1 + |es[0]| > budget then
      [cur] + PackFrom([es[0]], es[1..], budget)
    else PackFrom(cur + [es[0]], es[1..], budget)
  }

  function Pack(es: seq<string>, budget: nat): seq<Group> { PackFrom([], es, budget) }

  /** JOIN's guard, which also flushes when the line is still empty. */
  function JoinPackFrom(cur: Group, es: seq<string>, budget: nat): seq<Group>
    decreases |es|
  {
    if es == [] then (if cur == [] then [] else [cur])
    else if (if cur == [] then |es[0]| else |Join(cur, ' ')| + 1 + |es[0]|) > budget then
      [cur] + JoinPackFrom([es[0]], es[1..], budget)
    else JoinPackFrom(cur + [es[0]], es[1..], budget)
  }

  function JoinPack(es: seq<string>, budget: nat): seq<Group> { JoinPackFrom([], es, budget) }

  // ---------------------------------------------------------------- widths of joined lines

  lemma {:induction false} JoinWidth(a: Group, b: Group)
    requires a != [] && b != []
    ensures |Join(a + b, ' ')| == |Join(a, ' ')| + 1 + |Join(b, ' ')|
    decreases |a|
  {
    assert (a + b)[0] == a[0] && (a + b)[1..] == a[1..] + b;
    if |a| > 1 {
      JoinWidth(a[1..], b);
    } else {
      assert a[1..] == [] && (a + b)[1..] == b;
    }
  }

  lemma FitsParts(a: Group, b: Group, budget: nat)
    requires Fits(a + b, budget)
    ensures Fits(a, budget) && Fits(b, budget)
  {
    if a == [] {
      assert a + b == b;
    } else if b == [] {
      assert a + b == a;
    } else {
      JoinWidth(a, b);
    }
  }

  lemma JoinedNonEmpty(g: Group)
    requires NonEmptyEntries(g)
    ensures Join(g, ' ') == "" <==> g == []
  {
  }

  // ---------------------------------------------------------------- nothing is lost

  lemma {:induction false} PackKeepsEntries(cur: Group, es: seq<string>, budget: nat)
    ensures Flatten(PackFrom(cur, es, budget)) == cur + es
    ensures NoneEmpty(PackFrom(cur, es, budget))
    decreases |es|
  {
    if es == [] {
      assert cur + [] == cur;
      if cur != [] {
        assert Flatten([cur]) == cur + Flatten([]);
      }
    } else {
      assert [es[0]] + es[1..] == es;
      if cur != [] && |Join(cur, ' ')| + 1 + |es[0]| > budget {
        PackKeepsEntries([es[0]], es[1..], budget);
        var tail := PackFrom([es[0]], es[1..], budget);
        assert ([cur] + tail)[1..] == tail;
      } else {
        PackKeepsEntries(cur + [es[0]], es[1..], budget);
        assert cur + [es[0]] + es[1..] == cur + es;
      }
    }
  }

  /** Reading every emitted line back, field by field. */
  function ReadBack(lines: seq<string>): seq<string>
  {
    if lines == [] then [] else Split(lines[0], ' ') + ReadBack(lines[1..])
  }

  lemma {:induction false} FlattenedFields(gs: seq<Group>)
    requires AllFields(Flatten(gs), ' ')
    ensures ReadBack(Lines(gs)) == Flatten(gs)
    decreases |gs|
  {
    if gs != [] {
      var rest := Flatten(gs[1..]);
      assert forall i :: 0 <= i < |gs[0]| ==> gs[0][i] == Flatten(gs)[i];
      assert forall i :: 0 <= i < |rest| ==> rest[i] == Flatten(gs)[|gs[0]| + i];
      SplitJoin(gs[0], ' ');
      FlattenedFields(gs[1..]);
      assert Lines(gs)[1..] == Lines(gs[1..]);
    }
  }

  /** A client that splits the lines on spaces recovers the entries, in order. */
  lemma NothingLost(es: seq<string>, budget: nat)
    requires AllFields(es, ' ')
    ensures ReadBack(Lines(Pack(es, budget))) == es
  {
    PackKeepsEntries([], es, budget);
    assert [] + es == es;
    FlattenedFields(Pack(es, budget));
  }

  // ---------------------------------------------------------------- every line fits

  lemma {:induction false} PackFits(cur: Group, es: seq<string>, budget: nat)
    requires Fits(cur, budget)
    requires forall i :: 0 <= i < |es| ==> |es[i]| <= budget
    ensures AllFit(PackFrom(cur, es, budget), budget)
    decreases |es|
  {
    if es != [] {
      if cur != [] && |Join(cur, ' ')| + 1 + |es[0]| > budget {
        PackFits([es[0]], es[1..], budget);
      } else {
        JoinSnoc(cur, es[0], ' ');
        PackFits(cur + [es[0]], es[1..], budget);
      }
    }
  }

  // ---------------------------------------------------------------- and no packing uses fewer

  /** Dropping entries from the front of a packing never needs more lines. */
  lemma {:induction false} DropFront(gs: seq<Group>, n: nat, budget: nat) returns (hs: seq<Group>)
    requires AllFit(gs, budget) && n <= |Flatten(gs)|
    ensures |hs| <= |gs| && AllFit(hs, budget)
    ensures Flatten(hs) == Flatten(gs)[n..]
    decreases |gs|
  {
    if gs == [] {
      hs := [];
    } else if n >= |gs[0]| {
      hs := DropFront(gs[1..], n - |gs[0]|, budget);
    } else {
      var keep := gs[0][n..];
      assert gs[0] == gs[0][..n] + keep;
      FitsParts(gs[0][..n], keep, budget);
      hs := [keep] + gs[1..];
      assert hs[1..] == gs[1..];
    }
  }

  /** The empty groups at the front of a packing can be skipped. */
  lemma {:induction false} SkipEmpty(gs: seq<Group>, budget: nat) returns (hs: seq<Group>)
    requires AllFit(gs, budget) && Flatten(gs) != []
    ensures hs != [] && hs[0] != [] && |hs| <= |gs| && AllFit(hs, budget)
    ensures Flatten(hs) == Flatten(gs)
    decreases |gs|
  {
    if gs[0] == [] {
      hs := SkipEmpty(gs[1..], budget);
    } else {
      hs := gs;
    }
  }

  /** Any ordered way of cutting the same entries into fitting lines uses at least as many. */
  lemma {:induction false} PackOptimal(cur: Group, es: seq<string>, budget: nat, gs: seq<Group>)
    requires Flatten(gs) == cur + es && AllFit(gs, budget)
    ensures |PackFrom(cur, es, budget)| <= |gs|
    decreases |es|
  {
    if es == [] {
      if cur != [] {
        var hs := SkipEmpty(gs, budget);
      }
    } else if cur != [] && |Join(cur, ' ')| + 1 + |es[0]| > budget {
      var hs := SkipEmpty(gs, budget);
      var all := cur + es;
      if |hs[0]| > |cur| {
        var g := hs[0];
        assert g == all[..|g|];
        assert g == (cur + [es[0]]) + g[|cur| + 1..];
        FitsParts(cur + [es[0]], g[|cur| + 1..], budget);
        JoinSnoc(cur, es[0], ' ');
        assert false;
      }
      var ks := DropFront(hs[1..], |cur| - |hs[0]|, budget);
      assert Flatten(hs) == hs[0] + Flatten(hs[1..]);
      assert Flatten(ks) == all[|cur|..];
      assert all[|cur|..] == [es[0]] + es[1..];
      PackOptimal([es[0]], es[1..], budget, ks);
    } else {
      assert cur + [es[0]] + es[1..] == cur + es;
      PackOptimal(cur + [es[0]], es[1..], budget, gs);
    }
  }

  /** The three claims together, for entries a channel or a client can produce. */
  lemma PackingOptimal(es: seq<string>, budget: nat)
    requires forall i :: 0 <= i < |es| ==> |es[i]| <= budget
    ensures AllFit(Pack(es, budget), budget) && Flatten(Pack(es, budget)) == es
    ensures forall gs :: Flatten(gs) == es && AllFit(gs, budget) ==> |Pack(es, budget)| <= |gs|
  {
    PackFits([], es, budget);
    PackKeepsEntries([], es, budget);
    assert [] + es == es;
    forall gs | Flatten(gs) == es && AllFit(gs, budget)
      ensures |Pack(es, budget)| <= |gs|
    {
      PackOptimal([], es, budget, gs);
    }
  }

  // ---------------------------------------------------------------- the two guards

  lemma {:induction false} GuardsAgree(cur: Group, es: seq<string>, budget: nat)
    requires cur != [] || es == [] || |es[0]| <= budget
    ensures JoinPackFrom(cur, es, budget) == PackFrom(cur, es, budget)
    decreases |es|
  {
    if es != [] {
      if cur != [] && |Join(cur, ' ')| + 1 + |es[0]| > budget {
        GuardsAgree([es[0]], es[1..], budget);
      } else {
        GuardsAgree(cur + [es[0]], es[1..], budget);
      }
    }
  }

  /** JOIN's guard makes the same cuts as NAMES' exactly when the first entry fits on a line;
      otherwise it sends one empty line first. */
  lemma JoinGuardExact(es: seq<string>, budget: nat)
    ensures JoinPack(es, budget) == Pack(es, budget) <==> es == [] || |es[0]| <= budget
  {
    if es == [] || |es[0]| <= budget {
      GuardsAgree([], es, budget);
    } else {
      var tail := JoinPackFrom([es[0]], es[1..], budget);
      GuardsAgree([es[0]], es[1..], budget);
      assert JoinPack(es, budget) == [[]] + tail;
      assert [] + [es[0]] == [es[0]];
    }
  }

  /** Nicks and channel names carry at most one status character, so both guards agree. */
  lemma StatusEntriesFit(names: seq<string>, es: seq<string>)
    requires |es| == |names|
    requires forall i :: 0 <= i < |es| ==> |names[i]| <= MAX_CHANNELLEN && |es[i]| <= 1 + |names[i]|
    ensures JoinPack(es, LINE_BUDGET) == Pack(es, LINE_BUDGET)
    ensures AllFit(Pack(es, LINE_BUDGET), LINE_BUDGET)
  {
    JoinGuardExact(es, LINE_BUDGET);
    PackFits([], es, LINE_BUDGET);
  }

  // ---------------------------------------------------------------- the loops

  lemma LinesSnoc(gs: seq<Group>, g: Group)
    ensures Lines(gs + [g]) == Lines(gs) + [Join(g, ' ')]
  {
  }

  /** One entry of the loop: where a line is cut, and where it grows. */
  lemma PackStep(done: seq<Group>, cur: Group, es: seq<string>, i: nat, budget: nat)
    requires i < |es|
    ensures done + PackFrom(cur, es[i..], budget) ==
            if Overflows(cur, es[i], budget)
            then (done + [cur]) + PackFrom([es[i]], es[i + 1..], budget)
            else done + PackFrom(cur + [es[i]], es[i + 1..], budget)
  {
    assert es[i..][0] == es[i] && es[i..][1..] == es[i + 1..];
    Prepend(done, [cur], PackFrom([es[i]], es[i + 1..], budget));
  }

  lemma PackStart(es: seq<string>, budget: nat)
    ensures [] + PackFrom([], es[0..], budget) == Pack(es, budget)
  {
    assert es[0..] == es;
  }

  lemma PackEnd(done: seq<Group>, cur: Group, budget: nat)
    ensures done + PackFrom(cur, [], budget) == if cur == [] then done else done + [cur]
  {
    assert done + [] == done;
  }

  /** The buffer after one more entry. */
  method Append(list: string, entry: string, ghost cur: Group) returns (longer: string)
    requires NonEmptyEntries(cur) && list == Join(cur, ' ') && entry != ""
    ensures NonEmptyEntries(cur + [entry]) && longer == Join(cur + [entry], ' ')
  {
    JoinedNonEmpty(cur);
    JoinSnoc(cur, entry, ' ');
    longer := list;
    if longer != "" {
      longer := longer + " ";
    }
    longer := longer + entry;
  }

  predicate Overflows(cur: Group, entry: string, budget: nat)
  {
    cur != [] && |Join(cur, ' ')| + 1 + |entry| > budget
  }

  method PackEntry(lines0: seq<string>, list0: string, entry: string, budget: nat, ghost done: seq<Group>,
                   ghost cur: Group)
    returns (lines: seq<string>, list: string)
    requires NonEmptyEntries(cur) && list0 == Join(cur, ' ') && lines0 == Lines(done) && entry != ""
    ensures var cur' := if Overflows(cur, entry, budget) then [entry] else cur + [entry];
            NonEmptyEntries(cur') && list == Join(cur', ' ')
    ensures lines == Lines(if Overflows(cur, entry, budget) then done + [cur] else done)
  {
    lines, list := lines0, list0;
    JoinedNonEmpty(cur);
    if list != "" && |list| + 1 + |entry| > budget {
      LinesSnoc(done, cur);
      lines := lines + [list];
      list := Append("", entry, []);
      assert [] + [entry] == [entry];
    } else {
      list := Append(list, entry, cur);
    }
  }

  /** NAMES and WHOIS: flush the buffer before an entry that would overflow it. */
  method PackList(entries: seq<string>, budget: nat) returns (lines: seq<string>)
    requires NonEmptyEntries(entries)
    ensures lines == Lines(Pack(entries, budget))
  {
    lines := [];
    var list := "";
    ghost var done: seq<Group>, cur: Group := [], [];
    PackStart(entries, budget);
    for i := 0 to |entries|
      invariant NonEmptyEntries(cur) && list == Join(cur, ' ')
      invariant lines == Lines(done)
      invariant done + PackFrom(cur, entries[i..], budget) == Pack(entries, budget)
    {
      PackStep(done, cur, entries, i, budget);
      lines, list := PackEntry(lines, list, entries[i], budget, done, cur);
      if Overflows(cur, entries[i], budget) {
        done, cur := done + [cur], [entries[i]];
      } else {
        cur := cur + [entries[i]];
      }
    }
    assert entries[|entries|..] == [];
    JoinedNonEmpty(cur);
    PackEnd(done, cur, budget);
    if list != "" {
      LinesSnoc(done, cur);
      lines := lines + [list];
    }
  }

  /** JOIN: the same loop with the guard on the length the entry would need. */
  method PackJoinNames(entries: seq<string>, budget: nat) returns (lines: seq<string>)
    requires NonEmptyEntries(entries)
    ensures lines == Lines(JoinPack(entries, budget))
  {
    lines := [];
    var names := "";
    ghost var done: seq<Group>, cur: Group := [], [];
    for i := 0 to |entries|
      invariant NonEmptyEntries(cur) && names == Join(cur, ' ')
      invariant lines == Lines(done)
      invariant done + JoinPackFrom(cur, entries[i..], budget) == JoinPack(entries, budget)
    {
      var entry := entries[i];
      assert entries[i..][0] == entry && entries[i..][1..] == entries[i + 1..];
      JoinedNonEmpty(cur);
      var needed := if names == "" then |entry| else |names| + 1 + |entry|;
      if needed > budget {
        lines := lines + [names];
        LinesSnoc(done, cur);
        Prepend(done, [cur], JoinPackFrom([entry], entries[i + 1..], budget));
        done, cur := done + [cur], [];
        names := "";
      }
      JoinSnoc(cur, entry, ' ');
      if names != "" {
        names := names + " ";
      }
      names := names + entry;
      assert [] + [entry] == [entry];
      cur := cur + [entry];
    }
    JoinedNonEmpty(cur);
    if names != "" {
      lines := lines + [names];
      LinesSnoc(done, cur);
    } else {
      assert done + [] == done;
    }
  }

  lemma SkipSpace(s: string, pos: nat)
    requires pos < |s| && s[pos] == ' '
    ensures SplitFrom(s, ' ', pos) == SplitFrom(s, ' ', pos + 1)
  {
  }

  lemma TakeToken(s: string, pos: nat, end: nat)
    requires pos < |s| && s[pos] != ' ' && end == Find(s, ' ', pos)
    ensures pos < end
    ensures SplitFrom(s, ' ', pos) == [s[pos..end]] + SplitFrom(s, ' ', end)
  {
    if end < |s| {
      SkipSpace(s, end);
    }
  }

  /** CAP's tokenizer: runs of spaces separate tokens. */
  method CapTokenize(s: string) returns (out: seq<string>)
    ensures out == Split(s, ' ')
  {
    out := [];
    var pos := 0;
    while pos < |s|
      invariant 0 <= pos <= |s|
      invariant out + SplitFrom(s, ' ', pos) == Split(s, ' ')
    {
      ghost var rest := SplitFrom(s, ' ', pos);
      while pos < |s| && s[pos] == ' '
        invariant 0 <= pos <= |s| && SplitFrom(s, ' ', pos) == rest
      {
        SkipSpace(s, pos);
        pos := pos + 1;
      }
      if pos >= |s| {
        break;
      }
      var end := Find(s, ' ', pos);
      TakeToken(s, pos, end);
      Prepend(out, [s[pos..end]], SplitFrom(s, ' ', end));
      out := out + [s[pos..end]];
      pos := end;
    }
  }

  /** CAP LS for a 302 client: the packed lines, with at least one line to send. */
  method PackCapLs(payload: string, budget: nat) returns (lines: seq<string>)
    ensures lines != []
    ensures ReadBack(lines) == Split(payload, ' ')
    ensures Split(payload, ' ') != [] ==> lines == Lines(Pack(Split(payload, ' '), budget))
  {
    var tokens := CapTokenize(payload);
    SplitYieldsFields(payload, ' ', 0);
    assert forall i :: 0 <= i < |tokens| ==> IsField(tokens[i], ' ');
    lines := PackList(tokens, budget);
    NothingLost(tokens, budget);
    if lines == [] {
      lines := [""];
      assert ReadBack([""]) == Split("", ' ') + ReadBack([]);
    }
  }
}
