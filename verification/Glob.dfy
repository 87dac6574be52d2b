/** Wildcard matching with a single saved star, against its declarative meaning. */
module Glob {
  import opened IrcText

  // ---------------------------------------------------------------- the relation

  /** `?` stands for any one character, `*` for any run, anything else for itself. */
  ghost predicate Matches(p: string, t: string)
    decreases |p|
  {
    if p == "" then t == ""
    else if p[0] == '*' then exists k: nat :: k <= |t| && Matches(p[1..], t[k..])
    else t != "" && (p[0] == '?' || p[0] == t[0]) && Matches(p[1..], t[1..])
  }

  /** The pattern remainder q fits the text from some position at or after m. */
  ghost predicate FitsFrom(q: string, t: string, m: nat)
  {
    exists k: nat :: m <= k <= |t| && Matches(q, t[k..])
  }

  predicate NoStar(s: string) { '*' !in s }

  function SkipStars(p: string, i: nat): (r: nat)
    requires i <= |p|
    ensures i <= r <= |p|
    decreases |p| - i
  {
    if i < |p| && p[i] == '*' then SkipStars(p, i + 1) else i
  }

  // ---------------------------------------------------------------- the algorithm

  predicate Cursors(p: string, t: string, pi: nat, ti: nat, star: int, mt: nat)
  {
    pi <= |p| && mt <= ti <= |t| && -1 <= star < pi && (star >= 0 ==> p[star] == '*')
  }

  /** The verdict reached from cursors pi and ti, with the last star at index star
      (-1 for none) assumed to have absorbed the text up to mt. */
  function Run(p: string, t: string, pi: nat, ti: nat, star: int, mt: nat): bool
    requires Cursors(p, t, pi, ti, star, mt)
    decreases |t| - mt, |t| - ti + |p| - pi
  {
    if ti == |t| then SkipStars(p, pi) == |p|
    else if pi < |p| && (p[pi] == '?' || p[pi] == t[ti]) then Run(p, t, pi + 1, ti + 1, star, mt)
    else if pi < |p| && p[pi] == '*' then Run(p, t, pi + 1, ti, pi, ti)
    else if star >= 0 then Run(p, t, star + 1, mt + 1, star, mt + 1)
    else false
  }

  /** What the matcher answers for an unfolded pattern and text. */
  function Greedy(pattern: string, text: string): bool
  {
    Run(Fold(pattern), Fold(text), 0, 0, -1, 0)
  }

  /** The most iterations b complete phases can take, a phase ending with a backtrack. */
  function PhaseSteps(b: nat, n: nat): nat
  {
    if b == 0 then 0 else PhaseSteps(b - 1, n) + n + 1
  }

  lemma Distribute(m: nat, k: nat)
    ensures (m + 1) * k == m * k + k
  {
  }

  lemma {:induction false} PhaseStepsProduct(b: nat, n: nat)
    ensures PhaseSteps(b, n) == b * (n + 1)
  {
    if b > 0 {
      PhaseStepsProduct(b - 1, n);
      Distribute(b - 1, n + 1);
    }
  }

  lemma {:induction false} PhaseStepsMonotone(b: nat, m: nat, n: nat)
    requires b <= m
    ensures PhaseSteps(b, n) <= PhaseSteps(m, n)
    decreases m
  {
    if b < m {
      PhaseStepsMonotone(b, m - 1, n);
    }
  }

  lemma PhaseStepsBound(b: nat, n: nat, m: nat)
    requires b <= m
    ensures PhaseSteps(b, n) + n < (n + 1) * (m + 1)
  {
    PhaseStepsMonotone(b, m, n);
    PhaseStepsProduct(m, n);
    Distribute(m, n + 1);
    assert (m + 1) * (n + 1) == (n + 1) * (m + 1);
  }

  /** The matcher itself. Each backtrack raises `mt`, and between two backtracks `pi` only
      grows, so its two loops run fewer than (|pattern|+1)*(|text|+1) times together. */
  method GlobMatch(pattern: string, text: string) returns (r: bool, ghost steps: nat)
    ensures r == Greedy(pattern, text)
    ensures r ==> Matches(Fold(pattern), Fold(text))
    ensures NoStar(text) ==> r == Matches(Fold(pattern), Fold(text))
    ensures steps < (|pattern| + 1) * (|text| + 1)
  {
    var p := IrcCaseFold(pattern);
    var t := IrcCaseFold(text);
    r, steps := MatchFolded(p, t);
    GreedySound(pattern, text);
    if NoStar(text) {
      GreedyComplete(pattern, text);
    }
  }

  method MatchFolded(p: string, t: string) returns (r: bool, ghost steps: nat)
    ensures r == Run(p, t, 0, 0, -1, 0)
    ensures steps < (|p| + 1) * (|t| + 1)
  {
    var pi, ti, star, mt := 0, 0, -1, 0;
    steps := 0;
    ghost var backtracks: nat := 0;
    while ti < |t|
      invariant Cursors(p, t, pi, ti, star, mt)
      invariant Run(p, t, pi, ti, star, mt) == Run(p, t, 0, 0, -1, 0)
      invariant backtracks <= mt && steps <= PhaseSteps(backtracks, |p|) + pi
      decreases |t| - mt, |t| - ti + |p| - pi
    {
      steps := steps + 1;
      if pi < |p| && (p[pi] == '?' || p[pi] == t[ti]) {
        pi, ti := pi + 1, ti + 1;
      } else if pi < |p| && p[pi] == '*' {
        star, pi, mt := pi, pi + 1, ti;
      } else if star >= 0 {
        pi, mt, ti := star + 1, mt + 1, mt + 1;
        backtracks := backtracks + 1;
      } else {
        // no star was seen, so nothing was ever retried
        PhaseStepsBound(backtracks, |p|, |t| - 1);
        assert (|p| + 1) * |t| <= (|p| + 1) * (|t| + 1);
        return false, steps;
      }
    }
    while pi < |p| && p[pi] == '*'
      invariant pi <= |p|
      invariant (SkipStars(p, pi) == |p|) == Run(p, t, 0, 0, -1, 0)
      invariant steps <= PhaseSteps(backtracks, |p|) + pi
    {
      steps := steps + 1;
      pi := pi + 1;
    }
    PhaseStepsBound(backtracks, |p|, |t|);
    r := pi == |p|;
  }

  // ---------------------------------------------------------------- soundness, for every text

  lemma StarFits(p: string, t: string, pi: nat, ti: nat)
    requires pi < |p| && ti <= |t| && p[pi] == '*'
    ensures Matches(p[pi..], t[ti..]) <==> FitsFrom(p[pi + 1..], t, ti)
  {
    var q, u := p[pi..], t[ti..];
    assert q[1..] == p[pi + 1..];
    assert forall k: nat :: k <= |u| ==> u[k..] == t[ti + k..];
    if Matches(q, u) {
      var k: nat :| k <= |u| && Matches(q[1..], u[k..]);
      assert Matches(p[pi + 1..], t[ti + k..]);
    }
    if FitsFrom(p[pi + 1..], t, ti) {
      var k: nat :| ti <= k <= |t| && Matches(p[pi + 1..], t[k..]);
      assert u[k - ti..] == t[k..];
    }
  }

  lemma SingleFits(p: string, t: string, pi: nat, ti: nat)
    requires pi < |p| && p[pi] != '*' && ti < |t|
    ensures Matches(p[pi..], t[ti..]) <==>
            (p[pi] == '?' || p[pi] == t[ti]) && Matches(p[pi + 1..], t[ti + 1..])
  {
    assert p[pi..][1..] == p[pi + 1..] && t[ti..][1..] == t[ti + 1..];
  }

  lemma FitsFromSplit(q: string, t: string, m: nat)
    requires m <= |t|
    ensures FitsFrom(q, t, m) <==> Matches(q, t[m..]) || FitsFrom(q, t, m + 1)
  {
    if FitsFrom(q, t, m) {
      var k: nat :| m <= k <= |t| && Matches(q, t[k..]);
      if k > m {
        assert m + 1 <= k;
      }
    }
  }

  /** A literal step may be undone: one character on each side, a star included. */
  lemma StepBack(p: string, t: string, pi: nat, ti: nat)
    requires pi < |p| && ti < |t| && (p[pi] == '?' || p[pi] == t[ti])
    requires Matches(p[pi + 1..], t[ti + 1..])
    ensures Matches(p[pi..], t[ti..])
  {
    if p[pi] == '*' {
      assert FitsFrom(p[pi + 1..], t, ti);
      StarFits(p, t, pi, ti);
    } else {
      SingleFits(p, t, pi, ti);
    }
  }

  lemma {:induction false} SkipStarsMeaning(p: string, i: nat)
    requires i <= |p|
    ensures SkipStars(p, i) == |p| <==> Matches(p[i..], "")
    decreases |p| - i
  {
    if i < |p| && p[i] == '*' {
      SkipStarsMeaning(p, i + 1);
      StarFits(p, "", i, 0);
      assert ""[0..] == "";
    }
  }

  /** An accepting run has found either a match at the cursors or one at the saved star. */
  lemma {:induction false} RunSound(p: string, t: string, pi: nat, ti: nat, star: int, mt: nat)
    requires Cursors(p, t, pi, ti, star, mt)
    requires Run(p, t, pi, ti, star, mt)
    ensures Matches(p[pi..], t[ti..]) || (star >= 0 && FitsFrom(p[star + 1..], t, mt + 1))
    decreases |t| - mt, |t| - ti + |p| - pi
  {
    if ti == |t| {
      SkipStarsMeaning(p, pi);
      assert t[ti..] == "";
    } else if pi < |p| && (p[pi] == '?' || p[pi] == t[ti]) {
      RunSound(p, t, pi + 1, ti + 1, star, mt);
      if Matches(p[pi + 1..], t[ti + 1..]) {
        StepBack(p, t, pi, ti);
      }
    } else if pi < |p| && p[pi] == '*' {
      RunSound(p, t, pi + 1, ti, pi, ti);
      FitsFromSplit(p[pi + 1..], t, ti);
      StarFits(p, t, pi, ti);
    } else {
      RunSound(p, t, star + 1, mt + 1, star, mt + 1);
      FitsFromSplit(p[star + 1..], t, mt + 1);
    }
  }

  /** Whatever the pattern and the text, an accepted pair does match. */
  lemma GreedySound(pattern: string, text: string)
    ensures Greedy(pattern, text) ==> Matches(Fold(pattern), Fold(text))
  {
    var p, t := Fold(pattern), Fold(text);
    if Greedy(pattern, text) {
      RunSound(p, t, 0, 0, -1, 0);
      assert p[0..] == p && t[0..] == t;
    }
  }

  // ---------------------------------------------------------------- completeness

  /** The run of the pattern between the saved star and the cursor: star-free, so it takes
      exactly as many characters as it has. */
  ghost predicate Segment(p: string, pi: nat, ti: nat, star: int, mt: nat)
  {
    && star < pi <= |p|
    && (star >= 0 ==> ti - mt == pi - star - 1)
    && (star >= 0 ==> forall i :: star < i < pi ==> p[i] != '*')
  }

  lemma {:induction false} SegmentTakes(p: string, a: nat, b: nat, t: string, k: nat)
    requires a <= b <= |p| && k <= |t|
    requires forall i :: a <= i < b ==> p[i] != '*'
    requires Matches(p[a..], t[k..])
    ensures k + (b - a) <= |t| && Matches(p[b..], t[k + (b - a)..])
    decreases b - a
  {
    if a < b {
      assert k < |t|;
      SingleFits(p, t, a, k);
      SegmentTakes(p, a + 1, b, t, k + 1);
    }
  }

  /** A match that starts later at the saved star also starts later at the next star. */
  lemma LaterStarCovers(p: string, t: string, pi: nat, ti: nat, star: int, mt: nat)
    requires Cursors(p, t, pi, ti, star, mt) && Segment(p, pi, ti, star, mt)
    requires star >= 0 && pi < |p| && p[pi] == '*'
    requires FitsFrom(p[star + 1..], t, mt + 1)
    ensures Matches(p[pi..], t[ti..])
  {
    var k: nat :| mt + 1 <= k <= |t| && Matches(p[star + 1..], t[k..]);
    SegmentTakes(p, star + 1, pi, t, k);
    var k' := k + (pi - star - 1);
    StarFits(p, t, pi, k');
    var j: nat :| k' <= j <= |t| && Matches(p[pi + 1..], t[j..]);
    assert ti <= j;
    StarFits(p, t, pi, ti);
  }

  /** What a run has yet to find: a match here, or one further on for the saved star. */
  ghost predicate Hopeful(p: string, t: string, pi: nat, ti: nat, star: int, mt: nat)
    requires Cursors(p, t, pi, ti, star, mt)
  {
    Matches(p[pi..], t[ti..]) || (star >= 0 && FitsFrom(p[star + 1..], t, mt + 1))
  }

  lemma HopeAtEnd(p: string, t: string, pi: nat, star: int, mt: nat)
    requires Cursors(p, t, pi, |t|, star, mt) && Segment(p, pi, |t|, star, mt)
    requires Hopeful(p, t, pi, |t|, star, mt)
    ensures SkipStars(p, pi) == |p|
  {
    SkipStarsMeaning(p, pi);
    assert t[|t|..] == "";
    if !Matches(p[pi..], t[|t|..]) {
      var k: nat :| mt + 1 <= k <= |t| && Matches(p[star + 1..], t[k..]);
      SegmentTakes(p, star + 1, pi, t, k);
      assert false;
    }
  }

  lemma HopeAtStar(p: string, t: string, pi: nat, ti: nat, star: int, mt: nat)
    requires Cursors(p, t, pi, ti, star, mt) && Segment(p, pi, ti, star, mt)
    requires Hopeful(p, t, pi, ti, star, mt) && pi < |p| && p[pi] == '*'
    ensures Hopeful(p, t, pi + 1, ti, pi, ti)
  {
    if !Matches(p[pi..], t[ti..]) {
      LaterStarCovers(p, t, pi, ti, star, mt);
    }
    StarFits(p, t, pi, ti);
    FitsFromSplit(p[pi + 1..], t, ti);
  }

  lemma HopeAtLiteral(p: string, t: string, pi: nat, ti: nat, star: int, mt: nat)
    requires Cursors(p, t, pi, ti, star, mt) && Hopeful(p, t, pi, ti, star, mt)
    requires ti < |t| && pi < |p| && p[pi] != '*' && (p[pi] == '?' || p[pi] == t[ti])
    ensures Hopeful(p, t, pi + 1, ti + 1, star, mt)
  {
    SingleFits(p, t, pi, ti);
  }

  lemma MismatchFails(p: string, t: string, pi: nat, ti: nat)
    requires pi <= |p| && ti < |t| && (pi < |p| ==> p[pi] != '*' && p[pi] != '?' && p[pi] != t[ti])
    ensures !Matches(p[pi..], t[ti..])
  {
    if pi < |p| {
      SingleFits(p, t, pi, ti);
    }
  }

  lemma HopeAtMismatch(p: string, t: string, pi: nat, ti: nat, star: int, mt: nat)
    requires Cursors(p, t, pi, ti, star, mt) && Hopeful(p, t, pi, ti, star, mt)
    requires ti < |t| && !Matches(p[pi..], t[ti..])
    ensures star >= 0 && Hopeful(p, t, star + 1, mt + 1, star, mt + 1)
  {
    FitsFromSplit(p[star + 1..], t, mt + 1);
  }

  /** For a star-free text a run never overlooks a match. */
  lemma {:induction false} RunComplete(p: string, t: string, pi: nat, ti: nat, star: int, mt: nat)
    requires NoStar(t)
    requires Cursors(p, t, pi, ti, star, mt) && Segment(p, pi, ti, star, mt)
    requires Hopeful(p, t, pi, ti, star, mt)
    ensures Run(p, t, pi, ti, star, mt)
    decreases |t| - mt, |t| - ti + |p| - pi
  {
    if ti == |t| {
      HopeAtEnd(p, t, pi, star, mt);
    } else if pi < |p| && (p[pi] == '?' || p[pi] == t[ti]) {
      HopeAtLiteral(p, t, pi, ti, star, mt);
      RunComplete(p, t, pi + 1, ti + 1, star, mt);
    } else if pi < |p| && p[pi] == '*' {
      HopeAtStar(p, t, pi, ti, star, mt);
      RunComplete(p, t, pi + 1, ti, pi, ti);
    } else {
      MismatchFails(p, t, pi, ti);
      HopeAtMismatch(p, t, pi, ti, star, mt);
      RunComplete(p, t, star + 1, mt + 1, star, mt + 1);
    }
  }

  lemma GreedyComplete(pattern: string, text: string)
    requires NoStar(text)
    ensures Greedy(pattern, text) <==> Matches(Fold(pattern), Fold(text))
  {
    var p, t := Fold(pattern), Fold(text);
    GreedySound(pattern, text);
    FoldKeepsPunctuation(text, '*');
    assert p[0..] == p && t[0..] == t;
    if Matches(p, t) {
      RunComplete(p, t, 0, 0, -1, 0);
    }
  }

  // ---------------------------------------------------------------- exactly when it is complete

  /** Where the pattern agrees with the text position by position, the run is a literal walk. */
  lemma {:induction false} LiteralWalk(p: string, t: string, i: nat, n: nat)
    requires i <= n <= |t| && n <= |p|
    requires forall j :: i <= j < n ==> p[j] == '?' || p[j] == t[j]
    ensures Run(p, t, i, i, -1, 0) == Run(p, t, n, n, -1, 0)
    decreases n - i
  {
    if i < n {
      LiteralWalk(p, t, i + 1, n);
    }
  }

  lemma {:induction false} PrefixMatches(a: string, p: string, t: string)
    requires Matches(p, t)
    ensures Matches(a + p, a + t)
  {
    if a == "" {
      assert a + p == p && a + t == t;
    } else {
      PrefixMatches(a[1..], p, t);
      assert (a + p)[1..] == a[1..] + p && (a + t)[1..] == a[1..] + t;
      assert (a + p)[0..] == a + p && (a + t)[0..] == a + t;
      StepBack(a + p, a + t, 0, 0);
    }
  }

  lemma {:induction false} QuestionMarksMatch(n: nat, u: string)
    requires |u| == n
    ensures Matches(seq(n, _ => '?'), u)
  {
    if n > 0 {
      QuestionMarksMatch(n - 1, u[1..]);
      assert seq(n, _ => '?')[1..] == seq(n - 1, _ => '?');
    }
  }

  lemma StarMatchesAny(p: string, u: string, t: string)
    requires Matches(p, t)
    ensures Matches("*" + p, u + t)
  {
    assert ("*" + p)[1..] == p;
    assert (u + t)[|u|..] == t;
  }

  /** The pattern that defeats a text with a star at i: equal to the text up to and with
      that star, then one character too long. */
  function Overlong(text: string, i: nat): string
    requires i < |text|
  {
    text[..i + 1] + seq(|text| - i, _ => '?')
  }

  lemma OverlongRejected(text: string, i: nat)
    requires i < |text| && text[i] == '*'
    ensures !Greedy(Overlong(text, i), text)
  {
    var p := Overlong(text, i);
    var fp, ft := Fold(p), Fold(text);
    assert |p| == |text| + 1 && p[|text|] == '?';
    LiteralWalk(fp, ft, 0, |text|);
  }

  lemma OverlongFold(text: string, i: nat)
    requires i < |text| && text[i] == '*'
    ensures Fold(Overlong(text, i)) == Fold(text)[..i] + ("*" + seq(|text| - i, _ => '?'))
  {
    var l, r := Fold(Overlong(text, i)), Fold(text)[..i] + ("*" + seq(|text| - i, _ => '?'));
    assert |l| == |r|;
    forall j | 0 <= j < |l|
      ensures l[j] == r[j]
    {
      if j > i {
        assert Overlong(text, i)[j] == '?';
      }
    }
  }

  lemma StarredQuestionMarks(u: string)
    ensures Matches("*" + seq(|u|, _ => '?'), u)
  {
    QuestionMarksMatch(|u|, u);
    StarMatchesAny(seq(|u|, _ => '?'), "", u);
    assert "" + u == u;
  }

  lemma StarredTailMatches(f: string, i: nat)
    requires i <= |f|
    ensures Matches(f[..i] + ("*" + seq(|f| - i, _ => '?')), f)
  {
    StarredQuestionMarks(f[i..]);
    PrefixMatches(f[..i], "*" + seq(|f| - i, _ => '?'), f[i..]);
    assert f[..i] + f[i..] == f;
  }

  lemma OverlongMatches(text: string, i: nat)
    requires i < |text| && text[i] == '*'
    ensures Matches(Fold(Overlong(text, i)), Fold(text))
  {
    StarredTailMatches(Fold(text), i);
    OverlongFold(text, i);
  }

  /** The matcher is right about a text under every pattern exactly when the text has no star. */
  lemma TextExactness(text: string)
    ensures (forall p :: Greedy(p, text) <==> Matches(Fold(p), Fold(text))) <==> NoStar(text)
  {
    if NoStar(text) {
      forall p
        ensures Greedy(p, text) <==> Matches(Fold(p), Fold(text))
      {
        GreedyComplete(p, text);
      }
    } else {
      var i :| 0 <= i < |text| && text[i] == '*';
      OverlongRejected(text, i);
      OverlongMatches(text, i);
      var p := Overlong(text, i);
      assert !(Greedy(p, text) <==> Matches(Fold(p), Fold(text)));
    }
  }

  lemma {:induction false} NoStarRunExhausts(p: string, t: string, pi: nat, ti: nat)
    requires pi <= |p| && ti <= |t| && |t| - ti > |p| - pi
    requires forall i :: pi <= i < |p| ==> p[i] != '*'
    ensures !Run(p, t, pi, ti, -1, 0)
    decreases |p| - pi
  {
    if pi < |p| && (p[pi] == '?' || p[pi] == t[ti]) {
      NoStarRunExhausts(p, t, pi + 1, ti + 1);
    }
  }

  /** Without a star in the pattern the run is a plain comparison, whatever the text holds. */
  lemma {:induction false} NoStarRunExact(p: string, t: string, pi: nat, ti: nat)
    requires pi <= |p| && ti <= |t|
    requires forall i :: pi <= i < |p| ==> p[i] != '*'
    ensures Run(p, t, pi, ti, -1, 0) <==> Matches(p[pi..], t[ti..])
    decreases |p| - pi
  {
    if ti == |t| {
      SkipStarsMeaning(p, pi);
      assert t[ti..] == "";
    } else if pi < |p| {
      SingleFits(p, t, pi, ti);
      if p[pi] == '?' || p[pi] == t[ti] {
        NoStarRunExact(p, t, pi + 1, ti + 1);
      }
    }
  }

  /** The text that a pattern with a star misses: the pattern itself with one more
      character after its last star. */
  function Widened(pattern: string, i: nat): string
    requires i < |pattern|
  {
    pattern[..i + 1] + "a" + pattern[i + 1..]
  }

  lemma WidenedRejected(pattern: string, i: nat)
    requires i < |pattern| && pattern[i] == '*' && NoStar(pattern[i + 1..])
    ensures !Greedy(pattern, Widened(pattern, i))
  {
    var t := Widened(pattern, i);
    var fp, ft := Fold(pattern), Fold(t);
    LiteralWalk(fp, ft, 0, i + 1);
    FoldKeepsPunctuation(pattern, '*');
    assert forall j :: i + 1 <= j < |pattern| ==> pattern[j] == pattern[i + 1..][j - i - 1];
    NoStarRunExhausts(fp, ft, i + 1, i + 1);
  }

  lemma WidenedFold(pattern: string, i: nat)
    requires i < |pattern| && pattern[i] == '*'
    ensures Fold(pattern) == Fold(pattern)[..i] + ("*" + Fold(pattern)[i + 1..])
    ensures Fold(Widened(pattern, i)) == Fold(pattern)[..i] + ("*a" + Fold(pattern)[i + 1..])
  {
    var l, r := Fold(Widened(pattern, i)), Fold(pattern)[..i] + ("*a" + Fold(pattern)[i + 1..]);
    assert |l| == |r|;
    forall j | 0 <= j < |l|
      ensures l[j] == r[j]
    {
      if j > i + 1 {
        assert Widened(pattern, i)[j] == pattern[i + 1..][j - i - 2];
      }
    }
  }

  lemma WidenedMatches(pattern: string, i: nat)
    requires i < |pattern| && pattern[i] == '*'
    ensures Matches(Fold(pattern), Fold(Widened(pattern, i)))
  {
    var a, b := Fold(pattern)[..i], Fold(pattern)[i + 1..];
    PrefixMatches(b, "", "");
    assert b + "" == b;
    StarMatchesAny(b, "*a", b);
    PrefixMatches(a, "*" + b, "*a" + b);
    WidenedFold(pattern, i);
  }

  lemma {:induction false} LastStar(p: string) returns (i: nat)
    requires !NoStar(p)
    ensures i < |p| && p[i] == '*' && NoStar(p[i + 1..])
    decreases |p|
  {
    i := |p| - 1;
    if p[i] != '*' {
      var q := p[..i];
      assert p == q + [p[i]];
      i := LastStar(q);
      assert p[i + 1..] == q[i + 1..] + [p[|p| - 1]];
    }
  }

  /** The matcher is right about a pattern on every text exactly when the pattern has no star. */
  lemma PatternExactness(pattern: string)
    ensures (forall t :: Greedy(pattern, t) <==> Matches(Fold(pattern), Fold(t))) <==> NoStar(pattern)
  {
    if NoStar(pattern) {
      FoldKeepsPunctuation(pattern, '*');
      forall t
        ensures Greedy(pattern, t) <==> Matches(Fold(pattern), Fold(t))
      {
        NoStarRunExact(Fold(pattern), Fold(t), 0, 0);
        assert Fold(pattern)[0..] == Fold(pattern) && Fold(t)[0..] == Fold(t);
      }
    } else {
      var i := LastStar(pattern);
      WidenedRejected(pattern, i);
      WidenedMatches(pattern, i);
      var t := Widened(pattern, i);
      assert !(Greedy(pattern, t) <==> Matches(Fold(pattern), Fold(t)));
    }
  }
}
