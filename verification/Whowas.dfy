/** The WHOWAS history: per-nick deques bounded by 8, and one global eviction queue
    bounded by 4096 that does not learn of the per-nick trimming. */
module Whowas {
  import opened Wrappers
  import opened IrcText

  const MAX_PER_NICK := 8
  const MAX_TOTAL := 4096

  datatype Entry = Entry(nick: string, user: string, host: string, realname: string,
                         serverName: string, signoff: int)

  function Key(e: Entry): string { Fold(e.nick) }

  /** history: newest entry first for each key; order: keys of past records, newest first. */
  datatype Store = Store(history: map<string, seq<Entry>>, order: seq<string>)

  const EMPTY := Store(map[], [])

  // ---------------------------------------------------------------- one record

  function Held(st: Store, key: string): seq<Entry>
  {
    if key in st.history then st.history[key] else []
  }

  function Push(st: Store, e: Entry): Store
  {
    var dq := [e] + Held(st, Key(e));
    var kept := if |dq| > MAX_PER_NICK then dq[..|dq| - 1] else dq;
    Store(st.history[Key(e) := kept], [Key(e)] + st.order)
  }

  /** Drop the oldest key of the queue, and with it that nick's oldest entry if it has one. */
  function EvictOne(st: Store): Store
    requires st.order != []
  {
    var key := st.order[|st.order| - 1];
    var order := st.order[..|st.order| - 1];
    var held := Held(st, key);
    if held == [] then Store(st.history, order)
    else if |held| == 1 then Store(st.history - {key}, order)
    else Store(st.history[key := held[..|held| - 1]], order)
  }

  function Evict(st: Store): Store
    decreases |st.order|
  {
    if |st.order| > MAX_TOTAL then Evict(EvictOne(st)) else st
  }

  function Recorded(st: Store, e: Entry): Store
  {
    if e.nick == "" then st else Evict(Push(st, e))
  }

  class WhowasStore {
    var history: map<string, seq<Entry>>
    var order: seq<string>
    /** What was recorded, newest first. */
    ghost var log: seq<Entry>

    ghost function Value(): Store
      reads this
    {
      Store(history, order)
    }

    ghost predicate Valid()
      reads this
    {
      Value() == AfterLog(log)
    }

    constructor ()
      ensures Valid() && log == []
    {
      history, order, log := map[], [], [];
    }

    method Record(e: Entry)
      requires Valid()
      modifies this
      ensures Valid() && log == [e] + old(log)
      ensures Value() == Recorded(old(Value()), e)
    {
      log := [e] + log;
      assert log[1..] == old(log);
      if e.nick == "" {
        return;
      }
      var key := IrcCaseFold(e.nick);
      var dq := if key in history then history[key] else [];
      dq := [e] + dq;
      order := [key] + order;
      if |dq| > MAX_PER_NICK {
        dq := dq[..|dq| - 1];
      }
      history := history[key := dq];
      ghost var pushed := Push(old(Value()), e);
      assert Value() == pushed;
      while |order| > MAX_TOTAL
        invariant Evict(Value()) == Evict(pushed) && log == [e] + old(log)
        decreases |order|
      {
        DropOldest();
      }
    }

    /** The body of Record's eviction loop. */
    method DropOldest()
      requires order != []
      modifies `history, `order
      ensures Value() == EvictOne(old(Value()))
    {
      var oldest := order[|order| - 1];
      order := order[..|order| - 1];
      if oldest in history && history[oldest] != [] {
        history := history[oldest := history[oldest][..|history[oldest]| - 1]];
        if history[oldest] == [] {
          history := history - {oldest};
          assert history == old(history) - {oldest};
        }
      }
    }

    method Lookup(foldedKey: string) returns (r: Option<seq<Entry>>)
      ensures r == if Held(Value(), foldedKey) == [] then None else Some(Held(Value(), foldedKey))
    {
      if foldedKey !in history || history[foldedKey] == [] {
        return None;
      }
      return Some(history[foldedKey]);
    }
  }

  // ---------------------------------------------------------------- runs of records

  /** The store after the records of log, whose head is the newest. */
  function AfterLog(log: seq<Entry>): Store
  {
    if log == [] then EMPTY else Recorded(AfterLog(log[1..]), log[0])
  }

  ghost predicate Named(log: seq<Entry>)
  {
    forall i :: 0 <= i < |log| ==> log[i].nick != ""
  }

  function Keys(log: seq<Entry>): (r: seq<string>)
    ensures |r| == |log|
  {
    seq(|log|, i requires 0 <= i < |log| => Key(log[i]))
  }

  /** The entries of one key, in the order they stand in. */
  function Of(log: seq<Entry>, key: string): seq<Entry>
  {
    if log == [] then []
    else (if Key(log[0]) == key then [log[0]] else []) + Of(log[1..], key)
  }

  function Count(keys: seq<string>, key: string): nat
  {
    if keys == [] then 0 else (if keys[0] == key then 1 else 0) + Count(keys[1..], key)
  }

  function Take<T>(s: seq<T>, n: nat): seq<T> { if n <= |s| then s[..n] else s }

  function Window(log: seq<Entry>): seq<Entry> { Take(log, MAX_TOTAL) }

  lemma {:induction false} OfConcat(a: seq<Entry>, b: seq<Entry>, key: string)
    ensures Of(a + b, key) == Of(a, key) + Of(b, key)
  {
    if a == [] {
      assert a + b == b;
    } else {
      assert (a + b)[1..] == a[1..] + b;
      OfConcat(a[1..], b, key);
      Prepend(if Key(a[0]) == key then [a[0]] else [], Of(a[1..], key), Of(b, key));
    }
  }

  lemma {:induction false} CountConcat(a: seq<string>, b: seq<string>, key: string)
    ensures Count(a + b, key) == Count(a, key) + Count(b, key)
  {
    if a == [] {
      assert a + b == b;
    } else {
      assert (a + b)[1..] == a[1..] + b;
      CountConcat(a[1..], b, key);
    }
  }

  lemma {:induction false} OfCounts(log: seq<Entry>, key: string)
    ensures |Of(log, key)| == Count(Keys(log), key)
  {
    if log != [] {
      assert Keys(log)[1..] == Keys(log[1..]);
      OfCounts(log[1..], key);
    }
  }

  // ---------------------------------------------------------------- what every run keeps

  /** Each history is a nonempty newest-first prefix of its nick's log, no longer than 8 nor
      than the key's occurrences in the queue. */
  ghost predicate Bounded(st: Store, log: seq<Entry>)
  {
    && |st.order| <= MAX_TOTAL
    && forall k :: k in st.history ==> HistoryOk(st, log, k)
  }

  ghost predicate HistoryOk(st: Store, log: seq<Entry>, k: string)
  {
    && Held(st, k) != []
    && |Held(st, k)| <= MAX_PER_NICK
    && |Held(st, k)| <= Count(st.order, k)
    && Held(st, k) <= Of(log, k)
  }

  lemma PushKeeps(st: Store, log: seq<Entry>, e: Entry)
    requires forall k :: k in st.history ==> HistoryOk(st, log, k)
    ensures forall k :: k in Push(st, e).history ==> HistoryOk(Push(st, e), [e] + log, k)
  {
    var st' := Push(st, e);
    forall k | k in st'.history
      ensures HistoryOk(st', [e] + log, k)
    {
      assert ([e] + log)[1..] == log;
      assert st'.order[1..] == st.order;
      if k == Key(e) {
        var dq := [e] + Held(st, k);
        assert dq <= [e] + Of(log, k);
        assert Held(st', k) <= dq;
      } else {
        assert HistoryOk(st, log, k);
      }
    }
  }

  lemma EvictedHistory(st: Store, log: seq<Entry>, k: string)
    requires st.order != [] && k in EvictOne(st).history && HistoryOk(st, log, k)
    ensures HistoryOk(EvictOne(st), log, k)
  {
    var order, last := st.order[..|st.order| - 1], st.order[|st.order| - 1];
    assert st.order == order + [last];
    CountConcat(order, [last], k);
  }

  lemma EvictOneKeeps(st: Store, log: seq<Entry>)
    requires st.order != []
    requires forall k :: k in st.history ==> HistoryOk(st, log, k)
    ensures forall k :: k in EvictOne(st).history ==> HistoryOk(EvictOne(st), log, k)
  {
    forall k | k in EvictOne(st).history
      ensures HistoryOk(EvictOne(st), log, k)
    {
      EvictedHistory(st, log, k);
    }
  }

  /** One record on a store whose queue is the window of the log so far. */
  lemma QueueStep(st: Store, log: seq<Entry>, e: Entry)
    requires st.order == Keys(Window(log)) && e.nick != ""
    ensures Recorded(st, e).order == Keys(Window([e] + log))
    ensures Recorded(st, e) ==
            if |log| < MAX_TOTAL then Push(st, e) else EvictOne(Push(st, e))
  {
    var pushed := Push(st, e);
    assert pushed.order == Take(Keys([e] + log), MAX_TOTAL + 1);
    if |log| >= MAX_TOTAL {
      assert Evict(pushed) == EvictOne(pushed);
    }
  }

  lemma {:induction false} RunKeeps(log: seq<Entry>)
    requires Named(log)
    ensures Bounded(AfterLog(log), log)
    ensures AfterLog(log).order == Keys(Window(log))
  {
    if log == [] {
      assert Keys(Window(log)) == [];
    } else {
      var older := log[1..];
      assert [log[0]] + older == log;
      RunKeeps(older);
      PushKeeps(AfterLog(older), older, log[0]);
      QueueStep(AfterLog(older), older, log[0]);
      if |older| >= MAX_TOTAL {
        EvictOneKeeps(Push(AfterLog(older), log[0]), log);
      }
    }
  }

  // ---------------------------------------------------------------- total size

  ghost function Pick(h: map<string, seq<Entry>>): string
    requires h != map[]
    ensures Pick(h) in h
  {
    var k :| k in h; k
  }

  /** How many entries the whole store holds. */
  ghost function Entries(h: map<string, seq<Entry>>): nat
    decreases |h|
  {
    if h == map[] then 0
    else
      var k := Pick(h);
      assert (h - {k}).Keys == h.Keys - {k};
      |h[k]| + Entries(h - {k})
  }

  function Without(keys: seq<string>, key: string): seq<string>
  {
    if keys == [] then []
    else (if keys[0] == key then [] else [keys[0]]) + Without(keys[1..], key)
  }

  lemma {:induction false} WithoutCounts(keys: seq<string>, key: string, k: string)
    ensures |Without(keys, key)| == |keys| - Count(keys, key)
    ensures k != key ==> Count(Without(keys, key), k) == Count(keys, k)
  {
    if keys != [] {
      WithoutCounts(keys[1..], key, k);
      var rest := Without(keys[1..], key);
      if keys[0] == key {
        assert Without(keys, key) == rest;
      } else {
        assert ([keys[0]] + rest)[1..] == rest;
      }
    }
  }

  lemma {:induction false} TotalBound(h: map<string, seq<Entry>>, order: seq<string>)
    requires forall k :: k in h ==> |h[k]| <= Count(order, k)
    ensures Entries(h) <= |order|
    decreases |h|
  {
    if h != map[] {
      var k := Pick(h);
      assert (h - {k}).Keys == h.Keys - {k};
      forall j | j in h - {k}
        ensures |h[j]| <= Count(Without(order, k), j)
      {
        WithoutCounts(order, k, j);
      }
      TotalBound(h - {k}, Without(order, k));
      WithoutCounts(order, k, k);
    }
  }

  /** However many records were made, at most 4096 entries are held. */
  lemma StoreBounded(log: seq<Entry>)
    requires Named(log)
    ensures Entries(AfterLog(log).history) <= MAX_TOTAL
    ensures forall k :: |Held(AfterLog(log), k)| <= MAX_PER_NICK
  {
    RunKeeps(log);
    var st := AfterLog(log);
    forall k | k in st.history
      ensures |st.history[k]| <= Count(st.order, k)
    {
      assert HistoryOk(st, log, k);
    }
    TotalBound(st.history, st.order);
    forall k
      ensures |Held(st, k)| <= MAX_PER_NICK
    {
      if k in st.history {
        assert HistoryOk(st, log, k);
      }
    }
  }

  // ---------------------------------------------------------------- exactness

  /** Every lookup answers with just the entries of that nick in the last 4096 records. */
  ghost predicate Exact(log: seq<Entry>)
  {
    forall k :: Held(AfterLog(log), k) == Of(Window(log), k)
  }

  ghost predicate AlwaysExact(log: seq<Entry>)
  {
    forall n :: 0 <= n <= |log| ==> Exact(log[n..])
  }

  /** One more record than the queue keeps, starting n records back. */
  function Span(log: seq<Entry>, n: nat): seq<Entry>
    requires n <= |log|
  {
    Take(log[n..], MAX_TOTAL + 1)
  }

  /** No key occurs more than 8 times in any 4097 consecutive records. */
  ghost predicate Sparse(log: seq<Entry>)
  {
    forall n, k :: 0 <= n <= |log| ==> Count(Keys(Span(log, n)), k) <= MAX_PER_NICK
  }

  lemma SparseTail(log: seq<Entry>)
    requires Sparse(log) && log != []
    ensures Sparse(log[1..])
  {
    forall n, k | 0 <= n <= |log| - 1
      ensures Count(Keys(Span(log[1..], n)), k) <= MAX_PER_NICK
    {
      assert log[1..][n..] == log[n + 1..];
      assert Span(log[1..], n) == Span(log, n + 1);
    }
  }

  lemma PushExact(st: Store, w: seq<Entry>, e: Entry, k: string)
    requires forall j :: Held(st, j) == Of(w, j)
    requires Count(Keys([e] + w), Key(e)) <= MAX_PER_NICK
    ensures Held(Push(st, e), k) == Of([e] + w, k)
  {
    assert ([e] + w)[1..] == w;
    OfCounts([e] + w, Key(e));
  }

  lemma OfDropLast(w: seq<Entry>, k: string)
    requires w != []
    ensures Of(w, k) == Of(w[..|w| - 1], k) + if Key(w[|w| - 1]) == k then [w[|w| - 1]] else []
  {
    var last := w[|w| - 1];
    assert w == w[..|w| - 1] + [last];
    OfConcat(w[..|w| - 1], [last], k);
    assert [last][1..] == [];
    assert Of([last], k) == (if Key(last) == k then [last] else []) + Of([], k);
  }

  function DropLast(es: seq<Entry>): seq<Entry> { if es == [] then [] else es[..|es| - 1] }

  lemma HeldAfterEvict(st: Store, k: string)
    requires st.order != []
    ensures Held(EvictOne(st), k) ==
            if k == st.order[|st.order| - 1] then DropLast(Held(st, k)) else Held(st, k)
  {
  }

  lemma EvictExact(st: Store, w: seq<Entry>, k: string)
    requires w != [] && st.order == Keys(w)
    requires forall j :: Held(st, j) == Of(w, j)
    ensures Held(EvictOne(st), k) == Of(w[..|w| - 1], k)
  {
    HeldAfterEvict(st, k);
    OfDropLast(w, k);
  }

  /** An exact store stays exact across a record that crowds no span. */
  lemma ExactStep(st: Store, log: seq<Entry>, e: Entry, k: string)
    requires st.order == Keys(Window(log)) && e.nick != ""
    requires forall j :: Held(st, j) == Of(Window(log), j)
    requires Count(Keys([e] + Window(log)), Key(e)) <= MAX_PER_NICK
    ensures Held(Recorded(st, e), k) == Of(Window([e] + log), k)
  {
    var w := [e] + Window(log);
    var pushed := Push(st, e);
    forall j
      ensures Held(pushed, j) == Of(w, j)
    {
      PushExact(st, Window(log), e, j);
    }
    assert pushed.order == Keys(w);
    WindowStep(log, e);
    QueueStep(st, log, e);
    if |log| >= MAX_TOTAL {
      EvictExact(pushed, w, k);
    }
  }

  lemma WindowStep(log: seq<Entry>, e: Entry)
    ensures var w := [e] + Window(log);
            Window([e] + log) == if |log| < MAX_TOTAL then w else w[..|w| - 1]
  {
  }

  lemma {:induction false} SparseIsExact(log: seq<Entry>)
    requires Named(log) && Sparse(log)
    ensures Exact(log)
  {
    if log != [] {
      var e, older := log[0], log[1..];
      assert [e] + older == log;
      SparseTail(log);
      SparseIsExact(older);
      RunKeeps(older);
      assert log[0..] == log;
      assert Span(log, 0) == [e] + Window(older);
      forall k
        ensures Held(AfterLog(log), k) == Of(Window(log), k)
      {
        ExactStep(AfterLog(older), older, e, k);
      }
    }
  }

  /** A nick seen more often than its deque can hold is already answered short. */
  lemma CrowdedIsInexact(log: seq<Entry>, k: string)
    requires Named(log) && Count(Keys(Window(log)), k) > MAX_PER_NICK
    ensures !Exact(log)
  {
    StoreBounded(log);
    OfCounts(Window(log), k);
    assert Held(AfterLog(log), k) != Of(Window(log), k);
  }

  /** At the ninth record of a nick inside 4097 the older window holds eight of them. */
  lemma EightBefore(log: seq<Entry>, k: string)
    requires |log| > MAX_TOTAL && Key(log[0]) == k && Key(log[MAX_TOTAL]) == k
    requires Count(Keys(Window(log)), k) == MAX_PER_NICK
    ensures |Of(Window(log[1..]), k)| == MAX_PER_NICK && |Of(Window(log), k)| == MAX_PER_NICK
  {
    var wo := Window(log[1..]);
    assert [log[0]] + wo == Window(log) + [log[MAX_TOTAL]];
    OfConcat([log[0]], wo, k);
    OfConcat(Window(log), [log[MAX_TOTAL]], k);
    OfCounts(Window(log), k);
  }

  lemma FullQueue(log: seq<Entry>)
    requires Named(log) && |log| > MAX_TOTAL
    ensures var st := Push(AfterLog(log[1..]), log[0]);
            |st.order| == MAX_TOTAL + 1 && st.order[MAX_TOTAL] == Key(log[MAX_TOTAL])
  {
    RunKeeps(log[1..]);
    assert Window(log[1..])[MAX_TOTAL - 1] == log[MAX_TOTAL];
  }

  /** The ninth record of a nick inside 4097 loses two entries: one to the per-nick bound,
      one to the queue, which still carries the key of the entry already dropped. */
  lemma NinthLosesTwo(log: seq<Entry>, k: string)
    requires Named(log) && |log| > MAX_TOTAL
    requires Key(log[0]) == k && Key(log[MAX_TOTAL]) == k
    requires Count(Keys(Window(log)), k) == MAX_PER_NICK
    requires Exact(log[1..])
    ensures !Exact(log)
  {
    EightBefore(log, k);
    FullQueue(log);
    assert |Held(AfterLog(log[1..]), k)| == MAX_PER_NICK;
    var st := Push(AfterLog(log[1..]), log[0]);
    assert |Held(st, k)| == MAX_PER_NICK;
    assert Evict(st) == EvictOne(st);
    assert |Held(EvictOne(st), k)| == MAX_PER_NICK - 1;
    assert Held(AfterLog(log), k) != Of(Window(log), k);
  }

  /** A crowded span spoils the answers at its newest record or just before. */
  lemma CrowdedSpan(log: seq<Entry>, k: string)
    requires Named(log) && Count(Keys(Span(log, 0)), k) > MAX_PER_NICK
    ensures !Exact(log) || (log != [] && !Exact(log[1..]))
  {
    assert log[0..] == log;
    var s := Span(log, 0);
    if |log| <= MAX_TOTAL {
      assert s == Window(log);
      CrowdedIsInexact(log, k);
    } else {
      var last := log[MAX_TOTAL];
      assert s == Window(log) + [last];
      assert Keys(s) == Keys(Window(log)) + [Key(last)];
      CountConcat(Keys(Window(log)), [Key(last)], k);
      if Count(Keys(Window(log)), k) > MAX_PER_NICK {
        CrowdedIsInexact(log, k);
      } else {
        assert Key(last) == k;
        if Key(log[0]) == k {
          if Exact(log[1..]) {
            NinthLosesTwo(log, k);
          }
        } else {
          assert Keys(s)[1..] == Keys(Window(log[1..]));
          CrowdedIsInexact(log[1..], k);
        }
      }
    }
  }

  /** WHOWAS is exact at every moment of a run if and only if no nick is recorded more than
      8 times within any 4097 consecutive records. */
  lemma ExactnessCondition(log: seq<Entry>)
    requires Named(log)
    ensures AlwaysExact(log) <==> Sparse(log)
  {
    if Sparse(log) {
      forall n | 0 <= n <= |log|
        ensures Exact(log[n..])
      {
        SparseSuffix(log, n);
        SparseIsExact(log[n..]);
      }
    } else {
      var n, k :| 0 <= n <= |log| && Count(Keys(Span(log, n)), k) > MAX_PER_NICK;
      assert log[n..][0..] == log[n..];
      assert Span(log[n..], 0) == Span(log, n);
      CrowdedSpan(log[n..], k);
      if !Exact(log[n..]) {
      } else {
        assert log[n..][1..] == log[n + 1..];
        assert !Exact(log[n + 1..]);
      }
    }
  }

  lemma {:induction false} SparseSuffix(log: seq<Entry>, n: nat)
    requires Sparse(log) && n <= |log|
    ensures Sparse(log[n..])
    decreases n
  {
    if n == 0 {
      assert log[0..] == log;
    } else {
      SparseTail(log);
      SparseSuffix(log[1..], n - 1);
      assert log[1..][n - 1..] == log[n..];
    }
  }

  // ---------------------------------------------------------------- unnamed clients

  function OnlyNamed(cs: seq<Entry>): seq<Entry>
  {
    if cs == [] then []
    else (if cs[0].nick == "" then [] else [cs[0]]) + OnlyNamed(cs[1..])
  }

  lemma {:induction false} OnlyNamedIsNamed(cs: seq<Entry>)
    ensures Named(OnlyNamed(cs))
  {
    if cs != [] {
      OnlyNamedIsNamed(cs[1..]);
    }
  }

  /** Connections that never chose a nick leave no trace. */
  lemma {:induction false} UnnamedLeaveNoTrace(cs: seq<Entry>)
    ensures AfterLog(cs) == AfterLog(OnlyNamed(cs))
  {
    if cs != [] {
      var rest := OnlyNamed(cs[1..]);
      UnnamedLeaveNoTrace(cs[1..]);
      if cs[0].nick == "" {
        assert OnlyNamed(cs) == rest;
      } else {
        assert OnlyNamed(cs) == [cs[0]] + rest;
        assert OnlyNamed(cs)[1..] == rest;
      }
    }
  }
}
