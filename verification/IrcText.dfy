/** Byte-string utilities shared by the whole server: the RFC 1459 case mapping,
    the syntax of nicknames, usernames and channel names, and field splitting. */
module IrcText {

  const MAX_NICKLEN := 30
  const MAX_USERLEN := 16
  const MAX_CHANNELLEN := 64

  // ---------------------------------------------------------------- case folding

  /** The rfc1459 mapping of one byte: letters, and the four bracket-like characters. */
  function FoldChar(c: char): (r: char)
    ensures r == c || c in "[]\\^" || 'A' <= c <= 'Z'
    ensures r !in "[]\\^" && !('A' <= r <= 'Z')
  {
    match c
    case '[' => '{'
    case ']' => '}'
    case '\\' => '|'
    case '^' => '~'
    case _ => if 'A' <= c <= 'Z' then c - 'A' + 'a' else c
  }

  /** The case-folded form of a string: the key under which nicks and channels are stored. */
  function Fold(s: string): (r: string)
    ensures |r| == |s|
    ensures forall i :: 0 <= i < |s| ==> r[i] == FoldChar(s[i])
  {
    seq(|s|, i requires 0 <= i < |s| => FoldChar(s[i]))
  }

  method IrcCaseFold(s: string) returns (out: string)
    ensures out == Fold(s)
  {
    out := "";
    for i := 0 to |s|
      invariant |out| == i
      invariant forall j :: 0 <= j < i ==> out[j] == FoldChar(s[j])
    {
      out := out + [FoldChar(s[i])];
    }
  }

  lemma FoldIdempotent(s: string)
    ensures Fold(Fold(s)) == Fold(s)
  {
  }

  lemma FoldConcat(a: string, b: string)
    ensures Fold(a + b) == Fold(a) + Fold(b)
  {
    assert forall i :: 0 <= i < |a| + |b| ==> (a + b)[i] == if i < |a| then a[i] else b[i - |a|];
  }

  /** Folding neither creates nor removes a character outside the mapping's range and domain;
      in particular glob wildcards and the separators of a user mask are untouched. */
  lemma FoldKeepsPunctuation(s: string, c: char)
    requires c in "*?!@"
    ensures forall i :: 0 <= i < |s| ==> (Fold(s)[i] == c <==> s[i] == c)
    ensures c in Fold(s) <==> c in s
  {
    assert forall i :: 0 <= i < |s| ==> (FoldChar(s[i]) == c <==> s[i] == c);
    if c in s {
      var i :| 0 <= i < |s| && s[i] == c;
      assert Fold(s)[i] == c;
    }
  }

  method SameNick(a: string, b: string) returns (same: bool)
    ensures same <==> Fold(a) == Fold(b)
  {
    if |a| != |b| {
      return false;
    }
    for i := 0 to |a|
      invariant forall j :: 0 <= j < i ==> FoldChar(a[j]) == FoldChar(b[j])
    {
      if FoldChar(a[i]) != FoldChar(b[i]) {
        assert Fold(a)[i] != Fold(b)[i];
        return false;
      }
    }
    return true;
  }

  // ---------------------------------------------------------------- validators

  predicate IsNickSpecial(c: char) { c in "[]\\`_^{|}" }

  predicate IsAlpha(c: char) { 'A' <= c <= 'Z' || 'a' <= c <= 'z' }

  predicate IsDigit(c: char) { '0' <= c <= '9' }

  predicate IsControl(c: char) { c == '\0' || c == '\r' || c == '\n' }

  predicate NickTail(c: char) { IsAlpha(c) || IsDigit(c) || IsNickSpecial(c) || c == '-' }

  predicate ValidNick(nick: string)
  {
    && 0 < |nick| <= MAX_NICKLEN
    && (IsAlpha(nick[0]) || IsNickSpecial(nick[0]))
    && forall i :: 1 <= i < |nick| ==> NickTail(nick[i])
  }

  predicate UserChar(c: char) { !IsControl(c) && c !in " @!:" }

  predicate ValidUsername(u: string)
  {
    0 < |u| <= MAX_USERLEN && forall i :: 0 <= i < |u| ==> UserChar(u[i])
  }

  predicate ChannelChar(c: char) { !IsControl(c) && c != ' ' && c != ',' && c != 7 as char }

  predicate IsChannelName(t: string) { t != "" && (t[0] == '#' || t[0] == '&') }

  predicate ValidChannelName(ch: string)
  {
    && 2 <= |ch| <= MAX_CHANNELLEN
    && (ch[0] == '#' || ch[0] == '&')
    && forall i :: 0 <= i < |ch| ==> ChannelChar(ch[i])
  }

  /** The characters of a nick are those from A to the closing brace, which are the letters and the
      special characters; behind the first, digits and the hyphen as well. */
  lemma NickGrammar(nick: string)
    ensures ValidNick(nick) <==>
            && 1 <= |nick| <= 30 && 'A' <= nick[0] <= '}'
            && forall i :: 0 <= i < |nick| ==> 'A' <= nick[i] <= '}' || '0' <= nick[i] <= '9' || nick[i] == '-'
  {
    forall c: char
      ensures IsAlpha(c) || IsNickSpecial(c) <==> 'A' <= c <= '}'
    {
    }
  }

  lemma NoneOf(name: string, cs: set<char>)
    ensures (forall c :: c in cs ==> c !in name) <==> forall i :: 0 <= i < |name| ==> name[i] !in cs
  {
    forall i | 0 <= i < |name|
      ensures name[i] in name
    {
    }
  }

  /** What a user name must not hold. */
  lemma UsernameGrammar(name: string)
    ensures var barred := {'\0', '\r', '\n', ' ', '@', '!', ':'};
            ValidUsername(name) <==> 1 <= |name| <= 16 && forall c :: c in barred ==> c !in name
  {
    var barred := {'\0', '\r', '\n', ' ', '@', '!', ':'};
    NoneOf(name, barred);
    assert forall i :: 0 <= i < |name| ==> (UserChar(name[i]) <==> name[i] !in barred);
  }

  /** How a channel name begins, and what it must not hold. */
  lemma ChannelNameGrammar(name: string)
    ensures var barred := {'\0', '\r', '\n', ' ', ',', 7 as char};
            ValidChannelName(name) <==>
              2 <= |name| <= 64 && name[0] in {'#', '&'} && forall c :: c in barred ==> c !in name
  {
    var barred := {'\0', '\r', '\n', ' ', ',', 7 as char};
    NoneOf(name, barred);
    assert forall i :: 0 <= i < |name| ==> (ChannelChar(name[i]) <==> name[i] !in barred);
  }

  method IsValidNick(nick: string) returns (ok: bool)
    ensures ok <==> ValidNick(nick)
  {
    if |nick| == 0 || |nick| > MAX_NICKLEN {
      return false;
    }
    if !IsAlpha(nick[0]) && !IsNickSpecial(nick[0]) {
      return false;
    }
    for i := 1 to |nick|
      invariant forall j :: 1 <= j < i ==> NickTail(nick[j])
    {
      if !IsAlpha(nick[i]) && !IsDigit(nick[i]) && !IsNickSpecial(nick[i]) && nick[i] != '-' {
        assert !NickTail(nick[i]);
        return false;
      }
    }
    return true;
  }

  method IsValidUsername(u: string) returns (ok: bool)
    ensures ok <==> ValidUsername(u)
  {
    if |u| == 0 || |u| > MAX_USERLEN {
      return false;
    }
    for i := 0 to |u|
      invariant forall j :: 0 <= j < i ==> UserChar(u[j])
    {
      if IsControl(u[i]) || u[i] == ' ' || u[i] == '@' || u[i] == '!' || u[i] == ':' {
        assert !UserChar(u[i]);
        return false;
      }
    }
    return true;
  }

  method IsValidChannelName(ch: string) returns (ok: bool)
    ensures ok <==> ValidChannelName(ch)
  {
    if |ch| < 2 || |ch| > MAX_CHANNELLEN {
      return false;
    }
    if ch[0] != '#' && ch[0] != '&' {
      return false;
    }
    for i := 0 to |ch|
      invariant forall j :: 0 <= j < i ==> ChannelChar(ch[j])
    {
      if IsControl(ch[i]) || ch[i] == ' ' || ch[i] == ',' || ch[i] == 7 as char {
        assert !ChannelChar(ch[i]);
        return false;
      }
    }
    return true;
  }

  /** A valid nick holds none of the characters that structure a user mask or a glob,
      and its folded form is never empty. */
  lemma ValidNickIsPlain(nick: string)
    requires ValidNick(nick)
    ensures forall c :: c in "*?!@ .:" ==> c !in nick
    ensures Fold(nick) != ""
  {
    assert forall i :: 0 <= i < |nick| ==> NickTail(nick[i]);
    assert forall c :: NickTail(c) ==> c !in "*?!@ .:";
  }

  // ---------------------------------------------------------------- searching and splitting

  /** Index of the first occurrence of c at or after i, or |s| when there is none. */
  function Find(s: string, c: char, i: nat): (r: nat)
    requires i <= |s|
    ensures i <= r <= |s|
    ensures r < |s| ==> s[r] == c
    decreases |s| - i
  {
    if i == |s| || s[i] == c then i else Find(s, c, i + 1)
  }

  lemma {:induction false} FindFirst(s: string, c: char, i: nat)
    requires i <= |s|
    ensures forall j :: i <= j < Find(s, c, i) ==> s[j] != c
    decreases |s| - i
  {
    if i < |s| && s[i] != c {
      FindFirst(s, c, i + 1);
    }
  }

  /** b is what s holds from n on. */
  ghost predicate SuffixAt(s: string, n: nat, b: string)
  {
    |s| == n + |b| && forall i {:trigger b[i]} :: 0 <= i < |b| ==> s[n + i] == b[i]
  }

  lemma {:induction false} FindShift(s: string, n: nat, b: string, c: char, i: nat)
    requires SuffixAt(s, n, b) && i <= |b|
    ensures Find(s, c, n + i) == n + Find(b, c, i)
    decreases |b| - i
  {
    if i < |b| && b[i] != c {
      FindShift(s, n, b, c, i + 1);
    }
  }

  lemma {:induction false} FindUnique(s: string, c: char, i: nat, r: nat)
    requires i <= r <= |s|
    requires forall j :: i <= j < r ==> s[j] != c
    requires r < |s| ==> s[r] == c
    ensures Find(s, c, i) == r
    decreases r - i
  {
    if i < r {
      FindUnique(s, c, i + 1, r);
    }
  }

  /** The first occurrence is where a prefix without the character ends. */
  lemma FindPast(a: string, c: char, rest: string)
    requires c !in a
    ensures Find(a + ([c] + rest), c, 0) == |a|
  {
    FindUnique(a + ([c] + rest), c, 0, |a|);
  }

  /** A string that a split on delim can yield. */
  predicate IsField(p: string, delim: char) { p != "" && delim !in p }

  predicate AllFields(ps: seq<string>, delim: char)
  {
    forall i :: 0 <= i < |ps| ==> IsField(ps[i], delim)
  }

  function Piece(s: string, start: nat, end: nat): seq<string>
    requires start <= end <= |s|
  {
    if end > start then [s[start..end]] else []
  }

  /** The nonempty maximal runs between delimiters from an offset on, left to right. */
  function SplitFrom(s: string, delim: char, start: nat): seq<string>
    requires start <= |s| + 1
    decreases |s| + 1 - start
  {
    if start > |s| then []
    else
      var e := Find(s, delim, start);
      Piece(s, start, e) + SplitFrom(s, delim, e + 1)
  }

  function Split(s: string, delim: char): seq<string> { SplitFrom(s, delim, 0) }

  lemma {:induction false} SplitYieldsFields(s: string, delim: char, start: nat)
    requires start <= |s| + 1
    ensures AllFields(SplitFrom(s, delim, start), delim)
    decreases |s| + 1 - start
  {
    if start <= |s| {
      FindFirst(s, delim, start);
      SplitYieldsFields(s, delim, Find(s, delim, start) + 1);
    }
  }

  lemma Prepend<T>(a: seq<T>, b: seq<T>, c: seq<T>)
    ensures a + (b + c) == (a + b) + c
  {
  }

  /** out and what the split yields from start on make up the whole. */
  ghost predicate SplitUpTo(whole: seq<string>, s: string, delim: char, out: seq<string>, start: nat)
  {
    start <= |s| + 1 && out + SplitFrom(s, delim, start) == whole
  }

  lemma SplitOneMore(whole: seq<string>, s: string, delim: char, out: seq<string>, start: nat, end: nat,
                     longer: seq<string>)
    requires start <= |s| && SplitUpTo(whole, s, delim, out, start) && end == Find(s, delim, start)
    requires longer == if end > start then out + [s[start..end]] else out
    ensures SplitUpTo(whole, s, delim, longer, end + 1)
  {
    SplitUnfold(s, delim, start, end);
    Prepend(out, Piece(s, start, end), SplitFrom(s, delim, end + 1));
    if end == start {
      assert out + [] == out;
    }
  }

  lemma SplitStarts(s: string, delim: char) returns (whole: seq<string>)
    ensures whole == Split(s, delim) && SplitUpTo(whole, s, delim, [], 0)
  {
    whole := Split(s, delim);
    assert [] + whole == whole;
  }

  lemma SplitEnds(whole: seq<string>, s: string, delim: char, out: seq<string>)
    requires SplitUpTo(whole, s, delim, out, |s| + 1)
    ensures out == whole
  {
    assert out + [] == out;
  }

  method SplitFields(s: string, delim: char) returns (out: seq<string>)
    ensures out == Split(s, delim)
  {
    out := [];
    var start := 0;
    ghost var whole := SplitStarts(s, delim);
    while start <= |s|
      invariant 0 <= start <= |s| + 1
      invariant SplitUpTo(whole, s, delim, out, start)
      decreases |s| + 1 - start
    {
      var end := Find(s, delim, start);
      ghost var before := out;
      if end > start {
        out := out + [s[start..end]];
      }
      SplitOneMore(whole, s, delim, before, start, end, out);
      start := end + 1;
    }
    SplitEnds(whole, s, delim, out);
  }

  lemma SplitUnfold(s: string, delim: char, start: nat, e: nat)
    requires start <= |s| && e == Find(s, delim, start)
    ensures SplitFrom(s, delim, start) == Piece(s, start, e) + SplitFrom(s, delim, e + 1)
  {
  }

  lemma PieceShift(s: string, n: nat, b: string, i: nat, e: nat)
    requires SuffixAt(s, n, b) && i <= e <= |b|
    ensures Piece(s, n + i, n + e) == Piece(b, i, e)
  {
    assert forall j :: i <= j < e ==> s[n + i..n + e][j - i] == b[j];
    assert s[n + i..n + e] == b[i..e];
  }

  /** Two splits agree when their first pieces and what follows them do. */
  lemma SplitAgrees(s: string, b: string, delim: char, i: nat, e: nat, j: nat, f: nat)
    requires i <= |s| && j <= |b| && e == Find(s, delim, i) && f == Find(b, delim, j)
    requires Piece(s, i, e) == Piece(b, j, f) && SplitFrom(s, delim, e + 1) == SplitFrom(b, delim, f + 1)
    ensures SplitFrom(s, delim, i) == SplitFrom(b, delim, j)
  {
    SplitUnfold(s, delim, i, e);
    SplitUnfold(b, delim, j, f);
  }

  lemma SplitShiftStep(s: string, n: nat, b: string, delim: char, i: nat, e: nat)
    requires SuffixAt(s, n, b) && i <= |b| && e == Find(b, delim, i)
    requires SplitFrom(s, delim, n + e + 1) == SplitFrom(b, delim, e + 1)
    ensures SplitFrom(s, delim, n + i) == SplitFrom(b, delim, i)
  {
    var i', e' := n + i, n + e;
    assert e' == Find(s, delim, i') by {
      FindShift(s, n, b, delim, i);
    }
    assert Piece(s, i', e') == Piece(b, i, e) by {
      PieceShift(s, n, b, i, e);
    }
    SplitAgrees(s, b, delim, i', e', i, e);
  }

  lemma {:induction false} SplitShift(s: string, n: nat, b: string, delim: char, i: nat)
    requires SuffixAt(s, n, b) && i <= |b| + 1
    ensures SplitFrom(s, delim, n + i) == SplitFrom(b, delim, i)
    decreases |b| + 1 - i
  {
    if i <= |b| {
      var e := Find(b, delim, i);
      SplitShift(s, n, b, delim, e + 1);
      SplitShiftStep(s, n, b, delim, i, e);
    }
  }

  /** The pieces written one after the other with a single separator between them. */
  function Join(ps: seq<string>, sep: char): (r: string)
  {
    if ps == [] then ""
    else if |ps| == 1 then ps[0]
    else ps[0] + [sep] + Join(ps[1..], sep)
  }

  function Field(p: string): seq<string> { if p == "" then [] else [p] }

  lemma SplitOne(p: string, sep: char)
    requires sep !in p
    ensures Split(p, sep) == Field(p)
  {
    FindUnique(p, sep, 0, |p|);
    assert p[0..|p|] == p;
    assert SplitFrom(p, sep, |p| + 1) == [];
  }

  /** The first piece of a joined string, up to its separator. */
  lemma SplitFirst(p: string, sep: char, rest: string)
    requires sep !in p
    ensures Split(p + [sep] + rest, sep) == Field(p) + Split(rest, sep)
  {
    var s := p + [sep] + rest;
    assert |p| == Find(s, sep, 0) && s[0..|p|] == p by {
      assert forall i :: 0 <= i < |p| ==> s[i] == p[i];
      FindUnique(s, sep, 0, |p|);
    }
    assert SplitFrom(s, sep, |p| + 1) == Split(rest, sep) by {
      SplitShift(s, |p| + 1, rest, sep, 0);
    }
    SplitUnfold(s, sep, 0, |p|);
  }

  /** Splitting undoes joining, for pieces a split could have produced. */
  lemma {:induction false} SplitJoin(ps: seq<string>, sep: char)
    requires AllFields(ps, sep)
    ensures Split(Join(ps, sep), sep) == ps
  {
    if ps == [] {
      SplitOne("", sep);
    } else {
      assert IsField(ps[0], sep);
      assert ps == [ps[0]] + ps[1..];
      if |ps| == 1 {
        SplitOne(ps[0], sep);
      } else {
        SplitFirst(ps[0], sep, Join(ps[1..], sep));
        SplitJoin(ps[1..], sep);
      }
    }
  }

  lemma {:induction false} JoinSnoc(ps: seq<string>, p: string, sep: char)
    ensures Join(ps + [p], sep) == if ps == [] then p else Join(ps, sep) + [sep] + p
  {
    if |ps| > 1 {
      assert (ps + [p])[1..] == ps[1..] + [p];
      JoinSnoc(ps[1..], p, sep);
    } else if |ps| == 1 {
      assert (ps + [p])[1..] == [p];
    }
  }

  /** Words of a line, each behind a space, with nothing done to protect what is in them. */
  function Spaced(ps: seq<string>): string
  {
    if ps == [] then "" else " " + ps[0] + Spaced(ps[1..])
  }

  lemma {:induction false} SpacedConcat(a: seq<string>, b: seq<string>)
    ensures Spaced(a + b) == Spaced(a) + Spaced(b)
    decreases |a|
  {
    if a == [] {
      assert a + b == b;
    } else {
      assert (a + b)[1..] == a[1..] + b;
      SpacedConcat(a[1..], b);
      Prepend(" " + a[0], Spaced(a[1..]), Spaced(b));
    }
  }

  /** The rfc1459 table: each capital has its small letter, the four bracket-like characters have
      theirs, and everything else is its own. */
  lemma FoldTable(c: char)
    ensures 'A' <= c <= 'Z' ==> Fold([c]) == [(c as int + 32) as char]
    ensures Fold("[") == "{" && Fold("]") == "}" && Fold("\\") == "|" && Fold("^") == "~"
    ensures !('A' <= c <= 'Z') && c !in {'[', ']', '\\', '^'} ==> Fold([c]) == [c]
  {
  }
}
