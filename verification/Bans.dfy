/** Ban masks: their normal form, and who a ban on a bare nickname reaches. */
module Bans {
  import opened Wrappers
  import opened IrcText
  import opened Glob

  // ---------------------------------------------------------------- normal form

  /** The full nick!user@host form of whatever an operator typed. */
  function NormalizeBanMask(m: string): (r: string)
    ensures '!' in r && '@' in r
  {
    if m == "" then "*!*@*"
    else if '!' !in m && '@' !in m then m + "!*@*"
    else if '!' !in m then "*!" + m
    else if '@' !in m then m + "@*"
    else m
  }

  /** A normal form is left alone, so the mask that MODE announces is the mask it stores. */
  lemma NormalizeIdempotent(m: string)
    ensures NormalizeBanMask(NormalizeBanMask(m)) == NormalizeBanMask(m)
  {
  }

  /** A mask already in normal form is the only kind a ban list can hold. */
  lemma NormalFormsAreFixed(m: string)
    ensures NormalizeBanMask(m) == m <==> '!' in m && '@' in m
  {
    if m != "" {
      assert |NormalizeBanMask(m)| == |m| <==> '!' in m && '@' in m;
    }
  }

  /** What a mask of each shape becomes: whatever is missing of nick, user and host is a star. */
  lemma NormalizeByParts(nick: string, user: string, host: string)
    requires '!' !in nick && '@' !in nick && '@' !in user && '!' !in host
    ensures NormalizeBanMask("") == "*!*@*"
    ensures nick != "" ==> NormalizeBanMask(nick) == nick + "!*@*"
    ensures '!' !in user ==> NormalizeBanMask(user + "@" + host) == "*!" + user + "@" + host
    ensures NormalizeBanMask(nick + "!" + user) == nick + "!" + user + "@*"
    ensures NormalizeBanMask(nick + "!" + user + "@" + host) == nick + "!" + user + "@" + host
  {
    var userHost, nickUser := user + "@" + host, nick + "!" + user;
    assert userHost[|user|] == '@' && nickUser[|nick|] == '!';
    assert (nickUser + "@" + host)[|nick|] == '!' && (nickUser + "@" + host)[|nickUser|] == '@';
    assert "*!" + userHost == "*!" + user + "@" + host;
  }

  // ---------------------------------------------------------------- matching a client

  function UserMask(nick: string, user: string, host: string): string
  {
    nick + "!" + user + "@" + host
  }

  predicate BanHits(masks: set<string>, nick: string, user: string, host: string)
  {
    exists m :: m in masks && Greedy(m, UserMask(nick, user, host))
  }

  /** The ban check walks the list in whatever order it is stored. */
  method IsBanned(masks: set<string>, nick: string, user: string, host: string) returns (hit: bool)
    ensures hit <==> BanHits(masks, nick, user, host)
  {
    if masks == {} {
      return false;
    }
    var mask := nick + "!" + user + "@" + host;
    var rest := masks;
    while rest != {}
      invariant rest <= masks
      invariant forall m :: m in masks - rest ==> !Greedy(m, mask)
      decreases rest
    {
      var m := AnyOf(rest);
      var matched, _ := GlobMatch(m, mask);
      if matched {
        return true;
      }
      rest := rest - {m};
    }
    return false;
  }

  // ---------------------------------------------------------------- bare nick bans

  /** A mask with no separator and no wildcard names one nick. */
  predicate BareNick(m: string)
  {
    m != "" && '!' !in m && '@' !in m && '*' !in m && '?' !in m
  }

  lemma {:induction false} LiteralPrefix(p: string, a: nat, b: nat, t: string, k: nat)
    requires a <= b <= |p| && k <= |t|
    requires forall i :: a <= i < b ==> p[i] != '*' && p[i] != '?'
    requires Matches(p[a..], t[k..])
    ensures k + (b - a) <= |t|
    ensures forall i :: a <= i < b ==> t[k + (i - a)] == p[i]
    decreases b - a
  {
    if a < b {
      assert k < |t|;
      SingleFits(p, t, a, k);
      LiteralPrefix(p, a + 1, b, t, k + 1);
    }
  }

  lemma FoldAt(s: string, i: nat, c: char)
    requires i < |s| && c in "*?!@"
    ensures Fold(s)[i] == c <==> s[i] == c
  {
    FoldKeepsPunctuation(s, c);
  }

  lemma BareBanPattern(m: string)
    requires BareNick(m)
    ensures var p := Fold(m + "!*@*");
            && |p| == |m| + 4 && p[..|m|] == Fold(m) && p[|m|] == '!'
            && forall i :: 0 <= i <= |m| ==> p[i] != '*' && p[i] != '?' && (p[i] == '!' <==> i == |m|)
  {
    var pattern := m + "!*@*";
    var p := Fold(pattern);
    forall i | 0 <= i <= |m|
      ensures p[i] != '*' && p[i] != '?' && (p[i] == '!' <==> i == |m|)
    {
      assert pattern[i] == if i < |m| then m[i] else '!';
      FoldAt(pattern, i, '*');
      FoldAt(pattern, i, '?');
      FoldAt(pattern, i, '!');
    }
    FoldConcat(m, "!*@*");
  }

  lemma BangedText(nick: string, rest: string)
    requires '!' !in nick
    ensures var t := Fold(nick + "!" + rest);
            && |nick| < |t| && t[..|nick|] == Fold(nick) && t[|nick|] == '!'
            && forall i :: 0 <= i < |nick| ==> t[i] != '!'
  {
    var text := nick + "!" + rest;
    assert text == nick + ("!" + rest);
    FoldConcat(nick, "!" + rest);
    forall i | 0 <= i < |nick|
      ensures Fold(text)[i] != '!'
    {
      assert text[i] == nick[i];
      FoldAt(text, i, '!');
    }
    FoldAt(text, |nick|, '!');
  }

  /** Two texts that agree up to the first `!` of one of them have it at one place. */
  lemma FirstBangs(p: string, a: nat, t: string, b: nat)
    requires a < |p| && b < |t| && a < |t| && p[..a + 1] == t[..a + 1]
    requires p[a] == '!' && forall i :: 0 <= i < a ==> p[i] != '!'
    requires t[b] == '!' && forall i :: 0 <= i < b ==> t[i] != '!'
    ensures a == b && p[..a] == t[..b]
  {
    assert forall i :: 0 <= i <= a ==> p[i] == p[..a + 1][i] && t[i] == t[..a + 1][i];
    assert p[..a] == p[..a + 1][..a] && t[..a] == t[..a + 1][..a];
  }

  /** A bare-nick ban never reaches another nick. */
  lemma BareBanOnlySameNick(m: string, nick: string, rest: string)
    requires BareNick(m) && '!' !in nick
    requires Greedy(m + "!*@*", nick + "!" + rest)
    ensures Fold(m) == Fold(nick)
  {
    var p, t := Fold(m + "!*@*"), Fold(nick + "!" + rest);
    GreedySound(m + "!*@*", nick + "!" + rest);
    BareBanPattern(m);
    BangedText(nick, rest);
    SamePrefix(p, t, |m| + 1);
    FirstBangs(p, |m|, t, |nick|);
  }

  lemma SamePrefix(p: string, t: string, n: nat)
    requires Matches(p, t) && n <= |p| && forall i :: 0 <= i < n ==> p[i] != '*' && p[i] != '?'
    ensures n <= |t| && p[..n] == t[..n]
  {
    assert p[0..] == p && t[0..] == t;
    LiteralPrefix(p, 0, n, t, 0);
    forall i | 0 <= i < n
      ensures p[..n][i] == t[..n][i]
    {
      assert t[0 + (i - 0)] == p[i];
    }
  }

  /** With a star last in the pattern, the rest of the text is absorbed. */
  lemma {:induction false} TrailingStarAccepts(p: string, t: string, ti: nat)
    requires p != "" && p[|p| - 1] == '*' && ti <= |t|
    ensures Run(p, t, |p|, ti, |p| - 1, ti)
    decreases |t| - ti
  {
    if ti < |t| {
      TrailingStarAccepts(p, t, ti + 1);
    }
  }

  /** At a final star, a star-free remainder is accepted whatever was saved before. */
  lemma FinalStarAccepts(p: string, t: string, ti: nat, star: int, mt: nat)
    requires p != "" && p[|p| - 1] == '*' && Cursors(p, t, |p| - 1, ti, star, mt)
    requires ti < |t| ==> t[ti] != '*'
    ensures Run(p, t, |p| - 1, ti, star, mt)
  {
    if ti < |t| {
      TrailingStarAccepts(p, t, ti);
    } else {
      assert SkipStars(p, |p|) == |p|;
    }
  }

  /** A star moves on until the text shows the literal that follows it. */
  lemma {:induction false} StarSeeks(p: string, t: string, l: nat, c: char, ti: nat, a: nat)
    requires l + 1 < |p| && p[l] == '*' && p[l + 1] == c && c != '?' && c != '*'
    requires ti <= a < |t| && t[a] == c && forall i :: ti <= i < a ==> t[i] != c
    ensures Run(p, t, l + 1, ti, l, ti) == Run(p, t, l + 2, a + 1, l, a)
    decreases a - ti
  {
    if ti < a {
      StarSeeks(p, t, l, c, ti + 1, a);
    }
  }

  /** From just past the `!`, the tail `*@*` accepts user@host exactly when the user name
      is a lone star or does not begin with one: a leading star in the text is taken as a
      literal match for the pattern's own star. */
  lemma TailVerdict(p: string, t: string, l: nat, a: nat)
    requires l < a < |t| && |p| == l + 3 && p[l] == '*' && p[l + 1] == '@' && p[l + 2] == '*'
    requires t[a] == '@' && forall i :: l <= i < a ==> t[i] != '@'
    requires a + 1 < |t| ==> t[a + 1] != '*'
    ensures Run(p, t, l, l, -1, 0) <==> a == l + 1 || t[l] != '*'
  {
    if t[l] != '*' {
      StarSeeks(p, t, l, '@', l, a);
      FinalStarAccepts(p, t, a + 1, l, a);
    } else if a == l + 1 {
      FinalStarAccepts(p, t, a + 1, -1, 0);
    }
  }

  /** Exactly whom `+b nick` keeps out: the clients of that nick whose user name does not
      start with a star (or is just a star). Usernames may contain stars, so a client that
      registers as `*x` is not reached by a bare-nick ban. */
  lemma BareNickBanHits(m: string, nick: string, user: string, host: string)
    requires BareNick(m) && '!' !in nick
    requires user != "" && '@' !in user && (host != "" ==> host[0] != '*')
    ensures Greedy(NormalizeBanMask(m), UserMask(nick, user, host)) <==>
            Fold(m) == Fold(nick) && (user == "*" || user[0] != '*')
  {
    var pattern, text := m + "!*@*", UserMask(nick, user, host);
    assert text == nick + "!" + (user + "@" + host);
    if Greedy(pattern, text) {
      BareBanOnlySameNick(m, nick, user + "@" + host);
    }
    if Fold(m) == Fold(nick) {
      BareBanVerdict(m, nick, user, host);
    }
  }

  /** The folded mask and text agree up to the `!`; after it stand `*@*` and user@host. */
  lemma BareBanLayout(m: string, nick: string, user: string, host: string)
    requires Fold(m) == Fold(nick)
    ensures var p, t, l, a := Fold(m + "!*@*"), Fold(UserMask(nick, user, host)), |m| + 1, |m| + 1 + |user|;
            && |p| == l + 3 && p[l] == '*' && p[l + 1] == '@' && p[l + 2] == '*'
            && (forall i :: 0 <= i < l ==> p[i] == t[i])
            && |t| == a + 1 + |host| && t[a] == '@'
            && (forall i :: l <= i < a ==> t[i] == FoldChar(user[i - l]))
            && (host != "" ==> t[a + 1] == FoldChar(host[0]))
  {
    assert |Fold(m)| == |m| && |Fold(nick)| == |nick|;
    var text := UserMask(nick, user, host);
    FoldConcat(m, "!*@*");
    FoldConcat(nick, "!" + user + "@" + host);
    assert text == nick + ("!" + user + "@" + host);
    assert forall i :: |m| < i < |m| + 1 + |user| ==> text[i] == user[i - |m| - 1];
    assert text[|m| + 1 + |user|] == '@';
  }

  lemma BareBanVerdict(m: string, nick: string, user: string, host: string)
    requires Fold(m) == Fold(nick)
    requires user != "" && '@' !in user && (host != "" ==> host[0] != '*')
    ensures Greedy(m + "!*@*", UserMask(nick, user, host)) <==> user == "*" || user[0] != '*'
  {
    var p, t, l, a := Fold(m + "!*@*"), Fold(UserMask(nick, user, host)), |m| + 1, |m| + 1 + |user|;
    BareBanLayout(m, nick, user, host);
    LiteralWalk(p, t, 0, l);
    assert forall i :: 0 <= i < |user| ==> user[i] in user;
    TailVerdict(p, t, l, a);
    assert FoldChar(user[0]) == '*' <==> user[0] == '*';
  }

  /** With no star in user and host, a bare-nick ban hits that nick and nobody else. */
  lemma BareNickBanExact(m: string, nick: string, user: string, host: string)
    requires BareNick(m) && '!' !in nick
    requires user != "" && '@' !in user && '*' !in user && '*' !in host
    ensures BanHits({NormalizeBanMask(m)}, nick, user, host) <==> Fold(m) == Fold(nick)
  {
    BareNickBanHits(m, nick, user, host);
  }

  // ---------------------------------------------------------------- bans on a host

  /** And fails if the literal does not come. */
  lemma {:induction false} StarSeeksInVain(p: string, t: string, l: nat, c: char, ti: nat)
    requires l + 1 < |p| && p[l] == '*' && p[l + 1] == c && c != '?' && c != '*'
    requires ti <= |t| && forall i :: ti <= i < |t| ==> t[i] != c
    ensures !Run(p, t, l + 1, ti, l, ti)
    decreases |t| - ti
  {
    if ti < |t| {
      StarSeeksInVain(p, t, l, c, ti + 1);
    }
  }

  predicate Literal(p: string, q: nat)
  {
    forall i :: q <= i < |p| ==> p[i] != '*' && p[i] != '?'
  }

  /** From q on the pattern is literal, and going back to the star leads nowhere: it has to be
      what is left of the text. */
  lemma {:induction false} LiteralTail(p: string, t: string, q: nat, ti: nat, star: nat, mt: nat)
    requires Cursors(p, t, q, ti, star, mt) && mt < |t|
    requires q <= |p| && Literal(p, q) && !Run(p, t, star + 1, mt + 1, star, mt + 1)
    ensures Run(p, t, q, ti, star, mt) <==> p[q..] == t[ti..]
    decreases |t| - ti
  {
    if ti < |t| && q < |p| && p[q] == t[ti] {
      LiteralTail(p, t, q + 1, ti + 1, star, mt);
      assert p[q..] == [p[q]] + p[q + 1..] && t[ti..] == [t[ti]] + t[ti + 1..];
    } else if ti < |t| && q < |p| {
      assert p[q..][0] == p[q] && t[ti..][0] == t[ti];
    }
  }

  /** The text of a client's mask, laid out: b is where its `!` is, a where its `@` is. */
  ghost predicate MaskLaidOut(t: string, b: nat, a: nat)
  {
    && 0 < b && b + 1 < a < |t| && t[b] == '!' && t[a] == '@'
    && (forall i :: 0 <= i < b ==> t[i] != '*')
    && (forall i :: 0 <= i < |t| ==> (t[i] == '!' <==> i == b) && (t[i] == '@' <==> i == a))
  }

  /** What `*!*@` makes of a laid-out mask: the literal behind it has to be the host, unless the
      user name starts with a star and goes on; that star swallows the pattern's own. */
  lemma HostTailVerdict(p: string, t: string, b: nat, a: nat)
    requires MaskLaidOut(t, b, a)
    requires |p| >= 4 && p[..4] == "*!*@" && Literal(p, 4)
    ensures Run(p, t, 0, 0, -1, 0) <==> p[4..] == t[a + 1..] && (t[b + 1] != '*' || a == b + 2)
  {
    assert p[0] == p[..4][0] && p[1] == p[..4][1] && p[2] == p[..4][2] && p[3] == p[..4][3];
    StarSeeks(p, t, 0, '!', 0, b);
    if t[b + 1] != '*' {
      StarSeeks(p, t, 2, '@', b + 1, a);
      StarSeeksInVain(p, t, 2, '@', a + 1);
      LiteralTail(p, t, 4, a + 1, 2, a);
    } else {
      StarSeeksInVain(p, t, 0, '!', b + 1);
      if a == b + 2 {
        LiteralTail(p, t, 4, a + 1, 0, b);
      }
    }
  }

  /** What the nick, user and host of a connected client are made of. */
  predicate ClientParts(nick: string, user: string, host: string)
  {
    && nick != "" && '*' !in nick && '!' !in nick && '@' !in nick
    && user != "" && '!' !in user && '@' !in user
    && '!' !in host && '@' !in host
  }

  lemma UserMaskLaidOut(nick: string, user: string, host: string)
    requires ClientParts(nick, user, host)
    ensures var t, b, a := Fold(UserMask(nick, user, host)), |nick|, |nick| + 1 + |user|;
            && MaskLaidOut(t, b, a) && t[a + 1..] == Fold(host)
            && (t[b + 1] == '*' <==> user[0] == '*')
  {
    var text, b, a := UserMask(nick, user, host), |nick|, |nick| + 1 + |user|;
    assert forall i :: 0 <= i < |text| ==>
             text[i] == (if i < b then nick[i] else if i == b then '!' else if i < a then user[i - b - 1]
                         else if i == a then '@' else host[i - a - 1]);
    forall i | 0 <= i < |text|
      ensures Fold(text)[i] == '!' <==> i == b
      ensures Fold(text)[i] == '@' <==> i == a
      ensures Fold(text)[i] == '*' <==> text[i] == '*'
    {
      FoldAt(text, i, '!');
      FoldAt(text, i, '@');
      FoldAt(text, i, '*');
    }
    assert Fold(text)[a + 1..] == Fold(host);
  }

  lemma HostPattern(h: string)
    requires Literal(h, 0)
    ensures var p := Fold("*!*@" + h); |p| == 4 + |h| && p[..4] == "*!*@" && p[4..] == Fold(h) && Literal(p, 4)
  {
    var p := Fold("*!*@" + h);
    FoldConcat("*!*@", h);
    assert Fold("*!*@") == "*!*@";
    forall i | 4 <= i < |p|
      ensures p[i] != '*' && p[i] != '?'
    {
      FoldAt(h, i - 4, '*');
      FoldAt(h, i - 4, '?');
    }
  }

  /** The short way to type such a ban. */
  lemma HostBanNormal(h: string)
    requires '!' !in h && '@' !in h
    ensures NormalizeBanMask("*@" + h) == "*!*@" + h
  {
    assert ("*@" + h)[1] == '@';
    assert "*!" + ("*@" + h) == "*!*@" + h;
  }

  /** Exactly whom a ban on a host keeps out: the clients from that host whose user name does not
      start with a star, or is just a star. A client that registers as `*x` is not reached. */
  lemma HostBanHits(h: string, nick: string, user: string, host: string)
    requires Literal(h, 0) && ClientParts(nick, user, host)
    ensures Greedy("*!*@" + h, UserMask(nick, user, host)) <==>
            Fold(h) == Fold(host) && (user == "*" || user[0] != '*')
    ensures '!' !in h && '@' !in h ==>
              (BanHits({NormalizeBanMask("*@" + h)}, nick, user, host) <==>
               Fold(h) == Fold(host) && (user == "*" || user[0] != '*'))
  {
    HostMaskHits(h, nick, user, host);
    if '!' !in h && '@' !in h {
      HostBanNormal(h);
    }
  }

  lemma HostMaskHits(h: string, nick: string, user: string, host: string)
    requires Literal(h, 0) && ClientParts(nick, user, host)
    ensures Greedy("*!*@" + h, UserMask(nick, user, host)) <==>
            Fold(h) == Fold(host) && (user == "*" || user[0] != '*')
  {
    HostPattern(h);
    UserMaskLaidOut(nick, user, host);
    HostHits(Fold("*!*@" + h), Fold(UserMask(nick, user, host)), h, user, host, |nick|, |nick| + 1 + |user|);
  }

  lemma HostHits(p: string, t: string, h: string, user: string, host: string, b: nat, a: nat)
    requires MaskLaidOut(t, b, a) && a == b + 1 + |user| && user != ""
    requires |p| >= 4 && p[..4] == "*!*@" && Literal(p, 4) && p[4..] == Fold(h)
    requires t[a + 1..] == Fold(host) && (t[b + 1] == '*' <==> user[0] == '*')
    ensures Run(p, t, 0, 0, -1, 0) <==> Fold(h) == Fold(host) && (user == "*" || user[0] != '*')
  {
    HostTailVerdict(p, t, b, a);
    LoneStar(user);
  }

  lemma LoneStar(user: string)
    requires user != ""
    ensures user == "*" <==> |user| == 1 && user[0] == '*'
  {
  }
}
