/** What a mode list asks for, read without looking at the channel, and what the channel has in
    the end: for every setting the last request about it decides. */
module ModeRequests {
  import opened Wrappers
  import opened IrcText
  import opened Decimal
  import Bans
  import opened ServerState
  import opened Modes
  import opened Membership

  // ---------------------------------------------------------------- what a mode list asks for

  /** One requested change: its sign, its letter, and the argument it takes, if it takes one. */
  datatype Wish = Wish(sign: char, mode: char, arg: string)

  predicate PlusOrMinus(c: char) { c == '+' || c == '-' }

  predicate ModeLetter(m: char) { m in {'i', 't', 'm', 'k', 'l', 'o', 'v', 'b'} }

  /** Operators, voices and bans are always named; a key and a limit only when they are set. */
  predicate TakesArg(sign: char, m: char) { m in {'o', 'v', 'b'} || (m in {'k', 'l'} && sign == '+') }

  /** The requests of a mode list. Signs are carried along, unknown letters and letters whose
      argument is missing ask for nothing. */
  function Wishes(flags: string, args: seq<string>, sign: char): seq<Wish>
    decreases |flags|
  {
    if flags == "" then []
    else
      var m := flags[0];
      if PlusOrMinus(m) then Wishes(flags[1..], args, m)
      else if !ModeLetter(m) || (TakesArg(sign, m) && args == []) then Wishes(flags[1..], args, sign)
      else if TakesArg(sign, m) then [Wish(sign, m, args[0])] + Wishes(flags[1..], args[1..], sign)
      else [Wish(sign, m, "")] + Wishes(flags[1..], args, sign)
  }

  predicate Signed(ws: seq<Wish>)
  {
    forall i :: 0 <= i < |ws| ==> PlusOrMinus(ws[i].sign)
  }

  lemma {:induction false} WishesSigned(flags: string, args: seq<string>, sign: char)
    requires PlusOrMinus(sign)
    ensures Signed(Wishes(flags, args, sign))
    decreases |flags|
  {
    if flags != "" {
      var m := flags[0];
      WishesSigned(flags[1..], args, if PlusOrMinus(m) then m else sign);
      if args != [] {
        WishesSigned(flags[1..], args[1..], sign);
      }
    }
  }

  // ---------------------------------------------------------------- and what it gets

  function After(s: State, ch: Channel, w: Wish): Channel { Effect(s, ch, w.sign, w.mode, w.arg).ch }

  function Granted(s: State, ch: Channel, ws: seq<Wish>): Channel
    decreases |ws|
  {
    if ws == [] then ch else Granted(s, After(s, ch, ws[0]), ws[1..])
  }

  lemma LettersAgree(sign: char, m: char)
    ensures PlusOrMinus(m) <==> IsSign(m)
    ensures ModeLetter(m) <==> KnownMode(m)
    ensures TakesArg(sign, m) <==> ConsumesArg(sign, m)
  {
  }

  lemma {:induction false} LoopGrants(s: State, flags: string, r: Run)
    ensures ModeLoop(s, flags, r).ch == Granted(s, r.ch, Wishes(flags, r.args, r.sign))
    decreases |flags|
  {
    if flags != "" {
      var m, next := flags[0], ModeChar(s, flags[0], r);
      LettersAgree(r.sign, m);
      LoopGrants(s, flags[1..], next);
      if !PlusOrMinus(m) && ModeLetter(m) && !(TakesArg(r.sign, m) && r.args == []) {
        var w := Wish(r.sign, m, if TakesArg(r.sign, m) then r.args[0] else "");
        var rest := Wishes(flags[1..], next.args, r.sign);
        assert ([w] + rest)[1..] == rest;
      }
    }
  }

  lemma {:induction false} GrantedInParts(s: State, ch: Channel, ws: seq<Wish>, i: nat)
    requires i <= |ws|
    ensures Granted(s, ch, ws) == Granted(s, Granted(s, ch, ws[..i]), ws[i..])
    decreases i
  {
    if i == 0 {
      assert ws[0..] == ws;
    } else {
      GrantedInParts(s, After(s, ch, ws[0]), ws[1..], i - 1);
      assert ws[1..][..i - 1] == ws[..i][1..];
      assert ws[1..][i - 1..] == ws[i..];
    }
  }

  lemma {:induction false} NothingAbout<T>(s: State, ch: Channel, ws: seq<Wish>, get: Channel -> T, about: Wish -> bool)
    requires forall c, w :: !about(w) && PlusOrMinus(w.sign) ==> get(After(s, c, w)) == get(c)
    requires Signed(ws) && forall j :: 0 <= j < |ws| ==> !about(ws[j])
    ensures get(Granted(s, ch, ws)) == get(ch)
    decreases |ws|
  {
    if ws != [] {
      assert PlusOrMinus(ws[0].sign) && !about(ws[0]);
      NothingAbout(s, After(s, ch, ws[0]), ws[1..], get, about);
    }
  }

  /** No request from the i-th on is about a setting. */
  predicate NoneAbout(ws: seq<Wish>, about: Wish -> bool, i: nat)
  {
    forall j :: i <= j < |ws| ==> !about(ws[j])
  }

  /** The i-th request is the last that is about a setting; with i == -1 there is none. */
  predicate LastAbout(ws: seq<Wish>, about: Wish -> bool, i: int)
  {
    -1 <= i < |ws| && (i >= 0 ==> about(ws[i])) && NoneAbout(ws, about, i + 1)
  }

  lemma {:induction false} LastOf(ws: seq<Wish>, about: Wish -> bool) returns (i: int)
    ensures LastAbout(ws, about, i)
    decreases |ws|
  {
    i := |ws| - 1;
    if ws != [] && !about(ws[i]) {
      i := LastOf(ws[..i], about);
    }
  }

  /** What comes after the last request about a setting does not matter for it. */
  lemma LastDecides<T>(s: State, ch: Channel, ws: seq<Wish>, get: Channel -> T, about: Wish -> bool, i: int)
    requires forall c, w :: !about(w) && PlusOrMinus(w.sign) ==> get(After(s, c, w)) == get(c)
    requires Signed(ws) && LastAbout(ws, about, i)
    ensures get(Granted(s, ch, ws)) ==
            if i < 0 then get(ch) else get(After(s, Granted(s, ch, ws[..i]), ws[i]))
  {
    if i < 0 {
      NothingAbout(s, ch, ws, get, about);
    } else {
      var mid := Granted(s, ch, ws[..i]);
      GrantedInParts(s, ch, ws, i);
      assert ws[i..][0] == ws[i] && ws[i..][1..] == ws[i + 1..];
      NothingAbout(s, After(s, mid, ws[i]), ws[i + 1..], get, about);
    }
  }

  // ---------------------------------------------------------------- flags

  /** The three settings that are just on or off. */
  predicate FlagSet(ch: Channel, m: char)
  {
    (m == 'i' && ch.inviteOnly) || (m == 't' && ch.topicRestricted) || (m == 'm' && ch.moderated)
  }

  lemma OthersKeepFlags(s: State, ch: Channel, w: Wish)
    requires w.mode in {'k', 'l', 'o', 'v', 'b'}
    ensures var ch' := After(s, ch, w);
            && ch'.inviteOnly == ch.inviteOnly && ch'.topicRestricted == ch.topicRestricted
            && ch'.moderated == ch.moderated
  {
    match w.mode
    case 'k' =>
    case 'l' =>
    case 'o' =>
    case 'v' =>
    case 'b' =>
  }

  lemma FlagAfter(s: State, ch: Channel, w: Wish, m: char)
    requires m in {'i', 't', 'm'} && PlusOrMinus(w.sign)
    ensures FlagSet(After(s, ch, w), m) == if w.mode == m then w.sign == '+' else FlagSet(ch, m)
  {
    if w.mode in {'k', 'l', 'o', 'v', 'b'} {
      OthersKeepFlags(s, ch, w);
    } else {
      assert After(s, ch, w) == SetFlag(ch, w.sign, w.mode).ch;
    }
  }

  /** `+i`, `+t` and `+m` set the flag and `-i`, `-t` and `-m` clear it: the last one decides. */
  lemma FlagsGranted(s: State, ch: Channel, ws: seq<Wish>, m: char, i: int)
    requires m in {'i', 't', 'm'} && Signed(ws) && LastAbout(ws, (w: Wish) => w.mode == m, i)
    ensures FlagSet(Granted(s, ch, ws), m) == if i < 0 then FlagSet(ch, m) else ws[i].sign == '+'
  {
    var get, about := (c: Channel) => FlagSet(c, m), (w: Wish) => w.mode == m;
    forall c, w | !about(w) && PlusOrMinus(w.sign)
      ensures get(After(s, c, w)) == get(c)
    {
      FlagAfter(s, c, w, m);
    }
    LastDecides(s, ch, ws, get, about, i);
    if i >= 0 {
      assert PlusOrMinus(ws[i].sign);
      FlagAfter(s, Granted(s, ch, ws[..i]), ws[i], m);
    }
  }

  // ---------------------------------------------------------------- key and limit

  /** A `+k` with an empty argument asks for nothing. */
  predicate AboutKey(w: Wish) { w.mode == 'k' && (w.sign == '-' || w.arg != "") }

  lemma KeyAfter(s: State, ch: Channel, w: Wish)
    requires PlusOrMinus(w.sign)
    ensures After(s, ch, w).key == if !AboutKey(w) then ch.key else if w.sign == '+' then w.arg else ""
  {
    match w.mode
    case 'k' =>
    case 'l' =>
    case 'o' =>
    case 'v' =>
    case 'b' =>
    case _ =>
  }

  /** `+k` sets the key to its argument, whatever was set, and `-k` clears it. */
  lemma KeyGranted(s: State, ch: Channel, ws: seq<Wish>, i: int)
    requires Signed(ws) && LastAbout(ws, AboutKey, i)
    ensures Granted(s, ch, ws).key == if i < 0 then ch.key else if ws[i].sign == '+' then ws[i].arg else ""
  {
    forall c, w | !AboutKey(w) && PlusOrMinus(w.sign)
      ensures After(s, c, w).key == c.key
    {
      KeyAfter(s, c, w);
    }
    LastDecides(s, ch, ws, (c: Channel) => c.key, AboutKey, i);
    if i >= 0 {
      assert PlusOrMinus(ws[i].sign);
      KeyAfter(s, Granted(s, ch, ws[..i]), ws[i]);
    }
  }

  /** A limit that counts: a decimal number from 1 to 100000, leading zeros allowed. */
  predicate LimitText(t: string) { t != "" && AllDigits(t) && 1 <= ValueOf(t) <= 100000 }

  lemma {:induction false} DigitsExact(p: string, t: string)
    requires AllDigits(p) && ValueOf(p) <= 100000
    ensures DigitsFrom(t, ValueOf(p)) ==
            if AllDigits(t) && AllDigits(p + t) && 1 <= ValueOf(p + t) <= 100000 then Some(ValueOf(p + t)) else None
    decreases |t|
  {
    if t == "" {
      assert p + t == p;
    } else if '0' <= t[0] <= '9' {
      NextDigit(p, t);
      var p' := p + [t[0]];
      if ValueOf(p') <= 100000 {
        DigitsExact(p', t[1..]);
      } else if AllDigits(t) {
        LongerIsLarger(p', t[1..]);
      }
    }
  }

  /** What parsePositiveLimit accepts, and the number it reads. */
  lemma ParseLimitExact(t: string)
    ensures ParseLimit(t) == if LimitText(t) then Some(ValueOf(t)) else None
  {
    assert "" + t == t;
    if t != "" {
      DigitsExact("", t);
    }
  }

  /** A `+l` whose argument is no such number asks for nothing. */
  predicate AboutLimit(w: Wish) { w.mode == 'l' && (w.sign == '-' || LimitText(w.arg)) }

  lemma LimitAfter(s: State, ch: Channel, w: Wish)
    requires PlusOrMinus(w.sign)
    ensures After(s, ch, w).userLimit ==
            if !AboutLimit(w) then ch.userLimit else if w.sign == '+' then ValueOf(w.arg) else 0
  {
    ParseLimitExact(w.arg);
    match w.mode
    case 'k' =>
    case 'l' =>
    case 'o' =>
    case 'v' =>
    case 'b' =>
    case _ =>
  }

  /** `+l` sets the limit to the number in its argument, and `-l` lifts it. */
  lemma LimitGranted(s: State, ch: Channel, ws: seq<Wish>, i: int)
    requires Signed(ws) && LastAbout(ws, AboutLimit, i)
    ensures Granted(s, ch, ws).userLimit ==
            if i < 0 then ch.userLimit else if ws[i].sign == '+' then ValueOf(ws[i].arg) else 0
  {
    forall c, w | !AboutLimit(w) && PlusOrMinus(w.sign)
      ensures After(s, c, w).userLimit == c.userLimit
    {
      LimitAfter(s, c, w);
    }
    LastDecides(s, ch, ws, (c: Channel) => c.userLimit, AboutLimit, i);
    if i >= 0 {
      assert PlusOrMinus(ws[i].sign);
      LimitAfter(s, Granted(s, ch, ws[..i]), ws[i]);
    }
  }

  // ---------------------------------------------------------------- voices and operators

  lemma MembersAfter(s: State, ch: Channel, w: Wish)
    ensures After(s, ch, w).members == ch.members
  {
    match w.mode
    case 'k' =>
    case 'l' =>
    case 'o' =>
    case 'v' =>
    case 'b' =>
    case _ =>
  }

  lemma MembersGranted(s: State, ch: Channel, ws: seq<Wish>)
    requires Signed(ws)
    ensures Granted(s, ch, ws).members == ch.members
  {
    forall c: Channel, w: Wish | PlusOrMinus(w.sign)
      ensures After(s, c, w).members == c.members
    {
      MembersAfter(s, c, w);
    }
    NothingAbout(s, ch, ws, (c: Channel) => c.members, (w: Wish) => false);
  }

  /** A request about the voice, or the operator status, of the client whose nick it gives. */
  predicate AboutMember(s: State, w: Wish, m: char, x: int)
  {
    w.mode == m && FindByNick(s, w.arg) == Some(x)
  }

  lemma VoiceAfter(s: State, ch: Channel, w: Wish, x: int)
    requires PlusOrMinus(w.sign)
    ensures x in After(s, ch, w).voiced <==>
            if AboutMember(s, w, 'v', x) && x in ch.members then w.sign == '+' else x in ch.voiced
  {
    match w.mode
    case 'k' =>
    case 'l' =>
    case 'o' =>
    case 'v' =>
    case 'b' =>
    case _ =>
  }

  lemma OperatorAfter(s: State, ch: Channel, w: Wish, x: int)
    requires PlusOrMinus(w.sign)
    ensures x in After(s, ch, w).operators <==>
            if AboutMember(s, w, 'o', x) && x in ch.members then w.sign == '+' else x in ch.operators
  {
    match w.mode
    case 'k' =>
    case 'l' =>
    case 'o' =>
    case 'v' =>
    case 'b' =>
    case _ =>
  }

  /** `+v` gives a member voice and `-v` takes it, whatever it had before. */
  lemma VoicesGranted(s: State, ch: Channel, ws: seq<Wish>, x: int, i: int)
    requires Signed(ws) && x in ch.members && LastAbout(ws, (w: Wish) => AboutMember(s, w, 'v', x), i)
    ensures x in Granted(s, ch, ws).voiced <==> if i < 0 then x in ch.voiced else ws[i].sign == '+'
  {
    var get, about := (c: Channel) => x in c.voiced, (w: Wish) => AboutMember(s, w, 'v', x);
    forall c, w | !about(w) && PlusOrMinus(w.sign)
      ensures get(After(s, c, w)) == get(c)
    {
      VoiceAfter(s, c, w, x);
    }
    LastDecides(s, ch, ws, get, about, i);
    if i >= 0 {
      assert PlusOrMinus(ws[i].sign);
      MembersGranted(s, ch, ws[..i]);
      VoiceAfter(s, Granted(s, ch, ws[..i]), ws[i], x);
    }
  }

  /** `+o` makes a member operator and `-o` takes that back. */
  lemma OperatorsGranted(s: State, ch: Channel, ws: seq<Wish>, x: int, i: int)
    requires Signed(ws) && x in ch.members && LastAbout(ws, (w: Wish) => AboutMember(s, w, 'o', x), i)
    ensures x in Granted(s, ch, ws).operators <==> if i < 0 then x in ch.operators else ws[i].sign == '+'
  {
    var get, about := (c: Channel) => x in c.operators, (w: Wish) => AboutMember(s, w, 'o', x);
    forall c, w | !about(w) && PlusOrMinus(w.sign)
      ensures get(After(s, c, w)) == get(c)
    {
      OperatorAfter(s, c, w, x);
    }
    LastDecides(s, ch, ws, get, about, i);
    if i >= 0 {
      assert PlusOrMinus(ws[i].sign);
      MembersGranted(s, ch, ws[..i]);
      OperatorAfter(s, Granted(s, ch, ws[..i]), ws[i], x);
    }
  }

  // ---------------------------------------------------------------- bans

  predicate AboutBan(w: Wish, mask: string) { w.mode == 'b' && Bans.NormalizeBanMask(w.arg) == mask }

  lemma BanAfter(s: State, ch: Channel, w: Wish, mask: string)
    requires PlusOrMinus(w.sign)
    ensures mask in After(s, ch, w).banMasks <==>
            if !AboutBan(w, mask) then mask in ch.banMasks
            else w.sign == '+' && (mask in ch.banMasks || |ch.banMasks| < 50)
  {
    match w.mode
    case 'k' =>
    case 'l' =>
    case 'o' =>
    case 'v' =>
    case 'b' =>
    case _ =>
  }

  /** `-b` lifts a ban; `+b` sets it, unless the list is full of others at that moment. */
  lemma BansGranted(s: State, ch: Channel, ws: seq<Wish>, mask: string, i: int)
    requires Signed(ws) && LastAbout(ws, (w: Wish) => AboutBan(w, mask), i)
    ensures mask in Granted(s, ch, ws).banMasks <==>
            if i < 0 then mask in ch.banMasks
            else
              var before := Granted(s, ch, ws[..i]).banMasks;
              ws[i].sign == '+' && (mask in before || |before| < 50)
  {
    var get, about := (c: Channel) => mask in c.banMasks, (w: Wish) => AboutBan(w, mask);
    forall c, w | !about(w) && PlusOrMinus(w.sign)
      ensures get(After(s, c, w)) == get(c)
    {
      BanAfter(s, c, w, mask);
    }
    LastDecides(s, ch, ws, get, about, i);
    if i >= 0 {
      assert PlusOrMinus(ws[i].sign);
      BanAfter(s, Granted(s, ch, ws[..i]), ws[i], mask);
    }
  }

  // ---------------------------------------------------------------- the whole command

  /** The channel that a MODE changes: it is named, it exists, there are flags, the sender is one
      of its operators, and it is not just the ban list that is asked for. */
  predicate Commands(s: State, id: int, params: seq<string>)
  {
    && |params| >= 2 && params[0] != "" && params[0][0] in {'#', '&'} && Fold(params[0]) in s.channels
    && id in s.channels[Fold(params[0])].operators
    && !(|params| == 2 && params[1] in {"b", "+b"})
  }

  /** A MODE of an operator grants the requests of its list, any other changes nothing. */
  function Commanded(s: State, id: int, params: seq<string>): State
  {
    if Commands(s, id, params) then
      var k := Fold(params[0]);
      s.(channels := s.channels[k := Granted(s, s.channels[k], Wishes(params[1], params[2..], '+'))])
    else s
  }

  lemma ModeDoes(s: State, id: int, params: seq<string>)
    ensures Mode(s, id, params) == Commanded(s, id, params)
    ensures Commands(s, id, params) ==> Signed(Wishes(params[1], params[2..], '+'))
  {
    if Commands(s, id, params) {
      LoopGrants(s, params[1], Start(s.channels[Fold(params[0])], params[2..]));
      WishesSigned(params[1], params[2..], '+');
    }
  }
}
