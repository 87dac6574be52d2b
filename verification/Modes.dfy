/** The channel MODE language: interpretation, the announced delta, and the advertised view. */
module Modes {
  import opened Wrappers
  import opened IrcText
  import opened Bans
  import opened ServerState

  // ---------------------------------------------------------------- limits

  function DigitsFrom(s: string, v: nat): Option<nat>
  {
    if s == "" then (if v == 0 then None else Some(v))
    else if !IsDigit(s[0]) then None
    else
      var v' := v * 10 + (s[0] as int - '0' as int);
      if v' > MAX_USER_LIMIT then None else DigitsFrom(s[1..], v')
  }

  function ParseLimit(s: string): Option<nat>
  {
    if s == "" then None else DigitsFrom(s, 0)
  }

  function Digit(d: nat): char
    requires d < 10
  {
    ('0' as int + d) as char
  }

  function ToDecimal(n: nat): string
  {
    if n < 10 then [Digit(n)] else ToDecimal(n / 10) + [Digit(n % 10)]
  }

  lemma {:induction false} DigitsOfDecimal(n: nat, rest: string)
    requires n <= MAX_USER_LIMIT
    ensures DigitsFrom(ToDecimal(n) + rest, 0) == DigitsFrom(rest, n)
    decreases n
  {
    if n < 10 {
      assert ([Digit(n)] + rest)[1..] == rest;
    } else {
      var last := [Digit(n % 10)] + rest;
      DigitsOfDecimal(n / 10, last);
      assert ToDecimal(n) + rest == ToDecimal(n / 10) + last;
      assert last[1..] == rest;
      assert (n / 10) * 10 + n % 10 == n;
    }
  }

  /** Printing and parsing a limit are inverse over the whole range of limits. */
  lemma LimitReadsBack(n: nat)
    requires 1 <= n <= MAX_USER_LIMIT
    ensures ParseLimit(ToDecimal(n)) == Some(n)
  {
    DigitsOfDecimal(n, "");
    assert ToDecimal(n) + "" == ToDecimal(n);
  }

  lemma {:induction false} LimitRange(s: string, v: nat)
    requires v <= MAX_USER_LIMIT
    ensures DigitsFrom(s, v).Some? ==> 1 <= DigitsFrom(s, v).value <= MAX_USER_LIMIT
    decreases |s|
  {
    if s != "" && IsDigit(s[0]) {
      var v' := v * 10 + (s[0] as int - '0' as int);
      if v' <= MAX_USER_LIMIT {
        LimitRange(s[1..], v');
      }
    }
  }

  method ParsePositiveLimit(s: string) returns (out: Option<nat>)
    ensures out == ParseLimit(s)
    ensures out.Some? ==> 1 <= out.value <= MAX_USER_LIMIT
  {
    LimitRange(s, 0);
    if s == "" {
      return None;
    }
    var v: nat := 0;
    for i := 0 to |s|
      invariant DigitsFrom(s[i..], v) == DigitsFrom(s, 0)
    {
      if !IsDigit(s[i]) {
        return None;
      }
      assert s[i..][1..] == s[i + 1..];
      v := v * 10 + (s[i] as int - '0' as int);
      if v > MAX_USER_LIMIT {
        return None;
      }
    }
    if v == 0 {
      return None;
    }
    return Some(v);
  }

  // ---------------------------------------------------------------- one mode change

  /** A change as it will be announced. */
  datatype Applied = Applied(sign: char, mode: char, arg: string)

  /** The channel after one mode letter, and the change announced for it, if any. */
  datatype Outcome = Outcome(ch: Channel, applied: seq<Applied>)

  predicate ConsumesArg(sign: char, mode: char)
  {
    match mode
    case 'k' => sign == '+'
    case 'l' => sign == '+'
    case 'o' => true
    case 'v' => true
    case 'b' => true
    case _ => false
  }

  predicate KnownMode(m: char) { m in "itklobmv" }

  predicate IsSign(c: char) { c == '+' || c == '-' }

  function SetKey(ch: Channel, sign: char, arg: string): Outcome
  {
    if sign == '+' then
      if arg == "" then Outcome(ch, []) else Outcome(ch.(key := arg), [Applied('+', 'k', arg)])
    else
      if ch.key == "" then Outcome(ch, []) else Outcome(ch.(key := ""), [Applied('-', 'k', "")])
  }

  function SetLimit(ch: Channel, sign: char, arg: string): Outcome
  {
    if sign == '+' then
      match ParseLimit(arg)
      case None => Outcome(ch, [])
      case Some(lim) =>
        if ch.userLimit == lim then Outcome(ch, [])
        else Outcome(ch.(userLimit := lim), [Applied('+', 'l', arg)])
    else
      if ch.userLimit == 0 then Outcome(ch, []) else Outcome(ch.(userLimit := 0), [Applied('-', 'l', "")])
  }

  /** The member an operator or voice change is about. */
  function Target(s: State, ch: Channel, arg: string): Option<int>
  {
    match FindByNick(s, arg)
    case None => None
    case Some(t) => if t in ch.members then Some(t) else None
  }

  function SetOperator(s: State, ch: Channel, sign: char, arg: string): Outcome
  {
    match Target(s, ch, arg)
    case None => Outcome(ch, [])
    case Some(t) =>
      if (t in ch.operators) == (sign == '+') then Outcome(ch, [])
      else if sign == '+' then
        Outcome(ch.(operators := ch.operators + {t}), [Applied('+', 'o', s.clients[t].nick)])
      else Outcome(ch.(operators := ch.operators - {t}), [Applied('-', 'o', s.clients[t].nick)])
  }

  function SetVoice(s: State, ch: Channel, sign: char, arg: string): Outcome
  {
    match Target(s, ch, arg)
    case None => Outcome(ch, [])
    case Some(t) =>
      if (t in ch.voiced) == (sign == '+') then Outcome(ch, [])
      else if sign == '+' then
        Outcome(ch.(voiced := ch.voiced + {t}), [Applied('+', 'v', s.clients[t].nick)])
      else Outcome(ch.(voiced := ch.voiced - {t}), [Applied('-', 'v', s.clients[t].nick)])
  }

  function SetBan(ch: Channel, sign: char, arg: string): Outcome
  {
    var mask := NormalizeBanMask(arg);
    if sign == '+' then
      if mask in ch.banMasks || |ch.banMasks| >= MAX_BAN_LIST then Outcome(ch, [])
      else Outcome(ch.(banMasks := ch.banMasks + {mask}), [Applied('+', 'b', mask)])
    else
      if mask !in ch.banMasks then Outcome(ch, [])
      else Outcome(ch.(banMasks := ch.banMasks - {mask}), [Applied('-', 'b', mask)])
  }

  function SetFlag(ch: Channel, sign: char, m: char): Outcome
  {
    var want := sign == '+';
    match m
    case 'i' => if ch.inviteOnly == want then Outcome(ch, [])
                else Outcome(ch.(inviteOnly := want), [Applied(sign, 'i', "")])
    case 't' => if ch.topicRestricted == want then Outcome(ch, [])
                else Outcome(ch.(topicRestricted := want), [Applied(sign, 't', "")])
    case 'm' => if ch.moderated == want then Outcome(ch, [])
                else Outcome(ch.(moderated := want), [Applied(sign, 'm', "")])
    case _ => Outcome(ch, [])
  }

  function Effect(s: State, ch: Channel, sign: char, m: char, arg: string): Outcome
  {
    match m
    case 'k' => SetKey(ch, sign, arg)
    case 'l' => SetLimit(ch, sign, arg)
    case 'o' => SetOperator(s, ch, sign, arg)
    case 'v' => SetVoice(s, ch, sign, arg)
    case 'b' => SetBan(ch, sign, arg)
    case _ => SetFlag(ch, sign, m)
  }

  // ---------------------------------------------------------------- the interpreter

  /** sign: the sign register; args: what the argument cursor has not consumed yet. */
  datatype Run = Run(ch: Channel, args: seq<string>, sign: char, applied: seq<Applied>)

  function WithOutcome(r: Run, o: Outcome): Run
  {
    r.(ch := o.ch, applied := r.applied + o.applied)
  }

  function ModeChar(s: State, m: char, r: Run): Run
  {
    if IsSign(m) then r.(sign := m)
    else if !KnownMode(m) then r
    else if ConsumesArg(r.sign, m) then
      if r.args == [] then r
      else WithOutcome(r.(args := r.args[1..]), Effect(s, r.ch, r.sign, m, r.args[0]))
    else WithOutcome(r, Effect(s, r.ch, r.sign, m, ""))
  }

  function ModeLoop(s: State, flags: string, r: Run): Run
    decreases |flags|
  {
    if flags == "" then r else ModeLoop(s, flags[1..], ModeChar(s, flags[0], r))
  }

  function Start(ch: Channel, args: seq<string>): Run { Run(ch, args, '+', []) }

  // ---------------------------------------------------------------- the announcement

  /** The mode letters, with a sign only where it changes. */
  function Flags(applied: seq<Applied>, last: char): string
  {
    if applied == [] then ""
    else
      var a := applied[0];
      (if a.sign != last then [a.sign] else []) + ([a.mode] + Flags(applied[1..], a.sign))
  }

  function ArgsOf(applied: seq<Applied>): seq<string>
  {
    if applied == [] then []
    else (if applied[0].arg == "" then [] else [applied[0].arg]) + ArgsOf(applied[1..])
  }

  const NO_SIGN := '\0'

  /** A change that can be replayed: it has an argument exactly when its letter takes one. */
  predicate Replayable(a: Applied)
  {
    IsSign(a.sign) && KnownMode(a.mode) && (ConsumesArg(a.sign, a.mode) <==> a.arg != "")
  }

  /** Every change of the list takes effect in turn and is announced as itself. */
  ghost predicate Chain(s: State, ch: Channel, applied: seq<Applied>, end: Channel)
    decreases |applied|
  {
    if applied == [] then ch == end
    else
      var a := applied[0];
      var o := Effect(s, ch, a.sign, a.mode, a.arg);
      Replayable(a) && o.applied == [a] && Chain(s, o.ch, applied[1..], end)
  }

  ghost predicate Replays(s: State, ch: Channel, o: Outcome)
  {
    && (o.applied == [] ==> o.ch == ch)
    && (o.applied != [] ==>
          && |o.applied| == 1 && Replayable(o.applied[0])
          && Effect(s, ch, o.applied[0].sign, o.applied[0].mode, o.applied[0].arg) == o)
  }

  lemma OperatorReplays(s: State, ch: Channel, sign: char, arg: string)
    requires IndexOk(s) && IsSign(sign)
    ensures Replays(s, ch, SetOperator(s, ch, sign, arg))
  {
    match Target(s, ch, arg)
    case None =>
    case Some(t) => OwnNickResolves(s, t);
  }

  lemma VoiceReplays(s: State, ch: Channel, sign: char, arg: string)
    requires IndexOk(s) && IsSign(sign)
    ensures Replays(s, ch, SetVoice(s, ch, sign, arg))
  {
    match Target(s, ch, arg)
    case None =>
    case Some(t) => OwnNickResolves(s, t);
  }

  lemma BanReplays(s: State, ch: Channel, sign: char, arg: string)
    requires IsSign(sign)
    ensures Replays(s, ch, SetBan(ch, sign, arg))
  {
    NormalizeIdempotent(arg);
  }

  lemma SettingReplays(s: State, ch: Channel, sign: char, m: char, arg: string)
    requires IsSign(sign) && m in "imt"
    ensures Replays(s, ch, SetFlag(ch, sign, m)) && Replays(s, ch, SetKey(ch, sign, arg))
  {
  }

  lemma LimitReplays(s: State, ch: Channel, sign: char, arg: string)
    requires IsSign(sign)
    ensures Replays(s, ch, SetLimit(ch, sign, arg))
  {
  }

  /** A change that takes effect is announced in a form that, replayed, does the same and is
      announced the same; a skipped one changes nothing. */
  lemma EffectReplays(s: State, ch: Channel, sign: char, m: char, arg: string)
    requires IndexOk(s) && IsSign(sign) && KnownMode(m)
    ensures var o := Effect(s, ch, sign, m, arg);
            && (o.applied == [] ==> o.ch == ch)
            && (o.applied != [] ==>
                  && |o.applied| == 1 && Replayable(o.applied[0])
                  && Effect(s, ch, o.applied[0].sign, o.applied[0].mode, o.applied[0].arg) == o)
  {
    match m
    case 'o' => OperatorReplays(s, ch, sign, arg);
    case 'v' => VoiceReplays(s, ch, sign, arg);
    case 'b' => BanReplays(s, ch, sign, arg);
    case 'l' => LimitReplays(s, ch, sign, arg);
    case 'k' => SettingReplays(s, ch, sign, 'i', arg);
    case _ => SettingReplays(s, ch, sign, m, arg);
  }

  lemma {:induction false} ChainSnoc(s: State, ch: Channel, applied: seq<Applied>, mid: Channel, a: Applied,
                                      end: Channel)
    requires Chain(s, ch, applied, mid) && Chain(s, mid, [a], end)
    ensures Chain(s, ch, applied + [a], end)
    decreases |applied|
  {
    if applied == [] {
      assert applied + [a] == [a];
    } else {
      var o := Effect(s, ch, applied[0].sign, applied[0].mode, applied[0].arg);
      ChainSnoc(s, o.ch, applied[1..], mid, a, end);
      assert (applied + [a])[1..] == applied[1..] + [a];
    }
  }

  lemma ModeCharChains(s: State, ch: Channel, m: char, r: Run)
    requires IndexOk(s) && IsSign(r.sign) && Chain(s, ch, r.applied, r.ch)
    ensures IsSign(ModeChar(s, m, r).sign)
    ensures Chain(s, ch, ModeChar(s, m, r).applied, ModeChar(s, m, r).ch)
  {
    if KnownMode(m) && !(ConsumesArg(r.sign, m) && r.args == []) {
      var arg := if ConsumesArg(r.sign, m) then r.args[0] else "";
      var o := Effect(s, r.ch, r.sign, m, arg);
      EffectReplays(s, r.ch, r.sign, m, arg);
      if o.applied == [] {
        assert r.applied + o.applied == r.applied;
      } else {
        assert o.applied == [o.applied[0]];
        assert Chain(s, r.ch, [o.applied[0]], o.ch);
        ChainSnoc(s, ch, r.applied, r.ch, o.applied[0], o.ch);
      }
    }
  }

  /** What a MODE command announces is a chain of effective changes from the old channel to
      the new one. */
  lemma {:induction false} ModeLoopChains(s: State, ch: Channel, flags: string, r: Run)
    requires IndexOk(s) && IsSign(r.sign) && Chain(s, ch, r.applied, r.ch)
    ensures Chain(s, ch, ModeLoop(s, flags, r).applied, ModeLoop(s, flags, r).ch)
    decreases |flags|
  {
    if flags != "" {
      ModeCharChains(s, ch, flags[0], r);
      ModeLoopChains(s, ch, flags[1..], ModeChar(s, flags[0], r));
    }
  }

  lemma LoopTwo(s: State, a: char, rest: string, r: Run)
    ensures ModeLoop(s, [a] + rest, r) == ModeLoop(s, rest, ModeChar(s, a, r))
  {
    assert ([a] + rest)[1..] == rest;
  }

  /** Interpreting the letters of one announced change. */
  lemma ReplayOne(s: State, a: Applied, rest: string, restArgs: seq<string>, r: Run, last: char)
    requires Replayable(a) && (last == r.sign || last == NO_SIGN)
    requires r.args == (if a.arg == "" then [] else [a.arg]) + restArgs
    ensures ModeLoop(s, (if a.sign != last then [a.sign] else []) + ([a.mode] + rest), r) ==
            ModeLoop(s, rest, WithOutcome(Run(r.ch, restArgs, a.sign, r.applied),
                                          Effect(s, r.ch, a.sign, a.mode, a.arg)))
  {
    var r1 := r.(sign := a.sign);
    if a.sign != last {
      LoopTwo(s, a.sign, [a.mode] + rest, r);
    } else {
      assert [] + ([a.mode] + rest) == [a.mode] + rest;
      assert r1 == r;
    }
    LoopTwo(s, a.mode, rest, r1);
    if a.arg != "" {
      assert r.args[1..] == restArgs;
    } else {
      assert r.args == restArgs;
    }
  }

  /** The sign-run encoding decodes uniquely: interpreting it walks the chain. */
  lemma {:induction false} ReplayChain(s: State, applied: seq<Applied>, end: Channel, r: Run, last: char)
    requires Chain(s, r.ch, applied, end) && (last == r.sign || last == NO_SIGN)
    requires r.args == ArgsOf(applied)
    ensures var r' := ModeLoop(s, Flags(applied, last), r);
            r'.ch == end && r'.applied == r.applied + applied && r'.args == []
    decreases |applied|
  {
    if applied == [] {
      assert r.applied + applied == r.applied;
    } else {
      var a, rest := applied[0], applied[1..];
      var o := Effect(s, r.ch, a.sign, a.mode, a.arg);
      ReplayOne(s, a, Flags(rest, a.sign), ArgsOf(rest), r, last);
      var r1 := WithOutcome(Run(r.ch, ArgsOf(rest), a.sign, r.applied), o);
      ReplayChain(s, rest, end, r1, a.sign);
      AppliedInTurn(r.applied, applied);
    }
  }

  lemma AppliedInTurn(done: seq<Applied>, applied: seq<Applied>)
    requires applied != []
    ensures done + [applied[0]] + applied[1..] == done + applied
  {
  }

  /** Replaying an announcement is exact: from the same channel, the announced letters and
      arguments reach the same channel and announce the same changes. */
  lemma AnnouncementReplays(s: State, ch: Channel, flags: string, args: seq<string>)
    requires IndexOk(s)
    ensures var r := ModeLoop(s, flags, Start(ch, args));
            var again := ModeLoop(s, Flags(r.applied, NO_SIGN), Start(ch, ArgsOf(r.applied)));
            again.ch == r.ch && again.applied == r.applied && again.args == []
  {
    var r := ModeLoop(s, flags, Start(ch, args));
    ModeLoopChains(s, ch, flags, Start(ch, args));
    ReplayChain(s, r.applied, r.ch, Start(ch, ArgsOf(r.applied)), NO_SIGN);
    assert [] + r.applied == r.applied;
  }

  // ---------------------------------------------------------------- the advertised view

  function DescribeFlags(ch: Channel): string
  {
    (if ch.inviteOnly then "i" else "") + (if ch.moderated then "m" else "") +
    (if ch.topicRestricted then "t" else "") + (if ch.key != "" then "k" else "") +
    (if ch.userLimit > 0 then "l" else "")
  }

  function DescribeArgs(ch: Channel, viewerIsMember: bool): seq<string>
  {
    (if ch.key != "" then [if viewerIsMember then ch.key else "*"] else []) +
    (if ch.userLimit > 0 then [ToDecimal(ch.userLimit)] else [])
  }

  /** One more optional letter behind the sign. */
  lemma Letter(flags: string, done: string, on: bool, m: string)
    requires flags == "+" + done
    ensures (if on then flags + m else flags) == "+" + (done + if on then m else "")
  {
    assert done + "" == done;
  }

  method DescribeChannel(ch: Channel, viewerIsMember: bool) returns (flags: string, args: seq<string>)
    ensures flags == if DescribeFlags(ch) == "" then "" else "+" + DescribeFlags(ch)
    ensures args == DescribeArgs(ch, viewerIsMember)
  {
    flags := ViewFlags(ch);
    if flags == "+" {
      flags := "";
    }
    args := [];
    if ch.key != "" {
      args := args + [if viewerIsMember then ch.key else "*"];
    }
    if ch.userLimit > 0 {
      args := args + [ToDecimal(ch.userLimit)];
    }
  }

  method ViewFlags(ch: Channel) returns (flags: string)
    ensures flags == "+" + DescribeFlags(ch)
  {
    flags := "+";
    ghost var done := "";
    Letter(flags, done, ch.inviteOnly, "i");
    done := if ch.inviteOnly then "i" else "";
    if ch.inviteOnly {
      flags := flags + "i";
    }
    Letter(flags, done, ch.moderated, "m");
    done := done + if ch.moderated then "m" else "";
    if ch.moderated {
      flags := flags + "m";
    }
    Letter(flags, done, ch.topicRestricted, "t");
    done := done + if ch.topicRestricted then "t" else "";
    if ch.topicRestricted {
      flags := flags + "t";
    }
    Letter(flags, done, ch.key != "", "k");
    done := done + if ch.key != "" then "k" else "";
    if ch.key != "" {
      flags := flags + "k";
    }
    Letter(flags, done, ch.userLimit > 0, "l");
    done := done + if ch.userLimit > 0 then "l" else "";
    if ch.userLimit > 0 {
      flags := flags + "l";
    }
    assert done == DescribeFlags(ch);
  }

  /** The settings a mode view can show, on a channel that otherwise stays as it is. */
  function WithSettings(blank: Channel, ch: Channel): Channel
  {
    blank.(inviteOnly := ch.inviteOnly, moderated := ch.moderated, topicRestricted := ch.topicRestricted,
           key := ch.key, userLimit := ch.userLimit)
  }

  predicate Unset(ch: Channel)
  {
    !ch.inviteOnly && !ch.moderated && !ch.topicRestricted && ch.key == "" && ch.userLimit == 0
  }

  /** One optional letter without an argument. */
  lemma ViewFlag(s: State, on: bool, m: char, rest: string, r: Run)
    requires r.sign == '+' && m in "imt" && SetFlag(r.ch, '+', m).applied != []
    ensures var o := SetFlag(r.ch, '+', m);
            ModeLoop(s, (if on then [m] else "") + rest, r) ==
            ModeLoop(s, rest, if on then WithOutcome(r, o) else r)
  {
    if on {
      LoopTwo(s, m, rest, r);
    } else {
      assert "" + rest == rest;
    }
  }

  lemma ViewKey(s: State, key: string, rest: string, args: seq<string>, r: Run)
    requires r.sign == '+' && r.args == (if key != "" then [key] else []) + args && r.ch.key == ""
    ensures ModeLoop(s, (if key != "" then "k" else "") + rest, r).ch ==
            ModeLoop(s, rest, Run(r.ch.(key := key), args, '+',
                     r.applied + if key != "" then [Applied('+', 'k', key)] else [])).ch
  {
    if key != "" {
      LoopTwo(s, 'k', rest, r);
      assert r.args[0] == key && r.args[1..] == args;
    } else {
      assert "" + rest == rest && r.args == args && r.applied + [] == r.applied;
    }
  }

  lemma ViewLimit(s: State, n: nat, r: Run)
    requires r.sign == '+' && r.args == (if n > 0 then [ToDecimal(n)] else []) && r.ch.userLimit == 0
    requires n <= MAX_USER_LIMIT
    ensures ModeLoop(s, if n > 0 then "l" else "", r).ch == r.ch.(userLimit := n)
  {
    if n > 0 {
      assert "l" == ['l'] + "";
      LoopTwo(s, 'l', "", r);
      LimitReadsBack(n);
    }
  }

  lemma DescribedLetters(ch: Channel)
    ensures DescribeFlags(ch) ==
            (if ch.inviteOnly then ['i'] else "") + ((if ch.moderated then ['m'] else "") +
            ((if ch.topicRestricted then ['t'] else "") + ((if ch.key != "" then "k" else "") +
            (if ch.userLimit > 0 then "l" else ""))))
  {
  }

  /** The view a member is given says everything: fed to MODE on a channel with nothing set,
      it rebuilds the flags, the key and the limit. */
  lemma ViewComplete(s: State, blank: Channel, ch: Channel)
    requires Unset(blank) && ch.userLimit <= MAX_USER_LIMIT
    ensures ModeLoop(s, "+" + DescribeFlags(ch), Start(blank, DescribeArgs(ch, true))).ch ==
            WithSettings(blank, ch)
  {
    var args := DescribeArgs(ch, true);
    var limit := if ch.userLimit > 0 then "l" else "";
    var key := (if ch.key != "" then "k" else "") + limit;
    var topic := (if ch.topicRestricted then ['t'] else "") + key;
    var moderated := (if ch.moderated then ['m'] else "") + topic;
    DescribedLetters(ch);
    var r0 := Start(blank, args);
    LoopTwo(s, '+', DescribeFlags(ch), r0);
    ViewFlag(s, ch.inviteOnly, 'i', moderated, r0);
    var r1 := if ch.inviteOnly then WithOutcome(r0, SetFlag(r0.ch, '+', 'i')) else r0;
    ViewFlag(s, ch.moderated, 'm', topic, r1);
    var r2 := if ch.moderated then WithOutcome(r1, SetFlag(r1.ch, '+', 'm')) else r1;
    ViewFlag(s, ch.topicRestricted, 't', key, r2);
    var r3 := if ch.topicRestricted then WithOutcome(r2, SetFlag(r2.ch, '+', 't')) else r2;
    var tail := if ch.userLimit > 0 then [ToDecimal(ch.userLimit)] else [];
    ViewKey(s, ch.key, limit, tail, r3);
    ViewLimit(s, ch.userLimit, Run(r3.ch.(key := ch.key), tail, '+',
              r3.applied + if ch.key != "" then [Applied('+', 'k', ch.key)] else []));
  }

  // ---------------------------------------------------------------- bans

  /** Adding a mask and taking it away again restores the list exactly when it was not there. */
  lemma BanUndone(ch: Channel, m: string)
    ensures SetBan(SetBan(ch, '+', m).ch, '-', m).ch == ch <==> NormalizeBanMask(m) !in ch.banMasks
  {
    var mask := NormalizeBanMask(m);
    if mask in ch.banMasks {
      assert mask !in SetBan(ch, '-', m).ch.banMasks;
    } else {
      assert ch.banMasks + {mask} - {mask} == ch.banMasks;
    }
  }

  // ---------------------------------------------------------------- what every change keeps

  /** MODE touches settings, operators and voices, never the roster. */
  ghost predicate SameRoster(ch: Channel, ch': Channel)
  {
    && ch'.name == ch.name && ch'.gen == ch.gen && ch'.members == ch.members && ch'.invited == ch.invited
    && ch'.joinOrder == ch.joinOrder && ch'.nextJoinSeq == ch.nextJoinSeq
  }

  /** What one change must leave in order. */
  ghost predicate Kept(ch: Channel, ch': Channel)
  {
    SameRoster(ch, ch') && ch'.operators <= ch'.members && ch'.voiced <= ch'.members && SettingsOk(ch')
  }

  lemma LimitKept(ch: Channel, sign: char, arg: string)
    requires Kept(ch, ch)
    ensures Kept(ch, SetLimit(ch, sign, arg).ch)
  {
    LimitRange(arg, 0);
  }

  predicate MasksOk(masks: set<string>)
  {
    |masks| <= MAX_BAN_LIST && forall m :: m in masks ==> '!' in m && '@' in m
  }

  lemma MaskSwitched(masks: set<string>, mask: string)
    requires MasksOk(masks) && '!' in mask && '@' in mask
    ensures MasksOk(masks - {mask}) && (|masks| < MAX_BAN_LIST ==> MasksOk(masks + {mask}))
  {
    assert |masks + {mask}| <= |masks| + 1 && |masks - {mask}| <= |masks|;
  }

  lemma Rebanned(ch: Channel, masks: set<string>)
    requires Kept(ch, ch) && MasksOk(masks)
    ensures Kept(ch, ch.(banMasks := masks))
  {
  }

  lemma BanKept(ch: Channel, sign: char, arg: string)
    requires Kept(ch, ch)
    ensures Kept(ch, SetBan(ch, sign, arg).ch)
  {
    var masks := SetBan(ch, sign, arg).ch.banMasks;
    assert MasksOk(masks) by {
      MaskSwitched(ch.banMasks, NormalizeBanMask(arg));
    }
    Rebanned(ch, masks);
    assert SetBan(ch, sign, arg).ch == ch.(banMasks := masks);
  }

  lemma OperatorKept(s: State, ch: Channel, sign: char, arg: string)
    requires Kept(ch, ch)
    ensures Kept(ch, SetOperator(s, ch, sign, arg).ch)
  {
  }

  lemma VoiceKept(s: State, ch: Channel, sign: char, arg: string)
    requires Kept(ch, ch)
    ensures Kept(ch, SetVoice(s, ch, sign, arg).ch)
  {
  }

  lemma FlagKept(ch: Channel, sign: char, m: char, arg: string)
    requires Kept(ch, ch)
    ensures Kept(ch, SetFlag(ch, sign, m).ch) && Kept(ch, SetKey(ch, sign, arg).ch)
  {
  }

  lemma EffectKept(s: State, ch: Channel, sign: char, m: char, arg: string)
    requires Kept(ch, ch)
    ensures Kept(ch, Effect(s, ch, sign, m, arg).ch)
  {
    match m
    case 'l' => LimitKept(ch, sign, arg);
    case 'o' => OperatorKept(s, ch, sign, arg);
    case 'v' => VoiceKept(s, ch, sign, arg);
    case 'b' => BanKept(ch, sign, arg);
    case _ => FlagKept(ch, sign, m, arg);
  }

  lemma EffectKeeps(s: State, k: string, ch: Channel, nextGen: nat, sign: char, m: char, arg: string)
    requires ChannelOk(k, ch, nextGen)
    ensures SameRoster(ch, Effect(s, ch, sign, m, arg).ch)
    ensures ChannelOk(k, Effect(s, ch, sign, m, arg).ch, nextGen)
  {
    EffectKept(s, ch, sign, m, arg);
  }

  lemma {:induction false} ModeLoopKeeps(s: State, k: string, nextGen: nat, flags: string, r: Run)
    requires ChannelOk(k, r.ch, nextGen)
    ensures SameRoster(r.ch, ModeLoop(s, flags, r).ch)
    ensures ChannelOk(k, ModeLoop(s, flags, r).ch, nextGen)
    decreases |flags|
  {
    if flags != "" {
      var m := flags[0];
      if !IsSign(m) && KnownMode(m) && !(ConsumesArg(r.sign, m) && r.args == []) {
        EffectKeeps(s, k, r.ch, nextGen, r.sign, m, if ConsumesArg(r.sign, m) then r.args[0] else "");
      }
      ModeLoopKeeps(s, k, nextGen, flags[1..], ModeChar(s, m, r));
    }
  }

  predicate Deops(a: Applied) { a.sign == '-' && a.mode == 'o' }

  predicate NoDeop(applied: seq<Applied>)
  {
    forall i :: 0 <= i < |applied| ==> !Deops(applied[i])
  }

  /** Only an announced `-o` can take operators away. */
  lemma {:induction false} ChainKeepsOperators(s: State, ch: Channel, applied: seq<Applied>, end: Channel)
    requires Chain(s, ch, applied, end) && NoDeop(applied)
    ensures ch.operators <= end.operators
    decreases |applied|
  {
    if applied != [] {
      var a := applied[0];
      assert !Deops(a);
      assert NoDeop(applied[1..]);
      ChainKeepsOperators(s, Effect(s, ch, a.sign, a.mode, a.arg).ch, applied[1..], end);
    }
  }

  // ---------------------------------------------------------------- the loops

  /** The interpreter over a parameter list, with a cursor into it. */
  method RunModes(s: State, ch0: Channel, params: seq<string>) returns (ch: Channel, applied: seq<Applied>)
    requires |params| >= 2
    ensures var r := ModeLoop(s, params[1], Start(ch0, params[2..]));
            ch == r.ch && applied == r.applied
  {
    var modestr := params[1];
    var argIdx := 2;
    var sign := '+';
    ch, applied := ch0, [];
    for i := 0 to |modestr|
      invariant 2 <= argIdx <= |params| && IsSign(sign)
      invariant ModeLoop(s, modestr[i..], Run(ch, params[argIdx..], sign, applied)) ==
                ModeLoop(s, modestr, Start(ch0, params[2..]))
    {
      var m := modestr[i];
      assert modestr[i..][1..] == modestr[i + 1..];
      if m == '+' {
        sign := '+';
        continue;
      }
      if m == '-' {
        sign := '-';
        continue;
      }
      if !KnownMode(m) {
        continue;
      }
      var arg := "";
      if ConsumesArg(sign, m) {
        if argIdx >= |params| {
          continue;
        }
        arg := params[argIdx];
        assert params[argIdx..][1..] == params[argIdx + 1..];
        argIdx := argIdx + 1;
      }
      ch, applied := ApplyMode(s, ch, sign, m, arg, applied);
    }
  }

  /** What one letter does, whatever was set before: plus sets and minus clears. */
  ghost predicate Does(s: State, ch: Channel, ch': Channel, sign: char, m: char, arg: string)
  {
    match m
    case 'i' => ch' == ch.(inviteOnly := sign == '+')
    case 't' => ch' == ch.(topicRestricted := sign == '+')
    case 'm' => ch' == ch.(moderated := sign == '+')
    case 'k' => ch' == ch.(key := if sign == '-' then "" else if arg == "" then ch.key else arg)
    case 'l' =>
      ch' == ch.(userLimit :=
        if sign == '-' then 0 else if ParseLimit(arg).Some? then ParseLimit(arg).value else ch.userLimit)
    case 'o' =>
      && ch' == ch.(operators := ch'.operators)
      && forall x :: x in ch'.operators <==>
           if FindByNick(s, arg) == Some(x) && x in ch.members then sign == '+' else x in ch.operators
    case 'v' =>
      && ch' == ch.(voiced := ch'.voiced)
      && forall x :: x in ch'.voiced <==>
           if FindByNick(s, arg) == Some(x) && x in ch.members then sign == '+' else x in ch.voiced
    case 'b' =>
      && ch' == ch.(banMasks := ch'.banMasks)
      && forall x :: x in ch'.banMasks <==>
           if x != NormalizeBanMask(arg) then x in ch.banMasks
           else sign == '+' && (x in ch.banMasks || |ch.banMasks| < 50)
    case _ => false
  }

  lemma SettingDone(s: State, ch: Channel, sign: char, m: char, arg: string)
    requires m in "imtkl" && IsSign(sign)
    ensures Does(s, ch, Effect(s, ch, sign, m, arg).ch, sign, m, arg)
  {
  }

  lemma MembersDone(s: State, ch: Channel, sign: char, arg: string)
    requires IsSign(sign)
    ensures Does(s, ch, SetOperator(s, ch, sign, arg).ch, sign, 'o', arg)
    ensures Does(s, ch, SetVoice(s, ch, sign, arg).ch, sign, 'v', arg)
  {
  }

  lemma BanDone(s: State, ch: Channel, sign: char, arg: string)
    requires IsSign(sign)
    ensures Does(s, ch, SetBan(ch, sign, arg).ch, sign, 'b', arg)
  {
  }

  lemma EffectDone(s: State, ch: Channel, sign: char, m: char, arg: string)
    requires KnownMode(m) && IsSign(sign)
    ensures Does(s, ch, Effect(s, ch, sign, m, arg).ch, sign, m, arg)
  {
    match m
    case 'o' => MembersDone(s, ch, sign, arg);
    case 'v' => MembersDone(s, ch, sign, arg);
    case 'b' => BanDone(s, ch, sign, arg);
    case _ => SettingDone(s, ch, sign, m, arg);
  }

  /** The switch over the mode letters. */
  method ApplyMode(s: State, ch0: Channel, sign: char, m: char, arg: string, applied0: seq<Applied>)
    returns (ch: Channel, applied: seq<Applied>)
    requires KnownMode(m) && IsSign(sign)
    ensures var o := Effect(s, ch0, sign, m, arg);
            ch == o.ch && applied == applied0 + o.applied
    ensures Does(s, ch0, ch, sign, m, arg)
  {
    EffectDone(s, ch0, sign, m, arg);
    ch, applied := ch0, applied0;
    match m {
      case 'i' =>
        if ch.inviteOnly != (sign == '+') {
          ch, applied := ch.(inviteOnly := sign == '+'), applied + [Applied(sign, 'i', "")];
        }
      case 't' =>
        if ch.topicRestricted != (sign == '+') {
          ch, applied := ch.(topicRestricted := sign == '+'), applied + [Applied(sign, 't', "")];
        }
      case 'm' =>
        if ch.moderated != (sign == '+') {
          ch, applied := ch.(moderated := sign == '+'), applied + [Applied(sign, 'm', "")];
        }
      case 'k' =>
        if sign == '+' {
          if arg != "" {
            ch, applied := ch.(key := arg), applied + [Applied('+', 'k', arg)];
          }
        } else if ch.key != "" {
          ch, applied := ch.(key := ""), applied + [Applied('-', 'k', "")];
        }
      case 'l' =>
        if sign == '+' {
          var lim := ParsePositiveLimit(arg);
          if lim.Some? && ch.userLimit != lim.value {
            ch, applied := ch.(userLimit := lim.value), applied + [Applied('+', 'l', arg)];
          }
        } else if ch.userLimit != 0 {
          ch, applied := ch.(userLimit := 0), applied + [Applied('-', 'l', "")];
        }
      case 'o' =>
        var tgt := FindByNick(s, arg);
        if tgt.Some? && tgt.value in ch.members {
          if sign == '+' && tgt.value !in ch.operators {
            ch := ch.(operators := ch.operators + {tgt.value});
            applied := applied + [Applied('+', 'o', s.clients[tgt.value].nick)];
          } else if sign == '-' && tgt.value in ch.operators {
            ch := ch.(operators := ch.operators - {tgt.value});
            applied := applied + [Applied('-', 'o', s.clients[tgt.value].nick)];
          }
        }
      case 'v' =>
        var tgt := FindByNick(s, arg);
        if tgt.Some? && tgt.value in ch.members {
          if sign == '+' && tgt.value !in ch.voiced {
            ch := ch.(voiced := ch.voiced + {tgt.value});
            applied := applied + [Applied('+', 'v', s.clients[tgt.value].nick)];
          } else if sign == '-' && tgt.value in ch.voiced {
            ch := ch.(voiced := ch.voiced - {tgt.value});
            applied := applied + [Applied('-', 'v', s.clients[tgt.value].nick)];
          }
        }
      case 'b' =>
        var mask := NormalizeBanMask(arg);
        if sign == '+' {
          if mask !in ch.banMasks && |ch.banMasks| < MAX_BAN_LIST {
            ch, applied := ch.(banMasks := ch.banMasks + {mask}), applied + [Applied('+', 'b', mask)];
          }
        } else if mask in ch.banMasks {
          ch, applied := ch.(banMasks := ch.banMasks - {mask}), applied + [Applied('-', 'b', mask)];
        }
    }
  }

  /** The announcement's letters, and its arguments as text. */
  method Announce(applied: seq<Applied>) returns (flags: string, argsTail: string)
    ensures flags == Flags(applied, NO_SIGN) && argsTail == Spaced(ArgsOf(applied))
  {
    flags, argsTail := "", "";
    var lastSign := NO_SIGN;
    for i := 0 to |applied|
      invariant flags + Flags(applied[i..], lastSign) == Flags(applied, NO_SIGN)
      invariant argsTail + Spaced(ArgsOf(applied[i..])) == Spaced(ArgsOf(applied))
    {
      var a := applied[i];
      ghost var rest := applied[i + 1..];
      assert applied[i..][1..] == rest;
      Prepend(flags, if a.sign != lastSign then [a.sign] else [], [a.mode] + Flags(rest, a.sign));
      Prepend(flags + (if a.sign != lastSign then [a.sign] else []), [a.mode], Flags(rest, a.sign));
      ArgsStep(argsTail, a.arg, ArgsOf(rest));
      if a.sign != lastSign {
        flags := flags + [a.sign];
        lastSign := a.sign;
      } else {
        assert flags + [] == flags;
      }
      flags := flags + [a.mode];
      if a.arg != "" {
        argsTail := argsTail + " " + a.arg;
      }
    }
  }

  lemma ArgsStep(done: string, arg: string, rest: seq<string>)
    ensures done + Spaced((if arg == "" then [] else [arg]) + rest) ==
            (if arg == "" then done else done + " " + arg) + Spaced(rest)
  {
    if arg == "" {
      assert [] + rest == rest;
    } else {
      assert ([arg] + rest)[1..] == rest;
      Prepend(done, " " + arg, Spaced(rest));
      Prepend(done, " ", arg);
    }
  }

  /** The text of the answer to a mode query. */
  function ModeIsText(ch: Channel, viewerIsMember: bool): string
  {
    ch.name +
    if DescribeFlags(ch) == "" then "" else Spaced(["+" + DescribeFlags(ch)] + DescribeArgs(ch, viewerIsMember))
  }

  method ModeIs(ch: Channel, viewerIsMember: bool) returns (payload: string)
    ensures payload == ModeIsText(ch, viewerIsMember)
  {
    var flags, args := DescribeChannel(ch, viewerIsMember);
    payload := ch.name;
    if flags != "" {
      payload := payload + (" " + flags);
      ghost var done := payload;
      for i := 0 to |args|
        invariant payload + Spaced(args[i..]) == done + Spaced(args)
      {
        assert args[i..][1..] == args[i + 1..];
        Prepend(payload, " " + args[i], Spaced(args[i + 1..]));
        payload := payload + (" " + args[i]);
      }
      assert args[|args|..] == [];
      assert ([flags] + args)[1..] == args;
      Prepend(ch.name, " " + flags, Spaced(args));
    } else {
      assert ch.name + "" == ch.name;
    }
  }

  /** What an outsider is shown is what a member would be shown if the key were a star. */
  lemma OutsiderView(ch: Channel)
    ensures var masked := ch.(key := if ch.key == "" then "" else "*");
            ModeIsText(ch, false) == ModeIsText(masked, true)
  {
    var masked := ch.(key := if ch.key == "" then "" else "*");
    assert DescribeFlags(masked) == DescribeFlags(ch) && DescribeArgs(masked, true) == DescribeArgs(ch, false);
  }
}
