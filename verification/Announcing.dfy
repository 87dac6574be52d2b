/** What MODE sends out: its announcements and its answers to queries, read as the text they are. */
module Announcing {
  import opened Wrappers
  import opened IrcText
  import opened IrcMessage
  import opened ServerState
  import opened Membership
  import opened Modes
  import opened Wire
  import Runs

  // ---------------------------------------------------------------- what is in an announcement

  /** The words of an announcement behind its command. */
  function Words(target: string, applied: seq<Applied>): seq<string>
  {
    [target, Flags(applied, NO_SIGN)] + ArgsOf(applied)
  }

  /** An announcement as its text, without the sender in front and the line end behind. */
  function Announcement(target: string, applied: seq<Applied>): string
  {
    "MODE" + Spaced(Words(target, applied))
  }

  method Announce(target: string, applied: seq<Applied>) returns (text: string)
    ensures text == Announcement(target, applied)
  {
    var flags, argsTail := Modes.Announce(applied);
    text := "MODE " + target + " " + flags + argsTail;
    SpacedConcat([target, flags], ArgsOf(applied));
    TwoSpaced(target, flags);
    AnnouncementText(target, flags, argsTail);
  }

  lemma AnnouncementText(a: string, b: string, c: string)
    ensures "MODE " + a + " " + b + c == "MODE" + (" " + a + (" " + b) + c)
  {
  }

  /** Every argument reaches the readers whole: none starts with a colon or a space, none but a
      thirteenth has a space in it, and the last does not end in CR or LF. */
  predicate Sendable(args: seq<string>)
  {
    PlainAll(args, 2) && LastEndsClean(args)
  }

  /** A letter or sign as announcements use them. */
  predicate FlagChar(c: char) { IsSign(c) || KnownMode(c) }

  lemma {:induction false} FlagsShape(applied: seq<Applied>, last: char)
    requires forall i :: 0 <= i < |applied| ==> Replayable(applied[i])
    ensures forall i :: 0 <= i < |Flags(applied, last)| ==> FlagChar(Flags(applied, last)[i])
    ensures applied != [] ==> Flags(applied, last) != ""
    decreases |applied|
  {
    if applied != [] {
      assert Replayable(applied[0]);
      FlagsShape(applied[1..], applied[0].sign);
    }
  }

  lemma {:induction false} ChainReplayable(s: State, ch: Channel, applied: seq<Applied>, end: Channel)
    requires Chain(s, ch, applied, end)
    ensures forall i :: 0 <= i < |applied| ==> Replayable(applied[i])
    decreases |applied|
  {
    if applied != [] {
      var o := Effect(s, ch, applied[0].sign, applied[0].mode, applied[0].arg);
      ChainReplayable(s, o.ch, applied[1..], end);
    }
  }

  lemma {:induction false} ArgsNoneEmpty(applied: seq<Applied>)
    ensures NoneEmpty(ArgsOf(applied))
  {
    if applied != [] {
      ArgsNoneEmpty(applied[1..]);
    }
  }

  lemma {:induction false} ArgsOfConcat(a: seq<Applied>, b: seq<Applied>)
    ensures ArgsOf(a + b) == ArgsOf(a) + ArgsOf(b)
    decreases |a|
  {
    if a == [] {
      assert a + b == b;
    } else {
      assert (a + b)[1..] == a[1..] + b;
      ArgsOfConcat(a[1..], b);
      Prepend(if a[0].arg == "" then [] else [a[0].arg], ArgsOf(a[1..]), ArgsOf(b));
    }
  }

  /** No argument is announced that was not given: there are no more than the command had. */
  lemma OneEffect(s: State, ch: Channel, sign: char, m: char, arg: string)
    requires IndexOk(s) && IsSign(sign) && KnownMode(m)
    ensures |ArgsOf(Effect(s, ch, sign, m, arg).applied)| <= if ConsumesArg(sign, m) then 1 else 0
  {
    EffectReplays(s, ch, sign, m, arg);
    var applied := Effect(s, ch, sign, m, arg).applied;
    if applied != [] {
      assert applied[1..] == [];
      SameLetter(s, ch, sign, m, arg);
    }
  }

  lemma SameLetter(s: State, ch: Channel, sign: char, m: char, arg: string)
    requires IsSign(sign) && KnownMode(m)
    ensures var applied := Effect(s, ch, sign, m, arg).applied;
            |applied| <= 1 && (applied != [] ==> applied[0].mode == m && applied[0].sign == sign)
  {
  }

  lemma {:induction false} ArgsBounded(s: State, flags: string, r: Run)
    requires IndexOk(s) && IsSign(r.sign)
    ensures |ArgsOf(ModeLoop(s, flags, r).applied)| <= |ArgsOf(r.applied)| + |r.args|
    decreases |flags|
  {
    if flags != "" {
      var m, next := flags[0], ModeChar(s, flags[0], r);
      if !IsSign(m) && KnownMode(m) && !(ConsumesArg(r.sign, m) && r.args == []) {
        var arg := if ConsumesArg(r.sign, m) then r.args[0] else "";
        OneEffect(s, r.ch, r.sign, m, arg);
        ArgsOfConcat(r.applied, Effect(s, r.ch, r.sign, m, arg).applied);
      }
      ArgsBounded(s, flags[1..], next);
    }
  }

  // ---------------------------------------------------------------- words that are always plain

  /** A name that folds to a valid name is made of the same characters where it matters. */
  lemma TargetPlain(target: string, name: string)
    requires ValidChannelName(name) && Fold(target) == Fold(name)
    ensures target != "" && ' ' !in target && target[0] != ':' && IsChannelName(target)
  {
    assert |target| == |name|;
    forall i | 0 <= i < |target|
      ensures target[i] != ' '
    {
      assert Fold(target)[i] == Fold(name)[i] && ChannelChar(name[i]);
    }
    assert Fold(target)[0] == Fold(name)[0];
  }

  lemma FlagsPlain(flags: string)
    requires flags != "" && forall i :: 0 <= i < |flags| ==> FlagChar(flags[i])
    ensures PlainAt(flags, 1) && EndsClean(flags)
  {
    assert forall c :: FlagChar(c) ==> c != ' ' && c != ':' && c != '\r' && c != '\n';
  }

  lemma PlainTwo(a: string, b: string, args: seq<string>)
    requires PlainAt(a, 0) && PlainAt(b, 1)
    ensures PlainAll([a, b] + args, 0) <==> PlainAll(args, 2)
  {
    var ps := [a, b] + args;
    assert ps[1..] == [b] + args && ps[1..][1..] == args;
    PlainAllStep(ps, 0);
    PlainAllStep(ps[1..], 1);
  }

  lemma WordsSendable(target: string, flags: string, args: seq<string>)
    requires PlainAt(target, 0) && PlainAt(flags, 1) && EndsClean(flags) && NoneEmpty(args)
    ensures var ps := [target, flags] + args;
            NoneEmpty(ps) && (PlainAll(ps, 0) && LastEndsClean(ps) <==> Sendable(args))
  {
    var ps := [target, flags] + args;
    PlainTwo(target, flags, args);
    assert ps[|ps| - 1] == if args == [] then flags else args[|args| - 1];
  }

  /** Who receives an announcement reads the letters and arguments it was meant to carry, if and
      only if every argument is sendable. */
  lemma AnnouncementReadsBack(target: string, name: string, applied: seq<Applied>)
    requires ValidChannelName(name) && Fold(target) == Fold(name)
    requires applied != [] && forall i :: 0 <= i < |applied| ==> Replayable(applied[i])
    requires |ArgsOf(applied)| <= MAX_MIDDLE - 1
    ensures var m := Tokenize(Announcement(target, applied));
            && (m.params == Words(target, applied) <==> Sendable(ArgsOf(applied)))
            && (m.params == Words(target, applied) ==> m.command == "MODE")
  {
    var flags, args := Flags(applied, NO_SIGN), ArgsOf(applied);
    assert PlainAt(flags, 1) && EndsClean(flags) by {
      FlagsShape(applied, NO_SIGN);
      FlagsPlain(flags);
    }
    TargetPlain(target, name);
    ArgsNoneEmpty(applied);
    WordsSendable(target, flags, args);
    LineExact("MODE", [target, flags] + args);
  }

  /** The sender and the line end that go with it change nothing about that. */
  lemma ReceivedAnnouncement(sender: string, target: string, applied: seq<Applied>)
    requires Free(sender, " ")
    ensures var m := Tokenize(":" + sender + " " + (Announcement(target, applied) + "\r\n"));
            var n := Tokenize(Announcement(target, applied));
            m.command == n.command && m.params == n.params
  {
    var text := Announcement(target, applied);
    assert text[0] == 'M';
    StripKeepsFirst(text);
    SenderTransparent(sender, text);
  }

  lemma {:induction false} StripKeepsFirst(s: string)
    requires s != "" && s[0] != '\r' && s[0] != '\n'
    ensures StripEnd(s) != ""
    decreases |s|
  {
    if !EndsClean(s) {
      StripKeepsFirst(s[..|s| - 1]);
    }
  }

  // ---------------------------------------------------------------- an announcement, sent again

  lemma FlagsStartWithSign(applied: seq<Applied>)
    requires applied != [] && IsSign(applied[0].sign)
    ensures |Flags(applied, NO_SIGN)| >= 2 && IsSign(Flags(applied, NO_SIGN)[0])
    ensures Flags(applied, NO_SIGN)[1] == applied[0].mode
  {
    var a := applied[0];
    assert Flags(applied, NO_SIGN) == [a.sign] + ([a.mode] + Flags(applied[1..], a.sign));
  }

  /** Given as parameters, an announcement is no query, changes the same things and is announced
      the same. */
  lemma WordsAreACommand(s: State, id: int, params: seq<string>)
    requires Inv(s) && ModeRun(s, id, params).Some?
    requires ModeRun(s, id, params).value.applied != []
    ensures var applied := ModeRun(s, id, params).value.applied;
            var again := Words(params[0], applied);
            && Mode(s, id, again) == Mode(s, id, params)
            && ModeRun(s, id, again).Some? && ModeRun(s, id, again).value.applied == applied
  {
    var k := Fold(params[0]);
    var ch, r := s.channels[k], ModeRun(s, id, params).value;
    var flags, args := Flags(r.applied, NO_SIGN), ArgsOf(r.applied);
    var again := [params[0], flags] + args;
    AnnouncementReplays(s, ch, params[1], params[2..]);
    ModeLoopChains(s, ch, params[1], Start(ch, params[2..]));
    assert Replayable(r.applied[0]);
    FlagsStartWithSign(r.applied);
    assert r.applied[0].mode == 'b' ==> args != [];
    assert again[0] == params[0] && again[1] == flags && again[2..] == args;
    assert !ModeQuery(s, again);
  }

  lemma RunReadsBack(s: State, id: int, params: seq<string>)
    requires Inv(s) && ModeRun(s, id, params).Some? && |params| <= MAX_MIDDLE + 1
    requires ModeRun(s, id, params).value.applied != []
    ensures var applied := ModeRun(s, id, params).value.applied;
            var m := Tokenize(Announcement(params[0], applied));
            && (m.params == Words(params[0], applied) <==> Sendable(ArgsOf(applied)))
            && (m.params == Words(params[0], applied) ==> m.command == "MODE")
  {
    var k := Fold(params[0]);
    var ch, r := s.channels[k], ModeRun(s, id, params).value;
    assert ChannelOk(k, ch, s.nextGen);
    ModeLoopChains(s, ch, params[1], Start(ch, params[2..]));
    ChainReplayable(s, ch, r.applied, r.ch);
    ArgsBounded(s, params[1], Start(ch, params[2..]));
    AnnouncementReadsBack(params[0], ch.name, r.applied);
  }

  lemma ModeGate(count: nat)
    ensures Runs.Gate(true, "MODE", count) == Runs.Accepted(Runs.Mode)
  {
  }

  lemma ModeMessage(s: State, id: int, msg: Message, now: int)
    requires id in s.clients && s.clients[id].registered && msg.command == "MODE"
    ensures Runs.Dispatch(s, id, msg.command, msg.params, now) == Mode(s, id, msg.params)
  {
    ModeGate(|msg.params|);
    Runs.DispatchRuns(s, id, "MODE", msg.params, now, Runs.Mode);
    Runs.ExecuteMode(s, id, msg.params, now);
  }

  lemma ModeLine(s: State, id: int, text: string, now: int)
    requires id in s.clients && s.clients[id].registered && Tokenize(text).command == "MODE"
    ensures Runs.HandleLine(s, id, text, now) == Mode(s, id, Tokenize(text).params)
  {
    ModeMessage(s, id, Tokenize(text), now);
  }

  lemma OperatorRegistered(s: State, k: string, id: int)
    requires Inv(s) && k in s.channels && id in s.channels[k].operators
    ensures id in s.clients && s.clients[id].registered
  {
    assert ChannelOk(k, s.channels[k], s.nextGen);
  }

  /** A command has no more parameters than its line can carry. */
  lemma ParamsBounded(line: string)
    ensures |Tokenize(line).params| <= MAX_MIDDLE + 1
  {
    if Tokenize(line).valid {
      ParsedIsWellFormed(line);
    }
  }

  /** The text that a MODE line announces, sent as a line by the same operator before the change
      instead of the original. It is read as what was announced exactly if the arguments are
      sendable, and then it does what the original does and is announced the same. */
  lemma AnnouncementIsACommand(s: State, id: int, line: string, now: int)
    requires Inv(s) && ModeRun(s, id, Tokenize(line).params).Some?
    requires ModeRun(s, id, Tokenize(line).params).value.applied != []
    ensures id in s.clients
    ensures var params := Tokenize(line).params;
            var applied := ModeRun(s, id, params).value.applied;
            var text := Announcement(params[0], applied);
            && (Tokenize(text).params == Words(params[0], applied) <==> Sendable(ArgsOf(applied)))
            && (Sendable(ArgsOf(applied)) ==>
                  && Runs.HandleLine(s, id, text, now) == Mode(s, id, params)
                  && ModeRun(s, id, Tokenize(text).params).Some?
                  && ModeRun(s, id, Tokenize(text).params).value.applied == applied)
  {
    var params := Tokenize(line).params;
    var applied := ModeRun(s, id, params).value.applied;
    ParamsBounded(line);
    OperatorRegistered(s, Fold(params[0]), id);
    RunReadsBack(s, id, params);
    WordsAreACommand(s, id, params);
    if Sendable(ArgsOf(applied)) {
      ModeLine(s, id, Announcement(params[0], applied), now);
    }
  }

  lemma KeyLoop(s: State, ch: Channel, key: string, more: seq<string>)
    requires key != ""
    ensures var r := ModeLoop(s, "+k", Start(ch, [key] + more));
            r.ch == ch.(key := key) && r.applied == [Applied('+', 'k', key)]
  {
    var k, args := ['k'] + "", [key] + more;
    LoopTwo(s, '+', k, Start(ch, args));
    LoopTwo(s, 'k', "", Start(ch, args));
    assert "+k" == ['+'] + k;
  }

  lemma KeyMode(s: State, id: int, name: string, key: string, more: seq<string>)
    requires IsChannelName(name) && Fold(name) in s.channels && id in s.channels[Fold(name)].operators && key != ""
    ensures var params := [name, "+k", key] + more;
            && ModeRun(s, id, params).Some?
            && ModeRun(s, id, params).value.applied == [Applied('+', 'k', key)]
            && Mode(s, id, params).channels[Fold(name)].key == key
  {
    var params := [name, "+k", key] + more;
    assert params[2..] == [key] + more && |params[1]| == 2 && params[1][0] == '+' && params[1][1] == 'k';
    assert !ModeQuery(s, params);
    KeyLoop(s, s.channels[Fold(name)], key, more);
  }

  /** A key with a space in it (`+k :a b`): it is set whole and announced, but who sends the
      announcement again sets only what stands before the space. */
  lemma SpacedKeyChanges(s: State, id: int, name: string, a: string, b: string, now: int)
    requires Inv(s) && IsChannelName(name) && Fold(name) in s.channels && id in s.channels[Fold(name)].operators
    requires !NeedsColon(a) && !NeedsColon(b) && EndsClean(b)
    ensures id in s.clients
    ensures var params := [name, "+k", a + " " + b];
            && Mode(s, id, params).channels[Fold(name)].key == a + " " + b
            && ModeRun(s, id, params).Some?
            && var again := Runs.HandleLine(s, id, Announcement(name, ModeRun(s, id, params).value.applied), now);
               Fold(name) in again.channels && again.channels[Fold(name)].key == a
  {
    var k, key := Fold(name), a + " " + b;
    KeyMode(s, id, name, key, []);
    KeyMode(s, id, name, a, [b]);
    assert [name, "+k", key] + [] == [name, "+k", key];
    OperatorRegistered(s, k, id);
    SpacedKeyText(s, k, name, a, b);
    ModeLine(s, id, Announcement(name, [Applied('+', 'k', key)]), now);
  }

  lemma KeyWords(key: string)
    requires key != ""
    ensures var applied := [Applied('+', 'k', key)]; Flags(applied, NO_SIGN) == "+k" && ArgsOf(applied) == [key]
  {
    var applied := [Applied('+', 'k', key)];
    assert applied[0].arg == key && applied[1..] == [];
    assert Flags(applied[1..], '+') == "" && ArgsOf(applied[1..]) == [];
    assert Flags(applied, NO_SIGN) == ['+'] + (['k'] + "");
    assert ArgsOf(applied) == [key] + [];
  }

  lemma SpacedKeyWords(name: string, a: string, b: string)
    ensures Announcement(name, [Applied('+', 'k', a + " " + b)]) == "MODE" + Spaced([name, "+k"] + [a, b])
  {
    var key := a + " " + b;
    KeyWords(key);
    SpacedConcat([name, "+k"], [key]);
    SpacedConcat([name, "+k"], [a, b]);
    SplitWord(a, b);
  }

  lemma SpacedKeyText(s: State, k: string, name: string, a: string, b: string)
    requires Inv(s) && k in s.channels && Fold(name) == k
    requires !NeedsColon(a) && !NeedsColon(b) && EndsClean(b)
    ensures var m := Tokenize(Announcement(name, [Applied('+', 'k', a + " " + b)]));
            m.command == "MODE" && m.params == [name, "+k", a] + [b]
  {
    assert PlainAt(name, 0) by {
      assert ChannelOk(k, s.channels[k], s.nextGen);
      TargetPlain(name, s.channels[k].name);
    }
    SpacedKeyWords(name, a, b);
    PlainKeyWords(name, a, b);
    LineExact("MODE", [name, "+k"] + [a, b]);
  }

  lemma PlainKeyWords(name: string, a: string, b: string)
    requires PlainAt(name, 0) && !NeedsColon(a) && !NeedsColon(b) && EndsClean(b)
    ensures var ps := [name, "+k"] + [a, b];
            NoneEmpty(ps) && PlainAll(ps, 0) && LastEndsClean(ps) && ps == [name, "+k", a] + [b]
  {
    FlagsPlain("+k");
    PlainTwo(name, "+k", [a, b]);
  }

  /** Two words are written like one with a space in it. */
  lemma SplitWord(a: string, b: string)
    ensures Spaced([a + " " + b]) == Spaced([a, b])
  {
    assert [a, b][1..] == [b] && [b][1..] == [] && [a + " " + b][1..] == [];
    assert Spaced([b]) == " " + b + "";
    assert Spaced([a + " " + b]) == " " + (a + " " + b) + "";
  }

  // ---------------------------------------------------------------- the answer to a query

  /** The words of the answer that nick gets about ch, and its text. */
  function ViewWords(nick: string, ch: Channel): seq<string>
  {
    [nick, ch.name] +
    if DescribeFlags(ch) == "" then [] else ["+" + DescribeFlags(ch)] + DescribeArgs(ch, true)
  }

  function Answer(nick: string, ch: Channel): string
  {
    "324 " + nick + " " + ModeIsText(ch, true)
  }

  lemma AnswerText(a: string, b: string, c: string)
    ensures "324 " + a + " " + (b + c) == "324" + ((" " + a + (" " + b)) + c)
  {
  }

  lemma TwoSpaced(a: string, b: string)
    ensures Spaced([a, b]) == " " + a + (" " + b)
  {
    assert [a, b][1..] == [b] && [b][1..] == [];
    assert Spaced([b]) == " " + b + "";
  }

  lemma AnswerIsWords(nick: string, ch: Channel)
    ensures Answer(nick, ch) == "324" + Spaced(ViewWords(nick, ch))
  {
    var rest := if DescribeFlags(ch) == "" then [] else ["+" + DescribeFlags(ch)] + DescribeArgs(ch, true);
    SpacedConcat([nick, ch.name], rest);
    TwoSpaced(nick, ch.name);
    AnswerText(nick, ch.name, Spaced(rest));
  }

  /** The key, if there is one, comes through the answer whole. */
  predicate KeySendable(ch: Channel)
  {
    ch.key != "" ==> !NeedsColon(ch.key) && (ch.userLimit > 0 || EndsClean(ch.key))
  }

  lemma {:induction false} DecimalPlain(n: nat)
    ensures ToDecimal(n) != "" && forall i :: 0 <= i < |ToDecimal(n)| ==> IsDigit(ToDecimal(n)[i])
  {
    if n >= 10 {
      DecimalPlain(n / 10);
    }
  }

  lemma ArgsPlain(ch: Channel)
    ensures var args := DescribeArgs(ch, true);
            && NoneEmpty(args) && |args| <= 2
            && (PlainAll(args, 3) && LastEndsClean(args) <==> KeySendable(ch))
  {
    var args := DescribeArgs(ch, true);
    DecimalPlain(ch.userLimit);
    if ch.userLimit > 0 {
      var d := ToDecimal(ch.userLimit);
      assert forall i :: 0 <= i < |d| ==> IsDigit(d[i]);
      assert PlainAt(d, 3) && PlainAt(d, 4) && EndsClean(d);
    }
    if ch.key != "" {
      assert args[0] == ch.key;
      assert PlainAt(args[0], 3 + 0) <==> !NeedsColon(ch.key);
    }
  }

  lemma DescribedFlagChars(ch: Channel)
    ensures var flags := "+" + DescribeFlags(ch);
            forall i :: 0 <= i < |flags| ==> FlagChar(flags[i])
  {
  }

  lemma FlaggedPlain(nick: string, name: string, flags: string, args: seq<string>)
    requires PlainAt(nick, 0) && PlainAt(name, 1) && PlainAt(flags, 2) && EndsClean(flags)
    ensures var ps := [nick, name] + ([flags] + args);
            PlainAll(ps, 0) && LastEndsClean(ps) <==> PlainAll(args, 3) && LastEndsClean(args)
  {
    var ps := [nick, name] + ([flags] + args);
    PlainTwo(nick, name, [flags] + args);
    assert ([flags] + args)[1..] == args;
    PlainAllStep([flags] + args, 2);
    assert ps[|ps| - 1] == if args == [] then flags else args[|args| - 1];
  }

  lemma ViewPlain(nick: string, ch: Channel)
    requires ValidNick(nick) && ValidChannelName(ch.name)
    ensures var ps := ViewWords(nick, ch);
            && NoneEmpty(ps) && |ps| <= 5
            && (PlainAll(ps, 0) && LastEndsClean(ps) <==> KeySendable(ch))
  {
    assert PlainAt(nick, 0) by {
      ValidNickIsPlain(nick);
      assert nick[0] in nick;
    }
    assert PlainAt(ch.name, 1) by {
      TargetPlain(ch.name, ch.name);
    }
    ArgsPlain(ch);
    NameEndsClean(ch.name);
    if DescribeFlags(ch) == "" {
      assert ViewWords(nick, ch) == [nick, ch.name] + [];
      PlainTwo(nick, ch.name, []);
      assert ch.key == "";
    } else {
      DescribedFlagChars(ch);
      FlagsPlain("+" + DescribeFlags(ch));
      FlaggedPlain(nick, ch.name, "+" + DescribeFlags(ch), DescribeArgs(ch, true));
    }
  }

  lemma NameEndsClean(name: string)
    requires ValidChannelName(name)
    ensures EndsClean(name)
  {
    assert ChannelChar(name[|name| - 1]);
  }

  /** Whoever asks for the modes reads from the answer what it was meant to say, exactly if the key
      is sendable; and the letters and arguments after the name, fed to MODE on a channel with
      nothing set, then rebuild the settings. */
  lemma AnswerComplete(s: State, nick: string, ch: Channel, blank: Channel)
    requires ValidNick(nick) && ValidChannelName(ch.name) && ch.userLimit <= MAX_USER_LIMIT && Unset(blank)
    ensures var m := Tokenize(Answer(nick, ch));
            && (m.params == ViewWords(nick, ch) <==> KeySendable(ch))
            && (KeySendable(ch) && |m.params| > 2 ==>
                  ModeLoop(s, m.params[2], Start(blank, m.params[3..])).ch == WithSettings(blank, ch))
            && (KeySendable(ch) && |m.params| <= 2 ==> blank == WithSettings(blank, ch))
  {
    var ps := ViewWords(nick, ch);
    AnswerIsWords(nick, ch);
    ViewPlain(nick, ch);
    LineExact("324", ps);
    ViewComplete(s, blank, ch);
    if DescribeFlags(ch) != "" {
      assert ps[2] == "+" + DescribeFlags(ch) && ps[3..] == DescribeArgs(ch, true);
    }
  }

  /** The answer as it is sent: with the server's name in front and the line end behind. */
  function Numeric(serverName: string, nick: string, ch: Channel): string
  {
    ":" + serverName + " " + (Answer(nick, ch) + "\r\n")
  }

  lemma NumericTransparent(serverName: string, nick: string, ch: Channel)
    requires Free(serverName, " ")
    ensures Tokenize(Numeric(serverName, nick, ch)).command == Tokenize(Answer(nick, ch)).command
    ensures Tokenize(Numeric(serverName, nick, ch)).params == Tokenize(Answer(nick, ch)).params
  {
    var text := Answer(nick, ch);
    assert text[0] == '3';
    StripKeepsFirst(text);
    SenderTransparent(serverName, text);
  }

  /** In every run, for every channel and every connected client that has a nick. */
  lemma ViewsComplete(password: string, es: seq<Runs.Event>, k: string, id: int, blank: Channel, serverName: string)
    requires var s := Runs.Run(Initial(password), es);
             k in s.channels && id in s.clients && s.clients[id].nick != "" && Unset(blank)
    requires Free(serverName, " ")
    ensures var s := Runs.Run(Initial(password), es);
            var ch := s.channels[k];
            var m := Tokenize(Numeric(serverName, s.clients[id].nick, ch));
            && (m.params == ViewWords(s.clients[id].nick, ch) <==> KeySendable(ch))
            && (KeySendable(ch) && |m.params| > 2 ==>
                  ModeLoop(s, m.params[2], Start(blank, m.params[3..])).ch == WithSettings(blank, ch))
  {
    Runs.ReachableOk(password, es);
    var s := Runs.Run(Initial(password), es);
    assert ChannelOk(k, s.channels[k], s.nextGen) && RegistrationOk(s.clients[id]);
    NumericTransparent(serverName, s.clients[id].nick, s.channels[k]);
    AnswerComplete(s, s.clients[id].nick, s.channels[k], blank);
  }
}
