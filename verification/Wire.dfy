/** Lines written word by word, with no colon in front of the last one: what a reader gets. */
module Wire {
  import opened Wrappers
  import opened IrcText
  import opened IrcMessage

  // ---------------------------------------------------------------- words as parameters

  /** p survives as the n-th parameter of a line although nothing protects it. Where the parser
      takes the rest of the line whatever is in it, spaces inside do no harm. */
  predicate PlainAt(p: string, n: nat)
  {
    p != "" && p[0] != ':' && p[0] != ' ' && (n < MAX_MIDDLE ==> ' ' !in p)
  }

  predicate PlainAll(ps: seq<string>, n: nat)
  {
    forall i :: 0 <= i < |ps| ==> PlainAt(ps[i], n + i)
  }

  predicate NoneEmpty(ps: seq<string>)
  {
    forall i :: 0 <= i < |ps| ==> ps[i] != ""
  }

  lemma PlainAllStep(ps: seq<string>, n: nat)
    requires ps != []
    ensures PlainAll(ps, n) <==> PlainAt(ps[0], n) && PlainAll(ps[1..], n + 1)
  {
    assert forall i :: 0 <= i < |ps| - 1 ==> ps[1..][i] == ps[i + 1];
    if PlainAt(ps[0], n) && PlainAll(ps[1..], n + 1) {
      forall i | 0 <= i < |ps|
        ensures PlainAt(ps[i], n + i)
      {
        if i > 0 {
          assert PlainAt(ps[1..][i - 1], n + 1 + (i - 1));
        }
      }
    }
    if PlainAll(ps, n) {
      forall i | 0 <= i < |ps| - 1
        ensures PlainAt(ps[1..][i], n + 1 + i)
      {
        assert PlainAt(ps[i + 1], n + (i + 1));
      }
    }
  }

  lemma SpacedStart(ps: seq<string>)
    ensures Spaced(ps) == "" || Spaced(ps)[0] == ' '
  {
  }

  lemma SpacedCons(ps: seq<string>)
    requires ps != []
    ensures Spaced(ps) == " " + (ps[0] + Spaced(ps[1..]))
  {
  }

  lemma {:induction false} SkippedLength(s: string)
    ensures SkipSpaces(s) != s ==> |SkipSpaces(s)| < |s|
  {
    if s != "" && s[0] == ' ' {
      SkippedLength(s[1..]);
    }
  }

  /** A first word that is not plain does not come back. */
  lemma RoughFirst(p: string, rest: string, n: nat)
    requires p != "" && !PlainAt(p, n) && (rest == "" || rest[0] == ' ') && (n == MAX_MIDDLE ==> rest == "")
    ensures var r := ParseParams(SkipSpaces(" " + (p + rest)), n);
            r == [] || r[0] != p || (|r| == 1 && rest != "")
  {
    var s := p + rest;
    assert (" " + s)[1..] == s && s[0] == p[0];
    if p[0] == ' ' {
      RoughSpace(p, rest, n);
    } else if p[0] == ':' {
      assert SkipSpaces(" " + s) == s;
      assert |s[1..]| == |p| + |rest| - 1;
    } else {
      assert SkipSpaces(" " + s) == s;
      TokensFree(s, "");
    }
  }

  lemma RoughSpace(p: string, rest: string, n: nat)
    requires p != "" && p[0] == ' ' && (n == MAX_MIDDLE ==> rest == "")
    ensures var r := ParseParams(SkipSpaces(" " + (p + rest)), n);
            r == [] || r[0] != p || (|r| == 1 && rest != "")
  {
    var s := p + rest;
    assert (" " + s)[1..] == s && s[0] == ' ';
    var t := SkipSpaces(s);
    SkippedLength(s);
    assert |t| < |s|;
    if t != "" && t[0] != ':' && n != MAX_MIDDLE {
      TokensFree(t, "");
    }
  }

  lemma PlainFirst(p: string, rest: string, n: nat)
    requires PlainAt(p, n) && (rest == "" || rest[0] == ' ') && (n >= MAX_MIDDLE ==> n == MAX_MIDDLE && rest == "")
    ensures ParseParams(SkipSpaces(" " + (p + rest)), n) ==
            [p] + if n == MAX_MIDDLE then [] else ParseParams(SkipSpaces(rest), n + 1)
  {
    if n < MAX_MIDDLE {
      PlainParamReadsBack(p, rest, n);
    } else {
      assert p + rest == p;
      SkipOneSpace(p);
    }
  }

  lemma SameRest(p: string, r: seq<string>, rest: seq<string>)
    ensures [p] + r == [p] + rest <==> r == rest
  {
    assert ([p] + r)[1..] == r && ([p] + rest)[1..] == rest;
  }

  lemma PlainStep(ps: seq<string>, n: nat)
    requires ps != [] && n + |ps| <= MAX_MIDDLE + 1 && PlainAt(ps[0], n)
    requires n < MAX_MIDDLE ==>
               (ParseParams(SkipSpaces(Spaced(ps[1..])), n + 1) == ps[1..] <==> PlainAll(ps[1..], n + 1))
    ensures ParseParams(SkipSpaces(Spaced(ps)), n) == ps <==> PlainAll(ps, n)
  {
    var p, rest := ps[0], ps[1..];
    assert ps == [p] + rest;
    PlainAllStep(ps, n);
    SpacedCons(ps);
    SpacedStart(rest);
    PlainFirst(p, Spaced(rest), n);
    if n < MAX_MIDDLE {
      SameRest(p, ParseParams(SkipSpaces(Spaced(rest)), n + 1), rest);
    }
  }

  lemma RoughStep(ps: seq<string>, n: nat)
    requires ps != [] && n + |ps| <= MAX_MIDDLE + 1 && ps[0] != "" && !PlainAt(ps[0], n)
    ensures ParseParams(SkipSpaces(Spaced(ps)), n) != ps && !PlainAll(ps, n)
  {
    PlainAllStep(ps, n);
    SpacedCons(ps);
    SpacedStart(ps[1..]);
    RoughFirst(ps[0], Spaced(ps[1..]), n);
    assert ps[1..] != [] <==> Spaced(ps[1..]) != "";
  }

  /** Words read back as the parameters they were meant to be exactly if all of them are plain. */
  lemma {:induction false} SpacedExact(ps: seq<string>, n: nat)
    requires NoneEmpty(ps) && n + |ps| <= MAX_MIDDLE + 1
    ensures ParseParams(SkipSpaces(Spaced(ps)), n) == ps <==> PlainAll(ps, n)
    decreases |ps|
  {
    if ps == [] {
    } else if PlainAt(ps[0], n) {
      if n < MAX_MIDDLE {
        SpacedExact(ps[1..], n + 1);
      }
      PlainStep(ps, n);
    } else {
      RoughStep(ps, n);
    }
  }

  // ---------------------------------------------------------------- a line of words

  /** No word ends the line early. */
  predicate LastEndsClean(ps: seq<string>)
  {
    ps != [] ==> EndsClean(ps[|ps| - 1])
  }

  lemma {:induction false} SpacedEnd(ps: seq<string>)
    requires ps != [] && NoneEmpty(ps)
    ensures Spaced(ps) != "" && Spaced(ps)[|Spaced(ps)| - 1] == ps[|ps| - 1][|ps[|ps| - 1]| - 1]
  {
    if |ps| > 1 {
      SpacedEnd(ps[1..]);
    }
  }

  lemma {:induction false} SpacedBreaksIn(ps: seq<string>)
    ensures Breaks(Spaced(ps)) == BreaksIn(ps)
  {
    if ps != [] {
      SpacedBreaksIn(ps[1..]);
      SpacedBreaks("", ps[0]);
      assert " " + "" + ps[0] == " " + ps[0];
      BreaksConcat(" " + ps[0], Spaced(ps[1..]));
    }
  }

  /** A word to start a line with: it is no tag section, no prefix, and ends nothing. */
  predicate Opener(command: string)
  {
    Word(command) && Clean(command) && command[0] != ':' && command[0] != '@'
  }

  lemma {:induction false} CleanHasNoBreaks(s: string)
    requires Clean(s)
    ensures Breaks(s) == 0
  {
    if s != "" {
      CleanHasNoBreaks(s[1..]);
    }
  }

  lemma CleanLineExact(command: string, ps: seq<string>)
    requires Opener(command) && NoneEmpty(ps) && |ps| <= MAX_MIDDLE + 1 && LastEndsClean(ps)
    ensures var m := Tokenize(command + Spaced(ps));
            m.command == command && m.valid && (m.params == ps <==> PlainAll(ps, 0))
  {
    var line := command + Spaced(ps);
    SpacedStart(ps);
    TakeWord(command, Spaced(ps));
    assert EndsClean(line) by {
      if ps != [] {
        SpacedEnd(ps);
        assert line[|line| - 1] == Spaced(ps)[|Spaced(ps)| - 1];
      } else {
        assert line == command;
      }
    }
    StripsNothing(line);
    SpacedExact(ps, 0);
  }

  lemma UncleanLineLoses(command: string, ps: seq<string>)
    requires Opener(command) && NoneEmpty(ps) && !LastEndsClean(ps)
    ensures Tokenize(command + Spaced(ps)).params != ps
  {
    var line := command + Spaced(ps);
    SpacedEnd(ps);
    assert line[|line| - 1] == Spaced(ps)[|Spaced(ps)| - 1];
    StrippedBreaks(line);
    SkippedBreaks(StripEnd(line));
    TaggedBreaks(SkipSpaces(StripEnd(line)));
    BreaksConcat(command, Spaced(ps));
    SpacedBreaksIn(ps);
    CleanHasNoBreaks(command);
  }

  /** A command and words written out with spaces are read as that command with those words for
      parameters exactly if every word is plain and the last ends in no CR or LF. */
  lemma LineExact(command: string, ps: seq<string>)
    requires Opener(command) && NoneEmpty(ps) && |ps| <= MAX_MIDDLE + 1
    ensures var m := Tokenize(command + Spaced(ps));
            (m.params == ps <==> PlainAll(ps, 0) && LastEndsClean(ps)) &&
            (m.params == ps ==> m.command == command)
  {
    if LastEndsClean(ps) {
      CleanLineExact(command, ps);
    } else {
      UncleanLineLoses(command, ps);
    }
  }

  lemma BareLine(text: string)
    requires text != "" && text[0] != ' ' && text[0] != ':' && text[0] != '@' && StripEnd(text) != ""
    ensures Tokenize(text) == ParseCommand(StripEnd(text), None, None)
  {
    assert StripEnd(text)[0] == text[0];
  }

  lemma BehindSender(word: string, body: string)
    requires word != "" && word[0] == ':' && Free(word, " ") && body != "" && body[0] != ' '
    ensures ParseTagged(SkipSpaces(word + " " + body)) == ParseCommand(body, None, Some(ParsePrefix(word[1..])))
  {
    assert (word + " " + body)[0] == ':';
    TakeWordThen(word, body);
  }

  lemma StripsBehind(head: string, text: string)
    requires StripEnd(text) != ""
    ensures StripEnd(head + (text + "\r\n")) == head + StripEnd(text)
  {
    StripsCrLf(text);
    StripsLast(head, text + "\r\n");
  }

  lemma SentLine(sender: string, text: string)
    requires Free(sender, " ") && text != "" && text[0] != ' ' && StripEnd(text) != ""
    ensures Tokenize(":" + sender + " " + (text + "\r\n")) ==
            ParseCommand(StripEnd(text), None, Some(ParsePrefix(sender)))
  {
    var word, body := ":" + sender, StripEnd(text);
    assert body[0] == text[0] && word[1..] == sender;
    StripsBehind(word + " ", text);
    BehindSender(word, body);
  }

  /** A sender in front of a line and CR LF behind it do not change how the rest is read. */
  lemma SenderTransparent(sender: string, text: string)
    requires Free(sender, " ") && text != "" && text[0] != ' ' && text[0] != ':' && text[0] != '@'
    requires StripEnd(text) != ""
    ensures var m, n := Tokenize(":" + sender + " " + (text + "\r\n")), Tokenize(text);
            m.command == n.command && m.params == n.params
  {
    BareLine(text);
    SentLine(sender, text);
  }

  lemma StripsCrLf(text: string)
    ensures StripEnd(text + "\r\n") == StripEnd(text)
  {
    var t := text + "\r\n";
    assert t[..|t| - 1] == text + "\r";
    assert (text + "\r")[..|text|] == text;
  }
}
