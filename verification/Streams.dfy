/** What one burst of reads or writes does to a connection, and what the lines of a stream are. */
module Streams {
  import opened IrcText
  import opened Framing

  // ---------------------------------------------------------------- lines as they are typed

  /** The texts one after the other, each ended by LF, or by CR LF where crs says so. */
  function Typed(texts: seq<string>, crs: seq<bool>): string
    requires |texts| == |crs|
  {
    if texts == [] then "" else texts[0] + (if crs[0] then "\r\n" else "\n") + Typed(texts[1..], crs[1..])
  }

  /** No text holds an LF, and none that is ended by LF alone ends in a CR of its own. */
  predicate Typeable(texts: seq<string>, crs: seq<bool>)
    requires |texts| == |crs|
  {
    forall i :: 0 <= i < |texts| ==>
      '\n' !in texts[i] && (texts[i] != "" && texts[i][|texts[i]| - 1] == '\r' ==> crs[i])
  }

  function NonEmpty(texts: seq<string>): seq<string>
  {
    if texts == [] then [] else (if texts[0] == "" then [] else [texts[0]]) + NonEmpty(texts[1..])
  }

  lemma LineEnd(text: string, cr: bool, rest: string)
    requires '\n' !in text && (text != "" && text[|text| - 1] == '\r' ==> cr)
    ensures var raw := text + if cr then "\r" else "";
            && StripCr(raw) == text && '\n' !in raw
            && text + ((if cr then "\r\n" else "\n") + rest) == raw + (['\n'] + rest)
  {
    if cr {
      var raw := text + "\r";
      assert raw[|raw| - 1] == '\r' && raw[..|raw| - 1] == text;
      assert "\r\n" + rest == "\r" + (['\n'] + rest);
    } else {
      assert text + "" == text;
      assert "\n" + rest == ['\n'] + rest;
    }
  }

  lemma FirstTyped(raw: string, rest: string)
    requires '\n' !in raw
    ensures Lines(raw + (['\n'] + rest)) == OneLine(raw) + Lines(rest)
    ensures Tail(raw + (['\n'] + rest)) == Tail(rest)
  {
    var s := raw + (['\n'] + rest);
    FindPast(raw, '\n', rest);
    assert s[..|raw|] == raw && s[|raw| + 1..] == rest;
    LinesUnfold(s, |raw|);
  }

  /** Lines that were ended by LF or CR LF come out as they were typed, the empty ones left out,
      and what has not been ended yet is kept. */
  lemma {:induction false} TypedReadBack(texts: seq<string>, crs: seq<bool>, tail: string)
    requires |texts| == |crs| && Typeable(texts, crs) && '\n' !in tail
    ensures Lines(Typed(texts, crs) + tail) == NonEmpty(texts)
    ensures Tail(Typed(texts, crs) + tail) == tail
    decreases |texts|
  {
    if texts == [] {
      assert "" + tail == tail;
      FindUnique(tail, '\n', 0, |tail|);
    } else {
      var rest := Typed(texts[1..], crs[1..]) + tail;
      TypedReadBack(texts[1..], crs[1..], tail);
      FirstText(texts[0], crs[0], rest);
      assert Typed(texts, crs) + tail == texts[0] + ((if crs[0] then "\r\n" else "\n") + rest) by {
        TypedOnce(texts[0], if crs[0] then "\r\n" else "\n", Typed(texts[1..], crs[1..]), tail);
      }
    }
  }

  lemma TypedOnce(a: string, b: string, c: string, d: string)
    ensures a + b + c + d == a + (b + (c + d))
  {
  }

  lemma FirstText(text: string, cr: bool, rest: string)
    requires '\n' !in text && (text != "" && text[|text| - 1] == '\r' ==> cr)
    ensures var s := text + ((if cr then "\r\n" else "\n") + rest);
            Lines(s) == (if text == "" then [] else [text]) + Lines(rest) && Tail(s) == Tail(rest)
  {
    LineEnd(text, cr, rest);
    FirstTyped(text + if cr then "\r" else "", rest);
  }

  // ---------------------------------------------------------------- a burst of reads

  /** The lines handed on of those that are there: all, or up to the first after which the client
      is marked. base counts the lines handed on before. */
  function HandedOn(base: nat, lines: seq<string>, marked: bool, closes: Handler): seq<string>
    decreases |lines|
  {
    if lines == [] then []
    else if marked || closes(base) then [lines[0]]
    else [lines[0]] + HandedOn(base + 1, lines[1..], marked, closes)
  }

  predicate Stops(base: nat, count: nat, marked: bool, closes: Handler)
  {
    exists n: nat :: base <= n < base + count && (marked || closes(n))
  }

  lemma StopsNext(base: nat, count: nat, marked: bool, closes: Handler)
    requires count > 0
    ensures Stops(base, count, marked, closes) <==>
            marked || closes(base) || Stops(base + 1, count - 1, marked, closes)
  {
    if Stops(base, count, marked, closes) {
      var n: nat :| base <= n < base + count && (marked || closes(n));
      assert n == base || base + 1 <= n < base + 1 + (count - 1);
    }
    if Stops(base + 1, count - 1, marked, closes) {
      var n: nat :| base + 1 <= n < base + 1 + (count - 1) && (marked || closes(n));
      assert base <= n < base + count;
    }
    if marked || closes(base) {
      assert base <= base < base + count && (marked || closes(base));
    }
  }

  /** s' is s after these lines and the tail behind them have been looked at. */
  ghost predicate Handed(s: Input, s': Input, lines: seq<string>, tail: string, closes: Handler)
  {
    var stops := Stops(|s.delivered|, |lines|, s.marked, closes);
    && s'.delivered == s.delivered + HandedOn(|s.delivered|, lines, s.marked, closes)
    && (s'.done <==> stops || |tail| > 8704)
    && (s'.marked <==> s.marked || s'.done)
    && (!stops ==> s'.recvBuf == tail)
  }

  lemma HandedLast(s: Input, s': Input, line: string, later: seq<string>, tail: string, closes: Handler)
    requires s'.delivered == s.delivered + [line] && s'.marked && s'.done
    requires s.marked || closes(|s.delivered|)
    ensures Handed(s, s', [line] + later, tail, closes)
  {
    assert ([line] + later)[0] == line;
    StopsNext(|s.delivered|, |[line] + later|, s.marked, closes);
  }

  lemma HandedNext(s: Input, s2: Input, s': Input, line: string, later: seq<string>, tail: string, closes: Handler)
    requires s2.delivered == s.delivered + [line] && !s.marked && !s2.marked && !closes(|s.delivered|)
    requires Handed(s2, s', later, tail, closes)
    ensures Handed(s, s', [line] + later, tail, closes)
  {
    var lines, base := [line] + later, |s.delivered|;
    assert lines[0] == line && lines[1..] == later;
    StopsNext(base, |lines|, s.marked, closes);
    Prepend(s.delivered, [line], HandedOn(base + 1, later, s.marked, closes));
  }

  lemma {:induction false} ProcessDoes(s: Input, closes: Handler)
    requires !s.done
    ensures Handed(s, ProcessBuffer(s, closes), Lines(s.recvBuf), Tail(s.recvBuf), closes)
    decreases |s.recvBuf|
  {
    var pos := Find(s.recvBuf, LF, 0);
    if pos == |s.recvBuf| {
      assert s.delivered + [] == s.delivered;
    } else {
      LinesUnfold(s.recvBuf, pos);
      var s1 := s.(recvBuf := s.recvBuf[pos + 1..]);
      var line, later, tail := StripCr(s.recvBuf[..pos]), Lines(s1.recvBuf), Tail(s1.recvBuf);
      if line == "" {
        assert [] + later == later;
        ProcessDoes(s1, closes);
      } else {
        var s2 := HandLine(s1, line, closes);
        if s2.marked {
          HandedLast(s, s2, line, later, tail, closes);
        } else {
          ProcessDoes(s2, closes);
          HandedNext(s, s2, ProcessBuffer(s2, closes), line, later, tail, closes);
        }
      }
    }
  }

  /** Some read of the burst would bring more than four lines' worth into the buffer. */
  predicate Floods(have: nat, chunks: seq<string>)
    decreases |chunks|
  {
    chunks != [] && (have + |chunks[0]| > 4 * 8704 || Floods(have + |chunks[0]|, chunks[1..]))
  }

  /** All of a burst of reads: a flood or an end of the connection closes it before a line is looked
      at; else the lines are handed on until one marks the client, and an overlong tail closes it. */
  lemma {:induction false} ReadDoes(s: Input, chunks: seq<string>, end: ReadEnd, closes: Handler)
    requires !s.done
    ensures var s' := InStep(s, Read(chunks, end), closes);
            var stream := s.recvBuf + Concat(chunks);
            var lines := Lines(stream);
            if Floods(|s.recvBuf|, chunks) || end == Ended
            then s'.done && s'.marked && s'.delivered == s.delivered
            else
              var stops := Stops(|s.delivered|, |lines|, s.marked, closes);
              && s'.delivered == s.delivered + HandedOn(|s.delivered|, lines, s.marked, closes)
              && (s'.done <==> stops || |Tail(stream)| > 8704)
              && (s'.marked <==> s.marked || s'.done)
              && (!stops ==> s'.recvBuf == Tail(stream))
    decreases |chunks|
  {
    if chunks == [] {
      assert s.recvBuf + "" == s.recvBuf;
      ProcessDoes(s, closes);
    } else if |s.recvBuf| + |chunks[0]| <= 4 * 8704 {
      var s1 := s.(recvBuf := s.recvBuf + chunks[0]);
      assert s.recvBuf + Concat(chunks) == s1.recvBuf + Concat(chunks[1..]);
      assert InStep(s, Read(chunks, end), closes) == InStep(s1, Read(chunks[1..], end), closes);
      ReadDoes(s1, chunks[1..], end, closes);
    }
  }

  // ---------------------------------------------------------------- sends and a burst of writes

  /** A message is taken whole exactly if the client is not marked and a mebibyte holds it together
      with what waits; a message that is too much marks the client. */
  lemma SendDoes(s: Output, data: string)
    ensures var s' := OutStep(s, Send(data));
            var fits := |s.sendBuf| + |data| <= 1024 * 1024;
            && s'.written == s.written
            && s'.accepted == s.accepted + (if !s.marked && fits then [data] else [])
            && (s'.marked <==> s.marked || !fits)
  {
  }

  function Total(takes: seq<nat>): nat
  {
    if takes == [] then 0 else takes[0] + Total(takes[1..])
  }

  lemma TakenTwice(written: string, buf: string, n: nat, m: nat)
    requires n <= |buf| && m <= |buf[n..]|
    ensures written + buf[..n] + buf[n..][..m] == written + buf[..n + m]
    ensures buf[n..][m..] == buf[n + m..]
  {
    assert buf[..n] + buf[n..][..m] == buf[..n + m];
  }

  /** A burst of writes writes as many bytes as the socket takes, as long as there are any, and
      marks the client exactly if the connection ends while bytes are left. */
  lemma {:induction false} WriteDoes(s: Output, takes: seq<nat>, end: ReadEnd)
    requires !s.marked
    ensures var s' := OutStep(s, Write(takes, end));
            var n := if Total(takes) <= |s.sendBuf| then Total(takes) else |s.sendBuf|;
            && s'.written == s.written + s.sendBuf[..n] && s'.sendBuf == s.sendBuf[n..]
            && s'.accepted == s.accepted
            && (s'.marked <==> end == Ended && Total(takes) < |s.sendBuf|)
    decreases |takes|
  {
    if s.sendBuf == "" {
      assert s.written + s.sendBuf[..0] == s.written;
    } else if takes == [] {
      assert s.written + s.sendBuf[..0] == s.written && s.sendBuf[0..] == s.sendBuf;
    } else {
      var n := if takes[0] <= |s.sendBuf| then takes[0] else |s.sendBuf|;
      var s1 := s.(sendBuf := s.sendBuf[n..], written := s.written + s.sendBuf[..n]);
      WriteDoes(s1, takes[1..], end);
      var m := if Total(takes[1..]) <= |s1.sendBuf| then Total(takes[1..]) else |s1.sendBuf|;
      TakenTwice(s.written, s.sendBuf, n, m);
      assert OutStep(s, Write(takes, end)) == OutStep(s1, Write(takes[1..], end));
    }
  }
}
