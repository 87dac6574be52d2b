/** One client's byte streams: input cut into lines, output buffered until the socket takes it. */
module Framing {
  import opened IrcText

  const MAX_LINE_LEN := 8704
  const MAX_SENDBUFLEN := 1048576

  const LF := '\n'

  // ---------------------------------------------------------------- what a stream means

  predicate LfFree(s: string) { Find(s, LF, 0) == |s| }

  function StripCr(line: string): string
  {
    if line != "" && line[|line| - 1] == '\r' then line[..|line| - 1] else line
  }

  /** The nonempty LF-terminated lines of a stream, without one trailing CR. */
  function Lines(s: string): seq<string>
    decreases |s|
  {
    var pos := Find(s, LF, 0);
    if pos == |s| then []
    else
      var line := StripCr(s[..pos]);
      (if line == "" then [] else [line]) + Lines(s[pos + 1..])
  }

  /** What follows the last LF. */
  function Tail(s: string): string
    decreases |s|
  {
    var pos := Find(s, LF, 0);
    if pos == |s| then s else Tail(s[pos + 1..])
  }

  lemma {:induction false} TailLfFree(s: string)
    ensures LfFree(Tail(s))
    decreases |s|
  {
    var pos := Find(s, LF, 0);
    if pos < |s| {
      TailLfFree(s[pos + 1..]);
    }
  }

  /** Reading on from the unterminated tail gives the lines of the whole stream. */
  lemma {:induction false} LinesConcat(a: string, b: string)
    ensures Lines(a + b) == Lines(a) + Lines(Tail(a) + b)
    ensures Tail(a + b) == Tail(Tail(a) + b)
    decreases |a|
  {
    var pos := Find(a, LF, 0);
    if pos < |a| {
      FirstLine(a, b, pos);
      LinesConcat(a[pos + 1..], b);
      Prepend(OneLine(a[..pos]), Lines(a[pos + 1..]), Lines(Tail(a) + b));
    }
  }

  function OneLine(raw: string): seq<string>
  {
    if StripCr(raw) == "" then [] else [StripCr(raw)]
  }

  /** The first line of a stream is there whatever follows it. */
  lemma FirstLine(a: string, b: string, pos: nat)
    requires pos == Find(a, LF, 0) < |a|
    ensures Lines(a) == OneLine(a[..pos]) + Lines(a[pos + 1..]) && Tail(a) == Tail(a[pos + 1..])
    ensures Lines(a + b) == OneLine(a[..pos]) + Lines(a[pos + 1..] + b) && Tail(a + b) == Tail(a[pos + 1..] + b)
  {
    var whole := a + b;
    assert pos == Find(whole, LF, 0) by {
      FindFirst(a, LF, 0);
      FindUnique(whole, LF, 0, pos);
    }
    assert whole[..pos] == a[..pos];
    assert whole[pos + 1..] == a[pos + 1..] + b;
    LinesUnfold(a, pos);
    LinesUnfold(whole, pos);
  }

  lemma LinesUnfold(s: string, pos: nat)
    requires pos == Find(s, LF, 0) < |s|
    ensures Lines(s) == OneLine(s[..pos]) + Lines(s[pos + 1..])
    ensures Tail(s) == Tail(s[pos + 1..])
  {
  }

  lemma LinesPrefix(a: string, b: string)
    ensures Lines(a) <= Lines(a + b)
  {
    LinesConcat(a, b);
  }

  // ---------------------------------------------------------------- reading

  /** delivered: the lines handed to the line handler; done: the read path has closed the
      client or seen it marked, so it is not read again before the sweep removes it. */
  datatype Input = Input(recvBuf: string, delivered: seq<string>, marked: bool, done: bool)

  const FRESH_INPUT := Input("", [], false, false)

  /** After which of its lines the handler leaves the client marked for close. */
  type Handler = nat -> bool

  function HandLine(s: Input, line: string, closes: Handler): Input
  {
    var n := |s.delivered|;
    s.(delivered := s.delivered + [line], marked := s.marked || closes(n), done := s.marked || closes(n))
  }

  function ProcessBuffer(s: Input, closes: Handler): Input
    decreases |s.recvBuf|
  {
    var pos := Find(s.recvBuf, LF, 0);
    if pos == |s.recvBuf| then
      if |s.recvBuf| > MAX_LINE_LEN then s.(marked := true, done := true) else s
    else
      var line := StripCr(s.recvBuf[..pos]);
      var s' := s.(recvBuf := s.recvBuf[pos + 1..]);
      if line == "" then ProcessBuffer(s', closes)
      else
        var s'' := HandLine(s', line, closes);
        if s''.marked then s'' else ProcessBuffer(s'', closes)
  }

  /** How a burst of reads ended: no more data for now, or the connection is over. */
  datatype ReadEnd = WouldBlock | Ended

  function Receive(s: Input, chunks: seq<string>, end: ReadEnd, closes: Handler): Input
    decreases |chunks|
  {
    if chunks == [] then
      if end == Ended then s.(marked := true, done := true) else ProcessBuffer(s, closes)
    else if |s.recvBuf| + |chunks[0]| > MAX_LINE_LEN * 4 then s.(marked := true, done := true)
    else Receive(s.(recvBuf := s.recvBuf + chunks[0]), chunks[1..], end, closes)
  }

  /** What can happen to a client between two sweeps: it is read, or marked by someone else. */
  datatype InEvent = Read(chunks: seq<string>, end: ReadEnd) | MarkedElsewhere

  function InStep(s: Input, e: InEvent, closes: Handler): Input
  {
    if s.done then s
    else match e
      case MarkedElsewhere => s.(marked := true)
      case Read(chunks, end) => Receive(s, chunks, end, closes)
  }

  function InRun(es: seq<InEvent>, closes: Handler): Input
  {
    if es == [] then FRESH_INPUT
    else InStep(InRun(es[..|es| - 1], closes), es[|es| - 1], closes)
  }

  function Concat(chunks: seq<string>): string
  {
    if chunks == [] then "" else chunks[0] + Concat(chunks[1..])
  }

  /** Every byte the client sent, whatever the reads it arrived in. */
  function Sent(es: seq<InEvent>): string
  {
    if es == [] then ""
    else
      var e := es[|es| - 1];
      Sent(es[..|es| - 1]) + if e.Read? then Concat(e.chunks) else ""
  }

  /** Once the total input is stream: lines delivered so far, and the tail kept. */
  ghost predicate Framed(s: Input, stream: string)
  {
    && s.delivered <= Lines(stream)
    && (!s.done ==>
      && s.delivered == Lines(stream)
      && s.recvBuf == Tail(stream)
      && |s.recvBuf| <= MAX_LINE_LEN)
  }

  /** r was reached from a state that had delivered base and held a buffer with these lines. */
  ghost predicate Delivers(r: Input, base: seq<string>, lines: seq<string>, tail: string)
  {
    && base <= r.delivered <= base + lines
    && (!r.done ==>
      && r.delivered == base + lines
      && r.recvBuf == tail
      && |r.recvBuf| <= MAX_LINE_LEN)
  }

  lemma DeliversShift(r: Input, base: seq<string>, line: string, lines: seq<string>, tail: string)
    requires Delivers(r, base + [line], lines, tail)
    ensures Delivers(r, base, [line] + lines, tail)
  {
    assert base + ([line] + lines) == base + [line] + lines;
    assert base <= base + [line];
  }

  lemma {:induction false} ProcessDelivers(s: Input, closes: Handler)
    requires !s.done
    ensures Delivers(ProcessBuffer(s, closes), s.delivered, Lines(s.recvBuf), Tail(s.recvBuf))
    decreases |s.recvBuf|
  {
    var pos := Find(s.recvBuf, LF, 0);
    if pos < |s.recvBuf| {
      var line := StripCr(s.recvBuf[..pos]);
      var s' := s.(recvBuf := s.recvBuf[pos + 1..]);
      var later := Lines(s'.recvBuf);
      LinesUnfold(s.recvBuf, pos);
      if line == "" {
        assert [] + later == later;
        ProcessDelivers(s', closes);
      } else {
        var s'' := HandLine(s', line, closes);
        if s''.marked {
          StopDelivers(s'', later, Tail(s'.recvBuf));
        } else {
          ProcessDelivers(s'', closes);
        }
        DeliversShift(ProcessBuffer(s, closes), s.delivered, line, later, Tail(s'.recvBuf));
      }
    } else {
      assert s.delivered + [] == s.delivered;
    }
  }

  lemma StopDelivers(s: Input, lines: seq<string>, tail: string)
    requires s.done
    ensures Delivers(s, s.delivered, lines, tail)
  {
    assert s.delivered <= s.delivered + lines;
  }

  lemma FinishBurst(s: Input, seen: string, more: string, closes: Handler)
    requires !s.done && s.delivered == Lines(seen) && s.recvBuf == Tail(seen) + more
    ensures Framed(ProcessBuffer(s, closes), seen + more)
  {
    LinesConcat(seen, more);
    ProcessDelivers(s, closes);
  }

  /** A burst of reads on top of a stream already framed. */
  lemma {:induction false} ReceiveDelivers(s: Input, seen: string, more: string, chunks: seq<string>,
                                           end: ReadEnd, closes: Handler)
    requires !s.done && s.delivered == Lines(seen) && s.recvBuf == Tail(seen) + more
    ensures Framed(Receive(s, chunks, end, closes), seen + (more + Concat(chunks)))
    decreases |chunks|
  {
    LinesPrefix(seen, more + Concat(chunks));
    if chunks == [] {
      assert more + Concat(chunks) == more;
      if end != Ended {
        FinishBurst(s, seen, more, closes);
      }
    } else if |s.recvBuf| + |chunks[0]| <= MAX_LINE_LEN * 4 {
      var s' := s.(recvBuf := s.recvBuf + chunks[0]);
      assert s'.recvBuf == Tail(seen) + (more + chunks[0]);
      ReceiveDelivers(s', seen, more + chunks[0], chunks[1..], end, closes);
      assert more + chunks[0] + Concat(chunks[1..]) == more + Concat(chunks);
    }
  }

  /** Framing over whole runs: the delivered lines are always a prefix of the stream's lines,
      and all of them (with exactly the unterminated tail kept) unless the read path closed. */
  lemma {:induction false} FramingInvariant(es: seq<InEvent>, closes: Handler)
    ensures Framed(InRun(es, closes), Sent(es))
  {
    if es != [] {
      var init, e := es[..|es| - 1], es[|es| - 1];
      FramingInvariant(init, closes);
      var s := InRun(init, closes);
      match e {
        case MarkedElsewhere =>
          assert Sent(es) == Sent(init);
        case Read(chunks, end) =>
          if s.done {
            LinesPrefix(Sent(init), Concat(chunks));
          } else {
            ReceiveDelivers(s, Sent(init), "", chunks, end, closes);
            assert "" + Concat(chunks) == Concat(chunks);
          }
      }
    }
  }

  /** How the bytes were cut into reads does not matter. */
  lemma ChunkingIrrelevant(es: seq<InEvent>, fs: seq<InEvent>, closes: Handler)
    requires Sent(es) == Sent(fs)
    requires !InRun(es, closes).done && !InRun(fs, closes).done
    ensures InRun(es, closes).delivered == InRun(fs, closes).delivered
    ensures InRun(es, closes).recvBuf == InRun(fs, closes).recvBuf
    ensures LfFree(InRun(es, closes).recvBuf) && |InRun(es, closes).recvBuf| <= MAX_LINE_LEN
  {
    FramingInvariant(es, closes);
    FramingInvariant(fs, closes);
    TailLfFree(Sent(es));
  }

  /** And of two runs on the same bytes, however they end, one delivered a prefix of the other. */
  lemma DeliveriesComparable(es: seq<InEvent>, fs: seq<InEvent>, closes: Handler)
    requires Sent(es) == Sent(fs)
    ensures InRun(es, closes).delivered <= InRun(fs, closes).delivered ||
            InRun(fs, closes).delivered <= InRun(es, closes).delivered
  {
    FramingInvariant(es, closes);
    FramingInvariant(fs, closes);
    PrefixesComparable(InRun(es, closes).delivered, InRun(fs, closes).delivered, Lines(Sent(es)));
  }

  lemma PrefixesComparable<T>(a: seq<T>, b: seq<T>, c: seq<T>)
    requires a <= c && b <= c
    ensures a <= b || b <= a
  {
    if |a| <= |b| {
      assert a == b[..|a|];
    } else {
      assert b == a[..|b|];
    }
  }

  // ---------------------------------------------------------------- after a mark

  /** A marked client that had been given base: it has been given nothing since, or one line with
      which its reading was over. */
  ghost predicate Spent(s: Input, base: seq<string>)
  {
    s.marked && (s.delivered == base || (s.done && base <= s.delivered && |s.delivered| == |base| + 1))
  }

  lemma {:induction false} ProcessSpent(s: Input, closes: Handler)
    requires s.marked
    ensures Spent(ProcessBuffer(s, closes), s.delivered)
    decreases |s.recvBuf|
  {
    var pos := Find(s.recvBuf, LF, 0);
    if pos < |s.recvBuf| && StripCr(s.recvBuf[..pos]) == "" {
      ProcessSpent(s.(recvBuf := s.recvBuf[pos + 1..]), closes);
    }
  }

  lemma {:induction false} ReceiveSpent(s: Input, chunks: seq<string>, end: ReadEnd, closes: Handler)
    requires s.marked
    ensures Spent(Receive(s, chunks, end, closes), s.delivered)
    decreases |chunks|
  {
    if chunks == [] {
      ProcessSpent(s, closes);
    } else {
      ReceiveSpent(s.(recvBuf := s.recvBuf + chunks[0]), chunks[1..], end, closes);
    }
  }

  lemma StepSpent(s: Input, e: InEvent, closes: Handler, base: seq<string>)
    requires Spent(s, base)
    ensures Spent(InStep(s, e, closes), base)
  {
    match e
    case MarkedElsewhere =>
    case Read(chunks, end) => ReceiveSpent(s, chunks, end, closes);
  }

  /** Once a client is marked, at most one more line is handed on, whatever it still sends. */
  lemma {:induction false} OneLineAfterMark(es: seq<InEvent>, more: seq<InEvent>, closes: Handler)
    requires InRun(es, closes).marked
    ensures var before, after := InRun(es, closes).delivered, InRun(es + more, closes).delivered;
            before <= after && |after| <= |before| + 1
    ensures Spent(InRun(es + more, closes), InRun(es, closes).delivered)
    decreases |more|
  {
    if more == [] {
      assert es + more == es;
    } else {
      var init, last := more[..|more| - 1], more[|more| - 1];
      OneLineAfterMark(es, init, closes);
      StepSpent(InRun(es + init, closes), last, closes, InRun(es, closes).delivered);
      assert (es + more)[..|es + more| - 1] == es + init;
    }
  }

  // ---------------------------------------------------------------- writing

  /** accepted: the messages taken into the buffer; written: the bytes the socket took. */
  datatype Output = Output(sendBuf: string, accepted: seq<string>, written: string, marked: bool)

  const FRESH_OUTPUT := Output("", [], "", false)

  function SendTo(s: Output, data: string): Output
  {
    if s.marked then s
    else if |s.sendBuf| + |data| > MAX_SENDBUFLEN then s.(marked := true)
    else s.(sendBuf := s.sendBuf + data, accepted := s.accepted + [data])
  }

  /** takes: how many bytes each write call took before the burst ended. */
  function Flush(s: Output, takes: seq<nat>, end: ReadEnd): Output
    decreases |takes|
  {
    if s.sendBuf == "" then s
    else if takes == [] then (if end == Ended then s.(marked := true) else s)
    else
      var n := if takes[0] <= |s.sendBuf| then takes[0] else |s.sendBuf|;
      Flush(s.(sendBuf := s.sendBuf[n..], written := s.written + s.sendBuf[..n]), takes[1..], end)
  }

  datatype OutEvent = Send(data: string) | Write(takes: seq<nat>, end: ReadEnd) | OutMarkedElsewhere

  function OutStep(s: Output, e: OutEvent): Output
  {
    match e
    case Send(data) => SendTo(s, data)
    case Write(takes, end) => if s.marked then s else Flush(s, takes, end)
    case OutMarkedElsewhere => s.(marked := true)
  }

  function OutRun(es: seq<OutEvent>): Output
  {
    if es == [] then FRESH_OUTPUT else OutStep(OutRun(es[..|es| - 1]), es[|es| - 1])
  }

  function Messages(es: seq<OutEvent>): seq<string>
  {
    if es == [] then []
    else Messages(es[..|es| - 1]) + if es[|es| - 1].Send? then [es[|es| - 1].data] else []
  }

  lemma {:induction false} ConcatSnoc(ms: seq<string>, m: string)
    ensures Concat(ms + [m]) == Concat(ms) + m
  {
    if ms != [] {
      assert (ms + [m])[1..] == ms[1..] + [m];
      ConcatSnoc(ms[1..], m);
    }
  }

  lemma {:induction false} FlushConserves(s: Output, takes: seq<nat>, end: ReadEnd)
    ensures var r := Flush(s, takes, end);
            r.written + r.sendBuf == s.written + s.sendBuf && r.accepted == s.accepted &&
            |r.sendBuf| <= |s.sendBuf| && (s.marked ==> r.marked)
    decreases |takes|
  {
    if s.sendBuf != "" && takes != [] {
      var n := if takes[0] <= |s.sendBuf| then takes[0] else |s.sendBuf|;
      var s' := s.(sendBuf := s.sendBuf[n..], written := s.written + s.sendBuf[..n]);
      assert s'.written + s'.sendBuf == s.written + s.sendBuf;
      FlushConserves(s', takes[1..], end);
    }
  }

  /** Nothing is reordered, split or duplicated on the way out: the bytes written followed by
      the bytes still buffered are the whole accepted messages in order, and those are the
      messages sent, up to the point where the client was marked. */
  lemma {:induction false} OutputConserved(es: seq<OutEvent>)
    ensures var s := OutRun(es);
            && s.written + s.sendBuf == Concat(s.accepted)
            && s.accepted <= Messages(es)
            && (!s.marked ==> s.accepted == Messages(es))
            && |s.sendBuf| <= MAX_SENDBUFLEN
  {
    if es != [] {
      var init, e := es[..|es| - 1], es[|es| - 1];
      OutputConserved(init);
      var s := OutRun(init);
      match e {
        case Send(data) =>
          ConcatSnoc(s.accepted, data);
          assert s.written + (s.sendBuf + data) == s.written + s.sendBuf + data;
        case Write(takes, end) =>
          FlushConserves(s, takes, end);
        case OutMarkedElsewhere =>
      }
    }
  }

  // ---------------------------------------------------------------- the loops

  /** The buffers of one connection. */
  class Connection {
    var recvBuf: string
    var delivered: seq<string>
    var sendBuf: string
    var markedForClose: bool
    var readDone: bool
    ghost var accepted: seq<string>
    ghost var written: string

    ghost function In(): Input
      reads this
    {
      Input(recvBuf, delivered, markedForClose, readDone)
    }

    ghost function Out(): Output
      reads this
    {
      Output(sendBuf, accepted, written, markedForClose)
    }

    constructor ()
      ensures In() == FRESH_INPUT && Out() == FRESH_OUTPUT
    {
      recvBuf, delivered, sendBuf, markedForClose, readDone := "", [], "", false, false;
      accepted, written := [], "";
    }

    method ProcessLines(closes: Handler)
      requires !readDone
      modifies `recvBuf, `delivered, `markedForClose, `readDone
      ensures In() == ProcessBuffer(old(In()), closes)
    {
      while true
        invariant !readDone
        invariant ProcessBuffer(In(), closes) == ProcessBuffer(old(In()), closes)
        decreases |recvBuf|
      {
        var pos := Find(recvBuf, LF, 0);
        if pos == |recvBuf| {
          if |recvBuf| > MAX_LINE_LEN {
            markedForClose, readDone := true, true;
          }
          return;
        }
        var line := recvBuf[..pos];
        recvBuf := recvBuf[pos + 1..];
        if line != "" && line[|line| - 1] == '\r' {
          line := line[..|line| - 1];
        }
        if line == "" {
          continue;
        }
        markedForClose := markedForClose || closes(|delivered|);
        delivered := delivered + [line];
        if markedForClose {
          readDone := true;
          return;
        }
      }
    }

    method DoRead(chunks: seq<string>, end: ReadEnd, closes: Handler)
      requires !readDone
      modifies `recvBuf, `delivered, `markedForClose, `readDone
      ensures In() == InStep(old(In()), Read(chunks, end), closes)
    {
      var i := 0;
      while i < |chunks|
        invariant i <= |chunks| && !readDone
        invariant Receive(In(), chunks[i..], end, closes) == Receive(old(In()), chunks, end, closes)
      {
        if |recvBuf| + |chunks[i]| > MAX_LINE_LEN * 4 {
          markedForClose, readDone := true, true;
          return;
        }
        assert chunks[i..][1..] == chunks[i + 1..];
        recvBuf := recvBuf + chunks[i];
        i := i + 1;
      }
      if end == Ended {
        markedForClose, readDone := true, true;
        return;
      }
      ProcessLines(closes);
    }

    method Enqueue(data: string) returns (sent: bool)
      modifies `sendBuf, `markedForClose, `accepted
      ensures Out() == SendTo(old(Out()), data)
      ensures sent <==> Out().accepted == old(accepted) + [data]
    {
      if markedForClose {
        return false;
      }
      if |sendBuf| + |data| > MAX_SENDBUFLEN {
        markedForClose := true;
        return false;
      }
      sendBuf := sendBuf + data;
      accepted := accepted + [data];
      return true;
    }

    method DoWrite(takes: seq<nat>, end: ReadEnd)
      requires !markedForClose
      modifies `sendBuf, `markedForClose, `written
      ensures Out() == OutStep(old(Out()), Write(takes, end))
    {
      var i := 0;
      while sendBuf != ""
        invariant i <= |takes| && !markedForClose
        invariant Flush(Out(), takes[i..], end) == Flush(old(Out()), takes, end)
        decreases |takes| - i
      {
        if i == |takes| {
          if end == Ended {
            markedForClose := true;
          }
          return;
        }
        assert takes[i..][1..] == takes[i + 1..];
        var n := if takes[i] <= |sendBuf| then takes[i] else |sendBuf|;
        written := written + sendBuf[..n];
        sendBuf := sendBuf[n..];
        i := i + 1;
      }
    }
  }
}
