/** What the error log promises: a split of the written text at its newlines, however the text arrives. */
module LogLines {
  import opened ByteStrings
  import opened CNumbers

  /** The pieces of `text` between newlines; the last one has no newline behind it. */
  function Lines(text: Bytes): (r: seq<Bytes>)
    ensures |r| >= 1
    ensures forall i :: 0 <= i < |r| ==> NEWLINE !in r[i]
    decreases |text|
  {
    var i := IndexOf(text, NEWLINE);
    if i == |text| then
      assert text[..i] == text;
      [text]
    else [text[..i]] + Lines(text[i + 1..])
  }

  function Complete(text: Bytes): seq<Bytes> {
    Lines(text)[..|Lines(text)| - 1]
  }

  function Partial(text: Bytes): (r: Bytes)
    ensures NEWLINE !in r
  {
    Lines(text)[|Lines(text)| - 1]
  }

  function Join(pieces: seq<Bytes>): Bytes {
    if pieces == [] then []
    else if |pieces| == 1 then pieces[0]
    else pieces[0] + [NEWLINE] + Join(pieces[1..])
  }

  lemma LinesOfOne(text: Bytes)
    requires NEWLINE !in text
    ensures Lines(text) == [text]
  {
    IndexOfIs(text, NEWLINE, |text|);
  }

  lemma LinesOfMore(piece: Bytes, rest: Bytes)
    requires NEWLINE !in piece
    ensures Lines(piece + [NEWLINE] + rest) == [piece] + Lines(rest)
  {
    var text := piece + [NEWLINE] + rest;
    hide IndexOf;
    IndexOfConcat(piece, NEWLINE, rest);
    assert text[..|piece|] == piece && text[|piece| + 1..] == rest;
  }

  lemma CompleteOfMore(piece: Bytes, rest: Bytes)
    requires NEWLINE !in piece
    ensures Complete(piece + [NEWLINE] + rest) == [piece] + Complete(rest)
    ensures Partial(piece + [NEWLINE] + rest) == Partial(rest)
  {
    hide Lines;
    LinesOfMore(piece, rest);
  }

  lemma CompleteOfOne(text: Bytes)
    requires NEWLINE !in text
    ensures Complete(text) == [] && Partial(text) == text
  {
    hide Lines;
    LinesOfOne(text);
  }

  lemma Cut(text: Bytes) returns (piece: Bytes, rest: Bytes)
    requires NEWLINE in text
    ensures NEWLINE !in piece && text == piece + [NEWLINE] + rest
  {
    hide IndexOf;
    var i := IndexOf(text, NEWLINE);
    piece, rest := text[..i], text[i + 1..];
    assert text == text[..i] + [text[i]] + text[i + 1..];
  }

  /** Joining the pieces restores the text, and the pieces are the only newline-free ones that do. */
  lemma {:induction false} LinesInverse(text: Bytes, pieces: seq<Bytes>)
    requires pieces != [] && forall p :: p in pieces ==> NEWLINE !in p
    ensures Lines(text) == pieces <==> Join(pieces) == text
    decreases |text| + |pieces|
  {
    hide IndexOf;
    JoinLines(text);
    LinesJoin(pieces);
  }

  lemma {:induction false} JoinLines(text: Bytes)
    ensures Join(Lines(text)) == text
    decreases |text|
  {
    if NEWLINE in text {
      hide Lines;
      var piece, rest := Cut(text);
      LinesOfMore(piece, rest);
      JoinLines(rest);
      assert ([piece] + Lines(rest))[1..] == Lines(rest);
    } else {
      LinesOfOne(text);
    }
  }

  lemma {:induction false} LinesJoin(pieces: seq<Bytes>)
    requires pieces != [] && forall p :: p in pieces ==> NEWLINE !in p
    ensures Lines(Join(pieces)) == pieces
  {
    hide Lines;
    if |pieces| == 1 {
      LinesOfOne(pieces[0]);
    } else {
      LinesJoin(pieces[1..]);
      LinesOfMore(pieces[0], Join(pieces[1..]));
    }
  }

  /** Splitting in two steps: only the unfinished piece of `a` matters for what follows. */
  lemma {:induction false} LinesAppend(a: Bytes, b: Bytes)
    ensures Lines(a + b) == Complete(a) + Lines(Partial(a) + b)
    decreases |a|
  {
    if NEWLINE in a {
      hide Lines, Complete, Partial;
      var piece, rest := Cut(a);
      CompleteOfMore(piece, rest);
      assert a + b == piece + [NEWLINE] + (rest + b);
      LinesOfMore(piece, rest + b);
      LinesAppend(rest, b);
      var more := Lines(Partial(rest) + b);
      assert [piece] + (Complete(rest) + more) == [piece] + Complete(rest) + more;
    } else {
      hide Lines, Complete, Partial;
      CompleteOfOne(a);
      assert [] + Lines(a + b) == Lines(a + b);
    }
  }

  lemma CompletePartialAppend(a: Bytes, b: Bytes)
    ensures Complete(a + b) == Complete(a) + Complete(Partial(a) + b)
    ensures Partial(a + b) == Partial(Partial(a) + b)
  {
    hide Lines;
    LinesAppend(a, b);
  }

  lemma WithoutPiece(piece: Bytes, rest: Bytes)
    requires NEWLINE !in piece
    ensures Without(piece + [NEWLINE] + rest, NEWLINE) == piece + Without(rest, NEWLINE)
  {
    assert piece + [NEWLINE] + rest == piece + ([NEWLINE] + rest);
    WithoutAppend(piece, [NEWLINE] + rest, NEWLINE);
    assert ([NEWLINE] + rest)[1..] == rest;
    WithoutNone(piece, NEWLINE);
  }

  /** No byte but the newlines is lost by splitting. */
  lemma {:induction false} LinesConserve(text: Bytes)
    ensures Concat(Complete(text)) + Partial(text) == Without(text, NEWLINE)
    decreases |text|
  {
    if NEWLINE in text {
      hide Lines, Concat, Without, Complete, Partial;
      var piece, rest := Cut(text);
      CompleteOfMore(piece, rest);
      LinesConserve(rest);
      ConcatAppend([piece], Complete(rest));
      ConcatOne(piece);
      WithoutPiece(piece, rest);
      calc {
        Concat(Complete(text)) + Partial(text);
        piece + Concat(Complete(rest)) + Partial(rest);
        piece + (Concat(Complete(rest)) + Partial(rest));
        Without(text, NEWLINE);
      }
    } else {
      hide Lines, Without, Complete, Partial;
      CompleteOfOne(text);
      WithoutNone(text, NEWLINE);
      assert [] + text == text;
    }
  }

  /** One turn of the splitting loop. */
  lemma LineStep(err: seq<Bytes>, residual: Bytes, msg: Bytes, p: nat, q: nat)
    requires p <= q < |msg| && msg[q] == NEWLINE
    requires NEWLINE !in msg[p..q] && NEWLINE !in residual
    ensures err + Lines(residual + msg[p..]) == err + [residual + msg[p..q]] + Lines([] + msg[q + 1..])
  {
    hide Lines;
    var record, tail := residual + msg[p..q], msg[q + 1..];
    assert residual + msg[p..] == record + [NEWLINE] + tail;
    LinesOfMore(record, tail);
    assert [] + tail == tail;
    assert err + ([record] + Lines(tail)) == err + [record] + Lines(tail);
  }

  lemma SplitLast(a: seq<Bytes>, lines: seq<Bytes>, b: seq<Bytes>, last: Bytes)
    requires lines != [] && b + [last] == a + lines
    ensures b == a + lines[..|lines| - 1] && last == lines[|lines| - 1]
  {
    assert (a + lines)[..|b|] == b && (a + lines)[|b|] == last;
  }

  // Whole runs of a log object.

  /** The unfinished line, whether the object still takes text, and the records passed on so far. */
  datatype LogState = LogState(residual: Bytes, open: bool, records: seq<Bytes>)

  datatype LogEvent = Write(msg: Bytes) | Flush | Close

  function FlushState(st: LogState): LogState {
    if st.residual == [] then st else st.(residual := [], records := st.records + [st.residual])
  }

  function Deliver(st: LogState, ev: LogEvent): LogState {
    if !st.open then st
    else
      match ev
      case Write(msg) =>
        var text := st.residual + msg;
        st.(residual := Partial(text), records := st.records + Complete(text))
      case Flush => FlushState(st)
      case Close => FlushState(st).(open := false)
  }

  function RunLog(st: LogState, evs: seq<LogEvent>): LogState
    decreases evs
  {
    if evs == [] then st else RunLog(Deliver(st, evs[0]), evs[1..])
  }

  /** No write makes the unfinished line and the message together longer than an int can count. */
  predicate LogFits(st: LogState, evs: seq<LogEvent>)
    decreases evs
  {
    evs != [] ==>
      && (st.open && evs[0].Write? ==> |st.residual| + |evs[0].msg| < INT_MAX)
      && LogFits(Deliver(st, evs[0]), evs[1..])
  }

  /** What the destructor leaves behind. */
  function Dealloc(st: LogState): LogState {
    if st.open then FlushState(st).(open := false) else st.(residual := [])
  }

  /** The text accepted by a run: everything written before the first close. */
  function Accepted(open: bool, evs: seq<LogEvent>): Bytes
    decreases evs
  {
    if !open || evs == [] then []
    else (if evs[0].Write? then evs[0].msg else []) + Accepted(!evs[0].Close?, evs[1..])
  }

  function Passed(st: LogState): Bytes {
    Concat(st.records) + st.residual
  }

  lemma DeliverConserves(st: LogState, ev: LogEvent)
    requires NEWLINE !in st.residual
    ensures NEWLINE !in Deliver(st, ev).residual
    ensures Passed(Deliver(st, ev)) ==
            Passed(st) + if st.open && ev.Write? then Without(ev.msg, NEWLINE) else []
  {
    hide Lines, Without, Concat, Complete, Partial;
    if st.open {
      match ev {
        case Write(msg) =>
          var text := st.residual + msg;
          LinesConserve(text);
          WithoutAppend(st.residual, msg, NEWLINE);
          WithoutNone(st.residual, NEWLINE);
          ConcatAppend(st.records, Complete(text));
          calc {
            Passed(Deliver(st, ev));
            Concat(st.records) + Concat(Complete(text)) + Partial(text);
            Concat(st.records) + (Concat(Complete(text)) + Partial(text));
            Concat(st.records) + (st.residual + Without(msg, NEWLINE));
            Passed(st) + Without(msg, NEWLINE);
          }
        case Flush =>
          ConcatSnoc(st.records, st.residual);
        case Close =>
          ConcatSnoc(st.records, st.residual);
      }
    }
  }

  /**
   * Under any mix of writes, flushes and closes, the records and the unfinished line are exactly the accepted text
   * without its newlines, in order and each byte once.
   */
  lemma {:induction false} RunConserves(st: LogState, evs: seq<LogEvent>)
    requires NEWLINE !in st.residual
    ensures NEWLINE !in RunLog(st, evs).residual
    ensures Passed(RunLog(st, evs)) == Passed(st) + Without(Accepted(st.open, evs), NEWLINE)
    decreases evs
  {
    if evs == [] {
      NothingAdded(st);
    } else {
      hide Without, Passed, Deliver, Accepted;
      var next := Deliver(st, evs[0]);
      DeliverConserves(st, evs[0]);
      RunConserves(next, evs[1..]);
      AcceptedStep(st, evs);
      var head, more := if st.open && evs[0].Write? then evs[0].msg else [], Accepted(next.open, evs[1..]);
      NothingAdded(st);
      WithoutAppend(head, more, NEWLINE);
      Extend(Passed(st), Without(head, NEWLINE), Without(more, NEWLINE));
    }
  }

  lemma AcceptedStep(st: LogState, evs: seq<LogEvent>)
    requires evs != []
    ensures Accepted(st.open, evs) == (if st.open && evs[0].Write? then evs[0].msg else [])
                                      + Accepted(Deliver(st, evs[0]).open, evs[1..])
  {
    hide Lines;
  }

  lemma NothingAdded(st: LogState)
    ensures Without([], NEWLINE) == [] && Passed(st) + [] == Passed(st)
  {
  }

  /** Once the object is gone every accepted byte has been passed on, and closing first changes nothing. */
  lemma DeallocEmitsEverything(st: LogState, evs: seq<LogEvent>)
    requires NEWLINE !in st.residual && (st.open || st.residual == [])
    ensures Concat(Dealloc(RunLog(st, evs)).records) == Passed(st) + Without(Accepted(st.open, evs), NEWLINE)
    ensures Dealloc(Deliver(RunLog(st, evs), Close)) == Dealloc(RunLog(st, evs))
  {
    RunConserves(st, evs);
    RunClosedEmpty(st, evs);
    var last := RunLog(st, evs);
    hide RunLog, Concat, Accepted, Without;
    ConcatSnoc(last.records, last.residual);
    assert Concat(last.records) + [] == Concat(last.records);
  }

  lemma {:induction false} RunClosedEmpty(st: LogState, evs: seq<LogEvent>)
    requires st.open || st.residual == []
    ensures RunLog(st, evs).open || RunLog(st, evs).residual == []
    decreases evs
  {
    if evs != [] {
      RunClosedEmpty(Deliver(st, evs[0]), evs[1..]);
    }
  }

  function Writes(chunks: seq<Bytes>): seq<LogEvent> {
    seq(|chunks|, i requires 0 <= i < |chunks| => Write(chunks[i]))
  }

  /** However a text is cut into writes, records and unfinished line are those of one write of the whole. */
  lemma {:induction false} ChunkingIndependent(st: LogState, chunks: seq<Bytes>)
    requires st.open && NEWLINE !in st.residual
    ensures RunLog(st, Writes(chunks)) == Deliver(st, Write(Concat(chunks)))
    decreases chunks
  {
    hide Lines;
    if chunks == [] {
      assert st.residual + [] == st.residual;
      LinesOfOne(st.residual);
      assert st.records + [] == st.records;
    } else {
      var next := Deliver(st, Write(chunks[0]));
      var rest := Concat(chunks[1..]);
      assert Writes(chunks)[1..] == Writes(chunks[1..]);
      ChunkingIndependent(next, chunks[1..]);
      var text := st.residual + chunks[0];
      CompletePartialAppend(text, rest);
      assert text + rest == st.residual + Concat(chunks);
      assert st.records + Complete(text) + Complete(Partial(text) + rest)
          == st.records + (Complete(text) + Complete(Partial(text) + rest));
    }
  }

  /**
   * Writing a text, in whatever portions, passes on all pieces of it between newlines but the last, behind what was
   * kept before, and keeps the last; and no other records and rest join to that text.
   */
  lemma WritesSplit(st: LogState, chunks: seq<Bytes>, records: seq<Bytes>, rest: Bytes)
    requires st.open && NEWLINE !in st.residual && NEWLINE !in rest && forall p :: p in records ==> NEWLINE !in p
    ensures RunLog(st, Writes(chunks)) == LogState(rest, true, st.records + records) <==>
            Join(records + [rest]) == st.residual + Concat(chunks)
  {
    ChunkingIndependent(st, chunks);
    var text := st.residual + Concat(chunks);
    LinesInverse(text, records + [rest]);
    hide RunLog, Lines, Join, Writes, Concat;
    SplitsAsPieces(Lines(text), records, rest);
    Cancel(st.records, records, Complete(text));
  }

  lemma SplitsAsPieces(lines: seq<Bytes>, records: seq<Bytes>, rest: Bytes)
    requires lines != []
    ensures lines == records + [rest] <==> lines[..|lines| - 1] == records && lines[|lines| - 1] == rest
  {
    assert lines == lines[..|lines| - 1] + [lines[|lines| - 1]];
    assert (records + [rest])[..|records|] == records;
  }

  lemma Cancel(front: seq<Bytes>, a: seq<Bytes>, b: seq<Bytes>)
    ensures front + a == front + b <==> a == b
  {
    assert (front + a)[|front|..] == a && (front + b)[|front|..] == b;
  }

  lemma {:induction false} RunLogSnoc(st: LogState, evs: seq<LogEvent>, ev: LogEvent)
    ensures RunLog(st, evs + [ev]) == Deliver(RunLog(st, evs), ev)
    decreases evs
  {
    if evs == [] {
      assert RunLog(st, [ev]) == RunLog(Deliver(st, ev), [ev][1..]);
      assert evs + [ev] == [ev];
    } else {
      assert (evs + [ev])[1..] == evs[1..] + [ev];
      RunLogSnoc(Deliver(st, evs[0]), evs[1..], ev);
    }
    hide Deliver;
  }

  /**
   * After a flush, or a close, of a log that is still open nothing is kept back: the records are everything accepted,
   * without its newlines. What had been kept has become one record; if nothing had, there is none. Only a close ends
   * the log.
   */
  lemma FlushPassesOn(st: LogState, evs: seq<LogEvent>, ev: LogEvent)
    requires NEWLINE !in st.residual && RunLog(st, evs).open && (ev.Flush? || ev.Close?)
    ensures var before, after := RunLog(st, evs), RunLog(st, evs + [ev]);
            && after.residual == [] && (after.open <==> ev.Flush?)
            && after.records == before.records + (if before.residual == [] then [] else [before.residual])
            && Concat(after.records) == Concat(st.records) + st.residual + Without(Accepted(st.open, evs), NEWLINE)
  {
    RunLogSnoc(st, evs, ev);
    RunConserves(st, evs);
    var before := RunLog(st, evs);
    ConcatSnoc(before.records, before.residual);
    hide RunLog, Concat, Accepted, Without;
    assert Concat(before.records) + [] == Concat(before.records);
    assert before.records + [] == before.records;
  }
}
