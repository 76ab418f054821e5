/** What the calls of an application are answered after any run, and what they leave behind. */
module Replies {
  import opened ByteStrings
  import opened CNumbers
  import opened Util
  import opened Python
  import opened Streams
  import opened HeaderBlock
  import opened HeaderLists
  import opened Response
  import opened ResponseRuns

  /** A header block has been written, or the first status was refused. */
  predicate Over(evs: seq<Event>) {
    Expected(evs).Framed? || FirstRejected(evs)
  }

  /** The arguments of start_response have the right number and types. */
  predicate Understood(args: seq<PyObj>) {
    (|args| == 2 || |args| == 3) && args[0].PyStr? && args[1].PyList?
  }

  predicate NoException(args: seq<PyObj>) {
    |args| < 3 || args[2] == PyNone
  }

  /**
   * start_response, after any run: arguments that are not understood are a TypeError; once the response is over, the
   * call raises a RuntimeError or passes the given exception on; none of these changes anything. A RuntimeError is
   * raised in this case only.
   */
  lemma StartReplies(io: nat -> Io, evs: seq<Event>, args: seq<PyObj>)
    ensures var s := Run(io, FRESH, evs);
            var e := Step(io, s, Start(args));
            && (!Understood(args) ==> e == Effect(s, Raised(TypeError)))
            && (e.reply == Raised(RuntimeError) <==> Understood(args) && NoException(args) && Over(evs))
            && (Understood(args) && Over(evs) ==> e.state == s)
            && (Understood(args) && Over(evs) && !NoException(args) ==>
                  e.reply == Raised(if !args[2].PyTuple? then SystemError
                                    else if |args[2].elems| != 3 then TypeError
                                    else Restored(args[2].elems[0], args[2].elems[1], args[2].elems[2])))
  {
    GoneIffHeadOrRejected(io, evs);
    hide Run, Expected, FirstRejected, Strtol, Word, Rest, ToInt, StatusLineOf;
  }

  /**
   * Otherwise the status line decides: its first word must stand for a long, and a message must follow. The line and
   * its code are kept in any case, the header list only if the status is good.
   */
  lemma StartTaken(io: nat -> Io, evs: seq<Event>, args: seq<PyObj>, line: Bytes, word: Bytes, gap: nat, message: Bytes)
    requires Understood(args) && !Over(evs)
    requires ReadsAs(args[0], line) && SplitsAs(line, SPACE, word, gap, message)
    ensures var s := Run(io, FRESH, evs);
            var e := Step(io, s, Start(args));
            && (e.reply == if forall v :: !DenotesLong(word, v) then Raised(TypeError)
                           else if message == [] then Raised(ValueError) else Done)
            && (forall v :: DenotesLong(word, v) ==> e.state.status == ToInt(v))
            && e.state == s.(statusLine := Some(line), status := e.state.status,
                             headers := if e.reply == Done then Some(args[1].items) else s.headers)
  {
    GoneIffHeadOrRejected(io, evs);
    CStringIs(args[0].bytes, line);
    StatusIs(line, word, gap, message);
    hide Run, Expected, FirstRejected, ParseStatus, ReadsAs, SplitsAs, DenotesLong, CString, ToInt;
  }

  lemma StatusIs(line: Bytes, word: Bytes, gap: nat, message: Bytes)
    requires SplitsAs(line, SPACE, word, gap, message)
    ensures ParseStatus(line).error == if forall v :: !DenotesLong(word, v) then Some(TypeError)
                                       else if message == [] then Some(ValueError) else None
    ensures forall v :: DenotesLong(word, v) ==> ParseStatus(line).code == ToInt(v)
  {
    GetWordSplits(line, SPACE, word, message);
    forall v
      ensures DenotesLong(word, v) <==> Strtol(word) == Parsed(v, [], false)
    {
      StrtolDenotes(word, v);
    }
    hide DenotesLong, Strtol, SplitsAs, Word, Rest, ToInt;
    assert DenotesLong(word, Strtol(word).value) <==> Strtol(word) == Parsed(Strtol(word).value, [], false);
  }

  /** The last call on the stream between two states carries body bytes. */
  predicate HandsOver(s: State, t: State) {
    |t.sent| > |s.sent| && t.sent[|t.sent| - 1].Data?
  }

  /** The last call failed if it carried body bytes and the stream failed on it. */
  function StreamReply(io: nat -> Io, s: State, t: State): Reply {
    if HandsOver(s, t) && !io(|t.sent| - 1).Written? then Raised(IOError) else Done
  }

  /**
   * The answer to putting out a string after the run `evs`, where `hs` are the headers in front of the first faulty
   * element of the pending list, and `n` is the length that they declare: a RuntimeError if no start_response call was
   * understood so far; the error of the faulty element, if there is one and the response is not over, and then nothing
   * is sent or forgotten but the length is kept; otherwise an IOError if the stream failed on bytes of the string.
   */
  predicate Answered(io: nat -> Io, evs: seq<Event>, hs: seq<Header>, n: Option<nat>, e: Effect)
    requires LastAccepted(evs).Some? ==> |hs| <= |LastAccepted(evs).value|
  {
    var s := Run(io, FRESH, evs);
    if FirstStart(evs).None? then e == Effect(s, Raised(RuntimeError))
    else
      var fault := if Over(evs) || LastAccepted(evs).None? then None else Fault(LastAccepted(evs).value, |hs|);
      && LimitOf(e.state) == (if Over(evs) || n.None? then LimitOf(s) else n)
      && if fault.Some? then
        && e.reply == Raised(fault.value)
        && e.state == s.(lengthSet := e.state.lengthSet, contentLength := e.state.contentLength)
      else HeadersGone(e.state) && e.reply == StreamReply(io, s, e.state)
  }

  /** A yielded string, after any run. */
  lemma OutputReplies(io: nat -> Io, evs: seq<Event>, data: Bytes, hs: seq<Header>, n: Option<nat>)
    requires LastAccepted(evs).Some? ==> PassingFront(LastAccepted(evs).value, hs) && LastDeclared(hs, n)
    ensures Answered(io, evs, hs, n, Step(io, Run(io, FRESH, evs), Emit(data)))
  {
    var s := Run(io, FRESH, evs);
    RunTracks(io, evs);
    GoneIffHeadOrRejected(io, evs);
    if FirstStart(evs).None? {
      NeverStarted(io, data);
    } else if HeadersGone(s) {
      BodyReply(io, s, data);
    } else {
      PendingAfter(evs, s);
      ScanIs(LastAccepted(evs).value, hs, n);
      OutputPending(io, s, data);
    }
    hide Run, Step, Expected, FirstStart, FirstRejected, FirstHead, LastAccepted, ScanHeaders, Tracks, PassingFront,
      LastDeclared, HeadersGone, StreamReply, LimitOf;
  }

  /** The write callable, after any run: it takes one string, and does with it what is done with a yielded one. */
  lemma WriteReplies(io: nat -> Io, evs: seq<Event>, args: seq<PyObj>, hs: seq<Header>, n: Option<nat>)
    requires LastAccepted(evs).Some? ==> PassingFront(LastAccepted(evs).value, hs) && LastDeclared(hs, n)
    ensures var s := Run(io, FRESH, evs);
            var e := Step(io, s, WriteCall(args));
            if exists data :: args == [PyStr(data)] then
              Answered(io, evs, hs, n, e) && e == Step(io, s, Emit(args[0].bytes))
            else e == Effect(s, Raised(TypeError))
  {
    if |args| == 1 && args[0].PyStr? {
      OutputReplies(io, evs, args[0].bytes, hs, n);
      assert args == [PyStr(args[0].bytes)];
    }
    hide Run, Output, Answered, LastAccepted, PassingFront, LastDeclared;
  }

  lemma NeverStarted(io: nat -> Io, data: Bytes)
    ensures Step(io, FRESH, Emit(data)) == Effect(FRESH, Raised(RuntimeError))
  {
  }

  lemma PendingAfter(evs: seq<Event>, s: State)
    requires Tracks(evs, s) && FirstStart(evs).Some? && !HeadersGone(s)
    ensures s.statusLine.Some? && s.headers.Some? && s.headers == LastAccepted(evs)
  {
    hide FirstStart, FirstRejected, FirstHead, LastAccepted, StoredLimit, Offered, ScanHeaders, Block, Flatten, AllData,
      BodyAt;
  }

  lemma BodyReply(io: nat -> Io, s: State, data: Bytes)
    requires HeadersGone(s)
    ensures var e := Step(io, s, Emit(data));
            && HeadersGone(e.state) && LimitOf(e.state) == LimitOf(s)
            && e.reply == StreamReply(io, s, e.state)
  {
    hide Allowed;
  }

  lemma OutputPending(io: nat -> Io, s: State, data: Bytes)
    requires s.statusLine.Some? && s.headers.Some?
    ensures var e, scan := Step(io, s, Emit(data)), ScanHeaders(s.headers.value);
            && LimitOf(e.state) == (if scan.limit.Some? then scan.limit else LimitOf(s))
            && if scan.error.Some? then
              && e.reply == Raised(scan.error.value)
              && e.state == s.(lengthSet := e.state.lengthSet, contentLength := e.state.contentLength)
            else
              && HeadersGone(e.state)
              && e.reply == StreamReply(io, s, e.state)
  {
    hide Allowed, ScanHeaders, Block;
  }
}
