/** How an application divides its body between yielded strings makes no difference. */
module Chunking {
  import opened ByteStrings
  import opened Python
  import opened Streams
  import opened HeaderBlock
  import opened Response
  import opened ResponseRuns
  import opened ResponseLaws
  import opened Application

  /** Equal but for how the bytes handed over are divided between calls. */
  predicate Same(s: State, t: State) {
    t == s.(sent := t.sent) && Flatten(s.sent) == Flatten(t.sent)
  }

  ghost predicate AllWritten(io: nat -> Io) {
    forall n :: io(n).Written?
  }

  lemma HeadSame(s: State, t: State)
    requires Same(s, t)
    ensures Same(SendHead(s).state, SendHead(t).state) && SendHead(s).reply == SendHead(t).reply
  {
    hide ScanHeaders, Block, Flatten;
    if s.headers.Some? {
      var x := Text(Block(ScanHeaders(s.headers.value).pairs));
      FlattenSnoc(s.sent, x);
      FlattenSnoc(t.sent, x);
    }
  }

  /** What the stream makes of a call shows in the reply, never in the state. */
  lemma BodySame(io: nat -> Io, jo: nat -> Io, s: State, t: State, data: Bytes)
    requires Same(s, t)
    ensures Same(SendBody(io, s, data).state, SendBody(jo, t, data).state)
  {
    hide Flatten;
    var x := Data(data[..Allowed(s, |data|)]);
    FlattenSnoc(s.sent, x);
    FlattenSnoc(t.sent, x);
  }

  lemma OutputSame(io: nat -> Io, jo: nat -> Io, s: State, t: State, data: Bytes)
    requires Same(s, t)
    ensures Same(Output(io, s, data).state, Output(jo, t, data).state)
    ensures AllWritten(io) && AllWritten(jo) ==> Output(io, s, data).reply == Output(jo, t, data).reply
  {
    HeadSame(s, t);
    if SendHead(s).reply.Done? {
      BodySame(io, jo, SendHead(s).state, SendHead(t).state, data);
    }
    hide SendHead, Flatten;
  }

  lemma StartSame(s: State, t: State, args: seq<PyObj>)
    requires Same(s, t)
    ensures Same(StartResponse(s, args).state, StartResponse(t, args).state)
  {
    hide ParseStatus, Flatten, Reraise;
  }

  lemma StepSame(io: nat -> Io, jo: nat -> Io, s: State, t: State, ev: Event)
    requires Same(s, t)
    ensures Same(Step(io, s, ev).state, Step(jo, t, ev).state)
  {
    OutputSame(io, jo, s, t, Chunk(ev));
    match ev {
      case Start(args) => StartSame(s, t, args);
      case WriteCall(args) =>
      case Emit(data) =>
    }
    hide Output, StartResponse, Same;
  }

  /** Neither the division of earlier bytes nor the fate of any call on the stream influences a run. */
  lemma {:induction false} RunSame(io: nat -> Io, jo: nat -> Io, s: State, t: State, evs: seq<Event>)
    requires Same(s, t)
    ensures Same(Run(io, s, evs), Run(jo, t, evs))
    decreases evs
  {
    if evs != [] {
      StepSame(io, jo, s, t, evs[0]);
      RunSame(io, jo, Step(io, s, evs[0]).state, Step(jo, t, evs[0]).state, evs[1..]);
      hide Step, Same;
    }
  }

  /** The room left after a first piece is what the first piece left over. */
  lemma AllowedTwice(s: State, t: State, a: nat, b: nat)
    requires t == s.(sent := t.sent, outputLength := s.outputLength + a)
    ensures Allowed(s, a + b) == Allowed(s, a) + Allowed(t, b)
    ensures Allowed(s, a) < a ==> Allowed(t, b) == 0
  {
  }

  /** Handing over two pieces is handing over their concatenation. */
  lemma BodyTwice(io: nat -> Io, s: State, a: Bytes, b: Bytes)
    ensures Same(SendBody(io, SendBody(io, s, a).state, b).state, SendBody(io, s, a + b).state)
  {
    var t := SendBody(io, s, a).state;
    BodyBytes(io, s, a);
    BodyBytes(io, t, b);
    BodyBytes(io, s, a + b);
    CutTwice(s, t, a, b);
    hide SendBody, Allowed, Flatten;
  }

  /** The bytes of two pieces, each cut to the room it finds. */
  lemma CutTwice(s: State, t: State, a: Bytes, b: Bytes)
    requires t == s.(sent := t.sent, outputLength := s.outputLength + |a|)
    requires Flatten(t.sent) == Flatten(s.sent) + a[..Allowed(s, |a|)]
    ensures Flatten(t.sent) + b[..Allowed(t, |b|)] == Flatten(s.sent) + (a + b)[..Allowed(s, |a + b|)]
  {
    var m, n := Allowed(s, |a|), Allowed(t, |b|);
    AllowedTwice(s, t, |a|, |b|);
    hide Flatten, Allowed;
    assert (a + b)[..m + n] == a[..m] + b[..n];
    assert Flatten(s.sent) + a[..m] + b[..n] == Flatten(s.sent) + (a[..m] + b[..n]);
  }

  lemma BodyBytes(io: nat -> Io, s: State, d: Bytes)
    ensures var t := SendBody(io, s, d).state;
            && t == s.(sent := t.sent, outputLength := s.outputLength + |d|)
            && Flatten(t.sent) == Flatten(s.sent) + d[..Allowed(s, |d|)]
  {
    hide Flatten, Allowed;
    FlattenSnoc(s.sent, Data(d[..Allowed(s, |d|)]));
    assert Flatten(s.sent) + [] == Flatten(s.sent);
  }

  /** What becomes of a whole body, given in one piece. */
  function Whole(io: nat -> Io, s: State, body: Bytes): Progress {
    if body == [] then Progress(s, false)
    else
      var e := Output(io, s, body);
      Progress(e.state, e.reply.Raised?)
  }

  function Strings(chunks: seq<Bytes>): seq<Turn> {
    if chunks == [] then [] else [Turn([], PyStr(chunks[0]))] + Strings(chunks[1..])
  }

  predicate SameProgress(p: Progress, q: Progress) {
    Same(p.state, q.state) && p.error == q.error
  }

  /** The end of the iteration, after the body has been delivered. */
  function Ending(io: nat -> Io, p: Progress, it: Iterable): Progress {
    if p.error then p else Progress(Calls(io, p.state, it.last), it.raises)
  }

  lemma EndingSame(io: nat -> Io, p: Progress, q: Progress, it: Iterable)
    requires SameProgress(p, q)
    ensures SameProgress(Ending(io, p, it), Ending(io, q, it))
  {
    RunSame(io, io, p.state, q.state, Events(it.last));
    hide Run, Events, Same;
  }

  lemma SameTransitive(p: Progress, q: Progress, r: Progress)
    requires SameProgress(p, q) && SameProgress(q, r)
    ensures SameProgress(p, r)
  {
    hide Flatten;
  }

  /** One piece more in front: the whole body is delivered as the piece and then the rest. */
  lemma WholeStep(io: nat -> Io, s: State, piece: Bytes, rest: Bytes)
    requires AllWritten(io) && piece != []
    ensures var e := Output(io, s, piece);
            if e.reply.Raised? then Whole(io, s, piece + rest) == Progress(e.state, true)
            else SameProgress(Whole(io, e.state, rest), Whole(io, s, piece + rest))
  {
    var e := Output(io, s, piece);
    OutputParts(io, s, piece);
    OutputParts(io, s, piece + rest);
    if Accepts(s) {
      var head := SendHead(s).state;
      HeadDone(s);
      AllReplied(io);
      BodyTwice(io, head, piece, rest);
      GoneOutput(io, e.state, rest);
      assert rest == [] ==> piece + rest == piece;
      hide SendBody, SendHead, Output, Flatten;
    } else {
      AllReplied(io);
    }
  }

  lemma AllReplied(io: nat -> Io)
    requires AllWritten(io)
    ensures forall s, data :: SendBody(io, s, data).reply == Done
  {
  }

  lemma GoneOutput(io: nat -> Io, s: State, data: Bytes)
    requires HeadersGone(s)
    ensures Output(io, s, data) == SendBody(io, s, data)
  {
    hide SendBody;
  }

  lemma {:induction false} PullChunks(io: nat -> Io, s: State, chunks: seq<Bytes>, it: Iterable)
    requires AllWritten(io)
    ensures SameProgress(Pull(io, s, Strings(chunks), it), Ending(io, Whole(io, s, Concat(chunks)), it))
    decreases chunks
  {
    if chunks == [] {
    } else {
      var turns := Strings(chunks);
      var piece, rest := chunks[0], Concat(chunks[1..]);
      assert turns[1..] == Strings(chunks[1..]) && turns[0] == Turn([], PyStr(piece));
      assert Calls(io, s, []) == s;
      if piece == [] {
        PullChunks(io, s, chunks[1..], it);
        assert piece + rest == rest;
        hide Whole, Ending, Same, Strings;
      } else {
        var e := Output(io, s, piece);
        WholeStep(io, s, piece, rest);
        assert Pull(io, s, turns, it) ==
               if e.reply.Raised? then Progress(e.state, true) else Pull(io, e.state, turns[1..], it);
        if e.reply.Done? {
          PullChunks(io, e.state, chunks[1..], it);
          EndingSame(io, Whole(io, e.state, rest), Whole(io, s, piece + rest), it);
          SameTransitive(Pull(io, e.state, turns[1..], it), Ending(io, Whole(io, e.state, rest), it),
                         Ending(io, Whole(io, s, piece + rest), it));
          hide Whole, Ending, Same, Strings, Output, Pull, Calls;
        }
      }
    }
  }

  lemma FinishSame(io: nat -> Io, p: Progress, q: Progress)
    requires SameProgress(p, q) && AllWritten(io)
    ensures SameProgress(Finish(io, p), Finish(io, q))
  {
    OutputSame(io, io, p.state, q.state, []);
    hide Output, Flatten;
  }

  function Yielding(calls: seq<Call>, it: Iterable, chunks: seq<Bytes>): App {
    Returns(calls, it.(iterates := true, turns := Strings(chunks)))
  }

  // The result code, on any stream.

  /** A header list that can be sent, or one that has been: output calls will not be refused. */
  predicate Accepts(s: State) {
    s.statusLine.Some? && SendHead(s).reply.Done?
  }

  lemma HeadDone(s: State)
    requires Accepts(s)
    ensures HeadersGone(SendHead(s).state) && SendHead(SendHead(s).state) == Effect(SendHead(s).state, Done)
  {
    hide ScanHeaders, Block;
  }

  lemma OutputParts(io: nat -> Io, s: State, data: Bytes)
    ensures Accepts(s) ==> Output(io, s, data) == SendBody(io, SendHead(s).state, data)
    ensures !Accepts(s) ==> Output(io, s, data).reply.Raised? && Output(io, s, data).state == Refused(s)
  {
    hide SendHead, SendBody;
  }

  /** What is left of a state in which an output call is refused. */
  function Refused(s: State): State {
    if s.statusLine.None? then s else SendHead(s).state
  }

  lemma PullGone(io: nat -> Io, s: State, turns: seq<Turn>, it: Iterable)
    requires HeadersGone(s)
    ensures HeadersGone(Pull(io, s, turns, it).state)
  {
    PullIsTrace(io, s, turns, it);
    SentAbsorbs(io, s, PullTrace(io, s, turns, it));
    hide Run, Pull, PullTrace;
  }

  lemma FinishGone(io: nat -> Io, p: Progress)
    requires HeadersGone(p.state)
    ensures Finish(io, p).state == p.state && Result(Finish(io, p)) == HTTP_OK
  {
  }

  /** How an iteration over strings comes out: all depends on whether there is any text, and whether it is refused. */
  lemma {:induction false} PullByBody(io: nat -> Io, s: State, chunks: seq<Bytes>, it: Iterable)
    ensures var p := Pull(io, s, Strings(chunks), it);
            if Concat(chunks) == [] then p == Ending(io, Progress(s, false), it)
            else if Accepts(s) then HeadersGone(p.state)
            else p == Progress(Refused(s), true)
    decreases chunks
  {
    if chunks == [] {
    } else {
      var turns, piece := Strings(chunks), chunks[0];
      assert turns[1..] == Strings(chunks[1..]) && turns[0] == Turn([], PyStr(piece));
      assert Calls(io, s, []) == s;
      if piece == [] {
        PullByBody(io, s, chunks[1..], it);
        assert piece + Concat(chunks[1..]) == Concat(chunks[1..]);
      } else {
        OutputParts(io, s, piece);
        if Accepts(s) {
          HeadDone(s);
          var e := Output(io, s, piece);
          assert HeadersGone(e.state);
          PullGone(io, e.state, turns[1..], it);
        }
        assert Concat(chunks) != [] by { assert Concat(chunks)[0] == piece[0]; }
      }
      hide Output, SendHead, Strings, Calls, Concat;
    }
  }

  /** Whatever becomes of the bytes, the result code of a run depends on the whole body only. */
  lemma ResultByBody(io: nat -> Io, s: State, a: seq<Bytes>, b: seq<Bytes>, it: Iterable)
    requires Concat(a) == Concat(b)
    ensures Result(Finish(io, Pull(io, s, Strings(a), it))) == Result(Finish(io, Pull(io, s, Strings(b), it)))
  {
    PullByBody(io, s, a, it);
    PullByBody(io, s, b, it);
    var p, q := Pull(io, s, Strings(a), it), Pull(io, s, Strings(b), it);
    hide Pull, Strings, Concat, Finish, Ending, Accepts, Refused, Result, HeadersGone;
    if HeadersGone(p.state) {
      FinishGone(io, p);
    }
    if HeadersGone(q.state) {
      FinishGone(io, q);
    }
  }

  lemma PullIgnoresTurns(io: nat -> Io, s: State, turns: seq<Turn>, it: Iterable, other: Iterable)
    requires other == it.(iterates := other.iterates, turns := other.turns)
    ensures Pull(io, s, turns, it) == Pull(io, s, turns, other)
    decreases turns
  {
  }

  /**
   * Two applications that make the same calls around their iteration, and whose strings concatenate to the same
   * body, come out with the same result on any stream; and on a stream where every call succeeds they hand over the
   * same bytes and leave the same state.
   */
  lemma ChunkingDoesNotMatter(io: nat -> Io, s: State, calls: seq<Call>, it: Iterable, a: seq<Bytes>, b: seq<Bytes>)
    requires Concat(a) == Concat(b)
    ensures var x, y := RunApp(io, s, Yielding(calls, it, a)), RunApp(io, s, Yielding(calls, it, b));
            && x.result == y.result
            && (AllWritten(io) ==> Same(x.state, y.state) && Flatten(x.state.sent) == Flatten(y.state.sent))
  {
    var s1 := Calls(io, s, calls);
    var ia, ib := Yielding(calls, it, a).result, Yielding(calls, it, b).result;
    var p, q := Iterate(io, s1, ia), Iterate(io, s1, ib);
    PullIgnoresTurns(io, s1, Strings(a), it, ia);
    PullIgnoresTurns(io, s1, Strings(b), it, ib);
    ResultByBody(io, s1, a, b, it);
    if AllWritten(io) {
      PullChunks(io, s1, a, ia);
      PullChunks(io, s1, b, ib);
      var mid := Ending(io, Whole(io, s1, Concat(a)), ia);
      assert mid == Ending(io, Whole(io, s1, Concat(b)), ib);
      SameSymmetric(q, mid);
      SameTransitive(p, mid, q);
      FinishSame(io, p, q);
      RunSame(io, io, Finish(io, p).state, Finish(io, q).state, Events(it.closing));
    }
    hide Run, Pull, Finish, Ending, Whole, Flatten, Strings;
  }

  lemma SameSymmetric(p: Progress, q: Progress)
    requires SameProgress(p, q)
    ensures SameProgress(q, p)
  {
    hide Flatten;
  }
}
