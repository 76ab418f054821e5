/** Running an application: the order in which the adapter calls it, pulls its iterable, and judges the outcome. */
module Application {
  import opened Python
  import opened Streams
  import opened HeaderBlock
  import opened Response
  import opened ResponseRuns

  /** A call that the application makes on the adapter. */
  datatype Call = CallStart(args: seq<PyObj>) | CallWrite(args: seq<PyObj>)

  /** One turn of the iterator: the calls it makes on the way, and what it yields. */
  datatype Turn = Turn(calls: seq<Call>, item: PyObj)

  /**
   * What the application returns: whether it can be iterated, its turns, the calls of the turn that ends it, whether
   * that turn raises, and its close method if it has one.
   */
  datatype Iterable = Iterable(
    iterates: bool,
    turns: seq<Turn>,
    last: seq<Call>,
    raises: bool,
    hasClose: bool,
    closing: seq<Call>)

  /** One execution of an application: it makes calls, and then raises or returns. */
  datatype App = Fails(calls: seq<Call>) | Returns(calls: seq<Call>, result: Iterable)

  function EventOf(c: Call): Event {
    match c
    case CallStart(args) => Start(args)
    case CallWrite(args) => WriteCall(args)
  }

  function Events(calls: seq<Call>): (evs: seq<Event>)
    ensures |evs| == |calls|
  {
    seq(|calls|, i requires 0 <= i < |calls| => EventOf(calls[i]))
  }

  function Calls(io: nat -> Io, s: State, calls: seq<Call>): State {
    Run(io, s, Events(calls))
  }

  /** The state of the adapter and whether a Python error is pending. */
  datatype Progress = Progress(state: State, error: bool)

  function Pull(io: nat -> Io, s: State, turns: seq<Turn>, it: Iterable): Progress
    decreases turns
  {
    if turns == [] then Progress(Calls(io, s, it.last), it.raises)
    else
      var s1 := Calls(io, s, turns[0].calls);
      if !turns[0].item.PyStr? then Progress(s1, true)
      else if turns[0].item.bytes == [] then Pull(io, s1, turns[1..], it)
      else
        var e := Output(io, s1, turns[0].item.bytes);
        if e.reply.Raised? then Progress(e.state, true) else Pull(io, e.state, turns[1..], it)
  }

  function Iterate(io: nat -> Io, s: State, it: Iterable): Progress {
    if it.iterates then Pull(io, s, it.turns, it) else Progress(s, true)
  }

  /** The empty output call that sends the headers of a response without a body. */
  function Finish(io: nat -> Io, p: Progress): Progress {
    if p.error then p
    else
      var e := Output(io, p.state, []);
      Progress(e.state, e.reply.Raised?)
  }

  function Result(p: Progress): int {
    if !p.error || HeadersGone(p.state) then HTTP_OK else HTTP_INTERNAL_SERVER_ERROR
  }

  datatype Outcome = Outcome(state: State, result: int, closes: nat)

  function RunApp(io: nat -> Io, s: State, app: App): Outcome {
    var s1 := Calls(io, s, app.calls);
    if app.Fails? then Outcome(s1, HTTP_INTERNAL_SERVER_ERROR, 0)
    else
      var p := Finish(io, Iterate(io, s1, app.result));
      if app.result.hasClose then Outcome(Calls(io, p.state, app.result.closing), Result(p), 1)
      else Outcome(p.state, Result(p), 0)
  }

  // The events of a run, up to the end of the iteration.

  function PullTrace(io: nat -> Io, s: State, turns: seq<Turn>, it: Iterable): seq<Event>
    decreases turns
  {
    if turns == [] then Events(it.last)
    else
      var s1 := Calls(io, s, turns[0].calls);
      var calls := Events(turns[0].calls);
      if !turns[0].item.PyStr? then calls
      else if turns[0].item.bytes == [] then calls + PullTrace(io, s1, turns[1..], it)
      else
        var e := Output(io, s1, turns[0].item.bytes);
        var done := calls + [Emit(turns[0].item.bytes)];
        if e.reply.Raised? then done else done + PullTrace(io, e.state, turns[1..], it)
  }

  function FinishTrace(p: Progress): seq<Event> {
    if p.error then [] else [Emit([])]
  }

  function Trace(io: nat -> Io, s: State, app: App): seq<Event> {
    var s1 := Calls(io, s, app.calls);
    if app.Fails? then Events(app.calls)
    else if !app.result.iterates then Events(app.calls)
    else
      Events(app.calls) + PullTrace(io, s1, app.result.turns, app.result)
      + FinishTrace(Iterate(io, s1, app.result))
  }

  lemma {:induction false} PullIsTrace(io: nat -> Io, s: State, turns: seq<Turn>, it: Iterable)
    ensures Run(io, s, PullTrace(io, s, turns, it)) == Pull(io, s, turns, it).state
    decreases turns
  {
    if turns != [] {
      var calls := Events(turns[0].calls);
      var s1 := Calls(io, s, turns[0].calls);
      if turns[0].item.PyStr? {
        var b := turns[0].item.bytes;
        var e := Output(io, s1, b);
        RunSnoc(io, s, calls, Emit(b));
        if b == [] {
          PullIsTrace(io, s1, turns[1..], it);
          RunAppend(io, s, calls, PullTrace(io, s1, turns[1..], it));
        } else {
          PullIsTrace(io, e.state, turns[1..], it);
          RunAppend(io, s, calls + [Emit(b)], PullTrace(io, e.state, turns[1..], it));
        }
        hide Run, Output, Events;
      }
    }
  }

  /**
   * A yielded value that is not a string ends the iteration with an error, whatever would have come after it: the
   * outcome is that of an iterator that makes the same calls and raises at this point.
   */
  lemma {:induction false} BadItemEndsIteration(io: nat -> Io, s: State, before: seq<Turn>, bad: Turn,
                                                after: seq<Turn>, it: Iterable)
    requires !bad.item.PyStr?
    ensures Pull(io, s, before + [bad] + after, it) == Pull(io, s, before, it.(last := bad.calls, raises := true))
    ensures Pull(io, s, before + [bad] + after, it).error
    decreases before
  {
    var all := before + [bad] + after;
    if before == [] {
      assert all[0] == bad;
    } else {
      hide Calls, Output;
      assert all[0] == before[0] && all[1..] == before[1..] + [bad] + after;
      var s1 := Calls(io, s, before[0].calls);
      BadItemEndsIteration(io, s1, before[1..], bad, after, it);
      if before[0].item.PyStr? && before[0].item.bytes != [] {
        BadItemEndsIteration(io, Output(io, s1, before[0].item.bytes).state, before[1..], bad, after, it);
      }
    }
  }

  lemma CallsSnoc(io: nat -> Io, s: State, calls: seq<Call>, c: Call)
    ensures Calls(io, s, calls + [c]) == Step(io, Calls(io, s, calls), EventOf(c)).state
  {
    assert Events(calls + [c]) == Events(calls) + [EventOf(c)];
    RunSnoc(io, s, Events(calls), EventOf(c));
    hide Step, Run;
  }

  lemma CallsAppend(io: nat -> Io, s: State, a: seq<Call>, b: seq<Call>)
    ensures Calls(io, s, a + b) == Calls(io, Calls(io, s, a), b)
  {
    assert Events(a + b) == Events(a) + Events(b);
    RunAppend(io, s, Events(a), Events(b));
    hide Run;
  }

  /**
   * Yielding a string amounts to passing it to the write callable and yielding nothing; and if that call fails, to an
   * iterator that raises there.
   */
  lemma YieldIsWrite(io: nat -> Io, s: State, turn: Turn, after: seq<Turn>, it: Iterable)
    requires turn.item.PyStr? && turn.item.bytes != []
    ensures var written := turn.calls + [CallWrite([turn.item])];
            Pull(io, s, [turn] + after, it) ==
            if Write(io, Calls(io, s, turn.calls), [turn.item]).reply.Done? then
              Pull(io, s, [Turn(written, PyStr([]))] + after, it)
            else Pull(io, s, [], it.(last := written, raises := true))
  {
    CallsSnoc(io, s, turn.calls, CallWrite([turn.item]));
    var silent := Turn(turn.calls + [CallWrite([turn.item])], PyStr([]));
    assert ([turn] + after)[1..] == after && ([silent] + after)[1..] == after;
    hide Calls, Output;
  }

  /** The adapter's state at the end of the iteration is that of a run over these events. */
  lemma TraceIsRun(io: nat -> Io, s: State, app: App)
    ensures var end := Run(io, s, Trace(io, s, app));
            if app.Fails? then RunApp(io, s, app).state == end
            else Finish(io, Iterate(io, Calls(io, s, app.calls), app.result)).state == end
  {
    if app.Returns? && app.result.iterates {
      var s1 := Calls(io, s, app.calls);
      var p := Iterate(io, s1, app.result);
      var pulled := PullTrace(io, s1, app.result.turns, app.result);
      PullIsTrace(io, s1, app.result.turns, app.result);
      RunAppend(io, s, Events(app.calls), pulled);
      RunSnoc(io, s, Events(app.calls) + pulled, Emit([]));
      hide Run, Output, Events, Pull, PullTrace;
      assert Events(app.calls) + pulled + [] == Events(app.calls) + pulled;
    }
  }

  lemma FinishedOrFailed(io: nat -> Io, p: Progress)
    ensures !Finish(io, p).error ==> HeadersGone(Finish(io, p).state)
  {
    hide ScanHeaders, Block;
  }

  /**
   * A run comes out as 200 exactly when the application returned and, by the end of the iteration, the header block
   * was written or the first start_response call had been refused for its status; otherwise as 500. Its iterable is
   * closed once if it can be.
   */
  lemma ResultExactly(io: nat -> Io, app: App)
    ensures var o, evs := RunApp(io, FRESH, app), Trace(io, FRESH, app);
            && (o.result == 200 || o.result == 500)
            && (o.result == 200 <==> app.Returns? && (Expected(evs).Framed? || FirstRejected(evs)))
            && o.closes == if app.Returns? && app.result.hasClose then 1 else 0
  {
    var evs := Trace(io, FRESH, app);
    TraceIsRun(io, FRESH, app);
    GoneIffHeadOrRejected(io, evs);
    if app.Returns? {
      FinishedOrFailed(io, Iterate(io, Calls(io, FRESH, app.calls), app.result));
    }
    hide Run, Trace, Finish, Iterate, Expected, FirstRejected, Calls;
  }

  // Applications that yield no text: nothing happens but their calls.

  predicate Silent(turns: seq<Turn>) {
    forall i :: 0 <= i < |turns| ==> turns[i].item == PyStr([])
  }

  function AllCalls(turns: seq<Turn>): seq<Call> {
    if turns == [] then [] else turns[0].calls + AllCalls(turns[1..])
  }

  lemma {:induction false} SilentPull(io: nat -> Io, s: State, turns: seq<Turn>, it: Iterable)
    requires Silent(turns)
    ensures Pull(io, s, turns, it) == Progress(Calls(io, s, AllCalls(turns) + it.last), it.raises)
    decreases turns
  {
    if turns == [] {
      assert [] + it.last == it.last;
    } else {
      var calls, rest := turns[0].calls, AllCalls(turns[1..]) + it.last;
      SilentPull(io, Calls(io, s, calls), turns[1..], it);
      CallsAppend(io, s, calls, rest);
      assert calls + AllCalls(turns[1..]) + it.last == calls + rest;
      hide Calls;
    }
  }

  /** The calls that such an application makes, up to the end of its iteration. */
  function CallsMade(app: App): seq<Call> {
    app.calls + if app.Returns? && app.result.iterates then AllCalls(app.result.turns) + app.result.last else []
  }

  /** It gets to the end of its iteration without an exception. */
  predicate EndsWell(app: App) {
    app.Returns? && app.result.iterates && !app.result.raises
  }

  /**
   * Such an application has its calls executed, then the empty output call, but only if it ended well, and then the
   * calls of its close method, which it has called even if it did not. The result is 200 if and only if it returned,
   * ended well, and its header list goes through, or anyway if the headers were already gone.
   */
  lemma SilentRun(io: nat -> Io, app: App)
    requires app.Returns? ==> Silent(app.result.turns)
    ensures var o := RunApp(io, FRESH, app);
            var s := Calls(io, FRESH, CallsMade(app));
            var e := Output(io, s, []);
            var t := if EndsWell(app) then e.state else s;
            && o.state == (if app.Returns? && app.result.hasClose then Calls(io, t, app.result.closing) else t)
            && o.result == (if app.Returns? && (HeadersGone(s) || (EndsWell(app) && e.reply.Done?)) then 200 else 500)
            && o.closes == if app.Returns? && app.result.hasClose then 1 else 0
  {
    if app.Returns? && app.result.iterates {
      var s1 := Calls(io, FRESH, app.calls);
      SilentPull(io, s1, app.result.turns, app.result);
      CallsAppend(io, FRESH, app.calls, AllCalls(app.result.turns) + app.result.last);
    } else {
      assert app.calls + [] == app.calls;
    }
    EmptyOutput(io, Calls(io, FRESH, CallsMade(app)));
    hide Calls, Output, AllCalls, HeadersGone, Pull;
  }

  /** An empty output call that fails leaves the headers where they were. */
  lemma EmptyOutput(io: nat -> Io, s: State)
    ensures var e := Output(io, s, []);
            if e.reply.Done? then HeadersGone(e.state) else HeadersGone(e.state) == HeadersGone(s) == false
  {
    hide ScanHeaders, Block;
  }
}
