/** The adapter object of wsgi.cpp: the fields, updated step by step, behind the response state machine. */
module Adapters {
  import opened ByteStrings
  import opened CNumbers
  import opened Util
  import opened Python
  import opened Streams
  import opened HeaderBlock
  import opened Response
  import opened Application
  import opened Logs
  import opened Inputs

  function CallSize(c: Call): nat {
    if c.CallWrite? && |c.args| == 1 && c.args[0].PyStr? then |c.args[0].bytes| else 0
  }

  /** The bytes that a list of calls offers as output. */
  function CallsSize(calls: seq<Call>): nat {
    if calls == [] then 0 else CallSize(calls[0]) + CallsSize(calls[1..])
  }

  function ItemSize(item: PyObj): nat {
    if item.PyStr? then |item.bytes| else 0
  }

  function TurnsSize(turns: seq<Turn>): nat {
    if turns == [] then 0 else CallsSize(turns[0].calls) + ItemSize(turns[0].item) + TurnsSize(turns[1..])
  }

  function IterableSize(it: Iterable): nat {
    TurnsSize(it.turns) + CallsSize(it.last) + CallsSize(it.closing)
  }

  function AppSize(app: App): nat {
    CallsSize(app.calls) + if app.Returns? then IterableSize(app.result) else 0
  }

  // No single string is longer than an int can count.

  predicate CallsFit(calls: seq<Call>) {
    forall i :: 0 <= i < |calls| ==> CallSize(calls[i]) <= INT_MAX
  }

  predicate TurnsFit(turns: seq<Turn>) {
    forall i :: 0 <= i < |turns| ==> CallsFit(turns[i].calls) && ItemSize(turns[i].item) <= INT_MAX
  }

  predicate AppFits(app: App) {
    && CallsFit(app.calls)
    && (app.Returns? ==> TurnsFit(app.result.turns) && CallsFit(app.result.last) && CallsFit(app.result.closing))
  }

  class Adapter {
    var r: Request?
    var input: Input
    var log: Log
    var result: int
    var status: int
    var statusLine: Option<Bytes>
    var headers: Option<seq<PyObj>>
    var lengthSet: bool
    var contentLength: int
    var outputLength: int

    ghost predicate Valid()
      reads this
    {
      0 <= contentLength <= OFF_MAX && 0 <= outputLength <= OFF_MAX
    }

    ghost function State(): Response.State
      requires Valid() && r != null
      reads this, r
    {
      Response.State(status, statusLine, headers, lengthSet, contentLength, outputLength, r.sent)
    }

    ghost function Target(): set<Request>
      reads this
    {
      if r == null then {} else {r}
    }

    constructor (r: Request)
      ensures Valid() && this.r == r && State() == FRESH.(sent := r.sent) && result == HTTP_INTERNAL_SERVER_ERROR
      ensures fresh(input) && input.Valid() && input.r == r
      ensures input.State() == InputReads.InputState([], r.input, false)
      ensures fresh(log) && log.Valid() && log.r == r && log.State() == LogLines.LogState([], true, r.err)
    {
      result := HTTP_INTERNAL_SERVER_ERROR;
      this.r := r;
      status := HTTP_INTERNAL_SERVER_ERROR;
      statusLine, headers := None, None;
      lengthSet, contentLength, outputLength := false, 0, 0;
      input := new Input(r);
      log := new Log(r);
    }

    method StartResponse(args: seq<PyObj>) returns (reply: Reply)
      requires Valid()
      modifies this`status, this`statusLine, this`headers
      ensures Valid()
      ensures r == null ==> reply == Raised(RuntimeError) && unchanged(this)
      ensures r != null ==> Effect(State(), reply) == Response.StartResponse(old(State()), args)
    {
      hide IndexOf, Accept;
      if r == null {
        return Raised(RuntimeError);
      }
      if !(2 <= |args| <= 3) {
        return Raised(TypeError);
      }
      var item, list := args[0], args[1];
      if !item.PyStr? {
        return Raised(TypeError);
      }
      if !list.PyList? {
        return Raised(TypeError);
      }
      if |args| == 3 && args[2] != PyNone {
        if statusLine.Some? && headers.None? {
          return Raised(Reraise(args[2]));
        }
      } else if statusLine.Some? && headers.None? {
        return Raised(RuntimeError);
      }
      reply := Take(CString(item.bytes), list.items);
    }

    /** The second half of start_response: parse the status line, and keep the headers if it is good. */
    method Take(line: Bytes, items: seq<PyObj>) returns (reply: Reply)
      requires Valid() && r != null && NUL !in line
      modifies this`status, this`statusLine, this`headers
      ensures Valid()
      ensures Effect(State(), reply) == Accept(old(State()), line, items)
    {
      hide Word, Rest, Strtol;
      statusLine := Some(line);
      var cursor := new Cursor(line);
      var word := GetWord(cursor, SPACE);
      assert word[..word.Length - 1] == Word(line, SPACE);
      var value := Strtol(word[..word.Length - 1]);
      status := ToInt(value.value);
      if value.rest != [] || value.erange {
        return Raised(TypeError);
      }
      if cursor.text == [] {
        return Raised(ValueError);
      }
      headers := Some(items);
      return Done;
    }

    /** The checking loop: collects the pairs, and stores a Content-Length as soon as it meets one. */
    method CheckHeaders(items: seq<PyObj>) returns (pairs: seq<Header>, error: Option<PyError>)
      requires Valid()
      modifies this`lengthSet, this`contentLength
      ensures Valid()
      ensures var scan := ScanHeaders(items);
              && error == scan.error && pairs == scan.pairs
              && (if scan.limit.None? then unchanged(this) else lengthSet && contentLength == scan.limit.value)
    {
      hide CheckHeader, DeclaredLength, ScanHeaders;
      pairs := [];
      var i := 0;
      ScanNone();
      while i < |items|
        invariant 0 <= i <= |items| && Valid()
        invariant var scan := ScanHeaders(items[..i]);
                  && scan.error.None? && pairs == scan.pairs
                  && (if scan.limit.None? then lengthSet == old(lengthSet) && contentLength == old(contentLength)
                      else lengthSet && contentLength == scan.limit.value)
      {
        assert items[..i + 1] == items[..i] + [items[i]];
        assert items == items[..i + 1] + items[i + 1..];
        ScanOne(items[i]);
        ScanAppend(items[..i], [items[i]]);
        ScanAppend(items[..i + 1], items[i + 1..]);
        match CheckHeader(items[i]) {
          case Bad(e) =>
            assert pairs + [] == pairs;
            error := Some(e);
            return;
          case Good(h) =>
            if DeclaredLength(h).Some? {
              LengthInRange(h);
              lengthSet := true;
              contentLength := DeclaredLength(h).value;
            }
            pairs := pairs + [h];
        }
        i := i + 1;
      }
      assert items[..|items|] == items;
      error := None;
    }

    /** Writing the block: one string, appended to header by header. */
    method Serialize(pairs: seq<Header>) returns (output: Bytes)
      ensures output == Block(pairs)
    {
      output := [];
      var i := 0;
      while i < |pairs|
        invariant 0 <= i <= |pairs| && output == Lines(pairs[..i])
      {
        var h := pairs[i];
        assert pairs[..i + 1] == pairs[..i] + [h];
        LinesSnoc(pairs[..i], h);
        hide Lines;
        assert output + Line(h) == output + h.name + [COLON, SPACE] + h.value + CRLF;
        output := output + h.name;
        output := output + [COLON, SPACE];
        output := output + h.value;
        output := output + CRLF;
        i := i + 1;
      }
      assert pairs[..|pairs|] == pairs;
      output := output + CRLF;
    }

    /** One output call. The arithmetic is that of int and off_t; the limits on the data keep all of it exact. */
    method Output(data: Bytes) returns (reply: Reply)
      requires Valid() && r != null
      requires |data| <= INT_MAX && outputLength + |data| <= OFF_MAX
      modifies this`headers, this`lengthSet, this`contentLength, this`outputLength, r`sent
      ensures Valid()
      ensures Effect(State(), reply) == Response.Output(r.io, old(State()), data)
    {
      hide Block, ScanHeaders;
      if statusLine.None? {
        return Raised(RuntimeError);
      }
      if headers.Some? {
        var pairs, error := CheckHeaders(headers.value);
        if error.Some? {
          return Raised(error.value);
        }
        var text := Serialize(pairs);
        r.PutStr(text);
        var _ := r.FlushOut();
        headers := None;
      }
      reply := PutBody(data);
    }

    /** The second half of an output call: cut the data to the declared length, count it, and hand it over. */
    method PutBody(data: Bytes) returns (reply: Reply)
      requires Valid() && r != null
      requires |data| <= INT_MAX && outputLength + |data| <= OFF_MAX
      modifies this`outputLength, r`sent
      ensures Valid()
      ensures Effect(State(), reply) == SendBody(r.io, old(State()), data)
    {
      var length := ToInt(|data|);
      if length != 0 {
        var offered := length;
        if lengthSet {
          if outputLength < contentLength {
            if ToOff(outputLength + length) > contentLength {
              length := ToInt(contentLength - outputLength);
            }
          } else {
            length := 0;
          }
        }
        outputLength := ToOff(outputLength + offered);
      }
      if length != 0 {
        var n := r.PutData(data[..length]);
        if n == -1 {
          return Raised(IOError);
        }
        n := r.FlushOut();
        if n == -1 {
          return Raised(IOError);
        }
      }
      return Done;
    }

    method Write(args: seq<PyObj>) returns (reply: Reply)
      requires Valid()
      requires r != null ==> CallSize(CallWrite(args)) <= INT_MAX && outputLength + CallSize(CallWrite(args)) <= OFF_MAX
      modifies this`headers, this`lengthSet, this`contentLength, this`outputLength, Target()`sent
      ensures Valid()
      ensures r == null ==> reply == Raised(RuntimeError) && unchanged(this)
      ensures r != null ==> Effect(State(), reply) == Response.Write(r.io, old(State()), args)
    {
      hide Response.Output;
      if r == null {
        return Raised(RuntimeError);
      }
      if |args| != 1 {
        return Raised(TypeError);
      }
      var item := args[0];
      if !item.PyStr? {
        return Raised(TypeError);
      }
      reply := Output(item.bytes);
    }

    // Running an application.

    method Invoke(c: Call) returns (reply: Reply)
      requires Valid() && r != null
      requires CallSize(c) <= INT_MAX && outputLength + CallSize(c) <= OFF_MAX
      modifies this`status, this`statusLine, this`headers, this`lengthSet, this`contentLength, this`outputLength, r`sent
      ensures Valid() && Effect(State(), reply) == Step(r.io, old(State()), EventOf(c))
    {
      match c {
        case CallStart(args) => reply := StartResponse(args);
        case CallWrite(args) => reply := Write(args);
      }
    }

    method InvokeAll(calls: seq<Call>)
      requires Valid() && r != null
      requires CallsFit(calls) && outputLength + CallsSize(calls) <= OFF_MAX
      modifies this`status, this`statusLine, this`headers, this`lengthSet, this`contentLength, this`outputLength, r`sent
      ensures Valid() && State() == Calls(r.io, old(State()), calls)
      ensures outputLength <= old(outputLength) + CallsSize(calls)
    {
      hide Response.Run, Step, CallSize;
      ghost var s := State();
      var i := 0;
      CallsFrom(r.io, s, calls);
      while i < |calls|
        invariant 0 <= i <= |calls| && Valid()
        invariant Calls(r.io, State(), calls[i..]) == Calls(r.io, s, calls)
        invariant outputLength + CallsSize(calls[i..]) <= old(outputLength) + CallsSize(calls)
      {
        CallsFrom(r.io, State(), calls[i..]);
        StepGrows(r.io, State(), calls[i]);
        assert calls[i..][1..] == calls[i + 1..] && calls[i..][0] == calls[i];
        var _ := Invoke(calls[i]);
        i := i + 1;
      }
      CallsFrom(r.io, State(), calls[i..]);
    }

    /** The iteration, up to its end, its first exception, or the first string that cannot be put out. */
    method PullAll(it: Iterable) returns (error: bool)
      requires Valid() && r != null
      requires TurnsFit(it.turns) && CallsFit(it.last)
      requires outputLength + TurnsSize(it.turns) + CallsSize(it.last) <= OFF_MAX
      modifies this`status, this`statusLine, this`headers, this`lengthSet, this`contentLength, this`outputLength, r`sent
      ensures Valid() && Progress(State(), error) == Pull(r.io, old(State()), it.turns, it)
      ensures outputLength <= old(outputLength) + TurnsSize(it.turns) + CallsSize(it.last)
    {
      hide Pull, Calls, CallsSize, CallsFit, Response.Output;
      ghost var s := State();
      ghost var bound := outputLength + TurnsSize(it.turns);
      var i := 0;
      assert it.turns[0..] == it.turns;
      while i < |it.turns|
        invariant 0 <= i <= |it.turns| && Valid()
        invariant Pull(r.io, State(), it.turns[i..], it) == Pull(r.io, s, it.turns, it)
        invariant outputLength + TurnsSize(it.turns[i..]) <= bound
      {
        var turn := it.turns[i];
        assert it.turns[i..][0] == turn && it.turns[i..][1..] == it.turns[i + 1..];
        PullTurn(r.io, State(), it.turns[i..], it);
        InvokeAll(turn.calls);
        if !turn.item.PyStr? {
          return true;
        }
        var msg := turn.item.bytes;
        if |msg| != 0 {
          OutputGrows(r.io, State(), msg);
          var reply := Output(msg);
          if reply.Raised? {
            return true;
          }
        }
        i := i + 1;
      }
      PullEnd(r.io, State(), it.turns[i..], it);
      InvokeAll(it.last);
      error := it.raises;
    }

    method Run(app: App) returns (status: int, closes: nat)
      requires Valid() && r != null && result == HTTP_INTERNAL_SERVER_ERROR
      requires AppFits(app) && outputLength + AppSize(app) <= OFF_MAX
      modifies this`result, this`status, this`statusLine, this`headers, this`lengthSet, this`contentLength,
        this`outputLength, r`sent
      ensures Valid()
      ensures Outcome(State(), status, closes) == RunApp(r.io, old(State()), app)
    {
      hide Pull, Calls, CallsSize, TurnsSize, CallsFit, TurnsFit, Response.Output;
      closes := 0;
      InvokeAll(app.calls);
      if app.Returns? {
        var error := true;
        if app.result.iterates {
          error := PullAll(app.result);
        }
        if !error {
          OutputGrows(r.io, State(), []);
          var reply := Output([]);
          if reply.Done? {
            result := HTTP_OK;
          } else {
            error := true;
          }
        }
        if error {
          if statusLine.Some? && headers.None? {
            result := HTTP_OK;
          }
        }
        if app.result.hasClose {
          InvokeAll(app.result.closing);
          closes := closes + 1;
        }
      }
      status := result;
    }
  }

  lemma OutputGrows(io: nat -> Io, s: State, data: Bytes)
    ensures Response.Output(io, s, data).state.outputLength <= s.outputLength + |data|
  {
    hide ScanHeaders, Block;
  }

  lemma StepGrows(io: nat -> Io, s: State, c: Call)
    ensures Step(io, s, EventOf(c)).state.outputLength <= s.outputLength + CallSize(c)
  {
    hide ParseStatus, Response.Output;
    match c {
      case CallStart(args) =>
      case CallWrite(args) =>
        if |args| == 1 && args[0].PyStr? {
          OutputGrows(io, s, args[0].bytes);
        }
    }
  }

  /** Making the first call of a list, or none of an empty one. */
  lemma CallsFrom(io: nat -> Io, s: State, calls: seq<Call>)
    ensures calls[0..] == calls && (calls == [] ==> Calls(io, s, calls) == s && CallsSize(calls) == 0)
    ensures calls != [] ==>
              && Calls(io, s, calls) == Calls(io, Step(io, s, EventOf(calls[0])).state, calls[1..])
              && CallsSize(calls) == CallSize(calls[0]) + CallsSize(calls[1..])
  {
    hide Step, CallSize;
    if calls != [] {
      assert Events(calls)[0] == EventOf(calls[0]) && Events(calls)[1..] == Events(calls[1..]);
    }
  }

  lemma PullTurn(io: nat -> Io, s: State, turns: seq<Turn>, it: Iterable)
    requires turns != []
    ensures var s1 := Calls(io, s, turns[0].calls);
            Pull(io, s, turns, it) ==
            if !turns[0].item.PyStr? then Progress(s1, true)
            else if turns[0].item.bytes == [] then Pull(io, s1, turns[1..], it)
            else
              var e := Response.Output(io, s1, turns[0].item.bytes);
              if e.reply.Raised? then Progress(e.state, true) else Pull(io, e.state, turns[1..], it)
    ensures TurnsSize(turns) == CallsSize(turns[0].calls) + ItemSize(turns[0].item) + TurnsSize(turns[1..])
  {
    hide Calls, Response.Output, CallsSize;
  }

  lemma PullEnd(io: nat -> Io, s: State, turns: seq<Turn>, it: Iterable)
    requires turns == []
    ensures Pull(io, s, turns, it) == Progress(Calls(io, s, it.last), it.raises) && TurnsSize(turns) == 0
  {
    hide Calls;
  }
}
