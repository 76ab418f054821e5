/** Applications on which the adapter does something else than its header lists and status strings ask for. */
module Deviations {
  import opened ByteStrings
  import opened CNumbers
  import opened Util
  import opened Python
  import opened Streams
  import opened HeaderBlock
  import opened Response
  import opened ResponseRuns
  import opened Application

  /** The arguments of a start_response call without exc_info. */
  function Args(line: Bytes, items: seq<PyObj>): seq<PyObj> {
    [PyStr(line), PyList(items)]
  }

  /** A result that yields one string, makes no calls and has no close method. */
  function Once(data: Bytes): Iterable {
    Iterable(true, [Turn([], PyStr(data))], [], false, false, [])
  }

  /** With the headers gone after its one string, such a run ends there, and as a success. */
  lemma RunOnce(io: nat -> Io, calls: seq<Call>, data: Bytes)
    requires data != [] && HeadersGone(Output(io, Calls(io, FRESH, calls), data).state)
    ensures var o := RunApp(io, FRESH, Returns(calls, Once(data)));
            o.state == Output(io, Calls(io, FRESH, calls), data).state && o.result == HTTP_OK
  {
    var it := Once(data);
    var s1 := Calls(io, FRESH, calls);
    var e := Output(io, s1, data);
    assert it.turns[1..] == [];
    assert Calls(io, s1, []) == s1 && Calls(io, e.state, []) == e.state;
    NothingMore(io, e.state);
    assert Pull(io, e.state, [], it) == Progress(e.state, false);
    hide Calls, Output, HeadersGone;
    assert Pull(io, s1, it.turns, it) == if e.reply.Raised? then Progress(e.state, true) else Progress(e.state, false);
    var p := Pull(io, s1, it.turns, it);
    assert Finish(io, p) == p;
  }

  lemma NothingMore(io: nat -> Io, s: State)
    requires HeadersGone(s)
    ensures Output(io, s, []) == Effect(s, Done)
  {
  }

  lemma CallsAre(io: nat -> Io, a: Call, b: Call, c: Call)
    ensures Calls(io, FRESH, [a]) == Step(io, FRESH, EventOf(a)).state
    ensures Calls(io, FRESH, [a, b, c])
         == Step(io, Step(io, Step(io, FRESH, EventOf(a)).state, EventOf(b)).state, EventOf(c)).state
  {
    hide Step, EventOf;
    var x, y, z := EventOf(a), EventOf(b), EventOf(c);
    assert Events([a]) == [] + [x] && Events([a, b, c]) == [] + [x] + [y] + [z];
    RunSnoc(io, FRESH, [], x);
    RunSnoc(io, FRESH, [] + [x], y);
    RunSnoc(io, FRESH, [] + [x] + [y], z);
  }

  lemma StepStarted(io: nat -> Io, s: State, line: Bytes, items: seq<PyObj>)
    requires NUL !in line && ParseStatus(line).error.None? && !HeadersGone(s)
    ensures var t := Step(io, s, Start(Args(line, items))).state;
            t == s.(status := t.status, statusLine := Some(line), headers := Some(items))
  {
    hide ParseStatus, IndexOf;
  }

  /**
   * An application that survives a refused write, starts over with a list that declares no length, and yields a
   * string: what is sent of the string is cut at the length that the refused list had left behind.
   */
  lemma StaleLimitCuts(io: nat -> Io, line: Bytes, refused: seq<PyObj>, good: seq<PyObj>, data: Bytes)
    requires NUL !in line && ParseStatus(line).error.None?
    requires ScanHeaders(refused).error.Some? && ScanHeaders(refused).limit.Some?
    requires ScanHeaders(good).error.None? && ScanHeaders(good).limit.None?
    requires 0 < ScanHeaders(refused).limit.value <= |data|
    ensures var calls := [CallStart(Args(line, refused)), CallWrite([PyStr(data)]), CallStart(Args(line, good))];
            var o := RunApp(io, FRESH, Returns(calls, Once(data)));
            && o.state.sent == [Text(Block(ScanHeaders(good).pairs)), Data(data[..ScanHeaders(refused).limit.value])]
            && o.result == HTTP_OK
  {
    var a, b, c := CallStart(Args(line, refused)), CallWrite([PyStr(data)]), CallStart(Args(line, good));
    var s1 := Step(io, FRESH, EventOf(a)).state;
    var s2 := Step(io, s1, EventOf(b)).state;
    var s3 := Step(io, s2, EventOf(c)).state;
    CallsAre(io, a, b, c);
    StepStarted(io, FRESH, line, refused);
    StepPending(io, s1, EventOf(b));
    HeadEffect(s1);
    StepStarted(io, s2, line, good);
    hide Run, Step, SendHead, SendBody, ParseStatus, ScanHeaders, Args, Output, Calls, RunApp;
    SendsCut(io, s3, good, data);
    RunOnce(io, [a, b, c], data);
  }

  lemma SendsCut(io: nat -> Io, s: State, good: seq<PyObj>, data: Bytes)
    requires s.statusLine.Some? && s.headers == Some(good) && s.sent == [] && s.outputLength == 0
    requires ScanHeaders(good).error.None? && ScanHeaders(good).limit.None?
    requires LimitOf(s).Some? && 0 < s.contentLength <= |data|
    ensures HeadersGone(Output(io, s, data).state)
    ensures Output(io, s, data).state.sent == [Text(Block(ScanHeaders(good).pairs)), Data(data[..s.contentLength])]
  {
    HeadEffect(s);
    hide SendHead, ScanHeaders, Block;
  }

  lemma LengthOfOne()
    ensures CheckHeader(PyTuple([PyStr(CONTENT_LENGTH), PyStr([49])])) == Good(Header(CONTENT_LENGTH, [49]))
    ensures DeclaredLength(Header(CONTENT_LENGTH, [49])) == Some(1)
  {
    LengthName();
    assert Decimal(1) == [49];
    ContentLengthRoundTrip(1);
    LengthAccepted(CONTENT_LENGTH, [49], 1);
    hide CheckHeader, DeclaredLength;
  }

  lemma LengthAccepted(name: Bytes, value: Bytes, n: nat)
    requires IsContentLength(name) && ParseLength(value) == Some(n)
    requires CString(name) == name && CString(value) == value && NEWLINE !in name && NEWLINE !in value
    ensures CheckHeader(PyTuple([PyStr(name), PyStr(value)])) == Good(Header(name, value))
    ensures DeclaredLength(Header(name, value)) == Some(n)
  {
    hide CString, ParseLength, IsContentLength;
  }

  lemma LengthName()
    ensures IsContentLength(CONTENT_LENGTH) && CString(CONTENT_LENGTH) == CONTENT_LENGTH && CString([49]) == [49]
    ensures NEWLINE !in CONTENT_LENGTH
  {
    hide CString;
    assert NUL !in CONTENT_LENGTH && NUL !in [49];
  }

  /** Such a list: a Content-Length of 1, and then something that is not a tuple. */
  lemma RefusedList()
    ensures var items := [PyTuple([PyStr(CONTENT_LENGTH), PyStr([49])]), PyNone];
            ScanHeaders(items).error.Some? && ScanHeaders(items).limit == Some(1)
  {
    var x := PyTuple([PyStr(CONTENT_LENGTH), PyStr([49])]);
    LengthOfOne();
    assert CheckHeader(PyNone) == Bad(TypeError);
    hide CheckHeader, DeclaredLength, ScanHeaders, IsContentLength, CONTENT_LENGTH;
    ScanTwo(x, PyNone, Header(CONTENT_LENGTH, [49]), TypeError);
  }

  lemma ScanTwo(x: PyObj, y: PyObj, h: Header, e: PyError)
    requires CheckHeader(x) == Good(h) && CheckHeader(y) == Bad(e)
    ensures ScanHeaders([x, y]) == Scan([h], DeclaredLength(h), Some(e))
  {
    hide CheckHeader, DeclaredLength, ScanHeaders;
    ScanOne(x);
    ScanOne(y);
    ScanAppend([x], [y]);
    assert [x, y] == [x] + [y];
    assert [h] + [] == [h];
  }

  /**
   * An application whose first status is refused, and which goes on to yield a string: the string goes out bare and
   * uncut, with no header block, and the run counts as a success.
   */
  lemma RefusedStatusSendsBareBody(io: nat -> Io, line: Bytes, items: seq<PyObj>, data: Bytes)
    requires NUL !in line && ParseStatus(line).error.Some? && data != []
    ensures var o := RunApp(io, FRESH, Returns([CallStart(Args(line, items))], Once(data)));
            o.state.sent == [Data(data)] && o.result == HTTP_OK
  {
    var a := CallStart(Args(line, items));
    CallsAre(io, a, a, a);
    BareOutput(io, line, items, data);
    RunOnce(io, [a], data);
    hide Step, Output, Calls, RunApp, HeadersGone;
  }

  lemma BareOutput(io: nat -> Io, line: Bytes, items: seq<PyObj>, data: Bytes)
    requires NUL !in line && ParseStatus(line).error.Some? && data != []
    ensures var t := Output(io, Step(io, FRESH, Start(Args(line, items))).state, data).state;
            HeadersGone(t) && t.sent == [Data(data)]
  {
    hide ParseStatus, IndexOf;
    assert data[..|data|] == data;
  }

  /** Such a status: `200`, with no message behind it. */
  lemma RefusedStatus()
    ensures ParseStatus([50, 48, 48]) == ParsedStatus(200, Some(ValueError))
  {
    var line: Bytes := [50, 48, 48];
    hide Word, Rest, Strtol, AllDigits, Decimal, ToInt;
    DecimalOf200();
    StrtolDecimal(200);
    WholeWord(line, SPACE);
    hide SplitsAs;
    GetWordSplits(line, SPACE, line, []);
  }

  lemma DecimalOf200()
    ensures Decimal(200) == [50, 48, 48]
  {
    assert Decimal(2) == [50] && Decimal(20) == [50, 48];
  }
}
