/** The response state machine of the adapter object in wsgi.cpp, one call at a time. */
module Response {
  import opened ByteStrings
  import opened CNumbers
  import opened Util
  import opened Python
  import opened Streams
  import opened HeaderBlock

  const HTTP_OK := 200
  const HTTP_NOT_FOUND := 404
  const HTTP_INTERNAL_SERVER_ERROR := 500

  /** The adapter's fields and what has been handed to the output stream. */
  datatype State = State(
    status: int,
    statusLine: Option<Bytes>,
    headers: Option<seq<PyObj>>,
    lengthSet: bool,
    contentLength: nat,
    outputLength: nat,
    sent: seq<Sent>)

  const FRESH := State(HTTP_INTERNAL_SERVER_ERROR, None, None, false, 0, 0, [])

  datatype Effect = Effect(state: State, reply: Reply)

  // Status lines.

  datatype ParsedStatus = ParsedStatus(code: int, error: Option<PyError>)

  /** The word before the first space must be a number; something must follow. */
  function ParseStatus(line: Bytes): ParsedStatus {
    var p := Strtol(Word(line, SPACE));
    ParsedStatus(ToInt(p.value),
                 if p.rest != [] || p.erange then Some(TypeError)
                 else if Rest(line, SPACE) == [] then Some(ValueError)
                 else None)
  }

  /** Any code followed by any message is understood; the code is kept as a C int. */
  lemma StatusRoundTrip(code: nat, message: Bytes)
    requires code <= LONG_MAX && message != [] && message[0] != SPACE
    ensures ParseStatus(Decimal(code) + [SPACE] + message) == ParsedStatus(ToInt(code), None)
    ensures code <= INT_MAX ==> ToInt(code) == code
  {
    var line := Decimal(code) + [SPACE] + message;
    assert Repeat(SPACE, 1) == [SPACE];
    assert SplitsAs(line, SPACE, Decimal(code), 1, message);
    GetWordSplits(line, SPACE, Decimal(code), message);
    hide Strtol, Word, Rest;
    StrtolDecimal(code);
  }

  /** Which status lines are taken: an empty first word or one in the range of long, and anything behind it. */
  lemma StatusAccepted(line: Bytes)
    ensures ParseStatus(line).error.None? <==>
              && Rest(line, SPACE) != []
              && var word := Word(line, SPACE);
                 word == [] || exists i, j :: NumeralAt(word, i, j) && LONG_MIN <= NumeralValue(word, i, j) <= LONG_MAX
  {
    var word := Word(line, SPACE);
    hide Word, Rest;
    StrtolConsumesAll(word);
    forall i, j | NumeralAt(word, i, j)
      ensures Strtol(word) == Parsed(Saturate(NumeralValue(word, i, j)), [],
                                     NumeralValue(word, i, j) > LONG_MAX || NumeralValue(word, i, j) < LONG_MIN)
    {
      StrtolNumeral(word, i, j);
    }
  }

  // start_response

  /** The test the adapter uses for "headers have already been sent". */
  predicate HeadersGone(s: State) {
    s.statusLine.Some? && s.headers.None?
  }

  predicate WellTyped(args: seq<PyObj>) {
    2 <= |args| <= 3 && args[0].PyStr? && args[1].PyList?
  }

  /** What raising the application's own exc_info comes to. */
  function Reraise(excInfo: PyObj): PyError {
    if !excInfo.PyTuple? then SystemError
    else if |excInfo.elems| != 3 then TypeError
    else Restored(excInfo.elems[0], excInfo.elems[1], excInfo.elems[2])
  }

  function StatusLineOf(args: seq<PyObj>): Bytes
    requires WellTyped(args)
  {
    CString(args[0].bytes)
  }

  /** Taking a new status and header list: the status line is kept even if it turns out to be no good. */
  function Accept(s: State, line: Bytes, items: seq<PyObj>): Effect {
    var p := ParseStatus(line);
    var seen := s.(statusLine := Some(line), status := p.code);
    if p.error.Some? then Effect(seen, Raised(p.error.value))
    else Effect(seen.(headers := Some(items)), Done)
  }

  function StartResponse(s: State, args: seq<PyObj>): Effect {
    if !WellTyped(args) then Effect(s, Raised(TypeError))
    else if HeadersGone(s) then
      Effect(s, Raised(if |args| == 3 && args[2] != PyNone then Reraise(args[2]) else RuntimeError))
    else Accept(s, StatusLineOf(args), args[1].items)
  }

  // Output

  /** Write the pending headers, if there are any and they pass the check. */
  function SendHead(s: State): Effect {
    if s.headers.None? then Effect(s, Done)
    else
      var scan := ScanHeaders(s.headers.value);
      var seen := if scan.limit.None? then s else s.(lengthSet := true, contentLength := scan.limit.value);
      if scan.error.Some? then Effect(seen, Raised(scan.error.value))
      else Effect(seen.(headers := None, sent := s.sent + [Text(Block(scan.pairs))]), Done)
  }

  /** How many of `length` further bytes the declared length leaves room for. */
  function Allowed(s: State, length: nat): (n: nat)
    ensures n <= length
  {
    if !s.lengthSet then length
    else if s.outputLength < s.contentLength then Min(length, s.contentLength - s.outputLength)
    else 0
  }

  function IoReply(io: Io): Reply {
    if io.Written? then Done else Raised(IOError)
  }

  function SendBody(io: nat -> Io, s: State, data: Bytes): Effect {
    var n := Allowed(s, |data|);
    var counted := s.(outputLength := s.outputLength + |data|);
    if n == 0 then Effect(counted, Done)
    else Effect(counted.(sent := s.sent + [Data(data[..n])]), IoReply(io(|s.sent|)))
  }

  function Output(io: nat -> Io, s: State, data: Bytes): Effect {
    if s.statusLine.None? then Effect(s, Raised(RuntimeError))
    else
      var head := SendHead(s);
      if head.reply.Raised? then head else SendBody(io, head.state, data)
  }

  /** The write callable. */
  function Write(io: nat -> Io, s: State, args: seq<PyObj>): Effect {
    if |args| == 1 && args[0].PyStr? then Output(io, s, args[0].bytes)
    else Effect(s, Raised(TypeError))
  }

  // Runs. `Emit` is the adapter's own output call: for a yielded string, or the empty one at the end.

  datatype Event = Start(args: seq<PyObj>) | WriteCall(args: seq<PyObj>) | Emit(data: Bytes)

  function Step(io: nat -> Io, s: State, ev: Event): Effect {
    match ev
    case Start(args) => StartResponse(s, args)
    case WriteCall(args) => Write(io, s, args)
    case Emit(data) => Output(io, s, data)
  }

  function Run(io: nat -> Io, s: State, evs: seq<Event>): State
    decreases evs
  {
    if evs == [] then s else Run(io, Step(io, s, evs[0]).state, evs[1..])
  }

  lemma {:induction false} RunAppend(io: nat -> Io, s: State, a: seq<Event>, b: seq<Event>)
    ensures Run(io, s, a + b) == Run(io, Run(io, s, a), b)
    decreases a
  {
    if a == [] {
      assert a + b == b;
    } else {
      hide Step;
      assert (a + b)[0] == a[0] && (a + b)[1..] == a[1..] + b;
      RunAppend(io, Step(io, s, a[0]).state, a[1..], b);
    }
  }

  lemma RunSnoc(io: nat -> Io, s: State, evs: seq<Event>, ev: Event)
    ensures Run(io, s, evs + [ev]) == Step(io, Run(io, s, evs), ev).state
  {
    hide Step;
    RunAppend(io, s, evs, [ev]);
    var t := Run(io, s, evs);
    assert Run(io, t, [ev]) == Run(io, Step(io, t, ev).state, [ev][1..]) == Step(io, t, ev).state;
  }
}
