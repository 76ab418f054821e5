/** Checking, writing and reading back the response header block. */
module HeaderBlock {
  import opened ByteStrings
  import opened CNumbers
  import opened Python

  datatype Header = Header(name: Bytes, value: Bytes)

  datatype Checked = Good(header: Header) | Bad(error: PyError)

  function Lower(c: byte): byte {
    if 65 <= c <= 90 then c + 32 else c
  }

  /** strcasecmp(a, b) == 0 */
  predicate SameIgnoringCase(a: Bytes, b: Bytes) {
    |a| == |b| && forall i :: 0 <= i < |a| ==> Lower(a[i]) == Lower(b[i])
  }

  /** "Content-Length" */
  const CONTENT_LENGTH: Bytes := [67, 111, 110, 116, 101, 110, 116, 45, 76, 101, 110, 103, 116, 104]

  predicate IsContentLength(name: Bytes) {
    SameIgnoringCase(name, CONTENT_LENGTH)
  }

  /** The length a Content-Length value stands for, if the adapter takes it. */
  function ParseLength(value: Bytes): Option<nat> {
    var p := Strtol(value);
    if p.rest != [] || p.erange || p.value < 0 then None else Some(p.value)
  }

  function CheckHeader(obj: PyObj): Checked {
    if !obj.PyTuple? then Bad(TypeError)
    else if |obj.elems| != 2 then Bad(ValueError)
    else if !obj.elems[0].PyStr? || !obj.elems[1].PyStr? then Bad(TypeError)
    else
      var name, value := CString(obj.elems[0].bytes), CString(obj.elems[1].bytes);
      if NEWLINE in name || NEWLINE in value then Bad(ValueError)
      else if IsContentLength(name) && ParseLength(value).None? then Bad(ValueError)
      else Good(Header(name, value))
  }

  function DeclaredLength(h: Header): Option<nat> {
    if IsContentLength(h.name) then ParseLength(h.value) else None
  }

  /** How far the checking loop gets: the pairs collected, the last length it stored, and why it stopped early. */
  datatype Scan = Scan(pairs: seq<Header>, limit: Option<nat>, error: Option<PyError>)

  function Later(a: Option<nat>, b: Option<nat>): Option<nat> {
    if b.Some? then b else a
  }

  function ScanHeaders(items: seq<PyObj>): Scan {
    if items == [] then Scan([], None, None)
    else
      match CheckHeader(items[0])
      case Bad(e) => Scan([], None, Some(e))
      case Good(h) =>
        var more := ScanHeaders(items[1..]);
        Scan([h] + more.pairs, Later(DeclaredLength(h), more.limit), more.error)
  }

  /** The loop's view: one more element behind a prefix that passed, or nothing more behind one that did not. */
  lemma {:induction false} ScanAppend(a: seq<PyObj>, b: seq<PyObj>)
    ensures ScanHeaders(a).error.Some? ==> ScanHeaders(a + b) == ScanHeaders(a)
    ensures ScanHeaders(a).error.None? ==>
              ScanHeaders(a + b) == Scan(ScanHeaders(a).pairs + ScanHeaders(b).pairs,
                                         Later(ScanHeaders(a).limit, ScanHeaders(b).limit), ScanHeaders(b).error)
  {
    hide CheckHeader, DeclaredLength;
    if a == [] {
      assert a + b == b;
    } else {
      assert (a + b)[0] == a[0] && (a + b)[1..] == a[1..] + b;
      match CheckHeader(a[0])
      case Bad(_) =>
      case Good(h) =>
        ScanAppend(a[1..], b);
        var x, y := ScanHeaders(a[1..]).pairs, ScanHeaders(b).pairs;
        assert [h] + (x + y) == [h] + x + y;
    }
  }

  lemma ScanNone()
    ensures forall items: seq<PyObj> :: ScanHeaders(items[..0]) == Scan([], None, None)
  {
  }

  lemma LengthInRange(h: Header)
    requires DeclaredLength(h).Some?
    ensures DeclaredLength(h).value <= LONG_MAX
  {
    hide Strtol;
    StrtolInRange(h.value);
  }

  lemma ScanOne(obj: PyObj)
    ensures ScanHeaders([obj]) == match CheckHeader(obj)
                                  case Bad(e) => Scan([], None, Some(e))
                                  case Good(h) => Scan([h], DeclaredLength(h), None)
  {
    assert ScanHeaders([obj][1..]) == Scan([], None, None);
  }

  function Line(h: Header): Bytes {
    h.name + [COLON, SPACE] + h.value + CRLF
  }

  function Lines(hs: seq<Header>): Bytes {
    if hs == [] then [] else Line(hs[0]) + Lines(hs[1..])
  }

  lemma {:induction false} LinesSnoc(hs: seq<Header>, h: Header)
    ensures Lines(hs + [h]) == Lines(hs) + Line(h)
  {
    if hs == [] {
      assert hs + [h] == [h] && [h][1..] == [];
    } else {
      assert (hs + [h])[1..] == hs[1..] + [h];
      LinesSnoc(hs[1..], h);
    }
  }

  function Block(hs: seq<Header>): Bytes {
    Lines(hs) + CRLF
  }

  // A line-based reader of CGI responses (RFC 3875, section 6.3), independent of the writer.

  datatype Message = Message(headers: seq<Header>, body: Bytes)

  function ChopCR(line: Bytes): Bytes {
    if line != [] && line[|line| - 1] == CR then line[..|line| - 1] else line
  }

  function ReadHeader(line: Bytes): Option<Header> {
    var i := IndexOf(line, COLON);
    if i == |line| then None
    else
      var value := line[i + 1..];
      Some(Header(line[..i], if value != [] && value[0] == SPACE then value[1..] else value))
  }

  function Read(text: Bytes): (r: Option<Message>)
    ensures r.Some? ==> forall h :: h in r.value.headers ==> COLON !in h.name
    decreases |text|
  {
    var i := IndexOf(text, NEWLINE);
    if i == |text| then None
    else
      var line, rest := ChopCR(text[..i]), text[i + 1..];
      if line == [] then Some(Message([], rest))
      else
        match ReadHeader(line)
        case None => None
        case Some(h) =>
          match Read(rest)
          case None => None
          case Some(r) => Some(Message([h] + r.headers, r.body))
  }

  predicate NewlineFree(h: Header) {
    NEWLINE !in h.name && NEWLINE !in h.value
  }

  lemma ReadLine(h: Header)
    requires COLON !in h.name
    ensures ReadHeader(h.name + [COLON, SPACE] + h.value) == Some(h)
  {
    var line := h.name + [COLON, SPACE] + h.value;
    var i := |h.name|;
    assert line[..i] == h.name && line[i] == COLON;
    IndexOfIs(line, COLON, i);
    assert line[i + 1..][1..] == h.value;
  }

  /** A header line is read as the line itself, whatever carriage returns it contains. */
  lemma FirstLine(line: Bytes, rest: Bytes)
    requires NEWLINE !in line
    ensures IndexOf(line + CRLF + rest, NEWLINE) == |line| + 1
    ensures ChopCR((line + CRLF + rest)[..|line| + 1]) == line
    ensures (line + CRLF + rest)[|line| + 2..] == rest
  {
    var text := line + CRLF + rest;
    assert text == (line + [CR]) + [NEWLINE] + rest;
    IndexOfConcat(line + [CR], NEWLINE, rest);
    assert text[..|line| + 1] == line + [CR];
  }

  lemma ReadStep(text: Bytes, i: nat, h: Header, rest: Bytes)
    requires i < |text| && IndexOf(text, NEWLINE) == i
    requires ChopCR(text[..i]) != [] && ReadHeader(ChopCR(text[..i])) == Some(h)
    requires text[i + 1..] == rest && Read(rest).Some?
    ensures Read(text) == Some(Message([h] + Read(rest).value.headers, Read(rest).value.body))
  {
    hide ReadHeader, ChopCR, IndexOf;
  }

  lemma ReadHead(h: Header, rest: Bytes)
    requires NewlineFree(h) && COLON !in h.name && Read(rest).Some?
    ensures Read(Line(h) + rest) == Some(Message([h] + Read(rest).value.headers, Read(rest).value.body))
  {
    hide Read, IndexOf, ChopCR, ReadHeader;
    var line := h.name + [COLON, SPACE] + h.value;
    assert line[|h.name|] == COLON;
    assert NEWLINE !in line;
    FirstLine(line, rest);
    ReadLine(h);
    ReadStep(Line(h) + rest, |line| + 1, h, rest);
  }

  lemma ReadEnd(body: Bytes)
    ensures Read(CRLF + body) == Some(Message([], body))
  {
    hide ReadHeader;
    var text := CRLF + body;
    IndexOfIs(text, NEWLINE, 1);
    assert ChopCR(text[..1]) == [];
    assert text[2..] == body;
  }

  lemma BlockStep(hs: seq<Header>, body: Bytes)
    requires hs != []
    ensures Block(hs) + body == Line(hs[0]) + (Block(hs[1..]) + body)
  {
  }

  lemma {:induction false} ReadBlock(hs: seq<Header>, body: Bytes)
    requires forall h :: h in hs ==> NewlineFree(h) && COLON !in h.name
    ensures Read(Block(hs) + body) == Some(Message(hs, body))
  {
    var text := Block(hs) + body;
    if hs == [] {
      assert text == CRLF + body;
      ReadEnd(body);
    } else {
      hide Read, Line;
      BlockStep(hs, body);
      ReadBlock(hs[1..], body);
      ReadHead(hs[0], Block(hs[1..]) + body);
      assert hs == [hs[0]] + hs[1..];
    }
  }

  /**
   * What is written reads back as the same headers in front of the same body exactly when no name contains a
   * colon, which the adapter does not check.
   */
  lemma RoundTrip(hs: seq<Header>, body: Bytes)
    requires forall h :: h in hs ==> NewlineFree(h)
    ensures Read(Block(hs) + body) == Some(Message(hs, body)) <==> forall h :: h in hs ==> COLON !in h.name
  {
    if forall h :: h in hs ==> COLON !in h.name {
      ReadBlock(hs, body);
    }
  }

  /** A name with a colon, here `a:b`, passes the adapter's check and comes back as a different header. */
  lemma ColonInNameIsMisread()
    ensures var h := Header([97, COLON, 98], [99]);
            && CheckHeader(PyTuple([PyStr(h.name), PyStr(h.value)])) == Good(h)
            && Read(Block([h])) != Some(Message([h], []))
  {
    var h := Header([97, COLON, 98], [99]);
    assert CheckHeader(PyTuple([PyStr(h.name), PyStr(h.value)])) == Good(h);
    hide Read, Block, CheckHeader;
    assert h.name[1] == COLON && h in [h];
    assert Block([h]) == Block([h]) + [];
    RoundTrip([h], []);
  }

  /** Every list that passes the check is written without a stray line break. */
  lemma {:induction false} ScannedAreNewlineFree(items: seq<PyObj>)
    ensures forall h :: h in ScanHeaders(items).pairs ==> NewlineFree(h)
  {
    if items != [] && CheckHeader(items[0]).Good? {
      ScannedAreNewlineFree(items[1..]);
    }
  }

  /** Which Content-Length values are taken: the numerals in 0..LONG_MAX, and the empty text, which means 0. */
  lemma ParseLengthAccepts(value: Bytes)
    ensures ParseLength(value).Some? <==>
              value == [] || exists i, j :: NumeralAt(value, i, j) && 0 <= NumeralValue(value, i, j) <= LONG_MAX
    ensures forall i, j :: NumeralAt(value, i, j) && 0 <= NumeralValue(value, i, j) <= LONG_MAX ==>
              ParseLength(value) == Some(NumeralValue(value, i, j))
    ensures value == [] ==> ParseLength(value) == Some(0)
  {
    StrtolConsumesAll(value);
    forall i, j | NumeralAt(value, i, j)
      ensures Strtol(value) == Parsed(Saturate(NumeralValue(value, i, j)), [],
                                      NumeralValue(value, i, j) > LONG_MAX || NumeralValue(value, i, j) < LONG_MIN)
    {
      StrtolNumeral(value, i, j);
    }
  }

  lemma ContentLengthRoundTrip(n: nat)
    ensures ParseLength(Decimal(n)) == if n < 0x8000_0000_0000_0000 then Some(n) else None
  {
    StrtolDecimal(n);
  }
}
