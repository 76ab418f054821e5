/** Header lists as an application passes them: which ones go through, what they declare, and their bytes. */
module HeaderLists {
  import opened ByteStrings
  import opened CNumbers
  import opened Python
  import opened HeaderBlock

  /** A Python string that C code takes for `text`: what follows it, if anything, is behind a NUL. */
  predicate ReadsAs(obj: PyObj, text: Bytes) {
    obj.PyStr? && NUL !in text && (obj.bytes == text || text + [NUL] <= obj.bytes)
  }

  /** The 2^13 spellings of Content-Length. */
  predicate NamesLength(name: Bytes) {
    && |name| == 14
    && forall i :: 0 <= i < 14 ==>
         name[i] == Ascii("content-length")[i] || name[i] == Ascii("CONTENT-LENGTH")[i]
  }

  ghost predicate Declares(h: Header, n: nat) {
    NamesLength(h.name) && DenotesLong(h.value, n)
  }

  /** A list element that passes the check, as the header `h`. */
  ghost predicate Passes(obj: PyObj, h: Header) {
    && obj.PyTuple? && |obj.elems| == 2
    && ReadsAs(obj.elems[0], h.name) && ReadsAs(obj.elems[1], h.value)
    && NewlineFree(h)
    && (NamesLength(h.name) ==> exists n: nat :: DenotesLong(h.value, n))
  }

  /** An element that is refused as a TypeError; every other one that does not pass is a ValueError. */
  predicate OfWrongType(obj: PyObj) {
    !obj.PyTuple? || (|obj.elems| == 2 && !(obj.elems[0].PyStr? && obj.elems[1].PyStr?))
  }

  ghost predicate Faulty(obj: PyObj) {
    forall h :: !Passes(obj, h)
  }

  ghost predicate PassAll(items: seq<PyObj>, hs: seq<Header>) {
    |items| == |hs| && forall i :: 0 <= i < |hs| ==> Passes(items[i], hs[i])
  }

  /** The headers of the elements in front of the first one that does not pass. */
  ghost predicate PassingFront(items: seq<PyObj>, hs: seq<Header>) {
    |hs| <= |items| && PassAll(items[..|hs|], hs) && (|hs| < |items| ==> Faulty(items[|hs|]))
  }

  /** What is wrong with a list whose first so many elements pass. */
  function Fault(items: seq<PyObj>, passed: nat): Option<PyError>
    requires passed <= |items|
  {
    if passed == |items| then None else Some(if OfWrongType(items[passed]) then TypeError else ValueError)
  }

  /** The length a header list declares: that of its last Content-Length header, if it has one. */
  ghost predicate LastDeclared(hs: seq<Header>, n: Option<nat>) {
    match n
    case None => forall i :: 0 <= i < |hs| ==> !NamesLength(hs[i].name)
    case Some(v) => exists i :: DeclaredAt(hs, i, v)
  }

  ghost predicate DeclaredAt(hs: seq<Header>, i: nat, v: nat) {
    && i < |hs| && Declares(hs[i], v)
    && forall j :: i < j < |hs| ==> !NamesLength(hs[j].name)
  }

  function LineBytes(h: Header): Bytes {
    h.name + Ascii(": ") + h.value + Ascii("\r\n")
  }

  function LinesBytes(hs: seq<Header>): (r: seq<Bytes>)
    ensures |r| == |hs|
  {
    seq(|hs|, i requires 0 <= i < |hs| => LineBytes(hs[i]))
  }

  /** The bytes of a header block: the lines, and an empty one. */
  function HeadBytes(hs: seq<Header>): Bytes {
    Concat(LinesBytes(hs)) + Ascii("\r\n")
  }

  // One element.

  /** Only these spellings count as Content-Length. */
  lemma LengthNames(name: Bytes)
    ensures IsContentLength(name) <==> NamesLength(name)
  {
    forall i, c: byte | 0 <= i < 14
      ensures Lower(c) == Lower(CONTENT_LENGTH[i]) <==>
                c == Ascii("content-length")[i] || c == Ascii("CONTENT-LENGTH")[i]
    {
      LetterOfName(i);
    }
    hide Lower, Ascii;
  }

  lemma LetterOfName(i: nat)
    requires i < 14
    ensures var c, low, up := CONTENT_LENGTH[i], Ascii("content-length")[i], Ascii("CONTENT-LENGTH")[i];
            Lower(c) == low && if low == 45 then up == 45 else 97 <= low <= 122 && up == low - 32
  {
    LowerCase();
    UpperCase();
    hide Ascii;
  }

  lemma LowerCase()
    ensures Ascii("content-length") == [99, 111, 110, 116, 101, 110, 116, 45, 108, 101, 110, 103, 116, 104]
  {
  }

  lemma UpperCase()
    ensures Ascii("CONTENT-LENGTH") == [67, 79, 78, 84, 69, 78, 84, 45, 76, 69, 78, 71, 84, 72]
  {
  }

  lemma LengthValue(value: Bytes, n: nat)
    ensures ParseLength(value) == Some(n) <==> DenotesLong(value, n)
  {
    StrtolDenotes(value, n);
    hide Strtol, DenotesLong;
  }

  lemma CheckPasses(obj: PyObj, h: Header)
    ensures CheckHeader(obj) == Good(h) <==> Passes(obj, h)
  {
    LengthNames(h.name);
    forall n: nat
      ensures ParseLength(h.value) == Some(n) <==> DenotesLong(h.value, n)
    {
      LengthValue(h.value, n);
    }
    if obj.PyTuple? && |obj.elems| == 2 && obj.elems[0].PyStr? && obj.elems[1].PyStr? {
      CStringIs(obj.elems[0].bytes, h.name);
      CStringIs(obj.elems[1].bytes, h.value);
    }
    hide IsContentLength, NamesLength, DenotesLong, ParseLength, CString;
  }

  lemma CheckFails(obj: PyObj)
    requires Faulty(obj)
    ensures CheckHeader(obj) == Bad(if OfWrongType(obj) then TypeError else ValueError)
  {
    if CheckHeader(obj).Good? {
      CheckPasses(obj, CheckHeader(obj).header);
    }
    hide IsContentLength, DenotesLong, ParseLength, CString, Passes;
  }

  lemma DeclaredIs(h: Header, n: nat)
    ensures DeclaredLength(h) == Some(n) <==> Declares(h, n)
    ensures DeclaredLength(h).Some? ==> NamesLength(h.name)
  {
    LengthNames(h.name);
    LengthValue(h.value, n);
    hide IsContentLength, NamesLength, DenotesLong, ParseLength;
  }

  // Whole lists.

  /** A list all of whose elements pass goes through as those headers, and leaves the length that they declare. */
  lemma {:induction false} ScanPasses(items: seq<PyObj>, hs: seq<Header>, n: Option<nat>)
    requires PassAll(items, hs) && LastDeclared(hs, n)
    ensures ScanHeaders(items) == Scan(hs, n, None)
  {
    assert |items| == |hs|;
    hide CheckHeader, DeclaredLength, PassAll, Passes;
    if items == [] {
      assert n.None?;
    } else {
      hide ScanHeaders, LastDeclared, Later;
      PassRest(items, hs);
      CheckPasses(items[0], hs[0]);
      ScanStep(items, hs[0]);
      var m := LastDeclaredRest(hs, n);
      ScanPasses(items[1..], hs[1..], m);
      assert hs == [hs[0]] + hs[1..];
    }
  }

  lemma ScanStep(items: seq<PyObj>, h: Header)
    requires items != [] && CheckHeader(items[0]) == Good(h)
    ensures var more := ScanHeaders(items[1..]);
            ScanHeaders(items) == Scan([h] + more.pairs, Later(DeclaredLength(h), more.limit), more.error)
  {
    hide CheckHeader, DeclaredLength;
  }

  lemma PassRest(items: seq<PyObj>, hs: seq<Header>)
    requires PassAll(items, hs) && items != []
    ensures hs != [] && Passes(items[0], hs[0]) && PassAll(items[1..], hs[1..])
  {
    hide Passes;
  }

  /** Behind the first header, the rest declares the same, or else nothing and the first one does. */
  lemma LastDeclaredRest(hs: seq<Header>, n: Option<nat>) returns (m: Option<nat>)
    requires hs != [] && LastDeclared(hs, n)
    ensures LastDeclared(hs[1..], m) && Later(DeclaredLength(hs[0]), m) == n
  {
    hide Declares, NamesLength, DeclaredLength;
    var h, rest := hs[0], hs[1..];
    assert forall j :: 0 <= j < |rest| ==> rest[j] == hs[j + 1];
    match n {
      case None =>
        m := None;
        DeclaredIs(h, 0);
      case Some(v) =>
        var i: nat :| DeclaredAt(hs, i, v);
        if i > 0 {
          m := n;
          assert DeclaredAt(rest, i - 1, v);
        } else {
          m := None;
          DeclaredIs(h, v);
        }
    }
  }

  /** The first element that does not pass decides the error; what came before it is collected. */
  lemma ScanIs(items: seq<PyObj>, hs: seq<Header>, n: Option<nat>)
    requires PassingFront(items, hs) && LastDeclared(hs, n)
    ensures ScanHeaders(items) == Scan(hs, n, Fault(items, |hs|))
  {
    hide CheckHeader, ScanHeaders, PassAll, LastDeclared, Faulty, OfWrongType, DeclaredLength;
    var k := |hs|;
    ScanPasses(items[..k], hs, n);
    if k < |items| {
      CheckFails(items[k]);
      ScanOne(items[k]);
      assert items == items[..k] + ([items[k]] + items[k + 1..]);
      ScanAppend([items[k]], items[k + 1..]);
      ScanAppend(items[..k], [items[k]] + items[k + 1..]);
      assert hs + [] == hs;
    } else {
      assert items[..k] == items;
    }
  }

  /** Every list passes, or has a first element that does not. */
  lemma {:induction false} PassOrFail(items: seq<PyObj>) returns (hs: seq<Header>)
    ensures PassingFront(items, hs)
  {
    if items == [] || Faulty(items[0]) {
      hs := [];
    } else {
      var h :| Passes(items[0], h);
      var rest := PassOrFail(items[1..]);
      hs := [h] + rest;
      hide Passes;
      assert items[..|hs|] == [items[0]] + items[1..][..|rest|];
    }
  }

  /** Every list declares a length or none. */
  lemma {:induction false} DeclaresOrNot(hs: seq<Header>) returns (n: Option<nat>)
    requires forall i :: 0 <= i < |hs| && NamesLength(hs[i].name) ==> exists v: nat :: DenotesLong(hs[i].value, v)
    ensures LastDeclared(hs, n)
  {
    hide NamesLength, DenotesLong;
    if hs == [] {
      return None;
    }
    var k := |hs| - 1;
    if NamesLength(hs[k].name) {
      var v: nat :| DenotesLong(hs[k].value, v);
      assert DeclaredAt(hs, k, v);
      return Some(v);
    }
    n := DeclaresOrNot(hs[..k]);
    if n.Some? {
      var i: nat :| DeclaredAt(hs[..k], i, n.value);
      assert DeclaredAt(hs, i, n.value);
    }
  }

  lemma PassedLengths(items: seq<PyObj>, hs: seq<Header>)
    requires PassAll(items, hs)
    ensures forall i :: 0 <= i < |hs| && NamesLength(hs[i].name) ==> exists v: nat :: DenotesLong(hs[i].value, v)
  {
    hide NamesLength, DenotesLong;
    assert forall i :: 0 <= i < |hs| ==> Passes(items[i], hs[i]);
  }

  lemma FrontPasses(items: seq<PyObj>, hs: seq<Header>)
    requires PassingFront(items, hs)
    ensures forall i :: 0 <= i < |hs| ==> !Faulty(items[i])
  {
    hide Passes;
    forall i | 0 <= i < |hs|
      ensures !Faulty(items[i])
    {
      assert Passes(items[..|hs|][i], hs[i]);
    }
  }

  /** A list is taken exactly if every element passes. */
  lemma TakenExactly(items: seq<PyObj>)
    ensures ScanHeaders(items).error.None? <==> forall i :: 0 <= i < |items| ==> !Faulty(items[i])
  {
    hide ScanHeaders, LastDeclared, PassAll, Faulty, NamesLength, DenotesLong, OfWrongType;
    var hs := PassOrFail(items);
    FrontPasses(items, hs);
    PassedLengths(items[..|hs|], hs);
    var n := DeclaresOrNot(hs);
    ScanIs(items, hs, n);
  }

  // The block.

  lemma LineIs(h: Header)
    ensures Line(h) == LineBytes(h)
  {
    assert Ascii(": ") == [COLON, SPACE] && Ascii("\r\n") == CRLF;
  }

  lemma {:induction false} LinesAre(hs: seq<Header>)
    ensures Lines(hs) == Concat(LinesBytes(hs))
  {
    hide Line, LineBytes;
    if hs != [] {
      LinesAre(hs[1..]);
      LineIs(hs[0]);
      var rest := LinesBytes(hs[1..]);
      assert LinesBytes(hs) == [LineBytes(hs[0])] + rest;
      hide LinesBytes;
      ConcatHead(LineBytes(hs[0]), rest);
    }
  }

  lemma BlockIs(hs: seq<Header>)
    ensures Block(hs) == HeadBytes(hs)
  {
    assert Ascii("\r\n") == CRLF;
    hide Lines, LinesBytes, Ascii;
    LinesAre(hs);
  }

  /** A list that is taken has no newline in any name or value. */
  lemma PassedAreNewlineFree(items: seq<PyObj>, hs: seq<Header>)
    requires PassAll(items, hs)
    ensures forall h :: h in hs ==> NewlineFree(h)
  {
    forall h | h in hs
      ensures NewlineFree(h)
    {
      var i :| 0 <= i < |hs| && hs[i] == h;
      assert Passes(items[i], hs[i]);
    }
  }
}
