/** The common application, from the values it passes to the bytes its client gets. */
module EndToEnd {
  import opened ByteStrings
  import opened CNumbers
  import opened Util
  import opened Python
  import opened Streams
  import opened HeaderBlock
  import opened HeaderLists
  import opened Response
  import opened Replies
  import opened Application
  import opened Chunking
  import opened Delivery

  /** It calls start_response once and returns an iterable over strings. */
  function Simple(line: Bytes, items: seq<PyObj>, chunks: seq<Bytes>, hasClose: bool): App {
    Yielding([CallStart([PyStr(line), PyList(items)])], Iterable(true, [], [], false, hasClose, []), chunks)
  }

  /** The state after its start_response call. */
  lemma Started(io: nat -> Io, line: Bytes, items: seq<PyObj>, word: Bytes, gap: nat, message: Bytes, code: int)
    requires NUL !in line && SplitsAs(line, SPACE, word, gap, message) && DenotesLong(word, code) && message != []
    ensures Calls(io, FRESH, [CallStart([PyStr(line), PyList(items)])])
         == FRESH.(statusLine := Some(line), status := ToInt(code), headers := Some(items))
  {
    var args := [PyStr(line), PyList(items)];
    StartTaken(io, [], args, line, word, gap, message);
    assert Events([CallStart(args)]) == [] + [Start(args)];
    RunSnoc(io, FRESH, [], Start(args));
    hide Step, SplitsAs, DenotesLong, ToInt;
  }

  /** The body that a declared length leaves of a text. */
  function CutAt(declared: Option<nat>, text: Bytes): Bytes {
    if declared.None? then text else text[..Min(declared.value, |text|)]
  }

  /** Sending the pending list. */
  lemma HeadSent(s: State, items: seq<PyObj>, hs: seq<Header>, declared: Option<nat>)
    requires s.statusLine.Some? && s.headers == Some(items) && s.sent == [] && s.outputLength == 0 && !s.lengthSet
    requires PassAll(items, hs) && LastDeclared(hs, declared)
    ensures var h := SendHead(s).state;
            && Accepts(s) && HeadersGone(h) && h.sent == [Text(Block(hs))] && Flatten(h.sent) == HeadBytes(hs)
            && forall text: Bytes :: text[..Allowed(h, |text|)] == CutAt(declared, text)
  {
    hide ScanHeaders, Block, HeadBytes, PassAll, LastDeclared;
    ScanPasses(items, hs, declared);
    BlockIs(hs);
    FlattenSnoc([], Text(Block(hs)));
    assert [] + [Text(Block(hs))] == [Text(Block(hs))];
  }

  /** With no text yielded, the final empty output call sends the block on its own. */
  lemma EmptyBodySent(io: nat -> Io, s: State, it: Iterable)
    requires Accepts(s) && it.last == [] && !it.raises
    ensures Finish(io, Ending(io, Progress(s, false), it)) == Progress(SendHead(s).state, false)
  {
    assert Calls(io, s, []) == s;
    OutputParts(io, s, []);
    hide SendHead, Calls, Output;
  }

  /**
   * The client gets a line for every tuple of the header list, an empty line, and the concatenated strings cut at the
   * length that the list declares; on a stream that fails, a front part of that which has the whole block. However
   * the strings are divided and the stream behaves, the result is 200.
   */
  lemma WholeResponse(io: nat -> Io, line: Bytes, items: seq<PyObj>, chunks: seq<Bytes>, hasClose: bool,
                      word: Bytes, gap: nat, message: Bytes, code: int, hs: seq<Header>, declared: Option<nat>)
    requires NUL !in line && SplitsAs(line, SPACE, word, gap, message) && DenotesLong(word, code) && message != []
    requires PassAll(items, hs) && LastDeclared(hs, declared)
    ensures var o := RunApp(io, FRESH, Simple(line, items, chunks, hasClose));
            var wire := Flatten(o.state.sent);
            var body := CutAt(declared, Concat(chunks));
            && HeadBytes(hs) <= wire <= HeadBytes(hs) + body
            && (AllWritten(io) ==> wire == HeadBytes(hs) + body)
            && o.result == 200
  {
    hide RunApp, Calls, Flatten, HeadBytes, Concat, SplitsAs, DenotesLong, PassAll, LastDeclared, SendHead, Accepts,
      CutAt, Allowed, HeadersGone, AllWritten;
    var calls, it := [CallStart([PyStr(line), PyList(items)])], Iterable(true, [], [], false, hasClose, []);
    var s, body := Calls(io, FRESH, calls), Concat(chunks);
    Started(io, line, items, word, gap, message, code);
    HeadSent(s, items, hs, declared);
    SimpleResult(io, s, calls, it, chunks);
    var n := SimpleBytes(io, s, calls, it, chunks);
    PrefixOfCut(HeadBytes(hs), body, n, Allowed(SendHead(s).state, |body|));
  }

  lemma PrefixOfCut(head: Bytes, body: Bytes, n: nat, room: nat)
    requires n <= room <= |body|
    ensures head <= head + body[..n] <= head + body[..room]
  {
    assert body[..n] == body[..room][..n];
  }

  /** Whatever fails, the block is followed by a front part of what there is room for; by all of it if nothing fails. */
  lemma SimpleBytes(io: nat -> Io, s: State, calls: seq<Call>, it: Iterable, chunks: seq<Bytes>) returns (n: nat)
    requires s == Calls(io, FRESH, calls) && Accepts(s) && it.last == [] && !it.raises && it.closing == []
    ensures var body, h := Concat(chunks), SendHead(s).state;
            && n <= Allowed(h, |body|)
            && (AllWritten(io) ==> n == Allowed(h, |body|))
            && Flatten(RunApp(io, FRESH, Yielding(calls, it, chunks)).state.sent) == Flatten(h.sent) + body[..n]
  {
    var body, h := Concat(chunks), SendHead(s).state;
    RunDelivers(io, FRESH, calls, it, chunks);
    hide RunApp, Calls, Flatten, Concat, SendHead, Pull, Strings, Handed, Finish, Ending, Accepts, Yielding, Allowed;
    if body == [] {
      EmptyBodySent(io, s, it);
      n := 0;
    } else {
      PullDelivers(io, s, chunks, it);
      n := Handed(io, h, chunks);
      if AllWritten(io) {
        AllHanded(io, h, chunks);
      }
    }
  }

  lemma SimpleResult(io: nat -> Io, s: State, calls: seq<Call>, it: Iterable, chunks: seq<Bytes>)
    requires s == Calls(io, FRESH, calls) && Accepts(s) && it.last == [] && !it.raises && it.closing == []
    ensures RunApp(io, FRESH, Yielding(calls, it, chunks)).result == 200
  {
    var other := Yielding(calls, it, chunks).result;
    PullIgnoresTurns(io, s, Strings(chunks), it, other);
    PullByBody(io, s, chunks, it);
    EmptyBodySent(io, s, it);
    var p := Pull(io, s, Strings(chunks), it);
    hide Pull, Strings, Concat, Accepts, Calls, Ending, Finish, HeadersGone;
    if HeadersGone(p.state) {
      FinishGone(io, p);
    }
  }

  /** A client that reads line by line gets the application's names, values and body, unless a name has a colon. */
  lemma ResponseReadsBack(io: nat -> Io, line: Bytes, items: seq<PyObj>, chunks: seq<Bytes>, hasClose: bool,
                          word: Bytes, gap: nat, message: Bytes, code: int, hs: seq<Header>, declared: Option<nat>)
    requires NUL !in line && SplitsAs(line, SPACE, word, gap, message) && DenotesLong(word, code) && message != []
    requires PassAll(items, hs) && LastDeclared(hs, declared) && AllWritten(io)
    ensures var wire := Flatten(RunApp(io, FRESH, Simple(line, items, chunks, hasClose)).state.sent);
            Read(wire) == Some(Message(hs, CutAt(declared, Concat(chunks)))) <==>
            forall h :: h in hs ==> COLON !in h.name
  {
    WholeResponse(io, line, items, chunks, hasClose, word, gap, message, code, hs, declared);
    PassedAreNewlineFree(items, hs);
    BlockIs(hs);
    hide RunApp, Flatten, HeadBytes, Concat, SplitsAs, DenotesLong, PassAll, LastDeclared, CutAt, AllWritten, Read,
      Block;
    RoundTrip(hs, CutAt(declared, Concat(chunks)));
  }

  lemma SimpleRefused(io: nat -> Io, s: State, calls: seq<Call>, it: Iterable, chunks: seq<Bytes>)
    requires s == Calls(io, FRESH, calls) && !Accepts(s) && it.last == [] && !it.raises && it.closing == []
    requires s.statusLine.Some? && s.headers.Some? && s.sent == []
    ensures var o := RunApp(io, FRESH, Yielding(calls, it, chunks)); o.result == 500 && o.state.sent == []
  {
    var other := Yielding(calls, it, chunks).result;
    PullIgnoresTurns(io, s, Strings(chunks), it, other);
    PullByBody(io, s, chunks, it);
    OutputParts(io, s, []);
    assert Calls(io, s, []) == s && Calls(io, Refused(s), []) == Refused(s);
    StillPending(s);
    hide Pull, Strings, Concat, Accepts, Calls, Refused, Output;
  }

  lemma StillPending(s: State)
    requires !Accepts(s) && s.statusLine.Some? && s.headers.Some?
    ensures !HeadersGone(Refused(s)) && Refused(s).sent == s.sent
  {
    hide ScanHeaders, Block;
  }

  /** The client gets nothing, and the run is an error, exactly if some element of the list does not pass. */
  lemma FaultyListSendsNothing(io: nat -> Io, line: Bytes, items: seq<PyObj>, chunks: seq<Bytes>, hasClose: bool,
                               word: Bytes, gap: nat, message: Bytes, code: int)
    requires NUL !in line && SplitsAs(line, SPACE, word, gap, message) && DenotesLong(word, code) && message != []
    ensures var o := RunApp(io, FRESH, Simple(line, items, chunks, hasClose));
            var faulty := exists i :: 0 <= i < |items| && Faulty(items[i]);
            && (o.state.sent == [] <==> faulty)
            && o.result == if faulty then 500 else 200
  {
    hide RunApp, SplitsAs, DenotesLong, Faulty, Calls, ScanHeaders;
    var calls, it := [CallStart([PyStr(line), PyList(items)])], Iterable(true, [], [], false, hasClose, []);
    var s := Calls(io, FRESH, calls);
    Started(io, line, items, word, gap, message, code);
    TakenExactly(items);
    if Accepts(s) {
      SimpleResult(io, s, calls, it, chunks);
      var n := SimpleBytes(io, s, calls, it, chunks);
      HeadNotEmpty(s);
    } else {
      SimpleRefused(io, s, calls, it, chunks);
    }
  }

  lemma HeadNotEmpty(s: State)
    requires Accepts(s) && s.headers.Some? && s.sent == []
    ensures Flatten(SendHead(s).state.sent) != []
  {
    FlattenSnoc([], Text(Block(ScanHeaders(s.headers.value).pairs)));
    hide ScanHeaders, Lines;
  }
}
