/** Consequences of the whole-run reference. */
module ResponseLaws {
  import opened ByteStrings
  import opened Python
  import opened Streams
  import opened CNumbers
  import opened HeaderBlock
  import opened HeaderLists
  import opened Response
  import opened ResponseRuns

  /** Once the headers are gone no call whatever brings them, the status or the length limit back into play. */
  lemma {:induction false} SentAbsorbs(io: nat -> Io, s: State, evs: seq<Event>)
    requires HeadersGone(s)
    ensures var t := Run(io, s, evs);
            && t == s.(sent := t.sent, outputLength := t.outputLength)
            && t.outputLength == s.outputLength + |Offered(evs)|
            && s.sent <= t.sent && AllData(t.sent[|s.sent|..])
  {
    if evs == [] {
    } else {
      var before, ev := Front(evs), Last(evs);
      assert evs == before + [ev];
      SentAbsorbs(io, s, before);
      RunSnoc(io, s, before, ev);
      StepGone(io, Run(io, s, before), ev);
      hide Run, Step, Chunk, Allowed;
    }
  }

  /** A start_response call that passes the application's own exception along. */
  function Rethrown(line: Bytes, items: seq<PyObj>, kind: PyObj, value: PyObj, trace: PyObj): Event {
    Start([PyStr(line), PyList(items), PyTuple([kind, value, trace])])
  }

  /**
   * Error handling: after any run, such a call raises the exception it was given if and only if a header block has
   * been written or the first status had been refused, and then changes nothing. Otherwise it is accepted, and if its
   * list passes the check it is the one that the next output call sends, in place of any that was pending.
   */
  lemma ErrorHandling(io: nat -> Io, evs: seq<Event>, line: Bytes, items: seq<PyObj>,
                      kind: PyObj, value: PyObj, trace: PyObj, out: Event)
    requires NUL !in line && ParseStatus(line).error.None? && IsOutput(out)
    ensures var call := Rethrown(line, items, kind, value, trace);
            var s := Run(io, FRESH, evs);
            var e := Step(io, s, call);
            var scan := ScanHeaders(items);
            && (e.reply == Raised(Restored(kind, value, trace)) <==> Expected(evs).Framed? || FirstRejected(evs))
            && (e.reply != Done ==> e.state == s)
            && (e.reply == Done && scan.error.None? ==>
                  Shows(Run(io, FRESH, evs + [call] + [out]).sent,
                        Framed(scan.pairs, Cut(Later(StoredLimit(evs), scan.limit), Chunk(out)))))
  {
    var call := Rethrown(line, items, kind, value, trace);
    var s := Run(io, FRESH, evs);
    GoneIffHeadOrRejected(io, evs);
    RethrownStep(io, s, line, items, kind, value, trace);
    if !HeadersGone(s) && ScanHeaders(items).error.None? {
      NewListIsNext(evs, call, out);
      WholeRun(io, evs + [call] + [out]);
    }
    hide Run, Step, Expected, FirstRejected, HeadersGone, ScanHeaders, StoredLimit, Shows, Cut, ParseStatus, Chunk,
      FRESH, Rethrown;
  }

  lemma RethrownStep(io: nat -> Io, s: State, line: Bytes, items: seq<PyObj>, kind: PyObj, value: PyObj, trace: PyObj)
    requires NUL !in line && ParseStatus(line).error.None?
    ensures var call := Rethrown(line, items, kind, value, trace);
            && IsStart(call) && StatusOk(call) && call.args[1].items == items
            && Step(io, s, call).reply == (if HeadersGone(s) then Raised(Restored(kind, value, trace)) else Done)
            && (HeadersGone(s) ==> Step(io, s, call).state == s)
  {
    hide ParseStatus, IndexOf;
  }

  /** After a run that has sent nothing, a new list replaces the pending one and is sent by the next output call. */
  lemma NewListIsNext(evs: seq<Event>, call: Event, out: Event)
    requires !Expected(evs).Framed? && !FirstRejected(evs)
    requires IsStart(call) && StatusOk(call) && ScanHeaders(call.args[1].items).error.None? && IsOutput(out)
    ensures var scan := ScanHeaders(call.args[1].items);
            Expected(evs + [call] + [out])
            == Framed(scan.pairs, Cut(Later(StoredLimit(evs), scan.limit), Chunk(out)))
  {
    hide FirstStart, FirstRejected, FirstHead, LastAccepted, StoredLimit, Offered, ScanHeaders, StatusOk, Cut, Chunk,
      IsOutput, IsStart;
    var evs1 := evs + [call];
    StartIsNoOutput(call);
    if FirstStart(evs).None? {
      GrowBefore(evs, call);
      NothingStored(evs);
    } else {
      NotFramed(evs);
      SomethingAccepted(evs);
      GrowPending(evs, call);
    }
    GrowPending(evs1, out);
  }

  lemma NotFramed(evs: seq<Event>)
    requires !Expected(evs).Framed? && !FirstRejected(evs) && FirstStart(evs).Some?
    ensures FirstHead(evs).None?
  {
    hide FirstStart, FirstRejected, FirstHead, LastAccepted, StoredLimit, Offered, ScanHeaders, Cut;
  }

  lemma StartNeedsEvent(evs: seq<Event>)
    requires FirstStart(evs).Some?
    ensures evs != []
  {
  }

  lemma {:induction false} SomethingAccepted(evs: seq<Event>)
    requires FirstStart(evs).Some? && !FirstRejected(evs)
    ensures LastAccepted(evs).Some?
  {
    hide FirstRejected, LastAccepted, StatusOk, IsStart;
    assert evs != [] by { StartNeedsEvent(evs); }
    hide FirstStart;
    var before, ev := Front(evs), Last(evs);
    assert evs == before + [ev];
    FirstStartSnoc(before, ev);
    FirstRejectedSnoc(before, ev);
    LastAcceptedSnoc(before, ev);
    if FirstStart(before).Some? {
      SomethingAccepted(before);
    }
  }

  /** Whatever fails in between, at most one header block is written, and nothing is written before it. */
  lemma AtMostOneHead(io: nat -> Io, evs: seq<Event>)
    ensures var sent := Run(io, FRESH, evs).sent;
            forall i :: 0 < i < |sent| ==> sent[i].Data?
  {
    WholeRun(io, evs);
    hide Run, FirstStart, FirstRejected, FirstHead, Offered, ScanHeaders, Block, StoredLimit, LastAccepted, Cut,
      Flatten;
    var sent := Run(io, FRESH, evs).sent;
    assert forall i :: 0 < i < |sent| ==> sent[i] == sent[1..][i - 1];
  }

  lemma FlattenHead(sent: seq<Sent>)
    requires sent != []
    ensures Flatten(sent) == sent[0].bytes + Flatten(sent[1..])
  {
  }

  /**
   * A client that reads the stream line by line recovers the header list that was sent and the body that was cut
   * to length, exactly when no header name contains a colon.
   */
  lemma ClientReadsResponse(io: nat -> Io, evs: seq<Event>)
    requires Expected(evs).Framed?
    ensures var w := Expected(evs);
            Read(Flatten(Run(io, FRESH, evs).sent)) == Some(Message(w.head, w.body)) <==>
            forall h :: h in w.head ==> COLON !in h.name
  {
    var w, sent := Expected(evs), Run(io, FRESH, evs).sent;
    WholeRun(io, evs);
    FlattenHead(sent);
    ExpectedIsNewlineFree(evs);
    hide Run, Expected, Read, Block, Flatten;
    RoundTrip(w.head, w.body);
  }

  lemma ExpectedIsNewlineFree(evs: seq<Event>)
    requires Expected(evs).Framed?
    ensures forall h :: h in Expected(evs).head ==> NewlineFree(h)
  {
    hide FirstStart, FirstRejected, ScanHeaders, StoredLimit, Offered, Cut;
    ScannedAreNewlineFree(LastAccepted(evs[..FirstHead(evs).value]).value);
  }

  /** The header list that is sent: the pending one at the first output call that gets it through. */
  function SentList(evs: seq<Event>): seq<PyObj>
    requires FirstHead(evs).Some?
  {
    LastAccepted(evs[..FirstHead(evs).value]).value
  }

  /**
   * All bytes of a run, from the tuples of the list it sends: a line for each, an empty line, and the text offered
   * from then on, cut at the length that the list declares, or else at one left behind by a list refused before.
   */
  lemma BytesOnWire(io: nat -> Io, evs: seq<Event>, hs: seq<Header>, declared: Option<nat>)
    requires FirstHead(evs).Some? && Expected(evs).Framed?
    requires PassAll(SentList(evs), hs) && LastDeclared(hs, declared)
    ensures var k := FirstHead(evs).value;
            var text := Offered(evs[k..]);
            var limit := if declared.Some? then declared else StoredLimit(evs[..k]);
            Flatten(Run(io, FRESH, evs).sent)
            == HeadBytes(hs) + if limit.None? then text else text[..Min(limit.value, |text|)]
  {
    WholeRun(io, evs);
    FramedBody(evs);
    ScanPasses(SentList(evs), hs, declared);
    BlockIs(hs);
    FlattenHead(Run(io, FRESH, evs).sent);
    hide Run, FirstStart, FirstRejected, FirstHead, ScanHeaders, StoredLimit, LastAccepted, Offered, Flatten, Block,
      HeadBytes, PassAll, LastDeclared;
  }

  /** A client that reads line by line gets back the very names and values that the application gave. */
  lemma TuplesComeBack(io: nat -> Io, evs: seq<Event>, hs: seq<Header>)
    requires FirstHead(evs).Some? && Expected(evs).Framed? && PassAll(SentList(evs), hs)
    ensures Read(Flatten(Run(io, FRESH, evs).sent)) == Some(Message(hs, Expected(evs).body)) <==>
            forall h :: h in hs ==> COLON !in h.name
  {
    PassedLengths(SentList(evs), hs);
    var n := DeclaresOrNot(hs);
    ScanPasses(SentList(evs), hs, n);
    ClientReadsResponse(io, evs);
    hide Run, FirstStart, FirstRejected, FirstHead, ScanHeaders, StoredLimit, LastAccepted, Offered, Flatten, Read,
      PassAll, LastDeclared, Cut;
  }

  /**
   * The body on the wire against the length that its own header list declares: it is the offered text cut at that
   * length, or all of it if none is declared, exactly when one is declared, or no length was left behind by an
   * earlier list that was refused part-way, or that length leaves room for all of the text.
   */
  lemma LimitIsDeclaredExactly(io: nat -> Io, evs: seq<Event>, hs: seq<Header>, declared: Option<nat>)
    requires FirstHead(evs).Some? && Expected(evs).Framed?
    requires PassAll(SentList(evs), hs) && LastDeclared(hs, declared)
    ensures var k := FirstHead(evs).value;
            var stale := StoredLimit(evs[..k]);
            var text := Offered(evs[k..]);
            Flatten(Run(io, FRESH, evs).sent)
            == HeadBytes(hs) + (if declared.None? then text else text[..Min(declared.value, |text|)]) <==>
            declared.Some? || stale.None? || stale.value >= |text|
  {
    BytesOnWire(io, evs, hs, declared);
    var k := FirstHead(evs).value;
    var stale, text := StoredLimit(evs[..k]), Offered(evs[k..]);
    hide Run, Expected, FirstHead, StoredLimit, Offered, Flatten, HeadBytes, PassAll, LastDeclared, SentList;
    if declared.None? && stale.Some? {
      var cut := text[..Min(stale.value, |text|)];
      assert |HeadBytes(hs) + cut| == |HeadBytes(hs)| + Min(stale.value, |text|);
    }
  }

  /** A Content-Length of n, in any spelling of the name, cuts the text at n bytes. */
  lemma DeclaredLengthCuts(io: nat -> Io, evs: seq<Event>, hs: seq<Header>, i: nat, n: nat)
    requires FirstHead(evs).Some? && Expected(evs).Framed? && PassAll(SentList(evs), hs)
    requires i < |hs| && NamesLength(hs[i].name) && hs[i].value == Decimal(n) && n <= LONG_MAX
    requires forall j :: i < j < |hs| ==> !NamesLength(hs[j].name)
    ensures var text := Offered(evs[FirstHead(evs).value..]);
            Flatten(Run(io, FRESH, evs).sent) == HeadBytes(hs) + text[..Min(n, |text|)]
  {
    DecimalDenotes(n);
    assert DeclaredAt(hs, i, n);
    BytesOnWire(io, evs, hs, Some(n));
    hide Run, Expected, FirstHead, Offered, Flatten, HeadBytes, PassAll, LastDeclared, SentList;
  }

  lemma FramedBody(evs: seq<Event>)
    requires Expected(evs).Framed?
    ensures FirstHead(evs).Some?
    ensures var k := FirstHead(evs).value;
            Expected(evs).body == Cut(Later(StoredLimit(evs[..k]), ScanHeaders(LastAccepted(evs[..k]).value).limit),
                                      Offered(evs[k..]))
  {
    hide FirstStart, FirstRejected, FirstHead, ScanHeaders, StoredLimit, LastAccepted, IsOutput, Offered, Cut;
    FirstHeadIsOutput(evs);
    LimitAt(evs, FirstHead(evs).value);
  }

  lemma LimitAt(evs: seq<Event>, k: nat)
    requires k < |evs| && IsOutput(evs[k]) && LastAccepted(evs[..k]).Some?
    ensures StoredLimit(evs[..k + 1]) == Later(StoredLimit(evs[..k]), ScanHeaders(LastAccepted(evs[..k]).value).limit)
  {
    hide ScanHeaders, StoredLimit, LastAccepted, IsOutput;
    assert evs[..k + 1] == evs[..k] + [evs[k]];
    StoredLimitSnoc(evs[..k], evs[k]);
  }

  lemma {:induction false} FirstHeadIsOutput(evs: seq<Event>)
    requires FirstHead(evs).Some?
    ensures IsOutput(evs[FirstHead(evs).value])
  {
    hide ScanHeaders, LastAccepted;
    if FirstHead(Front(evs)).Some? {
      FirstHeadIsOutput(Front(evs));
    }
  }
}
