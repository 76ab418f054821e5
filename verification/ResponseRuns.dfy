/**
 * What reaches the output stream over a whole run, whatever the order of start_response calls, writes and yielded
 * strings: read off the list of events, without running the machine.
 */
module ResponseRuns {
  import opened ByteStrings
  import opened Python
  import opened Streams
  import opened HeaderBlock
  import opened Response

  function Last(evs: seq<Event>): Event
    requires evs != []
  {
    evs[|evs| - 1]
  }

  function Front(evs: seq<Event>): seq<Event>
    requires evs != []
  {
    evs[..|evs| - 1]
  }

  predicate IsStart(ev: Event) {
    ev.Start? && WellTyped(ev.args)
  }

  predicate StatusOk(ev: Event)
    requires IsStart(ev)
  {
    ParseStatus(StatusLineOf(ev.args)).error.None?
  }

  predicate IsOutput(ev: Event) {
    ev.Emit? || (ev.WriteCall? && |ev.args| == 1 && ev.args[0].PyStr?)
  }

  /** The bytes an output event offers. */
  function Chunk(ev: Event): Bytes {
    if ev.Emit? then ev.data else if IsOutput(ev) then ev.args[0].bytes else []
  }

  function Offered(evs: seq<Event>): Bytes {
    if evs == [] then [] else Offered(Front(evs)) + Chunk(Last(evs))
  }

  /** Index of the first start_response call whose arguments have the right types. */
  function FirstStart(evs: seq<Event>): (r: Option<nat>)
    ensures r.Some? ==> r.value < |evs| && IsStart(evs[r.value]) && forall i :: 0 <= i < r.value ==> !IsStart(evs[i])
    ensures r.None? ==> forall i :: 0 <= i < |evs| ==> !IsStart(evs[i])
  {
    if evs == [] then None
    else if FirstStart(Front(evs)).Some? then FirstStart(Front(evs))
    else if IsStart(Last(evs)) then Some(|evs| - 1)
    else None
  }

  /** That call is refused because of its status string. */
  predicate FirstRejected(evs: seq<Event>) {
    FirstStart(evs).Some? && !StatusOk(evs[FirstStart(evs).value])
  }

  /** The header list of the last start_response call with right types and a valid status. */
  function LastAccepted(evs: seq<Event>): Option<seq<PyObj>> {
    if evs == [] then None
    else if IsStart(Last(evs)) && StatusOk(Last(evs)) then Some(Last(evs).args[1].items)
    else LastAccepted(Front(evs))
  }

  /** Index of the first output event that finds a header list which passes the check. */
  function FirstHead(evs: seq<Event>): (r: Option<nat>)
    ensures r.Some? ==> r.value < |evs| && LastAccepted(evs[..r.value]).Some?
  {
    if evs == [] then None
    else if FirstHead(Front(evs)).Some? then
      var k := FirstHead(Front(evs)).value;
      assert Front(evs)[..k] == evs[..k];
      Some(k)
    else if IsOutput(Last(evs)) && LastAccepted(Front(evs)).Some?
            && ScanHeaders(LastAccepted(Front(evs)).value).error.None? then Some(|evs| - 1)
    else None
  }

  /** The last length that an output event stored while checking a header list, whether or not the list passed. */
  function StoredLimit(evs: seq<Event>): Option<nat> {
    if evs == [] then None
    else if IsOutput(Last(evs)) && LastAccepted(Front(evs)).Some? then
      Later(StoredLimit(Front(evs)), ScanHeaders(LastAccepted(Front(evs)).value).limit)
    else StoredLimit(Front(evs))
  }

  function Cut(limit: Option<nat>, t: Bytes): Bytes {
    if limit.None? then t else t[..Min(limit.value, |t|)]
  }

  datatype Wire =
    | Nothing
    | Framed(head: seq<Header>, body: Bytes)
    | Headless(body: Bytes)

  /** The reference: the one header list that is sent, the body behind it, and the length that cuts it. */
  function Expected(evs: seq<Event>): Wire {
    if FirstStart(evs).None? then Nothing
    else if FirstRejected(evs) then Headless(Offered(evs[FirstStart(evs).value..]))
    else
      match FirstHead(evs)
      case None => Nothing
      case Some(k) =>
        var scan := ScanHeaders(LastAccepted(evs[..k]).value);
        Framed(scan.pairs, Cut(StoredLimit(evs[..k + 1]), Offered(evs[k..])))
  }

  /** Calls that carry body bytes, never an empty piece. */
  predicate AllData(sent: seq<Sent>) {
    forall i :: 0 <= i < |sent| ==> sent[i].Data? && sent[i].bytes != []
  }

  /** The calls on the stream that make up a wire image: at most one PutStr, and that one first. */
  predicate Shows(sent: seq<Sent>, w: Wire) {
    match w
    case Nothing => sent == []
    case Headless(body) => AllData(sent) && Flatten(sent) == body
    case Framed(head, body) =>
      && sent != [] && sent[0] == Text(Block(head))
      && AllData(sent[1..]) && Flatten(sent[1..]) == body
  }

  function LimitOf(s: State): Option<nat> {
    if s.lengthSet then Some(s.contentLength) else None
  }

  // The machine's state after `evs`, in the reference's terms.

  predicate HeadlessAt(evs: seq<Event>, k: nat, s: State)
    requires k <= |evs|
  {
    && s.statusLine.Some? && s.headers.None? && !s.lengthSet
    && AllData(s.sent) && Flatten(s.sent) == Offered(evs[k..])
  }

  predicate PendingAt(evs: seq<Event>, s: State) {
    && s.statusLine.Some? && s.headers.Some? && s.headers == LastAccepted(evs)
    && s.sent == [] && s.outputLength == 0 && LimitOf(s) == StoredLimit(evs)
  }

  predicate FramedAt(evs: seq<Event>, k: nat, s: State)
    requires k < |evs| && LastAccepted(evs[..k]).Some?
  {
    && s.statusLine.Some? && s.headers.None?
    && s.sent != [] && s.sent[0] == Text(Block(ScanHeaders(LastAccepted(evs[..k]).value).pairs))
    && LimitOf(s) == StoredLimit(evs[..k + 1])
    && BodyAt(s, Offered(evs[k..]))
  }

  /** The calls behind the first carry the text offered so far, cut at the limit. */
  predicate BodyAt(s: State, t: Bytes) {
    && s.sent != [] && AllData(s.sent[1..])
    && Flatten(s.sent[1..]) == Cut(LimitOf(s), t) && s.outputLength == |t|
  }

  predicate Tracks(evs: seq<Event>, s: State) {
    if FirstStart(evs).None? then s == FRESH
    else if FirstRejected(evs) then HeadlessAt(evs, FirstStart(evs).value, s)
    else if FirstHead(evs).None? then PendingAt(evs, s)
    else FramedAt(evs, FirstHead(evs).value, s)
  }

  // One event more.

  lemma SnocParts(evs: seq<Event>, ev: Event)
    ensures Front(evs + [ev]) == evs && Last(evs + [ev]) == ev
    ensures forall k :: 0 <= k <= |evs| ==> (evs + [ev])[..k] == evs[..k] && (evs + [ev])[k..] == evs[k..] + [ev]
  {
  }

  lemma FirstStartSnoc(evs: seq<Event>, ev: Event)
    ensures FirstStart(evs + [ev]) ==
            if FirstStart(evs).Some? then FirstStart(evs) else if IsStart(ev) then Some(|evs|) else None
  {
    hide WellTyped;
    SnocParts(evs, ev);
  }

  lemma FirstRejectedSnoc(evs: seq<Event>, ev: Event)
    ensures FirstRejected(evs + [ev]) <==>
            if FirstStart(evs).Some? then FirstRejected(evs) else IsStart(ev) && !StatusOk(ev)
  {
    FirstStartSnoc(evs, ev);
    hide FirstStart, WellTyped, StatusOk;
  }

  lemma LastAcceptedSnoc(evs: seq<Event>, ev: Event)
    ensures LastAccepted(evs + [ev]) ==
            if IsStart(ev) && StatusOk(ev) then Some(ev.args[1].items) else LastAccepted(evs)
  {
    hide StatusOk;
    SnocParts(evs, ev);
  }

  lemma FirstHeadSnoc(evs: seq<Event>, ev: Event)
    ensures FirstHead(evs + [ev]) ==
            if FirstHead(evs).Some? then FirstHead(evs)
            else if IsOutput(ev) && LastAccepted(evs).Some? && ScanHeaders(LastAccepted(evs).value).error.None?
            then Some(|evs|) else None
  {
    hide ScanHeaders, LastAccepted, IsOutput;
    SnocParts(evs, ev);
  }

  lemma StoredLimitSnoc(evs: seq<Event>, ev: Event)
    ensures StoredLimit(evs + [ev]) ==
            if IsOutput(ev) && LastAccepted(evs).Some?
            then Later(StoredLimit(evs), ScanHeaders(LastAccepted(evs).value).limit) else StoredLimit(evs)
  {
    hide ScanHeaders, LastAccepted, IsOutput;
    SnocParts(evs, ev);
  }

  lemma OfferedSnoc(evs: seq<Event>, ev: Event)
    ensures Offered(evs + [ev]) == Offered(evs) + Chunk(ev)
  {
    SnocParts(evs, ev);
  }

  /** Extending a cut text: the machine's count of what is still allowed is the right one. */
  lemma CutExtend(limit: Option<nat>, t: Bytes, d: Bytes, s: State)
    requires LimitOf(s) == limit && s.outputLength == |t|
    ensures Cut(limit, t + d) == Cut(limit, t) + d[..Allowed(s, |d|)]
  {
  }

  lemma FlattenTail(sent: seq<Sent>, x: Sent)
    requires sent != []
    ensures Flatten((sent + [x])[1..]) == Flatten(sent[1..]) + x.bytes
  {
    assert (sent + [x])[1..] == sent[1..] + [x];
    FlattenSnoc(sent[1..], x);
  }

  /** One more chunk: the body stays the offered text cut at the limit, and the fields behind it stay put. */
  lemma BodyGrows(io: nat -> Io, s: State, t: Bytes, d: Bytes)
    requires BodyAt(s, t)
    ensures var next := SendBody(io, s, d).state;
            && BodyAt(next, t + d) && next.sent != [] && next.sent[0] == s.sent[0]
            && next == s.(sent := next.sent, outputLength := next.outputLength)
  {
    hide Cut, Flatten, Allowed;
    CutExtend(LimitOf(s), t, d, s);
    var x := Data(d[..Allowed(s, |d|)]);
    FlattenTail(s.sent, x);
    assert Cut(LimitOf(s), t) + [] == Cut(LimitOf(s), t);
    assert (s.sent + [x])[1..] == s.sent[1..] + [x];
  }

  lemma GrowBefore(evs: seq<Event>, ev: Event)
    requires FirstStart(evs).None?
    ensures FirstStart(evs + [ev]) == (if IsStart(ev) then Some(|evs|) else None)
    ensures FirstRejected(evs + [ev]) <==> IsStart(ev) && !StatusOk(ev)
    ensures IsStart(ev) && StatusOk(ev) ==> LastAccepted(evs + [ev]) == Some(ev.args[1].items)
    ensures IsStart(ev) ==> FirstHead(evs + [ev]).None? && StoredLimit(evs + [ev]).None?
    ensures IsStart(ev) ==> Offered((evs + [ev])[|evs|..]) == []
  {
    hide ScanHeaders, FirstStart, FirstRejected, LastAccepted, FirstHead, StoredLimit, StatusOk, Offered, Chunk;
    OfferedLast(evs, ev);
    if IsStart(ev) {
      StartOffersNothing(ev);
    }
    NoneAccepted(evs);
    NothingStored(evs);
    FirstStartSnoc(evs, ev);
    FirstRejectedSnoc(evs, ev);
    LastAcceptedSnoc(evs, ev);
    FirstHeadSnoc(evs, ev);
    StoredLimitSnoc(evs, ev);
  }

  lemma OfferedLast(evs: seq<Event>, ev: Event)
    ensures Offered((evs + [ev])[|evs|..]) == Chunk(ev)
  {
    hide Chunk;
    assert (evs + [ev])[|evs|..] == [] + [ev];
    OfferedSnoc([], ev);
  }

  lemma StartOffersNothing(ev: Event)
    requires IsStart(ev)
    ensures Chunk(ev) == []
  {
  }

  lemma TrackBefore(io: nat -> Io, evs: seq<Event>, ev: Event, s: State)
    requires Tracks(evs, s) && FirstStart(evs).None?
    ensures Tracks(evs + [ev], Step(io, s, ev).state)
  {
    var next, t := evs + [ev], Step(io, s, ev).state;
    assert s == FRESH;
    hide Tracks, Step, FirstStart, FirstRejected, LastAccepted, FirstHead, StoredLimit, Offered, HeadlessAt, PendingAt,
      FramedAt, IsStart, StatusOk;
    GrowBefore(evs, ev);
    StepFresh(io, ev);
    if !IsStart(ev) {
      FreshTracks(next, t);
    } else if StatusOk(ev) {
      StartedPending(next, t, ev.args[1].items);
      PendingTracks(next, t);
    } else {
      StartedHeadless(next, |evs|, t);
      HeadlessTracks(next, |evs|, t);
    }
  }

  lemma StepFresh(io: nat -> Io, ev: Event)
    ensures !IsStart(ev) ==> Step(io, FRESH, ev).state == FRESH
    ensures IsStart(ev) ==>
              var t := Step(io, FRESH, ev).state;
              && t.statusLine.Some? && t.sent == [] && t.outputLength == 0 && !t.lengthSet
              && t.headers == (if StatusOk(ev) then Some(ev.args[1].items) else None)
  {
    hide ParseStatus;
  }

  lemma StartedHeadless(evs: seq<Event>, k: nat, t: State)
    requires k <= |evs| && Offered(evs[k..]) == []
    requires t.statusLine.Some? && t.headers.None? && !t.lengthSet && t.sent == []
    ensures HeadlessAt(evs, k, t)
  {
    hide Offered;
  }

  lemma StartedPending(evs: seq<Event>, t: State, items: seq<PyObj>)
    requires LastAccepted(evs) == Some(items) && StoredLimit(evs).None?
    requires t.statusLine.Some? && t.headers == Some(items) && !t.lengthSet && t.sent == [] && t.outputLength == 0
    ensures PendingAt(evs, t)
  {
    hide LastAccepted, StoredLimit;
  }

  lemma FreshTracks(evs: seq<Event>, s: State)
    requires FirstStart(evs).None? && s == FRESH
    ensures Tracks(evs, s)
  {
    hide FirstStart, FirstRejected, FirstHead, HeadlessAt, PendingAt, FramedAt;
  }

  lemma HeadlessTracks(evs: seq<Event>, k: nat, s: State)
    requires FirstStart(evs) == Some(k) && FirstRejected(evs) && HeadlessAt(evs, k, s)
    ensures Tracks(evs, s)
  {
    hide FirstStart, FirstRejected, FirstHead, HeadlessAt, PendingAt, FramedAt;
  }

  lemma StartedFrame(evs: seq<Event>, k: nat, t: State, items: seq<PyObj>)
    requires k < |evs| && LastAccepted(evs[..k]) == Some(items)
    requires t.statusLine.Some? && t.headers.None?
    requires t.sent != [] && t.sent[0] == Text(Block(ScanHeaders(items).pairs))
    requires LimitOf(t) == StoredLimit(evs[..k + 1]) && BodyAt(t, Offered(evs[k..]))
    ensures FramedAt(evs, k, t)
  {
    hide LastAccepted, StoredLimit, Offered, BodyAt, ScanHeaders, Block;
  }

  lemma FramedTracks(evs: seq<Event>, k: nat, s: State)
    requires FirstStart(evs).Some? && !FirstRejected(evs) && FirstHead(evs) == Some(k) && FramedAt(evs, k, s)
    ensures Tracks(evs, s)
  {
    hide FirstStart, FirstRejected, FirstHead, HeadlessAt, PendingAt, FramedAt;
  }

  lemma TracksPending(evs: seq<Event>, s: State)
    requires Tracks(evs, s) && FirstStart(evs).Some? && !FirstRejected(evs) && FirstHead(evs).None?
    ensures PendingAt(evs, s)
  {
    hide FirstStart, FirstRejected, FirstHead, HeadlessAt, PendingAt, FramedAt;
  }

  lemma PendingTracks(evs: seq<Event>, s: State)
    requires FirstStart(evs).Some? && !FirstRejected(evs) && FirstHead(evs).None? && PendingAt(evs, s)
    ensures Tracks(evs, s)
  {
    hide FirstStart, FirstRejected, FirstHead, HeadlessAt, PendingAt, FramedAt;
  }

  lemma {:induction false} NoneAccepted(evs: seq<Event>)
    requires FirstStart(evs).None?
    ensures LastAccepted(evs).None? && FirstHead(evs).None?
  {
    if evs != [] {
      NoneAccepted(Front(evs));
    }
  }

  lemma {:induction false} NothingStored(evs: seq<Event>)
    requires FirstStart(evs).None?
    ensures StoredLimit(evs).None?
  {
    if evs != [] {
      NothingStored(Front(evs));
      NoneAccepted(Front(evs));
    }
  }

  /** Once the headers are gone only the body grows, whatever is called. */
  lemma StepGone(io: nat -> Io, s: State, ev: Event)
    requires HeadersGone(s)
    ensures Step(io, s, ev).state == SendBody(io, s, Chunk(ev)).state
  {
    hide ParseStatus;
  }

  lemma GrowHeadless(evs: seq<Event>, ev: Event)
    requires FirstRejected(evs)
    ensures FirstStart(evs + [ev]) == FirstStart(evs) && FirstRejected(evs + [ev])
    ensures var k := FirstStart(evs).value;
            Expected(evs + [ev]) == Headless(Offered(evs[k..]) + Chunk(ev))
  {
    FirstStartSnoc(evs, ev);
    FirstRejectedSnoc(evs, ev);
    var k := FirstStart(evs).value;
    hide FirstStart, FirstRejected;
    SnocParts(evs, ev);
    OfferedSnoc(evs[k..], ev);
  }

  lemma UncutBody(io: nat -> Io, s: State, d: Bytes)
    requires !s.lengthSet && AllData(s.sent)
    ensures var next := SendBody(io, s, d).state;
            && AllData(next.sent) && Flatten(next.sent) == Flatten(s.sent) + d
            && next == s.(sent := next.sent, outputLength := next.outputLength)
  {
    hide Flatten;
    assert d[..|d|] == d;
    FlattenSnoc(s.sent, Data(d));
    assert Flatten(s.sent) + [] == Flatten(s.sent);
  }

  lemma TrackHeadless(io: nat -> Io, evs: seq<Event>, ev: Event, s: State)
    requires Tracks(evs, s) && FirstRejected(evs)
    ensures Tracks(evs + [ev], Step(io, s, ev).state)
  {
    GrowHeadless(evs, ev);
    StepGone(io, s, ev);
    UncutBody(io, s, Chunk(ev));
    hide FirstStart, StatusOk, Expected, Step, Offered, Chunk, SendBody, Flatten, AllData;
  }

  lemma GrowFramed(evs: seq<Event>, ev: Event)
    requires FirstStart(evs).Some? && !FirstRejected(evs) && FirstHead(evs).Some?
    ensures FirstStart(evs + [ev]) == FirstStart(evs) && !FirstRejected(evs + [ev])
    ensures FirstHead(evs + [ev]) == FirstHead(evs)
    ensures var k := FirstHead(evs).value;
            && (evs + [ev])[..k] == evs[..k] && (evs + [ev])[..k + 1] == evs[..k + 1]
            && Offered((evs + [ev])[k..]) == Offered(evs[k..]) + Chunk(ev)
  {
    FirstStartSnoc(evs, ev);
    FirstRejectedSnoc(evs, ev);
    FirstHeadSnoc(evs, ev);
    hide FirstStart, FirstRejected, FirstHead, ScanHeaders, LastAccepted;
    SnocParts(evs, ev);
    OfferedSnoc(evs[FirstHead(evs).value..], ev);
  }

  lemma TrackFramed(io: nat -> Io, evs: seq<Event>, ev: Event, s: State)
    requires Tracks(evs, s) && FirstStart(evs).Some? && !FirstRejected(evs) && FirstHead(evs).Some?
    ensures Tracks(evs + [ev], Step(io, s, ev).state)
  {
    hide FirstStart, FirstRejected, FirstHead, Step, Offered, Chunk, ScanHeaders, Block, StoredLimit, LastAccepted;
    GrowFramed(evs, ev);
    StepGone(io, s, ev);
    var k := FirstHead(evs).value;
    BodyGrows(io, s, Offered(evs[k..]), Chunk(ev));
    hide SendBody, BodyAt;
  }

  lemma GrowPending(evs: seq<Event>, ev: Event)
    requires FirstStart(evs).Some? && !FirstRejected(evs) && FirstHead(evs).None? && LastAccepted(evs).Some?
    ensures FirstStart(evs + [ev]) == FirstStart(evs) && !FirstRejected(evs + [ev])
    ensures var scan := ScanHeaders(LastAccepted(evs).value);
            && FirstHead(evs + [ev]) == (if IsOutput(ev) && scan.error.None? then Some(|evs|) else None)
            && StoredLimit(evs + [ev]) ==
               (if IsOutput(ev) then Later(StoredLimit(evs), scan.limit) else StoredLimit(evs))
    ensures LastAccepted(evs + [ev]) ==
            if IsStart(ev) && StatusOk(ev) then Some(ev.args[1].items) else LastAccepted(evs)
    ensures (evs + [ev])[..|evs|] == evs && (evs + [ev])[..|evs| + 1] == evs + [ev]
    ensures Offered((evs + [ev])[|evs|..]) == Chunk(ev)
  {
    FirstStartSnoc(evs, ev);
    FirstRejectedSnoc(evs, ev);
    LastAcceptedSnoc(evs, ev);
    FirstHeadSnoc(evs, ev);
    StoredLimitSnoc(evs, ev);
    hide FirstStart, FirstRejected, LastAccepted, FirstHead, StoredLimit, ScanHeaders, StatusOk;
    SnocParts(evs, ev);
    OfferedLast(evs, ev);
  }

  lemma StepPending(io: nat -> Io, s: State, ev: Event)
    requires s.statusLine.Some? && s.headers.Some?
    ensures !IsOutput(ev) ==>
              var t := Step(io, s, ev).state;
              && t.sent == s.sent && t.outputLength == s.outputLength && LimitOf(t) == LimitOf(s) && t.statusLine.Some?
              && t.headers == (if IsStart(ev) && StatusOk(ev) then Some(ev.args[1].items) else s.headers)
    ensures IsOutput(ev) ==>
              var head := SendHead(s);
              Step(io, s, ev).state ==
              if head.reply.Raised? then head.state else SendBody(io, head.state, Chunk(ev)).state
  {
    hide ParseStatus, ScanHeaders, Block;
  }

  lemma HeadEffect(s: State)
    requires s.headers.Some? && s.statusLine.Some?
    ensures var scan, t := ScanHeaders(s.headers.value), SendHead(s).state;
            && SendHead(s).reply == (if scan.error.Some? then Raised(scan.error.value) else Done)
            && LimitOf(t) == Later(LimitOf(s), scan.limit)
            && t.outputLength == s.outputLength && t.statusLine == s.statusLine
            && t.headers == (if scan.error.Some? then s.headers else None)
            && t.sent == (if scan.error.Some? then s.sent else s.sent + [Text(Block(scan.pairs))])
  {
    hide ScanHeaders, Block;
  }

  lemma EmptyBody(s: State)
    requires |s.sent| == 1 && s.outputLength == 0
    ensures BodyAt(s, [])
  {
  }

  lemma TrackSending(io: nat -> Io, evs: seq<Event>, ev: Event, s: State)
    requires Tracks(evs, s) && FirstStart(evs).Some? && !FirstRejected(evs) && FirstHead(evs).None?
    requires IsOutput(ev) && SendHead(s).reply.Done?
    ensures Tracks(evs + [ev], SendBody(io, SendHead(s).state, Chunk(ev)).state)
  {
    hide Tracks, FirstStart, FirstRejected, FirstHead, Offered, Chunk, ScanHeaders, Block, StoredLimit, LastAccepted,
      IsOutput, IsStart, StatusOk, SendHead, SendBody, BodyAt, FramedAt, Later;
    TracksPending(evs, s);
    GrowPending(evs, ev);
    HeadEffect(s);
    var head, d := SendHead(s).state, Chunk(ev);
    EmptyBody(head);
    BodyGrows(io, head, [], d);
    assert [] + d == d;
    var t := SendBody(io, head, d).state;
    StartedFrame(evs + [ev], |evs|, t, s.headers.value);
    FramedTracks(evs + [ev], |evs|, t);
  }

  lemma StartIsNoOutput(call: Event)
    requires IsStart(call)
    ensures !IsOutput(call)
  {
  }

  lemma TrackPending(io: nat -> Io, evs: seq<Event>, ev: Event, s: State)
    requires Tracks(evs, s) && FirstStart(evs).Some? && !FirstRejected(evs) && FirstHead(evs).None?
    ensures Tracks(evs + [ev], Step(io, s, ev).state)
  {
    hide FirstStart, FirstRejected, FirstHead, Offered, Chunk, ScanHeaders, Block, StoredLimit, LastAccepted, Step,
      IsOutput, IsStart, StatusOk, SendHead, SendBody, LimitOf;
    StepPending(io, s, ev);
    HeadEffect(s);
    if IsStart(ev) {
      StartIsNoOutput(ev);
    }
    if IsOutput(ev) && SendHead(s).reply.Done? {
      TrackSending(io, evs, ev, s);
    } else {
      GrowPending(evs, ev);
    }
  }

  lemma {:induction false} RunTracks(io: nat -> Io, evs: seq<Event>)
    ensures Tracks(evs, Run(io, FRESH, evs))
  {
    if evs != [] {
      var before, ev := Front(evs), Last(evs);
      var s := Run(io, FRESH, before);
      assert evs == before + [ev];
      RunTracks(io, before);
      RunSnoc(io, FRESH, before, ev);
      hide Tracks, Step;
      if FirstStart(before).None? {
        TrackBefore(io, before, ev, s);
      } else if FirstRejected(before) {
        TrackHeadless(io, before, ev, s);
      } else if FirstHead(before).None? {
        TrackPending(io, before, ev, s);
      } else {
        TrackFramed(io, before, ev, s);
      }
    }
  }

  /** Every run hands the output stream exactly what the reference reads off its events. */
  lemma WholeRun(io: nat -> Io, evs: seq<Event>)
    ensures Shows(Run(io, FRESH, evs).sent, Expected(evs))
  {
    RunTracks(io, evs);
    hide Run, FirstStart, FirstRejected, FirstHead, Offered, ScanHeaders, Block, StoredLimit, LastAccepted, Flatten,
      Cut;
  }

  /** A response in one piece: nothing, or one header block and then only body. */
  predicate WellFramed(sent: seq<Sent>) {
    sent != [] ==> sent[0].Text? && AllData(sent[1..])
  }

  /**
   * A run is well framed unless its first well-typed start_response call is refused for its status string and
   * something is offered afterwards; then that text goes out with no header block in front of it.
   */
  lemma FramedExactly(io: nat -> Io, evs: seq<Event>)
    ensures WellFramed(Run(io, FRESH, evs).sent) <==>
            !(FirstRejected(evs) && Offered(evs[FirstStart(evs).value..]) != [])
  {
    WholeRun(io, evs);
    hide Run, FirstStart, StatusOk, FirstHead, Offered, ScanHeaders, Block, StoredLimit, LastAccepted, Cut;
    var sent := Run(io, FRESH, evs).sent;
    assert sent != [] && sent[0].Data? && AllData(sent) ==> |Flatten(sent)| >= |sent[0].bytes| > 0;
  }

  /** The test for headers that are gone: a block was written, or the first status was refused. */
  lemma GoneIffHeadOrRejected(io: nat -> Io, evs: seq<Event>)
    ensures HeadersGone(Run(io, FRESH, evs)) <==> Expected(evs).Framed? || FirstRejected(evs)
  {
    RunTracks(io, evs);
    hide Run, FirstStart, StatusOk, FirstHead, Offered, ScanHeaders, Block, StoredLimit, LastAccepted, Flatten, Cut,
      BodyAt, AllData;
  }
}
