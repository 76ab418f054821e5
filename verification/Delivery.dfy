/** Which bytes of a body reach a stream that may fail, and when that still does not depend on how it is divided. */
module Delivery {
  import opened ByteStrings
  import opened Python
  import opened Streams
  import opened Response
  import opened Application
  import opened Chunking

  /** Behind the headers: how many bytes an iteration hands over before the first call that fails. */
  function Handed(io: nat -> Io, s: State, chunks: seq<Bytes>): nat
    decreases chunks
  {
    if chunks == [] then 0
    else
      var n := Allowed(s, |chunks[0]|);
      if n > 0 && !io(|s.sent|).Written? then n
      else n + Handed(io, SendBody(io, s, chunks[0]).state, chunks[1..])
  }

  /** They are the front part of the body, cut at the declared length. */
  lemma {:induction false} HandedIsPrefix(io: nat -> Io, s: State, chunks: seq<Bytes>)
    ensures Handed(io, s, chunks) <= Allowed(s, |Concat(chunks)|)
    decreases chunks
  {
    if chunks != [] {
      var piece, rest := chunks[0], Concat(chunks[1..]);
      var t := SendBody(io, s, piece).state;
      BodyBytes(io, s, piece);
      HandedIsPrefix(io, t, chunks[1..]);
      AllowedTwice(s, t, |piece|, |rest|);
      assert |Concat(chunks)| == |piece| + |rest|;
      hide Allowed, SendBody, Concat;
    }
  }

  /** One piece and then a part of the rest are one front part of the whole. */
  lemma PrefixJoin(s: State, t: State, piece: Bytes, rest: Bytes, d: nat)
    requires t == s.(sent := t.sent, outputLength := s.outputLength + |piece|)
    requires d <= Allowed(t, |rest|)
    ensures Allowed(s, |piece|) + d <= |piece + rest|
    ensures piece[..Allowed(s, |piece|)] + rest[..d] == (piece + rest)[..Allowed(s, |piece|) + d]
  {
    AllowedTwice(s, t, |piece|, |rest|);
    hide Allowed;
  }

  /** The last turn makes no further calls. */
  predicate Quiet(it: Iterable) {
    it.last == []
  }

  lemma {:induction false} PullHands(io: nat -> Io, s: State, chunks: seq<Bytes>, it: Iterable)
    requires HeadersGone(s) && Quiet(it)
    ensures Handed(io, s, chunks) <= |Concat(chunks)|
    ensures Flatten(Pull(io, s, Strings(chunks), it).state.sent)
         == Flatten(s.sent) + Concat(chunks)[..Handed(io, s, chunks)]
    decreases chunks
  {
    HandedIsPrefix(io, s, chunks);
    if chunks == [] {
      PullNone(io, s, it);
      hide Flatten, Pull, Strings;
      assert Flatten(s.sent) + [] == Flatten(s.sent);
    } else {
      hide Pull, Strings, Flatten, Allowed, SendBody, Calls, HeadersGone;
      var piece, rest := chunks[0], Concat(chunks[1..]);
      var t := SendBody(io, s, piece).state;
      var n := Allowed(s, |piece|);
      PullPiece(io, s, chunks, it);
      BodyBytes(io, s, piece);
      HandedIsPrefix(io, t, chunks[1..]);
      if n > 0 && !io(|s.sent|).Written? {
        PrefixJoin(s, t, piece, rest, 0);
        assert piece[..n] + rest[..0] == piece[..n];
      } else {
        PullHands(io, t, chunks[1..], it);
        var d := Handed(io, t, chunks[1..]);
        PrefixJoin(s, t, piece, rest, d);
        Extend(Flatten(s.sent), piece[..n], rest[..d]);
      }
    }
  }

  lemma PullNone(io: nat -> Io, s: State, it: Iterable)
    requires Quiet(it)
    ensures Pull(io, s, Strings([]), it).state == s
  {
    assert Calls(io, s, []) == s;
  }

  /** Behind the headers, one turn of the iteration is one handing over. */
  lemma PullPiece(io: nat -> Io, s: State, chunks: seq<Bytes>, it: Iterable)
    requires HeadersGone(s) && chunks != []
    ensures var t := SendBody(io, s, chunks[0]).state;
            && HeadersGone(t)
            && Pull(io, s, Strings(chunks), it) ==
               if Allowed(s, |chunks[0]|) > 0 && !io(|s.sent|).Written? then Progress(t, true)
               else Pull(io, t, Strings(chunks[1..]), it)
  {
    var turns, piece := Strings(chunks), chunks[0];
    assert turns[1..] == Strings(chunks[1..]) && turns[0] == Turn([], PyStr(piece));
    assert Calls(io, s, []) == s;
    GoneOutput(io, s, piece);
    hide Output, Calls, Strings;
    if piece == [] {
      assert SendBody(io, s, piece).state == s;
    }
  }

  /** None of the first n - 1 calls behind the headers fails. */
  ghost predicate NoneFails(io: nat -> Io, s: State, n: nat) {
    forall k: nat :: |s.sent| <= k < |s.sent| + n - 1 ==> io(k).Written?
  }

  /** If only the last possible call can fail, every division delivers all that the declared length allows. */
  lemma {:induction false} AllHanded(io: nat -> Io, s: State, chunks: seq<Bytes>)
    requires NoneFails(io, s, Allowed(s, |Concat(chunks)|))
    ensures Handed(io, s, chunks) == Allowed(s, |Concat(chunks)|)
    decreases chunks
  {
    if chunks != [] {
      var piece, rest := chunks[0], Concat(chunks[1..]);
      var t := SendBody(io, s, piece).state;
      var m, n := Allowed(s, |piece|), Allowed(t, |rest|);
      BodyBytes(io, s, piece);
      AllowedTwice(s, t, |piece|, |rest|);
      assert |Concat(chunks)| == |piece| + |rest|;
      BodyCalls(io, s, piece);
      hide Allowed, SendBody, Concat;
      assert m > 0 && n > 0 ==> io(|s.sent|).Written?;
      assert NoneFails(io, t, n);
      AllHanded(io, t, chunks[1..]);
    }
  }

  lemma BodyCalls(io: nat -> Io, s: State, d: Bytes)
    ensures |SendBody(io, s, d).state.sent| == |s.sent| + if Allowed(s, |d|) > 0 then 1 else 0
  {
  }

  /** If an earlier call fails, some division loses bytes: single bytes up to that call, and then the rest. */
  lemma {:induction false} SomeLost(io: nat -> Io, s: State, body: Bytes, k: nat) returns (chunks: seq<Bytes>)
    requires |s.sent| <= k < |s.sent| + Allowed(s, |body|) - 1 && !io(k).Written?
    ensures Concat(chunks) == body && Handed(io, s, chunks) < Allowed(s, |body|)
    decreases k - |s.sent|
  {
    var piece, rest := body[..1], body[1..];
    var t := SendBody(io, s, piece).state;
    BodyBytes(io, s, piece);
    AllowedTwice(s, t, 1, |rest|);
    AllowedOne(s, |body|);
    assert piece + rest == body;
    if !io(|s.sent|).Written? {
      chunks := [piece, rest];
      ConcatHead(piece, [rest]);
      ConcatOne(rest);
      assert chunks == [piece] + [rest];
    } else {
      BodyCalls(io, s, piece);
      var more := SomeLost(io, t, rest, k);
      chunks := [piece] + more;
      ConcatHead(piece, more);
      assert chunks[0] == piece && chunks[1..] == more;
    }
    hide Allowed, SendBody, Concat;
  }

  lemma AllowedOne(s: State, length: nat)
    requires Allowed(s, length) > 0
    ensures Allowed(s, 1) == 1
  {
  }

  /** As far as the header block is concerned, an iteration with some text starts by sending it. */
  lemma {:induction false} PullFromHead(io: nat -> Io, s: State, chunks: seq<Bytes>, it: Iterable)
    requires Accepts(s) && Concat(chunks) != []
    ensures Pull(io, s, Strings(chunks), it) == Pull(io, SendHead(s).state, Strings(chunks), it)
    decreases chunks
  {
    var h := SendHead(s).state;
    var turns, piece := Strings(chunks), chunks[0];
    assert turns[1..] == Strings(chunks[1..]) && turns[0] == Turn([], PyStr(piece));
    assert Calls(io, s, []) == s && Calls(io, h, []) == h;
    HeadDone(s);
    OutputParts(io, s, piece);
    OutputParts(io, h, piece);
    if piece == [] {
      assert piece + Concat(chunks[1..]) == Concat(chunks[1..]);
      PullFromHead(io, s, chunks[1..], it);
    }
    hide Output, SendHead, SendBody, Calls, Strings, Concat;
  }

  /** How many bytes of a body the state has room for, and where the calls that carry them begin. */
  function Room(s: State, body: Bytes): nat {
    if Accepts(s) then Allowed(SendHead(s).state, |body|) else 0
  }

  /** What an application that yields these strings, and then makes no more calls, puts on the wire. */
  function WireOf(io: nat -> Io, s: State, calls: seq<Call>, it: Iterable, chunks: seq<Bytes>): Bytes {
    Flatten(RunApp(io, s, Yielding(calls, it, chunks)).state.sent)
  }

  /** Every division of the body puts the same bytes on the wire. */
  ghost predicate Uniform(io: nat -> Io, s: State, calls: seq<Call>, it: Iterable, body: Bytes) {
    forall a: seq<Bytes>, b: seq<Bytes> :: Concat(a) == body && Concat(b) == body ==>
      WireOf(io, s, calls, it, a) == WireOf(io, s, calls, it, b)
  }

  /** The bytes of an iteration, whatever fails: the header block, and a front part of the cut body. */
  lemma PullDelivers(io: nat -> Io, s: State, chunks: seq<Bytes>, it: Iterable)
    requires Quiet(it)
    ensures var body, sent := Concat(chunks), Pull(io, s, Strings(chunks), it).state.sent;
            if body == [] || !Accepts(s) then Flatten(sent) == Flatten(s.sent)
            else
              var h := SendHead(s).state;
              && Handed(io, h, chunks) <= Room(s, body) <= |body|
              && Flatten(sent) == Flatten(h.sent) + body[..Handed(io, h, chunks)]
  {
    var body := Concat(chunks);
    if body == [] || !Accepts(s) {
      PullByBody(io, s, chunks, it);
      if !Accepts(s) {
        RefusedSendsNothing(s);
      }
      assert Calls(io, s, []) == s;
      hide Pull, Strings, SendHead, Concat, Calls;
    } else {
      var h := SendHead(s).state;
      PullFromHead(io, s, chunks, it);
      HeadDone(s);
      HandedIsPrefix(io, h, chunks);
      PullHands(io, h, chunks, it);
      hide Pull, Strings, SendHead, Handed, Flatten, Concat;
    }
  }

  lemma RefusedSendsNothing(s: State)
    requires !Accepts(s)
    ensures Refused(s).sent == s.sent
  {
  }

  /** Behind the iteration nothing more is sent, unless there was no text at all. */
  lemma RunDelivers(io: nat -> Io, s: State, calls: seq<Call>, it: Iterable, chunks: seq<Bytes>)
    requires Quiet(it) && it.closing == []
    ensures var s1 := Calls(io, s, calls);
            WireOf(io, s, calls, it, chunks) ==
            if Concat(chunks) == [] then Flatten(Finish(io, Ending(io, Progress(s1, false), it)).state.sent)
            else Flatten(Pull(io, s1, Strings(chunks), it).state.sent)
  {
    var s1 := Calls(io, s, calls);
    var other := Yielding(calls, it, chunks).result;
    var p := Pull(io, s1, Strings(chunks), it);
    PullIgnoresTurns(io, s1, Strings(chunks), it, other);
    PullByBody(io, s1, chunks, it);
    assert Calls(io, Finish(io, p).state, []) == Finish(io, p).state;
    if Accepts(s1) && Concat(chunks) != [] {
      FinishGone(io, p);
    }
    hide Pull, Strings, Concat, Calls, Flatten, Accepts, Refused;
  }

  /**
   * On a stream that may fail, how a body is divided makes no difference to the bytes exactly when none of the calls
   * that carry it fails but possibly the last one there can be.
   */
  lemma UniformExactly(io: nat -> Io, s: State, calls: seq<Call>, it: Iterable, body: Bytes)
    requires Quiet(it) && it.closing == []
    ensures var s1 := Calls(io, s, calls);
            Uniform(io, s, calls, it, body) <==> NoneFails(io, SendHead(s1).state, Room(s1, body))
  {
    var s1 := Calls(io, s, calls);
    if NoneFails(io, SendHead(s1).state, Room(s1, body)) {
      forall a: seq<Bytes>, b: seq<Bytes> | Concat(a) == body && Concat(b) == body
        ensures WireOf(io, s, calls, it, a) == WireOf(io, s, calls, it, b)
      {
        RunDelivers(io, s, calls, it, a);
        RunDelivers(io, s, calls, it, b);
        DeliversAll(io, s1, a, it);
        DeliversAll(io, s1, b, it);
        hide Calls, WireOf, Room, Accepts, SendHead, Flatten, Concat, Pull, Strings, Finish, Ending, NoneFails;
      }
    } else {
      var h := SendHead(s1).state;
      var k: nat :| |h.sent| <= k < |h.sent| + Room(s1, body) - 1 && !io(k).Written?;
      var a := SomeLost(io, h, body, k);
      var b := [body];
      ConcatOne(body);
      RunDelivers(io, s, calls, it, a);
      RunDelivers(io, s, calls, it, b);
      PullDelivers(io, s1, a, it);
      PullDelivers(io, s1, b, it);
      WholeHanded(io, h, body);
      hide Calls, WireOf, Pull, Strings, SendHead, Handed, Flatten, Concat, Allowed, Finish, Ending;
      var x, y := body[..Handed(io, h, a)], body[..Handed(io, h, b)];
      assert |Flatten(h.sent) + x| < |Flatten(h.sent) + y|;
      assert !Uniform(io, s, calls, it, body);
    }
  }

  lemma DeliversAll(io: nat -> Io, s: State, chunks: seq<Bytes>, it: Iterable)
    requires Quiet(it) && NoneFails(io, SendHead(s).state, Room(s, Concat(chunks)))
    ensures var body, h := Concat(chunks), SendHead(s).state;
            Room(s, body) <= |body| &&
            Flatten(Pull(io, s, Strings(chunks), it).state.sent) ==
            if body == [] || !Accepts(s) then Flatten(s.sent) else Flatten(h.sent) + body[..Room(s, body)]
  {
    PullDelivers(io, s, chunks, it);
    if Accepts(s) {
      AllHanded(io, SendHead(s).state, chunks);
    }
    hide Pull, Strings, SendHead, Handed, Flatten, Concat;
  }

  /** In one piece, all that is allowed is handed over, even if that call fails. */
  lemma WholeHanded(io: nat -> Io, s: State, body: Bytes)
    ensures Handed(io, s, [body]) == Allowed(s, |body|)
  {
    assert Handed(io, SendBody(io, s, body).state, [body][1..]) == 0;
  }
}
