/** What reading the request body promises: consecutive prefixes of it, as long as sizes fit the C int. */
module InputReads {
  import opened ByteStrings
  import opened CNumbers

  /** The bytes already buffered, the bytes still in the stream, and whether its end has been seen. */
  datatype InputState = InputState(residual: Bytes, stream: Bytes, done: bool)

  function Available(st: InputState): Bytes {
    st.residual + st.stream
  }

  /** How many bytes the request loop can get when `x` are missing: each request goes through an int. */
  function Deliverable(x: nat): (n: nat)
    ensures n <= x && n <= INT_MAX
    ensures x <= INT_MAX ==> n == x
  {
    var m := x % 0x1_0000_0000;
    if m <= INT_MAX then m else 0
  }

  /** What one read of `size` bytes can return at most. */
  function Reach(size: nat, have: nat): (n: nat)
    ensures n <= size
    ensures size <= INT_MAX ==> n == size
    ensures have == 0 ==> n <= INT_MAX
  {
    if size <= have then size else have + Deliverable(size - have)
  }

  lemma ReachBeyond(size: nat, have: nat)
    requires have < size
    ensures Reach(size, have) == have + Deliverable(size - have)
  {
  }

  datatype ReadResult = ReadResult(bytes: Bytes, state: InputState)

  /** A read of a size during which no GetData fails. */
  function Read(st: InputState, size: nat): ReadResult {
    if st.done && st.residual == [] then ReadResult([], st)
    else
      var n := Min(Reach(size, |st.residual|), |Available(st)|);
      var used := Min(n, |st.residual|);
      ReadResult(Available(st)[..n],
                 InputState(st.residual[used..], st.stream[n - used..], st.done || n < size))
  }

  /** Nothing is left once the end has been seen. */
  predicate Honest(st: InputState) {
    st.done ==> Available(st) == []
  }

  lemma ReadTakesPrefix(st: InputState, size: nat)
    requires Honest(st) && size <= INT_MAX
    ensures var n := Min(size, |Available(st)|);
            var r := Read(st, size);
            r.bytes == Available(st)[..n] && Available(r.state) == Available(st)[n..] && Honest(r.state)
  {
    var n := Min(size, |Available(st)|);
    if st.done && st.residual == [] {
      assert n == 0;
    } else {
      var used := Min(n, |st.residual|);
      assert st.residual[used..] + st.stream[n - used..] == Available(st)[n..];
    }
  }

  lemma ReadAtEnd(st: InputState)
    requires st.done && st.residual == []
    ensures forall size: nat :: Read(st, size) == ReadResult([], st)
  {
  }

  lemma ReadNothing(st: InputState)
    ensures Read(st, 0) == ReadResult([], st)
  {
  }

  lemma ReadFromBoth(st: InputState, size: nat)
    requires |st.residual| < size && (st.done ==> st.residual != [])
    ensures var n := Min(Deliverable(size - |st.residual|), |st.stream|);
            Read(st, size) == ReadResult(st.residual + st.stream[..n],
                                         InputState([], st.stream[n..], st.done || |st.residual| + n < size))
  {
    var n := Min(Deliverable(size - |st.residual|), |st.stream|);
    assert Available(st)[..|st.residual| + n] == st.residual + st.stream[..n];
  }

  lemma ReadFromResidual(st: InputState, size: nat)
    requires 0 < size <= |st.residual|
    ensures Read(st, size) == ReadResult(st.residual[..size], InputState(st.residual[size..], st.stream, st.done))
  {
    assert Available(st)[..size] == st.residual[..size];
  }

  datatype Reads = Reads(results: seq<Bytes>, state: InputState)

  function ReadAll(st: InputState, sizes: seq<nat>): Reads
    decreases sizes
  {
    if sizes == [] then Reads([], st)
    else
      var first := Read(st, sizes[0]);
      var more := ReadAll(first.state, sizes[1..]);
      Reads([first.bytes] + more.results, more.state)
  }

  function Sum(sizes: seq<nat>): nat {
    if sizes == [] then 0 else sizes[0] + Sum(sizes[1..])
  }

  lemma ReadAllNone(st: InputState)
    ensures ReadAll(st, []) == Reads([], st) && Concat([]) == [] && Sum([]) == 0
  {
  }

  lemma ReadAllStep(st: InputState, sizes: seq<nat>)
    requires sizes != []
    ensures var first := Read(st, sizes[0]);
            var more := ReadAll(first.state, sizes[1..]);
            && ReadAll(st, sizes).state == more.state
            && Concat(ReadAll(st, sizes).results) == first.bytes + Concat(more.results)
            && Sum(sizes) == sizes[0] + Sum(sizes[1..])
  {
    hide Read;
    ConcatHead(Read(st, sizes[0]).bytes, ReadAll(Read(st, sizes[0]).state, sizes[1..]).results);
  }

  lemma TakeTwice(t: Bytes, a: nat, b: nat)
    requires a + b <= |t|
    ensures t[..a] + t[a..][..b] == t[..a + b] && t[a..][b..] == t[a + b..]
  {
  }

  /** However an application divides its reads, it sees one prefix of the request body, and the rest stays. */
  lemma {:induction false} ReadsTakePrefix(st: InputState, sizes: seq<nat>)
    requires Honest(st) && forall i :: 0 <= i < |sizes| ==> sizes[i] <= INT_MAX
    ensures var n := Min(Sum(sizes), |Available(st)|);
            var r := ReadAll(st, sizes);
            Concat(r.results) == Available(st)[..n] && Available(r.state) == Available(st)[n..] && Honest(r.state)
    decreases sizes
  {
    hide Read, ReadAll, Available, Honest, Concat, Sum;
    if sizes == [] {
      ReadAllNone(st);
    } else {
      var first := Read(st, sizes[0]);
      var t := Available(st);
      var a := Min(sizes[0], |t|);
      var b := Min(Sum(sizes[1..]), |t| - a);
      ReadTakesPrefix(st, sizes[0]);
      ReadsTakePrefix(first.state, sizes[1..]);
      ReadAllStep(st, sizes);
      TakeTwice(t, a, b);
      assert Min(Sum(sizes), |t|) == a + b;
    }
  }

  /**
   * A single read returns the first `size` available bytes, or all of them, for every rest of the body exactly when
   * what is missing behind the residual buffer fits an int.
   */
  lemma ReadExactIffInt(residual: Bytes, size: nat)
    ensures size - |residual| <= INT_MAX <==>
              forall stream: Bytes :: var t := residual + stream;
                Read(InputState(residual, stream, false), size).bytes == t[..Min(size, |t|)]
  {
    var missing := size - |residual|;
    if missing <= INT_MAX {
      forall stream: Bytes
        ensures var t := residual + stream;
                Read(InputState(residual, stream, false), size).bytes == t[..Min(size, |t|)]
      {
      }
    } else {
      var stream: Bytes := seq(Deliverable(missing) + 1, i => NUL);
      var t := residual + stream;
      assert |Read(InputState(residual, stream, false), size).bytes| < |t[..Min(size, |t|)]|;
    }
  }

  /** A read of 4 GiB returns nothing and marks the input as exhausted, so that later reads return nothing either. */
  lemma LargeReadEndsInput(stream: Bytes, size: nat)
    ensures var r := Read(InputState([], stream, false), 0x1_0000_0000);
            r.bytes == [] && r.state == InputState([], stream, true) && Read(r.state, size).bytes == []
  {
  }

  /** The next request asks for what is still deliverable, or for nothing once that is used up. */
  lemma Narrowing(x: nat, k: nat)
    requires k <= Deliverable(x) && k < x
    ensures ToInt(x - k) <= 0 ==> k == Deliverable(x)
    ensures ToInt(x - k) > 0 ==> k + ToInt(x - k) == Deliverable(x)
  {
    assert (x - k) % 0x1_0000_0000 == x % 0x1_0000_0000 - k;
  }
}
