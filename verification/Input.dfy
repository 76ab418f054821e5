/** The `wsgi.input` object of wsgi.cpp: a residual buffer in front of a stream that reads short. */
module Inputs {
  import opened ByteStrings
  import opened CNumbers
  import opened Python
  import opened Streams
  import opened InputReads

  datatype ReadReply = Returned(bytes: Bytes) | Failed(error: PyError) | NoResult

  class Input {
    var r: Request?
    var init: bool
    var done: bool
    var buffer: array?<byte>
    var offset: nat
    var length: nat

    ghost predicate Valid()
      reads this
    {
      && (buffer == null ==> length == 0)
      && (buffer != null ==> offset + length <= buffer.Length)
      && (done ==> length == 0)
      && length <= INT_MAX
    }

    ghost function Residual(): Bytes
      requires Valid()
      reads this, buffer
    {
      if buffer == null then [] else buffer[offset..offset + length]
    }

    ghost function State(): InputState
      requires Valid()
      reads this, buffer, r
    {
      InputState(Residual(), if r == null then [] else r.input, done)
    }

    ghost function Source(): set<Request>
      reads this
    {
      if r == null then {} else {r}
    }

    constructor (r: Request)
      ensures Valid() && this.r == r && State() == InputState([], r.input, false)
    {
      this.r, init, done, buffer, offset, length := r, false, false, null, 0, 0;
    }

    /** Serve a read from the buffer as far as that goes, and release the buffer once it is empty. */
    method TakeResidual(dest: array<byte>) returns (n: nat)
      requires Valid() && dest != buffer
      modifies dest, this`buffer, this`offset, this`length
      ensures Valid() && (length == 0 ==> buffer == null) && n == Min(dest.Length, |old(Residual())|)
      ensures dest[..n] == old(Residual())[..n] && Residual() == old(Residual())[n..]
    {
      n := 0;
      if buffer != null && length != 0 {
        n := if dest.Length >= length then length else ToInt(dest.Length);
        CopyOut(dest, n);
        Advance(n);
      }
      if length == 0 {
        buffer := null;
      }
    }

    method CopyOut(dest: array<byte>, n: nat)
      requires Valid() && dest != buffer && n <= |Residual()| && n <= dest.Length
      modifies dest
      ensures dest[..n] == Residual()[..n]
    {
      forall i | 0 <= i < n {
        dest[i] := buffer[offset + i];
      }
    }

    /** Used up, the buffer starts over at its front. */
    method Advance(n: nat)
      requires Valid() && buffer != null && n <= length
      modifies this`offset, this`length
      ensures Valid() && Residual() == old(Residual())[n..]
    {
      SliceSlice(buffer[..], offset, length, n);
      if n == length {
        offset, length := 0, 0;
      } else {
        offset, length := offset + n, length - n;
      }
    }

    /** One request for what is missing. It may bring less, nothing, or fail. */
    method Ask(dest: array<byte>, have: nat, got: nat) returns (n: int)
      requires r != null && have <= got < dest.Length && got - have <= Deliverable(dest.Length - have)
      modifies dest, Source()`input
      ensures n == -1 || 0 <= n <= |old(r.input)|
      ensures n == -1 ==> r.input == old(r.input) && dest[..got] == old(dest[..got])
      ensures n != -1 ==>
                && got - have + n <= Deliverable(dest.Length - have)
                && dest[..got + n] == old(dest[..got]) + old(r.input)[..n]
                && r.input == old(r.input)[n..]
      ensures n == 0 ==> got - have == Deliverable(dest.Length - have) || old(r.input) == []
    {
      hide Deliverable, ToInt;
      Narrowing(dest.Length - have, got - have);
      n := r.GetData(dest, got, ToInt(dest.Length - got));
    }

    /** Ask the stream until the destination is full, the stream has no more, or it fails. */
    method Fill(dest: array<byte>, have: nat) returns (ok: bool, got: nat)
      requires r != null && have < dest.Length && have + Deliverable(dest.Length - have) <= INT_MAX
      modifies dest, this`done, Source()`input
      ensures have <= got <= dest.Length && got - have <= |old(r.input)|
      ensures dest[..got] == old(dest[..have]) + old(r.input)[..got - have]
      ensures r.input == old(r.input)[got - have..]
      ensures ok ==> got - have == Min(Deliverable(dest.Length - have), |old(r.input)|)
      ensures done == (old(done) || (ok && got < dest.Length))
    {
      hide Deliverable, ToInt;
      ok, got := true, have;
      ghost var head, stream := dest[..have], r.input;
      assert head + stream[..0] == head;
      while got != dest.Length
        invariant ok && have <= got && got - have <= Deliverable(dest.Length - have) && got - have <= |stream|
        invariant dest[..got] == head + stream[..got - have]
        invariant r.input == stream[got - have..] && done == old(done)
        decreases dest.Length - got
      {
        var n := Ask(dest, have, got);
        if n == -1 {
          ok := false;
          break;
        } else if n == 0 {
          done := true;
          break;
        }
        TakeTwice(stream, got - have, n);
        Extend(head, stream[..got - have], stream[got - have..][..n]);
        got := ToInt(got + n);
      }
    }

    /** The case of a positive size with the end of the body not yet seen. */
    method ReadSome(size: nat) returns (reply: ReadReply)
      requires Valid() && r != null && size > 0 && !(done && length == 0)
      requires Reach(size, |Residual()|) <= INT_MAX
      modifies this`done, this`buffer, this`offset, this`length, Source()`input
      ensures Valid()
      ensures reply.Returned? ==> ReadResult(reply.bytes, State()) == InputReads.Read(old(State()), size)
      ensures !reply.Returned? ==>
                && reply == Failed(IOError) && done == old(done) && Residual() == []
                && |r.input| <= |old(r.input)| && r.input == old(r.input)[|old(r.input)| - |r.input|..]
    {
      hide InputReads.Read, Deliverable, Available, Reach, ToInt;
      ghost var st := State();
      var result := new byte[size];
      var have := TakeResidual(result);
      if have == size {
        ReadFromResidual(st, size);
        return Returned(result[..have]);
      }
      ReachBeyond(size, have);
      assert st.residual[..have] == st.residual;
      var ok, got := Fill(result, have);
      if !ok {
        return Failed(IOError);
      }
      ReadFromBoth(st, size);
      return Returned(result[..got]);
    }

    /** Bytes are counted in an int. It can only run over when a residual buffer meets a size beyond its range. */
    method Read(size: int) returns (reply: ReadReply)
      requires Valid() && (r != null && size > 0 ==> Reach(size, |Residual()|) <= INT_MAX)
      modifies this`init, this`done, this`buffer, this`offset, this`length, Source()`input
      ensures Valid()
      ensures r == null ==> reply == Failed(RuntimeError) && unchanged(this)
      ensures r != null && size < 0 ==>
                reply == (if old(done) then Returned([]) else NoResult) && State() == old(State())
      ensures r != null && size >= 0 && reply.Returned? ==>
                ReadResult(reply.bytes, State()) == InputReads.Read(old(State()), size)
      ensures r != null && size >= 0 && !reply.Returned? ==>
                && size > 0
                && reply == Failed(IOError) && done == old(done) && Residual() == []
                && |r.input| <= |old(r.input)| && r.input == old(r.input)[|old(r.input)| - |r.input|..]
    {
      hide InputReads.Read;
      if r == null {
        return Failed(RuntimeError);
      }
      init := true;
      if done && length == 0 {
        ReadAtEnd(State());
        return Returned([]);
      }
      if size == 0 {
        ReadNothing(State());
        return Returned([]);
      }
      if size < 0 {
        return NoResult;
      }
      reply := ReadSome(size);
    }
  }
}
