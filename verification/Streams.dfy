/** The request interface of wsgi.h: the three FastCGI streams and the environment. */
module Streams {
  import opened ByteStrings

  /** One call that hands bytes to the output stream: PutStr or PutData. */
  datatype Sent = Text(bytes: Bytes) | Data(bytes: Bytes)

  /** What becomes of a PutData and of the FlushOut behind it. */
  datatype Io = Written | PutFailed | FlushFailed

  /** The bytes handed over, in order. */
  function Flatten(sent: seq<Sent>): Bytes {
    if sent == [] then [] else sent[0].bytes + Flatten(sent[1..])
  }

  lemma {:induction false} FlattenAppend(a: seq<Sent>, b: seq<Sent>)
    ensures Flatten(a + b) == Flatten(a) + Flatten(b)
  {
    if a == [] {
      assert a + b == b;
    } else {
      assert (a + b)[1..] == a[1..] + b;
      FlattenAppend(a[1..], b);
    }
  }

  lemma FlattenSnoc(a: seq<Sent>, x: Sent)
    ensures Flatten(a + [x]) == Flatten(a) + x.bytes
  {
    FlattenAppend(a, [x]);
    assert Flatten([x]) == x.bytes + Flatten([x][1..]) == x.bytes;
  }

  class Request {
    /** The fate of the n-th call on the output stream. */
    const io: nat -> Io
    const env: seq<Bytes>

    var sent: seq<Sent>
    var input: Bytes
    var err: seq<Bytes>

    constructor (io: nat -> Io, env: seq<Bytes>, input: Bytes)
      ensures this.io == io && this.env == env && this.input == input
      ensures sent == [] && err == []
    {
      this.io, this.env, this.input := io, env, input;
      sent, err := [], [];
    }

    method PutStr(text: Bytes)
      modifies this`sent
      ensures sent == old(sent) + [Text(text)]
    {
      sent := sent + [Text(text)];
    }

    method PutData(data: Bytes) returns (n: int)
      modifies this`sent
      ensures sent == old(sent) + [Data(data)]
      ensures n == -1 <==> io(|old(sent)|).PutFailed?
    {
      n := if io(|sent|).PutFailed? then -1 else |data|;
      sent := sent + [Data(data)];
    }

    method FlushOut() returns (n: int)
      ensures n == -1 <==> sent != [] && io(|sent| - 1).FlushFailed?
    {
      n := if sent != [] && io(|sent| - 1).FlushFailed? then -1 else 0;
    }

    method PutDataErr(record: Bytes)
      modifies this`err
      ensures err == old(err) + [record]
    {
      err := err + [record];
    }

    /** A short read: any positive number of the bytes asked for, none at the end of the input, or a failure. */
    method GetData(buf: array<byte>, at: nat, len: int) returns (n: int)
      requires at <= buf.Length && at + len <= buf.Length
      modifies buf, this`input
      ensures n == -1 || 0 <= n <= |old(input)|
      ensures n != -1 ==> (n == 0 <==> len <= 0 || old(input) == []) && (0 < len ==> n <= len)
      ensures n == -1 ==> input == old(input)
      ensures n == -1 ==> buf[..at] == old(buf[..at])
      ensures n != -1 ==> at + n <= buf.Length && input == old(input)[n..]
      ensures n != -1 ==> buf[..at + n] == old(buf[..at]) + old(input)[..n]
    {
      if * {
        return -1;
      }
      if len <= 0 || input == [] {
        assert buf[..at] + input[..0] == buf[..at];
        return 0;
      }
      ghost var before := buf[..at];
      n :| 1 <= n <= len && n <= |input|;
      forall i | 0 <= i < n {
        buf[at + i] := input[i];
      }
      assert buf[..at] == before && buf[at..at + n] == input[..n];
      assert buf[..at + n] == buf[..at] + buf[at..at + n];
      input := input[n..];
    }
  }
}
