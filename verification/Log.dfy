/** The `wsgi.errors` object of wsgi.cpp: a line buffer over a hand-managed heap block. */
module Logs {
  import opened ByteStrings
  import opened CNumbers
  import opened Python
  import opened Streams
  import opened LogLines

  class Log {
    var r: Request?
    var s: array?<byte>
    var l: int
    var expired: bool

    /** The block is absent exactly when nothing is pending; otherwise it is l bytes, none a newline, and a NUL. */
    ghost predicate Valid()
      reads this, s
    {
      && (expired <==> r == null)
      && (s == null <==> l == 0)
      && (s != null ==> 0 < l && s.Length == l + 1 && s[l] == NUL && NEWLINE !in s[..l])
    }

    ghost function Residual(): (b: Bytes)
      requires Valid()
      reads this, s
      ensures NEWLINE !in b && (b == [] <==> s == null)
    {
      if s == null then [] else s[..l]
    }

    ghost function State(): LogState
      requires Valid()
      reads this, s, r
    {
      LogState(Residual(), !expired, if r == null then [] else r.err)
    }

    /** The request the object still writes to. */
    ghost function Sink(): set<Request>
      reads this
    {
      if r == null then {} else {r}
    }

    constructor (r: Request)
      ensures Valid() && this.r == r && State() == LogState([], true, r.err)
    {
      this.r, s, l, expired := r, null, 0, false;
    }

    method Call(record: Bytes)
      modifies Sink()`err
      ensures r != null ==> r.err == old(r.err) + [record]
    {
      if r != null {
        r.PutDataErr(record);
      }
    }

    /** malloc, two memcpy, and the terminator. */
    static method Joined(a: array?<byte>, m: nat, msg: Bytes, p: nat, q: nat) returns (buf: array<byte>)
      requires if a == null then m == 0 else m <= a.Length
      requires p <= q <= |msg| && m + (q - p) < INT_MAX
      ensures fresh(buf) && buf.Length == m + (q - p) + 1 && buf[m + (q - p)] == NUL
      ensures buf[..m + (q - p)] == (if a == null then [] else a[..m]) + msg[p..q]
    {
      var n := ToInt(m + (q - p) + 1);
      buf := new byte[n];
      if a != null {
        forall i | 0 <= i < m {
          buf[i] := a[i];
        }
      }
      forall i | p <= i < q {
        buf[m + i - p] := msg[i];
      }
      buf[n - 1] := NUL;
      assert buf[m..n - 1] == msg[p..q];
      assert a != null ==> buf[..m] == a[..m];
      assert buf[..n - 1] == buf[..m] + buf[m..n - 1];
    }

    static method FindNewline(msg: Bytes, p: nat) returns (q: nat)
      requires p <= |msg|
      ensures p <= q <= |msg| && NEWLINE !in msg[p..q] && (q < |msg| ==> msg[q] == NEWLINE)
    {
      q := p;
      while q != |msg|
        invariant p <= q <= |msg| && NEWLINE !in msg[p..q]
        decreases |msg| - q
      {
        if msg[q] == NEWLINE {
          break;
        }
        q := q + 1;
      }
    }

    /** Pass on the text up to a newline, behind what was kept from earlier writes. */
    method EmitLine(msg: Bytes, p: nat, q: nat)
      requires Valid() && !expired && p <= q <= |msg| && |Residual()| + (q - p) < INT_MAX
      modifies this`s, this`l, Sink()`err
      ensures Valid() && Residual() == []
      ensures r.err == old(r.err) + [old(Residual()) + msg[p..q]]
    {
      if s != null {
        var m := l;
        var buf := Joined(s, m, msg, p, q);
        s, l := null, 0;
        Call(buf[..buf.Length - 1]);
      } else {
        var buf := Joined(null, 0, msg, p, q);
        Call(buf[..buf.Length - 1]);
      }
    }

    /** Keep text that has no newline behind it yet. */
    method SaveRest(msg: Bytes, p: nat)
      requires Valid() && !expired && p <= |msg| && NEWLINE !in msg[p..] && |Residual()| + (|msg| - p) < INT_MAX
      modifies this`s, this`l
      ensures Valid() && Residual() == old(Residual()) + msg[p..]
    {
      if p != |msg| {
        ghost var rest := Residual() + msg[p..];
        var m := l;
        var buf := Joined(s, m, msg, p, |msg|);
        assert msg[p..|msg|] == msg[p..];
        assert buf[..buf.Length - 1] == rest;
        s, l := buf, buf.Length - 1;
      }
    }

    /** The length computations are those of int; a buffer and a message that fit one keep them exact. */
    method Queue(msg: Bytes)
      requires Valid() && !expired && |Residual()| + |msg| < INT_MAX
      modifies this`s, this`l, Sink()`err
      ensures Valid()
      ensures State() == Deliver(old(State()), LogEvent.Write(msg))
    {
      hide Lines;
      ghost var text := Residual() + msg;
      var p, e := 0, |msg|;
      var q := FindNewline(msg, p);
      assert msg[0..] == msg;
      while q != e
        invariant p <= q <= e && NEWLINE !in msg[p..q] && (q < e ==> msg[q] == NEWLINE)
        invariant Valid() && |Residual()| + (e - p) < INT_MAX
        invariant r.err + Lines(Residual() + msg[p..]) == old(r.err) + Lines(text)
        decreases e - p
      {
        LineStep(r.err, Residual(), msg, p, q);
        EmitLine(msg, p, q);
        p := q + 1;
        q := FindNewline(msg, p);
      }
      assert msg[p..q] == msg[p..];
      ghost var rest := Residual() + msg[p..];
      LinesOfOne(rest);
      SplitLast(old(r.err), Lines(text), r.err, rest);
      SaveRest(msg, p);
    }

    method Write(msg: Bytes) returns (reply: Reply)
      requires Valid() && (!expired ==> |Residual()| + |msg| < INT_MAX)
      modifies this`s, this`l, Sink()`err
      ensures Valid()
      ensures old(expired) ==> reply == Raised(RuntimeError) && unchanged(this)
      ensures !old(expired) ==> reply == Done && State() == Deliver(old(State()), LogEvent.Write(msg))
    {
      if expired {
        return Raised(RuntimeError);
      }
      Queue(msg);
      return Done;
    }

    method Flush() returns (reply: Reply)
      requires Valid()
      modifies this`s, this`l, Sink()`err
      ensures Valid()
      ensures old(expired) ==> reply == Raised(RuntimeError) && unchanged(this)
      ensures !old(expired) ==> reply == Done && State() == Deliver(old(State()), LogEvent.Flush)
    {
      if expired {
        return Raised(RuntimeError);
      }
      if s != null {
        Call(s[..l]);
        s := null;
        l := 0;
      }
      return Done;
    }

    /** Afterwards the object is cut off from the request for good. */
    method Close()
      requires Valid()
      modifies this, Sink()`err
      ensures Valid() && expired && r == null
      ensures old(expired) ==> unchanged(this)
      ensures !old(expired) ==> old(r).err == Deliver(old(State()), LogEvent.Close).records && Residual() == []
    {
      if !expired {
        var _ := Flush();
      }
      r := null;
      expired := true;
    }

    method Dealloc()
      requires Valid()
      modifies this`s, this`l, Sink()`err
      ensures Valid() && Residual() == []
      ensures r != null ==> r.err == LogLines.Dealloc(old(State())).records
    {
      if s != null {
        if !expired {
          Call(s[..l]);
        }
        s, l := null, 0;
      }
    }
  }
}
