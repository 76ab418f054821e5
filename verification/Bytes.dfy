/** Byte strings as the C++ code sees them: buffers with a length, and strings that end at the first NUL. */
module ByteStrings {

  newtype byte = b: int | 0 <= b < 256

  type Bytes = seq<byte>

  const NUL: byte := 0
  const NEWLINE: byte := 10
  const CR: byte := 13
  const SPACE: byte := 32
  const COLON: byte := 58
  const EQUALS: byte := 61
  const CRLF: Bytes := [CR, NEWLINE]

  datatype Option<+T> = None | Some(value: T)

  /** The bytes of an ASCII literal. */
  function Ascii(s: string): (b: Bytes)
    ensures |b| == |s|
  {
    seq(|s|, i requires 0 <= i < |s| => (s[i] as int % 256) as byte)
  }

  /** Index of the first `c` in `b`, or |b|: what strchr and the hand-written scans look for. */
  function IndexOf(b: Bytes, c: byte): (i: nat)
    ensures i <= |b|
    ensures c !in b[..i]
    ensures i < |b| ==> b[i] == c
    ensures c in b <==> i < |b|
  {
    if b == [] then 0
    else if b[0] == c then 0
    else
      var i := 1 + IndexOf(b[1..], c);
      assert b[..i] == [b[0]] + b[1..][..i - 1];
      i
  }

  /** The only index that splits `b` at its first `c`. */
  lemma IndexOfIs(b: Bytes, c: byte, i: nat)
    requires i <= |b| && c !in b[..i] && (i < |b| ==> b[i] == c)
    ensures IndexOf(b, c) == i
  {
  }

  lemma IndexOfConcat(word: Bytes, c: byte, rest: Bytes)
    requires c !in word
    ensures IndexOf(word + [c] + rest, c) == |word|
  {
    var b := word + [c] + rest;
    assert b[..|word|] == word;
    IndexOfIs(b, c, |word|);
  }

  /** The part of a Python string that `PyString_AsString` shows to C code. */
  function CString(b: Bytes): (s: Bytes)
    ensures NUL !in s && s <= b
    ensures NUL !in b ==> s == b
  {
    b[..IndexOf(b, NUL)]
  }

  /** It is the text in front of the first NUL, or all of the string. */
  lemma CStringIs(b: Bytes, text: Bytes)
    ensures CString(b) == text <==> NUL !in text && (b == text || text + [NUL] <= b)
  {
    hide IndexOf;
    if NUL !in text && text + [NUL] <= b {
      assert b[..|text|] == text && b[|text|] == (text + [NUL])[|text|];
      IndexOfIs(b, NUL, |text|);
    }
  }

  function Concat(chunks: seq<Bytes>): Bytes {
    if chunks == [] then [] else chunks[0] + Concat(chunks[1..])
  }

  lemma {:induction false} ConcatAppend(a: seq<Bytes>, b: seq<Bytes>)
    ensures Concat(a + b) == Concat(a) + Concat(b)
  {
    if a == [] {
      assert a + b == b;
    } else {
      assert (a + b)[1..] == a[1..] + b;
      ConcatAppend(a[1..], b);
    }
  }

  lemma ConcatHead(x: Bytes, rest: seq<Bytes>)
    ensures Concat([x] + rest) == x + Concat(rest)
  {
    assert ([x] + rest)[1..] == rest;
  }

  lemma ConcatOne(x: Bytes)
    ensures Concat([x]) == x
  {
    assert Concat([x]) == x + Concat([x][1..]) == x;
  }

  lemma ConcatSnoc(a: seq<Bytes>, x: Bytes)
    ensures Concat(a + [x]) == Concat(a) + x
  {
    ConcatAppend(a, [x]);
    ConcatOne(x);
  }

  /** The bytes of `b` without any `c`, in order. */
  function Without(b: Bytes, c: byte): (r: Bytes)
    ensures c !in r
  {
    if b == [] then []
    else if b[0] == c then Without(b[1..], c)
    else [b[0]] + Without(b[1..], c)
  }

  lemma {:induction false} WithoutAppend(a: Bytes, b: Bytes, c: byte)
    ensures Without(a + b, c) == Without(a, c) + Without(b, c)
  {
    if a == [] {
      assert a + b == b;
    } else {
      assert (a + b)[1..] == a[1..] + b;
      WithoutAppend(a[1..], b, c);
    }
  }

  lemma {:induction false} WithoutNone(a: Bytes, c: byte)
    requires c !in a
    ensures Without(a, c) == a
  {
    if a != [] {
      WithoutNone(a[1..], c);
    }
  }

  /** Two extensions of a text are one. */
  lemma Extend(text: Bytes, a: Bytes, b: Bytes)
    ensures text + a + b == text + (a + b)
  {
  }

  /** Taking and dropping within a slice. */
  lemma SliceSlice(t: Bytes, at: nat, length: nat, n: nat)
    requires n <= length && at + length <= |t|
    ensures t[at..at + length][..n] == t[at..at + n] && t[at..at + length][n..] == t[at + n..at + length]
  {
  }

  function Min(a: int, b: int): int {
    if a <= b then a else b
  }
}
