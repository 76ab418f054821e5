/** util.cpp: the tokenizer behind status-line parsing. */
module Util {
  import opened ByteStrings

  function Repeat(c: byte, k: nat): (r: Bytes)
    ensures |r| == k && forall i :: 0 <= i < k ==> r[i] == c
  {
    seq(k, i => c)
  }

  function StripLeading(t: Bytes, c: byte): (r: Bytes)
    ensures |r| <= |t| && r == t[|t| - |r|..]
    ensures r != [] ==> r[0] != c
    ensures forall i :: 0 <= i < |t| - |r| ==> t[i] == c
  {
    if t != [] && t[0] == c then
      var r := StripLeading(t[1..], c);
      assert forall i :: 1 <= i < |t| - |r| ==> t[i] == t[1..][i - 1];
      r
    else t
  }

  /** The text before the first `stop`. */
  function Word(line: Bytes, stop: byte): Bytes {
    line[..IndexOf(line, stop)]
  }

  /** Where the caller's cursor stands afterwards: past the word and every `stop` that follows it. */
  function Rest(line: Bytes, stop: byte): Bytes {
    StripLeading(line[IndexOf(line, stop)..], stop)
  }

  /** A split of `line` into a word, `k` stops and a remainder, the stops taken greedily. */
  predicate SplitsAs(line: Bytes, stop: byte, word: Bytes, k: nat, rest: Bytes) {
    && line == word + Repeat(stop, k) + rest
    && stop !in word
    && (rest != [] ==> k > 0 && rest[0] != stop)
  }

  lemma StripLeadingRepeat(stop: byte, k: nat, rest: Bytes)
    requires rest != [] ==> rest[0] != stop
    ensures StripLeading(Repeat(stop, k) + rest, stop) == rest
  {
    var t := Repeat(stop, k) + rest;
    var r := StripLeading(t, stop);
    assert forall i :: 0 <= i < k ==> t[i] == stop;
    assert rest != [] ==> t[k] == rest[0];
    assert r != [] ==> r[0] == t[|t| - |r|];
    assert |r| == |rest|;
    assert t[|t| - |rest|..] == rest;
  }

  /** A line without a stop is one word. */
  lemma WholeWord(line: Bytes, stop: byte)
    requires stop !in line
    ensures SplitsAs(line, stop, line, 0, [])
  {
  }

  /** The word and the new cursor are the one and only greedy split of the line. */
  lemma GetWordSplits(line: Bytes, stop: byte, word: Bytes, rest: Bytes)
    ensures word == Word(line, stop) && rest == Rest(line, stop) <==>
            exists k: nat :: SplitsAs(line, stop, word, k, rest)
  {
    hide IndexOf, StripLeading;
    if word == Word(line, stop) && rest == Rest(line, stop) {
      var tail := line[|word|..];
      var k := |tail| - |rest|;
      assert tail[..k] == Repeat(stop, k);
      assert tail == tail[..k] + rest;
      assert SplitsAs(line, stop, word, k, rest);
    }
    if k: nat :| SplitsAs(line, stop, word, k, rest) {
      assert line[..|word|] == word;
      IndexOfIs(line, stop, |word|);
      assert line[|word|..] == Repeat(stop, k) + rest;
      StripLeadingRepeat(stop, k, rest);
    }
  }

  /** Repeated calls until the cursor reaches the terminator; each one moves it. */
  function Words(line: Bytes, stop: byte): seq<Bytes>
    decreases |line|
  {
    if line == [] then []
    else
      assert line[0] == stop ==> line[IndexOf(line, stop)..] == line;
      [Word(line, stop)] + Words(Rest(line, stop), stop)
  }

  /** `words` written out with `gaps[i]` stops after the i-th. */
  function Spread(words: seq<Bytes>, gaps: seq<nat>, stop: byte): Bytes
    requires |gaps| == |words|
  {
    if words == [] then []
    else words[0] + Repeat(stop, gaps[0]) + Spread(words[1..], gaps[1..], stop)
  }

  lemma SpreadStart(words: seq<Bytes>, gaps: seq<nat>, stop: byte)
    requires |gaps| == |words|
    requires words != [] ==> words[0] != [] && stop !in words[0]
    ensures words == [] <==> Spread(words, gaps, stop) == []
    ensures words != [] ==> Spread(words, gaps, stop)[0] == words[0][0] != stop
  {
    if words != [] {
      assert Spread(words, gaps, stop)[0] == words[0][0];
    }
  }

  lemma WordsStep(line: Bytes, stop: byte, word: Bytes, k: nat, rest: Bytes)
    requires line != [] && SplitsAs(line, stop, word, k, rest)
    ensures Words(line, stop) == [word] + Words(rest, stop)
  {
    GetWordSplits(line, stop, word, rest);
  }

  /** Iterating recovers any list of words, however many stops separate them. */
  lemma {:induction false} WordsOfSpread(words: seq<Bytes>, gaps: seq<nat>, stop: byte)
    requires |gaps| == |words|
    requires forall i :: 0 <= i < |words| ==> words[i] != [] && stop !in words[i]
    requires forall i :: 0 <= i < |words| - 1 ==> gaps[i] > 0
    ensures Words(Spread(words, gaps, stop), stop) == words
  {
    if words != [] {
      var line := Spread(words, gaps, stop);
      var rest := Spread(words[1..], gaps[1..], stop);
      WordsOfSpread(words[1..], gaps[1..], stop);
      SpreadStart(words[1..], gaps[1..], stop);
      SpreadStart(words, gaps, stop);
      WordsStep(line, stop, words[0], gaps[0], rest);
    }
  }

  /** A `const char *` that a callee may advance: what is left of the string it points into. */
  class Cursor {
    var text: Bytes

    constructor (text: Bytes)
      ensures this.text == text
    {
      this.text := text;
    }
  }

  /** `*pos`, where the byte after the last one is the terminator. */
  function At(text: Bytes, pos: nat): byte
    requires pos <= |text|
  {
    if pos < |text| then text[pos] else NUL
  }

  method GetWord(line: Cursor, stop: byte) returns (res: array<byte>)
    requires NUL !in line.text
    modifies line
    ensures fresh(res) && res[..] == Word(old(line.text), stop) + [NUL]
    ensures line.text == Rest(old(line.text), stop)
  {
    hide IndexOf, StripLeading;
    var text, pos := line.text, 0;
    while At(text, pos) != stop && At(text, pos) != NUL
      invariant pos <= |text| && stop !in text[..pos]
      decreases |text| - pos
    {
      pos := pos + 1;
    }
    IndexOfIs(text, stop, pos);
    var len := pos;
    res := new byte[len + 1];
    forall i | 0 <= i < len {
      res[i] := text[i];
    }
    res[len] := NUL;
    assert res[..len] == text[..len];

    if stop != NUL {
      while At(text, pos) == stop
        invariant len <= pos <= |text|
        invariant forall i :: len <= i < pos ==> text[i] == stop
        decreases |text| - pos
      {
        pos := pos + 1;
      }
    }
    assert text[len..] == Repeat(stop, pos - len) + text[pos..];
    StripLeadingRepeat(stop, pos - len, text[pos..]);
    line.text := text[pos..];
  }
}
