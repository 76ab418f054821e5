/** The WSGI environment dictionary: the CGI variables of the request, and the fixed entries over them. */
module Environ {
  import opened ByteStrings

  datatype EnvValue = Value(text: Bytes) | Version(major: int, minor: int) | Flag(on: bool) | ErrorLog | InputStream

  /** The entries the adapter itself puts in, the last ones to be stored. */
  const WSGI_KEYS: map<Bytes, EnvValue> := map[
    Ascii("wsgi.version") := Version(1, 1),
    Ascii("wsgi.multithread") := Flag(false),
    Ascii("wsgi.multiprocess") := Flag(true),
    Ascii("wsgi.run_once") := Flag(false),
    Ascii("wsgi.url_scheme") := Value(Ascii("http")),
    Ascii("wsgi.errors") := ErrorLog,
    Ascii("wsgi.input") := InputStream]

  /** A variable `key=value` is split at its first equals sign. */
  predicate Sets(entry: Bytes, key: Bytes) {
    EQUALS in entry && entry[..IndexOf(entry, EQUALS)] == key
  }

  function TextOf(entry: Bytes): Bytes
    requires EQUALS in entry
  {
    entry[IndexOf(entry, EQUALS) + 1..]
  }

  /** The last entry that sets the key, searched from the end. */
  function LastSetting(env: seq<Bytes>, key: Bytes): Option<Bytes> {
    if env == [] then None
    else if Sets(env[|env| - 1], key) then Some(TextOf(env[|env| - 1]))
    else LastSetting(env[..|env| - 1], key)
  }

  /** What a lookup in the finished dictionary gives. */
  function Lookup(env: seq<Bytes>, key: Bytes): Option<EnvValue> {
    if key in WSGI_KEYS then Some(WSGI_KEYS[key])
    else
      match LastSetting(env, key)
      case None => None
      case Some(text) => Some(Value(text))
  }

  function Get(vars: map<Bytes, EnvValue>, key: Bytes): Option<EnvValue> {
    if key in vars then Some(vars[key]) else None
  }

  /** `key=value` sets `key` to `value`, wherever else in the value equals signs occur. */
  lemma SetsKeyValue(key: Bytes, value: Bytes)
    requires EQUALS !in key
    ensures Sets(key + [EQUALS] + value, key) && TextOf(key + [EQUALS] + value) == value
  {
    var entry := key + [EQUALS] + value;
    hide IndexOf;
    IndexOfConcat(key, EQUALS, value);
    assert entry[|key|] == EQUALS && entry[..|key|] == key;
  }

  /** Only entries that begin with the key and an equals sign set it. */
  lemma SetsExactly(entry: Bytes, key: Bytes)
    ensures Sets(entry, key) <==> EQUALS !in key && key + [EQUALS] <= entry
    ensures Sets(entry, key) ==> entry == key + [EQUALS] + TextOf(entry)
  {
    hide IndexOf;
    if EQUALS !in key && key + [EQUALS] <= entry {
      var k := |key|;
      assert entry[..k] == key && entry[k] == (key + [EQUALS])[k];
      IndexOfIs(entry, EQUALS, k);
    }
  }

  /** The entry at `i` is the last one that sets the key, and sets it to `text`. */
  predicate SetLastAt(env: seq<Bytes>, key: Bytes, text: Bytes, i: nat) {
    && i < |env| && env[i] == key + [EQUALS] + text
    && forall j :: i < j < |env| ==> !(key + [EQUALS] <= env[j])
  }

  lemma {:induction false} LastSettingExactly(env: seq<Bytes>, key: Bytes, text: Bytes)
    requires EQUALS !in key
    ensures LastSetting(env, key) == Some(text) <==> exists i :: SetLastAt(env, key, text, i)
  {
    if env != [] {
      var k := |env| - 1;
      var last, before := env[k], env[..k];
      SetsExactly(last, key);
      LastSettingExactly(before, key, text);
      hide Sets, TextOf;
      if key + [EQUALS] <= last {
        assert last == key + [EQUALS] + text <==> TextOf(last) == text by {
          assert last[|key| + 1..] == TextOf(last);
        }
        assert last == key + [EQUALS] + text ==> SetLastAt(env, key, text, k);
      } else {
        forall i: nat
          ensures SetLastAt(env, key, text, i) <==> SetLastAt(before, key, text, i)
        {
          assert i < k ==> before[i] == env[i];
          assert key + [EQUALS] <= key + [EQUALS] + text;
        }
      }
    }
  }

  /** Every other key has the text of the last entry `key=text`, and is absent without one. */
  lemma LookupExactly(env: seq<Bytes>, key: Bytes, text: Bytes)
    requires key !in [Ascii("wsgi.version"), Ascii("wsgi.multithread"), Ascii("wsgi.multiprocess"),
                      Ascii("wsgi.run_once"), Ascii("wsgi.url_scheme"), Ascii("wsgi.errors"), Ascii("wsgi.input")]
    ensures Lookup(env, key) == Some(Value(text)) <==>
              EQUALS !in key && exists i :: SetLastAt(env, key, text, i)
    ensures Lookup(env, key).Some? ==> Lookup(env, key).value.Value?
  {
    hide Ascii, SetLastAt;
    if EQUALS !in key {
      LastSettingExactly(env, key, text);
    } else {
      NoKey(env, key);
    }
    hide LastSetting;
  }

  lemma {:induction false} NoKey(env: seq<Bytes>, key: Bytes)
    requires EQUALS in key
    ensures LastSetting(env, key).None?
  {
    if env != [] {
      SetsExactly(env[|env| - 1], key);
      NoKey(env[..|env| - 1], key);
    }
  }

  /** A later entry for a key replaces an earlier one; an entry for another key, or without '=', changes nothing. */
  lemma LastSettingSnoc(env: seq<Bytes>, entry: Bytes, key: Bytes)
    ensures LastSetting(env + [entry], key) == if Sets(entry, key) then Some(TextOf(entry)) else LastSetting(env, key)
  {
    hide Sets, TextOf;
    assert (env + [entry])[..|env|] == env;
  }

  /** The fixed entries, whatever the variables say. */
  lemma FixedEntries(env: seq<Bytes>)
    ensures Lookup(env, Ascii("wsgi.version")) == Some(Version(1, 1))
    ensures Lookup(env, Ascii("wsgi.multithread")) == Some(Flag(false))
    ensures Lookup(env, Ascii("wsgi.multiprocess")) == Some(Flag(true))
    ensures Lookup(env, Ascii("wsgi.run_once")) == Some(Flag(false))
    ensures Lookup(env, Ascii("wsgi.url_scheme")) == Some(Value(Ascii("http")))
    ensures Lookup(env, Ascii("wsgi.errors")) == Some(ErrorLog)
    ensures Lookup(env, Ascii("wsgi.input")) == Some(InputStream)
  {
    hide Ascii;
  }

  lemma NoSetting(env: seq<Bytes>)
    ensures forall key :: LastSetting(env[..0], key).None?
  {
  }

  method BuildEnviron(env: seq<Bytes>) returns (vars: map<Bytes, EnvValue>)
    ensures forall key :: Get(vars, key) == Lookup(env, key)
  {
    hide WSGI_KEYS, LastSetting, IndexOf;
    vars := map[];
    var i := 0;
    NoSetting(env);
    while i < |env|
      invariant 0 <= i <= |env|
      invariant forall key :: key in vars <==> LastSetting(env[..i], key).Some?
      invariant forall key :: key in vars ==> vars[key] == Value(LastSetting(env[..i], key).value)
    {
      ghost var before := vars;
      var entry := env[i];
      var sep := IndexOf(entry, EQUALS);
      if sep != |entry| {
        vars := vars[entry[..sep] := Value(entry[sep + 1..])];
      }
      assert env[..i + 1] == env[..i] + [entry];
      forall key
        ensures key in vars <==> LastSetting(env[..i + 1], key).Some?
        ensures key in vars ==> vars[key] == Value(LastSetting(env[..i + 1], key).value)
      {
        LastSettingSnoc(env[..i], entry, key);
        assert key in before <==> LastSetting(env[..i], key).Some?;
      }
      i := i + 1;
    }
    assert env[..|env|] == env;
    vars := StoreFixed(vars);
  }

  method StoreFixed(merged: map<Bytes, EnvValue>) returns (vars: map<Bytes, EnvValue>)
    ensures vars == merged + WSGI_KEYS
  {
    hide Ascii;
    vars := merged;
    vars := vars[Ascii("wsgi.version") := Version(1, 1)];
    vars := vars[Ascii("wsgi.multithread") := Flag(false)];
    vars := vars[Ascii("wsgi.multiprocess") := Flag(true)];
    vars := vars[Ascii("wsgi.run_once") := Flag(false)];
    vars := vars[Ascii("wsgi.url_scheme") := Value(Ascii("http"))];
    vars := vars[Ascii("wsgi.errors") := ErrorLog];
    vars := vars[Ascii("wsgi.input") := InputStream];
  }
}
