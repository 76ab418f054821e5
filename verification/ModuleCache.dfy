/** Which module a request runs: a cache by hashed path, checked against the script's modification time. */
module ModuleCache {
  import opened ByteStrings

  datatype Script = Script(id: nat, hasApplication: bool)

  /** A module in sys.modules with its `__mtime__`, which only modules stored by this code have. */
  datatype Entry = Entry(script: Script, mtime: Option<int>)

  type Cache = map<Bytes, Entry>

  datatype File = File(text: Bytes, mtime: int)

  /** A request for a script, and the files as they are at that moment. */
  datatype Visit = Visit(disk: map<Bytes, File>, path: Bytes)

  /** What parsing, compiling and executing a source text comes to. */
  type Loader = Bytes -> Option<Script>

  // Names.

  function HexDigit(n: int): byte
    requires 0 <= n < 16
  {
    if n < 10 then (48 + n) as byte else (55 + n) as byte
  }

  /** The digits are those that sprintf prints for `%X`. */
  lemma HexDigits(n: int)
    requires 0 <= n < 16
    ensures HexDigit(n) == Ascii("0123456789ABCDEF")[n]
  {
  }

  function Hex(digest: Bytes): (t: Bytes)
    ensures |t| == 2 * |digest|
  {
    if digest == [] then []
    else [HexDigit(digest[0] as int / 16), HexDigit(digest[0] as int % 16)] + Hex(digest[1..])
  }

  const NAME_PREFIX := Ascii("_mod_wsgi_")

  function ModuleName(digest: Bytes): Bytes {
    NAME_PREFIX + Hex(digest)
  }

  lemma {:induction false} HexInjective(a: Bytes, b: Bytes)
    requires |a| == |b| && Hex(a) == Hex(b)
    ensures a == b
  {
    if a != [] {
      assert Hex(a)[0] == Hex(b)[0] && Hex(a)[1] == Hex(b)[1];
      assert a[0] == b[0];
      assert Hex(a)[2..] == Hex(a[1..]) && Hex(b)[2..] == Hex(b[1..]);
      HexInjective(a[1..], b[1..]);
      assert a == [a[0]] + a[1..] && b == [b[0]] + b[1..];
    }
  }

  /** Scripts share a module name only if their digests are the same. */
  lemma NameInjective(a: Bytes, b: Bytes)
    requires |a| == |b|
    ensures ModuleName(a) == ModuleName(b) <==> a == b
  {
    hide Hex;
    if ModuleName(a) == ModuleName(b) {
      assert ModuleName(a)[|NAME_PREFIX|..] == Hex(a) && ModuleName(b)[|NAME_PREFIX|..] == Hex(b);
      HexInjective(a, b);
    }
  }

  // The cache.

  datatype Found = Found(cache: Cache, script: Option<Script>)

  predicate Current(entry: Entry, visit: Visit) {
    entry.mtime.Some? && visit.path in visit.disk && entry.mtime.value == visit.disk[visit.path].mtime
  }

  /** One request: keep the cached module, or drop it and load the source. */
  function Find(load: Loader, name: Bytes -> Bytes, cache: Cache, visit: Visit): Found {
    var n := name(visit.path);
    if n in cache && Current(cache[n], visit) then Found(cache, Some(cache[n].script))
    else
      var dropped := cache - {n};
      match Reload(load, visit)
      case None => Found(dropped, None)
      case Some(script) => Found(dropped[n := Entry(script, Some(visit.disk[visit.path].mtime))], Some(script))
  }

  /** The reference: load the source every time. */
  function Reload(load: Loader, visit: Visit): (r: Option<Script>)
    ensures r.Some? ==> visit.path in visit.disk
  {
    if visit.path in visit.disk then load(visit.disk[visit.path].text) else None
  }

  // Histories of requests, with any edits to the files between them, from an empty cache.

  function CacheAfter(load: Loader, name: Bytes -> Bytes, visits: seq<Visit>): Cache {
    if visits == [] then map[]
    else Find(load, name, CacheAfter(load, name, visits[..|visits| - 1]), visits[|visits| - 1]).cache
  }

  /** What the last request of a history gets. */
  function Answer(load: Loader, name: Bytes -> Bytes, visits: seq<Visit>): Option<Script>
    requires visits != []
  {
    Find(load, name, CacheAfter(load, name, visits[..|visits| - 1]), visits[|visits| - 1]).script
  }

  /** Every request of the history gets what loading afresh would give. */
  predicate Coherent(load: Loader, name: Bytes -> Bytes, visits: seq<Visit>) {
    visits != [] ==>
      && Coherent(load, name, visits[..|visits| - 1])
      && Answer(load, name, visits) == Reload(load, visits[|visits| - 1])
  }

  function Latest(name: Bytes -> Bytes, visits: seq<Visit>, n: Bytes): Option<Visit> {
    if visits == [] then None
    else if name(visits[|visits| - 1].path) == n then Some(visits[|visits| - 1])
    else Latest(name, visits[..|visits| - 1], n)
  }

  /** The second request sees the modification time of the first, over a text that loads as something else. */
  predicate Clash(load: Loader, first: Visit, second: Visit) {
    && Reload(load, first).Some? && second.path in second.disk
    && first.disk[first.path].mtime == second.disk[second.path].mtime
    && Reload(load, first) != Reload(load, second)
  }

  /** No request clashes with the one before it under the same name. */
  predicate NoClash(load: Loader, name: Bytes -> Bytes, visits: seq<Visit>) {
    visits != [] ==>
      var before, visit := visits[..|visits| - 1], visits[|visits| - 1];
      && NoClash(load, name, before)
      && var latest := Latest(name, before, name(visit.path));
         latest.Some? ==> !Clash(load, latest.value, visit)
  }

  /** While a history is coherent, an entry is what the latest request under that name loaded, if it loaded. */
  lemma {:induction false} CacheIsLatest(load: Loader, name: Bytes -> Bytes, visits: seq<Visit>, n: Bytes)
    requires Coherent(load, name, visits)
    ensures var cache, latest := CacheAfter(load, name, visits), Latest(name, visits, n);
            if latest.Some? && Reload(load, latest.value).Some? then
              var v := latest.value;
              n in cache && cache[n] == Entry(Reload(load, v).value, Some(v.disk[v.path].mtime))
            else n !in cache
  {
    if visits != [] {
      CacheIsLatest(load, name, visits[..|visits| - 1], n);
    }
  }

  /** The cache agrees with always loading afresh exactly on the histories without a clash. */
  lemma {:induction false} CoherentExactly(load: Loader, name: Bytes -> Bytes, visits: seq<Visit>)
    ensures Coherent(load, name, visits) <==> NoClash(load, name, visits)
  {
    if visits != [] {
      var before, visit := visits[..|visits| - 1], visits[|visits| - 1];
      CoherentExactly(load, name, before);
      if Coherent(load, name, before) {
        CacheIsLatest(load, name, before, name(visit.path));
        hide Latest, CacheAfter, Reload;
      }
    }
  }

  /** Distinct paths have distinct names, and a path's text never changes without its modification time. */
  ghost predicate Faithful(load: Loader, name: Bytes -> Bytes, visits: seq<Visit>) {
    forall i, j :: 0 <= i < |visits| && 0 <= j < |visits| && name(visits[i].path) == name(visits[j].path) ==>
      && visits[i].path == visits[j].path
      && var p := visits[i].path;
         (p in visits[i].disk && p in visits[j].disk && visits[i].disk[p].mtime == visits[j].disk[p].mtime ==>
            visits[i].disk[p].text == visits[j].disk[p].text)
  }

  lemma {:induction false} LatestIsAVisit(name: Bytes -> Bytes, visits: seq<Visit>, n: Bytes) returns (i: nat)
    requires Latest(name, visits, n).Some?
    ensures i < |visits| && visits[i] == Latest(name, visits, n).value && name(visits[i].path) == n
  {
    i := |visits| - 1;
    if name(visits[i].path) != n {
      i := LatestIsAVisit(name, visits[..|visits| - 1], n);
    }
  }

  /** The usual assumptions on file systems and digests are enough. */
  lemma {:induction false} FaithfulIsCoherent(load: Loader, name: Bytes -> Bytes, visits: seq<Visit>)
    requires Faithful(load, name, visits)
    ensures Coherent(load, name, visits)
  {
    FaithfulHasNoClash(load, name, visits);
    CoherentExactly(load, name, visits);
  }

  lemma {:induction false} FaithfulHasNoClash(load: Loader, name: Bytes -> Bytes, visits: seq<Visit>)
    requires Faithful(load, name, visits)
    ensures NoClash(load, name, visits)
  {
    if visits != [] {
      var last := |visits| - 1;
      var before, visit := visits[..last], visits[last];
      assert forall i :: 0 <= i < last ==> before[i] == visits[i];
      FaithfulHasNoClash(load, name, before);
      var n := name(visit.path);
      if Latest(name, before, n).Some? {
        var i := LatestIsAVisit(name, before, n);
        assert visits[i] == before[i];
        hide Latest, NoClash;
        assert !Clash(load, visits[i], visits[last]);
      }
    }
  }

  /** An edit within the resolution of the modification time is not noticed: the old module is served. */
  lemma SameSecondEditServesOldModule(load: Loader, name: Bytes -> Bytes, path: Bytes, a: Bytes, b: Bytes, t: int)
    requires load(a).Some? && load(a) != load(b)
    ensures var first, second := Visit(map[path := File(a, t)], path), Visit(map[path := File(b, t)], path);
            Answer(load, name, [first, second]) == load(a) != Reload(load, second)
  {
    var first, second := Visit(map[path := File(a, t)], path), Visit(map[path := File(b, t)], path);
    assert [first, second][..1] == [first] && [first][..0] == [];
    assert CacheAfter(load, name, [first]) == Find(load, name, map[], first).cache;
  }

  /** wsgi.cpp's module dictionary. */
  class Modules {
    var modules: Cache

    constructor ()
      ensures modules == map[]
    {
      modules := map[];
    }

    method ReloadRequired(entry: Entry, visit: Visit) returns (required: bool)
      ensures required <==> !Current(entry, visit)
    {
      match entry.mtime {
        case Some(mtime) =>
          if visit.path !in visit.disk {
            return true;
          } else if mtime != visit.disk[visit.path].mtime {
            return true;
          }
          return false;
        case None =>
          return true;
      }
    }

    /** Load a source file and store the module under its name; nothing is stored when that fails. */
    method LoadSource(load: Loader, n: Bytes, visit: Visit) returns (script: Option<Script>)
      modifies this
      ensures script == Reload(load, visit)
      ensures modules == if script.None? then old(modules)
                         else old(modules)[n := Entry(script.value, Some(visit.disk[visit.path].mtime))]
    {
      if visit.path !in visit.disk {
        return None;
      }
      script := load(visit.disk[visit.path].text);
      if script.Some? {
        modules := modules[n := Entry(script.value, Some(visit.disk[visit.path].mtime))];
      }
    }

    method Get(load: Loader, name: Bytes -> Bytes, visit: Visit) returns (script: Option<Script>)
      modifies this
      ensures Found(modules, script) == Find(load, name, old(modules), visit)
      ensures script.None? ==> name(visit.path) !in modules
    {
      var n := name(visit.path);
      script := None;
      if n in modules {
        script := Some(modules[n].script);
        var stale := ReloadRequired(modules[n], visit);
        if stale {
          script := None;
          modules := modules - {n};
        }
      } else {
        assert modules - {n} == modules;
      }
      if script.None? {
        script := LoadSource(load, n, visit);
      }
    }
  }

  /** The name of a module: the prefix, and a digit for each half of each byte. */
  lemma {:induction false} NameDigits(digest: Bytes, i: nat)
    requires i < |digest|
    ensures var name, digits := ModuleName(digest), Ascii("0123456789ABCDEF");
            && |name| == 10 + 2 * |digest| && name[..10] == Ascii("_mod_wsgi_")
            && name[10 + 2 * i] == digits[digest[i] as int / 16] && name[11 + 2 * i] == digits[digest[i] as int % 16]
  {
    HexAt(digest, i);
    HexDigits(digest[i] as int / 16);
    HexDigits(digest[i] as int % 16);
    hide Hex, HexDigit;
  }

  lemma {:induction false} HexAt(digest: Bytes, i: nat)
    requires i < |digest|
    ensures Hex(digest)[2 * i] == HexDigit(digest[i] as int / 16)
    ensures Hex(digest)[2 * i + 1] == HexDigit(digest[i] as int % 16)
  {
    hide HexDigit;
    if i > 0 {
      HexAt(digest[1..], i - 1);
    }
  }

  /** The name of a module: two hex digits for each byte of the digest, written into a block of 60. */
  method WriteName(digest: Bytes) returns (file: array<byte>)
    requires |digest| == 16
    ensures fresh(file) && file.Length == 60 && file[42] == NUL && file[..42] == ModuleName(digest)
  {
    file := new byte[60];
    PrintPrefix(file);
    var i := 0;
    assert digest[..0] == [];
    assert NAME_PREFIX + Hex([]) == NAME_PREFIX;
    hide Hex, HexDigit, NAME_PREFIX;
    while i < 16
      invariant 0 <= i <= 16 && file[..10 + 2 * i] == NAME_PREFIX + Hex(digest[..i]) && file[10 + 2 * i] == NUL
    {
      var p := 10 + i * 2;
      HexSnoc(digest[..i], digest[i]);
      assert digest[..i + 1] == digest[..i] + [digest[i]];
      PrintByte(file, p, digest[i]);
      i := i + 1;
    }
    assert digest[..16] == digest;
  }

  method PrintPrefix(file: array<byte>)
    requires 10 < file.Length
    modifies file
    ensures file[..10] == NAME_PREFIX && file[10] == NUL
  {
    forall i | 0 <= i < 10 {
      file[i] := NAME_PREFIX[i];
    }
    file[10] := NUL;
  }

  /** sprintf of one byte as two upper-case hex digits and a terminator. */
  method PrintByte(file: array<byte>, p: nat, b: byte)
    requires p + 2 < file.Length
    modifies file
    ensures file[..p + 2] == old(file[..p]) + [HexDigit(b as int / 16), HexDigit(b as int % 16)]
    ensures file[p + 2] == NUL
  {
    hide HexDigit;
    ghost var before := file[..p];
    file[p], file[p + 1] := HexDigit(b as int / 16), HexDigit(b as int % 16);
    file[p + 2] := NUL;
    assert file[..p] == before;
  }

  lemma {:induction false} HexSnoc(a: Bytes, b: byte)
    ensures Hex(a + [b]) == Hex(a) + [HexDigit(b as int / 16), HexDigit(b as int % 16)]
  {
    if a == [] {
      assert a + [b] == [b] && [b][1..] == [];
    } else {
      assert (a + [b])[1..] == a[1..] + [b];
      HexSnoc(a[1..], b);
    }
  }
}
