/** wsgi_execute_script: one request from start to end, and what is left of it afterwards. */
module ScriptHost {
  import opened ByteStrings
  import opened CNumbers
  import opened Python
  import opened Streams
  import opened Response
  import opened ResponseRuns
  import opened Application
  import opened ModuleCache
  import opened Adapters
  import opened Logs
  import opened LogLines
  import opened Inputs
  import opened Environ
  import opened ErrorPages

  const DOCUMENT_ROOT := Ascii("DOCUMENT_ROOT")

  /** The first environment entry for a key. */
  function GetParam(env: seq<Bytes>, key: Bytes): Option<Bytes> {
    if env == [] then None
    else if Sets(env[0], key) then Some(TextOf(env[0]))
    else GetParam(env[1..], key)
  }

  /** The document root is known, and Python's sys module can be imported. */
  predicate Prepared(env: seq<Bytes>, hasSys: bool) {
    GetParam(env, DOCUMENT_ROOT).Some? && hasSys
  }

  /** A request is prepared exactly if some entry of its environment begins with `DOCUMENT_ROOT=`. */
  lemma PreparedExactly(env: seq<Bytes>, hasSys: bool)
    ensures Prepared(env, hasSys) <==> hasSys && exists i :: 0 <= i < |env| && Ascii("DOCUMENT_ROOT=") <= env[i]
  {
    ParamExactly(env, Ascii("DOCUMENT_ROOT"));
    assert Ascii("DOCUMENT_ROOT") + [EQUALS] == Ascii("DOCUMENT_ROOT=");
    hide GetParam;
  }

  lemma {:induction false} ParamExactly(env: seq<Bytes>, key: Bytes)
    requires EQUALS !in key
    ensures GetParam(env, key).Some? <==> exists i :: 0 <= i < |env| && key + [EQUALS] <= env[i]
  {
    if env != [] {
      SetsExactly(env[0], key);
      ParamExactly(env[1..], key);
      hide Sets, TextOf, GetParam;
      assert forall i :: 0 < i < |env| ==> env[i] == env[1..][i - 1];
    }
  }

  datatype Served = Served(sent: seq<Sent>, status: int)

  /** The response to a request whose script comes out as `script` and behaves as `app`. */
  function Serve(io: nat -> Io, prepared: bool, script: Option<Script>, app: App): Served {
    if !prepared || script.None? then Served(ERROR_PAGE, HTTP_INTERNAL_SERVER_ERROR)
    else if !script.value.hasApplication then Served(ERROR_PAGE, HTTP_NOT_FOUND)
    else
      var o := RunApp(io, FRESH, app);
      Served(o.state.sent, o.result)
  }

  /** All calls on the adapter during a request, those of the iterable's close method included. */
  function FullTrace(io: nat -> Io, app: App): seq<Event> {
    Trace(io, FRESH, app)
    + if app.Returns? && app.result.hasClose then Events(app.result.closing) else []
  }

  lemma FullTraceIsRun(io: nat -> Io, app: App)
    ensures RunApp(io, FRESH, app).state == Run(io, FRESH, FullTrace(io, app))
  {
    TraceIsRun(io, FRESH, app);
    var evs := Trace(io, FRESH, app);
    if app.Returns? && app.result.hasClose {
      RunAppend(io, FRESH, evs, Events(app.result.closing));
    }
    hide Run, Trace, Finish, Iterate, Events;
    assert evs + [] == evs;
  }

  /**
   * The client is sent the error page, with a status of 404 if all that is missing is the application and of 500
   * otherwise, or else what the reference reads off the application's calls: never both, and at most one response
   * head. The status of an application is 200 or 500, and 200 exactly if it returned and, by the end of the
   * iteration, had its headers sent or its first status refused.
   */
  lemma OneResponse(io: nat -> Io, prepared: bool, script: Option<Script>, app: App)
    ensures var s := Serve(io, prepared, script, app);
            if prepared && script.Some? && script.value.hasApplication then
              var evs := Trace(io, FRESH, app);
              && Shows(s.sent, Expected(FullTrace(io, app)))
              && s.status == if app.Returns? && (Expected(evs).Framed? || FirstRejected(evs)) then 200 else 500
            else
              s.sent == ERROR_PAGE && s.status == if prepared && script.Some? then 404 else 500
  {
    hide RunApp, Run, Expected, Shows, FullTrace, ERROR_PAGE, Trace, FirstRejected;
    FullTraceIsRun(io, app);
    WholeRun(io, FullTrace(io, app));
    ResultExactly(io, app);
  }

  method OutputError(r: Request)
    modifies r`sent
    ensures r.sent == old(r.sent) + ERROR_PAGE
  {
    r.PutStr(Ascii("HTTP/1.0 500 INTERNAL SERVER ERROR\r\n"));
    r.PutStr(Ascii("Content-type: text/html\r\n"));
    r.PutStr(Ascii("\r\n"));
    r.PutStr(Ascii("<html><body><h1>Internal error.</h1></body></html>\n"));
    var _ := r.FlushOut();
  }

  /** The objects an application may hold on to, once their request is over. */
  ghost predicate Retired(a: Adapter)
    reads a, a.input, a.log, a.log.s
  {
    && a.Valid() && a.r == null
    && a.input.Valid() && a.input.r == null
    && a.log.Valid() && a.log.expired
  }

  /** What the application writes to wsgi.errors while it runs; no adapter call depends on it. */
  method UseLog(log: Log, logged: seq<LogEvent>)
    requires log.Valid() && LogFits(log.State(), logged)
    modifies log, log.Sink()`err
    ensures log.Valid() && (log.r == old(log.r) || log.r == null)
    ensures var st := RunLog(old(log.State()), logged);
            && log.expired == !st.open && log.Residual() == st.residual
            && (old(log.r) != null ==> old(log.r).err == st.records)
  {
    var i := 0;
    ghost var r, st := log.r, log.State();
    assert logged[0..] == logged;
    while i < |logged|
      invariant 0 <= i <= |logged| && log.Valid() && (log.r == r || log.r == null)
      invariant RunLog(st, logged) ==
                RunLog(LogState(log.Residual(), !log.expired, if r == null then [] else r.err), logged[i..])
      invariant LogFits(LogState(log.Residual(), !log.expired, if r == null then [] else r.err), logged[i..])
    {
      hide Deliver;
      assert logged[i..][0] == logged[i] && logged[i..][1..] == logged[i + 1..];
      match logged[i] {
        case Write(msg) => var _ := log.Write(msg);
        case Flush => var _ := log.Flush();
        case Close => log.Close();
      }
      i := i + 1;
    }
  }

  /** Run the application, then wipe out all references to the request and flush the log. */
  method RunAdapter(r: Request, app: App, logged: seq<LogEvent>) returns (status: int, a: Adapter)
    requires r.sent == [] && AppFits(app) && AppSize(app) <= OFF_MAX
    requires LogFits(LogState([], true, r.err), logged)
    modifies r`sent, r`err
    ensures var o := RunApp(r.io, FRESH, app); r.sent == o.state.sent && status == o.result
    ensures fresh(a) && fresh(a.input) && fresh(a.log) && Retired(a)
    ensures r.err == Deliver(RunLog(LogState([], true, old(r.err)), logged), LogEvent.Close).records
  {
    hide RunApp, RunLog, LogFits, AppFits, AppSize;
    a := new Adapter(r);
    var closes;
    status, closes := a.Run(app);
    UseLog(a.log, logged);
    Retire(a);
  }

  /** Wipe out the references to the request; closing the log flushes it. */
  method Retire(a: Adapter)
    requires a.Valid() && a.input.Valid() && a.log.Valid()
    modifies a`r, a.input`r, a.log, a.log.Sink()`err
    ensures Retired(a)
    ensures a.log.State() == LogState(if old(a.log.expired) then old(a.log.Residual()) else [], false, [])
    ensures old(a.log.r) != null ==> old(a.log.r).err == Deliver(old(a.log.State()), LogEvent.Close).records
  {
    a.r := null;
    a.input.r := null;
    a.log.Close();
  }

  /** One request. `app` is what the script's application does this time, `logged` what it logs meanwhile. */
  method Execute(modules: Modules, r: Request, visit: Visit, load: Loader, name: Bytes -> Bytes, hasSys: bool, app: App,
                 logged: seq<LogEvent>)
    returns (status: int, adapter: Adapter?)
    requires r.sent == [] && AppFits(app) && AppSize(app) <= OFF_MAX
    requires LogFits(LogState([], true, r.err), logged)
    modifies modules, r`sent, r`err
    ensures var prepared, found := Prepared(r.env, hasSys), Find(load, name, old(modules.modules), visit);
            && Served(r.sent, status) == Serve(r.io, prepared, found.script, app)
            && modules.modules == (if prepared then found.cache else old(modules.modules))
            && (adapter != null <==> prepared && found.script.Some? && found.script.value.hasApplication)
    ensures adapter != null <==>
              && hasSys && (exists i :: 0 <= i < |r.env| && Ascii("DOCUMENT_ROOT=") <= r.env[i])
              && Find(load, name, old(modules.modules), visit).script.Some?
              && Find(load, name, old(modules.modules), visit).script.value.hasApplication
    ensures (forall i :: 0 <= i < |r.env| ==> !(Ascii("DOCUMENT_ROOT=") <= r.env[i])) ==>
              r.sent == ERROR_PAGE && status == 500 && modules.modules == old(modules.modules)
    ensures adapter != null ==> fresh(adapter) && fresh(adapter.input) && fresh(adapter.log) && Retired(adapter)
    ensures r.err == if adapter == null then old(r.err)
                     else Deliver(RunLog(LogState([], true, old(r.err)), logged), LogEvent.Close).records
  {
    hide RunApp, Find, GetParam, AppFits, AppSize, ERROR_PAGE, RunLog, LogFits, Deliver, Retired;
    adapter := null;
    PreparedExactly(r.env, hasSys);
    if GetParam(r.env, DOCUMENT_ROOT).None? {
      OutputError(r);
      return HTTP_INTERNAL_SERVER_ERROR, null;
    }
    if !hasSys {
      OutputError(r);
      return HTTP_INTERNAL_SERVER_ERROR, null;
    }
    var script := modules.Get(load, name, visit);
    status := HTTP_INTERNAL_SERVER_ERROR;
    if script.Some? {
      if script.value.hasApplication {
        status, adapter := RunAdapter(r, app, logged);
      } else {
        OutputError(r);
        status := HTTP_NOT_FOUND;
      }
    } else {
      OutputError(r);
    }
  }

  // A server process: one request after the other on the same module dictionary.

  /** A request as it arrives, and what its application does and logs this time. */
  datatype Arrival = Arrival(
    visit: Visit,
    env: seq<Bytes>,
    io: nat -> Io,
    hasSys: bool,
    app: App,
    logged: seq<LogEvent>)
  {
    predicate Ready() {
      Prepared(env, hasSys)
    }
  }

  /** The requests that get as far as looking for their module. */
  function Visits(arrivals: seq<Arrival>): seq<Visit> {
    if arrivals == [] then []
    else
      var last := arrivals[|arrivals| - 1];
      Visits(arrivals[..|arrivals| - 1]) + if last.Ready() then [last.visit] else []
  }

  /** The module that the last request of a history finds. */
  function ScriptFor(load: Loader, name: Bytes -> Bytes, arrivals: seq<Arrival>): Option<Script>
    requires arrivals != []
  {
    Find(load, name, CacheAfter(load, name, Visits(arrivals[..|arrivals| - 1])), arrivals[|arrivals| - 1].visit).script
  }

  /** The reference: every request that looks for its module gets what loading it at that moment gives. */
  predicate AllFresh(load: Loader, name: Bytes -> Bytes, arrivals: seq<Arrival>) {
    arrivals != [] ==>
      var last := arrivals[|arrivals| - 1];
      && AllFresh(load, name, arrivals[..|arrivals| - 1])
      && (last.Ready() ==> ScriptFor(load, name, arrivals) == Reload(load, last.visit))
  }

  lemma {:induction false} AllFreshIsCoherent(load: Loader, name: Bytes -> Bytes, arrivals: seq<Arrival>)
    ensures AllFresh(load, name, arrivals) <==> Coherent(load, name, Visits(arrivals))
  {
    if arrivals != [] {
      var before, last := arrivals[..|arrivals| - 1], arrivals[|arrivals| - 1];
      AllFreshIsCoherent(load, name, before);
      hide Find, CacheAfter, Reload, Prepared;
      if last.Ready() {
        var visits := Visits(before) + [last.visit];
        assert Visits(arrivals) == visits;
        assert visits[..|visits| - 1] == Visits(before) && visits[|visits| - 1] == last.visit;
      } else {
        assert Visits(arrivals) == Visits(before);
      }
    }
  }

  /**
   * Over every history of requests, those turned away before the lookup included, each gets its module as if nothing
   * had been cached, exactly when no lookup clashes with the one before it under its name.
   */
  lemma HistoryExactly(load: Loader, name: Bytes -> Bytes, arrivals: seq<Arrival>)
    ensures AllFresh(load, name, arrivals) <==> NoClash(load, name, Visits(arrivals))
  {
    AllFreshIsCoherent(load, name, arrivals);
    CoherentExactly(load, name, Visits(arrivals));
    hide AllFresh, Coherent, NoClash, Visits;
  }

  lemma {:induction false} FreshUpTo(load: Loader, name: Bytes -> Bytes, arrivals: seq<Arrival>, j: nat)
    requires AllFresh(load, name, arrivals) && j < |arrivals|
    ensures arrivals[j].Ready() ==> ScriptFor(load, name, arrivals[..j + 1]) == Reload(load, arrivals[j].visit)
  {
    var last := |arrivals| - 1;
    if j < last {
      FreshUpTo(load, name, arrivals[..last], j);
      assert arrivals[..last][..j + 1] == arrivals[..j + 1];
    } else {
      assert arrivals[..j + 1] == arrivals;
    }
    hide ScriptFor, Reload, AllFresh;
  }

  /** A server process from its start: what each request is served, and that caching shows in none of it. */
  method ServeAll(modules: Modules, arrivals: seq<Arrival>, load: Loader, name: Bytes -> Bytes)
    returns (served: seq<Served>)
    requires modules.modules == map[]
    requires forall i :: 0 <= i < |arrivals| ==>
               && AppFits(arrivals[i].app) && AppSize(arrivals[i].app) <= OFF_MAX
               && LogFits(LogState([], true, []), arrivals[i].logged)
    modifies modules
    ensures |served| == |arrivals|
    ensures forall i {:trigger served[i]} :: 0 <= i < |arrivals| ==>
              served[i] == Serve(arrivals[i].io, arrivals[i].Ready(),
                                 ScriptFor(load, name, arrivals[..i + 1]), arrivals[i].app)
    ensures NoClash(load, name, Visits(arrivals)) ==>
              forall i {:trigger served[i]} :: 0 <= i < |arrivals| ==>
                served[i] == Serve(arrivals[i].io, arrivals[i].Ready(),
                                   Reload(load, arrivals[i].visit), arrivals[i].app)
    ensures modules.modules == CacheAfter(load, name, Visits(arrivals))
  {
    hide AppFits, AppSize, LogFits, Find, Serve, Prepared, Reload, NoClash, CacheAfter, Visits, ScriptFor;
    served := [];
    var i := 0;
    NoVisits(load, name, arrivals);
    while i < |arrivals|
      invariant 0 <= i <= |arrivals| && |served| == i
      invariant modules.modules == CacheAfter(load, name, Visits(arrivals[..i]))
      invariant forall j {:trigger served[j]} :: 0 <= j < i ==>
                  served[j] == Serve(arrivals[j].io, arrivals[j].Ready(),
                                     ScriptFor(load, name, arrivals[..j + 1]), arrivals[j].app)
    {
      var a := arrivals[i];
      NextVisit(load, name, arrivals, i);
      var r := new Request(a.io, a.env, []);
      var status, adapter := Execute(modules, r, a.visit, load, name, a.hasSys, a.app, a.logged);
      served := served + [Served(r.sent, status)];
      i := i + 1;
    }
    assert arrivals[..|arrivals|] == arrivals;
    if NoClash(load, name, Visits(arrivals)) {
      HistoryExactly(load, name, arrivals);
      hide AllFresh;
      forall j | 0 <= j < |arrivals|
        ensures served[j] == Serve(arrivals[j].io, arrivals[j].Ready(),
                                   Reload(load, arrivals[j].visit), arrivals[j].app)
      {
        FreshUpTo(load, name, arrivals, j);
        ServeNeedsModule(arrivals[j].io, ScriptFor(load, name, arrivals[..j + 1]), Reload(load, arrivals[j].visit),
                         arrivals[j].app);
      }
    }
  }

  lemma NoVisits(load: Loader, name: Bytes -> Bytes, arrivals: seq<Arrival>)
    ensures CacheAfter(load, name, Visits(arrivals[..0])) == map[]
  {
  }

  lemma NextVisit(load: Loader, name: Bytes -> Bytes, arrivals: seq<Arrival>, i: nat)
    requires i < |arrivals|
    ensures var cache := CacheAfter(load, name, Visits(arrivals[..i]));
            var found := Find(load, name, cache, arrivals[i].visit);
            && ScriptFor(load, name, arrivals[..i + 1]) == found.script
            && CacheAfter(load, name, Visits(arrivals[..i + 1])) == if arrivals[i].Ready() then found.cache else cache
  {
    hide Find, Prepared;
    var next, visits := arrivals[..i + 1], Visits(arrivals[..i]);
    assert next[..|next| - 1] == arrivals[..i] && next[|next| - 1] == arrivals[i];
    var more := visits + [arrivals[i].visit];
    assert more[..|more| - 1] == visits && more[|more| - 1] == arrivals[i].visit;
    assert visits + [] == visits;
  }

  /** A request that is turned away is served the same whatever its module is. */
  lemma ServeNeedsModule(io: nat -> Io, a: Option<Script>, b: Option<Script>, app: App)
    ensures Serve(io, false, a, app) == Serve(io, false, b, app)
  {
    hide RunApp;
  }

  // What an application can still try on objects it kept.

  datatype LateCall =
    | LateStart(args: seq<PyObj>)
    | LateWrite(args: seq<PyObj>)
    | LateRead(size: int)
    | LateLogWrite(msg: Bytes)
    | LateLogFlush
    | LateLogClose
    | LateLogDealloc

  method UseLate(a: Adapter, call: LateCall)
    requires Retired(a)
    modifies a, a.input, a.log
    ensures Retired(a) && a.input == old(a.input) && a.log == old(a.log)
  {
    match call {
      case LateStart(args) => var reply := a.StartResponse(args); assert reply == Raised(RuntimeError);
      case LateWrite(args) => var reply := a.Write(args); assert reply == Raised(RuntimeError);
      case LateRead(size) => var reply := a.input.Read(size); assert reply == Failed(RuntimeError);
      case LateLogWrite(msg) => var reply := a.log.Write(msg); assert reply == Raised(RuntimeError);
      case LateLogFlush => var reply := a.log.Flush(); assert reply == Raised(RuntimeError);
      case LateLogClose => a.log.Close();
      case LateLogDealloc => a.log.Dealloc();
    }
  }

  /** However objects kept from a request are used, no stream of that request, or of any other, is touched again. */
  method UseAllLate(a: Adapter, calls: seq<LateCall>, r: Request)
    requires Retired(a)
    modifies a, a.input, a.log
    ensures Retired(a) && unchanged(r)
  {
    var i := 0;
    ghost var input, log := a.input, a.log;
    while i < |calls|
      invariant 0 <= i <= |calls| && Retired(a)
      invariant a.input == input && a.log == log
      invariant unchanged(r)
    {
      UseLate(a, calls[i]);
      i := i + 1;
    }
  }
}
