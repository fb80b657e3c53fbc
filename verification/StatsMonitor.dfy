/**
 `RequestStatsMonitor` as the mutable object it is, its dictionaries updated in
 place. Each method is proved to take the step of the machine in module
 `RequestStats`, so whatever holds of every run of the machine holds of the object.
 */
module StatsMonitor {
  import opened Basics
  import opened Windows
  import opened RequestStats

  class RequestStatsMonitor {
    const slidingWindowSize: real
    var nextHandle: nat
    var activeRequests: map<Handle, Active>
    var requestStartTime: map<Handle, real>
    var firstTokenTime: map<Handle, real>
    var inPrefillRequests: map<Url, int>
    var inDecodingRequests: map<Url, int>
    var finishedRequests: map<Url, int>
    var violations: nat
    var qpsMonitors: map<Url, Window>
    var ttftMonitors: map<Url, Window>
    var latencyMonitors: map<Url, Window>
    var swappedRequests: map<Url, int>
    var firstQueryTime: Option<real>
    var keyErrors: nat

    /** Every call made so far. */
    ghost var trace: seq<Event>

    /** The object is where the machine is after those calls. */
    ghost predicate Valid()
      reads this
    {
      View() == Run(INITIAL, slidingWindowSize, trace)
    }

    ghost function LedgerView(): Ledger
      reads this
    {
      Ledger(nextHandle, activeRequests, requestStartTime, firstTokenTime,
             inPrefillRequests, inDecodingRequests, finishedRequests, violations)
    }

    ghost function MetricsView(): Metrics
      reads this
    {
      Metrics(qpsMonitors, ttftMonitors, latencyMonitors, swappedRequests, firstQueryTime, keyErrors)
    }

    ghost function View(): State
      reads this
    {
      State(LedgerView(), MetricsView())
    }

    constructor (slidingWindowSize: real)
      ensures Valid() && this.slidingWindowSize == slidingWindowSize && trace == []
    {
      this.slidingWindowSize := slidingWindowSize;
      nextHandle := 0;
      activeRequests, requestStartTime, firstTokenTime := map[], map[], map[];
      inPrefillRequests, inDecodingRequests, finishedRequests, swappedRequests := map[], map[], map[], map[];
      qpsMonitors, ttftMonitors, latencyMonitors := map[], map[], map[];
      firstQueryTime := None;
      violations, keyErrors := 0, 0;
      trace := [];
    }

    method Register(engine: Url, requestId: string, timestamp: real) returns (handle: Handle)
      modifies this`nextHandle, this`activeRequests, this`requestStartTime, this`inPrefillRequests
      ensures LedgerView() == Registered(old(LedgerView()), engine, requestId, timestamp)
      ensures handle == old(nextHandle) && nextHandle == handle + 1
    {
      handle := nextHandle;
      nextHandle := nextHandle + 1;
      activeRequests := activeRequests[handle := Active(Prefilling, engine, requestId, timestamp, None)];
      requestStartTime := requestStartTime[handle := timestamp];
      inPrefillRequests := inPrefillRequests[engine := Get(inPrefillRequests, engine) + 1];
    }

    method RecordArrival(engine: Url, timestamp: real)
      modifies this`qpsMonitors, this`latencyMonitors, this`firstQueryTime
      ensures MetricsView() == Arrived(old(MetricsView()), slidingWindowSize, engine, timestamp)
    {
      qpsMonitors := qpsMonitors[engine := Push(GetWindow(qpsMonitors, engine), slidingWindowSize, timestamp, 1.0)];
      latencyMonitors := latencyMonitors[engine := GetWindow(latencyMonitors, engine)];
      if firstQueryTime.None? {
        firstQueryTime := Some(timestamp);
      }
    }

    /** `on_new_request` */
    method OnNewRequest(engine: Url, requestId: string, timestamp: real) returns (handle: Handle)
      requires Valid()
      modifies this
      ensures Valid() && trace == old(trace) + [New(engine, requestId, timestamp)]
      ensures View() == Step(old(View()), slidingWindowSize, New(engine, requestId, timestamp))
      ensures handle == old(nextHandle) && nextHandle == handle + 1
    {
      hide Run, Registered, Arrived;
      handle := Register(engine, requestId, timestamp);
      RecordArrival(engine, timestamp);
      RunSnoc(slidingWindowSize, trace, New(engine, requestId, timestamp));
      trace := trace + [New(engine, requestId, timestamp)];
    }

    /** Move a prefilling record to decoding; returns the record it moved. */
    method Advance(handle: Handle, timestamp: real) returns (moved: Option<Active>)
      modifies this`activeRequests, this`firstTokenTime, this`inPrefillRequests, this`inDecodingRequests, this`violations
      ensures LedgerView() == Responded(old(LedgerView()), handle, timestamp)
      ensures moved.Some? <==> IsPrefilling(old(LedgerView()), handle)
                               && Get(old(inPrefillRequests), old(activeRequests)[handle].engine) > 0
      ensures moved.Some? ==> moved.value == old(activeRequests)[handle]
    {
      if handle !in activeRequests || activeRequests[handle].stage != Prefilling {
        return None;
      }
      var request := activeRequests[handle];
      var engine := request.engine;
      if Get(inPrefillRequests, engine) <= 0 {
        violations := violations + 1;
        return None;
      }
      activeRequests := activeRequests[handle := request.(stage := Decoding, firstToken := Some(timestamp))];
      firstTokenTime := firstTokenTime[handle := timestamp];
      inPrefillRequests := inPrefillRequests[engine := Get(inPrefillRequests, engine) - 1];
      inDecodingRequests := inDecodingRequests[engine := Get(inDecodingRequests, engine) + 1];
      return Some(request);
    }

    method RecordFirstToken(request: Active, timestamp: real)
      modifies this`ttftMonitors
      ensures MetricsView() == FirstToken(old(MetricsView()), slidingWindowSize, request, timestamp)
    {
      ttftMonitors := ttftMonitors[request.engine :=
        Push(GetWindow(ttftMonitors, request.engine), slidingWindowSize, timestamp, timestamp - request.start)];
    }

    /** `on_request_response` */
    method OnRequestResponse(handle: Handle, timestamp: real)
      requires Valid()
      modifies this
      ensures Valid() && trace == old(trace) + [Response(handle, timestamp)]
      ensures View() == Step(old(View()), slidingWindowSize, Response(handle, timestamp))
      ensures nextHandle == old(nextHandle)
    {
      hide Run, Push, Responded, FirstToken;
      var moved := Advance(handle, timestamp);
      if moved.Some? {
        RecordFirstToken(moved.value, timestamp);
      }
      RunSnoc(slidingWindowSize, trace, Response(handle, timestamp));
      trace := trace + [Response(handle, timestamp)];
    }

    /** Pop a record and its indexes, lower its stage count, and count a completion. */
    method Retire(handle: Handle, completed: bool) returns (request: Active)
      requires handle in activeRequests
      modifies this`activeRequests, this`requestStartTime, this`firstTokenTime,
               this`inPrefillRequests, this`inDecodingRequests, this`finishedRequests, this`violations
      ensures LedgerView() == Finalized(old(LedgerView()), handle, completed)
      ensures request == old(activeRequests)[handle]
    {
      request := activeRequests[handle];
      activeRequests := activeRequests - {handle};
      requestStartTime := requestStartTime - {handle};
      firstTokenTime := firstTokenTime - {handle};
      var engine := request.engine;
      var count := Get(if request.stage == Prefilling then inPrefillRequests else inDecodingRequests, engine);
      if count <= 0 {
        violations := violations + 1;
      } else if request.stage == Prefilling {
        inPrefillRequests := inPrefillRequests[engine := count - 1];
      } else {
        inDecodingRequests := inDecodingRequests[engine := count - 1];
      }
      if completed {
        finishedRequests := finishedRequests[engine := Get(finishedRequests, engine) + 1];
      }
    }

    /** `_finalize_request`: the record is popped first, so a second call does nothing. */
    method FinalizeRequest(handle: Handle, timestamp: real, completed: bool)
      modifies this
      ensures LedgerView() == Finalized(old(LedgerView()), handle, completed)
      ensures MetricsView() == if completed && handle in old(activeRequests)
                               then Completed(old(MetricsView()), slidingWindowSize, old(activeRequests)[handle], timestamp)
                               else old(MetricsView())
      ensures trace == old(trace) && nextHandle == old(nextHandle)
    {
      hide Finalized, Push;
      if handle !in activeRequests {
        UnknownHandle(LedgerView(), handle, completed);
        return;
      }
      var request := Retire(handle, completed);
      if !completed {
        return;
      }
      if request.engine in latencyMonitors {
        latencyMonitors := latencyMonitors[request.engine :=
          Push(latencyMonitors[request.engine], slidingWindowSize, timestamp, timestamp - request.start)];
      } else {
        keyErrors := keyErrors + 1;
      }
    }

    /** `on_request_complete` */
    method OnRequestComplete(handle: Handle, timestamp: real)
      requires Valid()
      modifies this
      ensures Valid() && trace == old(trace) + [Complete(handle, timestamp)]
      ensures View() == Step(old(View()), slidingWindowSize, Complete(handle, timestamp))
      ensures nextHandle == old(nextHandle)
    {
      hide Run, Finalized, Completed;
      FinalizeRequest(handle, timestamp, true);
      RunSnoc(slidingWindowSize, trace, Complete(handle, timestamp));
      trace := trace + [Complete(handle, timestamp)];
    }

    /** `on_request_fail` */
    method OnRequestFail(handle: Handle, timestamp: real)
      requires Valid()
      modifies this
      ensures Valid() && trace == old(trace) + [Fail(handle, timestamp)]
      ensures View() == Step(old(View()), slidingWindowSize, Fail(handle, timestamp))
      ensures nextHandle == old(nextHandle)
    {
      hide Run, Finalized, Completed;
      FinalizeRequest(handle, timestamp, false);
      RunSnoc(slidingWindowSize, trace, Fail(handle, timestamp));
      trace := trace + [Fail(handle, timestamp)];
    }

    /** `on_request_abort` */
    method OnRequestAbort(handle: Handle, timestamp: real)
      requires Valid()
      modifies this
      ensures Valid() && trace == old(trace) + [Abort(handle, timestamp)]
      ensures View() == Step(old(View()), slidingWindowSize, Abort(handle, timestamp))
      ensures nextHandle == old(nextHandle)
    {
      hide Run, Finalized, Completed;
      FinalizeRequest(handle, timestamp, false);
      RunSnoc(slidingWindowSize, trace, Abort(handle, timestamp));
      trace := trace + [Abort(handle, timestamp)];
    }

    /** `on_request_swapped` */
    method OnRequestSwapped(engine: Url, requestId: string, timestamp: real)
      requires Valid()
      modifies this
      ensures Valid() && trace == old(trace) + [Swapped(engine, requestId, timestamp)]
      ensures View() == Step(old(View()), slidingWindowSize, Swapped(engine, requestId, timestamp))
    {
      hide Run;
      swappedRequests := swappedRequests[engine := Get(swappedRequests, engine) + 1];
      RunSnoc(slidingWindowSize, trace, Swapped(engine, requestId, timestamp));
      trace := trace + [Swapped(engine, requestId, timestamp)];
    }

    method ReadEngine(u: Url, now: real) returns (stats: Stats)
      requires slidingWindowSize != 0.0
      modifies this`qpsMonitors, this`ttftMonitors
      ensures MetricsView() == ReadAt(old(MetricsView()), u, now - slidingWindowSize)
      ensures LedgerView() == old(LedgerView())
      ensures stats == EngineStats(old(LedgerView()), old(MetricsView()), slidingWindowSize, now, u)
    {
      var rate, wait := -1.0, -1.0;
      if u in qpsMonitors {
        qpsMonitors := qpsMonitors[u := Prune(qpsMonitors[u], now - slidingWindowSize)];
        rate := Sum(qpsMonitors[u]) / slidingWindowSize;
      }
      if u in ttftMonitors {
        ttftMonitors := ttftMonitors[u := Prune(ttftMonitors[u], now - slidingWindowSize)];
        wait := Average(ttftMonitors[u]);
      }
      var uptime := if firstQueryTime.Some? && firstQueryTime.value != 0.0 then now - firstQueryTime.value else 0.0;
      var took := if u in latencyMonitors then Average(latencyMonitors[u]) else -1.0;
      stats := Stats(rate, wait, Get(inPrefillRequests, u), Get(inDecodingRequests, u),
                     Get(finishedRequests, u), uptime, -1.0, took, -1.0, Get(swappedRequests, u));
    }

    /** One engine's turn in `_get_request_stats_locked`, after the engines in `done`. */
    method ReadNext(u: Url, now: real, ghost first: Metrics, ghost done: set<Url>) returns (stats: Stats)
      requires slidingWindowSize != 0.0 && u !in done
      requires MetricsView() == ReadOut(first, done, now - slidingWindowSize)
      modifies this`qpsMonitors, this`ttftMonitors
      ensures MetricsView() == ReadOut(first, done + {u}, now - slidingWindowSize)
      ensures LedgerView() == old(LedgerView())
      ensures stats == EngineStats(old(LedgerView()), first, slidingWindowSize, now, u)
    {
      hide *;
      ReadOneMore(first, done, u, now - slidingWindowSize);
      ReadUnaffected(LedgerView(), first, done, u, slidingWindowSize, now);
      stats := ReadEngine(u, now);
    }

    /** The loop of `_get_request_stats_locked`; the engines come in no particular order. */
    method ReadAll(urls: set<Url>, now: real) returns (report: map<Url, Stats>)
      requires slidingWindowSize != 0.0
      modifies this`qpsMonitors, this`ttftMonitors
      ensures report.Keys == urls
      ensures forall u :: u in report ==>
                report[u] == EngineStats(old(LedgerView()), old(MetricsView()), slidingWindowSize, now, u)
      ensures LedgerView() == old(LedgerView())
      ensures MetricsView() == ReadOut(old(MetricsView()), urls, now - slidingWindowSize)
    {
      hide *;
      ghost var ledger, first, done := LedgerView(), MetricsView(), {};
      var todo := urls;
      report := map[];
      ReadNone(first, now - slidingWindowSize);
      while todo != {}
        invariant done + todo == urls && done !! todo && report.Keys == done
        invariant LedgerView() == ledger && MetricsView() == ReadOut(first, done, now - slidingWindowSize)
        invariant forall u :: u in report ==> report[u] == EngineStats(ledger, first, slidingWindowSize, now, u)
        decreases todo
      {
        var u :| u in todo;
        var stats := ReadNext(u, now, first, done);
        report, todo, done := report[u := stats], todo - {u}, done + {u};
      }
    }

    /** `get_request_stats` */
    method GetRequestStats(now: real) returns (report: map<Url, Stats>)
      requires Valid() && slidingWindowSize != 0.0
      modifies this`qpsMonitors, this`ttftMonitors, this`trace
      ensures Valid() && trace == old(trace) + [Read(now)]
      ensures report == Report(old(View()), slidingWindowSize, now)
      ensures View() == Step(old(View()), slidingWindowSize, Read(now))
    {
      hide EngineStats, ReadOut, Run;
      var urls := inPrefillRequests.Keys + inDecodingRequests.Keys;
      report := ReadAll(urls, now);
      RunSnoc(slidingWindowSize, trace, Read(now));
      trace := trace + [Read(now)];
    }
  }

  lemma RunSnoc(size: real, trace: seq<Event>, e: Event)
    ensures Run(INITIAL, size, trace + [e]) == Step(Run(INITIAL, size, trace), size, e)
  {
    assert (trace + [e])[..|trace|] == trace;
  }

  lemma UnknownHandle(l: Ledger, h: Handle, completed: bool)
    requires h !in l.active
    ensures Finalized(l, h, completed) == l
  {
  }

  function PruneAt(m: map<Url, Window>, u: Url, cutoff: real): map<Url, Window> {
    if u in m then m[u := Prune(m[u], cutoff)] else m
  }

  function ReadAt(m: Metrics, u: Url, cutoff: real): Metrics {
    m.(qps := PruneAt(m.qps, u, cutoff), ttft := PruneAt(m.ttft, u, cutoff))
  }

  lemma ReadNone(m: Metrics, cutoff: real)
    ensures ReadOut(m, {}, cutoff) == m
  {
    assert PruneAll(m.qps, {}, cutoff) == m.qps && PruneAll(m.ttft, {}, cutoff) == m.ttft;
  }

  /** Pruning other engines' windows does not show in what this engine reports. */
  lemma ReadUnaffected(l: Ledger, m: Metrics, done: set<Url>, u: Url, size: real, now: real)
    requires size != 0.0 && u !in done
    ensures EngineStats(l, ReadOut(m, done, now - size), size, now, u) == EngineStats(l, m, size, now, u)
  {
    PruneOneMore(m.qps, done, u, now - size);
    PruneOneMore(m.ttft, done, u, now - size);
  }

  lemma ReadOneMore(m: Metrics, done: set<Url>, u: Url, cutoff: real)
    requires u !in done
    ensures ReadAt(ReadOut(m, done, cutoff), u, cutoff) == ReadOut(m, done + {u}, cutoff)
  {
    PruneOneMore(m.qps, done, u, cutoff);
    PruneOneMore(m.ttft, done, u, cutoff);
  }

  lemma PruneOneMore(m: map<Url, Window>, done: set<Url>, u: Url, cutoff: real)
    requires u !in done
    ensures u in m ==> PruneAll(m, done, cutoff)[u] == m[u]
    ensures PruneAll(m, done + {u}, cutoff) == PruneAt(PruneAll(m, done, cutoff), u, cutoff)
  {
  }
}
