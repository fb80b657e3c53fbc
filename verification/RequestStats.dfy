/**
 `RequestStatsMonitor` as a state machine: one atomic step per call, since every
 public method holds the monitor's lock throughout. The branches that log an
 "invariant violated" error count in `violations`; reading a missing latency
 monitor, a KeyError in the source, counts in `keyErrors`.
 */
module RequestStats {
  import opened Basics
  import opened Windows

  type Handle = int

  datatype Stage = Prefilling | Decoding

  datatype Active = Active(stage: Stage, engine: Url, requestId: string, start: real, firstToken: Option<real>)

  /** Who is in flight, and how many: the part of the monitor that does not look at the clock. */
  datatype Ledger = Ledger(
    next: nat,
    active: map<Handle, Active>,
    startTimes: map<Handle, real>,
    firstTokens: map<Handle, real>,
    prefill: map<Url, int>,
    decoding: map<Url, int>,
    finished: map<Url, int>,
    violations: nat)

  /** The sliding windows and the remaining figures. */
  datatype Metrics = Metrics(
    qps: map<Url, Window>,
    ttft: map<Url, Window>,
    latency: map<Url, Window>,
    swapped: map<Url, int>,
    firstQuery: Option<real>,
    keyErrors: nat)

  datatype State = State(ledger: Ledger, metrics: Metrics)

  datatype Event =
    | New(engine: Url, requestId: string, time: real)
    | Response(handle: Handle, time: real)
    | Complete(handle: Handle, time: real)
    | Fail(handle: Handle, time: real)
    | Abort(handle: Handle, time: real)
    | Swapped(engine: Url, requestId: string, time: real)
    | Read(time: real)

  /** `dict.get(key, 0)` */
  function Get(m: map<Url, int>, u: Url): int {
    if u in m then m[u] else 0
  }

  function GetWindow(m: map<Url, Window>, u: Url): Window {
    if u in m then m[u] else []
  }

  const EMPTY_LEDGER := Ledger(0, map[], map[], map[], map[], map[], map[], 0)
  const EMPTY_METRICS := Metrics(map[], map[], map[], map[], None, 0)
  const INITIAL := State(EMPTY_LEDGER, EMPTY_METRICS)

  // ---- The ledger's part of each call ----

  function Registered(l: Ledger, engine: Url, requestId: string, time: real): Ledger {
    l.(next := l.next + 1,
       active := l.active[l.next := Active(Prefilling, engine, requestId, time, None)],
       startTimes := l.startTimes[l.next := time],
       prefill := l.prefill[engine := Get(l.prefill, engine) + 1])
  }

  predicate IsPrefilling(l: Ledger, h: Handle) {
    h in l.active && l.active[h].stage == Prefilling
  }

  function Responded(l: Ledger, h: Handle, time: real): Ledger {
    if !IsPrefilling(l, h) then l
    else
      var r := l.active[h];
      if Get(l.prefill, r.engine) <= 0 then l.(violations := l.violations + 1)
      else
        l.(active := l.active[h := r.(stage := Decoding, firstToken := Some(time))],
           firstTokens := l.firstTokens[h := time],
           prefill := l.prefill[r.engine := Get(l.prefill, r.engine) - 1],
           decoding := l.decoding[r.engine := Get(l.decoding, r.engine) + 1])
  }

  /** `_finalize_request`: pop the record and its indexes, lower its stage count, and count a completion. */
  function Finalized(l: Ledger, h: Handle, completed: bool): Ledger {
    if h !in l.active then l
    else
      var r := l.active[h];
      var popped := l.(active := l.active - {h}, startTimes := l.startTimes - {h}, firstTokens := l.firstTokens - {h},
                       finished := if completed then l.finished[r.engine := Get(l.finished, r.engine) + 1] else l.finished);
      var count := Get(if r.stage == Prefilling then l.prefill else l.decoding, r.engine);
      if count <= 0 then popped.(violations := l.violations + 1)
      else if r.stage == Prefilling then popped.(prefill := l.prefill[r.engine := count - 1])
      else popped.(decoding := l.decoding[r.engine := count - 1])
  }

  function LedgerStep(l: Ledger, e: Event): Ledger {
    match e
    case New(engine, id, time) => Registered(l, engine, id, time)
    case Response(h, time) => Responded(l, h, time)
    case Complete(h, _) => Finalized(l, h, true)
    case Fail(h, _) => Finalized(l, h, false)
    case Abort(h, _) => Finalized(l, h, false)
    case Swapped(_, _, _) => l
    case Read(_) => l
  }

  // ---- The metrics' part, given the ledger before the call ----

  function Arrived(m: Metrics, size: real, engine: Url, time: real): Metrics {
    m.(qps := m.qps[engine := Push(GetWindow(m.qps, engine), size, time, 1.0)],
       latency := m.latency[engine := GetWindow(m.latency, engine)],
       firstQuery := if m.firstQuery.None? then Some(time) else m.firstQuery)
  }

  function FirstToken(m: Metrics, size: real, r: Active, time: real): Metrics {
    m.(ttft := m.ttft[r.engine := Push(GetWindow(m.ttft, r.engine), size, time, time - r.start)])
  }

  function Completed(m: Metrics, size: real, r: Active, time: real): Metrics {
    if r.engine !in m.latency then m.(keyErrors := m.keyErrors + 1)
    else m.(latency := m.latency[r.engine := Push(m.latency[r.engine], size, time, time - r.start)])
  }

  /** The engines a read reports on. */
  function Engines(l: Ledger): set<Url> {
    l.prefill.Keys + l.decoding.Keys
  }

  function PruneAll(m: map<Url, Window>, urls: set<Url>, cutoff: real): map<Url, Window> {
    map u | u in m :: if u in urls then Prune(m[u], cutoff) else m[u]
  }

  /** A read prunes the arrival and first-token windows, and not the latency window. */
  function ReadOut(m: Metrics, urls: set<Url>, cutoff: real): Metrics {
    m.(qps := PruneAll(m.qps, urls, cutoff), ttft := PruneAll(m.ttft, urls, cutoff))
  }

  function MetricsStep(l: Ledger, m: Metrics, size: real, e: Event): Metrics {
    match e
    case New(engine, _, time) => Arrived(m, size, engine, time)
    case Response(h, time) =>
      if IsPrefilling(l, h) && Get(l.prefill, l.active[h].engine) > 0 then FirstToken(m, size, l.active[h], time) else m
    case Complete(h, time) => if h in l.active then Completed(m, size, l.active[h], time) else m
    case Fail(_, _) => m
    case Abort(_, _) => m
    case Swapped(engine, _, _) => m.(swapped := m.swapped[engine := Get(m.swapped, engine) + 1])
    case Read(now) => ReadOut(m, Engines(l), now - size)
  }

  function Step(s: State, size: real, e: Event): State {
    State(LedgerStep(s.ledger, e), MetricsStep(s.ledger, s.metrics, size, e))
  }

  function Run(s: State, size: real, trace: seq<Event>): State {
    if trace == [] then s
    else Step(Run(s, size, trace[..|trace| - 1]), size, trace[|trace| - 1])
  }

  // ---- What a read returns ----

  datatype Stats = Stats(
    qps: real,
    ttft: real,
    inPrefill: int,
    inDecoding: int,
    finished: int,
    uptime: real,
    avgDecodingLength: real,
    avgLatency: real,
    avgItl: real,
    swapped: int)

  /** `_get_request_stats_locked` for one engine; a first query at time 0 reads as none, as in the source. */
  function EngineStats(l: Ledger, m: Metrics, size: real, now: real, u: Url): Stats
    requires size != 0.0
  {
    Stats(
      if u in m.qps then Sum(Prune(m.qps[u], now - size)) / size else -1.0,
      if u in m.ttft then Average(Prune(m.ttft[u], now - size)) else -1.0,
      Get(l.prefill, u),
      Get(l.decoding, u),
      Get(l.finished, u),
      if m.firstQuery.Some? && m.firstQuery.value != 0.0 then now - m.firstQuery.value else 0.0,
      -1.0,
      if u in m.latency then Average(m.latency[u]) else -1.0,
      -1.0,
      Get(m.swapped, u))
  }

  function Report(s: State, size: real, now: real): map<Url, Stats>
    requires size != 0.0
  {
    map u | u in Engines(s.ledger) :: EngineStats(s.ledger, s.metrics, size, now, u)
  }
}
