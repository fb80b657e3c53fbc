/**
 What `get_request_stats` reports, said without sliding windows: every figure is
 computed from the full list of calls. Reading early or often changes none of
 them, and they are the figures of the last window when each list is in time order.
 */
module StatsWindows {
  import opened Basics
  import opened Windows
  import opened RequestStats
  import opened StatsTheorems

  /** No call is stamped later than `now`; among themselves the stamps may come in any order. */
  ghost predicate Until(trace: seq<Event>, now: real) {
    forall i :: 0 <= i < |trace| ==> trace[i].time <= now
  }

  // ---- The full record of a run, as engine `u` sees it ----

  /** Every point ever recorded for one engine, none dropped. */
  datatype Log = Log(
    atts: seq<Attempt>,
    seen: bool,
    arrivals: Window,
    firstTokens: Window,
    completions: Window,
    swaps: nat,
    firstQuery: Option<real>)

  const EMPTY_LOG := Log([], false, [], [], [], 0, None)

  function NewArrival(e: Event, u: Url): Window {
    if e.New? && e.engine == u then [Point(e.time, 1.0)] else []
  }

  /** A response counts when its attempt was still prefilling. */
  function NewFirstToken(atts: seq<Attempt>, e: Event, u: Url): Window {
    if e.Response? && 0 <= e.handle < |atts| && atts[e.handle].engine == u && LifeOf(atts[e.handle].word) == Prefills
    then [Point(e.time, e.time - atts[e.handle].start)] else []
  }

  /** A completion counts when its attempt was still in flight. */
  function NewCompletion(atts: seq<Attempt>, e: Event, u: Url): Window {
    if e.Complete? && 0 <= e.handle < |atts| && atts[e.handle].engine == u && InFlight(LifeOf(atts[e.handle].word))
    then [Point(e.time, e.time - atts[e.handle].start)] else []
  }

  function Logged(log: Log, e: Event, u: Url): Log {
    if e.Read? then log
    else
      Log(Heard(log.atts, e),
          log.seen || (e.New? && e.engine == u),
          log.arrivals + NewArrival(e, u),
          log.firstTokens + NewFirstToken(log.atts, e, u),
          log.completions + NewCompletion(log.atts, e, u),
          log.swaps + (if e.Swapped? && e.engine == u then 1 else 0),
          if log.firstQuery.None? && e.New? then Some(e.time) else log.firstQuery)
  }

  function LogOf(trace: seq<Event>, u: Url): Log {
    if trace == [] then EMPTY_LOG else Logged(LogOf(trace[..|trace| - 1], u), trace[|trace| - 1], u)
  }

  lemma {:induction false} LogAttempts(trace: seq<Event>, u: Url)
    ensures LogOf(trace, u).atts == Attempts(trace)
  {
    if trace != [] {
      LogAttempts(trace[..|trace| - 1], u);
    }
  }

  /** The points of the window that ended with the last of them. */
  function LastWindow(points: Window, size: real): Window {
    if points == [] then [] else Since(points, points[|points| - 1].time - size)
  }

  /** The latency deque after all completions: no read touches it. */
  function LatencyHeld(points: Window, size: real): Window {
    if points == [] then []
    else
      var p := points[|points| - 1];
      Push(LatencyHeld(points[..|points| - 1], size), size, p.time, p.value)
  }

  /** A read's figures, given the points its two rates and its latency are taken over. */
  function StatsFrom(log: Log, arrivals: Window, firstTokens: Window, latencies: Window, size: real, now: real, u: Url): Stats
    requires size != 0.0
  {
    Stats(
      Sum(arrivals) / size,
      Average(firstTokens),
      Tally(log.atts, u, Prefills),
      Tally(log.atts, u, Decodes),
      Tally(log.atts, u, Finished),
      if log.firstQuery.Some? && log.firstQuery.value != 0.0 then now - log.firstQuery.value else 0.0,
      -1.0,
      Average(latencies),
      -1.0,
      log.swaps)
  }

  /** What the pruning loop makes of the full record, whatever order its points are in. */
  function PrunedStats(log: Log, size: real, now: real, u: Url): Stats
    requires size != 0.0
  {
    StatsFrom(log, Prune(log.arrivals, now - size), Prune(log.firstTokens, now - size),
              LatencyHeld(log.completions, size), size, now, u)
  }

  /** The figures of the last `size` seconds, and the latencies of the window that ended with the last completion. */
  function ExactStats(log: Log, size: real, now: real, u: Url): Stats
    requires size != 0.0
  {
    StatsFrom(log, Since(log.arrivals, now - size), Since(log.firstTokens, now - size),
              LastWindow(log.completions, size), size, now, u)
  }

  /** Each of the engine's lists is in time order; what other engines do is of no account. */
  ghost predicate InOrder(log: Log) {
    Ordered(log.arrivals) && Ordered(log.firstTokens) && Ordered(log.completions)
  }

  // ---- How one call moves a deque ----

  /** `added` is pushed, or nothing is and the deque may have been pruned by a read. */
  ghost predicate Moves(held: Window, held': Window, added: Window, size: real, time: real) {
    if added == [] then held' == held || held' == Prune(held, time - size)
    else |added| == 1 && added[0].time == time && held' == Push(held, size, time, added[0].value)
  }

  lemma MetricsMoves(s: State, atts: seq<Attempt>, size: real, e: Event, u: Url)
    requires LedgerOk(s.ledger) && RecordsFollow(s.ledger, atts)
    ensures var m, m' := s.metrics, Step(s, size, e).metrics;
            && Moves(GetWindow(m.qps, u), GetWindow(m'.qps, u), NewArrival(e, u), size, e.time)
            && Moves(GetWindow(m.ttft, u), GetWindow(m'.ttft, u), NewFirstToken(atts, e, u), size, e.time)
  {
    hide Push, Prune, LifeOf;
    if e.Response? {
      assert RecordAt(s.ledger.active, atts, e.handle);
      if IsPrefilling(s.ledger, e.handle) {
        StageCountPositive(s.ledger, e.handle);
      }
    }
  }

  /** The latency deque is pushed by completions and touched by nothing else. */
  ghost predicate Grows(held: Window, held': Window, added: Window, size: real, time: real) {
    if added == [] then held' == held
    else |added| == 1 && added[0].time == time && held' == Push(held, size, time, added[0].value)
  }

  lemma LatencyGrows(s: State, atts: seq<Attempt>, size: real, e: Event, u: Url)
    requires RecordsFollow(s.ledger, atts) && MonitorsReady(s)
    ensures Grows(GetWindow(s.metrics.latency, u), GetWindow(Step(s, size, e).metrics.latency, u),
                  NewCompletion(atts, e, u), size, e.time)
  {
    hide Push, Prune, LifeOf;
    if e.Complete? {
      assert RecordAt(s.ledger.active, atts, e.handle);
    }
  }

  // ---- The deques answer as the full lists would ----

  lemma MovesCover(held: Window, held': Window, full: Window, added: Window, size: real, time: real, now: real)
    requires Covers(held, full, now - size) && Moves(held, held', added, size, time) && time <= now
    ensures Covers(held', full + added, now - size)
  {
    if added == [] {
      CoversPrune(held, full, now - size, time - size);
      assert full + added == full;
    } else {
      CoversPush(held, full, now - size, size, time, added[0].value);
      assert added == [Point(time, added[0].value)];
    }
  }

  lemma LoggedAppends(log: Log, e: Event, u: Url)
    ensures Logged(log, e, u).arrivals == log.arrivals + NewArrival(e, u)
    ensures Logged(log, e, u).firstTokens == log.firstTokens + NewFirstToken(log.atts, e, u)
    ensures Logged(log, e, u).completions == log.completions + NewCompletion(log.atts, e, u)
  {
    assert e.Read? ==> log.arrivals + [] == log.arrivals && log.firstTokens + [] == log.firstTokens
                       && log.completions + [] == log.completions;
  }

  /** Whatever order the stamps come in, the deques answer a read after them all as the full lists would. */
  lemma {:induction false} DequesAnswer(size: real, trace: seq<Event>, now: real, u: Url)
    requires Until(trace, now)
    ensures var m, log := Run(INITIAL, size, trace).metrics, LogOf(trace, u);
            && Covers(GetWindow(m.qps, u), log.arrivals, now - size)
            && Covers(GetWindow(m.ttft, u), log.firstTokens, now - size)
  {
    if trace != [] {
      var before, e := trace[..|trace| - 1], trace[|trace| - 1];
      var s, log := Run(INITIAL, size, before), LogOf(before, u);
      DequesAnswer(size, before, now, u);
      LedgerFollowsAttempts(size, before);
      CountersNeverDrift(size, before);
      LogAttempts(before, u);
      MetricsMoves(s, log.atts, size, e, u);
      LoggedAppends(log, e, u);
      hide Covers, Step, LedgerOk, RecordsFollow, MonitorsReady, Moves, Logged;
      var m, m' := s.metrics, Step(s, size, e).metrics;
      MovesCover(GetWindow(m.qps, u), GetWindow(m'.qps, u), log.arrivals, NewArrival(e, u), size, e.time, now);
      MovesCover(GetWindow(m.ttft, u), GetWindow(m'.ttft, u), log.firstTokens,
                 NewFirstToken(log.atts, e, u), size, e.time, now);
    }
  }

  lemma GrowsLatency(held: Window, held': Window, points: Window, added: Window, size: real, time: real)
    requires held == LatencyHeld(points, size) && Grows(held, held', added, size, time)
    ensures held' == LatencyHeld(points + added, size)
  {
    if added == [] {
      assert points + added == points;
    } else {
      assert (points + added)[..|points|] == points;
    }
  }

  lemma {:induction false} LatencyDeque(size: real, trace: seq<Event>, u: Url)
    ensures GetWindow(Run(INITIAL, size, trace).metrics.latency, u) == LatencyHeld(LogOf(trace, u).completions, size)
  {
    if trace != [] {
      var before, e := trace[..|trace| - 1], trace[|trace| - 1];
      var s, log := Run(INITIAL, size, before), LogOf(before, u);
      LatencyDeque(size, before, u);
      LedgerFollowsAttempts(size, before);
      CountersNeverDrift(size, before);
      LogAttempts(before, u);
      LatencyGrows(s, log.atts, size, e, u);
      LoggedAppends(log, e, u);
      hide LatencyHeld, Step, LedgerOk, RecordsFollow, MonitorsReady, Grows, Logged;
      GrowsLatency(GetWindow(s.metrics.latency, u), GetWindow(Step(s, size, e).metrics.latency, u),
                   log.completions, NewCompletion(log.atts, e, u), size, e.time);
    }
  }

  // ---- The latency deque is the window that ended with the last completion ----

  lemma {:induction false} LatencyHeldIsLastWindow(points: Window, size: real)
    requires Ordered(points)
    ensures LatencyHeld(points, size) == LastWindow(points, size)
  {
    if points != [] {
      var before, p := points[..|points| - 1], points[|points| - 1];
      LatencyHeldIsLastWindow(before, size);
      LastWindowSince(before, size, p.time);
      LastWindowPush(LastWindow(before, size), before, p, size);
      assert points == before + [p];
    }
  }

  lemma LastWindowPush(held: Window, points: Window, p: Point, size: real)
    requires Ordered(held) && AtMost(held, p.time) && Ordered(points) && AtMost(points, p.time)
    requires Since(held, p.time - size) == Since(points, p.time - size)
    ensures Push(held, size, p.time, p.value) == LastWindow(points + [p], size)
  {
    hide Since, Prune;
    assert p == Point(p.time, p.value);
    PruneIsSince(held + [p], p.time - size);
    SinceAppend(held, [p], p.time - size);
    SinceAppend(points, [p], p.time - size);
  }

  lemma LastWindowSince(points: Window, size: real, time: real)
    requires Ordered(points) && AtMost(points, time)
    ensures Ordered(LastWindow(points, size)) && AtMost(LastWindow(points, size), time)
    ensures Since(LastWindow(points, size), time - size) == Since(points, time - size)
  {
    hide Since, Prune;
    if points != [] {
      var cutoff := points[|points| - 1].time - size;
      PruneIsSince(points, cutoff);
      PruneIsSuffix(points, cutoff);
      PruneThenSince(points, cutoff, time - size);
    }
  }

  lemma LatencyDequeExact(size: real, trace: seq<Event>, u: Url)
    requires Ordered(LogOf(trace, u).completions)
    ensures GetWindow(Run(INITIAL, size, trace).metrics.latency, u) == LastWindow(LogOf(trace, u).completions, size)
  {
    LatencyDeque(size, trace, u);
    LatencyHeldIsLastWindow(LogOf(trace, u).completions, size);
  }

  /** Every completion near enough to the last one is near enough to `now`. */
  ghost predicate LastWindowIsRecent(points: Window, size: real, now: real) {
    forall i :: 0 <= i < |points| && points[i].time >= points[|points| - 1].time - size ==> points[i].time >= now - size
  }

  /** The latencies averaged are those of the last `size` seconds exactly when that is so. */
  lemma LatencyRecentExactly(size: real, trace: seq<Event>, now: real, u: Url)
    requires Until(trace, now) && Ordered(LogOf(trace, u).completions)
    ensures var points := LogOf(trace, u).completions;
            GetWindow(Run(INITIAL, size, trace).metrics.latency, u) == Since(points, now - size)
            <==> LastWindowIsRecent(points, size, now)
  {
    hide LogOf, Run, LastWindow;
    LatencyDequeExact(size, trace, u);
    CompletionsUntil(trace, now, u);
    LastWindowRecentExactly(LogOf(trace, u).completions, size, now);
  }

  lemma LastWindowRecentExactly(points: Window, size: real, now: real)
    requires Ordered(points) && AtMost(points, now)
    ensures LastWindow(points, size) == Since(points, now - size) <==> LastWindowIsRecent(points, size, now)
  {
    hide Since, LastWindow, Ordered, AtMost;
    if LastWindowIsRecent(points, size, now) {
      forall p | p in LastWindow(points, size) ensures p.time >= now - size {
        LastWindowMember(points, size, p);
      }
      LastWindowSince(points, size, now);
      SinceAll(LastWindow(points, size), now - size);
    } else {
      var i :| 0 <= i < |points| && points[i].time >= points[|points| - 1].time - size && points[i].time < now - size;
      LastWindowMember(points, size, points[i]);
      SinceMember(points, now - size, points[i]);
    }
  }

  lemma LastWindowMember(points: Window, size: real, p: Point)
    ensures p in LastWindow(points, size) <==> p in points && p.time >= points[|points| - 1].time - size
  {
    hide Since;
    if points != [] {
      SinceMember(points, points[|points| - 1].time - size, p);
    }
  }

  lemma {:induction false} SinceMember(w: Window, cutoff: real, p: Point)
    ensures p in Since(w, cutoff) <==> p in w && p.time >= cutoff
  {
    if w != [] {
      SinceMember(w[1..], cutoff, p);
      assert w == [w[0]] + w[1..];
    }
  }

  lemma {:induction false} CompletionsUntil(trace: seq<Event>, now: real, u: Url)
    requires Until(trace, now)
    ensures AtMost(LogOf(trace, u).completions, now)
  {
    if trace != [] {
      var before, e := trace[..|trace| - 1], trace[|trace| - 1];
      CompletionsUntil(before, now, u);
      LoggedAppends(LogOf(before, u), e, u);
    }
  }

  // ---- The plain figures ----

  /** The engines a read reports on include every engine with a record. */
  ghost predicate RecordsKnown(l: Ledger) {
    forall h :: h in l.active ==> l.active[h].engine in l.prefill
  }

  predicate Gives(e: Event, u: Url) {
    e.New? && e.engine == u
  }

  lemma EnginesStep(l: Ledger, e: Event, u: Url)
    requires RecordsKnown(l)
    ensures RecordsKnown(LedgerStep(l, e))
    ensures u in Engines(LedgerStep(l, e)) <==> u in Engines(l) || Gives(e, u)
  {
  }

  lemma MetricsKeysStep(s: State, size: real, e: Event, u: Url)
    requires MonitorsReady(s)
    ensures var m, m' := s.metrics, Step(s, size, e).metrics;
            && (u in m'.qps <==> u in m.qps || Gives(e, u))
            && (u in m'.latency <==> u in m.latency || Gives(e, u))
            && Get(m'.swapped, u) == Get(m.swapped, u) + (if e.Swapped? && e.engine == u then 1 else 0)
            && m'.firstQuery == if m.firstQuery.None? && e.New? then Some(e.time) else m.firstQuery
  {
    hide Push, Prune;
  }

  /** An engine has its figures exactly when it was ever given a request. */
  ghost predicate FiguresMatch(s: State, log: Log, u: Url) {
    && (u in s.metrics.qps <==> log.seen)
    && (u in s.metrics.latency <==> log.seen)
    && (u in Engines(s.ledger) <==> log.seen)
    && Get(s.metrics.swapped, u) == log.swaps
    && s.metrics.firstQuery == log.firstQuery
  }

  lemma {:induction false} FiguresFollow(size: real, trace: seq<Event>, u: Url)
    ensures var s := Run(INITIAL, size, trace); RecordsKnown(s.ledger) && FiguresMatch(s, LogOf(trace, u), u)
  {
    if trace != [] {
      var before, e := trace[..|trace| - 1], trace[|trace| - 1];
      var s := Run(INITIAL, size, before);
      FiguresFollow(size, before, u);
      CountersNeverDrift(size, before);
      EnginesStep(s.ledger, e, u);
      MetricsKeysStep(s, size, e, u);
      hide RecordsKnown, LedgerOk, MonitorsReady, LedgerStep, MetricsStep, Engines,
           Heard, NewArrival, NewFirstToken, NewCompletion;
    }
  }

  // ---- What a read reports ----

  lemma EngineReadIsPruned(size: real, trace: seq<Event>, now: real, u: Url)
    requires size != 0.0 && Until(trace, now) && LogOf(trace, u).seen
    ensures var s := Run(INITIAL, size, trace);
            EngineStats(s.ledger, s.metrics, size, now, u) == PrunedStats(LogOf(trace, u), size, now, u)
  {
    hide *;
    var s, log := Run(INITIAL, size, trace), LogOf(trace, u);
    FiguresFollow(size, trace, u);
    CountsAt(size, trace, u);
    DequesAnswer(size, trace, now, u);
    CoversRead(GetWindow(s.metrics.qps, u), log.arrivals, now - size);
    CoversRead(GetWindow(s.metrics.ttft, u), log.firstTokens, now - size);
    LatencyDeque(size, trace, u);
    StatsAgree(s, log, size, now, u);
  }

  lemma CountsAt(size: real, trace: seq<Event>, u: Url)
    ensures CountsFollow(Run(INITIAL, size, trace).ledger, LogOf(trace, u).atts, u)
  {
    LedgerFollowsAttempts(size, trace);
    LogAttempts(trace, u);
  }

  lemma CoversRead(held: Window, full: Window, cutoff: real)
    requires Covers(held, full, cutoff)
    ensures Prune(held, cutoff) == Prune(full, cutoff)
  {
  }

  lemma StatsAgree(s: State, log: Log, size: real, now: real, u: Url)
    requires size != 0.0 && log.seen && FiguresMatch(s, log, u) && CountsFollow(s.ledger, log.atts, u)
    requires Prune(GetWindow(s.metrics.qps, u), now - size) == Prune(log.arrivals, now - size)
    requires Prune(GetWindow(s.metrics.ttft, u), now - size) == Prune(log.firstTokens, now - size)
    requires GetWindow(s.metrics.latency, u) == LatencyHeld(log.completions, size)
    ensures EngineStats(s.ledger, s.metrics, size, now, u) == PrunedStats(log, size, now, u)
  {
    hide LatencyHeld, Sum, Tally;
    assert u !in s.metrics.ttft ==> Average(Prune([], now - size)) == -1.0;
    hide Average, Prune;
  }

  /**
   A read after every call so far, however the calls were stamped, reports exactly the
   engines ever given a request, with the figures the pruning loop makes of the full lists.
   */
  lemma ReadIsPruned(size: real, trace: seq<Event>, now: real, u: Url)
    requires size != 0.0 && Until(trace, now)
    ensures var report := Report(Run(INITIAL, size, trace), size, now);
            && (u in report <==> LogOf(trace, u).seen)
            && (u in report ==> report[u] == PrunedStats(LogOf(trace, u), size, now, u))
  {
    FiguresFollow(size, trace, u);
    if LogOf(trace, u).seen {
      EngineReadIsPruned(size, trace, now, u);
    }
    hide EngineStats, PrunedStats, Run, LogOf;
  }

  /**
   If the engine's own calls were stamped in order, these are the arrivals and first
   tokens of the last `size` seconds, the latencies of the window that ended with the
   last completion, and the counts of attempts in each stage.
   */
  lemma ReadIsExact(size: real, trace: seq<Event>, now: real, u: Url)
    requires size != 0.0 && Until(trace, now) && InOrder(LogOf(trace, u))
    ensures var report := Report(Run(INITIAL, size, trace), size, now);
            && (u in report <==> LogOf(trace, u).seen)
            && (u in report ==> report[u] == ExactStats(LogOf(trace, u), size, now, u))
  {
    hide Report, Run, LogOf, PrunedStats, ExactStats, Until;
    ReadIsPruned(size, trace, now, u);
    PrunedIsExact(LogOf(trace, u), size, now, u);
  }

  lemma PrunedIsExact(log: Log, size: real, now: real, u: Url)
    requires size != 0.0 && InOrder(log)
    ensures PrunedStats(log, size, now, u) == ExactStats(log, size, now, u)
  {
    hide StatsFrom, Ordered, LastWindow, LatencyHeld;
    PruneIsSince(log.arrivals, now - size);
    PruneIsSince(log.firstTokens, now - size);
    LatencyHeldIsLastWindow(log.completions, size);
  }

  /**
   What the three figures of a read mean: the rate is a number of arrivals per second, and
   the two averages are means, or -1 over no points.
   */
  lemma ReadMeans(size: real, trace: seq<Event>, now: real, u: Url)
    requires size != 0.0 && Until(trace, now) && LogOf(trace, u).seen
    ensures var report, log := Report(Run(INITIAL, size, trace), size, now), LogOf(trace, u);
            var tokens, latencies := Prune(log.firstTokens, now - size), LatencyHeld(log.completions, size);
            && u in report
            && report[u].qps * size == |Prune(log.arrivals, now - size)| as real
            && (tokens == [] ==> report[u].ttft == -1.0)
            && (tokens != [] ==> report[u].ttft * |tokens| as real == Sum(tokens))
            && (latencies == [] ==> report[u].avgLatency == -1.0)
            && (latencies != [] ==> report[u].avgLatency * |latencies| as real == Sum(latencies))
  {
    hide *;
    var log := LogOf(trace, u);
    var arrivals := Prune(log.arrivals, now - size);
    ReadIsPruned(size, trace, now, u);
    ArrivalsAreOnes(trace, u);
    OnesStay(log.arrivals, now - size);
    SumOfOnes(arrivals);
    AverageIsMeanOf(Prune(log.firstTokens, now - size));
    AverageIsMeanOf(LatencyHeld(log.completions, size));
    PrunedFigures(log, size, now, u);
    Undivided(|arrivals| as real, size);
  }

  lemma PrunedFigures(log: Log, size: real, now: real, u: Url)
    requires size != 0.0
    ensures var stats := PrunedStats(log, size, now, u);
            && stats.qps == Sum(Prune(log.arrivals, now - size)) / size
            && stats.ttft == Average(Prune(log.firstTokens, now - size))
            && stats.avgLatency == Average(LatencyHeld(log.completions, size))
  {
    hide Prune, Sum, Average, LatencyHeld, Tally;
  }

  lemma Undivided(x: real, size: real)
    requires size != 0.0
    ensures x / size * size == x
  {
  }

  /** The uptime runs from the first request ever registered, unless that one was stamped 0. */
  lemma UptimeSinceFirstQuery(size: real, trace: seq<Event>, now: real, u: Url, i: nat)
    requires size != 0.0 && Until(trace, now) && LogOf(trace, u).seen
    requires i < |trace| && trace[i].New? && forall j :: 0 <= j < i ==> !trace[j].New?
    ensures var report, first := Report(Run(INITIAL, size, trace), size, now), trace[i].time;
            && u in report
            && (first != 0.0 ==> report[u].uptime == now - first)
            && (first == 0.0 ==> report[u].uptime == 0.0)
  {
    ReadIsPruned(size, trace, now, u);
    FirstQueryIs(trace, u, i);
    hide Report, Run, LogOf, Prune, Sum, LatencyHeld, Average, Tally, Until;
  }

  lemma {:induction false} FirstQueryIs(trace: seq<Event>, u: Url, i: nat)
    requires i < |trace| ==> trace[i].New?
    requires forall j :: 0 <= j < i && j < |trace| ==> !trace[j].New?
    ensures LogOf(trace, u).firstQuery == if i < |trace| then Some(trace[i].time) else None
  {
    if trace != [] {
      FirstQueryIs(trace[..|trace| - 1], u, i);
    }
  }

  /** A read drops what has aged from the front of the arrival and first-token deques, and leaves the rest alone. */
  lemma ReadPrunes(s: State, size: real, now: real, u: Url)
    ensures var s' := Step(s, size, Read(now));
            && s'.ledger == s.ledger && s'.metrics.latency == s.metrics.latency
            && s'.metrics.swapped == s.metrics.swapped && s'.metrics.firstQuery == s.metrics.firstQuery
            && (u in Engines(s.ledger) ==>
                  var arrivals, tokens := GetWindow(s'.metrics.qps, u), GetWindow(s'.metrics.ttft, u);
                  && (arrivals == [] || arrivals[0].time >= now - size)
                  && (tokens == [] || tokens[0].time >= now - size))
  {
    PruneHead(GetWindow(s.metrics.qps, u), now - size);
    PruneHead(GetWindow(s.metrics.ttft, u), now - size);
    hide Prune;
  }

  lemma AverageIsMeanOf(w: Window)
    ensures w == [] ==> Average(w) == -1.0
    ensures w != [] ==> Average(w) * |w| as real == Sum(w)
  {
    var lo, hi := Bounds(w);
    AverageIsMean(w, lo, hi);
  }

  lemma {:induction false} Bounds(w: Window) returns (lo: real, hi: real)
    ensures forall i :: 0 <= i < |w| ==> lo <= w[i].value <= hi
  {
    lo, hi := 0.0, 0.0;
    if w != [] {
      var x := w[|w| - 1].value;
      lo, hi := Bounds(w[..|w| - 1]);
      lo, hi := if x < lo then x else lo, if x > hi then x else hi;
    }
  }

  /** A clock that does not run backwards stamps everything in order. */
  lemma {:induction false} ForwardClockInOrder(trace: seq<Event>, u: Url)
    requires forall i, j :: 0 <= i <= j < |trace| ==> trace[i].time <= trace[j].time
    ensures InOrder(LogOf(trace, u))
    ensures forall now :: Until(trace, now) ==>
              var log := LogOf(trace, u); AtMost(log.arrivals, now) && AtMost(log.firstTokens, now) && AtMost(log.completions, now)
  {
    if trace != [] {
      var before, e := trace[..|trace| - 1], trace[|trace| - 1];
      ForwardClockInOrder(before, u);
      LoggedAppends(LogOf(before, u), e, u);
      assert Until(before, e.time);
      hide LogOf, NewCompletion, NewFirstToken;
    }
  }

  // ---- Exactly when the rate is right ----

  /** The rate a read at `now` over `size` seconds reports is that of the arrivals of those seconds. */
  ghost predicate RateIsExact(trace: seq<Event>, u: Url, size: real, now: real)
    requires size > 0.0
  {
    var report := Report(Run(INITIAL, size, trace), size, now);
    u in report && report[u].qps == Sum(Since(LogOf(trace, u).arrivals, now - size)) / size
  }

  lemma {:induction false} ArrivalsAreOnes(trace: seq<Event>, u: Url)
    ensures AllOnes(LogOf(trace, u).arrivals)
  {
    if trace != [] {
      ArrivalsAreOnes(trace[..|trace| - 1], u);
      LoggedAppends(LogOf(trace[..|trace| - 1], u), trace[|trace| - 1], u);
    }
  }

  lemma RateIsCount(size: real, trace: seq<Event>, now: real, u: Url)
    requires size > 0.0 && Until(trace, now) && LogOf(trace, u).seen
    ensures var points := LogOf(trace, u).arrivals;
            RateIsExact(trace, u, size, now) <==> |Prune(points, now - size)| == |Since(points, now - size)|
  {
    hide *;
    var points := LogOf(trace, u).arrivals;
    RateIsPruned(size, trace, now, u);
    ArrivalsAreOnes(trace, u);
    OnesStay(points, now - size);
    SumOfOnes(Prune(points, now - size));
    SumOfOnes(Since(points, now - size));
    SameQuotient(|Prune(points, now - size)| as real, |Since(points, now - size)| as real, size);
  }

  lemma RateIsPruned(size: real, trace: seq<Event>, now: real, u: Url)
    requires size > 0.0 && Until(trace, now) && LogOf(trace, u).seen
    ensures var points := LogOf(trace, u).arrivals;
            RateIsExact(trace, u, size, now) <==> Sum(Prune(points, now - size)) / size == Sum(Since(points, now - size)) / size
  {
    hide Report, Run, LogOf, Prune, Since, Sum, LatencyHeld, Average, Tally, Until;
    ReadIsPruned(size, trace, now, u);
  }

  lemma SameQuotient(a: real, b: real, size: real)
    requires size > 0.0
    ensures a / size == b / size <==> a == b
  {
    assert a / size * size == a && b / size * size == b;
  }

  /**
   For an engine that was ever given a request: every read over every window, after all
   calls, reports the right rate if and only if the engine's arrivals were stamped in order.
   */
  lemma RateExactExactly(trace: seq<Event>, u: Url)
    requires LogOf(trace, u).seen
    ensures (forall size: real, now: real :: size > 0.0 && Until(trace, now) ==> RateIsExact(trace, u, size, now))
            <==> Ordered(LogOf(trace, u).arrivals)
  {
    hide RateIsExact, LogOf;
    var points := LogOf(trace, u).arrivals;
    if Ordered(points) {
      forall size: real, now: real | size > 0.0 && Until(trace, now)
        ensures RateIsExact(trace, u, size, now)
      {
        RateIsCount(size, trace, now, u);
        PruneIsSince(points, now - size);
      }
    } else {
      var i, j :| 0 <= i <= j < |points| && points[i].time > points[j].time;
      UnorderedKeepsTooMany(points, i, j);
      var now := Later(trace, points[i].time);
      RateIsCount(now - points[i].time, trace, now, u);
      assert now - (now - points[i].time) == points[i].time;
    }
  }

  /** An arrival stamped later than one after it, and recent enough for a read to come while it is in the window. */
  ghost predicate HarmfulInversion(size: real, trace: seq<Event>, points: Window, i: int, j: int) {
    Inverted(points, i, j) && Until(trace, points[i].time + size)
  }

  /** The same for the one window a monitor has: an inversion that has left it does no harm. */
  lemma RateExactForWindow(size: real, trace: seq<Event>, u: Url)
    requires size > 0.0 && LogOf(trace, u).seen
    ensures (forall now: real :: Until(trace, now) ==> RateIsExact(trace, u, size, now))
            <==> !exists i, j :: HarmfulInversion(size, trace, LogOf(trace, u).arrivals, i, j)
  {
    hide RateIsExact, LogOf;
    var points := LogOf(trace, u).arrivals;
    if i, j :| HarmfulInversion(size, trace, points, i, j) {
      var now := points[i].time + size;
      UnorderedKeepsTooMany(points, i, j);
      RateIsCount(size, trace, now, u);
      assert now - size == points[i].time;
    } else {
      forall now: real | Until(trace, now) ensures RateIsExact(trace, u, size, now) {
        RateIsCount(size, trace, now, u);
        if Prune(points, now - size) != Since(points, now - size) {
          var i, j := MisreadIsHarmful(size, trace, points, now);
        }
      }
    }
  }

  lemma MisreadIsHarmful(size: real, trace: seq<Event>, points: Window, now: real) returns (i: int, j: int)
    requires Until(trace, now) && Prune(points, now - size) != Since(points, now - size)
    ensures HarmfulInversion(size, trace, points, i, j)
  {
    i, j := PruneOrInversion(points, now - size);
  }

  lemma {:induction false} Later(trace: seq<Event>, time: real) returns (now: real)
    ensures Until(trace, now) && now > time
  {
    if trace == [] {
      now := time + 1.0;
    } else {
      now := Later(trace[..|trace| - 1], time);
      if trace[|trace| - 1].time > now {
        now := trace[|trace| - 1].time;
      }
    }
  }

  /**
   The clock must not run backwards. After an arrival stamped 0.0 that follows one
   stamped 2.0, a read at 2.0 over one second still counts both: the older point
   stands behind the newer one, where the pruning loop does not look.
   */
  lemma BackwardClockMisreads(u: Url, id: string)
    ensures var trace := [New(u, id, 2.0), New(u, id, 0.0)];
            var report := Report(Run(INITIAL, 1.0, trace), 1.0, 2.0);
            && Until(trace, 2.0) && !Ordered(LogOf(trace, u).arrivals)
            && u in report && report[u].qps == 2.0 && ExactStats(LogOf(trace, u), 1.0, 2.0, u).qps == 1.0
  {
    var a, b := New(u, id, 2.0), New(u, id, 0.0);
    var trace := [a, b];
    assert trace[..1] == [a] && [a][..0] == [];
    TwoArrivals();
    hide Push, Since;
    assert Run(INITIAL, 1.0, [a]).metrics.qps[u] == [Point(2.0, 1.0)];
    assert Run(INITIAL, 1.0, trace).metrics.qps[u] == [Point(2.0, 1.0), Point(0.0, 1.0)];
    assert LogOf([a], u).arrivals == [Point(2.0, 1.0)];
    assert LogOf(trace, u).arrivals == [Point(2.0, 1.0), Point(0.0, 1.0)];
  }

  lemma TwoArrivals()
    ensures Push([], 1.0, 2.0, 1.0) == [Point(2.0, 1.0)]
    ensures var both := [Point(2.0, 1.0), Point(0.0, 1.0)];
            && Push([Point(2.0, 1.0)], 1.0, 0.0, 1.0) == both && Prune(both, 1.0) == both
            && Sum(both) == 2.0 && Since(both, 1.0) == [Point(2.0, 1.0)] && Sum([Point(2.0, 1.0)]) == 1.0
  {
    var both := [Point(2.0, 1.0), Point(0.0, 1.0)];
    assert both[1..] == [Point(0.0, 1.0)] && [Point(0.0, 1.0)][1..] == [];
    assert [] + [Point(2.0, 1.0)] == [Point(2.0, 1.0)];
    assert [Point(2.0, 1.0)] + [Point(0.0, 1.0)] == both;
    assert Since([Point(0.0, 1.0)], 1.0) == [];
    assert Sum([Point(0.0, 1.0)]) == 1.0;
  }

  /** A read long after the last completion still reports its latency, where the last second saw none. */
  lemma StaleLatency(u: Url, id: string)
    ensures var trace := [New(u, id, 0.0), Complete(0, 1.0)];
            var report := Report(Run(INITIAL, 1.0, trace), 1.0, 10.0);
            && Until(trace, 10.0) && u in report && report[u].avgLatency == 1.0
            && Average(Since(LogOf(trace, u).completions, 9.0)) == -1.0
  {
    var a, b := New(u, id, 0.0), Complete(0, 1.0);
    var trace, p := [a, b], Point(1.0, 1.0);
    assert trace[..1] == [a] && [a][..0] == [];
    OnePoint();
    ReadIsPruned(1.0, trace, 10.0, u);
    hide Report, Run, Average, Since, Push;
    assert Attempts([a]) == [Attempt(u, id, 0.0, None, [])];
    LogAttempts([a], u);
    assert LogOf([a], u).completions == [] && LogOf([a], u).seen;
    assert LogOf(trace, u).completions == [p];
    assert [p][..0] == [];
  }

  lemma OnePoint()
    ensures var p := Point(1.0, 1.0);
            Push([], 1.0, 1.0, 1.0) == [p] && Average([p]) == 1.0 && Since([p], 9.0) == [] && Average([]) == -1.0
  {
    assert [] + [Point(1.0, 1.0)] == [Point(1.0, 1.0)];
  }

  // ---- Reads are transparent ----

  function DropReads(trace: seq<Event>): seq<Event> {
    if trace == [] then []
    else
      var e := trace[|trace| - 1];
      DropReads(trace[..|trace| - 1]) + if e.Read? then [] else [e]
  }

  lemma {:induction false} DropReadsKeepsLog(trace: seq<Event>, u: Url)
    ensures LogOf(DropReads(trace), u) == LogOf(trace, u)
  {
    if trace != [] {
      var before, e := trace[..|trace| - 1], trace[|trace| - 1];
      DropReadsKeepsLog(before, u);
      var t := DropReads(trace);
      if e.Read? {
        assert t == DropReads(before);
      } else {
        assert t[..|t| - 1] == DropReads(before);
      }
    }
  }

  /** Extra reads anywhere in a run change nothing a read after them reports, however the calls were stamped. */
  lemma ReadsAreTransparent(size: real, left: seq<Event>, right: seq<Event>, now: real)
    requires size != 0.0 && Until(left, now) && Until(right, now)
    requires DropReads(left) == DropReads(right)
    ensures Report(Run(INITIAL, size, left), size, now) == Report(Run(INITIAL, size, right), size, now)
  {
    hide Report, PrunedStats, Run, LogOf, Until, DropReads;
    forall u
      ensures LogOf(left, u) == LogOf(right, u)
    {
      DropReadsKeepsLog(left, u);
      DropReadsKeepsLog(right, u);
    }
    var a, b := Report(Run(INITIAL, size, left), size, now), Report(Run(INITIAL, size, right), size, now);
    forall u
      ensures u in a <==> u in b
      ensures u in a ==> a[u] == b[u]
    {
      ReadIsPruned(size, left, now, u);
      ReadIsPruned(size, right, now, u);
    }
  }
}
