/**
 `LoadAwareRouter`: cache benefit weighed against live load. The load is the
 statistics monitor's, so the balance theorem at the end is about runs of the
 monitor and the router together.
 */
module LoadAware {
  import opened Basics
  import opened Ordering
  import opened RequestStats
  import opened StatsTheorems

  // ---- The bridge from cache instances to engines ----

  type Instance = string

  datatype Link = Link(instance: Instance, url: Url)

  /** `instance_id_to_ip`, in the order its keys were first written. */
  type Bridge = seq<Link>

  ghost predicate DistinctInstances(b: Bridge) {
    forall i, j :: 0 <= i < j < |b| ==> b[i].instance != b[j].instance
  }

  /** Where an instance stands, or the end if it was never written. */
  function Position(b: Bridge, id: Instance): (i: nat)
    ensures i <= |b|
    ensures i < |b| ==> b[i].instance == id
    ensures forall j :: 0 <= j < i ==> b[j].instance != id
  {
    if b == [] then 0
    else if b[0].instance == id then 0
    else 1 + Position(b[1..], id)
  }

  /** Writing a key that is there already changes its value and keeps its place. */
  function Write(b: Bridge, id: Instance, url: Url): Bridge {
    var i := Position(b, id);
    if i < |b| then b[i := Link(id, url)] else b + [Link(id, url)]
  }

  /** The instance credited for an engine: the last one in the bridge that maps to it. */
  function InstanceFor(b: Bridge, url: Url): Option<Instance> {
    if b == [] then None
    else
      var last := b[|b| - 1];
      if last.url == url then Some(last.instance) else InstanceFor(b[..|b| - 1], url)
  }

  /** `matched_tokens_by_url(layout).get(url, 0)` */
  function MatchedTokens(b: Bridge, layout: map<Instance, int>, url: Url): int {
    match InstanceFor(b, url)
    case None => 0
    case Some(id) => if id in layout then layout[id] else 0
  }

  /** An engine is credited the match of the last-placed instance that maps to it, and none if no instance does. */
  lemma MatchedTokensExactly(b: Bridge, layout: map<Instance, int>, url: Url)
    ensures (forall i :: 0 <= i < |b| ==> b[i].url != url) ==> MatchedTokens(b, layout, url) == 0
    ensures forall i :: 0 <= i < |b| && b[i].url == url && (forall j :: i < j < |b| ==> b[j].url != url) ==>
              && (b[i].instance in layout ==> MatchedTokens(b, layout, url) == layout[b[i].instance])
              && (b[i].instance !in layout ==> MatchedTokens(b, layout, url) == 0)
  {
    InstanceForIsLast(b, url);
    if InstanceFor(b, url).Some? {
      var k :| 0 <= k < |b| && b[k] == Link(InstanceFor(b, url).value, url) && forall j :: k < j < |b| ==> b[j].url != url;
    }
  }

  lemma {:induction false} InstanceForIsLast(b: Bridge, url: Url)
    ensures InstanceFor(b, url).None? <==> forall i :: 0 <= i < |b| ==> b[i].url != url
    ensures InstanceFor(b, url).Some? ==>
              exists i :: 0 <= i < |b| && b[i] == Link(InstanceFor(b, url).value, url)
                          && forall j :: i < j < |b| ==> b[j].url != url
  {
    if b != [] && b[|b| - 1].url != url {
      var before := b[..|b| - 1];
      InstanceForIsLast(before, url);
      if InstanceFor(before, url).Some? {
        var i :| 0 <= i < |before| && before[i] == Link(InstanceFor(before, url).value, url)
                 && forall j :: i < j < |before| ==> before[j].url != url;
        assert b[i] == Link(InstanceFor(b, url).value, url);
      }
    }
  }

  /** No instance written after this one's place maps to the engine. */
  ghost predicate NoneAfter(b: Bridge, id: Instance, url: Url) {
    forall j :: Position(b, id) < j < |b| ==> b[j].url != url
  }

  /**
   The documentation says the last instance written for an engine is the one credited.
   That holds exactly when no instance placed later already maps to that engine.
   */
  lemma LastWrittenCreditedExactly(b: Bridge, id: Instance, url: Url)
    requires DistinctInstances(b)
    ensures InstanceFor(Write(b, id, url), url) == Some(id) <==> NoneAfter(b, id, url)
  {
    var i, b' := Position(b, id), Write(b, id, url);
    InstanceForIsLast(b', url);
    assert b'[i] == Link(id, url);
    var k :| 0 <= k < |b'| && b'[k] == Link(InstanceFor(b', url).value, url)
             && forall j :: k < j < |b'| ==> b'[j].url != url;
    assert k >= i;
    assert forall j :: i < j < |b| ==> b'[j] == b[j];
    if k > i {
      assert b[k] == b'[k] && b[k].instance != id;
    }
  }

  /** An engine's first instance answers again after its second was seen, and is not credited. */
  lemma RewrittenInstanceNotCredited()
    ensures var b := Write(Write(Write([], "a", "u"), "b", "u"), "a", "u");
            InstanceFor(b, "u") == Some("b")
  {
    var one := Write([], "a", "u");
    assert one == [Link("a", "u")];
    var two := Write(one, "b", "u");
    assert Position(one[1..], "b") == 0;
    assert two == [Link("a", "u"), Link("b", "u")];
    assert Write(two, "a", "u") == two;
  }

  // ---- Scores ----

  /** `load_penalty` */
  function Load(stats: map<Url, Stats>, url: Url): int {
    if url in stats then stats[url].inPrefill + stats[url].inDecoding else 0
  }

  function SumLoads(stats: map<Url, Stats>, urls: seq<Url>): int {
    if urls == [] then 0 else SumLoads(stats, urls[..|urls| - 1]) + Load(stats, urls[|urls| - 1])
  }

  /** The mean over the distinct engines: the source's dictionary of loads has one entry for each. */
  function MeanLoad(stats: map<Url, Stats>, endpoints: seq<Url>): real {
    var urls := Dedup(endpoints);
    if urls == [] then 0.0 else MeanOf(SumLoads(stats, urls), |urls|)
  }

  function MeanOf(total: int, n: nat): real
    requires n > 0
  {
    total as real / n as real
  }

  function Scale(mean: real): (s: real)
    ensures s >= 1.0 && s >= mean && (s == 1.0 || s == mean)
  {
    if mean > 1.0 then mean else 1.0
  }

  /** `relative_loads(...)[url]` */
  function RelativeLoad(stats: map<Url, Stats>, endpoints: seq<Url>, url: Url): real {
    var mean := MeanLoad(stats, endpoints);
    Quotient(Load(stats, url) as real - mean, Scale(mean))
  }

  function Quotient(a: real, s: real): real
    requires s > 0.0
  {
    a / s
  }

  /** The share of the prompt that is cached, at most 1. */
  function Benefit(matched: int, promptTokens: nat): real {
    var credited := if matched < promptTokens then matched else promptTokens;
    credited as real / (if promptTokens > 1 then promptTokens else 1) as real
  }

  /** What a request brings: its size, and how much of it each engine has cached. */
  datatype Ask = Ask(matched: map<Url, int>, promptTokens: nat)

  function BenefitOf(ask: Ask, url: Url): real {
    Benefit(if url in ask.matched then ask.matched[url] else 0, ask.promptTokens)
  }

  /** `score_endpoint` for one engine of the fleet. */
  function ScoreOf(beta: real, stats: map<Url, Stats>, endpoints: seq<Url>, ask: Ask, url: Url): real {
    BenefitOf(ask, url) - beta * RelativeLoad(stats, endpoints, url)
  }

  lemma QuotientDifference(a: real, b: real, s: real)
    requires s > 0.0
    ensures Quotient(a, s) - Quotient(b, s) == Quotient(a - b, s)
  {
  }

  lemma QuotientOrder(a: real, b: real, s: real)
    requires s > 0.0 && a <= b
    ensures Quotient(a, s) <= Quotient(b, s)
  {
    QuotientDifference(b, a, s);
    assert (b - a) / s >= 0.0;
  }

  /** A difference in load, weighted: what it costs in benefit. */
  function Weighted(beta: real, x: real, scale: real): real
    requires scale > 0.0
  {
    beta * Quotient(x, scale)
  }

  /** How far above another engine the choice may be: max(1, mean) / beta. */
  function Allowance(beta: real, mean: real): real
    requires beta > 0.0
  {
    Quotient(Scale(mean), beta)
  }

  /** Two engines compare by their difference in benefit against the weighted difference in load; the mean cancels. */
  lemma PairwiseOrder(beta: real, stats: map<Url, Stats>, endpoints: seq<Url>, ask: Ask, u: Url, v: Url)
    ensures ScoreOf(beta, stats, endpoints, ask, u) - ScoreOf(beta, stats, endpoints, ask, v)
            == BenefitOf(ask, u) - BenefitOf(ask, v)
               - Weighted(beta, (Load(stats, u) - Load(stats, v)) as real, Scale(MeanLoad(stats, endpoints)))
  {
    hide BenefitOf, Load, MeanLoad, Quotient;
    var mean := MeanLoad(stats, endpoints);
    var a, b := Load(stats, u) as real - mean, Load(stats, v) as real - mean;
    QuotientDifference(a, b, Scale(mean));
    assert a - b == (Load(stats, u) - Load(stats, v)) as real;
    Distribute(beta, Quotient(a, Scale(mean)), Quotient(b, Scale(mean)));
  }

  lemma Distribute(x: real, a: real, b: real)
    ensures x * a - x * b == x * (a - b)
  {
  }

  lemma BenefitRange(ask: Ask, url: Url)
    requires forall u :: u in ask.matched ==> ask.matched[u] >= 0
    ensures 0.0 <= BenefitOf(ask, url) <= 1.0
  {
    var matched := if url in ask.matched then ask.matched[url] else 0;
    var credited := if matched < ask.promptTokens then matched else ask.promptTokens;
    var whole := if ask.promptTokens > 1 then ask.promptTokens else 1;
    FractionRange(credited, whole);
  }

  lemma FractionRange(part: nat, whole: nat)
    requires part <= whole && whole > 0
    ensures 0.0 <= part as real / whole as real <= 1.0
  {
  }

  /** What counts of a match: no more than the prompt has. */
  function Credited(ask: Ask, url: Url): (c: int)
    ensures var m := if url in ask.matched then ask.matched[url] else 0;
            c <= m && c <= ask.promptTokens && (c == m || c == ask.promptTokens)
  {
    var m := if url in ask.matched then ask.matched[url] else 0;
    if m < ask.promptTokens then m else ask.promptTokens
  }

  function Whole(ask: Ask): (n: nat)
    ensures n >= 1 && (ask.promptTokens >= 1 ==> n == ask.promptTokens) && (ask.promptTokens == 0 ==> n == 1)
  {
    if ask.promptTokens > 1 then ask.promptTokens else 1
  }

  /** The benefit is the cached share of the prompt: 0 for no match, 1 for a full one, and more for more. */
  lemma BenefitIsShare(ask: Ask, url: Url)
    ensures BenefitOf(ask, url) * Whole(ask) as real == Credited(ask, url) as real
  {
    ShareOfWhole(Credited(ask, url), Whole(ask));
  }

  lemma ShareOfWhole(part: int, whole: nat)
    requires whole >= 1
    ensures part as real / whole as real * whole as real == part as real
  {
  }

  /**
   The order of two engines in raw figures: tokens credited, requests in flight, and the
   fleet's mean. One is at least as good as the other exactly when its lead in tokens,
   weighted by max(1, mean), is at least beta times its excess load, weighted by the prompt.
   */
  lemma PreferredExactly(beta: real, stats: map<Url, Stats>, endpoints: seq<Url>, ask: Ask, u: Url, v: Url)
    ensures ScoreOf(beta, stats, endpoints, ask, u) >= ScoreOf(beta, stats, endpoints, ask, v)
            <==> (Credited(ask, u) - Credited(ask, v)) as real * Scale(MeanLoad(stats, endpoints))
                 >= beta * (Load(stats, u) - Load(stats, v)) as real * Whole(ask) as real
  {
    hide BenefitOf, ScoreOf, Load, MeanLoad, Credited, Whole;
    PairwiseOrder(beta, stats, endpoints, ask, u, v);
    BenefitIsShare(ask, u);
    BenefitIsShare(ask, v);
    var n := Whole(ask) as real;
    WholePositive(ask);
    Distribute(n, BenefitOf(ask, u), BenefitOf(ask, v));
    ScaledSign(BenefitOf(ask, u) - BenefitOf(ask, v), beta, (Load(stats, u) - Load(stats, v)) as real,
               Scale(MeanLoad(stats, endpoints)), n);
  }

  lemma WholePositive(ask: Ask)
    ensures Whole(ask) >= 1
  {
  }

  lemma ScaledSign(benefit: real, beta: real, load: real, scale: real, n: real)
    requires scale >= 1.0 && n >= 1.0
    ensures benefit - Weighted(beta, load, scale) >= 0.0 <==> n * benefit * scale >= beta * load * n
  {
    var q := load / scale;
    assert q * scale == load;
    var x, k := benefit - beta * q, n * scale;
    assert k > 0.0;
    assert x * k == n * benefit * scale - beta * load * n by {
      assert beta * q * (n * scale) == beta * (q * scale) * n;
      assert benefit * (n * scale) == n * benefit * scale;
    }
    OrderTimes(0.0, x, k);
  }

  /** Under equal loads the choice has the largest match, as far as the prompt goes. */
  lemma EqualLoadsPickLargestMatch(beta: real, stats: map<Url, Stats>, endpoints: seq<Url>, ask: Ask, u: Url, v: Url)
    requires IsBest(beta, stats, endpoints, ask, u) && v in endpoints && Load(stats, u) == Load(stats, v)
    ensures Credited(ask, u) >= Credited(ask, v)
  {
    hide ScoreOf, Credited, Load, Whole, Leq;
    PreferredExactly(beta, stats, endpoints, ask, u, v);
    var lead, s := (Credited(ask, u) - Credited(ask, v)) as real, Scale(MeanLoad(stats, endpoints));
    assert beta * 0.0 * Whole(ask) as real == 0.0;
    OrderTimes(0.0, lead, s);
  }

  // ---- The fleet's relative loads balance out ----

  function SumRelative(stats: map<Url, Stats>, endpoints: seq<Url>, urls: seq<Url>): real {
    if urls == [] then 0.0
    else SumRelative(stats, endpoints, urls[..|urls| - 1]) + RelativeLoad(stats, endpoints, urls[|urls| - 1])
  }

  lemma {:induction false} SumRelativeIs(stats: map<Url, Stats>, endpoints: seq<Url>, urls: seq<Url>)
    ensures var mean := MeanLoad(stats, endpoints);
            SumRelative(stats, endpoints, urls)
            == Quotient(SumLoads(stats, urls) as real - Times(|urls|, mean), Scale(mean))
  {
    hide Load, MeanLoad, Quotient, Scale;
    var mean := MeanLoad(stats, endpoints);
    if urls == [] {
      QuotientDifference(0.0, 0.0, Scale(mean));
    } else {
      var before, last := urls[..|urls| - 1], urls[|urls| - 1];
      SumRelativeIs(stats, endpoints, before);
      var x := SumLoads(stats, before) as real - Times(|before|, mean);
      var y := Load(stats, last) as real - mean;
      QuotientDifference(x + y, y, Scale(mean));
    }
  }

  lemma MeanTimesCount(stats: map<Url, Stats>, endpoints: seq<Url>)
    ensures Times(|Dedup(endpoints)|, MeanLoad(stats, endpoints)) == SumLoads(stats, Dedup(endpoints)) as real
  {
    hide SumLoads, MeanOf, Times;
    var urls := Dedup(endpoints);
    TimesIsProduct(|urls|, MeanLoad(stats, endpoints));
    if urls == [] {
      SumLoadsNone(stats);
    } else {
      MeanOfTimes(SumLoads(stats, urls), |urls|);
    }
  }

  lemma SumLoadsNone(stats: map<Url, Stats>)
    ensures SumLoads(stats, []) == 0
  {
  }

  lemma MeanOfTimes(total: int, n: nat)
    requires n > 0
    ensures n as real * MeanOf(total, n) == total as real
  {
  }

  /** Over the fleet the relative loads sum to zero: only differences steer. */
  lemma RelativeLoadsSumToZero(stats: map<Url, Stats>, endpoints: seq<Url>)
    ensures SumRelative(stats, endpoints, Dedup(endpoints)) == 0.0
  {
    hide *;
    SumRelativeIs(stats, endpoints, Dedup(endpoints));
    MeanTimesCount(stats, endpoints);
    QuotientDifference(0.0, 0.0, Scale(MeanLoad(stats, endpoints)));
  }

  // ---- The selection is a canonical argmax ----

  /** An engine of highest score, and the first of those in URL order. */
  ghost predicate IsBest(beta: real, stats: map<Url, Stats>, endpoints: seq<Url>, ask: Ask, url: Url) {
    && url in endpoints
    && forall v :: v in endpoints ==>
         var mine, other := ScoreOf(beta, stats, endpoints, ask, url), ScoreOf(beta, stats, endpoints, ask, v);
         mine >= other && (mine == other ==> Leq(url, v))
  }

  lemma {:induction false} SumLoadsPermuted(stats: map<Url, Stats>, a: seq<Url>, b: seq<Url>)
    requires multiset(a) == multiset(b)
    ensures SumLoads(stats, a) == SumLoads(stats, b) && |a| == |b|
    decreases |a|
  {
    hide SumLoads;
    SameLength(a, b);
    if a == [] {
      assert b == a;
    } else {
      var j := PickOut(a, b);
      SumLoadsPermuted(stats, a[1..], b[..j] + b[j + 1..]);
      SumLoadsTakeOut(stats, a, 0);
      SumLoadsTakeOut(stats, b, j);
      assert a[..0] + a[1..] == a[1..];
    }
  }

  lemma {:induction false} SumLoadsTakeOut(stats: map<Url, Stats>, b: seq<Url>, j: nat)
    requires j < |b|
    ensures SumLoads(stats, b) == SumLoads(stats, b[..j] + b[j + 1..]) + Load(stats, b[j])
  {
    var n := |b| - 1;
    if j == n {
      assert b[..j] + b[j + 1..] == b[..n];
    } else {
      SumLoadsTakeOut(stats, b[..n], j);
      var rest := b[..j] + b[j + 1..];
      assert rest[..|rest| - 1] == b[..n][..j] + b[..n][j + 1..];
      assert rest[|rest| - 1] == b[n];
    }
  }

  /** The fleet's mean depends on which engines there are, not on how they are listed. */
  lemma MeanBySet(stats: map<Url, Stats>, a: seq<Url>, b: seq<Url>)
    requires forall x :: x in a <==> x in b
    ensures MeanLoad(stats, a) == MeanLoad(stats, b)
  {
    SameMembersSameDedup(a, b);
    SumLoadsPermuted(stats, Dedup(a), Dedup(b));
  }

  /** Listing the engines differently, or twice, does not change the answer, and there is only one. */
  lemma SelectionCanonical(beta: real, stats: map<Url, Stats>, a: seq<Url>, b: seq<Url>, ask: Ask, u: Url, v: Url)
    requires forall x :: x in a <==> x in b
    requires IsBest(beta, stats, a, ask, u) && IsBest(beta, stats, b, ask, v)
    ensures u == v
  {
    hide ScoreOf, Leq;
    ScoreBySet(beta, stats, a, b, ask, u);
    ScoreBySet(beta, stats, a, b, ask, v);
    assert v in a && u in b;
    LeqAntisymmetric(u, v);
  }

  lemma ScoreBySet(beta: real, stats: map<Url, Stats>, a: seq<Url>, b: seq<Url>, ask: Ask, u: Url)
    requires forall x :: x in a <==> x in b
    ensures ScoreOf(beta, stats, a, ask, u) == ScoreOf(beta, stats, b, ask, u)
  {
    hide MeanLoad, Load, BenefitOf;
    MeanBySet(stats, a, b);
  }

  // ---- How far above the least loaded engine the choice can be ----

  lemma BoundedByScale(beta: real, x: real, mean: real)
    requires beta > 0.0 && Weighted(beta, x, Scale(mean)) <= 1.0
    ensures x <= Allowance(beta, mean)
  {
    var s := Scale(mean);
    var q := x / s;
    assert x == q * s;
    TimesMonotone(beta * q, 1.0, s);
    assert x * beta == (beta * q) * s;
    DivideBoth(x, beta, s);
  }

  lemma TimesMonotone(a: real, b: real, s: real)
    requires a <= b && s >= 0.0
    ensures a * s <= b * s
  {
    assert (b - a) * s >= 0.0;
  }

  lemma DivideBoth(x: real, beta: real, s: real)
    requires beta > 0.0 && x * beta <= s
    ensures x <= s / beta
  {
    assert s / beta * beta == s;
  }

  /** For beta > 0 the chosen engine's load exceeds any other's by at most max(1, mean) / beta. */
  lemma ChosenNearLeast(beta: real, stats: map<Url, Stats>, endpoints: seq<Url>, ask: Ask, u: Url, v: Url)
    requires beta > 0.0 && IsBest(beta, stats, endpoints, ask, u) && v in endpoints
    requires forall w :: w in ask.matched ==> ask.matched[w] >= 0
    ensures Load(stats, u) as real <= Load(stats, v) as real + Allowance(beta, MeanLoad(stats, endpoints))
  {
    hide MeanLoad, Load, BenefitOf, ScoreOf, Weighted, Allowance;
    PairwiseOrder(beta, stats, endpoints, ask, u, v);
    BenefitRange(ask, u);
    BenefitRange(ask, v);
    BoundedByScale(beta, (Load(stats, u) - Load(stats, v)) as real, MeanLoad(stats, endpoints));
  }

  // ---- Balance over whole runs ----

  /** Nothing has ended yet: requests arrive, start to answer, and are looked at. */
  predicate StillOpen(e: Event) {
    !e.Complete? && !e.Fail? && !e.Abort?
  }

  function InFlightOn(l: Ledger, u: Url): int {
    Get(l.prefill, u) + Get(l.decoding, u)
  }

  lemma {:induction false} LoadIsGiven(size: real, trace: seq<Event>, u: Url)
    requires forall i :: 0 <= i < |trace| ==> StillOpen(trace[i])
    ensures InFlightOn(Run(INITIAL, size, trace).ledger, u) == Given(trace, u)
  {
    if trace != [] {
      LoadIsGiven(size, trace[..|trace| - 1], u);
      LoadStep(Run(INITIAL, size, trace[..|trace| - 1]).ledger, trace[|trace| - 1], u);
    }
  }

  lemma LoadStep(l: Ledger, e: Event, u: Url)
    requires StillOpen(e)
    ensures InFlightOn(LedgerStep(l, e), u) == InFlightOn(l, u) + if e.New? && e.engine == u then 1 else 0
  {
  }

  /** The load the router reads off the monitor's report is the monitor's own. */
  lemma ReportedLoad(s: State, size: real, now: real, u: Url)
    requires size != 0.0
    ensures Load(Report(s, size, now), u) == InFlightOn(s.ledger, u)
  {
  }

  /** `select_url` chose the engine for the request about to be registered, from a report read at some time. */
  ghost predicate Placed(beta: real, size: real, fleet: seq<Url>, before: seq<Event>, engine: Url, now: real, ask: Ask)
    requires size != 0.0
  {
    && (forall w :: w in ask.matched ==> ask.matched[w] >= 0)
    && IsBest(beta, Report(Run(INITIAL, size, before), size, now), fleet, ask, engine)
  }

  /** An arrivals-only run over a fixed fleet with every request placed by `select_url`. */
  ghost predicate ArrivalRun(beta: real, size: real, fleet: seq<Url>, trace: seq<Event>)
    requires size != 0.0
  {
    trace == [] || (
      var before, e := trace[..|trace| - 1], trace[|trace| - 1];
      && ArrivalRun(beta, size, fleet, before)
      && StillOpen(e)
      && (e.New? ==> exists now, ask :: Placed(beta, size, fleet, before, e.engine, now, ask)))
  }

  lemma {:induction false} ArrivalRunOpen(beta: real, size: real, fleet: seq<Url>, trace: seq<Event>)
    requires size != 0.0 && ArrivalRun(beta, size, fleet, trace)
    ensures forall i :: 0 <= i < |trace| ==> StillOpen(trace[i])
  {
    if trace != [] {
      ArrivalRunOpen(beta, size, fleet, trace[..|trace| - 1]);
    }
  }

  /** The loads of a run, and the mean over the fleet. */
  ghost function SumGiven(trace: seq<Event>, urls: seq<Url>): int {
    if urls == [] then 0 else SumGiven(trace, urls[..|urls| - 1]) + Given(trace, urls[|urls| - 1])
  }

  ghost function MeanGiven(trace: seq<Event>, fleet: seq<Url>): real {
    if Dedup(fleet) == [] then 0.0 else MeanOf(SumGiven(trace, Dedup(fleet)), |Dedup(fleet)|)
  }

  lemma {:induction false} SumLoadsIsSumGiven(size: real, trace: seq<Event>, now: real, urls: seq<Url>)
    requires size != 0.0 && forall i :: 0 <= i < |trace| ==> StillOpen(trace[i])
    ensures SumLoads(Report(Run(INITIAL, size, trace), size, now), urls) == SumGiven(trace, urls)
  {
    hide Load, Report, Run;
    if urls == [] {
    } else {
      var u := urls[|urls| - 1];
      SumLoadsIsSumGiven(size, trace, now, urls[..|urls| - 1]);
      LoadIsGiven(size, trace, u);
      ReportedLoad(Run(INITIAL, size, trace), size, now, u);
    }
  }

  lemma {:induction false} SumGivenGrows(trace: seq<Event>, urls: seq<Url>)
    requires trace != []
    ensures SumGiven(trace[..|trace| - 1], urls) <= SumGiven(trace, urls)
  {
    if urls != [] {
      SumGivenGrows(trace, urls[..|urls| - 1]);
    }
  }

  lemma MeanGivenGrows(trace: seq<Event>, fleet: seq<Url>)
    requires trace != []
    ensures MeanGiven(trace[..|trace| - 1], fleet) <= MeanGiven(trace, fleet)
  {
    if Dedup(fleet) != [] {
      SumGivenGrows(trace, Dedup(fleet));
      MeanOfMonotone(SumGiven(trace[..|trace| - 1], Dedup(fleet)), SumGiven(trace, Dedup(fleet)), |Dedup(fleet)|);
    }
  }

  lemma MeanOfMonotone(a: int, b: int, n: nat)
    requires a <= b && n > 0
    ensures MeanOf(a, n) <= MeanOf(b, n)
  {
    QuotientOrder(a as real, b as real, n as real);
  }

  /** How uneven the fleet may be: the bound the run keeps. */
  ghost function Slack(beta: real, trace: seq<Event>, fleet: seq<Url>): real
    requires beta > 0.0
  {
    Allowance(beta, MeanGiven(trace, fleet)) + 1.0
  }

  lemma SlackGrows(beta: real, trace: seq<Event>, fleet: seq<Url>)
    requires beta > 0.0 && trace != []
    ensures Slack(beta, trace[..|trace| - 1], fleet) <= Slack(beta, trace, fleet)
  {
    hide MeanGiven;
    MeanGivenGrows(trace, fleet);
    QuotientOrder(Scale(MeanGiven(trace[..|trace| - 1], fleet)), Scale(MeanGiven(trace, fleet)), beta);
  }

  lemma PlacedNearLeast(beta: real, size: real, fleet: seq<Url>, before: seq<Event>, engine: Url, now: real, ask: Ask, v: Url)
    requires beta > 0.0 && size != 0.0 && v in fleet
    requires forall i :: 0 <= i < |before| ==> StillOpen(before[i])
    requires Placed(beta, size, fleet, before, engine, now, ask)
    ensures engine in fleet
    ensures Given(before, engine) as real + 1.0 <= Given(before, v) as real + Slack(beta, before, fleet)
  {
    var s := Run(INITIAL, size, before);
    var stats := Report(s, size, now);
    ChosenNearLeast(beta, stats, fleet, ask, engine, v);
    hide Load, Report, Run, MeanOf, ScoreOf, Allowance;
    SumLoadsIsSumGiven(size, before, now, Dedup(fleet));
    LoadIsGiven(size, before, engine);
    LoadIsGiven(size, before, v);
    ReportedLoad(s, size, now, engine);
    ReportedLoad(s, size, now, v);
  }

  /**
   However requests arrive and whatever they have cached where, as long as none has
   ended: no engine of the fleet is ahead of another by more than max(1, mean)/beta + 1.
   */
  lemma {:induction false} ArrivalsStayBalanced(beta: real, size: real, fleet: seq<Url>, trace: seq<Event>, u: Url, v: Url)
    requires beta > 0.0 && size != 0.0 && u in fleet && v in fleet
    requires ArrivalRun(beta, size, fleet, trace)
    ensures Given(trace, u) as real - Given(trace, v) as real <= Slack(beta, trace, fleet)
  {
    if trace == [] {
      SlackPositive(beta, trace, fleet);
    } else {
      var before, e := trace[..|trace| - 1], trace[|trace| - 1];
      ArrivalsStayBalanced(beta, size, fleet, before, u, v);
      SlackGrows(beta, trace, fleet);
      hide Slack, Placed;
      if e.New? && e.engine == u {
        ArrivalRunOpen(beta, size, fleet, before);
        var now, ask :| Placed(beta, size, fleet, before, u, now, ask);
        PlacedNearLeast(beta, size, fleet, before, u, now, ask, v);
      }
    }
  }

  lemma SlackPositive(beta: real, trace: seq<Event>, fleet: seq<Url>)
    requires beta > 0.0
    ensures Slack(beta, trace, fleet) >= 0.0
  {
    hide MeanGiven, Quotient;
    QuotientOrder(0.0, Scale(MeanGiven(trace, fleet)), beta);
    QuotientDifference(0.0, 0.0, beta);
  }
}
