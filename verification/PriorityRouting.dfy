/**
 `PriorityRouter`: urgent requests go to the engine with the fewest in flight, the
 others take turns over the listed engines. The turns are counted for the sorted
 list, so an engine listed twice has two places in it.
 */
module PriorityRouting {
  import opened Basics
  import opened Ordering
  import opened RequestStats
  import opened StatsTheorems
  import opened LoadAware
  import RoundRobin

  // ---- Urgent requests ----

  /** An engine of least load, and the first of those in URL order. */
  ghost predicate IsLeastLoaded(endpoints: seq<Url>, stats: map<Url, Stats>, url: Url) {
    && url in endpoints
    && forall v :: v in endpoints ==>
         Load(stats, url) <= Load(stats, v) && (Load(stats, url) == Load(stats, v) ==> Leq(url, v))
  }

  /** There is one such engine, however the engines are listed. */
  lemma LeastLoadedUnique(a: seq<Url>, b: seq<Url>, stats: map<Url, Stats>, u: Url, v: Url)
    requires forall x :: x in a <==> x in b
    requires IsLeastLoaded(a, stats, u) && IsLeastLoaded(b, stats, v)
    ensures u == v
  {
    hide Load, Leq;
    assert v in a && u in b;
    if u != v {
      assert Leq(u, v) && Leq(v, u);
      LeqAntisymmetric(u, v);
    }
  }

  /** A run over a fixed fleet in which nothing has ended and every request was urgent. */
  ghost predicate UrgentRun(size: real, fleet: seq<Url>, trace: seq<Event>)
    requires size != 0.0
  {
    trace == [] || (
      var before, e := trace[..|trace| - 1], trace[|trace| - 1];
      && UrgentRun(size, fleet, before)
      && StillOpen(e)
      && (e.New? ==> exists now :: IsLeastLoaded(fleet, Report(Run(INITIAL, size, before), size, now), e.engine)))
  }

  lemma {:induction false} UrgentRunOpen(size: real, fleet: seq<Url>, trace: seq<Event>)
    requires size != 0.0 && UrgentRun(size, fleet, trace)
    ensures forall i :: 0 <= i < |trace| ==> StillOpen(trace[i])
  {
    if trace != [] {
      UrgentRunOpen(size, fleet, trace[..|trace| - 1]);
    }
  }

  lemma LeastGiven(size: real, fleet: seq<Url>, before: seq<Event>, u: Url, v: Url, now: real)
    requires size != 0.0 && v in fleet && forall i :: 0 <= i < |before| ==> StillOpen(before[i])
    requires IsLeastLoaded(fleet, Report(Run(INITIAL, size, before), size, now), u)
    ensures Given(before, u) <= Given(before, v)
  {
    hide Report, Run, Load, Leq;
    LoadIsGiven(size, before, u);
    LoadIsGiven(size, before, v);
    ReportedLoad(Run(INITIAL, size, before), size, now, u);
    ReportedLoad(Run(INITIAL, size, before), size, now, v);
  }

  /** In such a run of monitor and router no engine is ever ahead of another by more than one request. */
  lemma {:induction false} UrgentStaysLevel(size: real, fleet: seq<Url>, trace: seq<Event>, u: Url, v: Url)
    requires size != 0.0 && u in fleet && v in fleet && UrgentRun(size, fleet, trace)
    ensures Given(trace, u) <= Given(trace, v) + 1
  {
    if trace != [] {
      var before, e := trace[..|trace| - 1], trace[|trace| - 1];
      UrgentStaysLevel(size, fleet, before, u, v);
      if e.New? && e.engine == u {
        UrgentRunOpen(size, fleet, before);
        var now :| IsLeastLoaded(fleet, Report(Run(INITIAL, size, before), size, now), u);
        LeastGiven(size, fleet, before, u, v, now);
      }
    }
  }

  // ---- The others take turns ----

  /** How many of these requests were for the listing with this key. */
  function Prior(requests: seq<seq<Url>>, key: seq<Url>): nat {
    if requests == [] then 0
    else Prior(requests[..|requests| - 1], key) + if Sort(requests[|requests| - 1]) == key then 1 else 0
  }

  /** How many of them went to the m-th place of that key. */
  function Sent(requests: seq<seq<Url>>, key: seq<Url>, m: nat): nat
    requires key != []
  {
    if requests == [] then 0
    else
      var before := requests[..|requests| - 1];
      Sent(before, key, m)
      + if Sort(requests[|requests| - 1]) == key && Prior(before, key) % |key| == m then 1 else 0
  }

  lemma {:induction false} SentIsShare(requests: seq<seq<Url>>, key: seq<Url>, m: nat)
    requires m < |key|
    ensures Sent(requests, key, m) == RoundRobin.Share(Prior(requests, key), m, |key|)
  {
    hide RoundRobin.Share;
    if requests == [] {
      RoundRobin.ShareNone(m, |key|);
    } else {
      var before := requests[..|requests| - 1];
      SentIsShare(before, key, m);
      RoundRobin.ShareNext(Prior(before, key), m, |key|);
    }
  }

  /** Over any run whatever, two places of a listing differ by at most one: these counters are never emptied. */
  lemma TurnsAreFair(requests: seq<seq<Url>>, key: seq<Url>, m: nat, m': nat)
    requires m < |key| && m' < |key|
    ensures Sent(requests, key, m) <= Sent(requests, key, m') + 1
  {
    SentIsShare(requests, key, m);
    SentIsShare(requests, key, m');
  }

  lemma OneMoreTurn(next: map<seq<Url>, nat>, requests: seq<seq<Url>>, endpoints: seq<Url>)
    requires forall key :: RoundRobin.Counter(next, key) == Prior(requests, key)
    ensures var last := Sort(endpoints);
            forall key :: RoundRobin.Counter(next[last := RoundRobin.Counter(next, last) + 1], key)
                          == Prior(requests + [endpoints], key)
  {
    hide Sort;
    assert (requests + [endpoints])[..|requests|] == requests;
  }

  class PriorityRouter {
    const threshold: int
    var nextIndex: map<seq<Url>, nat>
    /** The listings of the requests that took a turn. */
    ghost var requests: seq<seq<Url>>

    ghost predicate Valid()
      reads this
    {
      forall key :: RoundRobin.Counter(nextIndex, key) == Prior(requests, key)
    }

    constructor (threshold: int)
      ensures Valid() && this.threshold == threshold && requests == []
    {
      this.threshold := threshold;
      nextIndex, requests := map[], [];
    }

    /** The first engine of least load in URL order. */
    method LeastLoaded(endpoints: seq<Url>, stats: map<Url, Stats>) returns (url: Url)
      requires endpoints != []
      ensures IsLeastLoaded(endpoints, stats, url)
    {
      hide Load, Leq;
      var order := Sort(endpoints);
      SortedListing(endpoints);
      url := order[0];
      ghost var best := 0;
      for i := 1 to |order|
        invariant 0 <= best < i && url == order[best]
        invariant forall j :: 0 <= j < i ==> Load(stats, url) <= Load(stats, order[j])
        invariant forall j :: 0 <= j < best ==> Load(stats, url) < Load(stats, order[j])
      {
        if Load(stats, order[i]) < Load(stats, url) {
          url, best := order[i], i;
        }
      }
      forall v | v in endpoints
        ensures Load(stats, url) <= Load(stats, v) && (Load(stats, url) == Load(stats, v) ==> Leq(url, v))
      {
        var j :| 0 <= j < |order| && order[j] == v;
        assert best <= j ==> Leq(Self(order[best]), Self(order[j]));
      }
    }

    /** `route_request`, given the priority it resolved; an urgent request takes no turn. */
    method RouteRequest(endpoints: seq<Url>, stats: map<Url, Stats>, priority: int) returns (a: RoundRobin.Answer)
      requires Valid()
      modifies this
      ensures Valid()
      ensures a.ValueError? <==> endpoints == []
      ensures endpoints == [] || priority < threshold ==> requests == old(requests) && nextIndex == old(nextIndex)
      ensures endpoints != [] && priority < threshold ==> IsLeastLoaded(endpoints, stats, a.url)
      ensures endpoints != [] && priority >= threshold ==>
                var key := Sort(endpoints);
                && key != [] && requests == old(requests) + [endpoints]
                && a.url == key[Prior(old(requests), key) % |key|] && a.url in endpoints
    {
      if endpoints == [] {
        return RoundRobin.ValueError;
      }
      if priority < threshold {
        var url := LeastLoaded(endpoints, stats);
        return RoundRobin.To(url);
      }
      hide Sort, Prior;
      var key := Sort(endpoints);
      SortedListing(endpoints);
      var idx := RoundRobin.Counter(nextIndex, key);
      OneMoreTurn(nextIndex, requests, endpoints);
      nextIndex := nextIndex[key := idx + 1];
      requests := requests + [endpoints];
      a := RoundRobin.To(RoundRobin.At(key, idx));
    }
  }

  lemma SortedListing(endpoints: seq<Url>)
    ensures SortedBy(Sort(endpoints), Self) && |Sort(endpoints)| == |endpoints|
    ensures forall v :: v in Sort(endpoints) <==> v in endpoints
  {
    SortBySorted(endpoints, Self);
    SameLength(Sort(endpoints), endpoints);
    forall v ensures v in Sort(endpoints) <==> v in endpoints {
      assert v in multiset(Sort(endpoints)) <==> v in multiset(endpoints);
    }
  }
}
