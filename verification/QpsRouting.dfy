/** `_qps_routing`: the engine with the fewest recent arrivals, or one that never had any. */
module QpsRouting {
  import opened Basics
  import opened RequestStats

  /** The first engine without statistics if there is one, else the first of least rate. */
  ghost predicate IsQpsChoice(endpoints: seq<Url>, stats: map<Url, Stats>, i: nat) {
    && i < |endpoints|
    && (endpoints[i] !in stats ==> forall j :: 0 <= j < i ==> endpoints[j] in stats)
    && (endpoints[i] in stats ==>
          && (forall j :: 0 <= j < |endpoints| ==> endpoints[j] in stats && stats[endpoints[i]].qps <= stats[endpoints[j]].qps)
          && (forall j :: 0 <= j < i ==> stats[endpoints[i]].qps < stats[endpoints[j]].qps))
  }

  ghost predicate ChosenByQps(endpoints: seq<Url>, stats: map<Url, Stats>, url: Url) {
    exists i: nat :: IsQpsChoice(endpoints, stats, i) && endpoints[i] == url
  }

  method RouteByQps(endpoints: seq<Url>, stats: map<Url, Stats>) returns (url: Option<Url>)
    ensures url.None? <==> endpoints == []
    ensures url.Some? ==> url.value in endpoints
    ensures url.Some? ==> ChosenByQps(endpoints, stats, url.value)
  {
    url := None;
    var lowest := 0.0;
    ghost var best := 0;
    for i := 0 to |endpoints|
      invariant url.None? <==> i == 0
      invariant forall j :: 0 <= j < i ==> endpoints[j] in stats
      invariant url.Some? ==> 0 <= best < i && endpoints[best] == url.value && stats[url.value].qps == lowest
      invariant url.Some? ==> forall j :: 0 <= j < i ==> lowest <= stats[endpoints[j]].qps
      invariant url.Some? ==> forall j :: 0 <= j < best ==> lowest < stats[endpoints[j]].qps
    {
      var u := endpoints[i];
      if u !in stats {
        assert IsQpsChoice(endpoints, stats, i);
        return Some(u);
      }
      if url.None? || stats[u].qps < lowest {
        lowest, url, best := stats[u].qps, Some(u), i;
      }
    }
    assert url.Some? ==> IsQpsChoice(endpoints, stats, best);
  }
}
