/** The selection code of `LoadAwareRouter` and `KvawareRouter`, against the specifications of module `LoadAware`. */
module LoadAwareRouter {
  import opened Basics
  import opened Ordering
  import opened RequestStats
  import opened LoadAware
  import opened QpsRouting

  /** What the cache controller reports for a prompt: holders in its order, with their matched tokens. */
  datatype Holder = Holder(instance: Instance, tokens: int)

  /** The holder is the credited instance of some live engine. */
  ghost predicate IsLiveHolder(b: Bridge, live: set<Url>, id: Instance) {
    exists u :: u in live && InstanceFor(b, u) == Some(id)
  }

  /** A live holder with the most matched tokens, and the first of those. */
  ghost predicate IsTopHolder(b: Bridge, layout: seq<Holder>, live: set<Url>, i: int) {
    && 0 <= i < |layout| && IsLiveHolder(b, live, layout[i].instance)
    && forall j :: 0 <= j < |layout| && IsLiveHolder(b, live, layout[j].instance) ==>
         layout[j].tokens <= layout[i].tokens && (j < i ==> layout[j].tokens < layout[i].tokens)
  }

  /** The instance was written before. */
  ghost predicate Known(b: Bridge, id: Instance) {
    exists i :: 0 <= i < |b| && b[i].instance == id
  }

  lemma CreditedIsMapped(b: Bridge, url: Url)
    requires DistinctInstances(b) && InstanceFor(b, url).Some?
    ensures var i := Position(b, InstanceFor(b, url).value); i < |b| && b[i].url == url
  {
    InstanceForIsLast(b, url);
    var k :| 0 <= k < |b| && b[k] == Link(InstanceFor(b, url).value, url) && forall j :: k < j < |b| ==> b[j].url != url;
    var i := Position(b, InstanceFor(b, url).value);
    assert i <= k;
  }

  lemma InstanceForSnoc(b: Bridge, link: Link, url: Url)
    ensures InstanceFor(b + [link], url) == if link.url == url then Some(link.instance) else InstanceFor(b, url)
  {
    assert (b + [link])[..|b|] == b;
  }

  class Router {
    const beta: real
    var instanceIdToIp: Bridge

    ghost predicate Valid()
      reads this
    {
      DistinctInstances(instanceIdToIp)
    }

    constructor (beta: real)
      ensures Valid() && this.beta == beta && instanceIdToIp == []
    {
      this.beta := beta;
      instanceIdToIp := [];
    }

    /** One answer of `refresh_instance_map`: the controller named the instance behind an engine. */
    method Learn(id: Instance, url: Url)
      requires Valid()
      modifies this
      ensures Valid() && instanceIdToIp == Write(old(instanceIdToIp), id, url)
      ensures Known(old(instanceIdToIp), id) ==>
                && |instanceIdToIp| == |old(instanceIdToIp)|
                && forall i :: 0 <= i < |instanceIdToIp| ==> var was := old(instanceIdToIp)[i];
                     instanceIdToIp[i] == if was.instance == id then Link(id, url) else was
      ensures !Known(old(instanceIdToIp), id) ==> instanceIdToIp == old(instanceIdToIp) + [Link(id, url)]
      ensures InstanceFor(instanceIdToIp, url) == Some(id) <==> NoneAfter(old(instanceIdToIp), id, url)
    {
      LastWrittenCreditedExactly(instanceIdToIp, id, url);
      instanceIdToIp := Write(instanceIdToIp, id, url);
    }

    /** The inverted bridge: for each engine the last-placed instance that maps to it. */
    method UrlToInstance() returns (m: map<Url, Instance>)
      ensures forall u :: (u in m <==> InstanceFor(instanceIdToIp, u).Some?)
                          && (u in m ==> InstanceFor(instanceIdToIp, u) == Some(m[u]))
    {
      m := map[];
      for i := 0 to |instanceIdToIp|
        invariant forall u :: (u in m <==> InstanceFor(instanceIdToIp[..i], u).Some?)
                              && (u in m ==> InstanceFor(instanceIdToIp[..i], u) == Some(m[u]))
      {
        var link := instanceIdToIp[i];
        assert instanceIdToIp[..i + 1] == instanceIdToIp[..i] + [link];
        forall u {
          InstanceForSnoc(instanceIdToIp[..i], link, u);
        }
        m := m[link.url := link.instance];
      }
      assert instanceIdToIp[..|instanceIdToIp|] == instanceIdToIp;
    }

    /** `matched_tokens_by_url` */
    method MatchedTokensByUrl(layout: map<Instance, int>) returns (matched: map<Url, int>)
      ensures forall u :: (if u in matched then matched[u] else 0) == MatchedTokens(instanceIdToIp, layout, u)
    {
      var urlToInstance := UrlToInstance();
      matched := map u | u in urlToInstance && urlToInstance[u] in layout :: layout[urlToInstance[u]];
    }

    /** `select_url`: the scores in URL order, keeping the first that is strictly better than all before. */
    method SelectUrl(endpoints: seq<Url>, stats: map<Url, Stats>, layout: map<Instance, int>, promptTokens: nat)
      returns (url: Option<Url>, ghost ask: Ask)
      ensures url.None? <==> endpoints == []
      ensures ask.promptTokens == promptTokens
      ensures forall u :: (if u in ask.matched then ask.matched[u] else 0) == MatchedTokens(instanceIdToIp, layout, u)
      ensures url.Some? ==> IsBest(beta, stats, endpoints, ask, url.value)
      ensures url.Some? ==> forall v :: v in endpoints && Load(stats, v) == Load(stats, url.value) ==>
                Credited(ask, url.value) >= Credited(ask, v)
    {
      var matched := MatchedTokensByUrl(layout);
      var request := Ask(matched, promptTokens);
      ask := request;
      var order := Sort(endpoints);
      SortBySorted(endpoints, Self);
      assert |multiset(order)| == |order| && |multiset(endpoints)| == |endpoints|;
      url := FirstBest(order, endpoints, stats, request);
      if url.Some? {
        forall v | v in endpoints ensures v in order {
          assert v in multiset(endpoints);
        }
        assert url.value in multiset(order);
        forall v | v in endpoints && Load(stats, v) == Load(stats, url.value)
          ensures Credited(ask, url.value) >= Credited(ask, v)
        {
          EqualLoadsPickLargestMatch(beta, stats, endpoints, ask, url.value, v);
        }
      }
    }

    method FirstBest(order: seq<Url>, endpoints: seq<Url>, stats: map<Url, Stats>, ask: Ask) returns (url: Option<Url>)
      requires SortedBy(order, Self)
      ensures url.None? <==> order == []
      ensures url.Some? ==> url.value in order
      ensures url.Some? ==> forall v :: v in order ==>
                var mine, other := ScoreOf(beta, stats, endpoints, ask, url.value), ScoreOf(beta, stats, endpoints, ask, v);
                mine >= other && (mine == other ==> Leq(url.value, v))
    {
      hide ScoreOf, Leq;
      url := None;
      var bestScore := 0.0;
      ghost var best := 0;
      for i := 0 to |order|
        invariant url.None? <==> i == 0
        invariant url.Some? ==> 0 <= best < i && url.value == order[best]
                                && bestScore == ScoreOf(beta, stats, endpoints, ask, order[best])
        invariant url.Some? ==> forall j :: 0 <= j < i ==> ScoreOf(beta, stats, endpoints, ask, order[j]) <= bestScore
        invariant url.Some? ==> forall j :: 0 <= j < best ==> ScoreOf(beta, stats, endpoints, ask, order[j]) < bestScore
      {
        var score := ScoreOf(beta, stats, endpoints, ask, order[i]);
        if url.None? || score > bestScore {
          bestScore, url, best := score, Some(order[i]), i;
        }
      }
      if url.Some? {
        forall j | best <= j < |order| ensures Leq(url.value, order[j]) {
          assert Leq(Self(order[best]), Self(order[j]));
        }
      }
    }

    /** The holder `KvawareRouter` would send the prompt to: the first live one with the most matched tokens. */
    method TopHolder(layout: seq<Holder>, live: set<Url>) returns (best: int)
      ensures best == -1 <==> forall i :: 0 <= i < |layout| ==> !IsLiveHolder(instanceIdToIp, live, layout[i].instance)
      ensures best != -1 ==> IsTopHolder(instanceIdToIp, layout, live, best)
    {
      var inverted := UrlToInstance();
      var holders := set u | u in inverted && u in live :: inverted[u];
      forall id ensures id in holders <==> IsLiveHolder(instanceIdToIp, live, id) {
        if u :| u in live && InstanceFor(instanceIdToIp, u) == Some(id) {
          assert u in inverted;
        }
      }
      best := -1;
      for i := 0 to |layout|
        invariant -1 <= best < i
        invariant best == -1 ==> forall j :: 0 <= j < i ==> layout[j].instance !in holders
        invariant best >= 0 ==> layout[best].instance in holders
        invariant best >= 0 ==> forall j :: 0 <= j < i && layout[j].instance in holders ==>
                    layout[j].tokens <= layout[best].tokens && (j < best ==> layout[j].tokens < layout[best].tokens)
      {
        if layout[i].instance in holders && (best == -1 || layout[i].tokens > layout[best].tokens) {
          best := i;
        }
      }
    }

    /** The cache-hit branch of `KvawareRouter`: taken if the best live match is within the threshold of the whole prompt. */
    method SelectHolder(layout: seq<Holder>, live: set<Url>, promptTokens: nat, threshold: int) returns (url: Option<Url>)
      requires Valid()
      ensures url.Some? <==> exists i :: IsTopHolder(instanceIdToIp, layout, live, i)
                                         && layout[i].tokens >= Required(promptTokens, threshold)
      ensures url.Some? ==> url.value in live
      ensures url.Some? ==> exists i :: IsTopHolder(instanceIdToIp, layout, live, i)
                                        && InstanceFor(instanceIdToIp, url.value) == Some(layout[i].instance)
    {
      var best := TopHolder(layout, live);
      if best == -1 || layout[best].tokens < Required(promptTokens, threshold) {
        return None;
      }
      var place := Position(instanceIdToIp, layout[best].instance);
      ghost var u :| u in live && InstanceFor(instanceIdToIp, u) == Some(layout[best].instance);
      CreditedIsMapped(instanceIdToIp, u);
      url := Some(instanceIdToIp[place].url);
    }

    /** `KvawareRouter.route_request` from the lookup's answer on; `ring` is the session hash ring. */
    method RouteByCache(endpoints: seq<Url>, stats: map<Url, Stats>, layout: seq<Holder>, promptTokens: nat, threshold: int,
                        session: Option<string>, ring: string -> Option<Url>)
      returns (url: Option<Url>)
      requires Valid()
      ensures CacheHit(layout, endpoints, promptTokens, threshold) ==>
                && url.Some? && url.value in endpoints
                && exists i :: IsTopHolder(instanceIdToIp, layout, Urls(endpoints), i)
                               && InstanceFor(instanceIdToIp, url.value) == Some(layout[i].instance)
      ensures !CacheHit(layout, endpoints, promptTokens, threshold) ==>
                if session.Some? then url == ring(session.value)
                else (url.None? <==> endpoints == []) && (url.Some? ==> ChosenByQps(endpoints, stats, url.value))
    {
      url := SelectHolder(layout, Urls(endpoints), promptTokens, threshold);
      if url.None? {
        if session.Some? {
          url := ring(session.value);
        } else {
          url := RouteByQps(endpoints, stats);
        }
      }
    }

    /** Some live engine holds enough of the prompt, and none holds more than the best of them. */
    ghost predicate CacheHit(layout: seq<Holder>, endpoints: seq<Url>, promptTokens: nat, threshold: int)
      reads this
    {
      exists i :: IsTopHolder(instanceIdToIp, layout, Urls(endpoints), i)
                  && layout[i].tokens >= Required(promptTokens, threshold)
    }
  }

  /** How many tokens of the prompt a match must cover. */
  function Required(promptTokens: nat, threshold: int): (r: int)
    ensures r >= 0 && r >= promptTokens - threshold && (r == 0 || r == promptTokens - threshold)
  {
    if promptTokens > threshold then promptTokens - threshold else 0
  }
}
