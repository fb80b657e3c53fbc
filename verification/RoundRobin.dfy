/**
 `RoundRobinRouter`: one rotation per set of engines, behind two caches that are
 emptied when full. Requests for different sets may be interleaved in any way.
 */
module RoundRobin {
  import opened Basics
  import opened Ordering

  const MAX_CACHE_SIZE := 1024

  datatype State = State(next: map<seq<Url>, nat>, cache: map<set<Url>, seq<Url>>)

  const INITIAL := State(map[], map[])

  /** Every cached key is the one sorting would give. */
  ghost predicate CacheOk(cache: map<set<Url>, seq<Url>>) {
    forall e: seq<Url> :: Urls(e) in cache ==> cache[Urls(e)] == SortedSet(e)
  }

  ghost predicate Valid(s: State) {
    CacheOk(s.cache) && |s.cache| <= MAX_CACHE_SIZE && |s.next| <= MAX_CACHE_SIZE
  }

  /** `_endpoint_key` */
  ghost function Keyed(s: State, endpoints: seq<Url>): (State, seq<Url>) {
    var urls := Urls(endpoints);
    if urls in s.cache then (s, s.cache[urls])
    else
      var kept := if |s.cache| >= MAX_CACHE_SIZE then map[] else s.cache;
      var key := SortedSet(endpoints);
      (s.(cache := kept[urls := key]), key)
  }

  function Counter(next: map<seq<Url>, nat>, key: seq<Url>): nat {
    if key in next then next[key] else 0
  }

  function Bumped(next: map<seq<Url>, nat>, key: seq<Url>): map<seq<Url>, nat> {
    var kept := if |next| >= MAX_CACHE_SIZE && key !in next then map[] else next;
    kept[key := Counter(next, key) + 1]
  }

  /** `route_request`: the state after, and the index the rotation stood at. */
  ghost function Routed(s: State, endpoints: seq<Url>): (State, nat) {
    var (s', key) := Keyed(s, endpoints);
    (s'.(next := Bumped(s'.next, key)), Counter(s'.next, key))
  }

  ghost function After(requests: seq<seq<Url>>): State {
    if requests == [] then INITIAL
    else Routed(After(requests[..|requests| - 1]), requests[|requests| - 1]).0
  }

  // ---- The caches ----

  lemma SameUrlsSameKey(a: seq<Url>, b: seq<Url>)
    requires Urls(a) == Urls(b)
    ensures SortedSet(a) == SortedSet(b)
  {
    forall x ensures x in a <==> x in b {
      assert x in Urls(a) <==> x in Urls(b);
    }
    SortedSetBySet(a, b);
  }

  /** The sort cache changes no answer, and neither cache outgrows its bound. */
  lemma KeyedIsSortedSet(s: State, endpoints: seq<Url>)
    requires Valid(s)
    ensures var (s', key) := Keyed(s, endpoints);
            key == SortedSet(endpoints) && Valid(s') && s'.next == s.next
  {
    var (s', key) := Keyed(s, endpoints);
    var kept := if |s.cache| >= MAX_CACHE_SIZE then map[] else s.cache;
    if Urls(endpoints) !in s.cache {
      forall e: seq<Url> | Urls(e) in s'.cache
        ensures s'.cache[Urls(e)] == SortedSet(e)
      {
        if Urls(e) == Urls(endpoints) {
          SameUrlsSameKey(e, endpoints);
        }
      }
      assert s'.cache.Keys == kept.Keys + {Urls(endpoints)};
      assert |s'.cache| == |s'.cache.Keys| && |kept| == |kept.Keys|;
    }
  }

  lemma BumpedSize(next: map<seq<Url>, nat>, key: seq<Url>)
    requires |next| <= MAX_CACHE_SIZE
    ensures |Bumped(next, key)| <= MAX_CACHE_SIZE
  {
    var kept := if |next| >= MAX_CACHE_SIZE && key !in next then map[] else next;
    assert Bumped(next, key).Keys == kept.Keys + {key};
    assert |Bumped(next, key)| == |Bumped(next, key).Keys| && |kept| == |kept.Keys|;
    if key in next {
      assert kept.Keys + {key} == kept.Keys;
    }
  }

  lemma RoutedValid(s: State, endpoints: seq<Url>)
    requires Valid(s)
    ensures Valid(Routed(s, endpoints).0)
    ensures Routed(s, endpoints).1 == Counter(s.next, SortedSet(endpoints))
    ensures Routed(s, endpoints).0.next == Bumped(s.next, SortedSet(endpoints))
  {
    KeyedIsSortedSet(s, endpoints);
    BumpedSize(s.next, SortedSet(endpoints));
  }

  /** In every reachable state both caches hold at most 1024 entries and the sort cache is right. */
  lemma {:induction false} CachesBounded(requests: seq<seq<Url>>)
    ensures Valid(After(requests))
  {
    if requests != [] {
      CachesBounded(requests[..|requests| - 1]);
      RoutedValid(After(requests[..|requests| - 1]), requests[|requests| - 1]);
    }
  }

  // ---- Fairness over whole runs ----

  ghost function Keys(requests: seq<seq<Url>>): set<seq<Url>> {
    set r | r in requests :: SortedSet(r)
  }

  /** How many of the requests were for the set with this key. */
  ghost function Prior(requests: seq<seq<Url>>, key: seq<Url>): nat {
    if requests == [] then 0
    else Prior(requests[..|requests| - 1], key) + if SortedSet(requests[|requests| - 1]) == key then 1 else 0
  }

  lemma KeysSnoc(before: seq<seq<Url>>, last: seq<Url>)
    ensures Keys(before + [last]) == Keys(before) + {SortedSet(last)}
  {
    hide SortedSet;
    var requests := before + [last];
    forall k | k in Keys(before) + {SortedSet(last)} ensures k in Keys(requests) {
      if k == SortedSet(last) {
        assert requests[|before|] == last;
      } else {
        var r :| r in before && SortedSet(r) == k;
        assert r in requests;
      }
    }
  }

  lemma KeysGrow(requests: seq<seq<Url>>)
    requires requests != []
    ensures Keys(requests) == Keys(requests[..|requests| - 1]) + {SortedSet(requests[|requests| - 1])}
    ensures |Keys(requests[..|requests| - 1])| <= |Keys(requests)|
    ensures SortedSet(requests[|requests| - 1]) !in Keys(requests[..|requests| - 1]) ==>
              |Keys(requests)| == |Keys(requests[..|requests| - 1])| + 1
  {
    hide SortedSet, Keys;
    var before, last := requests[..|requests| - 1], requests[|requests| - 1];
    assert requests == before + [last];
    KeysSnoc(before, last);
    if SortedSet(last) in Keys(before) {
      assert Keys(requests) == Keys(before);
    }
  }

  /** While at most 1024 distinct sets have been seen, each counter is the number of requests for its set. */
  lemma {:induction false} CountersArePrior(requests: seq<seq<Url>>)
    requires |Keys(requests)| <= MAX_CACHE_SIZE
    ensures After(requests).next.Keys == Keys(requests)
    ensures forall key :: Counter(After(requests).next, key) == Prior(requests, key)
  {
    if requests == [] {
      assert Keys(requests) == {};
    } else {
      var before, last := requests[..|requests| - 1], requests[|requests| - 1];
      KeysGrow(requests);
      CountersArePrior(before);
      CachesBounded(before);
      RoutedValid(After(before), last);
      CountersStep(After(before).next, After(requests).next, before, requests);
    }
  }

  lemma CountersStep(next: map<seq<Url>, nat>, next': map<seq<Url>, nat>, before: seq<seq<Url>>, requests: seq<seq<Url>>)
    requires requests != [] && before == requests[..|requests| - 1]
    requires next' == Bumped(next, SortedSet(requests[|requests| - 1]))
    requires next.Keys == Keys(before) && forall key :: Counter(next, key) == Prior(before, key)
    requires Keys(requests) == Keys(before) + {SortedSet(requests[|requests| - 1])}
    requires SortedSet(requests[|requests| - 1]) !in Keys(before) ==> |Keys(before)| < MAX_CACHE_SIZE
    ensures next'.Keys == Keys(requests) && forall key :: Counter(next', key) == Prior(requests, key)
  {
    hide SortedSet, Keys;
    assert |next| == |next.Keys|;
    var last := SortedSet(requests[|requests| - 1]);
    assert next' == next[last := Counter(next, last) + 1];
    forall key ensures Counter(next', key) == Prior(requests, key) {
      assert Counter(next, key) == Prior(before, key);
    }
  }

  lemma {:induction false} PriorPositive(requests: seq<seq<Url>>, key: seq<Url>)
    requires key in Keys(requests)
    ensures Prior(requests, key) > 0
  {
    KeysGrow(requests);
    if SortedSet(requests[|requests| - 1]) != key {
      PriorPositive(requests[..|requests| - 1], key);
    }
  }

  /** The bound is exact: the counters are the request counts if and only if at most 1024 distinct sets were seen. */
  lemma CountersArePriorExactly(requests: seq<seq<Url>>)
    ensures (forall key :: Counter(After(requests).next, key) == Prior(requests, key))
            <==> |Keys(requests)| <= MAX_CACHE_SIZE
  {
    hide After, Prior, SortedSet, Keys;
    var next := After(requests).next;
    if |Keys(requests)| <= MAX_CACHE_SIZE {
      CountersArePrior(requests);
    } else {
      CachesBounded(requests);
      assert |next| == |next.Keys|;
      var key := SomeOutside(Keys(requests), next.Keys);
      PriorPositive(requests, key);
      assert Counter(next, key) != Prior(requests, key);
    }
  }

  lemma SomeOutside<T>(a: set<T>, b: set<T>) returns (x: T)
    requires |a| > |b|
    ensures x in a && x !in b
  {
    assert a * b == b - (b - a);
    assert a == (a - b) + a * b;
    x :| x in a - b;
  }

  /**
   The i-th request for a set of engines goes to sorted[i mod n], whatever other sets
   were asked for in between.
   */
  lemma RotationIndex(requests: seq<seq<Url>>, endpoints: seq<Url>)
    requires |Keys(requests)| <= MAX_CACHE_SIZE
    ensures Routed(After(requests), endpoints).1 == Prior(requests, SortedSet(endpoints))
  {
    CountersArePrior(requests);
    CachesBounded(requests);
    RoutedValid(After(requests), endpoints);
  }

  /** Which of `n` engines the request after `requests` goes to. */
  ghost function Slot(requests: seq<seq<Url>>, endpoints: seq<Url>): nat
    requires endpoints != []
  {
    SortedSetNonEmpty(endpoints);
    Routed(After(requests), endpoints).1 % |SortedSet(endpoints)|
  }

  /** The engine the request after `requests` goes to. */
  ghost function Turn(requests: seq<seq<Url>>, endpoints: seq<Url>): Url
    requires endpoints != []
  {
    SortedSetNonEmpty(endpoints);
    SortedSet(endpoints)[Slot(requests, endpoints)]
  }

  lemma SortedSetNonEmpty(endpoints: seq<Url>)
    requires endpoints != []
    ensures SortedSet(endpoints) != []
  {
    SortedSetMembers(endpoints);
    assert endpoints[0] in SortedSet(endpoints);
  }

  ghost predicate AllNonEmpty(requests: seq<seq<Url>>) {
    forall i :: 0 <= i < |requests| ==> requests[i] != []
  }

  /** How many requests for this set went to its m-th engine. */
  ghost function Sent(requests: seq<seq<Url>>, key: seq<Url>, m: nat): nat
    requires AllNonEmpty(requests)
  {
    if requests == [] then 0
    else
      var before, last := requests[..|requests| - 1], requests[|requests| - 1];
      Sent(before, key, m) + if SortedSet(last) == key && Slot(before, last) == m then 1 else 0
  }

  /** What a perfect rotation gives place `m` of `n` out of `q` turns. */
  function Share(q: nat, m: nat, n: nat): nat
    requires m < n
  {
    q / n + if m < q % n then 1 else 0
  }

  lemma ShareNone(m: nat, n: nat)
    requires m < n
    ensures Share(0, m, n) == 0
  {
  }

  lemma ShareNext(q: nat, m: nat, n: nat)
    requires m < n
    ensures Share(q + 1, m, n) == Share(q, m, n) + if q % n == m then 1 else 0
  {
    var d, r := q / n, q % n;
    assert q == d * n + r;
    if r + 1 < n {
      DivModUnique(q + 1, d, r + 1, n);
    } else {
      assert (d + 1) * n == d * n + n;
      DivModUnique(q + 1, d + 1, 0, n);
    }
  }

  lemma DivModUnique(q: nat, d: nat, r: nat, n: nat)
    requires n > 0 && r < n && q == d * n + r
    ensures q / n == d && q % n == r
  {
    var e := q / n - d;
    assert e >= 1 ==> e * n >= n;
    assert e <= -1 ==> e * n <= 0 - n;
    assert q == (q / n) * n + q % n;
    assert e * n == r - q % n;
  }

  lemma {:induction false} SentIsShare(requests: seq<seq<Url>>, key: seq<Url>, m: nat)
    requires AllNonEmpty(requests)
    requires |Keys(requests)| <= MAX_CACHE_SIZE && m < |key|
    ensures Sent(requests, key, m) == Share(Prior(requests, key), m, |key|)
  {
    hide Share, After, SortedSet, Routed;
    if requests == [] {
      ShareNone(m, |key|);
    } else {
      var before, last := requests[..|requests| - 1], requests[|requests| - 1];
      KeysGrow(requests);
      SentIsShare(before, key, m);
      RotationIndex(before, last);
      ShareNext(Prior(before, key), m, |key|);
    }
  }

  /**
   In any run over at most 1024 distinct sets of engines, two engines of a set have
   been given numbers of its requests that differ by at most one.
   */
  lemma RoundRobinFair(requests: seq<seq<Url>>, key: seq<Url>, m: nat, m': nat)
    requires AllNonEmpty(requests)
    requires |Keys(requests)| <= MAX_CACHE_SIZE && m < |key| && m' < |key|
    ensures Sent(requests, key, m) <= Sent(requests, key, m') + 1
  {
    SentIsShare(requests, key, m);
    SentIsShare(requests, key, m');
  }

  /** The 1025th set empties the counters, so every other rotation starts over: the bound above is needed. */
  lemma OneSetTooMany(s: State, unseen: seq<Url>, other: seq<Url>)
    requires Valid(s) && |s.next| == MAX_CACHE_SIZE && SortedSet(unseen) !in s.next
    requires SortedSet(other) in s.next
    ensures Routed(Routed(s, unseen).0, other).1 == 0
  {
    RoutedValid(s, unseen);
    RoutedValid(Routed(s, unseen).0, other);
  }

  /** Requests for sets other than `key`, each for a set not asked for before. */
  ghost predicate AllNew(others: seq<seq<Url>>, key: seq<Url>) {
    && (forall i :: 0 <= i < |others| ==> others[i] != [] && SortedSet(others[i]) != key)
    && forall i, j :: 0 <= i < j < |others| ==> SortedSet(others[i]) != SortedSet(others[j])
  }

  /** One request for `x` and then others: the sets seen, and what `x` has been sent. */
  lemma {:induction false} OnlyOthers(x: seq<Url>, others: seq<seq<Url>>, m: nat)
    requires x != [] && AllNew(others, SortedSet(x))
    ensures var requests := [x] + others;
            && AllNonEmpty(requests)
            && |Keys(requests)| == |others| + 1 && SortedSet(x) in Keys(requests)
            && Sent(requests, SortedSet(x), m) == Sent([x], SortedSet(x), m)
  {
    hide SortedSet, Slot, Keys;
    var requests, key := [x] + others, SortedSet(x);
    if others == [] {
      assert requests == [x];
      OneKey(x);
    } else {
      var n := |others| - 1;
      var before, last := others[..n], others[n];
      OnlyOthers(x, before, m);
      assert requests == ([x] + before) + [last];
      assert requests[..|requests| - 1] == [x] + before;
      KeysGrow(requests);
      NewKey(x, others, n);
    }
  }

  lemma OneKey(x: seq<Url>)
    ensures Keys([x]) == {SortedSet(x)}
  {
    hide SortedSet;
    assert x in [x];
  }

  lemma NewKey(x: seq<Url>, others: seq<seq<Url>>, n: nat)
    requires AllNew(others, SortedSet(x)) && n < |others|
    ensures SortedSet(others[n]) !in Keys([x] + others[..n])
  {
    hide SortedSet;
    forall r | r in [x] + others[..n] ensures SortedSet(r) != SortedSet(others[n]) {
      if r != x {
        var i :| 0 <= i < n && others[i] == r;
      }
    }
  }

  /**
   The bound on fairness is needed: a set asked for once before and once after 1024 other
   sets is sent to its first engine both times, and to its second engine never.
   */
  lemma UnfairBeyondBound(x: seq<Url>, others: seq<seq<Url>>)
    requires |SortedSet(x)| >= 2 && x != [] && |others| == MAX_CACHE_SIZE && AllNew(others, SortedSet(x))
    ensures var requests, key := [x] + others + [x], SortedSet(x);
            && AllNonEmpty(requests) && |Keys(requests)| == MAX_CACHE_SIZE + 1
            && Sent(requests, key, 0) == 2 && Sent(requests, key, 1) == 0
  {
    hide SortedSet, Routed, After, Keys;
    var key, n := SortedSet(x), MAX_CACHE_SIZE - 1;
    var begin, full := [x] + others[..n], [x] + others;
    var requests := full + [x];
    OnlyOthers(x, others[..n], 0);
    OnlyOthers(x, others, 0);
    OnlyOthers(x, others, 1);
    CountersArePrior(begin);
    CachesBounded(begin);
    assert |After(begin).next| == |After(begin).next.Keys|;
    NewKey(x, others, n);
    OneSetTooMany(After(begin), others[n], x);
    assert full == begin + [others[n]];
    AfterOneMore(begin, others[n]);
    assert requests[..|requests| - 1] == full;
    KeysGrow(requests);
    FirstTurn(x);
    SentOneMore(full, x, key, 0);
    SentOneMore(full, x, key, 1);
    assert 0 % |key| == 0;
  }

  lemma FirstTurn(x: seq<Url>)
    requires x != []
    ensures Sent([x], SortedSet(x), 0) == 1 && Sent([x], SortedSet(x), 1) == 0
  {
    hide SortedSet;
    assert [x][..0] == [];
    SortedSetNonEmpty(x);
    assert Keys([]) == {};
    RotationIndex([], x);
    assert 0 % |SortedSet(x)| == 0;
  }

  lemma SentOneMore(requests: seq<seq<Url>>, x: seq<Url>, key: seq<Url>, m: nat)
    requires AllNonEmpty(requests) && x != []
    ensures AllNonEmpty(requests + [x])
    ensures Sent(requests + [x], key, m) == Sent(requests, key, m) + if SortedSet(x) == key && Slot(requests, x) == m then 1 else 0
  {
    hide SortedSet, Slot;
    assert (requests + [x])[..|requests|] == requests;
  }

  /** There are such runs: the set {a, b}, and single engines named by as many x's. */
  lemma UnfairRun() returns (requests: seq<seq<Url>>)
    ensures AllNonEmpty(requests) && |Keys(requests)| == MAX_CACHE_SIZE + 1
    ensures Sent(requests, ["a", "b"], 0) == 2 && Sent(requests, ["a", "b"], 1) == 0
    ensures Received(requests, ["a", "b"], "a") == 2 && Received(requests, ["a", "b"], "b") == 0
  {
    hide *;
    var x := ["a", "b"];
    PairKey();
    SinglesAllNew(x);
    UnfairBeyondBound(x, Singles());
    requests := [x] + Singles() + [x];
    ReceivedIsSent(requests, x, 0);
    ReceivedIsSent(requests, x, 1);
  }

  function Singles(): (others: seq<seq<Url>>)
    ensures |others| == MAX_CACHE_SIZE && forall i :: 0 <= i < |others| ==> others[i] == [Unary(i + 1)]
  {
    seq(MAX_CACHE_SIZE, i requires 0 <= i < MAX_CACHE_SIZE => [Unary(i + 1)])
  }

  lemma SinglesAllNew(x: seq<Url>)
    requires |SortedSet(x)| == 2
    ensures AllNew(Singles(), SortedSet(x))
  {
    hide SortedSet, Unary, Singles;
    var others := Singles();
    forall i | 0 <= i < |others| ensures SortedSet(others[i]) == [Unary(i + 1)] {
      SingleKey(Unary(i + 1));
    }
    forall i, j | 0 <= i < j < |others| ensures SortedSet(others[i]) != SortedSet(others[j]) {
      UnaryDistinct(i + 1, j + 1);
    }
  }

  function Unary(n: nat): string {
    seq(n, _ => 'x')
  }

  lemma UnaryDistinct(i: nat, j: nat)
    requires i != j
    ensures Unary(i) != Unary(j)
  {
    assert |Unary(i)| == i && |Unary(j)| == j;
  }

  lemma SingleKey(u: Url)
    ensures SortedSet([u]) == [u]
  {
    assert [u][..0] == [] && [u][1..] == [];
    assert Dedup([u]) == [u];
  }

  lemma PairKey()
    ensures SortedSet(["a", "b"]) == ["a", "b"]
  {
    var x := ["a", "b"];
    assert x[..1] == ["a"] && ["a"][..0] == [];
    assert Dedup(["a"]) == ["a"];
    assert Dedup(x) == x;
    assert x[1..] == ["b"] && ["b"][1..] == [];
    assert SortBy(["b"], Self) == ["b"];
  }

  // ---- In terms of the engines answered ----

  /** The engine is the one at the set's place in its rotation, counted in earlier requests for the set. */
  ghost predicate IsRotation(requests: seq<seq<Url>>, endpoints: seq<Url>, u: Url) {
    var key := SortedSet(endpoints);
    |Keys(requests)| <= MAX_CACHE_SIZE ==> key != [] && u == key[Prior(requests, key) % |key|]
  }

  lemma TurnIsRotation(requests: seq<seq<Url>>, endpoints: seq<Url>)
    requires endpoints != []
    ensures IsRotation(requests, endpoints, Turn(requests, endpoints))
  {
    hide SortedSet, Routed, After, Keys, Prior;
    SortedSetNonEmpty(endpoints);
    if |Keys(requests)| <= MAX_CACHE_SIZE {
      RotationIndex(requests, endpoints);
    }
  }

  /** How many requests for this set were answered with engine `u`. */
  ghost function Received(requests: seq<seq<Url>>, key: seq<Url>, u: Url): nat
    requires AllNonEmpty(requests)
  {
    if requests == [] then 0
    else
      var before, last := requests[..|requests| - 1], requests[|requests| - 1];
      Received(before, key, u) + if SortedSet(last) == key && Turn(before, last) == u then 1 else 0
  }

  lemma TurnIsSlot(requests: seq<seq<Url>>, endpoints: seq<Url>, m: nat)
    requires endpoints != [] && m < |SortedSet(endpoints)|
    ensures Turn(requests, endpoints) == SortedSet(endpoints)[m] <==> Slot(requests, endpoints) == m
  {
    hide SortedSet, Routed, After;
    SortedSetMembers(endpoints);
    SlotInRange(requests, endpoints);
    var key, k := SortedSet(endpoints), Slot(requests, endpoints);
    assert k != m ==> key[k] != key[m];
  }

  lemma SlotInRange(requests: seq<seq<Url>>, endpoints: seq<Url>)
    requires endpoints != []
    ensures SortedSet(endpoints) != [] && Slot(requests, endpoints) < |SortedSet(endpoints)|
    ensures Turn(requests, endpoints) == SortedSet(endpoints)[Slot(requests, endpoints)]
  {
    SortedSetNonEmpty(endpoints);
  }

  /** Places of the rotation and engines answered are the same count. */
  lemma {:induction false} ReceivedIsSent(requests: seq<seq<Url>>, key: seq<Url>, m: nat)
    requires AllNonEmpty(requests) && m < |key|
    ensures Received(requests, key, key[m]) == Sent(requests, key, m)
  {
    hide SortedSet, Slot, Turn;
    if requests != [] {
      var before, last := requests[..|requests| - 1], requests[|requests| - 1];
      ReceivedIsSent(before, key, m);
      if SortedSet(last) == key {
        TurnIsSlot(before, last, m);
      }
    }
  }

  /** Over at most 1024 sets, two engines of a set have answered numbers of its requests that differ by at most one. */
  lemma EnginesShareFairly(requests: seq<seq<Url>>, key: seq<Url>, u: Url, v: Url)
    requires AllNonEmpty(requests) && |Keys(requests)| <= MAX_CACHE_SIZE && u in key && v in key
    ensures Received(requests, key, u) <= Received(requests, key, v) + 1
  {
    hide SortedSet, Keys, Slot, Turn;
    var m :| 0 <= m < |key| && key[m] == u;
    var m' :| 0 <= m' < |key| && key[m'] == v;
    ReceivedIsSent(requests, key, m);
    ReceivedIsSent(requests, key, m');
    RoundRobinFair(requests, key, m, m');
  }

  // ---- The router object ----

  datatype Answer = To(url: Url) | ValueError

  class RoundRobinRouter {
    var nextIndex: map<seq<Url>, nat>
    var sortedCache: map<set<Url>, seq<Url>>
    ghost var requests: seq<seq<Url>>

    ghost predicate Valid()
      reads this
    {
      State(nextIndex, sortedCache) == After(requests) && AllNonEmpty(requests)
    }

    constructor ()
      ensures Valid() && requests == []
    {
      nextIndex, sortedCache, requests := map[], map[], [];
    }

    /** `_endpoint_key` */
    method EndpointKey(endpoints: seq<Url>) returns (key: seq<Url>)
      modifies this`sortedCache
      ensures var (s, k) := Keyed(State(nextIndex, old(sortedCache)), endpoints);
              State(nextIndex, sortedCache) == s && key == k
    {
      var urls := Urls(endpoints);
      if urls in sortedCache {
        key := sortedCache[urls];
      } else {
        if |sortedCache| >= MAX_CACHE_SIZE {
          sortedCache := map[];
        }
        key := SortedSet(endpoints);
        sortedCache := sortedCache[urls := key];
      }
    }

    /** `route_request`: the engine at the slot the rotation for this set of engines stands at. */
    method RouteRequest(endpoints: seq<Url>) returns (a: Answer)
      requires Valid()
      modifies this
      ensures Valid()
      ensures a.ValueError? <==> endpoints == []
      ensures endpoints == [] ==> requests == old(requests)
      ensures endpoints != [] ==>
                && requests == old(requests) + [endpoints]
                && a.url in endpoints
                && a.url == Turn(old(requests), endpoints)
      ensures endpoints != [] ==> IsRotation(old(requests), endpoints, a.url)
    {
      hide After, SortedSet, Keyed, Routed, Bumped, Counter, At, Turn, IsRotation, AllNonEmpty;
      if endpoints == [] {
        return ValueError;
      }
      SentNonEmpty(requests, endpoints);
      TurnIsRotation(requests, endpoints);
      TurnIsAt(requests, endpoints);
      NextState(requests, endpoints);
      var key := EndpointKey(endpoints);
      var idx := Counter(nextIndex, key);
      nextIndex := Bumped(nextIndex, key);
      requests := requests + [endpoints];
      a := To(At(key, idx));
    }
  }

  lemma SentNonEmpty(requests: seq<seq<Url>>, endpoints: seq<Url>)
    requires AllNonEmpty(requests) && endpoints != []
    ensures AllNonEmpty(requests + [endpoints])
  {
  }

  /** What a request for `endpoints` finds and leaves, in the terms the code computes it in. */
  lemma NextState(requests: seq<seq<Url>>, endpoints: seq<Url>)
    ensures var (s, key) := Keyed(After(requests), endpoints);
            && key == SortedSet(endpoints)
            && After(requests + [endpoints]) == s.(next := Bumped(s.next, key))
            && Routed(After(requests), endpoints).1 == Counter(s.next, key)
            && s.next == After(requests).next
  {
    CachesBounded(requests);
    KeyedIsSortedSet(After(requests), endpoints);
    AfterOneMore(requests, endpoints);
  }

  function At(key: seq<Url>, idx: nat): Url
    requires key != []
  {
    key[idx % |key|]
  }

  lemma TurnIsAt(requests: seq<seq<Url>>, endpoints: seq<Url>)
    requires endpoints != []
    ensures SortedSet(endpoints) != []
    ensures Turn(requests, endpoints) in endpoints
    ensures Turn(requests, endpoints) == At(SortedSet(endpoints), Routed(After(requests), endpoints).1)
  {
    SortedSetNonEmpty(endpoints);
    SortedSetMembers(endpoints);
    assert At(SortedSet(endpoints), Routed(After(requests), endpoints).1) in SortedSet(endpoints);
  }

  lemma AfterOneMore(requests: seq<seq<Url>>, endpoints: seq<Url>)
    ensures After(requests + [endpoints]) == Routed(After(requests), endpoints).0
  {
    assert (requests + [endpoints])[..|requests|] == requests;
  }
}
