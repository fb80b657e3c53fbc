/**
 The reconcile loop of the operator: the load and unload calls that bring a LoRA
 adapter to its placement, pass after pass. Every call may fail, a failed one may
 still have taken effect, and a pod that holds the adapter may not be seen.
 */
module LoraReconcile {
  import opened Basics
  import opened LoraPlacement

  // ---- Calls to the pods ----

  /** One load or unload call: did it report success, and did it take effect. Success implies effect. */
  datatype Call = Load(pod: Placement, ok: bool, took: bool) | Unload(pod: Placement, ok: bool, took: bool)

  /** How the next call goes: a failed one may have taken effect all the same. */
  datatype Outcome = Success | FailedAfter | FailedBefore

  function AfterCall(loaded: set<Placement>, c: Call): set<Placement> {
    if !c.took then loaded
    else if c.Load? then loaded + {c.pod}
    else loaded - {c.pod}
  }

  function After(loaded: set<Placement>, calls: seq<Call>): set<Placement> {
    if calls == [] then loaded else AfterCall(After(loaded, calls[..|calls| - 1]), calls[|calls| - 1])
  }

  /** Only desired pods are loaded; only others are unloaded, and only once every desired pod holds the adapter. */
  ghost predicate SafeCall(loaded: set<Placement>, c: Call, desired: set<Placement>) {
    if c.Load? then c.pod in desired else c.pod !in desired && desired <= loaded
  }

  ghost predicate SafeCalls(start: set<Placement>, calls: seq<Call>, desired: set<Placement>) {
    forall k :: 0 <= k < |calls| ==> SafeCall(After(start, calls[..k]), calls[k], desired)
  }

  /** The pods that are not yet as desired. */
  function Wrong(loaded: set<Placement>, desired: set<Placement>): set<Placement> {
    (loaded - desired) + (desired - loaded)
  }

  /** Every call is about a pod that is wrong when it is made. */
  ghost predicate UsefulCalls(start: set<Placement>, calls: seq<Call>, desired: set<Placement>) {
    forall k :: 0 <= k < |calls| ==> calls[k].pod in Wrong(After(start, calls[..k]), desired)
  }

  /** Through any prefix of safe calls, failures included, a desired pod that holds the adapter keeps it. */
  lemma {:induction false} DesiredPodsKeepAdapter(start: set<Placement>, calls: seq<Call>, desired: set<Placement>, k: nat)
    requires SafeCalls(start, calls, desired) && k <= |calls|
    ensures start * desired <= After(start, calls[..k])
  {
    if k > 0 {
      DesiredPodsKeepAdapter(start, calls, desired, k - 1);
      assert calls[..k][..k - 1] == calls[..k - 1];
      assert SafeCall(After(start, calls[..k - 1]), calls[k - 1], desired);
    }
  }

  /** Each call that takes effect on a wrong pod puts exactly that pod right. */
  lemma CallRightsOnePod(loaded: set<Placement>, c: Call, desired: set<Placement>)
    requires SafeCall(loaded, c, desired)
    ensures Wrong(AfterCall(loaded, c), desired) == Wrong(loaded, desired) - (if c.took then {c.pod} else {})
  {
  }

  /** Over any number of passes and failures, no pod that is right is ever made wrong. */
  lemma {:induction false} WrongNeverGrows(start: set<Placement>, calls: seq<Call>, desired: set<Placement>, k: nat)
    requires SafeCalls(start, calls, desired) && k <= |calls|
    ensures Wrong(After(start, calls), desired) <= Wrong(After(start, calls[..k]), desired)
    decreases |calls| - k
  {
    if k < |calls| {
      WrongNeverGrows(start, calls, desired, k + 1);
      assert calls[..k + 1][..k] == calls[..k];
      assert SafeCall(After(start, calls[..k]), calls[k], desired);
      CallRightsOnePod(After(start, calls[..k]), calls[k], desired);
    } else {
      assert calls[..k] == calls;
    }
  }

  /** How many of the calls took effect. */
  function Effects(calls: seq<Call>): nat {
    if calls == [] then 0
    else Effects(calls[..|calls| - 1]) + if calls[|calls| - 1].took then 1 else 0
  }

  /**
   Every call that takes effect pays for itself: over any number of passes, the wrong
   pods left and the calls that took effect add up to the wrong pods at the start.
   */
  lemma {:induction false} EffectsCountDown(start: set<Placement>, calls: seq<Call>, desired: set<Placement>)
    requires SafeCalls(start, calls, desired) && UsefulCalls(start, calls, desired)
    ensures |Wrong(After(start, calls), desired)| + Effects(calls) == |Wrong(start, desired)|
  {
    if calls != [] {
      var n := |calls| - 1;
      var before, c := calls[..n], calls[n];
      LastCall(start, calls, desired);
      EffectsCountDown(start, before, desired);
      hide Wrong, SafeCalls, UsefulCalls, SafeCall;
      CallRightsOnePod(After(start, before), c, desired);
    }
  }

  lemma AfterSnoc(start: set<Placement>, calls: seq<Call>, c: Call)
    ensures After(start, calls + [c]) == AfterCall(After(start, calls), c)
  {
    assert (calls + [c])[..|calls|] == calls;
  }

  lemma SafeSnoc(start: set<Placement>, calls: seq<Call>, c: Call, desired: set<Placement>)
    requires SafeCalls(start, calls, desired) && SafeCall(After(start, calls), c, desired)
    ensures SafeCalls(start, calls + [c], desired)
    ensures UsefulCalls(start, calls, desired) && c.pod in Wrong(After(start, calls), desired) ==>
              UsefulCalls(start, calls + [c], desired)
  {
    var more := calls + [c];
    forall k | 0 <= k < |more| ensures more[..k] == if k < |calls| then calls[..k] else calls {
    }
  }

  // ---- reconcileToDesiredState ----

  /** The pods as the operator sees them through its calls. */
  class Cluster {
    var loaded: set<Placement>
    var calls: seq<Call>

    method CallPod(load: bool, pod: Placement, how: Outcome) returns (ok: bool)
      modifies this
      ensures ok <==> how == Success
      ensures var c := if load then Load(pod, ok, how != FailedBefore) else Unload(pod, ok, how != FailedBefore);
              calls == old(calls) + [c] && loaded == AfterCall(old(loaded), c)
    {
      ok := how == Success;
      var c := if load then Load(pod, ok, how != FailedBefore) else Unload(pod, ok, how != FailedBefore);
      calls, loaded := calls + [c], AfterCall(loaded, c);
    }
  }

  /** The calls made since `start`, all of them safe. */
  ghost predicate OnTrack(start: set<Placement>, made: seq<Call>, loaded: set<Placement>, desired: set<Placement>) {
    loaded == After(start, made) && SafeCalls(start, made, desired)
  }

  lemma StartOnTrack(start: set<Placement>, desired: set<Placement>)
    ensures OnTrack(start, [], start, desired) && UsefulCalls(start, [], desired)
  {
  }

  /** One call of the loop: still on track afterwards, and useful if the pod was wrong. */
  method CallOnTrack(cluster: Cluster, load: bool, pod: Placement, how: Outcome,
                     ghost start: set<Placement>, ghost made: seq<Call>, ghost desired: set<Placement>)
    returns (ok: bool, ghost made': seq<Call>)
    requires OnTrack(start, made, cluster.loaded, desired)
    requires if load then pod in desired else pod !in desired && desired <= cluster.loaded
    modifies cluster
    ensures ok <==> how == Success
    ensures OnTrack(start, made', cluster.loaded, desired)
    ensures ok ==> cluster.loaded == if load then old(cluster.loaded) + {pod} else old(cluster.loaded) - {pod}
    ensures made <= made' && cluster.calls == old(cluster.calls) + made'[|made|..]
    ensures UsefulCalls(start, made, desired) && pod in Wrong(old(cluster.loaded), desired) ==>
              UsefulCalls(start, made', desired)
  {
    ok := cluster.CallPod(load, pod, how);
    ghost var c := cluster.calls[|cluster.calls| - 1];
    AfterSnoc(start, made, c);
    SafeSnoc(start, made, c, desired);
    made' := made + [c];
  }

  /** Load the adapter on every desired pod that does not have it; stop at the first failure. */
  method LoadMissing(cluster: Cluster, current: seq<Placement>, desired: seq<Placement>, api: nat -> Outcome)
    returns (ok: bool, n: nat, ghost made: seq<Call>)
    requires AllClean(current) && AllClean(desired) && Pods(current) <= cluster.loaded
    modifies cluster
    ensures OnTrack(old(cluster.loaded), made, cluster.loaded, Pods(desired))
    ensures cluster.calls == old(cluster.calls) + made
    ensures ok ==> cluster.loaded == old(cluster.loaded) + Pods(desired)
    ensures (forall i :: api(i) == Success) ==> ok
    ensures Pods(current) == old(cluster.loaded) && NoDuplicates(desired) ==>
              UsefulCalls(old(cluster.loaded), made, Pods(desired))
  {
    hide OnTrack, UsefulCalls, Key, Keys;
    ghost var start := cluster.loaded;
    StartOnTrack(start, Pods(desired));
    var currentKeys := Keys(current);
    made, n := [], 0;
    for i := 0 to |desired|
      invariant OnTrack(start, made, cluster.loaded, Pods(desired))
      invariant cluster.calls == old(cluster.calls) + made
      invariant cluster.loaded == start + Pods(desired[..i])
      invariant Pods(current) == start && NoDuplicates(desired) ==> UsefulCalls(start, made, Pods(desired))
    {
      assert Pods(desired[..i + 1]) == Pods(desired[..i]) + {desired[i]} by {
        assert desired[..i + 1] == desired[..i] + [desired[i]];
      }
      KeyInKeys(desired[i], current);
      if Key(desired[i]) !in currentKeys {
        ok, made := CallOnTrack(cluster, true, desired[i], api(n), start, made, Pods(desired));
        n := n + 1;
        if !ok {
          return;
        }
      }
    }
    assert desired[..|desired|] == desired;
    ok := true;
  }

  /** `currentMap`: the registrations by key. */
  method ByKey(current: seq<Placement>) returns (m: map<string, Placement>)
    requires AllClean(current)
    ensures forall k :: k in m <==> k in Keys(current)
    ensures forall k :: k in m ==> m[k] in current && Key(m[k]) == k
  {
    m := map[];
    for i := 0 to |current|
      invariant forall k :: k in m <==> k in Keys(current[..i])
      invariant forall k :: k in m ==> m[k] in current && Key(m[k]) == k
    {
      assert current[..i + 1] == current[..i] + [current[i]];
      m := m[Key(current[i]) := current[i]];
    }
    assert current[..|current|] == current;
  }

  /** Unload the adapter wherever it should not be, in whatever order the map yields; stop at the first failure. */
  method UnloadExtra(cluster: Cluster, current: seq<Placement>, desired: seq<Placement>, api: nat -> Outcome, first: nat,
                     ghost start: set<Placement>, ghost before: seq<Call>)
    returns (ok: bool, ghost made: seq<Call>)
    requires AllClean(current) && AllClean(desired) && Pods(desired) <= cluster.loaded
    requires OnTrack(start, before, cluster.loaded, Pods(desired))
    modifies cluster
    ensures OnTrack(start, made, cluster.loaded, Pods(desired)) && before <= made
    ensures cluster.calls == old(cluster.calls) + made[|before|..]
    ensures ok ==> cluster.loaded == old(cluster.loaded) - (Pods(current) - Pods(desired))
    ensures (forall i :: api(i) == Success) ==> ok
    ensures Pods(current) <= old(cluster.loaded) && UsefulCalls(start, before, Pods(desired)) ==>
              UsefulCalls(start, made, Pods(desired))
  {
    hide OnTrack, UsefulCalls, Key;
    var currentMap := ByKey(current);
    var desiredKeys := Keys(desired);
    var todo := currentMap.Keys;
    var n := first;
    ghost var gone: set<Placement> := {};
    made := before;
    while todo != {}
      invariant todo <= currentMap.Keys
      invariant OnTrack(start, made, cluster.loaded, Pods(desired)) && before <= made
      invariant cluster.calls == old(cluster.calls) + made[|before|..]
      invariant cluster.loaded == old(cluster.loaded) - gone && Pods(desired) <= cluster.loaded
      invariant gone == set p | p in current && Key(p) !in todo && p !in desired
      invariant Pods(current) <= old(cluster.loaded) && UsefulCalls(start, before, Pods(desired)) ==>
                  UsefulCalls(start, made, Pods(desired))
      decreases todo
    {
      var key :| key in todo;
      var reg := currentMap[key];
      KeyInKeys(reg, desired);
      SameKeySamePod(current, reg);
      if key !in desiredKeys {
        ok, made := CallOnTrack(cluster, false, reg, api(n), start, made, Pods(desired));
        n := n + 1;
        if !ok {
          return;
        }
        gone := gone + {reg};
      }
      todo := todo - {key};
    }
    assert gone == Pods(current) - Pods(desired);
    ok := true;
  }

  lemma SameKeySamePod(current: seq<Placement>, reg: Placement)
    requires AllClean(current) && reg in current
    ensures forall p :: p in current && Key(p) == Key(reg) ==> p == reg
  {
    forall p | p in current && Key(p) == Key(reg) ensures p == reg {
      KeyInjective(p, reg);
    }
  }

  /**
   `reconcileToDesiredState`: whatever fails, the calls made are safe; with true
   registrations each one that takes effect puts one pod right; and without failure
   the adapter ends up on exactly the pods it should.
   */
  method ReconcileToDesiredState(cluster: Cluster, current: seq<Placement>, desired: seq<Placement>, api: nat -> Outcome)
    returns (ok: bool, ghost made: seq<Call>)
    requires AllClean(current) && AllClean(desired) && Pods(current) <= cluster.loaded
    modifies cluster
    ensures OnTrack(old(cluster.loaded), made, cluster.loaded, Pods(desired))
    ensures cluster.calls == old(cluster.calls) + made
    ensures ok ==> cluster.loaded == (old(cluster.loaded) - (Pods(current) - Pods(desired))) + Pods(desired)
    ensures (forall i :: api(i) == Success) ==> ok
    ensures Pods(current) == old(cluster.loaded) && NoDuplicates(desired) ==>
              UsefulCalls(old(cluster.loaded), made, Pods(desired))
  {
    hide OnTrack, UsefulCalls, Key, Keys, NoDuplicates, AllClean;
    ghost var start, before := cluster.loaded, [];
    var n;
    ok, n, before := LoadMissing(cluster, current, desired, api);
    made := before;
    if ok {
      ok, made := UnloadExtra(cluster, current, desired, api, n, start, before);
      assert made == before + made[|before|..];
    }
  }

  // ---- Reconcile ----

  datatype Result = Waiting | Unchanged | Reconciled | Failed

  /**
   What a pass knows: the adapter's registrations on the pods that are listed, ready and
   answer. A pod that holds the adapter but is not ready or cannot be reached is missed.
   */
  ghost predicate Registrations(current: seq<Placement>, listed: seq<Pod>, answers: Pod -> bool, loaded: set<Placement>) {
    && AllClean(current) && NoDuplicates(current) && Pods(current) <= loaded
    && (forall x :: x in current ==> exists p :: p in listed && Ident(p) == x)
    && forall p :: p in listed ==> (Ident(p) in current <==> p.ready && answers(p) && Ident(p) in loaded)
  }

  /** `getAdapterRegistrations` */
  method GetAdapterRegistrations(cluster: Cluster, listed: seq<Pod>, answers: Pod -> bool) returns (current: seq<Placement>)
    requires ProperPods(listed)
    ensures Registrations(current, listed, answers, cluster.loaded)
  {
    current := [];
    for i := 0 to |listed|
      invariant Registrations(current, listed[..i], answers, cluster.loaded)
      invariant forall x :: x in current ==> exists j :: 0 <= j < i && x == Ident(listed[j])
    {
      var pod := listed[i];
      assert Ident(pod) !in current;
      assert listed[..i + 1] == listed[..i] + [pod];
      if pod.ready && answers(pod) && Ident(pod) in cluster.loaded {
        current := current + [Ident(pod)];
      }
    }
    assert listed[..|listed|] == listed;
  }

  /** One pass of `Reconcile` after the adapter was read: an empty placement waits and calls nothing. */
  method Reconcile(cluster: Cluster, listed: seq<Pod>, answers: Pod -> bool, pods: seq<Pod>, replicas: Option<int>,
                   sort: seq<Pod> -> seq<Pod>, api: nat -> Outcome)
    returns (result: Result, ghost current: seq<Placement>, ghost made: seq<Call>)
    requires ProperPods(listed) && ProperPods(pods) && IsSorter(sort)
    modifies cluster
    ensures Registrations(current, listed, answers, old(cluster.loaded))
    ensures var desired := OptimalPlacement(pods, replicas, sort);
            && OnTrack(old(cluster.loaded), made, cluster.loaded, Pods(desired))
            && (Pods(current) == old(cluster.loaded) ==> UsefulCalls(old(cluster.loaded), made, Pods(desired)))
            && cluster.calls == old(cluster.calls) + made
            && (result == Waiting <==> desired == [])
            && (result == Waiting || result == Unchanged ==> made == [])
            && (result == Unchanged <==> desired != [] && Pods(current) == Pods(desired))
            && (result == Reconciled ==> cluster.loaded == (old(cluster.loaded) - Pods(current)) + Pods(desired))
            && ((forall i :: api(i) == Success) ==> result != Failed)
  {
    hide OnTrack, UsefulCalls, OptimalPlacement, Registrations, ProperPods, Differ, IsSorter;
    var registered := GetAdapterRegistrations(cluster, listed, answers);
    KnownRegistrations(registered, listed, answers, cluster.loaded);
    var desired := GetOptimalPlacement(pods, replicas, sort);
    StartOnTrack(cluster.loaded, Pods(desired));
    current, made := registered, [];
    if desired == [] {
      result := Waiting;
      return;
    }
    PlacementProper(pods, replicas, sort);
    CompareDecidesEquality(registered, desired);
    var needed := CompareStates(registered, desired);
    if !needed {
      result := Unchanged;
      return;
    }
    var ok;
    ok, made := ReconcileToDesiredState(cluster, registered, desired, api);
    result := if ok then Reconciled else Failed;
  }

  lemma KnownRegistrations(current: seq<Placement>, listed: seq<Pod>, answers: Pod -> bool, loaded: set<Placement>)
    requires Registrations(current, listed, answers, loaded)
    ensures AllClean(current) && NoDuplicates(current) && Pods(current) <= loaded
  {
  }

  /** The pod is listed, ready and answers. */
  ghost predicate Seen(x: Placement, listed: seq<Pod>, answers: Pod -> bool) {
    exists p :: p in listed && Ident(p) == x && p.ready && answers(p)
  }

  lemma RegisteredExactly(current: seq<Placement>, listed: seq<Pod>, answers: Pod -> bool, loaded: set<Placement>, x: Placement)
    requires Registrations(current, listed, answers, loaded)
    ensures x in current <==> x in loaded && Seen(x, listed, answers)
  {
  }

  /** The registrations are the truth exactly when every pod holding the adapter is seen. */
  lemma TruthExactly(current: seq<Placement>, listed: seq<Pod>, answers: Pod -> bool, loaded: set<Placement>)
    requires Registrations(current, listed, answers, loaded)
    ensures Pods(current) == loaded <==> forall x :: x in loaded ==> Seen(x, listed, answers)
  {
    hide Registrations, Seen;
    forall x ensures x in current <==> x in loaded && Seen(x, listed, answers) {
      RegisteredExactly(current, listed, answers, loaded, x);
    }
  }

  // ---- From one pass to the next ----

  /**
   Where every desired pod holds the adapter, a pass finds nothing to do if and only if
   it sees all of them and no other pod that holds it.
   */
  lemma RestsExactly(current: seq<Placement>, listed: seq<Pod>, answers: Pod -> bool, loaded: set<Placement>,
                     desired: seq<Placement>)
    requires Registrations(current, listed, answers, loaded) && Pods(desired) <= loaded
    requires AllClean(desired) && NoDuplicates(desired)
    ensures !Differ(current, desired) <==>
              && (forall x :: x in desired ==> Seen(x, listed, answers))
              && (forall x :: x in loaded && Seen(x, listed, answers) ==> x in desired)
  {
    KnownRegistrations(current, listed, answers, loaded);
    CompareDecidesEquality(current, desired);
    hide Registrations, Seen, Differ, AllClean, NoDuplicates;
    forall x ensures x in current <==> x in loaded && Seen(x, listed, answers) {
      RegisteredExactly(current, listed, answers, loaded, x);
    }
    forall x | x in desired ensures x in loaded {
      assert x in Pods(desired);
    }
    assert Pods(current) == Pods(desired) <==> forall x :: x in current <==> x in desired by {
      if Pods(current) == Pods(desired) {
        forall x ensures x in current <==> x in desired {
          assert x in Pods(current) <==> x in Pods(desired);
        }
      }
    }
  }

  /**
   After a pass without failure the next one, seeing what it saw, finds nothing to do if
   and only if every desired pod is seen. Pods outside the placement do not matter: those
   that were seen are unloaded, those that were not are not seen now.
   */
  lemma NextPassRestsExactly(current: seq<Placement>, next: seq<Placement>, listed: seq<Pod>, answers: Pod -> bool,
                             loaded: set<Placement>, after: set<Placement>, desired: seq<Placement>)
    requires AllClean(desired) && NoDuplicates(desired) && after == (loaded - Pods(current)) + Pods(desired)
    requires Registrations(current, listed, answers, loaded) && Registrations(next, listed, answers, after)
    ensures !Differ(next, desired) <==> forall x :: x in desired ==> Seen(x, listed, answers)
  {
    RestsExactly(next, listed, answers, after, desired);
    hide Registrations, Seen, Differ, AllClean, NoDuplicates;
    forall x | x in after && Seen(x, listed, answers) ensures x in desired {
      RegisteredExactly(current, listed, answers, loaded, x);
    }
  }

  /** A desired pod that is ready but does not answer is missed although it holds the adapter, and loaded on every pass. */
  lemma SilentPodNeverRests(p: Pod, answers: Pod -> bool)
    requires p.ready && !answers(p) && '/' !in p.namespace
    ensures var pod := Ident(p);
            && Registrations([], [p], answers, {pod}) && Differ([], [pod])
            && Key(pod) !in Keys([])
  {
  }

  /** Every pod of the placement is seen. */
  ghost predicate PlacementSeen(pods: seq<Pod>, replicas: Option<int>, sort: seq<Pod> -> seq<Pod>,
                                listed: seq<Pod>, answers: Pod -> bool) {
    forall x :: x in OptimalPlacement(pods, replicas, sort) ==> Seen(x, listed, answers)
  }

  /**
   Two passes over a cluster that does not change in between, with calls that succeed and
   pods of distinct names: the second finds nothing to do exactly when every desired pod
   is seen, and it never changes what is loaded.
   */
  method ReconcileTwice(cluster: Cluster, listed: seq<Pod>, answers: Pod -> bool, pods: seq<Pod>, replicas: Option<int>,
                        sort: seq<Pod> -> seq<Pod>, sort': seq<Pod> -> seq<Pod>, api: nat -> Outcome)
    returns (first: Result, second: Result, ghost current: seq<Placement>)
    requires ProperPods(listed) && ProperPods(pods) && IsSorter(sort) && IsSorter(sort')
    requires DistinctNames(ReadyPods(pods)) && forall i :: api(i) == Success
    modifies cluster
    ensures Registrations(current, listed, answers, old(cluster.loaded))
    ensures var desired := OptimalPlacement(pods, replicas, sort);
            && (desired == [] ==> first == second == Waiting && cluster.loaded == old(cluster.loaded))
            && (desired != [] ==>
                  && cluster.loaded == (old(cluster.loaded) - Pods(current)) + Pods(desired)
                  && (second == Unchanged <==> PlacementSeen(pods, replicas, sort, listed, answers))
                  && second != Failed && second != Waiting)
  {
    hide *;
    ghost var desired, loaded := OptimalPlacement(pods, replicas, sort), cluster.loaded;
    PlacementByPods(pods, pods, replicas, sort, sort');
    ghost var made;
    first, current, made := Reconcile(cluster, listed, answers, pods, replicas, sort, api);
    KnownRegistrations(current, listed, answers, loaded);
    NoCallsOnTrack(loaded, made, cluster.loaded, Pods(desired));
    ghost var after := cluster.loaded;
    ghost var next, more;
    second, next, more := Reconcile(cluster, listed, answers, pods, replicas, sort', api);
    KnownRegistrations(next, listed, answers, after);
    NoCallsOnTrack(after, more, cluster.loaded, Pods(desired));
    if desired != [] {
      PlacementProper(pods, replicas, sort);
      NextPassRestsExactly(current, next, listed, answers, loaded, after, desired);
      CompareDecidesEquality(next, desired);
      assert PlacementSeen(pods, replicas, sort, listed, answers)
             <==> forall x :: x in desired ==> Seen(x, listed, answers) by {
        SeenAll(pods, replicas, sort, listed, answers);
      }
      NothingSeenIsLost(current, next, listed, answers, loaded, after, desired);
    }
  }

  lemma SeenAll(pods: seq<Pod>, replicas: Option<int>, sort: seq<Pod> -> seq<Pod>, listed: seq<Pod>, answers: Pod -> bool)
    ensures PlacementSeen(pods, replicas, sort, listed, answers)
            <==> forall x :: x in OptimalPlacement(pods, replicas, sort) ==> Seen(x, listed, answers)
  {
  }

  lemma NoCallsOnTrack(start: set<Placement>, made: seq<Call>, loaded: set<Placement>, desired: set<Placement>)
    requires OnTrack(start, made, loaded, desired)
    ensures made == [] ==> loaded == start
  {
  }

  /** What the next pass sees beyond the placement is nothing, so it has nothing to unload. */
  lemma NothingSeenIsLost(current: seq<Placement>, next: seq<Placement>, listed: seq<Pod>, answers: Pod -> bool,
                          loaded: set<Placement>, after: set<Placement>, desired: seq<Placement>)
    requires Registrations(current, listed, answers, loaded) && Registrations(next, listed, answers, after)
    requires after == (loaded - Pods(current)) + Pods(desired)
    ensures (after - Pods(next)) + Pods(desired) == after
  {
    hide Registrations, Seen;
    forall x | x in next ensures x in desired {
      RegisteredExactly(current, listed, answers, loaded, x);
      RegisteredExactly(next, listed, answers, after, x);
    }
  }

  /** The calls of one pass followed by those of the next are safe and useful as a whole, so the laws above span passes. */
  lemma {:induction false} PassesCompose(start: set<Placement>, a: seq<Call>, b: seq<Call>, desired: set<Placement>)
    requires SafeCalls(start, a, desired) && SafeCalls(After(start, a), b, desired)
    ensures SafeCalls(start, a + b, desired) && After(start, a + b) == After(After(start, a), b)
    ensures UsefulCalls(start, a, desired) && UsefulCalls(After(start, a), b, desired) ==> UsefulCalls(start, a + b, desired)
  {
    hide *;
    if b == [] {
      assert a + b == a;
      NoCalls(After(start, a));
    } else {
      var init, c := b[..|b| - 1], b[|b| - 1];
      LastCall(After(start, a), b, desired);
      PassesCompose(start, a, init, desired);
      SafeSnoc(start, a + init, c, desired);
      AfterSnoc(start, a + init, c);
      AfterSnoc(After(start, a), init, c);
      assert a + b == (a + init) + [c] && b == init + [c];
    }
  }

  lemma NoCalls(loaded: set<Placement>)
    ensures After(loaded, []) == loaded
  {
  }

  /** The calls before the last are safe and useful too, and the last is where it is made. */
  lemma LastCall(start: set<Placement>, calls: seq<Call>, desired: set<Placement>)
    requires SafeCalls(start, calls, desired) && calls != []
    ensures var init, c := calls[..|calls| - 1], calls[|calls| - 1];
            && SafeCalls(start, init, desired) && SafeCall(After(start, init), c, desired)
            && (UsefulCalls(start, calls, desired) ==>
                  UsefulCalls(start, init, desired) && c.pod in Wrong(After(start, init), desired))
  {
    hide After, SafeCall, Wrong;
    var init := calls[..|calls| - 1];
    forall k | 0 <= k < |init| ensures init[..k] == calls[..k] && init[k] == calls[k] {
    }
  }

  /**
   Exactly when a pass waits: no pod is ready, or zero replicas are asked for. In the
   second case the adapter stays wherever it is.
   */
  lemma WaitsExactly(pods: seq<Pod>, replicas: Option<int>, sort: seq<Pod> -> seq<Pod>)
    requires IsSorter(sort)
    ensures OptimalPlacement(pods, replicas, sort) == [] <==> ReadyPods(pods) == [] || replicas == Some(0)
  {
    SortedPods(pods, sort);
  }
}
