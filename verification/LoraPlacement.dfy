/**
 Where the operator wants a LoRA adapter and whether it is there: `getOptimalPlacement`
 and `compareStates`.
 */
module LoraPlacement {
  import opened Basics
  import opened Ordering

  datatype Pod = Pod(name: string, namespace: string, ready: bool)
  datatype Placement = Placement(pod: string, namespace: string)

  // ---- Keys ----

  /** The `namespace/name` string the maps are keyed by. */
  function Key(p: Placement): string {
    p.namespace + "/" + p.pod
  }

  /** Kubernetes namespaces contain no slash. */
  predicate Clean(p: Placement) {
    '/' !in p.namespace
  }

  ghost predicate AllClean(ps: seq<Placement>) {
    forall p :: p in ps ==> Clean(p)
  }

  lemma KeyInjective(p: Placement, q: Placement)
    requires Clean(p) && Clean(q) && Key(p) == Key(q)
    ensures p == q
  {
    var n, m := |p.namespace|, |q.namespace|;
    assert Key(p)[n] == '/' && Key(q)[m] == '/';
    assert forall i :: 0 <= i < n ==> Key(p)[i] == p.namespace[i];
    assert forall i :: 0 <= i < m ==> Key(q)[i] == q.namespace[i];
    assert n == m;
    assert p.namespace == Key(p)[..n] && q.namespace == Key(q)[..m];
    assert p.pod == Key(p)[n + 1..] && q.pod == Key(q)[m + 1..];
  }

  ghost function Pods(ps: seq<Placement>): set<Placement> {
    set p | p in ps
  }

  ghost predicate NoDuplicates<T>(s: seq<T>) {
    forall i, j :: 0 <= i < j < |s| ==> s[i] != s[j]
  }

  function Keys(ps: seq<Placement>): set<string> {
    set p | p in ps :: Key(p)
  }

  lemma KeyInKeys(p: Placement, ps: seq<Placement>)
    requires Clean(p) && AllClean(ps)
    ensures Key(p) in Keys(ps) <==> p in ps
  {
    if Key(p) in Keys(ps) {
      var q :| q in ps && Key(q) == Key(p);
      KeyInjective(p, q);
    }
  }

  // ---- getOptimalPlacement ----

  function NameOf(p: Pod): string {
    p.name
  }

  function ReadyPods(pods: seq<Pod>): (r: seq<Pod>)
    ensures forall p :: p in r <==> p in pods && p.ready
  {
    if pods == [] then []
    else
      var last := pods[|pods| - 1];
      assert pods == pods[..|pods| - 1] + [last];
      ReadyPods(pods[..|pods| - 1]) + if last.ready then [last] else []
  }

  function Placed(pods: seq<Pod>): (r: seq<Placement>)
    ensures |r| == |pods| && forall i :: 0 <= i < |pods| ==> r[i] == Placement(pods[i].name, pods[i].namespace)
  {
    seq(|pods|, i requires 0 <= i < |pods| => Placement(pods[i].name, pods[i].namespace))
  }

  /** No replica count, or a negative one, means every ready pod. */
  function Wanted(replicas: Option<int>, available: nat): (n: nat)
    ensures n <= available
    ensures replicas.Some? && replicas.value >= 0 ==> n <= replicas.value && (n == replicas.value || n == available)
    ensures replicas.None? || replicas.value < 0 ==> n == available
  {
    if replicas.Some? && 0 <= replicas.value < available then replicas.value else available
  }

  /** Any sorting by name: `sort.Slice` does not say where pods of equal name end up. */
  ghost predicate IsSorter(sort: seq<Pod> -> seq<Pod>) {
    forall s :: multiset(sort(s)) == multiset(s) && SortedBy(sort(s), NameOf)
  }

  function OptimalPlacement(pods: seq<Pod>, replicas: Option<int>, sort: seq<Pod> -> seq<Pod>): seq<Placement> {
    var sorted := sort(ReadyPods(pods));
    Placed(sorted[..Wanted(replicas, |sorted|)])
  }

  /** The first loop: pods with a true readiness condition. */
  method SelectReady(pods: seq<Pod>) returns (valid: seq<Pod>)
    ensures valid == ReadyPods(pods)
  {
    valid := [];
    for i := 0 to |pods|
      invariant valid == ReadyPods(pods[..i])
    {
      assert pods[..i + 1][..i] == pods[..i];
      if pods[i].ready {
        valid := valid + [pods[i]];
      }
    }
    assert pods[..|pods|] == pods;
  }

  /** The last loop: one placement for each of the first `numPods`. */
  method PlaceFirst(sorted: seq<Pod>, numPods: nat) returns (placements: seq<Placement>)
    requires numPods <= |sorted|
    ensures placements == Placed(sorted[..numPods])
  {
    placements := [];
    for i := 0 to numPods
      invariant placements == Placed(sorted[..i])
    {
      placements := placements + [Placement(sorted[i].name, sorted[i].namespace)];
    }
  }

  method GetOptimalPlacement(pods: seq<Pod>, replicas: Option<int>, sort: seq<Pod> -> seq<Pod>)
    returns (placements: seq<Placement>)
    requires IsSorter(sort)
    ensures placements == OptimalPlacement(pods, replicas, sort)
  {
    hide ReadyPods, SortedBy, Placed;
    var valid := SelectReady(pods);
    if valid == [] {
      NoPods(pods, replicas, sort);
      return [];
    }
    var sorted := sort(valid);
    var numPods := |sorted|;
    if replicas.Some? && replicas.value >= 0 {
      numPods := if replicas.value < |sorted| then replicas.value else |sorted|;
    }
    placements := PlaceFirst(sorted, numPods);
  }

  lemma NoPods(pods: seq<Pod>, replicas: Option<int>, sort: seq<Pod> -> seq<Pod>)
    requires IsSorter(sort) && ReadyPods(pods) == []
    ensures OptimalPlacement(pods, replicas, sort) == []
  {
    SortedPods(pods, sort);
  }

  function Ident(p: Pod): Placement {
    Placement(p.name, p.namespace)
  }

  /** The sorted list is the ready pods, each as often, in order of name. */
  lemma SortedPods(pods: seq<Pod>, sort: seq<Pod> -> seq<Pod>)
    requires IsSorter(sort)
    ensures var ready, sorted := ReadyPods(pods), sort(ReadyPods(pods));
            && multiset(sorted) == multiset(ready) && SortedBy(sorted, NameOf) && |sorted| == |ready|
            && (forall i :: 0 <= i < |sorted| ==> sorted[i] in ready)
            && (forall p :: p in ready ==> p in sorted)
  {
    var ready, sorted := ReadyPods(pods), sort(ReadyPods(pods));
    SameLength(ready, sorted);
    forall i | 0 <= i < |sorted| ensures sorted[i] in ready {
      assert sorted[i] in multiset(sorted);
    }
    forall p | p in ready ensures p in sorted {
      assert p in multiset(ready);
    }
  }

  /** Said without sorting: as many as wanted, all ready, and no ready pod left out comes before one chosen. */
  lemma PlacementTakesFirst(pods: seq<Pod>, replicas: Option<int>, sort: seq<Pod> -> seq<Pod>)
    requires IsSorter(sort)
    ensures var chosen := OptimalPlacement(pods, replicas, sort);
            && |chosen| == Wanted(replicas, |ReadyPods(pods)|)
            && (forall x :: x in chosen ==> exists p :: p in ReadyPods(pods) && Ident(p) == x)
            && (forall p, x :: p in ReadyPods(pods) && Ident(p) !in chosen && x in chosen ==> Leq(x.pod, NameOf(p)))
  {
    var ready, sorted, chosen := ReadyPods(pods), sort(ReadyPods(pods)), OptimalPlacement(pods, replicas, sort);
    SortedPods(pods, sort);
    hide ReadyPods, IsSorter, Leq;
    var n := |chosen|;
    forall i | 0 <= i < n ensures chosen[i] == Ident(sorted[i]) {
    }
    forall p, x | p in ready && Ident(p) !in chosen && x in chosen ensures Leq(x.pod, NameOf(p)) {
      var j :| 0 <= j < |sorted| && sorted[j] == p;
      var i :| 0 <= i < n && chosen[i] == x;
      assert j >= n;
      assert Leq(NameOf(sorted[i]), NameOf(sorted[j]));
    }
  }

  /** Asking for one replica more keeps every pod already chosen. */
  lemma PlacementGrows(pods: seq<Pod>, r: nat, sort: seq<Pod> -> seq<Pod>)
    ensures OptimalPlacement(pods, Some(r), sort) <= OptimalPlacement(pods, Some(r + 1), sort)
    ensures Pods(OptimalPlacement(pods, Some(r), sort)) <= Pods(OptimalPlacement(pods, Some(r + 1), sort))
    ensures OptimalPlacement(pods, Some(r), sort) <= OptimalPlacement(pods, None, sort)
  {
    var a, b := OptimalPlacement(pods, Some(r), sort), OptimalPlacement(pods, Some(r + 1), sort);
    assert a == b[..|a|];
    assert a == OptimalPlacement(pods, None, sort)[..|a|];
    forall p | p in a ensures p in b {
      var i :| 0 <= i < |a| && a[i] == p;
      assert b[i] == p;
    }
  }

  ghost predicate DistinctNames(pods: seq<Pod>) {
    forall p, q :: p in pods && q in pods && p.name == q.name ==> p == q
  }

  /** With distinct names the choice depends on which pods are ready, not on how they are listed or sorted. */
  lemma PlacementByPods(pods: seq<Pod>, shuffled: seq<Pod>, replicas: Option<int>,
                        sort: seq<Pod> -> seq<Pod>, sort': seq<Pod> -> seq<Pod>)
    requires IsSorter(sort) && IsSorter(sort')
    requires multiset(ReadyPods(pods)) == multiset(ReadyPods(shuffled)) && DistinctNames(ReadyPods(pods))
    ensures OptimalPlacement(pods, replicas, sort) == OptimalPlacement(shuffled, replicas, sort')
  {
    SortedPods(pods, sort);
    SortedPods(shuffled, sort');
    hide IsSorter, ReadyPods, SortedBy;
    SortedUnique(sort(ReadyPods(pods)), sort'(ReadyPods(shuffled)), NameOf);
  }

  /** Two sortings choose the same pods. */
  ghost predicate SameChoice(pods: seq<Pod>, replicas: Option<int>, sort: seq<Pod> -> seq<Pod>, sort': seq<Pod> -> seq<Pod>) {
    Pods(OptimalPlacement(pods, replicas, sort)) == Pods(OptimalPlacement(pods, replicas, sort'))
  }

  /** Every sorting chooses the same pods, for every number of replicas, exactly when the ready pods have distinct names. */
  lemma ChoiceSettledExactly(pods: seq<Pod>)
    requires ProperPods(pods)
    ensures (forall replicas, sort, sort' :: IsSorter(sort) && IsSorter(sort') ==> SameChoice(pods, replicas, sort, sort'))
            <==> DistinctNames(ReadyPods(pods))
  {
    hide IsSorter, SameChoice, ProperPods;
    if DistinctNames(ReadyPods(pods)) {
      forall replicas, sort, sort' | IsSorter(sort) && IsSorter(sort') ensures SameChoice(pods, replicas, sort, sort') {
        SettledByNames(pods, replicas, sort, sort');
      }
    } else {
      var replicas, sort, sort' := TiesMayMove(pods);
    }
  }

  lemma SettledByNames(pods: seq<Pod>, replicas: Option<int>, sort: seq<Pod> -> seq<Pod>, sort': seq<Pod> -> seq<Pod>)
    requires IsSorter(sort) && IsSorter(sort') && DistinctNames(ReadyPods(pods))
    ensures SameChoice(pods, replicas, sort, sort')
  {
    PlacementByPods(pods, pods, replicas, sort, sort');
  }

  /** Of two ready pods of one name either may be chosen before the other. */
  lemma TiesMayMove(pods: seq<Pod>)
    returns (replicas: Option<int>, sort: seq<Pod> -> seq<Pod>, sort': seq<Pod> -> seq<Pod>)
    requires ProperPods(pods) && !DistinctNames(ReadyPods(pods))
    ensures IsSorter(sort) && IsSorter(sort') && !SameChoice(pods, replicas, sort, sort')
  {
    var ready := ReadyPods(pods);
    sort := s => SortBy(s, NameOf);
    SortByIsSorter(sort);
    SortedPods(pods, sort);
    var a := sort(ready);
    var i, j := TiedPlaces(ready, a);
    var b := a[i := a[j]][j := a[i]];
    sort' := s => if s == ready then b else SortBy(s, NameOf);
    SwapIsSorter(ready, a, i, j, b, sort');
    replicas := Some(i + 1);
    PlacementProper(pods, None, sort);
    FirstPlaces(pods, replicas, sort, i, j);
    FirstPlaces(pods, replicas, sort', i, j);
    assert Ident(a[j]) in Pods(OptimalPlacement(pods, replicas, sort'));
  }

  lemma SortByIsSorter(sort: seq<Pod> -> seq<Pod>)
    requires forall s :: sort(s) == SortBy(s, NameOf)
    ensures IsSorter(sort)
  {
    forall s ensures multiset(sort(s)) == multiset(s) && SortedBy(sort(s), NameOf) {
      SortBySorted(s, NameOf);
    }
  }

  lemma TiedPlaces(ready: seq<Pod>, a: seq<Pod>) returns (i: nat, j: nat)
    requires !DistinctNames(ready) && forall p :: p in ready ==> p in a
    ensures i < j < |a| && a[i].name == a[j].name && a[i] != a[j]
  {
    var p, q :| p in ready && q in ready && p.name == q.name && p != q;
    i :| 0 <= i < |a| && a[i] == p;
    j :| 0 <= j < |a| && a[j] == q;
    if j < i {
      i, j := j, i;
    }
  }

  lemma SwapIsSorter(ready: seq<Pod>, a: seq<Pod>, i: nat, j: nat, b: seq<Pod>, sort: seq<Pod> -> seq<Pod>)
    requires multiset(a) == multiset(ready) && SortedBy(a, NameOf)
    requires i < j < |a| && a[i].name == a[j].name && b == a[i := a[j]][j := a[i]]
    requires forall s :: sort(s) == if s == ready then b else SortBy(s, NameOf)
    ensures IsSorter(sort)
  {
    assert SortedBy(b, NameOf) && multiset(b) == multiset(a);
    forall s ensures multiset(sort(s)) == multiset(s) && SortedBy(sort(s), NameOf) {
      SortBySorted(s, NameOf);
    }
  }

  /** Kubernetes names a pod once per namespace, and no namespace contains a slash. */
  ghost predicate ProperPods(pods: seq<Pod>) {
    && (forall i :: 0 <= i < |pods| ==> '/' !in pods[i].namespace)
    && forall i, j :: 0 <= i < j < |pods| ==> pods[i].name != pods[j].name || pods[i].namespace != pods[j].namespace
  }

  lemma {:induction false} ReadyNoDuplicates(pods: seq<Pod>)
    requires ProperPods(pods)
    ensures NoDuplicates(ReadyPods(pods))
  {
    if pods != [] {
      var n := |pods| - 1;
      ReadyNoDuplicates(pods[..n]);
      assert forall p :: p in ReadyPods(pods[..n]) ==> p in pods[..n];
      assert pods[n] !in pods[..n];
    }
  }

  lemma {:induction false} NoDuplicatesByCount<T>(s: seq<T>)
    ensures NoDuplicates(s) <==> forall x :: multiset(s)[x] <= 1
  {
    if s != [] {
      var n := |s| - 1;
      assert s == s[..n] + [s[n]];
      NoDuplicatesByCount(s[..n]);
      if NoDuplicates(s) {
        assert NoDuplicates(s[..n]) && s[n] !in s[..n];
      } else if NoDuplicates(s[..n]) {
        var i, j :| 0 <= i < j < |s| && s[i] == s[j];
        assert s[..n][i] == s[n];
        assert multiset(s)[s[n]] > 1;
      } else {
        var x :| multiset(s[..n])[x] > 1;
        assert multiset(s)[x] > 1;
      }
    }
  }

  /** A placement never names a pod twice. */
  lemma PlacementProper(pods: seq<Pod>, replicas: Option<int>, sort: seq<Pod> -> seq<Pod>)
    requires ProperPods(pods) && IsSorter(sort)
    ensures var chosen := OptimalPlacement(pods, replicas, sort); AllClean(chosen) && NoDuplicates(chosen)
  {
    var ready, sorted := ReadyPods(pods), sort(ReadyPods(pods));
    ReadyNoDuplicates(pods);
    SortedPods(pods, sort);
    NoDuplicatesByCount(ready);
    NoDuplicatesByCount(sorted);
    forall i | 0 <= i < |sorted| ensures sorted[i] in pods && sorted[i].ready {
    }
    hide IsSorter, SortedBy;
  }

  /** With room for `i + 1`, the placement holds what stands at `i` and, without ties, nothing that stands later. */
  lemma FirstPlaces(pods: seq<Pod>, replicas: Option<int>, sort: seq<Pod> -> seq<Pod>, i: nat, j: nat)
    requires IsSorter(sort) && i < j < |sort(ReadyPods(pods))| && replicas == Some(i + 1)
    ensures var sorted, chosen := sort(ReadyPods(pods)), OptimalPlacement(pods, replicas, sort);
            && Ident(sorted[i]) in chosen
            && (NoDuplicates(OptimalPlacement(pods, None, sort)) ==> Ident(sorted[j]) !in chosen)
  {
    var sorted, chosen := sort(ReadyPods(pods)), OptimalPlacement(pods, replicas, sort);
    assert chosen[i] == Ident(sorted[i]);
    var all := OptimalPlacement(pods, None, sort);
    assert all[j] == Ident(sorted[j]) && chosen == all[..i + 1];
  }

  // ---- compareStates ----

  /** What `compareStates` answers. */
  ghost predicate Differ(current: seq<Placement>, desired: seq<Placement>) {
    |current| != |desired| || exists c :: c in current && Key(c) !in Keys(desired)
  }

  method CompareStates(current: seq<Placement>, desired: seq<Placement>) returns (needed: bool)
    ensures needed <==> Differ(current, desired)
  {
    if |current| != |desired| {
      return true;
    }
    var desiredMap: set<string> := {};
    for i := 0 to |desired|
      invariant desiredMap == Keys(desired[..i])
    {
      assert desired[..i + 1] == desired[..i] + [desired[i]];
      desiredMap := desiredMap + {Key(desired[i])};
    }
    assert desired[..|desired|] == desired;
    for i := 0 to |current|
      invariant forall j :: 0 <= j < i ==> Key(current[j]) in desiredMap
    {
      if Key(current[i]) !in desiredMap {
        assert current[i] in current;
        return true;
      }
    }
    return false;
  }

  lemma {:induction false} CountPods<T>(s: seq<T>)
    requires NoDuplicates(s)
    ensures |(set x | x in s)| == |s|
  {
    if s != [] {
      var before, last := s[..|s| - 1], s[|s| - 1];
      CountPods(before);
      assert s == before + [last];
      assert (set x | x in s) == (set x | x in before) + {last};
    }
  }

  lemma SubsetSameSize<T>(a: set<T>, b: set<T>)
    requires a <= b && |a| == |b|
    ensures a == b
  {
    assert b == a + (b - a);
  }

  /** Equal lengths and one-way membership decide equality of the two sets, when neither list repeats a pod. */
  lemma CompareDecidesEquality(current: seq<Placement>, desired: seq<Placement>)
    requires AllClean(current) && AllClean(desired) && NoDuplicates(current) && NoDuplicates(desired)
    ensures Differ(current, desired) <==> Pods(current) != Pods(desired)
  {
    CountPods(current);
    CountPods(desired);
    forall c | c in current ensures Key(c) in Keys(desired) <==> c in desired {
      KeyInKeys(c, desired);
    }
    assert |Pods(current)| == |current| && |Pods(desired)| == |desired|;
    if !Differ(current, desired) {
      SubsetSameSize(Pods(current), Pods(desired));
    } else if |current| == |desired| {
      var c :| c in current && Key(c) !in Keys(desired);
      assert c in Pods(current) && c !in Pods(desired);
    }
  }

  ghost predicate JudgedRightly(current: seq<Placement>, desired: seq<Placement>) {
    Differ(current, desired) <==> Pods(current) != Pods(desired)
  }

  /** Every list of registrations without repetition, and no other, is judged rightly against every placement. */
  lemma JudgedRightlyExactly(current: seq<Placement>)
    requires AllClean(current)
    ensures (forall desired :: AllClean(desired) && NoDuplicates(desired) ==> JudgedRightly(current, desired))
            <==> NoDuplicates(current)
  {
    hide AllClean, NoDuplicates;
    if NoDuplicates(current) {
      forall desired | AllClean(desired) && NoDuplicates(desired) ensures JudgedRightly(current, desired) {
        CompareDecidesEquality(current, desired);
      }
    } else {
      FalseAlarm(current);
      assert !JudgedRightly(current, Dedup(current));
    }
  }

  /** A repeated registration also raises a false alarm, against the very pods it names. */
  lemma FalseAlarm(current: seq<Placement>)
    requires AllClean(current) && !NoDuplicates(current)
    ensures var desired := Dedup(current);
            AllClean(desired) && NoDuplicates(desired) && Pods(current) == Pods(desired) && Differ(current, desired)
  {
    DedupNoDuplicates(current);
    DedupShorter(current);
  }

  lemma DedupNoDuplicates<T(!new)>(s: seq<T>)
    ensures NoDuplicates(Dedup(s))
  {
    forall x ensures multiset(Dedup(s))[x] <= 1 {
      DedupOnce(s, x);
    }
    NoDuplicatesByCount(Dedup(s));
  }

  lemma {:induction false} DedupShorter<T(!new)>(s: seq<T>)
    ensures |Dedup(s)| <= |s| && (|Dedup(s)| == |s| ==> NoDuplicates(s))
  {
    if s != [] {
      DedupShorter(s[..|s| - 1]);
    }
  }

  /** A repeated registration hides a missing pod: the lists must not repeat. */
  lemma RepeatedRegistrationHides(a: Placement, b: Placement)
    requires a != b
    ensures !Differ([a, a], [a, b]) && Pods([a, a]) != Pods([a, b])
  {
    assert a in [a, b] && b in Pods([a, b]);
    assert Key(a) in Keys([a, b]);
  }
}
