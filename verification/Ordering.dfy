/** Strings in code-point order, and the sorted lists the routers and the operator make of them. */
module Ordering {
  /** The order in which Python and Go compare strings. */
  predicate Leq(a: string, b: string) {
    a == [] || (b != [] && (a[0] < b[0] || (a[0] == b[0] && Leq(a[1..], b[1..]))))
  }

  /** The strings agree before `i` and differ there. */
  predicate DifferFirstAt(a: string, b: string, i: nat) {
    i < |a| && i < |b| && a[..i] == b[..i] && a[i] != b[i]
  }

  lemma AgreeBefore(a: string, b: string, i: nat)
    requires DifferFirstAt(a, b, i)
    ensures i > 0 ==> a[0] == b[0]
  {
    if i > 0 {
      assert a[..i][0] == b[..i][0];
    }
  }

  /** One string comes before another if it begins it, or has the smaller character where they first differ. */
  lemma {:induction false} LeqIsLexicographic(a: string, b: string)
    ensures Leq(a, b) <==> a <= b || exists i: nat :: DifferFirstAt(a, b, i) && a[i] < b[i]
  {
    if a != [] && b != [] {
      if a[0] != b[0] {
        assert DifferFirstAt(a, b, 0);
        forall i: nat | DifferFirstAt(a, b, i) ensures i == 0 {
          AgreeBefore(a, b, i);
        }
      } else {
        LeqIsLexicographic(a[1..], b[1..]);
        assert a == [a[0]] + a[1..] && b == [b[0]] + b[1..];
        if i: nat :| DifferFirstAt(a[1..], b[1..], i) && a[1..][i] < b[1..][i] {
          assert a[..i + 1] == [a[0]] + a[1..][..i] && b[..i + 1] == [b[0]] + b[1..][..i];
          assert DifferFirstAt(a, b, i + 1);
        }
        if i: nat :| DifferFirstAt(a, b, i) && a[i] < b[i] {
          assert a[1..][..i - 1] == a[..i][1..] && b[1..][..i - 1] == b[..i][1..];
          assert DifferFirstAt(a[1..], b[1..], i - 1);
        }
      }
    }
  }

  lemma {:induction false} LeqTotal(a: string, b: string)
    ensures Leq(a, b) || Leq(b, a)
  {
    if a != [] && b != [] && a[0] == b[0] {
      LeqTotal(a[1..], b[1..]);
    }
  }

  lemma {:induction false} LeqAntisymmetric(a: string, b: string)
    requires Leq(a, b) && Leq(b, a)
    ensures a == b
  {
    if a != [] {
      LeqAntisymmetric(a[1..], b[1..]);
      assert a == [a[0]] + a[1..] && b == [b[0]] + b[1..];
    }
  }

  lemma {:induction false} LeqTransitive(a: string, b: string, c: string)
    requires Leq(a, b) && Leq(b, c)
    ensures Leq(a, c)
  {
    if a != [] && a[0] == b[0] == c[0] {
      LeqTransitive(a[1..], b[1..], c[1..]);
    }
  }

  function InsertBy<T>(x: T, s: seq<T>, key: T -> string): (r: seq<T>)
    ensures multiset(r) == multiset(s) + multiset{x}
  {
    if s == [] || Leq(key(x), key(s[0])) then [x] + s
    else
      assert s == [s[0]] + s[1..];
      [s[0]] + InsertBy(x, s[1..], key)
  }

  /** `sorted(s, key=key)`. */
  function SortBy<T>(s: seq<T>, key: T -> string): (r: seq<T>)
    ensures multiset(r) == multiset(s)
  {
    if s == [] then []
    else
      assert s == [s[0]] + s[1..];
      InsertBy(s[0], SortBy(s[1..], key), key)
  }

  ghost predicate SortedBy<T>(s: seq<T>, key: T -> string) {
    forall i, j :: 0 <= i <= j < |s| ==> Leq(key(s[i]), key(s[j]))
  }

  lemma {:induction false} InsertBySorted<T>(x: T, s: seq<T>, key: T -> string)
    requires SortedBy(s, key)
    ensures SortedBy(InsertBy(x, s, key), key)
  {
    var r := InsertBy(x, s, key);
    LeqTotal(key(x), key(x));
    if s == [] {
    } else if Leq(key(x), key(s[0])) {
      forall j | 0 <= j < |s| ensures Leq(key(x), key(s[j])) {
        LeqTransitive(key(x), key(s[0]), key(s[j]));
      }
    } else {
      LeqTotal(key(x), key(s[0]));
      InsertBySorted(x, s[1..], key);
      var rest := InsertBy(x, s[1..], key);
      forall j | 0 <= j < |rest| ensures Leq(key(s[0]), key(rest[j])) {
        assert rest[j] in multiset(rest);
        assert rest[j] == x || rest[j] in s[1..];
      }
    }
  }

  lemma {:induction false} SortBySorted<T>(s: seq<T>, key: T -> string)
    ensures SortedBy(SortBy(s, key), key)
  {
    if s != [] {
      SortBySorted(s[1..], key);
      InsertBySorted(s[0], SortBy(s[1..], key), key);
    }
  }

  function Self(s: string): string {
    s
  }

  function Sort(s: seq<string>): (r: seq<string>)
    ensures multiset(r) == multiset(s)
  {
    SortBy(s, Self)
  }

  /** Taking one element out of a list, and of its multiset. */
  lemma TakeOut<T>(s: seq<T>, j: nat)
    requires j < |s|
    ensures multiset(s) == multiset(s[..j] + s[j + 1..]) + multiset{s[j]}
    ensures multiset(s[..j] + s[j + 1..]) == multiset(s) - multiset{s[j]}
  {
    assert s == s[..j] + [s[j]] + s[j + 1..];
  }

  lemma TakeHead<T>(s: seq<T>)
    requires s != []
    ensures s == [s[0]] + s[1..] && multiset(s[1..]) == multiset(s) - multiset{s[0]}
  {
    assert s == [s[0]] + s[1..];
  }

  /** Of two arrangements of the same elements, the second has the first's head somewhere. */
  lemma PickOut<T>(a: seq<T>, b: seq<T>) returns (j: nat)
    requires multiset(a) == multiset(b) && a != []
    ensures j < |b| && b[j] == a[0] && multiset(a[1..]) == multiset(b[..j] + b[j + 1..])
  {
    j := FindHead(a, b);
    TakeHead(a);
    TakeOut(b, j);
  }

  lemma FindHead<T>(a: seq<T>, b: seq<T>) returns (j: nat)
    requires multiset(a) == multiset(b) && a != []
    ensures j < |b| && b[j] == a[0]
  {
    assert a[0] in multiset(b);
    j :| 0 <= j < |b| && b[j] == a[0];
  }

  lemma SameLength<T>(a: seq<T>, b: seq<T>)
    requires multiset(a) == multiset(b)
    ensures |a| == |b|
  {
    assert |multiset(a)| == |a| && |multiset(b)| == |b|;
  }

  ghost predicate DistinctKeys<T>(s: seq<T>, key: T -> string) {
    forall i, j :: 0 <= i < |s| && 0 <= j < |s| && key(s[i]) == key(s[j]) ==> s[i] == s[j]
  }

  /** A sorted list is determined by what is in it. */
  lemma {:induction false} SortedUnique<T>(a: seq<T>, b: seq<T>, key: T -> string)
    requires SortedBy(a, key) && SortedBy(b, key) && multiset(a) == multiset(b) && DistinctKeys(a, key)
    ensures a == b
  {
    hide SortedBy, DistinctKeys;
    SameLength(a, b);
    if a != [] {
      SameHead(a, b, key);
      TakeHead(a);
      TakeHead(b);
      SortedTail(a, key);
      SortedTail(b, key);
      SortedUnique(a[1..], b[1..], key);
    }
  }

  lemma SortedTail<T>(s: seq<T>, key: T -> string)
    requires s != [] && SortedBy(s, key)
    ensures SortedBy(s[1..], key)
    ensures DistinctKeys(s, key) ==> DistinctKeys(s[1..], key)
  {
  }

  lemma SameHead<T>(a: seq<T>, b: seq<T>, key: T -> string)
    requires SortedBy(a, key) && SortedBy(b, key) && multiset(a) == multiset(b) && DistinctKeys(a, key)
    requires a != [] && b != []
    ensures a[0] == b[0]
  {
    var i := FindHead(b, a);
    var j := FindHead(a, b);
    assert Leq(key(a[0]), key(a[i])) && Leq(key(b[0]), key(b[j]));
    LeqAntisymmetric(key(a[0]), key(b[0]));
  }

  /** The members of a list, each once, in order of first appearance: the keys of a dictionary built from it. */
  function Dedup<T(==, !new)>(s: seq<T>): (r: seq<T>)
    ensures forall x :: x in r <==> x in s
  {
    if s == [] then []
    else
      var last := s[|s| - 1];
      var before := s[..|s| - 1];
      assert s == before + [last];
      if last in before then Dedup(before) else Dedup(before) + [last]
  }

  lemma {:induction false} DedupOnce<T(!new)>(s: seq<T>, x: T)
    ensures multiset(Dedup(s))[x] == if x in s then 1 else 0
  {
    if s != [] {
      var before := s[..|s| - 1];
      assert s == before + [s[|s| - 1]];
      DedupOnce(before, x);
    }
  }

  lemma SameMembersSameDedup<T(!new)>(a: seq<T>, b: seq<T>)
    requires forall x :: x in a <==> x in b
    ensures multiset(Dedup(a)) == multiset(Dedup(b))
  {
    forall x ensures multiset(Dedup(a))[x] == multiset(Dedup(b))[x] {
      DedupOnce(a, x);
      DedupOnce(b, x);
    }
  }

  /** `tuple(sorted(set(s)))` */
  function SortedSet(s: seq<string>): seq<string> {
    Sort(Dedup(s))
  }

  /** The sorted key of a list of URLs depends on the set of them only. */
  lemma SortedSetBySet(a: seq<string>, b: seq<string>)
    requires forall x :: x in a <==> x in b
    ensures SortedSet(a) == SortedSet(b)
  {
    SameMembersSameDedup(a, b);
    SortBySorted(Dedup(a), Self);
    SortBySorted(Dedup(b), Self);
    SortedUnique(SortedSet(a), SortedSet(b), Self);
  }

  /** And it lists each of them once. */
  lemma SortedSetMembers(a: seq<string>)
    ensures forall x :: x in SortedSet(a) <==> x in a
    ensures SortedBy(SortedSet(a), Self)
    ensures forall i, j :: 0 <= i < j < |SortedSet(a)| ==> SortedSet(a)[i] != SortedSet(a)[j]
  {
    var r := SortedSet(a);
    SortBySorted(Dedup(a), Self);
    forall x ensures x in r <==> x in a {
      assert x in r <==> x in multiset(r);
      assert x in Dedup(a) <==> x in multiset(Dedup(a));
    }
    forall i, j | 0 <= i < j < |r| ensures r[i] != r[j] {
      DedupOnce(a, r[i]);
      if r[i] == r[j] {
        TwiceCounts(r, i, j);
      }
    }
  }

  lemma TwiceCounts<T>(s: seq<T>, i: nat, j: nat)
    requires i < j < |s| && s[i] == s[j]
    ensures multiset(s)[s[i]] >= 2
  {
    assert s == s[..i] + [s[i]] + s[i + 1..j] + [s[j]] + s[j + 1..];
  }
}
