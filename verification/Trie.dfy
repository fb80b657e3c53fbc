/**
 The prefix trie as a value: which endpoints each node holds, with a node named
 by the chunk hashes on the way to it from the root.

 `Insert` and `Lookup` are what the heap-allocated trie of module `HashTries`
 computes and what the lock-granular protocol of module `TrieConcurrency` is
 compared with. The main result here is that the trie is an index over the plain
 history of inserts and nothing more (`LookupFindsLongestMatch`).
 */
module Trie {
  import opened Basics

  type Path = seq<int>

  /** The endpoints recorded at every node that exists. */
  type View = map<Path, set<Url>>

  datatype Entry = Entry(path: Path, url: Url)

  const EMPTY: View := map[[] := {}]

  ghost function Prefixes(path: Path): (ps: set<Path>)
    ensures forall p :: p in ps <==> p <= path
  {
    var ps := set i | 0 <= i <= |path| :: path[..i];
    assert forall p :: p <= path ==> p == path[..|p|];
    ps
  }

  function Parent(p: Path): Path
    requires p != []
  {
    p[..|p| - 1]
  }

  function Child(p: Path, h: int): (c: Path)
    ensures c != [] && Parent(c) == p && c[|c| - 1] == h
  {
    p + [h]
  }

  /** Nodes hang together, and a child holds no endpoint its parent lacks. */
  ghost predicate WellFormed(v: View) {
    && [] in v
    && forall p {:trigger Parent(p)} :: p in v && p != [] ==> Parent(p) in v && v[p] <= v[Parent(p)]
  }

  /** `insert`: every node along the path exists afterwards and holds the endpoint. */
  ghost function Insert(v: View, path: Path, url: Url): View {
    map p | p in v.Keys + Prefixes(path) ::
      (if p in v then v[p] else {}) + (if p <= path then {url} else {})
  }

  /** The walk of `longest_prefix_match` from depth `d` with `sel` still selected. */
  ghost function LookupFrom(v: View, path: Path, d: nat, sel: set<Url>): (nat, set<Url>)
    requires d <= |path|
    decreases |path| - d
  {
    if d < |path| && path[..d + 1] in v && v[path[..d + 1]] * sel != {} then
      LookupFrom(v, path, d + 1, v[path[..d + 1]] * sel)
    else
      (d, sel)
  }

  ghost function Lookup(v: View, path: Path, avail: set<Url>): (nat, set<Url>) {
    LookupFrom(v, path, 0, avail)
  }

  /** The available endpoints at a node; none when the node does not exist. */
  ghost function Live(v: View, p: Path, avail: set<Url>): set<Url> {
    if p in v then v[p] * avail else {}
  }

  lemma {:induction false} PrefixInView(v: View, p: Path, d: nat)
    requires WellFormed(v) && p in v && d <= |p|
    ensures p[..d] in v && v[p] <= v[p[..d]]
  {
    if d < |p| {
      PrefixInView(v, Parent(p), d);
      assert Parent(p)[..d] == p[..d];
    } else {
      assert p[..d] == p;
    }
  }

  /** Where the walk stops, said without walking. */
  ghost predicate IsDeepest(v: View, path: Path, avail: set<Url>, k: nat) {
    && k <= |path|
    && (k > 0 ==> Live(v, path[..k], avail) != {})
    && forall d: nat :: k < d <= |path| ==> Live(v, path[..d], avail) == {}
  }

  lemma {:induction false} LookupFromIsDeepest(v: View, path: Path, avail: set<Url>, d: nat, sel: set<Url>)
    requires WellFormed(v) && d <= |path|
    requires d == 0 ==> sel == avail
    requires d > 0 ==> sel == Live(v, path[..d], avail) != {}
    ensures var (k, found) := LookupFrom(v, path, d, sel);
            && IsDeepest(v, path, avail, k)
            && found == if k == 0 then avail else Live(v, path[..k], avail)
    decreases |path| - d
  {
    if d < |path| {
      var next := path[..d + 1];
      if next in v {
        assert Parent(next) == path[..d];
        assert v[next] * sel == Live(v, next, avail);
      }
      if next in v && v[next] * sel != {} {
        LookupFromIsDeepest(v, path, avail, d + 1, v[next] * sel);
      } else {
        forall j: nat | d < j <= |path|
          ensures Live(v, path[..j], avail) == {}
        {
          if path[..j] in v {
            PrefixInView(v, path[..j], d + 1);
            assert path[..j][..d + 1] == next;
          }
        }
      }
    }
  }

  lemma LookupIsDeepest(v: View, path: Path, avail: set<Url>)
    requires WellFormed(v)
    ensures var (k, found) := Lookup(v, path, avail);
            && IsDeepest(v, path, avail, k)
            && found == if k == 0 then avail else Live(v, path[..k], avail)
  {
    LookupFromIsDeepest(v, path, avail, 0, avail);
  }

  // ---- The trie built by a history of inserts ----

  ghost function ViewOf(history: seq<Entry>): View {
    if history == [] then EMPTY
    else
      var last := history[|history| - 1];
      Insert(ViewOf(history[..|history| - 1]), last.path, last.url)
  }

  lemma ViewOfSnoc(history: seq<Entry>, e: Entry)
    ensures ViewOf(history + [e]) == Insert(ViewOf(history), e.path, e.url)
  {
    assert (history + [e])[..|history|] == history;
  }

  /** The endpoints some insert sent through node `p`. */
  ghost function Holders(history: seq<Entry>, p: Path): set<Url> {
    set x | x in history && p <= x.path :: x.url
  }

  ghost predicate Visited(history: seq<Entry>, p: Path) {
    p == [] || exists x :: x in history && p <= x.path
  }

  lemma {:induction false} ViewOfAt(history: seq<Entry>, p: Path)
    ensures p in ViewOf(history) <==> Visited(history, p)
    ensures p in ViewOf(history) ==> ViewOf(history)[p] == Holders(history, p)
  {
    if history != [] {
      var before := history[..|history| - 1];
      var last := history[|history| - 1];
      assert history == before + [last];
      ViewOfAt(before, p);
      assert !Visited(before, p) ==> Holders(before, p) == {};
      assert Holders(history, p) == Holders(before, p) + (if p <= last.path then {last.url} else {});
    }
  }

  lemma ViewOfWellFormed(history: seq<Entry>)
    ensures WellFormed(ViewOf(history))
  {
    var v := ViewOf(history);
    ViewOfAt(history, []);
    forall p | p in v && p != []
      ensures Parent(p) in v && v[p] <= v[Parent(p)]
    {
      ViewOfAt(history, p);
      ViewOfAt(history, Parent(p));
      forall x | x in history && p <= x.path
        ensures Parent(p) <= x.path
      {
      }
    }
  }

  // ---- What the source promises of a lookup ----

  /** How many leading chunk hashes two requests share. */
  function Shared(a: Path, b: Path): nat {
    if a != [] && b != [] && a[0] == b[0] then 1 + Shared(a[1..], b[1..]) else 0
  }

  lemma {:induction false} SharedIsCommonPrefix(a: Path, b: Path, d: nat)
    requires d <= |a|
    ensures a[..d] <= b <==> d <= Shared(a, b)
    ensures Shared(a, b) <= |a|
  {
    if a == [] || b == [] || a[0] != b[0] {
      assert d > 0 ==> a[..d][0] == a[0];
    } else if d == 0 {
      SharedIsCommonPrefix(a[1..], b[1..], 0);
    } else {
      SharedIsCommonPrefix(a[1..], b[1..], d - 1);
      assert a[..d] == [a[0]] + a[1..][..d - 1];
      assert b == [b[0]] + b[1..];
    }
  }

  /**
   `k` is the greatest number of leading hashes shared with a request inserted for
   an available endpoint, and `found` is exactly the available endpoints that
   reach it (every available one when nothing is shared).
   */
  ghost predicate IsLongestMatch(history: seq<Entry>, path: Path, avail: set<Url>, k: nat, found: set<Url>) {
    && (forall x :: x in history && x.url in avail ==> Shared(path, x.path) <= k)
    && (k > 0 ==> exists x :: x in history && x.url in avail && Shared(path, x.path) == k)
    && found == if k == 0 then avail
                else set x | x in history && x.url in avail && Shared(path, x.path) == k :: x.url
  }

  /** An insert shares as many hashes with a path as the deepest node on it that holds its endpoint. */
  lemma SharedReachesNode(history: seq<Entry>, path: Path, x: Entry, d: nat)
    requires x in history && d <= |path|
    ensures d <= Shared(path, x.path) ==> path[..d] in ViewOf(history) && x.url in ViewOf(history)[path[..d]]
    ensures Shared(path, x.path) <= |path|
  {
    SharedIsCommonPrefix(path, x.path, d);
    ViewOfAt(history, path[..d]);
  }

  lemma LiveAreSharers(history: seq<Entry>, path: Path, avail: set<Url>, k: nat)
    requires 0 < k <= |path| && forall x :: x in history && x.url in avail ==> Shared(path, x.path) <= k
    ensures Live(ViewOf(history), path[..k], avail)
            == set x | x in history && x.url in avail && Shared(path, x.path) == k :: x.url
  {
    ViewOfAt(history, path[..k]);
    forall x | x in history && x.url in avail
      ensures path[..k] <= x.path <==> Shared(path, x.path) == k
    {
      SharedIsCommonPrefix(path, x.path, k);
    }
    hide Shared, ViewOf;
  }

  lemma LookupFindsLongestMatch(history: seq<Entry>, path: Path, avail: set<Url>)
    ensures var (k, found) := Lookup(ViewOf(history), path, avail);
            IsLongestMatch(history, path, avail, k, found)
  {
    hide Shared, ViewOf, Lookup;
    var v := ViewOf(history);
    ViewOfWellFormed(history);
    LookupIsDeepest(v, path, avail);
    var (k, found) := Lookup(v, path, avail);
    forall x | x in history && x.url in avail
      ensures Shared(path, x.path) <= k
    {
      SharedReachesNode(history, path, x, 0);
      SharedReachesNode(history, path, x, Shared(path, x.path));
      assert x.url in Live(v, path[..Shared(path, x.path)], avail);
    }
    if k > 0 {
      LiveAreSharers(history, path, avail, k);
      var u :| u in found;
    }
  }

  /** A match is unique: the specification determines what a lookup returns. */
  lemma LongestMatchUnique(history: seq<Entry>, path: Path, avail: set<Url>,
                           k: nat, found: set<Url>, k': nat, found': set<Url>)
    requires IsLongestMatch(history, path, avail, k, found)
    requires IsLongestMatch(history, path, avail, k', found')
    ensures k == k' && found == found'
  {
  }

  // ---- Inserting a path one node deeper ----

  lemma InsertAtRoot(v: View, url: Url)
    requires [] in v
    ensures Insert(v, [], url) == v[[] := v[[]] + {url}]
  {
    var after := Insert(v, [], url);
    assert after.Keys == v.Keys by { assert Prefixes([]) == {[]}; }
    forall p | p in v
      ensures after[p] == v[[] := v[[]] + {url}][p]
    {
      assert p <= [] <==> p == [];
    }
  }

  /** A walk that finds or makes the next node and adds the endpoint there has inserted one step more. */
  lemma InsertOneDeeper(v: View, path: Path, url: Url, d: nat)
    requires d < |path|
    ensures var at := Insert(v, path[..d], url);
            var next := path[..d + 1];
            var found := if next in at then at else at[next := {}];
            Insert(v, next, url) == found[next := found[next] + {url}]
  {
    var next := path[..d + 1];
    var at := Insert(v, path[..d], url);
    assert Prefixes(next) == Prefixes(path[..d]) + {next} by {
      forall p | p in Prefixes(next)
        ensures p in Prefixes(path[..d]) || p == next
      {
        if |p| <= d { assert p == path[..d][..|p|]; }
      }
      assert next[..d] == path[..d];
    }
    forall p | p in Insert(v, next, url)
      ensures p in at || p == next
      ensures p != next ==> Insert(v, next, url)[p] == at[p]
    {
      assert p <= next <==> p in Prefixes(next);
      assert p <= path[..d] <==> p in Prefixes(path[..d]);
    }
    assert next in at ==> at[next] == v[next];
  }
}
