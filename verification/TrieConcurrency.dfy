/**
 hashtrie.py under concurrency: any number of `insert` and `longest_prefix_match`
 coroutines, interleaved in any order at the granularity of the per-node locks.
 Every step below is one locked section of one coroutine.

 `LookupSandwiched` is the guarantee a lookup gives although no lock covers it as
 a whole; `QuiescentTrieIsSequential` says the interleaving leaves no trace.
 */
module TrieConcurrency {
  import opened Basics
  import opened Trie

  /** An insert standing at node `path[..depth]`; `pending` until the endpoint is added there. */
  datatype Inserter = Inserter(path: Path, url: Url, depth: nat, pending: bool) {
    function Reached(): int {
      if pending then depth - 1 else depth
    }

    predicate Finished() {
      depth >= |path| && !pending
    }
  }

  /**
   A lookup that has matched `depth` nodes; `pending` while it stands at the next
   node and has not read it. `start` remembers the trie at its first step.
   */
  datatype Finder = Finder(path: Path, avail: set<Url>, depth: nat, selected: set<Url>,
                           pending: bool, done: bool, start: View)

  datatype System = System(view: View, inserters: seq<Inserter>, finders: seq<Finder>)

  datatype Event =
    | BeginInsert(path: Path, url: Url)
    | BeginLookup(path: Path, avail: set<Url>)
    | InsertStep(who: nat)
    | LookupStep(who: nat)

  const INITIAL := System(EMPTY, [], [])

  ghost function InserterStep(s: System, i: nat): System
    requires i < |s.inserters|
  {
    var t := s.inserters[i];
    if t.depth > |t.path| then s
    else if t.pending then
      var p := t.path[..t.depth];
      var held := if p in s.view then s.view[p] else {};
      s.(view := s.view[p := held + {t.url}],
         inserters := s.inserters[i := t.(pending := false)])
    else if t.depth < |t.path| then
      var c := t.path[..t.depth + 1];
      s.(view := if c in s.view then s.view else s.view[c := {}],
         inserters := s.inserters[i := t.(depth := t.depth + 1, pending := true)])
    else s
  }

  ghost function FinderAfter(v: View, f: Finder): Finder {
    if f.done then f
    else if f.depth >= |f.path| then f.(done := true)
    else if !f.pending then
      if f.path[..f.depth + 1] in v then f.(pending := true) else f.(done := true)
    else
      var both := Live(v, f.path[..f.depth + 1], f.selected);
      if both == {} then f.(pending := false, done := true)
      else f.(depth := f.depth + 1, selected := both, pending := false)
  }

  ghost function Step(s: System, e: Event): System {
    match e
    case BeginInsert(path, url) =>
      s.(inserters := s.inserters + [Inserter(path, url, 0, true)])
    case BeginLookup(path, avail) =>
      s.(finders := s.finders + [Finder(path, avail, 0, avail, false, false, s.view)])
    case InsertStep(i) =>
      if i < |s.inserters| then InserterStep(s, i) else s
    case LookupStep(j) =>
      if j < |s.finders| then s.(finders := s.finders[j := FinderAfter(s.view, s.finders[j])]) else s
  }

  ghost function Run(events: seq<Event>): System {
    if events == [] then INITIAL
    else Step(Run(events[..|events| - 1]), events[|events| - 1])
  }

  // ---- What every step keeps ----

  ghost predicate Below(v: View, w: View) {
    forall p :: p in v ==> p in w && v[p] <= w[p]
  }

  /** This insert has added its endpoint at node `p`. */
  predicate Carried(t: Inserter, p: Path, url: Url) {
    t.url == url && p <= t.path && |p| <= t.Reached()
  }

  /** This insert has walked through node `p`. */
  predicate Walked(t: Inserter, p: Path) {
    p <= t.path && |p| <= t.depth
  }

  ghost predicate InserterOk(v: View, t: Inserter) {
    && t.depth <= |t.path|
    && (forall k: nat :: k <= t.depth ==> t.path[..k] in v)
    && (forall k: nat :: k <= t.Reached() && k <= |t.path| && t.path[..k] in v ==> t.url in v[t.path[..k]])
  }

  /** What an unfinished or finished lookup knows, against the trie it began with and the one there is now. */
  ghost predicate FinderOk(v: View, f: Finder) {
    && WellFormed(f.start) && Below(f.start, v)
    && f.depth <= |f.path|
    && (f.pending ==> f.depth < |f.path| && f.path[..f.depth + 1] in v)
    && (f.depth == 0 ==> f.selected == f.avail)
    && (f.depth > 0 ==>
          f.selected != {} && Live(f.start, f.path[..f.depth], f.avail) <= f.selected
          && f.selected <= Live(v, f.path[..f.depth], f.avail))
    && (f.done ==> f.depth == |f.path| || Live(f.start, f.path[..f.depth + 1], f.avail) == {})
  }

  ghost predicate Justified(v: View, inserters: seq<Inserter>) {
    && (forall p, url :: p in v && url in v[p] ==>
          exists i :: 0 <= i < |inserters| && Carried(inserters[i], p, url))
    && (forall p :: p in v && p != [] ==>
          exists i :: 0 <= i < |inserters| && Walked(inserters[i], p))
  }

  ghost predicate Invariant(s: System) {
    && WellFormed(s.view)
    && Justified(s.view, s.inserters)
    && (forall i :: 0 <= i < |s.inserters| ==> InserterOk(s.view, s.inserters[i]))
    && (forall j :: 0 <= j < |s.finders| ==> FinderOk(s.view, s.finders[j]))
  }

  lemma GrowingKeepsInserter(v: View, w: View, t: Inserter)
    requires InserterOk(v, t) && Below(v, w)
    ensures InserterOk(w, t)
  {
    forall k: nat | k <= t.Reached() && k <= |t.path| && t.path[..k] in w
      ensures t.url in w[t.path[..k]]
    {
      assert t.path[..k] in v;
    }
  }

  lemma GrowingKeepsFinder(v: View, w: View, f: Finder)
    requires FinderOk(v, f) && Below(v, w)
    ensures FinderOk(w, f)
  {
  }

  lemma ViewGrows(s: System, e: Event)
    requires Invariant(s)
    ensures Below(s.view, Step(s, e).view)
  {
  }

  lemma FinderStepOk(v: View, f: Finder)
    requires WellFormed(v) && FinderOk(v, f)
    ensures FinderOk(v, FinderAfter(v, f))
  {
    if !f.done && f.depth < |f.path| {
      var next := f.path[..f.depth + 1];
      assert Parent(next) == f.path[..f.depth];
      if next in v && f.depth > 0 {
        assert Live(v, next, f.selected) <= Live(v, next, f.avail);
      }
    }
  }

  lemma AddKeepsWellFormed(s: System, i: nat)
    requires Invariant(s) && i < |s.inserters|
    ensures WellFormed(InserterStep(s, i).view)
  {
    var t := s.inserters[i];
    var w := InserterStep(s, i).view;
    var here := t.path[..t.depth];
    if t.pending && t.depth > 0 {
      assert Parent(here) == t.path[..t.depth - 1];
    }
    if !t.pending && t.depth < |t.path| {
      assert Parent(t.path[..t.depth + 1]) == here;
    }
    forall p {:trigger Parent(p)} | p in w && p != []
      ensures Parent(p) in w && w[p] <= w[Parent(p)]
    {
    }
  }

  lemma InserterStepOk(s: System, i: nat)
    requires Invariant(s) && i < |s.inserters|
    ensures var s' := InserterStep(s, i); InserterOk(s'.view, s'.inserters[i])
  {
  }

  lemma InserterStepJustified(s: System, i: nat)
    requires Invariant(s) && i < |s.inserters|
    ensures var s' := InserterStep(s, i); Justified(s'.view, s'.inserters)
  {
    var s' := InserterStep(s, i);
    var t, t' := s.inserters[i], s'.inserters[i];
    forall p, url | p in s'.view && url in s'.view[p]
      ensures exists k :: 0 <= k < |s'.inserters| && Carried(s'.inserters[k], p, url)
    {
      if p in s.view && url in s.view[p] {
        var k :| 0 <= k < |s.inserters| && Carried(s.inserters[k], p, url);
        assert Carried(s'.inserters[k], p, url);
      } else {
        assert Carried(t', p, url);
      }
    }
    forall p | p in s'.view && p != []
      ensures exists k :: 0 <= k < |s'.inserters| && Walked(s'.inserters[k], p)
    {
      if p in s.view {
        var k :| 0 <= k < |s.inserters| && Walked(s.inserters[k], p);
        assert Walked(s'.inserters[k], p);
      } else {
        assert Walked(t', p);
      }
    }
  }

  lemma StepKeepsInvariant(s: System, e: Event)
    requires Invariant(s)
    ensures Invariant(Step(s, e))
  {
    var s' := Step(s, e);
    ViewGrows(s, e);
    forall i | 0 <= i < |s.inserters|
      ensures InserterOk(s'.view, s.inserters[i])
    {
      GrowingKeepsInserter(s.view, s'.view, s.inserters[i]);
    }
    forall j | 0 <= j < |s.finders|
      ensures FinderOk(s'.view, s.finders[j])
    {
      GrowingKeepsFinder(s.view, s'.view, s.finders[j]);
    }
    match e
    case BeginInsert(path, url) =>
      BeginInsertJustified(s, path, url);
    case BeginLookup(_, _) =>
    case InsertStep(i) =>
      if i < |s.inserters| {
        AddKeepsWellFormed(s, i);
        InserterStepOk(s, i);
        InserterStepJustified(s, i);
      }
    case LookupStep(j) =>
      if j < |s.finders| {
        FinderStepOk(s.view, s.finders[j]);
      }
  }

  lemma BeginInsertJustified(s: System, path: Path, url: Url)
    requires Invariant(s)
    ensures Justified(s.view, s.inserters + [Inserter(path, url, 0, true)])
    ensures InserterOk(s.view, Inserter(path, url, 0, true))
  {
    var more := s.inserters + [Inserter(path, url, 0, true)];
    forall p, u | p in s.view && u in s.view[p]
      ensures exists k :: 0 <= k < |more| && Carried(more[k], p, u)
    {
      var k :| 0 <= k < |s.inserters| && Carried(s.inserters[k], p, u);
      assert Carried(more[k], p, u);
    }
    forall p | p in s.view && p != []
      ensures exists k :: 0 <= k < |more| && Walked(more[k], p)
    {
      var k :| 0 <= k < |s.inserters| && Walked(s.inserters[k], p);
      assert Walked(more[k], p);
    }
    assert path[..0] == [];
  }

  lemma {:induction false} RunKeepsInvariant(events: seq<Event>)
    ensures Invariant(Run(events))
  {
    if events != [] {
      RunKeepsInvariant(events[..|events| - 1]);
      StepKeepsInvariant(Run(events[..|events| - 1]), events[|events| - 1]);
    }
  }

  // ---- Whole-run results ----

  /**
   In every reachable state, a finished lookup has matched at least as deep as an
   atomic lookup on the trie it began with and at most as deep as one on the trie
   there is now; it selects every available endpoint that already was at that depth
   and none whose insert has not got there.
   */
  lemma LookupSandwiched(events: seq<Event>, j: nat)
    requires j < |Run(events).finders| && Run(events).finders[j].done
    ensures var s := Run(events);
            var f := s.finders[j];
            && f.depth <= |f.path|
            && Lookup(f.start, f.path, f.avail).0 <= f.depth <= Lookup(s.view, f.path, f.avail).0
            && (f.depth == 0 ==> f.selected == f.avail)
            && (f.depth > 0 ==>
                  && f.selected != {}
                  && Live(f.start, f.path[..f.depth], f.avail) <= f.selected
                  && f.selected <= Live(s.view, f.path[..f.depth], f.avail)
                  && forall url :: url in f.selected ==>
                       exists i :: 0 <= i < |s.inserters| && Carried(s.inserters[i], f.path[..f.depth], url))
  {
    var s := Run(events);
    var f := s.finders[j];
    RunKeepsInvariant(events);
    FinderDepthSandwiched(s.view, f);
    if f.depth > 0 {
      forall url | url in f.selected
        ensures exists i :: 0 <= i < |s.inserters| && Carried(s.inserters[i], f.path[..f.depth], url)
      {
        assert url in s.view[f.path[..f.depth]];
      }
    }
  }

  lemma FinderDepthSandwiched(v: View, f: Finder)
    requires WellFormed(v) && FinderOk(v, f) && f.done
    ensures Lookup(f.start, f.path, f.avail).0 <= f.depth <= Lookup(v, f.path, f.avail).0
  {
    LookupIsDeepest(f.start, f.path, f.avail);
    LookupIsDeepest(v, f.path, f.avail);
    var k := Lookup(f.start, f.path, f.avail).0;
    if k > f.depth {
      assert f.path[..k][..f.depth + 1] == f.path[..f.depth + 1];
      PrefixInView(f.start, f.path[..k], f.depth + 1);
    }
  }

  /** An endpoint never sits at a node its parent lacks it at, in any reachable state. */
  lemma ChildWithinParent(events: seq<Event>, p: Path)
    requires p in Run(events).view && p != []
    ensures var v := Run(events).view; Parent(p) in v && v[p] <= v[Parent(p)]
  {
    RunKeepsInvariant(events);
  }

  function Entries(inserters: seq<Inserter>): seq<Entry> {
    seq(|inserters|, i requires 0 <= i < |inserters| => Entry(inserters[i].path, inserters[i].url))
  }

  /** Once every insert has ended, the trie is the one those inserts build one after another. */
  lemma QuiescentTrieIsSequential(events: seq<Event>)
    requires forall i :: 0 <= i < |Run(events).inserters| ==> Run(events).inserters[i].Finished()
    ensures Run(events).view == ViewOf(Entries(Run(events).inserters))
  {
    var s := Run(events);
    var entries := Entries(s.inserters);
    RunKeepsInvariant(events);
    forall p
      ensures p in s.view <==> p in ViewOf(entries)
      ensures p in s.view ==> s.view[p] == ViewOf(entries)[p]
    {
      ViewOfAt(entries, p);
      SameNode(s, p);
    }
  }

  lemma SameNode(s: System, p: Path)
    requires Invariant(s)
    requires forall i :: 0 <= i < |s.inserters| ==> s.inserters[i].Finished()
    ensures p in s.view <==> Visited(Entries(s.inserters), p)
    ensures p in s.view ==> s.view[p] == Holders(Entries(s.inserters), p)
  {
    var entries := Entries(s.inserters);
    if p in s.view && p != [] {
      var i :| 0 <= i < |s.inserters| && Walked(s.inserters[i], p);
      assert entries[i] in entries;
    }
    forall x | x in entries && p <= x.path
      ensures p in s.view && x.url in s.view[p]
    {
      var i :| 0 <= i < |entries| && entries[i] == x;
      assert InserterOk(s.view, s.inserters[i]);
      assert p == x.path[..|p|];
    }
    if p in s.view {
      forall url | url in s.view[p]
        ensures url in Holders(entries, p)
      {
        var i :| 0 <= i < |s.inserters| && Carried(s.inserters[i], p, url);
        assert entries[i] in entries;
      }
    }
  }

  // ---- Progress ----

  /** What was asked for, in the order it was asked. */
  function Inserts(events: seq<Event>): seq<Entry> {
    if events == [] then []
    else
      var e := events[|events| - 1];
      Inserts(events[..|events| - 1]) + if e.BeginInsert? then [Entry(e.path, e.url)] else []
  }

  datatype Query = Query(path: Path, avail: set<Url>)

  function Lookups(events: seq<Event>): seq<Query> {
    if events == [] then []
    else
      var e := events[|events| - 1];
      Lookups(events[..|events| - 1]) + if e.BeginLookup? then [Query(e.path, e.avail)] else []
  }

  /** How many locked sections the i-th insert has been given. */
  function InsertTurns(events: seq<Event>, i: nat): nat {
    if events == [] then 0
    else
      var before, e := events[..|events| - 1], events[|events| - 1];
      InsertTurns(before, i) + if e == InsertStep(i) && i < |Inserts(before)| then 1 else 0
  }

  function LookupTurns(events: seq<Event>, j: nat): nat {
    if events == [] then 0
    else
      var before, e := events[..|events| - 1], events[|events| - 1];
      LookupTurns(before, j) + if e == LookupStep(j) && j < |Lookups(before)| then 1 else 0
  }

  /** The locked sections a request of this path takes in all: one at the root, and two for each further node. */
  function Sections(path: Path): nat {
    2 * |path| + 1
  }

  /** The sections an insert still has before it. */
  function InsertWork(t: Inserter): int {
    2 * (|t.path| - t.depth) + if t.pending then 1 else 0
  }

  /** At most this many are left to a lookup. */
  function LookupWork(f: Finder): int {
    if f.done then 0 else 2 * (|f.path| - f.depth) + if f.pending then 0 else 1
  }

  /** The i-th insert is the i-th one asked for, and has done what it was given the turns for. */
  ghost predicate InsertOnTime(events: seq<Event>, inserters: seq<Inserter>, i: nat)
    requires i < |inserters| && i < |Inserts(events)|
  {
    var t, asked, turns := inserters[i], Inserts(events)[i], InsertTurns(events, i);
    && t.path == asked.path && t.url == asked.url && t.depth <= |t.path|
    && InsertWork(t) == if turns < Sections(t.path) then Sections(t.path) - turns else 0
  }

  ghost predicate LookupOnTime(events: seq<Event>, finders: seq<Finder>, j: nat)
    requires j < |finders| && j < |Lookups(events)|
  {
    var f, asked, turns := finders[j], Lookups(events)[j], LookupTurns(events, j);
    && f.path == asked.path && f.avail == asked.avail && f.depth <= |f.path| && (f.pending ==> f.depth < |f.path| && !f.done)
    && (turns < Sections(f.path) ==> LookupWork(f) <= Sections(f.path) - turns)
    && (turns >= Sections(f.path) ==> f.done)
  }

  lemma NoTurnsYet(events: seq<Event>, i: nat)
    ensures i >= |Inserts(events)| ==> InsertTurns(events, i) == 0
    ensures i >= |Lookups(events)| ==> LookupTurns(events, i) == 0
  {
    if events != [] {
      NoTurnsYet(events[..|events| - 1], i);
    }
  }

  lemma {:induction false} InsertsOnTime(events: seq<Event>, i: nat)
    requires i < |Inserts(events)|
    ensures |Run(events).inserters| == |Inserts(events)| && InsertOnTime(events, Run(events).inserters, i)
  {
    var before, e := events[..|events| - 1], events[|events| - 1];
    InsertCount(events);
    InsertCount(before);
    if i < |Inserts(before)| {
      InsertsOnTime(before, i);
    } else {
      NoTurnsYet(before, i);
    }
  }

  lemma {:induction false} InsertCount(events: seq<Event>)
    ensures |Run(events).inserters| == |Inserts(events)| && |Run(events).finders| == |Lookups(events)|
  {
    if events != [] {
      InsertCount(events[..|events| - 1]);
    }
  }

  lemma {:induction false} LookupsOnTime(events: seq<Event>, j: nat)
    requires j < |Lookups(events)|
    ensures |Run(events).finders| == |Lookups(events)| && LookupOnTime(events, Run(events).finders, j)
  {
    var before, e := events[..|events| - 1], events[|events| - 1];
    InsertCount(events);
    InsertCount(before);
    if j < |Lookups(before)| {
      LookupsOnTime(before, j);
    } else {
      NoTurnsYet(before, j);
    }
  }

  /**
   However the coroutines interleave, an insert has ended exactly when it has been given
   its 2n + 1 locked sections, and then its endpoint is at every node of its path.
   */
  lemma InsertEndsExactly(events: seq<Event>, i: nat)
    requires i < |Inserts(events)|
    ensures var s, asked := Run(events), Inserts(events)[i];
            && |s.inserters| == |Inserts(events)|
            && (s.inserters[i].Finished() <==> InsertTurns(events, i) >= Sections(asked.path))
            && (InsertTurns(events, i) >= Sections(asked.path) ==>
                  forall d: nat :: d <= |asked.path| ==> asked.path[..d] in s.view && asked.url in s.view[asked.path[..d]])
  {
    InsertsOnTime(events, i);
    RunKeepsInvariant(events);
    var s := Run(events);
    assert InserterOk(s.view, s.inserters[i]);
  }

  /** A lookup of a path of n chunks has ended once it has been given 2n + 1 of its own, if not before. */
  lemma LookupEnds(events: seq<Event>, j: nat)
    requires j < |Lookups(events)| && LookupTurns(events, j) >= Sections(Lookups(events)[j].path)
    ensures var s := Run(events);
            && |s.finders| == |Lookups(events)| && s.finders[j].done
            && s.finders[j].path == Lookups(events)[j].path && s.finders[j].avail == Lookups(events)[j].avail
  {
    LookupsOnTime(events, j);
  }

  /** Every insert asked for has had its sections. */
  ghost predicate AllServed(events: seq<Event>) {
    forall i :: 0 <= i < |Inserts(events)| ==> InsertTurns(events, i) >= Sections(Inserts(events)[i].path)
  }

  lemma ServedMeansFinished(events: seq<Event>)
    requires AllServed(events)
    ensures forall i :: 0 <= i < |Run(events).inserters| ==> Run(events).inserters[i].Finished()
    ensures Entries(Run(events).inserters) == Inserts(events)
  {
    InsertCount(events);
    forall i | 0 <= i < |Inserts(events)|
      ensures Run(events).inserters[i].Finished() && Entries(Run(events).inserters)[i] == Inserts(events)[i]
    {
      InsertsOnTime(events, i);
    }
  }

  /** Then the trie is the one that the inserts asked for build one after another, in the order they were asked for. */
  lemma ServedTrieIsSequential(events: seq<Event>)
    requires AllServed(events)
    ensures Run(events).view == ViewOf(Inserts(events))
  {
    hide Run, ViewOf, Entries;
    ServedMeansFinished(events);
    QuiescentTrieIsSequential(events);
  }

  /** A finished lookup that the trie did not change under gives the answer of an atomic one. */
  lemma UndisturbedIsAtomic(events: seq<Event>, j: nat)
    requires j < |Run(events).finders| && Run(events).finders[j].done && Run(events).finders[j].start == Run(events).view
    ensures var s := Run(events);
            var f := s.finders[j];
            (f.depth, f.selected) == Lookup(s.view, f.path, f.avail)
  {
    hide Run, Lookup;
    RunKeepsInvariant(events);
    Squeezed(Run(events).view, Run(events).finders[j]);
  }

  lemma Squeezed(v: View, f: Finder)
    requires WellFormed(v) && FinderOk(v, f) && f.done && f.start == v
    ensures (f.depth, f.selected) == Lookup(v, f.path, f.avail)
  {
    hide Lookup;
    FinderDepthSandwiched(v, f);
    LookupIsDeepest(v, f.path, f.avail);
    var (k, found) := Lookup(v, f.path, f.avail);
    assert f.depth == k;
    assert k > 0 ==> f.selected == Live(v, f.path[..k], f.avail);
  }

  lemma {:induction false} QuietRun(events: seq<Event>, more: seq<Event>)
    requires forall i :: 0 <= i < |Run(events).inserters| ==> Run(events).inserters[i].Finished()
    requires forall k :: 0 <= k < |more| ==> !more[k].BeginInsert?
    ensures Run(events + more).view == Run(events).view && Run(events + more).inserters == Run(events).inserters
    ensures |Run(events + more).finders| >= |Run(events).finders|
    ensures forall j :: 0 <= j < |Run(events).finders| ==> Run(events + more).finders[j].start == Run(events).finders[j].start
  {
    if more == [] {
      assert events + more == events;
    } else {
      var init := more[..|more| - 1];
      QuietRun(events, init);
      assert (events + more)[..|events + more| - 1] == events + init;
    }
  }

  /**
   A lookup begun once every insert has had its sections, and given its own before another
   insert begins, returns the longest match in the plain history of the inserts asked for.
   */
  lemma QuietLookupFindsLongestMatch(events: seq<Event>, path: Path, avail: set<Url>, more: seq<Event>)
    requires AllServed(events) && forall k :: 0 <= k < |more| ==> !more[k].BeginInsert?
    requires LookupTurns(events + [BeginLookup(path, avail)] + more, |Lookups(events)|) >= Sections(path)
    ensures var s, j := Run(events + [BeginLookup(path, avail)] + more), |Lookups(events)|;
            && j < |s.finders| && s.finders[j].done
            && (s.finders[j].depth, s.finders[j].selected) == Lookup(ViewOf(Inserts(events)), path, avail)
            && IsLongestMatch(Inserts(events), path, avail, s.finders[j].depth, s.finders[j].selected)
  {
    hide Lookup, IsLongestMatch, ViewOf;
    var begun, j := events + [BeginLookup(path, avail)], |Lookups(events)|;
    var all := begun + more;
    assert begun[..|events|] == events;
    InsertCount(events);
    ServedMeansFinished(events);
    ServedTrieIsSequential(events);
    QuietRun(begun, more);
    LookupsGrow(begun, more);
    LookupEnds(all, j);
    UndisturbedIsAtomic(all, j);
    LookupFindsLongestMatch(Inserts(events), path, avail);
  }

  lemma {:induction false} LookupsGrow(events: seq<Event>, more: seq<Event>)
    ensures Lookups(events) <= Lookups(events + more)
  {
    if more == [] {
      assert events + more == events;
    } else {
      LookupsGrow(events, more[..|more| - 1]);
      assert (events + more)[..|events + more| - 1] == events + more[..|more| - 1];
    }
  }
}
