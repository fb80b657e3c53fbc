/**
 `PrefixAwareRouter`: routing that feeds its own answers back into the trie it
 consults. The theorems are about whole runs of it, with the set of live engines
 changing from request to request.
 */
module PrefixAware {
  import opened Basics
  import opened Trie
  import opened HashTries
  import Failover
  import RequestStats
  import opened QpsRouting

  /** One routed request: its chunk hashes, the engines live at the time, and the engine chosen. */
  datatype Placement = Placement(path: Path, avail: set<Url>, choice: Url)

  ghost function HistoryOf(log: seq<Placement>): seq<Entry> {
    seq(|log|, i requires 0 <= i < |log| => Entry(log[i].path, log[i].choice))
  }

  /** What the code lets a request be given: a deepest holder if the match is long enough, any live engine otherwise. */
  ghost predicate Allowed(history: seq<Entry>, chunkSize: int, minMatch: int, p: Placement) {
    && p.choice in p.avail
    && var (k, found) := Lookup(ViewOf(history), p.path, p.avail);
       k * chunkSize >= minMatch ==> p.choice in found
  }

  ghost predicate ValidRun(log: seq<Placement>, chunkSize: int, minMatch: int) {
    forall i :: 0 <= i < |log| ==> Allowed(HistoryOf(log[..i]), chunkSize, minMatch, log[i])
  }

  /** What came in: the prompt, and the engines with their statistics as the router was given them. */
  datatype Asked = Asked(prompt: string, endpoints: seq<Url>, stats: map<Url, RequestStats.Stats>)

  /** Exactly what `route_request` may do with a request: below the threshold the engine is the one of least rate. */
  ghost predicate Answers(history: seq<Entry>, chunkSize: int, minMatch: int, hash: string -> int, a: Asked, p: Placement)
    requires chunkSize >= 1
  {
    && p.path == Hashes(a.prompt, chunkSize, hash) && p.avail == Urls(a.endpoints)
    && Allowed(history, chunkSize, minMatch, p)
    && (Lookup(ViewOf(history), p.path, p.avail).0 * chunkSize < minMatch ==> ChosenByQps(a.endpoints, a.stats, p.choice))
  }

  /** A run of the router: prompts and fleets in, placements out. */
  ghost predicate CodeRun(asked: seq<Asked>, log: seq<Placement>, chunkSize: int, minMatch: int, hash: string -> int)
    requires chunkSize >= 1
  {
    && |asked| == |log|
    && forall i :: 0 <= i < |log| ==> Answers(HistoryOf(log[..i]), chunkSize, minMatch, hash, asked[i], log[i])
  }

  lemma CodeRunIsValid(asked: seq<Asked>, log: seq<Placement>, chunkSize: int, minMatch: int, hash: string -> int)
    requires chunkSize >= 1 && CodeRun(asked, log, chunkSize, minMatch, hash)
    ensures ValidRun(log, chunkSize, minMatch)
  {
    hide Allowed;
  }

  ghost function Fleets(log: seq<Placement>): seq<set<Url>> {
    seq(|log|, i requires 0 <= i < |log| => log[i].avail)
  }

  /** Long enough a prefix to decide the routing. */
  predicate Decides(p: Path, chunkSize: int, minMatch: int) {
    p != [] && |p| * chunkSize >= minMatch
  }

  /**
   Prefix affinity: a request sharing a deciding prefix with an earlier one goes to
   the same engine whenever that engine is live.
   */
  ghost predicate Affine(log: seq<Placement>, chunkSize: int, minMatch: int) {
    forall i, j, p :: Bound(log, chunkSize, minMatch, i, j, p) ==> log[j].choice == log[i].choice
  }

  /** Requests `i` and `j` share the deciding prefix `p`, and the engine of `i` is live for `j`. */
  ghost predicate Bound(log: seq<Placement>, chunkSize: int, minMatch: int, i: int, j: int, p: Path) {
    && 0 <= i < j < |log|
    && Decides(p, chunkSize, minMatch)
    && p <= log[i].path && p <= log[j].path
    && log[i].choice in log[j].avail
  }

  /** An engine goes away while another is live, and both are live together later. */
  ghost predicate ComesBack(fleets: seq<set<Url>>, i: int, j: int, k: int, u: Url, v: Url) {
    && 0 <= i < j < k < |fleets|
    && u in fleets[i] && u !in fleets[j] && v in fleets[j] && u in fleets[k] && v in fleets[k]
  }

  ghost predicate Comeback(fleets: seq<set<Url>>) {
    exists i, j, k, u, v :: ComesBack(fleets, i, j, k, u, v)
  }

  // ---- Who holds a node ----

  ghost predicate HeldBy(log: seq<Placement>, p: Path, u: Url) {
    exists i :: 0 <= i < |log| && p <= log[i].path && log[i].choice == u
  }

  lemma HeldByIsHolders(log: seq<Placement>, p: Path, u: Url)
    ensures u in Holders(HistoryOf(log), p) <==> HeldBy(log, p, u)
  {
    var h := HistoryOf(log);
    if u in Holders(h, p) {
      var x :| x in h && p <= x.path && x.url == u;
      var i :| 0 <= i < |h| && h[i] == x;
      assert p <= log[i].path && log[i].choice == u;
    }
    if i :| 0 <= i < |log| && p <= log[i].path && log[i].choice == u {
      assert h[i] in h;
    }
  }

  /** A holder was put there by some first request. */
  lemma {:induction false} FirstHolding(log: seq<Placement>, p: Path, u: Url) returns (i: nat)
    requires HeldBy(log, p, u)
    ensures i < |log| && p <= log[i].path && log[i].choice == u && !HeldBy(log[..i], p, u)
    decreases |log|
  {
    i :| 0 <= i < |log| && p <= log[i].path && log[i].choice == u;
    if HeldBy(log[..i], p, u) {
      i := FirstHolding(log[..i], p, u);
      assert log[..i] == log[..i][..i];
    }
  }

  /** A request whose prefix has a live holder goes to an engine that already holds the prefix. */
  lemma ChoiceIsHolder(log: seq<Placement>, chunkSize: int, minMatch: int, j: nat, p: Path, u: Url)
    requires chunkSize >= 1 && j < |log| && Allowed(HistoryOf(log[..j]), chunkSize, minMatch, log[j])
    requires Decides(p, chunkSize, minMatch) && p <= log[j].path
    requires HeldBy(log[..j], p, u) && u in log[j].avail
    ensures HeldBy(log[..j], p, log[j].choice)
  {
    var h, q, avail := HistoryOf(log[..j]), log[j].path, log[j].avail;
    var v := ViewOf(h);
    HeldByIsHolders(log[..j], p, u);
    ViewOfWellFormed(h);
    ViewOfAt(h, p);
    LookupIsDeepest(v, q, avail);
    var (k, found) := Lookup(v, q, avail);
    assert p == q[..|p|] && u in Live(v, q[..|p|], avail);
    assert k >= |p|;
    LongerMatchesLonger(|p|, k, chunkSize);
    PrefixInView(v, q[..k], |p|);
    assert q[..k][..|p|] == p;
    HeldByIsHolders(log[..j], p, log[j].choice);
  }

  lemma LongerMatchesLonger(m: nat, n: nat, size: int)
    requires m <= n && size >= 1
    ensures m * size <= n * size
  {
  }

  lemma OneOwnerOrdered(log: seq<Placement>, chunkSize: int, minMatch: int, p: Path, i: nat, j: nat, u: Url, v: Url)
    requires chunkSize >= 1 && ValidRun(log, chunkSize, minMatch) && Decides(p, chunkSize, minMatch) && log != []
    requires i < j < |log| && u in log[|log| - 1].avail && v in log[|log| - 1].avail
    requires p <= log[i].path && log[i].choice == u
    requires p <= log[j].path && log[j].choice == v && !HeldBy(log[..j], p, v)
    ensures ComesBack(Fleets(log), i, j, |log| - 1, u, v)
  {
    hide ValidRun, Allowed, Decides;
    assert log[..j][i] == log[i] && HeldBy(log[..j], p, u);
    ChoiceIsLive(log, chunkSize, minMatch, i);
    ChoiceIsLive(log, chunkSize, minMatch, j);
    if u in log[j].avail {
      AllowedAt(log, chunkSize, minMatch, j);
      ChoiceIsHolder(log, chunkSize, minMatch, j, p, u);
    }
  }

  lemma AllowedAt(log: seq<Placement>, chunkSize: int, minMatch: int, j: nat)
    requires j < |log| && ValidRun(log, chunkSize, minMatch)
    ensures Allowed(HistoryOf(log[..j]), chunkSize, minMatch, log[j])
  {
  }

  /** At most one live engine holds a deciding prefix, at every point of a run without a comeback. */
  lemma OneOwner(log: seq<Placement>, chunkSize: int, minMatch: int, p: Path, u: Url, v: Url)
    requires chunkSize >= 1 && ValidRun(log, chunkSize, minMatch) && Decides(p, chunkSize, minMatch)
    requires log != [] && !Comeback(Fleets(log))
    requires HeldBy(log, p, u) && u in log[|log| - 1].avail
    requires HeldBy(log, p, v) && v in log[|log| - 1].avail
    ensures u == v
  {
    if u != v {
      var i := FirstHolding(log, p, u);
      var j := FirstHolding(log, p, v);
      if i < j {
        OneOwnerOrdered(log, chunkSize, minMatch, p, i, j, u, v);
      } else {
        OneOwnerOrdered(log, chunkSize, minMatch, p, j, i, v, u);
      }
    }
  }

  lemma PrefixRun(log: seq<Placement>, n: nat, chunkSize: int, minMatch: int)
    requires n <= |log| && ValidRun(log, chunkSize, minMatch)
    ensures ValidRun(log[..n], chunkSize, minMatch)
    ensures !Comeback(Fleets(log)) ==> !Comeback(Fleets(log[..n]))
  {
    forall i | 0 <= i < n ensures Allowed(HistoryOf(log[..n][..i]), chunkSize, minMatch, log[..n][i]) {
      assert log[..n][..i] == log[..i];
    }
    if i, j, k, u, v :| ComesBack(Fleets(log[..n]), i, j, k, u, v) {
      assert ComesBack(Fleets(log), i, j, k, u, v);
    }
  }

  lemma ChoiceIsLive(log: seq<Placement>, chunkSize: int, minMatch: int, j: nat)
    requires j < |log| && ValidRun(log, chunkSize, minMatch)
    ensures log[j].choice in log[j].avail
  {
    assert Allowed(HistoryOf(log[..j]), chunkSize, minMatch, log[j]);
  }

  lemma HoldsUpTo(log: seq<Placement>, i: nat, j: nat, p: Path)
    requires i <= j < |log| && p <= log[i].path
    ensures HeldBy(log[..j + 1], p, log[i].choice)
  {
    assert log[..j + 1][i] == log[i];
  }

  lemma BoundAgree(log: seq<Placement>, chunkSize: int, minMatch: int, i: int, j: int, p: Path)
    requires chunkSize >= 1 && ValidRun(log, chunkSize, minMatch) && !Comeback(Fleets(log))
    requires Bound(log, chunkSize, minMatch, i, j, p)
    ensures log[j].choice == log[i].choice
  {
    hide ValidRun, Comeback, Fleets, HeldBy, Decides;
    PrefixRun(log, j + 1, chunkSize, minMatch);
    ChoiceIsLive(log, chunkSize, minMatch, j);
    HoldsUpTo(log, i, j, p);
    HoldsUpTo(log, j, j, p);
    OneOwner(log[..j + 1], chunkSize, minMatch, p, log[i].choice, log[j].choice);
  }

  lemma NoComebackAffine(log: seq<Placement>, chunkSize: int, minMatch: int)
    requires chunkSize >= 1 && ValidRun(log, chunkSize, minMatch) && !Comeback(Fleets(log))
    ensures Affine(log, chunkSize, minMatch)
  {
    hide ValidRun, Comeback, Decides;
    forall i, j, p | Bound(log, chunkSize, minMatch, i, j, p)
      ensures log[j].choice == log[i].choice
    {
      BoundAgree(log, chunkSize, minMatch, i, j, p);
    }
  }

  // ---- The condition is exact ----

  /** Requests with an empty prompt everywhere, but for three that share one long prompt. */
  ghost function Witness(fleets: seq<set<Url>>, i: int, j: int, k: int, u: Url, v: Url, prompt: Path): seq<Placement>
    requires forall t :: 0 <= t < |fleets| ==> fleets[t] != {}
  {
    seq(|fleets|, t requires 0 <= t < |fleets| =>
      if t == i then Placement(prompt, fleets[t], u)
      else if t == j || t == k then Placement(prompt, fleets[t], v)
      else var w :| w in fleets[t]; Placement([], fleets[t], w))
  }

  lemma WitnessAllowed(fleets: seq<set<Url>>, i: int, j: int, k: int, u: Url, v: Url, prompt: Path,
                       chunkSize: int, minMatch: int, t: nat)
    requires ComesBack(fleets, i, j, k, u, v) && t < |fleets|
    requires forall t :: 0 <= t < |fleets| ==> fleets[t] != {}
    ensures var log := Witness(fleets, i, j, k, u, v, prompt);
            Allowed(HistoryOf(log[..t]), chunkSize, minMatch, log[t])
  {
    var log := Witness(fleets, i, j, k, u, v, prompt);
    var h, x := HistoryOf(log[..t]), log[t];
    ViewOfWellFormed(h);
    LookupIsDeepest(ViewOf(h), x.path, x.avail);
    var (n, found) := Lookup(ViewOf(h), x.path, x.avail);
    if n > 0 {
      var p := x.path[..n];
      if t == k {
        ViewOfAt(h, p);
        HeldByIsHolders(log[..t], p, x.choice);
        assert log[..t][j] == log[j];
        assert HeldBy(log[..t], p, v);
      } else {
        WitnessNoneLive(fleets, i, j, k, u, v, prompt, t, p);
      }
    }
  }

  /** Before the third of the three requests, nobody live holds any of the prompt they share. */
  lemma WitnessNoneLive(fleets: seq<set<Url>>, i: int, j: int, k: int, u: Url, v: Url, prompt: Path, t: nat, p: Path)
    requires ComesBack(fleets, i, j, k, u, v) && t < |fleets| && t != k && p != []
    requires forall t :: 0 <= t < |fleets| ==> fleets[t] != {}
    requires p <= Witness(fleets, i, j, k, u, v, prompt)[t].path
    ensures var log := Witness(fleets, i, j, k, u, v, prompt);
            Live(ViewOf(HistoryOf(log[..t])), p, log[t].avail) == {}
  {
    var log := Witness(fleets, i, j, k, u, v, prompt);
    var h := HistoryOf(log[..t]);
    ViewOfAt(h, p);
    forall w | w in Holders(h, p) ensures w !in log[t].avail {
      HeldByIsHolders(log[..t], p, w);
    }
  }

  /** Over any such fleets, with any hash function, some prompts make the router break affinity. */
  lemma ComebackBreaksAffinity(fleets: seq<set<Url>>, chunkSize: int, minMatch: int, hash: string -> int)
    returns (asked: seq<Asked>, log: seq<Placement>)
    requires chunkSize >= 1 && Comeback(fleets)
    requires forall t :: 0 <= t < |fleets| ==> fleets[t] != {}
    ensures CodeRun(asked, log, chunkSize, minMatch, hash) && Fleets(log) == fleets && !Affine(log, chunkSize, minMatch)
  {
    hide CodeRun, Affine, Fleets;
    var i, j, k, u, v :| ComesBack(fleets, i, j, k, u, v);
    asked, log := BreaksAffinityAt(fleets, i, j, k, u, v, chunkSize, minMatch, hash);
  }

  /** One prompt three times: it goes to `u`, to `v` while `u` is away, and to `v` again when both are live. */
  lemma BreaksAffinityAt(fleets: seq<set<Url>>, i: int, j: int, k: int, u: Url, v: Url,
                         chunkSize: int, minMatch: int, hash: string -> int)
    returns (asked: seq<Asked>, log: seq<Placement>)
    requires chunkSize >= 1 && ComesBack(fleets, i, j, k, u, v)
    requires forall t :: 0 <= t < |fleets| ==> fleets[t] != {}
    ensures CodeRun(asked, log, chunkSize, minMatch, hash) && Fleets(log) == fleets && !Affine(log, chunkSize, minMatch)
    ensures asked[i].prompt == asked[j].prompt == asked[k].prompt
    ensures log[i].choice == u && log[j].choice == v && log[k].choice == v
  {
    hide Witness, WitnessAsked, Answers, Fleets, Decides, Hashes;
    var text := LongText(chunkSize, minMatch, hash);
    var prompt := Hashes(text, chunkSize, hash);
    log := Witness(fleets, i, j, k, u, v, prompt);
    asked := WitnessAsked(log, text);
    WitnessShape(fleets, i, j, k, u, v, prompt);
    NotEmpty(prompt, chunkSize, minMatch);
    AskedPrompt(log, text, i);
    AskedPrompt(log, text, j);
    AskedPrompt(log, text, k);
    forall t | 0 <= t < |log| ensures Answers(HistoryOf(log[..t]), chunkSize, minMatch, hash, asked[t], log[t]) {
      WitnessAllowed(fleets, i, j, k, u, v, prompt, chunkSize, minMatch, t);
      WitnessAnswers(fleets, i, j, k, u, v, text, chunkSize, minMatch, hash, t);
    }
    assert Bound(log, chunkSize, minMatch, i, k, prompt);
  }

  lemma NotEmpty(p: Path, chunkSize: int, minMatch: int)
    requires Decides(p, chunkSize, minMatch)
    ensures p != []
  {
  }

  lemma AskedPrompt(log: seq<Placement>, text: string, t: nat)
    requires t < |log| && log[t].path != []
    ensures WitnessAsked(log, text)[t].prompt == text
  {
  }

  /** A set of engines listed in some order. */
  ghost function Listing(s: set<Url>): (urls: seq<Url>)
    ensures forall u :: u in urls <==> u in s
  {
    if s == {} then []
    else
      var u :| u in s;
      [u] + Listing(s - {u})
  }

  /** The prompts behind the placements, with the chosen engine listed first and no statistics yet. */
  ghost function WitnessAsked(log: seq<Placement>, text: string): (asked: seq<Asked>)
    ensures |asked| == |log|
  {
    seq(|log|, t requires 0 <= t < |log| =>
      Asked(if log[t].path == [] then "" else text, [log[t].choice] + Listing(log[t].avail - {log[t].choice}), map[]))
  }

  lemma WitnessAnswers(fleets: seq<set<Url>>, i: int, j: int, k: int, u: Url, v: Url, text: string,
                       chunkSize: int, minMatch: int, hash: string -> int, t: nat)
    requires chunkSize >= 1 && ComesBack(fleets, i, j, k, u, v) && t < |fleets| && text != ""
    requires forall t :: 0 <= t < |fleets| ==> fleets[t] != {}
    requires var log := Witness(fleets, i, j, k, u, v, Hashes(text, chunkSize, hash));
             Allowed(HistoryOf(log[..t]), chunkSize, minMatch, log[t])
    ensures var log := Witness(fleets, i, j, k, u, v, Hashes(text, chunkSize, hash));
            Answers(HistoryOf(log[..t]), chunkSize, minMatch, hash, WitnessAsked(log, text)[t], log[t])
  {
    var log := Witness(fleets, i, j, k, u, v, Hashes(text, chunkSize, hash));
    var a := WitnessAsked(log, text)[t];
    assert log[t].path == [] || log[t].path == Hashes(text, chunkSize, hash);
    hide Lookup, ViewOf, Witness;
    assert IsQpsChoice(a.endpoints, a.stats, 0);
    FirstListed(log[t].avail, log[t].choice);
  }

  lemma FirstListed(s: set<Url>, u: Url)
    requires u in s
    ensures Urls([u] + Listing(s - {u})) == s
  {
  }

  /** A text whose hashes are long enough to decide, whatever the hash function. */
  lemma LongText(chunkSize: int, minMatch: int, hash: string -> int) returns (text: string)
    requires chunkSize >= 1
    ensures text != "" && Decides(Hashes(text, chunkSize, hash), chunkSize, minMatch)
  {
    text := seq(if minMatch >= 1 then minMatch else 1, _ => 'a');
    HashesCover(text, chunkSize, hash);
  }

  lemma WitnessShape(fleets: seq<set<Url>>, i: int, j: int, k: int, u: Url, v: Url, prompt: Path)
    requires ComesBack(fleets, i, j, k, u, v)
    requires forall t :: 0 <= t < |fleets| ==> fleets[t] != {}
    ensures var log := Witness(fleets, i, j, k, u, v, prompt);
            && |log| == |fleets| && Fleets(log) == fleets
            && log[i] == Placement(prompt, fleets[i], u)
            && log[j] == Placement(prompt, fleets[j], v) && log[k] == Placement(prompt, fleets[k], v)
  {
  }

  /**
   Exactly which fleets keep prefix affinity. For a sequence of non-empty live sets and
   any hash function, every run of the router over them is affine if and only if no
   engine goes away and comes back to find an engine that was live meanwhile.
   */
  lemma AffinityExactly(fleets: seq<set<Url>>, chunkSize: int, minMatch: int, hash: string -> int)
    requires chunkSize >= 1 && forall t :: 0 <= t < |fleets| ==> fleets[t] != {}
    ensures (forall asked, log :: CodeRun(asked, log, chunkSize, minMatch, hash) && Fleets(log) == fleets ==>
               Affine(log, chunkSize, minMatch))
            <==> !Comeback(fleets)
  {
    hide CodeRun, Affine, Comeback, Fleets;
    if Comeback(fleets) {
      var asked, log := ComebackBreaksAffinity(fleets, chunkSize, minMatch, hash);
    } else {
      forall asked, log | CodeRun(asked, log, chunkSize, minMatch, hash) && Fleets(log) == fleets
        ensures Affine(log, chunkSize, minMatch)
      {
        CodeRunIsValid(asked, log, chunkSize, minMatch, hash);
        NoComebackAffine(log, chunkSize, minMatch);
      }
    }
  }

  /**
   The failover loop makes comebacks by itself: it asks again over the engines that
   remain after a failure, and the next request lists the failed one again.
   */
  lemma RotationIsComeback(fleets: seq<set<Url>>, i: int, j: int, k: int, endpoints: seq<Url>, errors: set<Url>, u: Url, v: Url)
    requires 0 <= i < j < k < |fleets| && u in endpoints && u in errors && v in Failover.Remaining(endpoints, errors)
    requires fleets[i] == Urls(endpoints) && fleets[j] == Urls(Failover.Remaining(endpoints, errors))
    requires u in fleets[k] && v in fleets[k]
    ensures ComesBack(fleets, i, j, k, u, v) && Comeback(fleets)
  {
    assert ComesBack(fleets, i, j, k, u, v);
  }

  /**
   So a request that failed at `u` and was rotated to `v` can send the next request with
   its prompt to `v`, although `u`, which was given the prompt first, is live again.
   */
  lemma RotationBreaksAffinity(endpoints: seq<Url>, u: Url, v: Url, chunkSize: int, minMatch: int, hash: string -> int)
    returns (asked: seq<Asked>, log: seq<Placement>)
    requires chunkSize >= 1 && u in endpoints && v in endpoints && u != v
    ensures CodeRun(asked, log, chunkSize, minMatch, hash) && !Affine(log, chunkSize, minMatch) && |log| == 3
    ensures log[0].avail == log[2].avail == Urls(endpoints)
    ensures log[1].avail == Urls(Failover.Remaining(endpoints, {u}))
    ensures asked[0].prompt == asked[1].prompt == asked[2].prompt
    ensures log[0].choice == u && log[1].choice == v && log[2].choice == v
  {
    hide CodeRun, Affine, Comeback;
    var fleets := [Urls(endpoints), Urls(Failover.Remaining(endpoints, {u})), Urls(endpoints)];
    assert v in fleets[1] && u in fleets[0];
    RotationIsComeback(fleets, 0, 1, 2, endpoints, {u}, u, v);
    asked, log := BreaksAffinityAt(fleets, 0, 1, 2, u, v, chunkSize, minMatch, hash);
    assert |Fleets(log)| == 3 && forall t :: 0 <= t < 3 ==> Fleets(log)[t] == log[t].avail;
  }

  lemma HolderWasLive(log: seq<Placement>, chunkSize: int, minMatch: int, p: Path, u: Url)
    requires ValidRun(log, chunkSize, minMatch) && HeldBy(log, p, u)
    ensures exists i :: 0 <= i < |log| && u in log[i].avail
  {
    var i :| 0 <= i < |log| && p <= log[i].path && log[i].choice == u;
    assert Allowed(HistoryOf(log[..i]), chunkSize, minMatch, log[i]);
  }

  /** With a fixed fleet every deciding node of the trie holds exactly one engine, always. */
  lemma FixedFleetOneOwner(log: seq<Placement>, fleet: set<Url>, chunkSize: int, minMatch: int, p: Path)
    requires chunkSize >= 1 && ValidRun(log, chunkSize, minMatch) && Decides(p, chunkSize, minMatch)
    requires forall i :: 0 <= i < |log| ==> log[i].avail == fleet
    requires p in ViewOf(HistoryOf(log))
    ensures |ViewOf(HistoryOf(log))[p]| == 1
  {
    var h := HistoryOf(log);
    ViewOfAt(h, p);
    var x :| x in h && p <= x.path;
    assert !Comeback(Fleets(log));
    hide ValidRun, Comeback, HeldBy, ViewOf;
    forall u | u in Holders(h, p) ensures u == x.url {
      HeldByIsHolders(log, p, u);
      HeldByIsHolders(log, p, x.url);
      HolderWasLive(log, chunkSize, minMatch, p, u);
      HolderWasLive(log, chunkSize, minMatch, p, x.url);
      OneOwner(log, chunkSize, minMatch, p, u, x.url);
    }
    assert Holders(h, p) == {x.url};
  }

  /**
   The same in terms of prompts: two prompts that agree on their first `d` chunks of
   text go to the same engine while it is live, whatever the hash function does.
   */
  lemma SamePromptSameEngine(log: seq<Placement>, prompts: seq<string>, hash: string -> int,
                             chunkSize: int, minMatch: int, i: nat, j: nat, d: nat, text: nat)
    requires chunkSize >= 1 && ValidRun(log, chunkSize, minMatch) && !Comeback(Fleets(log))
    requires |prompts| == |log| && forall t :: 0 <= t < |log| ==> log[t].path == Hashes(prompts[t], chunkSize, hash)
    requires i < j < |log| && d >= 1 && text == d * chunkSize && text >= minMatch
    requires text <= |prompts[i]| && text <= |prompts[j]| && prompts[i][..text] == prompts[j][..text]
    requires log[i].choice in log[j].avail
    ensures log[j].choice == log[i].choice
  {
    hide ValidRun, Comeback, Fleets;
    SameTextSharesHashes(prompts[i], prompts[j], d, chunkSize, hash);
    hide Hashes;
    assert Bound(log, chunkSize, minMatch, i, j, log[i].path[..d]);
    BoundAgree(log, chunkSize, minMatch, i, j, log[i].path[..d]);
  }

  // ---- The router object ----

  datatype Routed = To(url: Url) | Nowhere | ChoiceFromEmpty

  const CHUNK_SIZE := 128

  class PrefixAwareRouter {
    const hashtrie: HashTrie
    const prefixMinMatchLength: int
    ghost var asked: seq<Asked>
    ghost var log: seq<Placement>

    /** The trie holds exactly the placements this router made of what it was asked. */
    ghost predicate Valid()
      reads this, hashtrie, hashtrie.repr
    {
      && hashtrie.Valid()
      && hashtrie.history == HistoryOf(log)
      && CodeRun(asked, log, hashtrie.chunkSize, prefixMinMatchLength, hashtrie.hash)
    }

    constructor (prefixMinMatchLength: int, hash: string -> int)
      ensures Valid() && asked == [] && log == [] && this.prefixMinMatchLength == prefixMinMatchLength
      ensures hashtrie.chunkSize == CHUNK_SIZE && hashtrie.hash == hash
      ensures fresh(hashtrie) && fresh(hashtrie.repr)
    {
      hashtrie := new HashTrie(CHUNK_SIZE, hash);
      this.prefixMinMatchLength := prefixMinMatchLength;
      asked, log := [], [];
    }

    /** From the match to the engine: one that reaches it, or the engine of least rate below the threshold. */
    method Select(endpoints: seq<Url>, stats: map<Url, RequestStats.Stats>, matchLength: int, matched: set<Url>)
      returns (r: Routed)
      requires endpoints == [] ==> matched == {} && matchLength == 0
      requires endpoints != [] ==> matched != {} && matched <= Urls(endpoints)
      ensures endpoints == [] ==> r == if 0 < prefixMinMatchLength then Nowhere else ChoiceFromEmpty
      ensures endpoints != [] ==> r.To? && r.url in endpoints
      ensures r.To? && matchLength >= prefixMinMatchLength ==> r.url in matched
      ensures r.To? && matchLength < prefixMinMatchLength ==> ChosenByQps(endpoints, stats, r.url)
    {
      if matchLength < prefixMinMatchLength {
        var byQps := RouteByQps(endpoints, stats);
        r := if byQps.Some? then To(byQps.value) else Nowhere;
      } else if matched == {} {
        r := ChoiceFromEmpty;
      } else {
        var selected :| selected in matched;
        r := To(selected);
      }
    }

    /** The engine for a prompt, without recording it yet. */
    method Choose(endpoints: seq<Url>, stats: map<Url, RequestStats.Stats>, prompt: string) returns (r: Routed)
      requires Valid()
      ensures endpoints == [] ==> r == if 0 < prefixMinMatchLength then Nowhere else ChoiceFromEmpty
      ensures endpoints != [] ==> r.To? && r.url in endpoints
      ensures r.To? ==> Answers(hashtrie.history, hashtrie.chunkSize, prefixMinMatchLength, hashtrie.hash,
                                Asked(prompt, endpoints, stats),
                                Placement(hashtrie.PathOf(prompt), Urls(endpoints), r.url))
    {
      hide IsLongestMatch, ViewOf, Lookup, Answers, CodeRun, ChosenByQps, Hashes, Urls;
      var available := Urls(endpoints);
      var matchLength, matched := hashtrie.LongestPrefixMatch(prompt, available);
      MatchNeedsEngines(hashtrie.history, hashtrie.PathOf(prompt), available,
                        Lookup(hashtrie.view, hashtrie.PathOf(prompt), available).0, matched);
      UrlsEmpty(endpoints);
      r := Select(endpoints, stats, matchLength, matched);
      if r.To? {
        UrlsAre(endpoints, r.url);
        ChoiceAnswers(hashtrie.history, hashtrie.chunkSize, prefixMinMatchLength, hashtrie.hash, matchLength,
                      Asked(prompt, endpoints, stats), Placement(hashtrie.PathOf(prompt), available, r.url));
      }
    }

    /** `route_request`, from the prompt on: choose, then record the choice in the trie. */
    method RouteRequest(endpoints: seq<Url>, stats: map<Url, RequestStats.Stats>, prompt: string) returns (r: Routed)
      requires Valid()
      modifies this`asked, this`log, hashtrie, hashtrie.repr
      ensures Valid() && fresh(hashtrie.repr - old(hashtrie.repr))
      ensures endpoints == [] ==> r == if 0 < prefixMinMatchLength then Nowhere else ChoiceFromEmpty
      ensures endpoints != [] ==> r.To? && r.url in endpoints
      ensures asked == if r.To? then old(asked) + [Asked(prompt, endpoints, stats)] else old(asked)
      ensures log == if r.To? then old(log) + [Placement(hashtrie.PathOf(prompt), Urls(endpoints), r.url)] else old(log)
    {
      hide CodeRun, Answers, Hashes, ViewOf, Urls, HashTrie.Linked;
      r := Choose(endpoints, stats, prompt);
      if r.To? {
        ghost var p := Placement(hashtrie.PathOf(prompt), Urls(endpoints), r.url);
        RunGrows(asked, log, Asked(prompt, endpoints, stats), p, hashtrie.chunkSize, prefixMinMatchLength, hashtrie.hash);
        hashtrie.Insert(prompt, r.url);
        asked, log := asked + [Asked(prompt, endpoints, stats)], log + [p];
      }
    }
  }

  lemma UrlsEmpty(endpoints: seq<Url>)
    ensures Urls(endpoints) == {} <==> endpoints == []
  {
    assert endpoints != [] ==> endpoints[0] in Urls(endpoints);
  }

  lemma UrlsAre(endpoints: seq<Url>, u: Url)
    ensures u in Urls(endpoints) <==> u in endpoints
  {
  }

  lemma ChoiceAnswers(history: seq<Entry>, chunkSize: int, minMatch: int, hash: string -> int, matchLength: int,
                      a: Asked, p: Placement)
    requires chunkSize >= 1 && matchLength == Lookup(ViewOf(history), p.path, p.avail).0 * chunkSize
    requires p.path == Hashes(a.prompt, chunkSize, hash) && p.avail == Urls(a.endpoints) && p.choice in p.avail
    requires matchLength >= minMatch ==> p.choice in Lookup(ViewOf(history), p.path, p.avail).1
    requires matchLength < minMatch ==> ChosenByQps(a.endpoints, a.stats, p.choice)
    ensures Answers(history, chunkSize, minMatch, hash, a, p)
  {
  }

  lemma MatchNeedsEngines(history: seq<Entry>, path: Path, avail: set<Url>, k: nat, found: set<Url>)
    requires IsLongestMatch(history, path, avail, k, found)
    ensures found == {} <==> avail == {}
    ensures found <= avail && (avail == {} ==> k == 0)
  {
    if k > 0 {
      var x :| x in history && x.url in avail && Shared(path, x.path) == k;
      assert x.url in found;
    }
  }

  lemma RunGrows(asked: seq<Asked>, log: seq<Placement>, a: Asked, p: Placement, chunkSize: int, minMatch: int,
                 hash: string -> int)
    requires chunkSize >= 1 && CodeRun(asked, log, chunkSize, minMatch, hash)
    requires Answers(HistoryOf(log), chunkSize, minMatch, hash, a, p)
    ensures CodeRun(asked + [a], log + [p], chunkSize, minMatch, hash)
    ensures HistoryOf(log + [p]) == HistoryOf(log) + [Entry(p.path, p.choice)]
  {
    hide Answers;
    var more, queue := log + [p], asked + [a];
    forall i | 0 <= i < |more| ensures Answers(HistoryOf(more[..i]), chunkSize, minMatch, hash, queue[i], more[i]) {
      assert more[..i] == if i < |log| then log[..i] else log;
    }
  }
}
