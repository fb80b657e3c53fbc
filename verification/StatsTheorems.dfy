/**
 What holds of the request statistics in every run, for every interleaving of
 calls and with duplicate, stale or unknown handles among them.
 */
module StatsTheorems {
  import opened Basics
  import opened Windows
  import opened RequestStats
  import opened Ordering

  // ---- The counters are the records ----

  ghost function InStage(active: map<Handle, Active>, u: Url, stage: Stage): set<Handle> {
    set h | h in active && active[h].engine == u && active[h].stage == stage
  }

  function Matches(r: Active, u: Url, stage: Stage): nat {
    if r.engine == u && r.stage == stage then 1 else 0
  }

  lemma StageAdd(active: map<Handle, Active>, h: Handle, r: Active, u: Url, stage: Stage)
    requires h !in active
    ensures |InStage(active[h := r], u, stage)| == |InStage(active, u, stage)| + Matches(r, u, stage)
  {
    var more := if Matches(r, u, stage) == 1 then {h} else {};
    assert InStage(active[h := r], u, stage) == InStage(active, u, stage) + more;
  }

  lemma StageRemove(active: map<Handle, Active>, h: Handle, u: Url, stage: Stage)
    requires h in active
    ensures |InStage(active - {h}, u, stage)| == |InStage(active, u, stage)| - Matches(active[h], u, stage)
  {
    var gone := if Matches(active[h], u, stage) == 1 then {h} else {};
    assert InStage(active - {h}, u, stage) == InStage(active, u, stage) - gone;
    assert gone <= InStage(active, u, stage);
  }

  lemma StageReplace(active: map<Handle, Active>, h: Handle, r: Active, u: Url, stage: Stage)
    requires h in active
    ensures |InStage(active[h := r], u, stage)|
            == |InStage(active, u, stage)| - Matches(active[h], u, stage) + Matches(r, u, stage)
  {
    StageRemove(active, h, u, stage);
    StageAdd(active - {h}, h, r, u, stage);
    assert (active - {h})[h := r] == active[h := r];
  }

  /** The per-handle time indexes say what the active records say. */
  ghost predicate IndexesMatch(l: Ledger) {
    && l.startTimes.Keys == l.active.Keys
    && (forall h :: h in l.active ==> l.startTimes[h] == l.active[h].start)
    && (forall h :: h in l.firstTokens ==> h in l.active)
    && (forall h :: h in l.active ==> (h in l.firstTokens <==> l.active[h].stage == Decoding))
    && (forall h :: h in l.firstTokens ==> l.active[h].firstToken == Some(l.firstTokens[h]))
    && (forall h :: h in l.active && h !in l.firstTokens ==> l.active[h].firstToken == None)
  }

  ghost predicate CountersAt(l: Ledger, u: Url) {
    Get(l.prefill, u) == |InStage(l.active, u, Prefilling)| && Get(l.decoding, u) == |InStage(l.active, u, Decoding)|
  }

  ghost predicate LedgerOk(l: Ledger) {
    && (forall h :: h in l.active ==> 0 <= h < l.next)
    && IndexesMatch(l)
    && (forall u :: CountersAt(l, u))
    && l.violations == 0
  }

  lemma RegisteredCounts(l: Ledger, engine: Url, id: string, time: real, u: Url)
    requires CountersAt(l, u) && l.next !in l.active
    ensures CountersAt(Registered(l, engine, id, time), u)
  {
    hide InStage;
    StageAdd(l.active, l.next, Active(Prefilling, engine, id, time, None), u, Prefilling);
    StageAdd(l.active, l.next, Active(Prefilling, engine, id, time, None), u, Decoding);
  }

  lemma RegisteredOk(l: Ledger, engine: Url, id: string, time: real)
    requires LedgerOk(l)
    ensures LedgerOk(Registered(l, engine, id, time))
  {
    hide CountersAt;
    forall u ensures CountersAt(Registered(l, engine, id, time), u) {
      RegisteredCounts(l, engine, id, time, u);
    }
  }

  /** The stage count of a record that is there is positive, so the error branches are dead. */
  lemma StageCountPositive(l: Ledger, h: Handle)
    requires LedgerOk(l) && h in l.active
    ensures Get(if l.active[h].stage == Prefilling then l.prefill else l.decoding, l.active[h].engine) > 0
  {
    assert CountersAt(l, l.active[h].engine);
    assert h in InStage(l.active, l.active[h].engine, l.active[h].stage);
  }

  lemma RespondedCounts(l: Ledger, h: Handle, time: real, u: Url)
    requires IsPrefilling(l, h) && Get(l.prefill, l.active[h].engine) > 0 && CountersAt(l, u)
    ensures CountersAt(Responded(l, h, time), u)
  {
    hide InStage;
    var r := l.active[h].(stage := Decoding, firstToken := Some(time));
    StageReplace(l.active, h, r, u, Prefilling);
    StageReplace(l.active, h, r, u, Decoding);
  }

  lemma RespondedOk(l: Ledger, h: Handle, time: real)
    requires LedgerOk(l)
    ensures LedgerOk(Responded(l, h, time))
  {
    hide CountersAt;
    if IsPrefilling(l, h) {
      StageCountPositive(l, h);
      forall u ensures CountersAt(Responded(l, h, time), u) {
        RespondedCounts(l, h, time, u);
      }
    }
  }

  lemma FinalizedCounts(l: Ledger, h: Handle, completed: bool, u: Url)
    requires h in l.active && CountersAt(l, u)
    requires Get(if l.active[h].stage == Prefilling then l.prefill else l.decoding, l.active[h].engine) > 0
    ensures CountersAt(Finalized(l, h, completed), u)
  {
    hide InStage;
    StageRemove(l.active, h, u, Prefilling);
    StageRemove(l.active, h, u, Decoding);
  }

  lemma FinalizedOk(l: Ledger, h: Handle, completed: bool)
    requires LedgerOk(l)
    ensures LedgerOk(Finalized(l, h, completed))
  {
    hide CountersAt;
    if h in l.active {
      StageCountPositive(l, h);
      forall u ensures CountersAt(Finalized(l, h, completed), u) {
        FinalizedCounts(l, h, completed, u);
      }
    }
  }

  lemma LedgerStepOk(l: Ledger, e: Event)
    requires LedgerOk(l)
    ensures LedgerOk(LedgerStep(l, e))
  {
    match e
    case New(engine, id, time) => RegisteredOk(l, engine, id, time);
    case Response(h, time) => RespondedOk(l, h, time);
    case Complete(h, _) => FinalizedOk(l, h, true);
    case Fail(h, _) => FinalizedOk(l, h, false);
    case Abort(h, _) => FinalizedOk(l, h, false);
    case Swapped(_, _, _) =>
    case Read(_) =>
  }

  /** A completion always finds its latency monitor. */
  ghost predicate MonitorsReady(s: State) {
    && s.metrics.keyErrors == 0
    && forall h :: h in s.ledger.active ==> s.ledger.active[h].engine in s.metrics.latency
  }

  lemma StepKeepsMonitorsReady(s: State, size: real, e: Event)
    requires MonitorsReady(s)
    ensures MonitorsReady(Step(s, size, e))
  {
  }

  /**
   In every reachable state each engine's prefill and decoding counters equal the
   number of active records in that stage on it, the time indexes match those
   records, and neither error branch nor a missing latency monitor was ever met.
   */
  lemma {:induction false} CountersNeverDrift(size: real, trace: seq<Event>)
    ensures var s := Run(INITIAL, size, trace);
            LedgerOk(s.ledger) && MonitorsReady(s)
  {
    if trace != [] {
      var before := Run(INITIAL, size, trace[..|trace| - 1]);
      CountersNeverDrift(size, trace[..|trace| - 1]);
      LedgerStepOk(before.ledger, trace[|trace| - 1]);
      StepKeepsMonitorsReady(before, size, trace[|trace| - 1]);
    }
  }

  // ---- A run, attempt by attempt ----

  datatype Kind = Responds | Completes | Fails | Aborts

  /** One registration, when its first token came, and the calls made with its handle since, in order. */
  datatype Attempt = Attempt(engine: Url, requestId: string, start: real, firstToken: Option<real>, word: seq<Kind>)

  function Say(atts: seq<Attempt>, h: Handle, k: Kind, time: real): seq<Attempt> {
    if 0 <= h < |atts| then
      var a := atts[h];
      var first := if k == Responds && LifeOf(a.word) == Prefills then Some(time) else a.firstToken;
      atts[h := a.(word := a.word + [k], firstToken := first)]
    else atts
  }

  function Heard(atts: seq<Attempt>, e: Event): seq<Attempt> {
    match e
    case New(engine, id, time) => atts + [Attempt(engine, id, time, None, [])]
    case Response(h, time) => Say(atts, h, Responds, time)
    case Complete(h, time) => Say(atts, h, Completes, time)
    case Fail(h, time) => Say(atts, h, Fails, time)
    case Abort(h, time) => Say(atts, h, Aborts, time)
    case Swapped(_, _, _) => atts
    case Read(_) => atts
  }

  function Attempts(trace: seq<Event>): seq<Attempt> {
    if trace == [] then [] else Heard(Attempts(trace[..|trace| - 1]), trace[|trace| - 1])
  }

  datatype Life = Prefills | Decodes | Finished | Dropped

  function Live(life: Life, k: Kind): Life {
    match k
    case Responds => if life == Prefills then Decodes else life
    case Completes => if InFlight(life) then Finished else life
    case Fails => if InFlight(life) then Dropped else life
    case Aborts => if InFlight(life) then Dropped else life
  }

  predicate InFlight(life: Life) {
    life == Prefills || life == Decodes
  }

  /** Where its own calls have taken an attempt: the first terminal call decides. */
  function LifeOf(word: seq<Kind>): Life {
    if word == [] then Prefills else Live(LifeOf(word[..|word| - 1]), word[|word| - 1])
  }

  function Lives(atts: seq<Attempt>): seq<(Url, Life)> {
    seq(|atts|, i requires 0 <= i < |atts| => (atts[i].engine, LifeOf(atts[i].word)))
  }

  /** How many attempts on engine `u` are at this point of their life. */
  function Tally(atts: seq<Attempt>, u: Url, life: Life): nat {
    multiset(Lives(atts))[(u, life)]
  }

  /** Handle `h` has an active record exactly while its attempt is in flight, and the record agrees with it. */
  ghost predicate RecordAt(active: map<Handle, Active>, atts: seq<Attempt>, h: Handle) {
    && (h in active <==> 0 <= h < |atts| && InFlight(LifeOf(atts[h].word)))
    && (h in active ==>
          && active[h].engine == atts[h].engine && active[h].requestId == atts[h].requestId
          && active[h].start == atts[h].start && active[h].firstToken == atts[h].firstToken
          && (active[h].stage == Prefilling <==> LifeOf(atts[h].word) == Prefills))
  }

  ghost predicate RecordsFollow(l: Ledger, atts: seq<Attempt>) {
    l.next == |atts| && forall h :: RecordAt(l.active, atts, h)
  }

  ghost predicate CountsFollow(l: Ledger, atts: seq<Attempt>, u: Url) {
    && Get(l.prefill, u) == Tally(atts, u, Prefills)
    && Get(l.decoding, u) == Tally(atts, u, Decodes)
    && Get(l.finished, u) == Tally(atts, u, Finished)
  }

  /** The ledger is a function of the attempts, each looked at alone. */
  ghost predicate Follows(l: Ledger, atts: seq<Attempt>) {
    RecordsFollow(l, atts) && forall u :: CountsFollow(l, atts, u)
  }

  lemma LifeAfterSay(atts: seq<Attempt>, h: Handle, k: Kind, time: real)
    requires 0 <= h < |atts|
    ensures LifeOf(Say(atts, h, k, time)[h].word) == Live(LifeOf(atts[h].word), k)
  {
    var w := atts[h].word + [k];
    assert w[..|w| - 1] == atts[h].word;
  }

  lemma TallyAfterSay(atts: seq<Attempt>, h: Handle, k: Kind, time: real, u: Url, life: Life)
    requires 0 <= h < |atts|
    ensures var was, now := LifeOf(atts[h].word), Live(LifeOf(atts[h].word), k);
            Tally(Say(atts, h, k, time), u, life)
            == Tally(atts, u, life)
               - (if u == atts[h].engine && life == was then 1 else 0)
               + (if u == atts[h].engine && life == now then 1 else 0)
  {
    LifeAfterSay(atts, h, k, time);
    var ls := Lives(atts);
    assert Lives(Say(atts, h, k, time)) == ls[h := (atts[h].engine, Live(LifeOf(atts[h].word), k))];
    assert ls[h] in multiset(ls);
  }

  function Told(l: Ledger, h: Handle, k: Kind, time: real): Ledger {
    match k
    case Responds => Responded(l, h, time)
    case Completes => Finalized(l, h, true)
    case Fails => Finalized(l, h, false)
    case Aborts => Finalized(l, h, false)
  }

  lemma SayRecordAt(l: Ledger, atts: seq<Attempt>, h: Handle, k: Kind, time: real, g: Handle)
    requires h in l.active ==>
               Get(if l.active[h].stage == Prefilling then l.prefill else l.decoding, l.active[h].engine) > 0
    requires RecordAt(l.active, atts, h) && RecordAt(l.active, atts, g)
    ensures RecordAt(Told(l, h, k, time).active, Say(atts, h, k, time), g)
  {
    hide LifeOf;
    if 0 <= h < |atts| {
      LifeAfterSay(atts, h, k, time);
    }
  }

  lemma SayRecords(l: Ledger, atts: seq<Attempt>, h: Handle, k: Kind, time: real)
    requires LedgerOk(l) && RecordsFollow(l, atts)
    ensures RecordsFollow(Told(l, h, k, time), Say(atts, h, k, time))
  {
    if h in l.active {
      StageCountPositive(l, h);
    }
    hide RecordAt, LedgerOk;
    forall g ensures RecordAt(Told(l, h, k, time).active, Say(atts, h, k, time), g) {
      SayRecordAt(l, atts, h, k, time, g);
    }
  }

  lemma SayCounts(l: Ledger, atts: seq<Attempt>, h: Handle, k: Kind, time: real, u: Url)
    requires LedgerOk(l) && RecordsFollow(l, atts) && CountsFollow(l, atts, u)
    ensures CountsFollow(Told(l, h, k, time), Say(atts, h, k, time), u)
  {
    hide CountersAt, Tally, LifeOf;
    assert RecordAt(l.active, atts, h);
    if 0 <= h < |atts| {
      TallyAfterSay(atts, h, k, time, u, Prefills);
      TallyAfterSay(atts, h, k, time, u, Decodes);
      TallyAfterSay(atts, h, k, time, u, Finished);
      if h in l.active {
        StageCountPositive(l, h);
      }
    }
  }

  lemma SayFollows(l: Ledger, atts: seq<Attempt>, h: Handle, k: Kind, time: real)
    requires LedgerOk(l) && Follows(l, atts)
    ensures Follows(Told(l, h, k, time), Say(atts, h, k, time))
  {
    hide CountsFollow, RecordsFollow, LedgerOk;
    SayRecords(l, atts, h, k, time);
    forall u ensures CountsFollow(Told(l, h, k, time), Say(atts, h, k, time), u) {
      SayCounts(l, atts, h, k, time, u);
    }
  }

  lemma NewFollows(l: Ledger, atts: seq<Attempt>, engine: Url, id: string, time: real)
    requires Follows(l, atts)
    ensures Follows(Registered(l, engine, id, time), atts + [Attempt(engine, id, time, None, [])])
  {
    var l', more := Registered(l, engine, id, time), atts + [Attempt(engine, id, time, None, [])];
    assert Lives(more) == Lives(atts) + [(engine, Prefills)];
    forall u ensures CountsFollow(l', more, u) {
      assert CountsFollow(l, atts, u);
    }
    forall h ensures RecordAt(l'.active, more, h) {
      assert RecordAt(l.active, atts, h);
    }
  }

  /**
   After any run the counters are what one gets by following each attempt's own
   calls and counting; nothing depends on how the attempts were interleaved.
   */
  lemma {:induction false} LedgerFollowsAttempts(size: real, trace: seq<Event>)
    ensures Follows(Run(INITIAL, size, trace).ledger, Attempts(trace))
  {
    if trace == [] {
      assert Lives(Attempts(trace)) == [];
    } else {
      var start, e := trace[..|trace| - 1], trace[|trace| - 1];
      var l, atts := Run(INITIAL, size, start).ledger, Attempts(start);
      LedgerFollowsAttempts(size, start);
      CountersNeverDrift(size, start);
      match e
      case New(engine, id, time) => NewFollows(l, atts, engine, id, time);
      case Response(h, time) => SayFollows(l, atts, h, Responds, time);
      case Complete(h, time) => SayFollows(l, atts, h, Completes, time);
      case Fail(h, time) => SayFollows(l, atts, h, Fails, time);
      case Abort(h, time) => SayFollows(l, atts, h, Aborts, time);
      case Swapped(_, _, _) =>
      case Read(_) =>
    }
  }

  // ---- Conservation ----

  /** How often engine `u` was ever given a request. */
  function Given(trace: seq<Event>, u: Url): nat {
    if trace == [] then 0
    else
      var e := trace[|trace| - 1];
      Given(trace[..|trace| - 1], u) + if e.New? && e.engine == u then 1 else 0
  }

  function Total(atts: seq<Attempt>, u: Url): nat {
    Tally(atts, u, Prefills) + Tally(atts, u, Decodes) + Tally(atts, u, Finished) + Tally(atts, u, Dropped)
  }

  lemma {:induction false} GivenIsTotal(trace: seq<Event>, u: Url)
    ensures Given(trace, u) == Total(Attempts(trace), u)
  {
    hide Total, Say;
    if trace == [] {
      NoneTotal(u);
    } else {
      var atts, e := Attempts(trace[..|trace| - 1]), trace[|trace| - 1];
      GivenIsTotal(trace[..|trace| - 1], u);
      match e
      case New(engine, id, time) => NewAddsToTotal(atts, engine, id, time, u);
      case Response(h, time) => SayKeepsTotal(atts, h, Responds, time, u);
      case Complete(h, time) => SayKeepsTotal(atts, h, Completes, time, u);
      case Fail(h, time) => SayKeepsTotal(atts, h, Fails, time, u);
      case Abort(h, time) => SayKeepsTotal(atts, h, Aborts, time, u);
      case Swapped(_, _, _) =>
      case Read(_) =>
    }
  }

  lemma NoneTotal(u: Url)
    ensures Total([], u) == 0
  {
    assert Lives([]) == [];
  }

  lemma NewAddsToTotal(atts: seq<Attempt>, engine: Url, id: string, time: real, u: Url)
    ensures Total(atts + [Attempt(engine, id, time, None, [])], u) == Total(atts, u) + if engine == u then 1 else 0
  {
    assert Lives(atts + [Attempt(engine, id, time, None, [])]) == Lives(atts) + [(engine, Prefills)];
  }

  lemma SayKeepsTotal(atts: seq<Attempt>, h: Handle, k: Kind, time: real, u: Url)
    ensures Total(Say(atts, h, k, time), u) == Total(atts, u)
  {
    hide Tally, LifeOf;
    if 0 <= h < |atts| {
      TallyAfterSay(atts, h, k, time, u, Prefills);
      TallyAfterSay(atts, h, k, time, u, Decodes);
      TallyAfterSay(atts, h, k, time, u, Finished);
      TallyAfterSay(atts, h, k, time, u, Dropped);
    }
  }

  /** Requests ever registered = in prefill + in decoding + finished + failed or aborted, engine by engine. */
  lemma Conservation(size: real, trace: seq<Event>, u: Url)
    ensures var l := Run(INITIAL, size, trace).ledger;
            Given(trace, u)
            == Get(l.prefill, u) + Get(l.decoding, u) + Get(l.finished, u) + Tally(Attempts(trace), u, Dropped)
  {
    LedgerFollowsAttempts(size, trace);
    GivenIsTotal(trace, u);
    assert CountsFollow(Run(INITIAL, size, trace).ledger, Attempts(trace), u);
  }

  // ---- Handles are never reused, and a retired one stays inert ----

  lemma {:induction false} AttemptsOnlyGrow(trace: seq<Event>, more: seq<Event>, h: Handle)
    requires 0 <= h < |Attempts(trace)|
    ensures h < |Attempts(trace + more)|
    ensures Attempts(trace + more)[h].engine == Attempts(trace)[h].engine
    ensures !InFlight(LifeOf(Attempts(trace)[h].word)) ==>
              LifeOf(Attempts(trace + more)[h].word) == LifeOf(Attempts(trace)[h].word)
  {
    hide LifeOf, Heard;
    if more == [] {
      assert trace + more == trace;
    } else {
      var init, e := more[..|more| - 1], more[|more| - 1];
      AttemptsOnlyGrow(trace, init, h);
      assert (trace + more)[..|trace + more| - 1] == trace + init;
      HeardKeeps(Attempts(trace + init), e, h);
    }
  }

  /** One more call: an attempt keeps its engine, and its life once it has ended. */
  lemma HeardKeeps(atts: seq<Attempt>, e: Event, h: Handle)
    requires 0 <= h < |atts|
    ensures h < |Heard(atts, e)| && Heard(atts, e)[h].engine == atts[h].engine
    ensures !InFlight(LifeOf(atts[h].word)) ==> LifeOf(Heard(atts, e)[h].word) == LifeOf(atts[h].word)
  {
    hide LifeOf;
    if e.Response? && e.handle == h { LifeAfterSay(atts, h, Responds, e.time); }
    if e.Complete? && e.handle == h { LifeAfterSay(atts, h, Completes, e.time); }
    if e.Fail? && e.handle == h { LifeAfterSay(atts, h, Fails, e.time); }
    if e.Abort? && e.handle == h { LifeAfterSay(atts, h, Aborts, e.time); }
  }

  /**
   Once an attempt has ended, whatever follows: its handle has no record, no later
   registration is given that handle, and no call with it changes anything.
   */
  lemma RetiredHandleIsInert(size: real, trace: seq<Event>, more: seq<Event>, h: Handle, time: real)
    requires 0 <= h < |Attempts(trace)| && !InFlight(LifeOf(Attempts(trace)[h].word))
    ensures var s := Run(INITIAL, size, trace + more);
            && h !in s.ledger.active
            && s.ledger.next > h
            && Step(s, size, Response(h, time)) == s
            && Step(s, size, Complete(h, time)) == s
            && Step(s, size, Fail(h, time)) == s
            && Step(s, size, Abort(h, time)) == s
  {
    var s := Run(INITIAL, size, trace + more);
    AttemptsOnlyGrow(trace, more, h);
    LedgerFollowsAttempts(size, trace + more);
    assert RecordAt(s.ledger.active, Attempts(trace + more), h);
  }

  // ---- Interleaving independence ----

  type Story = (Url, seq<Kind>)

  /** Each attempt's engine and its own calls, without the handle it happened to get. */
  function Stories(atts: seq<Attempt>): seq<Story> {
    seq(|atts|, i requires 0 <= i < |atts| => (atts[i].engine, atts[i].word))
  }

  function Ends(stories: seq<Story>): seq<(Url, Life)> {
    seq(|stories|, i requires 0 <= i < |stories| => (stories[i].0, LifeOf(stories[i].1)))
  }

  lemma {:induction false} SameStoriesSameEnds(a: seq<Story>, b: seq<Story>)
    requires multiset(a) == multiset(b)
    ensures multiset(Ends(a)) == multiset(Ends(b))
    decreases |a|
  {
    hide Ends, LifeOf;
    SameLength(a, b);
    if a == [] {
      assert b == a;
    } else {
      var j := PickOut(a, b);
      SameStoriesSameEnds(a[1..], b[..j] + b[j + 1..]);
      EndsTakenOut(a, 0);
      EndsTakenOut(b, j);
      assert a[..0] + a[1..] == a[1..];
    }
  }

  lemma EndsTakenOut(s: seq<Story>, j: nat)
    requires j < |s|
    ensures multiset(Ends(s)) == multiset(Ends(s[..j] + s[j + 1..])) + multiset{(s[j].0, LifeOf(s[j].1))}
  {
    TakeOut(Ends(s), j);
    assert Ends(s)[..j] + Ends(s)[j + 1..] == Ends(s[..j] + s[j + 1..]);
  }

  /**
   Two runs made of the same attempts, each with the same calls in the same order
   on the same engine, end with the same counters, however the attempts were
   interleaved and whichever handles they were given.
   */
  lemma InterleavingDoesNotMatter(size: real, left: seq<Event>, right: seq<Event>, u: Url)
    requires multiset(Stories(Attempts(left))) == multiset(Stories(Attempts(right)))
    ensures var a, b := Run(INITIAL, size, left).ledger, Run(INITIAL, size, right).ledger;
            && Get(a.prefill, u) == Get(b.prefill, u)
            && Get(a.decoding, u) == Get(b.decoding, u)
            && Get(a.finished, u) == Get(b.finished, u)
  {
    SameStoriesSameEnds(Stories(Attempts(left)), Stories(Attempts(right)));
    assert Ends(Stories(Attempts(left))) == Lives(Attempts(left));
    assert Ends(Stories(Attempts(right))) == Lives(Attempts(right));
    LedgerFollowsAttempts(size, left);
    LedgerFollowsAttempts(size, right);
    assert CountsFollow(Run(INITIAL, size, left).ledger, Attempts(left), u);
    assert CountsFollow(Run(INITIAL, size, right).ledger, Attempts(right), u);
  }

  /** When every attempt has ended, every load is zero again. */
  lemma QuiescentLoadsAreZero(size: real, trace: seq<Event>, u: Url)
    requires forall h :: 0 <= h < |Attempts(trace)| ==> !InFlight(LifeOf(Attempts(trace)[h].word))
    ensures var l := Run(INITIAL, size, trace).ledger;
            l.active == map[] && Get(l.prefill, u) == 0 && Get(l.decoding, u) == 0
  {
    var l := Run(INITIAL, size, trace).ledger;
    LedgerFollowsAttempts(size, trace);
    CountersNeverDrift(size, trace);
    forall h ensures h !in l.active {
      assert RecordAt(l.active, Attempts(trace), h);
    }
    assert InStage(l.active, u, Prefilling) == {} && InStage(l.active, u, Decoding) == {};
    assert CountersAt(l, u);
  }
}
