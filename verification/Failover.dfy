/**
 One client request through the router: the attempts of `process_request`, each
 with its calls to the statistics monitor, inside the failover loop of
 `route_general_request`. What the client, the backend and the router policy do
 is a parameter; what the code makes of it is the model.
 */
module Failover {
  import opened Basics
  import opened RequestStats
  import opened StatsTheorems
  import opened StatsMonitor

  // ---- What can happen to an attempt ----

  /** After the response headers: how the body ended. */
  datatype Ending =
    | Drained             // read to the end, and nothing failed after it
    | DrainedThenFailed   // read to the end, then storing or reporting it raised
    | DrainedThenLeft     // read to the end, then cancelled while storing it
    | Broke               // the connection failed midway
    | Stalled             // a read gap beyond the bound
    | Left                // the client went away, or the stream was closed unread

  datatype Backend =
    | BadBody                                   // 400 raised before the attempt is registered
    | ConnectFails
    | ReadTimesOut
    | EntryTimesOut
    | Breaks                                    // any other exception before the headers
    | Cancelled(deadlineToo: bool)              // cancelled before the headers, perhaps as the deadline expired
    | Answers(status: int, chunks: nat, ending: Ending)

  /** The terminal hook `process_request` calls in its `finally`. */
  function Terminal(how: Backend): Kind
    requires !how.BadBody?
  {
    match how
    case ConnectFails => Fails
    case ReadTimesOut => Fails
    case EntryTimesOut => Fails
    case Breaks => Fails
    case Cancelled(deadlineToo) => if deadlineToo then Fails else Aborts
    case Answers(_, _, ending) =>
      match ending
      case Drained => Completes
      case DrainedThenFailed => Fails
      case DrainedThenLeft => Aborts
      case Broke => Fails
      case Stalled => Fails
      case Left => Aborts
  }

  predicate GotChunk(how: Backend) {
    how.Answers? && how.chunks > 0
  }

  predicate Finishes(how: Backend) {
    how.Answers? && how.ending == Drained
  }

  /** The calls one attempt makes with its handle, in order. */
  function WordOf(how: Backend): seq<Kind>
    requires !how.BadBody?
  {
    (if GotChunk(how) then [Responds] else []) + [Terminal(how)]
  }

  /** The client went away, or the attempt was cancelled before the deadline could be blamed. */
  predicate ClientLeft(how: Backend) {
    || (how.Cancelled? && !how.deadlineToo)
    || (how.Answers? && (how.ending == Left || how.ending == DrainedThenLeft))
  }

  /** Abort is for a client that left, completion for a body read to the end without trouble, and failure for the rest. */
  lemma TerminalExactly(how: Backend)
    requires !how.BadBody?
    ensures Terminal(how) == Aborts <==> ClientLeft(how)
    ensures Terminal(how) == Completes <==> Finishes(how)
    ensures Terminal(how) == Fails <==> !ClientLeft(how) && !Finishes(how)
  {
  }

  /**
   An ended attempt is out of flight for good. It left prefill if no chunk arrived
   and decoding otherwise, and it counts as finished exactly when its body was read
   to the end without trouble.
   */
  lemma AttemptRetires(how: Backend)
    requires !how.BadBody?
    ensures var word := WordOf(how);
            && !InFlight(LifeOf(word))
            && LifeOf(word[..|word| - 1]) == (if GotChunk(how) then Decodes else Prefills)
            && (LifeOf(word) == Finished <==> how.Answers? && how.ending == Drained)
  {
    var word := WordOf(how);
    assert word[..|word| - 1] == if GotChunk(how) then [Responds] else [];
    assert [Responds][..0] == [];
  }

  /**
   However the attempts of however many client requests were interleaved: once each
   has made its calls, no engine carries any load, and the completions counted are
   those whose body was read to the end.
   */
  lemma EndedAttemptsLeaveNoLoad(size: real, trace: seq<Event>, hows: seq<Backend>, u: Url)
    requires |hows| == |Attempts(trace)|
    requires forall h :: 0 <= h < |hows| ==> !hows[h].BadBody? && Attempts(trace)[h].word == WordOf(hows[h])
    ensures var l := Run(INITIAL, size, trace).ledger;
            && l.active == map[] && Get(l.prefill, u) == 0 && Get(l.decoding, u) == 0
            && Get(l.finished, u) == multiset(seq(|hows|, h requires 0 <= h < |hows| =>
                 (Attempts(trace)[h].engine, hows[h].Answers? && hows[h].ending == Drained)))[(u, true)]
  {
    var atts := Attempts(trace);
    forall h | 0 <= h < |hows|
      ensures !InFlight(LifeOf(atts[h].word))
      ensures LifeOf(atts[h].word) == Finished <==> hows[h].Answers? && hows[h].ending == Drained
    {
      AttemptRetires(hows[h]);
    }
    QuiescentLoadsAreZero(size, trace, u);
    LedgerFollowsAttempts(size, trace);
    assert CountsFollow(Run(INITIAL, size, trace).ledger, atts, u);
    SameCount(Lives(atts), seq(|hows|, h requires 0 <= h < |hows| =>
      (atts[h].engine, hows[h].Answers? && hows[h].ending == Drained)), (u, Finished), (u, true));
  }

  /** Two sequences with a marked value in the same places hold it equally often. */
  lemma {:induction false} SameCount<A, B>(a: seq<A>, b: seq<B>, x: A, y: B)
    requires |a| == |b| && forall i :: 0 <= i < |a| ==> (a[i] == x <==> b[i] == y)
    ensures multiset(a)[x] == multiset(b)[y]
  {
    if a != [] {
      var n := |a| - 1;
      SameCount(a[..n], b[..n], x, y);
      assert a == a[..n] + [a[n]] && b == b[..n] + [b[n]];
    }
  }

  // ---- What one attempt leaves behind ----

  /** No record, index or load differs; only the handle counter moved on. */
  ghost predicate SameLoad(l: Ledger, l': Ledger) {
    && l'.active == l.active && l'.startTimes == l.startTimes && l'.firstTokens == l.firstTokens
    && (forall u :: Get(l'.prefill, u) == Get(l.prefill, u) && Get(l'.decoding, u) == Get(l.decoding, u))
    && l'.violations == l.violations && l'.next >= l.next
  }

  /** The completions counted are `n` more on engine `url` and as before on every other. */
  ghost predicate FinishedMore(l: Ledger, l': Ledger, url: Url, n: nat) {
    forall u :: Get(l'.finished, u) == Get(l.finished, u) + if u == url then n else 0
  }

  /** What the loop below needs of the ledger; every reachable one has it. */
  ghost predicate Sane(l: Ledger) {
    && (forall u :: Get(l.prefill, u) >= 0 && Get(l.decoding, u) >= 0)
    && (forall h :: h in l.active || h in l.startTimes || h in l.firstTokens ==> h < l.next)
  }

  lemma ReachableIsSane(size: real, trace: seq<Event>)
    ensures Sane(Run(INITIAL, size, trace).ledger)
  {
    var l := Run(INITIAL, size, trace).ledger;
    CountersNeverDrift(size, trace);
    forall u ensures Get(l.prefill, u) >= 0 && Get(l.decoding, u) >= 0 {
      assert CountersAt(l, u);
    }
  }

  /** Ledger `m` is `l` with one attempt more in flight: handle `h`, on `url`, at `stage`. */
  ghost predicate Carries(l: Ledger, m: Ledger, h: Handle, url: Url, stage: Stage) {
    && h !in l.active && h !in l.startTimes && h !in l.firstTokens && l.next <= h < m.next
    && h in m.active && m.active[h].engine == url && m.active[h].stage == stage
    && m.active - {h} == l.active && m.startTimes - {h} == l.startTimes && m.firstTokens - {h} == l.firstTokens
    && (forall u ::
          && Get(m.prefill, u) == Get(l.prefill, u) + (if u == url && stage == Prefilling then 1 else 0)
          && Get(m.decoding, u) == Get(l.decoding, u) + (if u == url && stage == Decoding then 1 else 0))
    && m.finished == l.finished && m.violations == l.violations
  }

  lemma RegisterCarries(l: Ledger, url: Url, id: string, time: real)
    requires Sane(l)
    ensures Carries(l, Registered(l, url, id, time), l.next, url, Prefilling)
  {
  }

  lemma RespondCarries(l: Ledger, m: Ledger, h: Handle, url: Url, time: real)
    requires Sane(l) && Carries(l, m, h, url, Prefilling)
    ensures Carries(l, Responded(m, h, time), h, url, Decoding)
  {
    assert Get(m.prefill, url) > 0;
  }

  lemma TerminalDrops(l: Ledger, m: Ledger, h: Handle, url: Url, stage: Stage, completed: bool)
    requires Sane(l) && Carries(l, m, h, url, stage)
    ensures var l' := Finalized(m, h, completed);
            SameLoad(l, l') && FinishedMore(l, l', url, if completed then 1 else 0) && Sane(l')
  {
    assert Get(if stage == Prefilling then m.prefill else m.decoding, url) > 0;
  }

  // ---- The calls a request makes to the monitor ----

  datatype Tried = Tried(url: Url, how: Backend)

  function TerminalEvent(outcome: Kind, h: Handle, time: real): Event
    requires outcome != Responds
  {
    match outcome
    case Completes => Complete(h, time)
    case Fails => Fail(h, time)
    case Aborts => Abort(h, time)
  }

  /** One attempt under handle `h`: its registration, its first chunk if any, one terminal hook. */
  function Hooks(t: Tried, id: string, h: Handle, start: real, first: real, end: real): seq<Event> {
    if t.how.BadBody? then []
    else [New(t.url, id, start)] + (if GotChunk(t.how) then [Response(h, first)] else [])
         + [TerminalEvent(Terminal(t.how), h, end)]
  }

  /** All attempts of a request, one after another, the first under handle `h`. */
  function AllHooks(tried: seq<Tried>, id: string, h: Handle, clock: nat -> real): seq<Event> {
    if tried == [] then []
    else
      var n := |tried| - 1;
      AllHooks(tried[..n], id, h, clock) + Hooks(tried[n], id, h + n, clock(3 * n), clock(3 * n + 1), clock(3 * n + 2))
  }

  lemma OneMoreAttempt(tried: seq<Tried>, t: Tried, id: string, h: Handle, clock: nat -> real)
    ensures var n := |tried|;
            AllHooks(tried + [t], id, h, clock)
            == AllHooks(tried, id, h, clock) + Hooks(t, id, h + n, clock(3 * n), clock(3 * n + 1), clock(3 * n + 2))
  {
    assert (tried + [t])[..|tried|] == tried;
  }

  /** The attempt those calls amount to. */
  function AttemptOf(t: Tried, id: string, start: real, first: real): Attempt
    requires !t.how.BadBody?
  {
    Attempt(t.url, id, start, if GotChunk(t.how) then Some(first) else None, WordOf(t.how))
  }

  lemma HooksMakeAttempt(trace: seq<Event>, t: Tried, id: string, start: real, first: real, end: real)
    requires !t.how.BadBody?
    ensures var h := |Attempts(trace)|;
            Attempts(trace + Hooks(t, id, h, start, first, end)) == Attempts(trace) + [AttemptOf(t, id, start, first)]
  {
    hide *;
    var atts, h, k := Attempts(trace), |Attempts(trace)|, Terminal(t.how);
    var begun := Attempt(t.url, id, start, None, []);
    WordCases(t, id, h, start, first, end);
    HearArrival(trace, t.url, id, start);
    if GotChunk(t.how) {
      var told, streaming := trace + [New(t.url, id, start)], begun.(firstToken := Some(first), word := [] + [Responds]);
      HearResponse(told, atts, begun, first);
      HearTerminal(told + [Response(h, first)], atts, streaming, k, end);
      assert trace + Hooks(t, id, h, start, first, end) == told + [Response(h, first)] + [TerminalEvent(k, h, end)];
      assert streaming.word + [k] == [Responds, k];
    } else {
      HearTerminal(trace + [New(t.url, id, start)], atts, begun, k, end);
      assert trace + Hooks(t, id, h, start, first, end) == trace + [New(t.url, id, start)] + [TerminalEvent(k, h, end)];
      assert begun.word + [k] == [k];
    }
  }

  /** The attempts of a whole request; a bad body makes none. */
  function AttemptsOf(tried: seq<Tried>, id: string, clock: nat -> real): seq<Attempt> {
    if tried == [] then []
    else
      var n := |tried| - 1;
      AttemptsOf(tried[..n], id, clock)
      + if tried[n].how.BadBody? then [] else [AttemptOf(tried[n], id, clock(3 * n), clock(3 * n + 1))]
  }

  /**
   Whatever the monitor heard before, the calls of one request add one retired
   attempt per engine tried, in order: the registration, its first token, one
   terminal hook, and nothing about any other attempt.
   */
  lemma {:induction false} RequestAddsAttempts(trace: seq<Event>, tried: seq<Tried>, id: string, clock: nat -> real)
    requires forall i :: 0 <= i < |tried| - 1 ==> !tried[i].how.BadBody?
    ensures Attempts(trace + AllHooks(tried, id, |Attempts(trace)|, clock)) == Attempts(trace) + AttemptsOf(tried, id, clock)
    ensures tried == [] || !tried[|tried| - 1].how.BadBody? ==> |AttemptsOf(tried, id, clock)| == |tried|
  {
    hide Hooks, Attempts, AttemptOf;
    var h := |Attempts(trace)|;
    if tried == [] {
      assert trace + AllHooks(tried, id, h, clock) == trace;
    } else {
      var n := |tried| - 1;
      var before := trace + AllHooks(tried[..n], id, h, clock);
      RequestAddsAttempts(trace, tried[..n], id, clock);
      var last := Hooks(tried[n], id, h + n, clock(3 * n), clock(3 * n + 1), clock(3 * n + 2));
      assert trace + AllHooks(tried, id, h, clock) == before + last;
      if tried[n].how.BadBody? {
        BadBodySaysNothing(tried[n], id, h + n, clock(3 * n), clock(3 * n + 1), clock(3 * n + 2));
        assert before + last == before;
      } else {
        HooksMakeAttempt(before, tried[n], id, clock(3 * n), clock(3 * n + 1), clock(3 * n + 2));
      }
    }
  }

  /** The handle a registration gets is the number of registrations before it. */
  lemma HandleIsRegistrationCount(size: real, trace: seq<Event>)
    ensures Run(INITIAL, size, trace).ledger.next == |Attempts(trace)|
  {
    LedgerFollowsAttempts(size, trace);
  }

  lemma BadBodySaysNothing(t: Tried, id: string, h: Handle, start: real, first: real, end: real)
    requires t.how.BadBody?
    ensures Hooks(t, id, h, start, first, end) == []
  {
  }

  lemma HearArrival(trace: seq<Event>, url: Url, id: string, start: real)
    ensures Attempts(trace + [New(url, id, start)]) == Attempts(trace) + [Attempt(url, id, start, None, [])]
  {
    AttemptsSnoc(trace, New(url, id, start));
  }

  lemma HearResponse(trace: seq<Event>, atts: seq<Attempt>, a: Attempt, time: real)
    requires Attempts(trace) == atts + [a] && a.word == []
    ensures Attempts(trace + [Response(|atts|, time)])
            == atts + [a.(firstToken := Some(time), word := a.word + [Responds])]
  {
    AttemptsSnoc(trace, Response(|atts|, time));
  }

  lemma HearTerminal(trace: seq<Event>, atts: seq<Attempt>, a: Attempt, k: Kind, time: real)
    requires Attempts(trace) == atts + [a] && k != Responds
    ensures Attempts(trace + [TerminalEvent(k, |atts|, time)]) == atts + [a.(word := a.word + [k])]
  {
    AttemptsSnoc(trace, TerminalEvent(k, |atts|, time));
  }

  lemma WordCases(t: Tried, id: string, h: Handle, start: real, first: real, end: real)
    requires !t.how.BadBody?
    ensures var k := Terminal(t.how);
            && k != Responds
            && AttemptOf(t, id, start, first)
               == Attempt(t.url, id, start, if GotChunk(t.how) then Some(first) else None,
                          if GotChunk(t.how) then [Responds, k] else [k])
            && Hooks(t, id, h, start, first, end)
               == if GotChunk(t.how) then [New(t.url, id, start)] + [Response(h, first)] + [TerminalEvent(k, h, end)]
                  else [New(t.url, id, start)] + [TerminalEvent(k, h, end)]
  {
  }

  lemma AttemptsSnoc(trace: seq<Event>, e: Event)
    ensures Attempts(trace + [e]) == Heard(Attempts(trace), e)
  {
    assert (trace + [e])[..|trace|] == trace;
  }

  // ---- process_request ----

  /** The `finally` of `process_request`: the hook named by the outcome. */
  method CallTerminalHook(monitor: RequestStatsMonitor, handle: Handle, outcome: Kind, now: real)
    requires monitor.Valid() && outcome != Responds
    modifies monitor
    ensures monitor.Valid() && monitor.trace == old(monitor.trace) + [TerminalEvent(outcome, handle, now)]
    ensures monitor.LedgerView() == Finalized(old(monitor.LedgerView()), handle, outcome == Completes)
    ensures monitor.nextHandle == old(monitor.nextHandle)
  {
    hide Run, Finalized;
    match outcome
    case Completes => monitor.OnRequestComplete(handle, now);
    case Fails => monitor.OnRequestFail(handle, now);
    case Aborts => monitor.OnRequestAbort(handle, now);
  }

  /** `process_request` up to the response headers: register, and retire at once if they never come. */
  method OpenAttempt(monitor: RequestStatsMonitor, url: Url, id: string, how: Backend, start: real, end: real)
    returns (handle: Handle)
    requires !how.BadBody? && monitor.Valid()
    modifies monitor
    ensures monitor.Valid() && handle == old(monitor.nextHandle) && monitor.nextHandle == handle + 1
    ensures how.Answers? ==>
              && monitor.trace == old(monitor.trace) + [New(url, id, start)]
              && Carries(old(monitor.LedgerView()), monitor.LedgerView(), handle, url, Prefilling)
    ensures !how.Answers? ==>
              var l, l' := old(monitor.LedgerView()), monitor.LedgerView();
              && monitor.trace == old(monitor.trace) + [New(url, id, start)] + [TerminalEvent(Terminal(how), handle, end)]
              && SameLoad(l, l') && FinishedMore(l, l', url, 0)
  {
    hide Run, Sane, Carries, Registered, SameLoad, FinishedMore, Finalized, TerminalEvent;
    ghost var l := monitor.LedgerView();
    ReachableIsSane(monitor.slidingWindowSize, monitor.trace);
    RegisterCarries(l, url, id, start);
    handle := monitor.OnNewRequest(url, id, start);
    if !how.Answers? {
      var outcome := Aborts;
      if !how.Cancelled? || how.deadlineToo {
        outcome := Fails;
      }
      TerminalDrops(l, monitor.LedgerView(), handle, url, Prefilling, false);
      CallTerminalHook(monitor, handle, outcome, end);
    }
  }

  /** The rest of `process_request`: the body, chunk by chunk, and how it ends. */
  method StreamBody(monitor: RequestStatsMonitor, handle: Handle, url: Url, how: Backend,
                    first: real, end: real, ghost l: Ledger)
    requires monitor.Valid()
    requires how.Answers? && Sane(l) && Carries(l, monitor.LedgerView(), handle, url, Prefilling)
    modifies monitor
    ensures monitor.Valid() && monitor.nextHandle == old(monitor.nextHandle)
    ensures monitor.trace == old(monitor.trace) + (if GotChunk(how) then [Response(handle, first)] else [])
                             + [TerminalEvent(Terminal(how), handle, end)]
    ensures var l' := monitor.LedgerView();
            SameLoad(l, l') && FinishedMore(l, l', url, if Terminal(how) == Completes then 1 else 0)
  {
    hide Run, Sane, Carries, SameLoad, FinishedMore, Finalized, Responded, TerminalEvent;
    var firstToken, i := false, 0;
    while i < how.chunks
      invariant 0 <= i <= how.chunks && (firstToken <==> i > 0)
      invariant monitor.Valid() && monitor.nextHandle == old(monitor.nextHandle)
      invariant monitor.trace == old(monitor.trace) + if firstToken then [Response(handle, first)] else []
      invariant Carries(l, monitor.LedgerView(), handle, url, if firstToken then Decoding else Prefilling)
    {
      if !firstToken {
        firstToken := true;
        RespondCarries(l, monitor.LedgerView(), handle, url, first);
        monitor.OnRequestResponse(handle, first);
      }
      i := i + 1;
    }
    var outcome := Aborts;
    match how.ending {
      case Drained => outcome := Completes;
      case DrainedThenFailed => outcome := Fails;
      case DrainedThenLeft =>
      case Broke => outcome := Fails;
      case Stalled => outcome := Fails;
      case Left =>
    }
    TerminalDrops(l, monitor.LedgerView(), handle, url, if firstToken then Decoding else Prefilling, outcome == Completes);
    CallTerminalHook(monitor, handle, outcome, end);
  }

  // ---- route_general_request ----

  datatype Reply =
    | ModelNotFound                           // 404
    | ModelUnavailable                        // 503
    | BadRequest                              // 400
    | GatewayTimeout                          // 504, RFC 9110 section 15.6.5
    | BadGateway                              // 502, RFC 9110 section 15.6.3
    | ServerError                             // the last backend error is raised
    | ClientGone                              // the cancellation goes through
    | Streamed(status: int, ending: Ending)
    | NoAttemptAllowed                        // nothing tried and nothing to return

  /** Failures after which the loop goes on to another engine. */
  predicate Rotates(how: Backend) {
    how.ConnectFails? || how.Breaks?
  }

  predicate TimesOut(how: Backend) {
    how.ReadTimesOut? || how.EntryTimesOut?
  }

  ghost function UrlsOf(tried: seq<Tried>): set<Url> {
    set t | t in tried :: t.url
  }

  function Remaining(endpoints: seq<Url>, errors: set<Url>): (rest: seq<Url>)
    ensures forall u :: u in rest <==> u in endpoints && u !in errors
  {
    if endpoints == [] then []
    else (if endpoints[0] in errors then [] else [endpoints[0]]) + Remaining(endpoints[1..], errors)
  }

  /** The engines that remain stand in the order, and as often, as they were listed. */
  lemma {:induction false} RemainingIsFilter(a: seq<Url>, u: Url, errors: set<Url>)
    ensures Remaining(a + [u], errors) == Remaining(a, errors) + if u in errors then [] else [u]
  {
    var all, last := a + [u], if u in errors then [] else [u];
    if a == [] {
      assert all == [u] && [u][1..] == [];
      assert Remaining([], errors) == [];
    } else {
      RemainingIsFilter(a[1..], u, errors);
      var first := if a[0] in errors then [] else [a[0]];
      assert all[0] == a[0] && all[1..] == a[1..] + [u];
      assert first + (Remaining(a[1..], errors) + last) == (first + Remaining(a[1..], errors)) + last;
    }
  }

  /** A router answers with one of the URLs it was given. */
  ghost predicate AnswersWithin(pick: (nat, seq<Url>) -> Url) {
    forall n, urls :: urls != [] ==> pick(n, urls) in urls
  }

  /** What the attempts of one request look like: distinct engines, and only rotating failures before the last. */
  ghost predicate Protocol(tried: seq<Tried>, endpoints: seq<Url>, maxAttempts: int) {
    && UrlsOf(tried) <= Urls(endpoints)
    && (forall i, j :: 0 <= i < j < |tried| ==> tried[i].url != tried[j].url)
    && (forall i :: 0 <= i < |tried| - 1 ==> Rotates(tried[i].how))
    && |tried| <= if maxAttempts > 0 then maxAttempts else 0
  }

  /** The reply as a function of the attempts: which one is given, exactly when. */
  ghost predicate Settled(reply: Reply, tried: seq<Tried>, endpoints: seq<Url>, reroutes: int) {
    && Protocol(tried, endpoints, reroutes + 1)
    && (reply.ModelNotFound? || reply.ModelUnavailable? <==> endpoints == [])
    && (reply.NoAttemptAllowed? <==> endpoints != [] && reroutes < 0)
    && (tried == [] <==> endpoints == [] || reroutes < 0)
    && (reply.GatewayTimeout? <==> tried != [] && TimesOut(Last(tried)))
    && (reply.BadGateway? <==> tried != [] && Last(tried).ConnectFails?)
    && (reply.ServerError? <==> tried != [] && Last(tried).Breaks?)
    && (reply.BadRequest? <==> tried != [] && Last(tried).BadBody?)
    && (reply.ClientGone? <==> tried != [] && Last(tried).Cancelled?)
    && (reply.Streamed? <==> tried != [] && Last(tried).Answers?)
    && (reply.Streamed? ==> reply.status == Last(tried).status && reply.ending == Last(tried).ending)
    && (reply.BadGateway? || reply.ServerError? ==> |tried| == Min(reroutes + 1, |Urls(endpoints)|))
  }

  /** The engines the router is asked about for attempt `i`. */
  ghost function Offered(tried: seq<Tried>, endpoints: seq<Url>, i: nat): seq<Url>
    requires i <= |tried|
  {
    if i == 0 then endpoints else Remaining(endpoints, UrlsOf(tried[..i]))
  }

  /** Each attempt is at the engine the router picked of those offered, and went as that backend did. */
  ghost predicate Followed(tried: seq<Tried>, endpoints: seq<Url>, pick: (nat, seq<Url>) -> Url,
                           backend: (nat, Url) -> Backend) {
    forall i :: 0 <= i < |tried| ==>
      tried[i].url == pick(i, Offered(tried, endpoints, i)) && tried[i].how == backend(i, tried[i].url)
  }

  lemma FollowedOneMore(tried: seq<Tried>, t: Tried, endpoints: seq<Url>, pick: (nat, seq<Url>) -> Url,
                        backend: (nat, Url) -> Backend)
    requires Followed(tried, endpoints, pick, backend)
    requires t.url == pick(|tried|, Offered(tried, endpoints, |tried|)) && t.how == backend(|tried|, t.url)
    ensures Followed(tried + [t], endpoints, pick, backend)
  {
    hide UrlsOf, Remaining;
    var more := tried + [t];
    forall i | 0 <= i <= |tried| ensures Offered(more, endpoints, i) == Offered(tried, endpoints, i) {
      assert more[..i] == tried[..i];
    }
  }

  lemma OfferedNext(tried: seq<Tried>, errors: set<Url>, endpoints: seq<Url>)
    requires Searching(tried, errors, endpoints)
    ensures Offered(tried, endpoints, |tried|) == if tried == [] then endpoints else Remaining(endpoints, errors)
  {
    assert tried[..|tried|] == tried;
  }

  lemma {:induction false} SameStart(a: seq<Tried>, b: seq<Tried>, endpoints: seq<Url>, pick: (nat, seq<Url>) -> Url,
                                     backend: (nat, Url) -> Backend, n: nat)
    requires Followed(a, endpoints, pick, backend) && Followed(b, endpoints, pick, backend) && n <= |a| && n <= |b|
    ensures a[..n] == b[..n]
  {
    hide UrlsOf, Remaining;
    if n > 0 {
      SameStart(a, b, endpoints, pick, backend, n - 1);
      assert Offered(a, endpoints, n - 1) == Offered(b, endpoints, n - 1);
      assert a[n - 1] == b[n - 1];
      assert a[..n] == a[..n - 1] + [a[n - 1]] && b[..n] == b[..n - 1] + [b[n - 1]];
    }
  }

  lemma {:induction false} DistinctCount(tried: seq<Tried>)
    requires forall i, j :: 0 <= i < j < |tried| ==> tried[i].url != tried[j].url
    ensures |UrlsOf(tried)| == |tried|
  {
    if tried != [] {
      var before, t := tried[..|tried| - 1], tried[|tried| - 1];
      DistinctCount(before);
      assert t.url !in UrlsOf(before);
      TryAnother(before, t);
      assert tried == before + [t];
    }
  }

  lemma NotShorter(a: seq<Tried>, b: seq<Tried>, reply: Reply, reply': Reply, endpoints: seq<Url>, reroutes: int,
                   pick: (nat, seq<Url>) -> Url, backend: (nat, Url) -> Backend)
    requires Followed(a, endpoints, pick, backend) && Settled(reply, a, endpoints, reroutes)
    requires Followed(b, endpoints, pick, backend) && Settled(reply', b, endpoints, reroutes)
    ensures |a| >= |b|
  {
    if 0 < |a| < |b| {
      SameStart(a, b, endpoints, pick, backend, |a|);
      assert a[|a| - 1] == a[..|a|][|a| - 1] == b[..|a|][|a| - 1] == b[|a| - 1];
      DistinctCount(b);
      SubsetNotLarger(UrlsOf(b), Urls(endpoints));
    }
  }

  /** Router and backends determine the attempts and the reply: there is one outcome that satisfies both. */
  lemma OutcomeDetermined(a: seq<Tried>, b: seq<Tried>, reply: Reply, reply': Reply, endpoints: seq<Url>, reroutes: int,
                          pick: (nat, seq<Url>) -> Url, backend: (nat, Url) -> Backend)
    requires Followed(a, endpoints, pick, backend) && Settled(reply, a, endpoints, reroutes)
    requires Followed(b, endpoints, pick, backend) && Settled(reply', b, endpoints, reroutes)
    ensures a == b && (endpoints != [] ==> reply == reply')
  {
    NotShorter(a, b, reply, reply', endpoints, reroutes, pick, backend);
    NotShorter(b, a, reply', reply, endpoints, reroutes, pick, backend);
    SameStart(a, b, endpoints, pick, backend, |a|);
    assert a[..|a|] == a && b[..|b|] == b;
    hide Followed, Protocol, UrlsOf;
  }

  /** Every attempt so far has failed in a way that rotates. */
  ghost predicate Searching(tried: seq<Tried>, errors: set<Url>, endpoints: seq<Url>) {
    && errors == UrlsOf(tried) && |errors| == |tried| && errors <= Urls(endpoints)
    && (forall i, j :: 0 <= i < j < |tried| ==> tried[i].url != tried[j].url)
    && (forall i :: 0 <= i < |tried| ==> Rotates(tried[i].how))
  }

  lemma AllRotated(tried: seq<Tried>, errors: set<Url>, endpoints: seq<Url>)
    requires Searching(tried, errors, endpoints)
    ensures forall i :: 0 <= i < |tried| ==> Rotates(tried[i].how)
  {
  }

  lemma SearchGoesOn(tried: seq<Tried>, errors: set<Url>, endpoints: seq<Url>, t: Tried)
    requires Searching(tried, errors, endpoints) && t.url in endpoints && t.url !in errors && Rotates(t.how)
    ensures Searching(tried + [t], errors + {t.url}, endpoints)
  {
    TryAnother(tried, t);
  }

  lemma SearchEnds(tried: seq<Tried>, errors: set<Url>, endpoints: seq<Url>, t: Tried, reroutes: int)
    requires Searching(tried, errors, endpoints) && t.url in endpoints && t.url !in errors && !Rotates(t.how)
    requires |tried| < reroutes + 1
    ensures Settled(ReplyTo(t.how), tried + [t], endpoints, reroutes)
  {
    hide Searching, UrlsOf, Protocol;
    LastIsProtocol(tried, errors, endpoints, t, reroutes + 1);
    assert Last(tried + [t]) == t.how;
  }

  lemma LastIsProtocol(tried: seq<Tried>, errors: set<Url>, endpoints: seq<Url>, t: Tried, maxAttempts: int)
    requires Searching(tried, errors, endpoints) && t.url in endpoints && t.url !in errors && |tried| < maxAttempts
    ensures Protocol(tried + [t], endpoints, maxAttempts)
  {
    TryAnother(tried, t);
    hide UrlsOf;
  }

  lemma SearchGivesUp(tried: seq<Tried>, errors: set<Url>, endpoints: seq<Url>, reroutes: int)
    requires Searching(tried, errors, endpoints) && tried != [] && endpoints != [] && |tried| <= reroutes + 1
    requires |tried| == reroutes + 1 || forall u :: u in endpoints ==> u in errors
    ensures Settled(if Last(tried).ConnectFails? then BadGateway else ServerError, tried, endpoints, reroutes)
  {
    SubsetNotLarger(errors, Urls(endpoints));
    if |tried| < reroutes + 1 {
      assert errors == Urls(endpoints);
    }
  }

  function Last(tried: seq<Tried>): Backend
    requires tried != []
  {
    tried[|tried| - 1].how
  }

  /** What the loop returns on an attempt that does not rotate. */
  function ReplyTo(how: Backend): Reply
    requires !Rotates(how)
  {
    match how
    case BadBody => BadRequest
    case ReadTimesOut => GatewayTimeout
    case EntryTimesOut => GatewayTimeout
    case Cancelled(_) => ClientGone
    case Answers(status, _, ending) => Streamed(status, ending)
  }

  function LastUrl(tried: seq<Tried>): Url {
    if tried == [] then "" else tried[|tried| - 1].url
  }

  /** One attempt from registration to its terminal hook. */
  method RunAttempt(monitor: RequestStatsMonitor, url: Url, id: string, how: Backend, start: real, first: real, end: real)
    requires !how.BadBody? && monitor.Valid()
    modifies monitor
    ensures monitor.Valid() && monitor.nextHandle == old(monitor.nextHandle) + 1
    ensures monitor.trace == old(monitor.trace)
                             + Hooks(Tried(url, how), id, old(monitor.nextHandle), start, first, end)
    ensures var l, l' := old(monitor.LedgerView()), monitor.LedgerView();
            SameLoad(l, l') && FinishedMore(l, l', url, if Terminal(how) == Completes then 1 else 0)
  {
    hide Run, SameLoad, FinishedMore, Sane, Carries, TerminalEvent;
    ghost var l := monitor.LedgerView();
    ReachableIsSane(monitor.slidingWindowSize, monitor.trace);
    var handle := OpenAttempt(monitor, url, id, how, start, end);
    if how.Answers? {
      StreamBody(monitor, handle, url, how, first, end, l);
    }
  }

  /** One turn of the loop at `server`: the attempt, or the bad body before it is registered. */
  method TryServer(monitor: RequestStatsMonitor, tried: seq<Tried>, server: Url, how: Backend, id: string,
                   clock: nat -> real, ghost l: Ledger, ghost h: Handle, ghost told: seq<Event>)
    requires monitor.Valid() && monitor.nextHandle == h + |tried|
    requires monitor.trace == told + AllHooks(tried, id, h, clock) && h == |Attempts(told)|
    requires forall i :: 0 <= i < |tried| ==> Rotates(tried[i].how)
    requires SameLoad(l, monitor.LedgerView()) && FinishedMore(l, monitor.LedgerView(), LastUrl(tried), 0)
    modifies monitor
    ensures monitor.Valid() && (!how.BadBody? ==> monitor.nextHandle == h + |tried| + 1)
    ensures monitor.trace == told + AllHooks(tried + [Tried(server, how)], id, h, clock)
    ensures Attempts(monitor.trace) == Attempts(told) + AttemptsOf(tried + [Tried(server, how)], id, clock)
    ensures SameLoad(l, monitor.LedgerView())
    ensures FinishedMore(l, monitor.LedgerView(), server, if Finishes(how) then 1 else 0)
  {
    hide Run, SameLoad, FinishedMore, AllHooks, Attempts, AttemptsOf;
    var n := |tried|;
    RequestAddsAttempts(told, tried + [Tried(server, how)], id, clock);
    ghost var before := monitor.LedgerView();
    OneMoreAttempt(tried, Tried(server, how), id, h, clock);
    if how.BadBody? {
      NothingFinished(l, before, LastUrl(tried), server);
    } else {
      RunAttempt(monitor, server, id, how, clock(3 * n), clock(3 * n + 1), clock(3 * n + 2));
      NetEffectsAdd(l, before, monitor.LedgerView(), LastUrl(tried), server, if Finishes(how) then 1 else 0);
    }
  }

  lemma NetEffectsAdd(l: Ledger, l1: Ledger, l2: Ledger, url: Url, last: Url, n: nat)
    requires SameLoad(l, l1) && FinishedMore(l, l1, url, 0) && SameLoad(l1, l2) && FinishedMore(l1, l2, last, n)
    ensures SameLoad(l, l2) && FinishedMore(l, l2, last, n)
  {
  }

  lemma NothingFinished(l: Ledger, l': Ledger, url: Url, other: Url)
    requires FinishedMore(l, l', url, 0)
    ensures FinishedMore(l, l', other, 0)
  {
  }

  lemma SubsetNotLarger<T>(a: set<T>, b: set<T>)
    requires a <= b
    ensures |a| <= |b|
  {
    assert b == a + (b - a);
  }

  function Min(a: int, b: int): int {
    if a < b then a else b
  }

  lemma TryAnother(tried: seq<Tried>, t: Tried)
    requires t.url !in UrlsOf(tried) && |UrlsOf(tried)| == |tried|
    requires forall i, j :: 0 <= i < j < |tried| ==> tried[i].url != tried[j].url
    ensures UrlsOf(tried + [t]) == UrlsOf(tried) + {t.url} && |UrlsOf(tried + [t])| == |tried| + 1
    ensures forall i, j :: 0 <= i < j < |tried + [t]| ==> (tried + [t])[i].url != (tried + [t])[j].url
  {
    var more := tried + [t];
    forall u | u in UrlsOf(tried) + {t.url}
      ensures u in UrlsOf(more)
    {
      if u == t.url {
        assert more[|tried|] == t;
      } else {
        var x :| x in tried && x.url == u;
        assert x in more;
      }
    }
    assert UrlsOf(more) == UrlsOf(tried) + {t.url};
    forall i | 0 <= i < |tried| ensures tried[i].url != t.url {
      assert tried[i] in tried;
    }
  }

  lemma NothingYet(l: Ledger, endpoints: seq<Url>, reroutes: int, id: string, h: Handle, clock: nat -> real,
                   pick: (nat, seq<Url>) -> Url, backend: (nat, Url) -> Backend)
    ensures AllHooks([], id, h, clock) == [] && AttemptsOf([], id, clock) == []
    ensures SameLoad(l, l) && FinishedMore(l, l, "", 0) && Searching([], {}, endpoints)
    ensures Followed([], endpoints, pick, backend)
    ensures endpoints == [] ==> Settled(ModelUnavailable, [], endpoints, reroutes)
    ensures endpoints == [] ==> Settled(ModelNotFound, [], endpoints, reroutes)
    ensures endpoints != [] && reroutes < 0 ==> Settled(NoAttemptAllowed, [], endpoints, reroutes)
  {
  }

  /** The failover loop, for any router that answers within its list and any behaviour of the backends. */
  method RouteGeneralRequest(monitor: RequestStatsMonitor, endpoints: seq<Url>, everSeen: bool, reroutes: int,
                             id: string, pick: (nat, seq<Url>) -> Url, backend: (nat, Url) -> Backend,
                             clock: nat -> real)
    returns (reply: Reply, tried: seq<Tried>)
    requires AnswersWithin(pick) && monitor.Valid()
    modifies monitor
    ensures monitor.Valid() && monitor.trace == old(monitor.trace) + AllHooks(tried, id, old(monitor.nextHandle), clock)
    ensures Attempts(monitor.trace) == Attempts(old(monitor.trace)) + AttemptsOf(tried, id, clock)
    ensures Settled(reply, tried, endpoints, reroutes) && Followed(tried, endpoints, pick, backend)
    ensures reply.ModelUnavailable? ==> everSeen
    ensures reply.ModelNotFound? ==> !everSeen
    ensures var l, l' := old(monitor.LedgerView()), monitor.LedgerView();
            SameLoad(l, l') && FinishedMore(l, l', LastUrl(tried), if reply.Streamed? && reply.ending == Drained then 1 else 0)
  {
    hide Run, SameLoad, FinishedMore, Searching, Settled, Followed, Offered, Urls, UrlsOf, Hooks, AllHooks, Attempts, AttemptsOf;
    ghost var l, h, told := monitor.LedgerView(), monitor.nextHandle, monitor.trace;
    NothingYet(l, endpoints, reroutes, id, h, clock, pick, backend);
    HandleIsRegistrationCount(monitor.slidingWindowSize, told);
    tried := [];
    if endpoints == [] {
      reply := if everSeen then ModelUnavailable else ModelNotFound;
      return;
    }
    if reroutes < 0 {
      reply := NoAttemptAllowed;
      return;
    }
    var errors: set<Url> := {};
    var server := pick(0, endpoints);
    var lastError: Option<Backend> := None;
    var maxAttempts := reroutes + 1;
    for attempt := 0 to maxAttempts
      invariant attempt == |tried| && Searching(tried, errors, endpoints)
      invariant lastError == if tried == [] then None else Some(Last(tried))
      invariant Followed(tried, endpoints, pick, backend)
      invariant attempt == 0 ==> server == pick(0, endpoints) && errors == {}
      invariant monitor.Valid() && monitor.nextHandle == h + attempt
      invariant monitor.trace == told + AllHooks(tried, id, h, clock)
      invariant Attempts(monitor.trace) == Attempts(told) + AttemptsOf(tried, id, clock)
      invariant SameLoad(l, monitor.LedgerView()) && FinishedMore(l, monitor.LedgerView(), LastUrl(tried), 0)
    {
      if attempt > 0 {
        var remaining := Remaining(endpoints, errors);
        if remaining == [] {
          break;
        }
        server := pick(attempt, remaining);
      }
      var how := backend(attempt, server);
      AllRotated(tried, errors, endpoints);
      OfferedNext(tried, errors, endpoints);
      FollowedOneMore(tried, Tried(server, how), endpoints, pick, backend);
      TryServer(monitor, tried, server, how, id, clock, l, h, told);
      if !Rotates(how) {
        SearchEnds(tried, errors, endpoints, Tried(server, how), reroutes);
        tried, reply := tried + [Tried(server, how)], ReplyTo(how);
        return;
      }
      SearchGoesOn(tried, errors, endpoints, Tried(server, how));
      tried, errors, lastError := tried + [Tried(server, how)], errors + {server}, Some(how);
    }
    SearchGivesUp(tried, errors, endpoints, reroutes);
    reply := if lastError.value.ConnectFails? then BadGateway else ServerError;
  }
}
