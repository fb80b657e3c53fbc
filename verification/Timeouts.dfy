/** The backend timeouts of aiohttp_client.py and the latency they buy the failover loop. */
module Timeouts {
  import opened Basics
  import opened Failover

  datatype ClientTimeout = ClientTimeout(
    total: Option<real>, connect: Option<real>, sockConnect: Option<real>, sockRead: Option<real>)

  /** Zero, negative or missing disables a bound. */
  function Enabled(bound: Option<real>): Option<real> {
    if bound.Some? && bound.value > 0.0 then bound else None
  }

  function BuildBackendClientTimeout(connect: Option<real>, read: Option<real>): ClientTimeout {
    ClientTimeout(None, Enabled(connect), Enabled(connect), Enabled(read))
  }

  /** The time allowed up to the response headers: connect plus read; none without a read bound. */
  function BackendEntryDeadline(timeout: ClientTimeout): Option<real> {
    match Enabled(timeout.sockRead)
    case None => None
    case Some(read) =>
      match Enabled(timeout.sockConnect)
      case None => Some(read)
      case Some(connect) => Some(read + connect)
  }

  /** The deadline exists exactly when reads are bounded, and is the sum of the enabled bounds. */
  lemma DeadlineCoversBounds(connect: Option<real>, read: Option<real>)
    ensures var timeout := BuildBackendClientTimeout(connect, read);
            var deadline := BackendEntryDeadline(timeout);
            && timeout.total == None && timeout.connect == timeout.sockConnect
            && (timeout.connect.Some? <==> connect.Some? && connect.value > 0.0)
            && (timeout.connect.Some? ==> timeout.connect == connect)
            && (deadline.Some? <==> read.Some? && read.value > 0.0)
            && (deadline.Some? ==>
                  deadline.value == read.value + if connect.Some? && connect.value > 0.0 then connect.value else 0.0)
  {
  }

  function Total(took: seq<real>): real {
    if took == [] then 0.0 else Total(took[..|took| - 1]) + took[|took| - 1]
  }

  /**
   Up to the headers, a connect failure takes at most the connect bound and anything
   else at most the entry deadline. A bad body is found before any timer starts.
   */
  ghost predicate WithinBounds(how: Backend, took: real, timeout: ClientTimeout) {
    && (how.BadBody? ==> took == 0.0)
    && (how.ConnectFails? ==> timeout.connect.Some? ==> took <= timeout.connect.value)
    && (BackendEntryDeadline(timeout).Some? ==> took <= BackendEntryDeadline(timeout).value)
  }

  /** The attempts that did not end in a connect failure: each may have waited to read. */
  function Waited(tried: seq<Tried>): nat {
    if tried == [] then 0
    else Waited(tried[..|tried| - 1]) + if tried[|tried| - 1].how.ConnectFails? then 0 else 1
  }

  /** The attempts that failed before the headers other than by connecting or timing out. */
  function Broken(tried: seq<Tried>): nat {
    if tried == [] then 0
    else Broken(tried[..|tried| - 1]) + if tried[|tried| - 1].how.Breaks? then 1 else 0
  }

  lemma {:induction false} TimesGrows(m: nat, n: nat, c: real)
    requires m <= n && c >= 0.0
    ensures Times(m, c) <= Times(n, c)
  {
    if m < n {
      TimesGrows(m, n - 1, c);
    }
  }

  lemma {:induction false} WaitsAddUp(tried: seq<Tried>, took: seq<real>, c: real, r: real)
    requires |took| == |tried|
    requires forall i :: 0 <= i < |tried| ==> took[i] <= if tried[i].how.ConnectFails? then c else c + r
    ensures Total(took) <= Times(|tried|, c) + Times(Waited(tried), r)
  {
    if tried != [] {
      var n := |tried| - 1;
      WaitsAddUp(tried[..n], took[..n], c, r);
    }
  }

  lemma {:induction false} RotatingWaitsAreBroken(tried: seq<Tried>)
    requires forall i :: 0 <= i < |tried| ==> Rotates(tried[i].how)
    ensures Waited(tried) == Broken(tried)
  {
    if tried != [] {
      RotatingWaitsAreBroken(tried[..|tried| - 1]);
    }
  }

  /** A timeout never rotates, so besides the broken ones only the last attempt may have waited to read. */
  lemma WaitedAtMost(tried: seq<Tried>)
    requires forall i :: 0 <= i < |tried| - 1 ==> Rotates(tried[i].how)
    ensures Waited(tried) <= Broken(tried) + 1
  {
    if tried != [] {
      RotatingWaitsAreBroken(tried[..|tried| - 1]);
    }
  }

  /**
   With both bounds on, `n` permitted attempts reach the headers or an error within
   n connect bounds, one read bound, and one more read bound for each attempt that
   broke off on its own before the headers. A read or entry timeout ends the search.
   */
  lemma PreHeaderLatencyBound(tried: seq<Tried>, took: seq<real>, endpoints: seq<Url>, reroutes: int, c: real, r: real)
    requires Protocol(tried, endpoints, reroutes + 1) && |took| == |tried| && c > 0.0 && r > 0.0 && reroutes >= 0
    requires forall i :: 0 <= i < |tried| ==> WithinBounds(tried[i].how, took[i], BuildBackendClientTimeout(Some(c), Some(r)))
    ensures Total(took) <= (reroutes + 1) as real * c + (1 + Broken(tried)) as real * r
  {
    hide *;
    forall i | 0 <= i < |tried|
      ensures took[i] <= if tried[i].how.ConnectFails? then c else c + r
    {
      WaitWithin(tried[i].how, took[i], c, r);
    }
    AllButLastRotate(tried, endpoints, reroutes + 1);
    WaitedAtMost(tried);
    WaitsAddUp(tried, took, c, r);
    TimesGrows(|tried|, reroutes + 1, c);
    TimesGrows(Waited(tried), Broken(tried) + 1, r);
    TimesIsProduct(reroutes + 1, c);
    TimesIsProduct(Broken(tried) + 1, r);
  }

  lemma WaitWithin(how: Backend, took: real, c: real, r: real)
    requires c > 0.0 && r > 0.0 && WithinBounds(how, took, BuildBackendClientTimeout(Some(c), Some(r)))
    ensures took <= if how.ConnectFails? then c else c + r
  {
  }

  lemma AllButLastRotate(tried: seq<Tried>, endpoints: seq<Url>, n: int)
    requires Protocol(tried, endpoints, n)
    ensures |tried| <= (if n > 0 then n else 0) && forall i :: 0 <= i < |tried| - 1 ==> Rotates(tried[i].how)
  {
  }
}
