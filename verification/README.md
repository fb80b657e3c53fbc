# Verified core of the vLLM router and its LoRA operator

This project models the parts of the production stack that decide and count, and
proves what they promise over every run:

- the prefix trie and the routing policy that feeds its own answers back into it;
- the request statistics: handles, per-engine counters, sliding windows;
- one client request: the attempts of `process_request` inside the failover loop,
  with every call they make to the statistics monitor;
- the round-robin, priority, load-aware and cache-holder policies;
- the operator's LoRA load and unload loop, with calls that may fail;
- the printer and parser of the static configuration.

The parts compose. The failover loop drives the monitor object, the monitor's
report is the load the load-aware router reads, and the trie object is the one
the prefix-aware router owns.

## How it is laid out

| file | content |
|---|---|
| Basics.dfy, Ordering.dfy | shared types; string order, sorting, permutations |
| Trie.dfy | the trie as a value, and its refinement of a plain history of inserts |
| HashTries.dfy | chunk hashes; the heap-allocated trie, changed in place |
| TrieConcurrency.dfy | inserts and lookups interleaved at the granularity of the node locks |
| QpsRouting.dfy, PrefixAware.dfy | least-rate routing; prefix-aware routing over whole runs |
| Windows.dfy | `MovingAverageMonitor` and what its deques keep |
| RequestStats.dfy | the monitor as a state machine, one step per call |
| StatsMonitor.dfy | the monitor as a mutable object that takes those steps |
| StatsTheorems.dfy, StatsWindows.dfy | what holds of every run of the monitor |
| Failover.dfy, Timeouts.dfy | attempts, failover, replies; the latency the timeouts allow |
| RoundRobin.dfy | rotation behind two bounded caches |
| LoadAware.dfy, LoadAwareRouter.dfy | scores, balance over whole runs; the selection code |
| PriorityRouting.dfy | least-loaded and rotating requests side by side |
| LoraPlacement.dfy, LoraReconcile.dfy | where an adapter should be and is; the calls that bring it there |
| StaticConfig.dfy | printing and parsing the static tables |

An object is a class whose methods change its fields. A ghost record of the calls
made (`history`, `asked`, `log`, `trace`, `requests`) ties each object to the runs the
lemmas are about: a method's postcondition extends that record by one entry, and
`Valid()` says the fields are what the record leads to.

## Where the code and its documentation disagree

The model follows the code.

- `matched_tokens_by_url` says the last instance id written for an engine wins.
  Python dictionaries keep the place of a key that is rewritten, so this holds
  exactly when no id placed later maps to the same engine
  (`LastWrittenCreditedExactly`, `RewrittenInstanceNotCredited`).
- The comment on `getOptimalPlacement` says it returns all valid pods. It takes
  the first `replicas` of them by name.
- `Reconcile` reports "no pods are ready yet" on an empty placement. The placement
  is empty exactly when no pod is ready or zero replicas are asked for
  (`WaitsExactly`), so scaling to zero leaves the adapter where it is.
- The average latency a read reports need not be that of the last window: nothing
  prunes its deque at a read, so it is the window that ended with the last
  completion (`StaleLatency`). The two windows agree exactly when every completion
  of the one averaged is recent (`LatencyRecentExactly`).

## Properties that do not hold outright

- Prefix affinity under a changing fleet fails when an engine goes away and comes
  back. `AffinityExactly` gives the condition on the fleets, both ways, over runs of
  the router on prompts, with any hash function. One rotation of the failover loop
  is enough for a comeback (`RotationBreaksAffinity`).
- The rate a read reports is right for every window exactly when the engine's own
  arrivals were stamped in time order (`RateExactExactly`), and for the one window a
  monitor has exactly when no inversion is still inside it (`RateExactForWindow`);
  `BackwardClockMisreads` is a run where it is not.
- Rotation counts are kept exactly while at most 1024 distinct engine sets have
  been seen (`CountersArePriorExactly`); `UnfairRun` is a run over 1025 sets in which
  two engines of a set differ by two.
- The configuration round trip holds exactly when some model has a backend, every
  URL is valid and no URL or name holds a comma (`ConfigRoundTripExactly`); the
  alias round trip exactly when there is an alias and no comma or colon in any
  (`AliasRoundTripExactly`).
- `compareStates` judges a list of registrations rightly against every placement
  exactly when the list does not repeat a pod (`JudgedRightlyExactly`). A repeated
  one can hide a missing pod (`RepeatedRegistrationHides`) and can raise a false
  alarm (`FalseAlarm`).
- A pass sees all pods that hold the adapter exactly when each is listed, ready and
  answers (`TruthExactly`); what it misses it leaves as it is.
- A pass without failure need not bring the loop to rest: a desired pod that is ready
  but does not answer is loaded again on every pass (`SilentPodNeverRests`). The next
  pass finds nothing to do exactly when every desired pod is seen
  (`NextPassRestsExactly`).
- The placement does not depend on how the pods are sorted exactly when the ready pods
  have distinct names (`ChoiceSettledExactly`): the sort is by name alone and not
  stable, and pods are listed across namespaces.

## Model

| member | source | states |
|---|---|---|
| HashTries.HashesCover | src/vllm_router/prefix/hashtrie.py:56-57 | the chunks cover the request and the last may be short, so a full match may be reported up to one chunk longer than the request |
| HashTries.SameTextSharesHashes | src/vllm_router/prefix/hashtrie.py:46-57 | requests that agree on their first d full chunks share d hashes, whatever the hash function |
| HashTries.SameHashesShareText | src/vllm_router/prefix/hashtrie.py:46-57 | without hash collisions, sharing d hashes means sharing the text they cover |
| HashTries.HashTrie.Insert | src/vllm_router/prefix/hashtrie.py:59-75 | walking and changing the heap adds exactly one entry to the history of inserts the trie stands for |
| HashTries.HashTrie.LongestPrefixMatch | src/vllm_router/prefix/hashtrie.py:77-104 | the length returned is k chunks, where k and the endpoints returned are the longest match in that history |
| Trie.LookupIsDeepest | src/vllm_router/prefix/hashtrie.py:86-104 | the walk stops at the deepest node on the path with a live endpoint, and returns those live there |
| Trie.LookupFindsLongestMatch | src/vllm_router/prefix/hashtrie.py:46-104 | k is the greatest number of leading hashes shared with an insert for an available endpoint, with exactly the available endpoints that reach it, all of them when k is 0 |
| Trie.LongestMatchUnique | src/vllm_router/prefix/hashtrie.py:77-104 | that description determines the answer |
| Trie.ViewOfAt | src/vllm_router/prefix/hashtrie.py:59-75 | a node exists exactly when some insert passed through it, and holds exactly the endpoints of those inserts |
| TrieConcurrency.StepKeepsInvariant | src/vllm_router/prefix/hashtrie.py:66-104 | every locked section of every coroutine keeps the invariant of trie, inserts and lookups |
| TrieConcurrency.RunKeepsInvariant | src/vllm_router/prefix/hashtrie.py:66-104 | the invariant holds in every reachable state of every interleaving |
| TrieConcurrency.LookupSandwiched | src/vllm_router/prefix/hashtrie.py:86-104 | a finished lookup matched at least as deep as an atomic one on the trie it began with and at most as deep as one on the trie there is now, keeping all endpoints that were at its depth and naming only those whose insert has reached it |
| TrieConcurrency.ChildWithinParent | src/vllm_router/prefix/hashtrie.py:66-75 | in every reachable state a node holds no endpoint its parent lacks |
| TrieConcurrency.QuiescentTrieIsSequential | src/vllm_router/prefix/hashtrie.py:59-75 | once all inserts have ended, the trie is the one they build one after another |
| TrieConcurrency.InsertEndsExactly | src/vllm_router/prefix/hashtrie.py:66-75 | under any interleaving an insert of n chunks has ended exactly when it has been given its 2n + 1 locked sections, and then its endpoint is at every node of its path |
| TrieConcurrency.LookupEnds | src/vllm_router/prefix/hashtrie.py:86-104 | a lookup of n chunks has ended once it has been given 2n + 1 sections of its own |
| TrieConcurrency.ServedTrieIsSequential | src/vllm_router/prefix/hashtrie.py:59-75 | once every insert asked for has had its sections, the trie is the one they build one after another |
| TrieConcurrency.UndisturbedIsAtomic | src/vllm_router/prefix/hashtrie.py:86-104 | a lookup the trie did not change under gives the answer of an atomic one |
| TrieConcurrency.QuietLookupFindsLongestMatch | src/vllm_router/prefix/hashtrie.py:59-104 | a lookup begun after all inserts had their sections, and given its own before another begins, returns the longest match in the plain history of inserts |
| QpsRouting.RouteByQps | src/vllm_router/routers/routing_logic.py:94-116 | the first engine without statistics if there is one, else the first of least rate; none only for no engines |
| PrefixAware.OneOwner | src/vllm_router/routers/routing_logic.py:830-850 | in a run without a comeback at most one live engine ever holds a prefix long enough to decide |
| PrefixAware.FixedFleetOneOwner | src/vllm_router/routers/routing_logic.py:830-850 | with a fixed fleet every trie node at or beyond the threshold depth holds exactly one engine, always |
| PrefixAware.NoComebackAffine | src/vllm_router/routers/routing_logic.py:830-850 | in such a run a request sharing a deciding prefix with an earlier one goes to the same engine while that is live |
| PrefixAware.ComebackBreaksAffinity | src/vllm_router/routers/routing_logic.py:822-850 | over any fleets with a comeback, and for any hash function, there are prompts, engine lists and statistics on which the router breaks affinity, taking the least-rate engine below the threshold as the code does |
| PrefixAware.AffinityExactly | src/vllm_router/routers/routing_logic.py:822-850 | for any hash function, every run of the router over a sequence of fleets keeps affinity if and only if no engine goes away and comes back to one that was live meanwhile |
| PrefixAware.RotationIsComeback | src/vllm_router/services/request_service/request.py:786-797 | routing again over the engines that remain after a failure, and later over the full list, is a comeback |
| PrefixAware.RotationBreaksAffinity | src/vllm_router/services/request_service/request.py:786-797 | a request rotated from u to v can send the next one with its prompt to v although u is live again |
| PrefixAware.SamePromptSameEngine | src/vllm_router/routers/routing_logic.py:830-850 | the same in terms of prompt text: agreeing on enough leading chunks gives the same engine, whatever the hash function |
| PrefixAware.PrefixAwareRouter.Select | src/vllm_router/routers/routing_logic.py:830-846 | from a match to an engine: a deepest holder at or above the threshold, the least-rate engine below it, and the two ways of having none |
| PrefixAware.PrefixAwareRouter.RouteRequest | src/vllm_router/routers/routing_logic.py:822-850 | extends the run the theorems are about by one request: a live engine, a deepest holder or below the threshold the least-rate one; it is recorded in the trie either way, and nothing is recorded when there is none |
| Windows.PruneIsSince | src/vllm_router/stats/request_stats.py:97-113 | on points in time order, dropping from the front is exactly filtering by age |
| Windows.PruneIsSinceExactly | src/vllm_router/stats/request_stats.py:97-113 | the two agree at every cutoff if and only if the points are in time order |
| Windows.PruneThenSince | src/vllm_router/stats/request_stats.py:104-113 | pruning early loses no point a later cutoff would keep |
| Windows.AverageIsMean | src/vllm_router/stats/request_stats.py:115-116 | the average times the number of points is their sum, it lies among their values, and it is -1 over none |
| Windows.SumAppend | src/vllm_router/stats/request_stats.py:118-119 | the sum of one point is its value, and sums add up |
| Windows.MovingAverageMonitor.UpdateNoValue | src/vllm_router/stats/request_stats.py:104-113 | the loop over the two parallel deques drops the same leading points from both |
| Windows.MovingAverageMonitor.Update | src/vllm_router/stats/request_stats.py:84-102 | appends one point, then drops by age |
| StatsMonitor.RequestStatsMonitor.OnNewRequest | src/vllm_router/stats/request_stats.py:164-203 | the object takes the machine's step for a registration and returns a handle never given before |
| StatsMonitor.RequestStatsMonitor.OnRequestResponse | src/vllm_router/stats/request_stats.py:205-241 | the object takes the machine's step for a first token, for any handle |
| StatsMonitor.RequestStatsMonitor.FinalizeRequest | src/vllm_router/stats/request_stats.py:243-279 | the record and both indexes are popped, its stage count lowered, and a completion counted and timed, all of it once |
| StatsMonitor.RequestStatsMonitor.OnRequestComplete | src/vllm_router/stats/request_stats.py:281-289 | the machine's completion step |
| StatsMonitor.RequestStatsMonitor.OnRequestFail | src/vllm_router/stats/request_stats.py:291-293 | the machine's failure step |
| StatsMonitor.RequestStatsMonitor.OnRequestAbort | src/vllm_router/stats/request_stats.py:295-297 | the machine's abort step |
| StatsMonitor.RequestStatsMonitor.OnRequestSwapped | src/vllm_router/stats/request_stats.py:299-312 | the machine's swap step |
| StatsMonitor.RequestStatsMonitor.GetRequestStats | src/vllm_router/stats/request_stats.py:314-384 | reading engine by engine, pruning as it goes, reports what one look at the state before would, in whatever order the engines come |
| StatsTheorems.CountersNeverDrift | src/vllm_router/stats/request_stats.py:164-279 | in every run, with duplicate, stale and unknown handles, each counter equals the number of records in that stage on that engine, the time indexes match the records, and neither error branch nor a missing latency monitor is ever reached |
| StatsTheorems.LedgerFollowsAttempts | src/vllm_router/stats/request_stats.py:164-297 | records and counters are a function of the attempts taken one by one: engine, id, start and first token of each record, and the stage its own calls lead to |
| StatsTheorems.Conservation | src/vllm_router/stats/request_stats.py:175-279 | requests ever registered on an engine = in prefill + in decoding + finished + failed or aborted |
| StatsTheorems.RetiredHandleIsInert | src/vllm_router/stats/request_stats.py:246-297 | after an attempt has ended, whatever follows, its handle has no record, is never given again, and no call with it changes anything |
| StatsTheorems.InterleavingDoesNotMatter | src/vllm_router/stats/request_stats.py:205-297 | two runs of the same attempts end with the same counters, however interleaved and whatever handles were given |
| StatsTheorems.QuiescentLoadsAreZero | src/vllm_router/stats/request_stats.py:243-279 | when every attempt has ended every load is zero and no record is left |
| StatsWindows.DequesAnswer | src/vllm_router/stats/request_stats.py:84-113 | however the calls are stamped, the arrival and first-token deques answer every read after them as the full lists would |
| StatsWindows.LatencyDequeExact | src/vllm_router/stats/request_stats.py:275-279 | with completions stamped in order the latency deque is the window that ended with the last of them |
| StatsWindows.LatencyRecentExactly | src/vllm_router/stats/request_stats.py:357-360 | that is the window that ends at the read if and only if every completion near enough to the last one is near enough to the read |
| StatsWindows.StaleLatency | src/vllm_router/stats/request_stats.py:357-360 | a read long after the last completion still reports its latency |
| StatsWindows.ReadIsPruned | src/vllm_router/stats/request_stats.py:330-384 | a read after all calls, however stamped, reports exactly the engines ever given a request, with every figure a function of the full list of calls |
| StatsWindows.ReadMeans | src/vllm_router/stats/request_stats.py:338-360 | the rate times the window is a number of arrivals, and the two averages are the means of first-token times and latencies, or -1 over none |
| StatsWindows.UptimeSinceFirstQuery | src/vllm_router/stats/request_stats.py:376-378 | the uptime runs from the first request ever registered, unless that one was stamped 0 |
| StatsWindows.ReadPrunes | src/vllm_router/stats/request_stats.py:334-346 | a read drops what has aged from two deques and leaves latencies, counters and records alone |
| StatsWindows.ReadIsExact | src/vllm_router/stats/request_stats.py:330-384 | if the engine's own calls were stamped in order, the figures are those of the last window and of the counts of attempts in each stage |
| StatsWindows.ForwardClockInOrder | src/vllm_router/stats/request_stats.py:84-113 | a clock that does not run backwards stamps every engine's calls in order |
| StatsWindows.RateExactExactly | src/vllm_router/stats/request_stats.py:334-339 | every read over every window after all calls reports the right rate for an engine if and only if its arrivals were stamped in order |
| StatsWindows.RateExactForWindow | src/vllm_router/stats/request_stats.py:334-339 | for one window size, every read after all calls is right if and only if no later-stamped arrival before an earlier-stamped one can still be in the window at a read |
| StatsWindows.BackwardClockMisreads | src/vllm_router/stats/request_stats.py:97-113 | a clock that steps back makes a read count an arrival that is too old |
| StatsWindows.ReadsAreTransparent | src/vllm_router/stats/request_stats.py:330-384 | extra reads anywhere in a run change nothing a read after them reports, however the calls were stamped |
| Failover.AttemptRetires | src/vllm_router/services/request_service/request.py:414-537 | an ended attempt is out of flight, having left decoding if a chunk arrived and prefill otherwise, and is finished exactly when its body was read to the end without trouble |
| Failover.TerminalExactly | src/vllm_router/services/request_service/request.py:455-537 | abort exactly for a client that left, completion exactly for a body read to the end without trouble, failure for the rest |
| Failover.OpenAttempt | src/vllm_router/services/request_service/request.py:385-436 | registers, and when no headers come calls one terminal hook: abort only for a cancellation without the deadline, fail otherwise; no load is left |
| Failover.StreamBody | src/vllm_router/services/request_service/request.py:437-537 | one first-token call at the first chunk if there is one, then one terminal hook chosen by how the body ended; no load is left |
| Failover.RunAttempt | src/vllm_router/services/request_service/request.py:385-537 | the exact calls of an attempt, and its net effect: loads as before, one completion more exactly when it completed |
| Failover.RequestAddsAttempts | src/vllm_router/services/request_service/request.py:385-537 | the calls of a whole request add one retired attempt per engine tried, in order, and touch no other |
| Failover.HandleIsRegistrationCount | src/vllm_router/stats/request_stats.py:175-177 | the next handle is the number of registrations so far |
| Failover.EndedAttemptsLeaveNoLoad | src/vllm_router/services/request_service/request.py:385-537 | however the attempts of however many requests interleave, once each has made its calls no engine carries load and the completions are those read to the end |
| Failover.RouteGeneralRequest | src/vllm_router/services/request_service/request.py:709-914 | for any router answering within its list and any backends: each attempt is at the engine the router picked of those not yet failed and goes as that backend does; distinct engines, only rotating failures before the last, the reply exactly determined by the last attempt (404, 503, 400, 502, 504, error, cancellation, stream), giving up only after min(attempts allowed, distinct engines); the monitor heard exactly the calls of those attempts, so its run has gained exactly these attempts; loads are as before, and at most one completion is counted, on the last engine |
| Failover.OutcomeDetermined | src/vllm_router/services/request_service/request.py:709-890 | router and backends determine the attempts and the reply: no other outcome satisfies these clauses |
| Failover.RemainingIsFilter | src/vllm_router/services/request_service/request.py:786-788 | the engines offered again stand in the order they were listed |
| Timeouts.DeadlineCoversBounds | src/vllm_router/aiohttp_client.py:26-65 | no total bound, one connect bound for both connect fields, and an entry deadline that exists exactly when reads are bounded and is exactly the sum of the enabled bounds |
| Timeouts.PreHeaderLatencyBound | src/vllm_router/services/request_service/request.py:784-872 | with both bounds on, n attempts reach headers or an error within n connect bounds, one read bound, and one more read bound per attempt that broke off otherwise |
| RoundRobin.KeyedIsSortedSet | src/vllm_router/routers/routing_logic.py:186-198 | the cached key is the sorted set of URLs, however they are listed |
| RoundRobin.CachesBounded | src/vllm_router/routers/routing_logic.py:175-227 | in every reachable state both caches hold at most 1024 entries and the sort cache is right |
| RoundRobin.CountersArePrior | src/vllm_router/routers/routing_logic.py:218-227 | while at most 1024 distinct sets were seen each counter is the number of requests for its set |
| RoundRobin.CountersArePriorExactly | src/vllm_router/routers/routing_logic.py:218-227 | and this holds if and only if at most 1024 were seen |
| RoundRobin.RotationIndex | src/vllm_router/routers/routing_logic.py:218-227 | the i-th request for a set stands at index i of its rotation, whatever sets were asked for in between |
| RoundRobin.SentIsShare | src/vllm_router/routers/routing_logic.py:200-227 | each engine has been given exactly the share a perfect rotation gives its place |
| RoundRobin.RoundRobinFair | src/vllm_router/routers/routing_logic.py:200-227 | two engines of a set differ by at most one request of that set |
| RoundRobin.TurnIsRotation | src/vllm_router/routers/routing_logic.py:218-227 | over at most 1024 sets the engine answered is sorted[i mod n] for the i-th request of its set |
| RoundRobin.ReceivedIsSent | src/vllm_router/routers/routing_logic.py:218-227 | places of the rotation and engines answered are the same count |
| RoundRobin.EnginesShareFairly | src/vllm_router/routers/routing_logic.py:200-227 | two engines of a set have answered numbers of its requests that differ by at most one |
| RoundRobin.OneSetTooMany | src/vllm_router/routers/routing_logic.py:220-225 | the 1025th set empties the counters, so the next request for another set starts over |
| RoundRobin.UnfairBeyondBound | src/vllm_router/routers/routing_logic.py:218-227 | a set asked for once before and once after 1024 other sets is sent to its first engine both times and to its second never |
| RoundRobin.UnfairRun | src/vllm_router/routers/routing_logic.py:218-227 | such a run exists |
| RoundRobin.RoundRobinRouter.EndpointKey | src/vllm_router/routers/routing_logic.py:186-198 | the key and the cache after it are those of the specification |
| RoundRobin.RoundRobinRouter.RouteRequest | src/vllm_router/routers/routing_logic.py:200-227 | the engine whose turn it is after all earlier requests, which is sorted[i mod n] while at most 1024 sets were seen; an error exactly for no engines |
| PriorityRouting.LeastLoadedUnique | src/vllm_router/routers/routing_logic.py:956-960 | the engine of least load and least URL is unique and does not depend on how the engines are listed |
| PriorityRouting.UrgentStaysLevel | src/vllm_router/routers/routing_logic.py:910-960 | in any run of monitor and router with urgent requests only and nothing ended, no engine is ahead of another by more than one |
| PriorityRouting.TurnsAreFair | src/vllm_router/routers/routing_logic.py:954-964 | over any run the places of a listing differ by at most one turn; an engine listed twice has two places |
| PriorityRouting.PriorityRouter.RouteRequest | src/vllm_router/routers/routing_logic.py:917-964 | an urgent request goes to the least-loaded engine and takes no turn; any other goes to the place whose turn it is for its sorted listing; an error exactly for no engines |
| LoadAware.LastWrittenCreditedExactly | src/vllm_router/routers/routing_logic.py:571-587 | the instance just written for an engine is the one credited if and only if none placed later maps to that engine |
| LoadAware.RewrittenInstanceNotCredited | src/vllm_router/routers/routing_logic.py:571-587 | an instance that answers again after a second one was seen is not credited |
| LoadAware.MatchedTokensExactly | src/vllm_router/routers/routing_logic.py:571-587 | an engine is credited the match of the last-placed instance that maps to it, and none without one |
| LoadAware.PairwiseOrder | src/vllm_router/routers/routing_logic.py:538-569 | two engines compare by benefit difference against beta times load difference over max(1, mean); the mean cancels |
| LoadAware.BenefitIsShare | src/vllm_router/routers/routing_logic.py:568 | the benefit is the cached share of the prompt, at most all of it |
| LoadAware.PreferredExactly | src/vllm_router/routers/routing_logic.py:538-569 | the order of two engines in raw figures: lead in credited tokens times max(1, mean) against beta times excess load times prompt length |
| LoadAware.EqualLoadsPickLargestMatch | src/vllm_router/routers/routing_logic.py:558-619 | under equal loads the choice has the largest match within the prompt |
| LoadAware.RelativeLoadsSumToZero | src/vllm_router/routers/routing_logic.py:538-556 | relative loads over the fleet sum to zero |
| LoadAware.SelectionCanonical | src/vllm_router/routers/routing_logic.py:589-619 | the answer is unique and does not depend on how the engines are listed |
| LoadAware.ChosenNearLeast | src/vllm_router/routers/routing_logic.py:525-619 | for beta > 0 the chosen engine's load exceeds any other's by at most max(1, mean)/beta |
| LoadAware.ArrivalsStayBalanced | src/vllm_router/routers/routing_logic.py:525-619 | in any run of monitor and router in which nothing has ended, no engine is ahead of another by more than max(1, mean)/beta + 1 |
| LoadAwareRouter.Router.Learn | src/vllm_router/routers/routing_logic.py:660 | a known instance is rewritten where it stands with every other link unchanged, a new one goes to the end, and it is the one credited exactly when none placed later maps to the engine |
| LoadAwareRouter.Router.MatchedTokensByUrl | src/vllm_router/routers/routing_logic.py:571-587 | each engine is credited the match of the last-placed instance that maps to it |
| LoadAwareRouter.Router.SelectUrl | src/vllm_router/routers/routing_logic.py:589-619 | the engine of highest score and of those the least URL; of engines with its load none has a larger match within the prompt; none only for no engines |
| LoadAwareRouter.Router.SelectHolder | src/vllm_router/routers/routing_logic.py:444-478 | the engine of the first live holder with the most matched tokens, exactly when there is one and its match is within the threshold of the whole prompt |
| LoadAwareRouter.Router.RouteByCache | src/vllm_router/routers/routing_logic.py:444-478 | that engine on a cache hit; otherwise the session's ring node, or without a session the least-rate engine |
| LoraPlacement.GetOptimalPlacement | operator/internal/controller/loraadapter_controller.go:360-411 | for any sorting by name, the loops compute the placement the lemmas below describe |
| LoraPlacement.PlacementTakesFirst | operator/internal/controller/loraadapter_controller.go:368-410 | as many pods as wanted, all ready, and no ready pod left out comes before one chosen |
| LoraPlacement.PlacementGrows | operator/internal/controller/loraadapter_controller.go:387-410 | one replica more keeps every pod already chosen |
| LoraPlacement.PlacementByPods | operator/internal/controller/loraadapter_controller.go:387-410 | with distinct names the placement depends neither on the order pods are listed in nor on how ties are sorted |
| LoraPlacement.ChoiceSettledExactly | operator/internal/controller/loraadapter_controller.go:387-390 | every sorting chooses the same pods for every number of replicas if and only if the ready pods have distinct names |
| LoraPlacement.TiesMayMove | operator/internal/controller/loraadapter_controller.go:387-390 | with two ready pods of one name, two sortings choose different pods |
| LoraPlacement.PlacementProper | operator/internal/controller/loraadapter_controller.go:387-410 | a placement never names a pod twice |
| LoraPlacement.KeyInjective | operator/internal/controller/loraadapter_controller.go:822-830 | the namespace/name key tells pods apart |
| Ordering.LeqIsLexicographic | operator/internal/controller/loraadapter_controller.go:387-390 | the order sorted by: a string before those it begins, else by the first character that differs |
| LoraPlacement.CompareStates | operator/internal/controller/loraadapter_controller.go:814-836 | true exactly when lengths differ or some registration is not desired |
| LoraPlacement.CompareDecidesEquality | operator/internal/controller/loraadapter_controller.go:814-836 | for lists without repetition that is exactly inequality of the two pod sets |
| LoraPlacement.JudgedRightlyExactly | operator/internal/controller/loraadapter_controller.go:814-836 | a list of registrations is judged rightly against every placement if and only if it repeats no pod |
| LoraPlacement.FalseAlarm | operator/internal/controller/loraadapter_controller.go:814-820 | a repeated registration makes the comparison report a difference from the very pods it names |
| LoraReconcile.GetAdapterRegistrations | operator/internal/controller/loraadapter_controller.go:623-690 | the adapter's pods among those listed, ready and answering, each once |
| LoraReconcile.TruthExactly | operator/internal/controller/loraadapter_controller.go:624-650 | these are all the pods holding the adapter if and only if each of those is listed, ready and answers |
| LoraPlacement.RepeatedRegistrationHides | operator/internal/controller/loraadapter_controller.go:814-836 | a repeated registration can hide a missing pod |
| LoraReconcile.DesiredPodsKeepAdapter | operator/internal/controller/loraadapter_controller.go:839-886 | through any prefix of the calls, failures included, a desired pod that holds the adapter keeps it |
| LoraReconcile.CallRightsOnePod | operator/internal/controller/loraadapter_controller.go:859-883 | a call that takes effect removes exactly its pod from the pods that are wrong |
| LoraReconcile.WrongNeverGrows | operator/internal/controller/loraadapter_controller.go:859-883 | no pod that is right is ever made wrong |
| LoraReconcile.EffectsCountDown | operator/internal/controller/loraadapter_controller.go:859-883 | over any number of passes, wrong pods left plus calls that took effect equal the wrong pods at the start |
| LoraReconcile.ReconcileToDesiredState | operator/internal/controller/loraadapter_controller.go:839-886 | nothing is unloaded before every desired pod holds the adapter, whatever fails; if the registrations are complete every call is about a pod that is wrong; without failure the pods registered and not desired are unloaded, the desired ones hold the adapter, and the rest are as before |
| LoraReconcile.Reconcile | operator/internal/controller/loraadapter_controller.go:113-170 | for whatever pods could be seen: a pass waits exactly on an empty placement, calls nothing when what it sees is as desired, otherwise puts exactly what it sees right or fails on a safe prefix of the calls, and leaves the pods it cannot see as they were |
| LoraReconcile.RestsExactly | operator/internal/controller/loraadapter_controller.go:113-165 | where every desired pod holds the adapter, a pass finds nothing to do if and only if it sees all of them and no other pod that holds it |
| LoraReconcile.NextPassRestsExactly | operator/internal/controller/loraadapter_controller.go:113-165 | after a pass without failure the next one finds nothing to do if and only if every desired pod is listed, ready and answers |
| LoraReconcile.SilentPodNeverRests | operator/internal/controller/loraadapter_controller.go:645-650 | a desired pod that does not answer is missed although it holds the adapter, so it is loaded again |
| LoraReconcile.ReconcileTwice | operator/internal/controller/loraadapter_controller.go:113-170 | two passes with calls that succeed and distinct pod names: the second changes nothing, and reports so exactly when every desired pod is seen |
| LoraReconcile.PassesCompose | operator/internal/controller/loraadapter_controller.go:839-886 | the calls of successive passes are safe and useful as a whole |
| LoraReconcile.WaitsExactly | operator/internal/controller/loraadapter_controller.go:143-155 | the placement is empty, and the pass waits, if and only if no pod is ready or zero replicas are asked for |
| StaticConfig.GenerateStaticBackends | src/vllm_router/parsers/yaml_utils.py:10-15 | prints the URLs of the table's pairs in order |
| StaticConfig.GenerateStaticModels | src/vllm_router/parsers/yaml_utils.py:18-23 | prints the model names of the same pairs in the same order |
| StaticConfig.ParseStaticUrls | src/vllm_router/utils.py:202-210 | splits and keeps the valid URLs in order |
| StaticConfig.SplitJoin | src/vllm_router/utils.py:213-216 | splitting undoes joining for at least one piece and none with a comma |
| StaticConfig.JoinSplit | src/vllm_router/utils.py:213-216 | joining undoes splitting, for every string |
| StaticConfig.PairsAppend | src/vllm_router/parsers/yaml_utils.py:10-23 | a table is its models one after another |
| StaticConfig.PairsOfOne | src/vllm_router/parsers/yaml_utils.py:10-23 | a model with backends gives one pair for each in order, any other none |
| StaticConfig.OnlyValidAppend | src/vllm_router/utils.py:202-210 | valid URLs keep their places |
| StaticConfig.OnlyValidOne | src/vllm_router/utils.py:202-210 | and a URL is kept exactly when it is valid |
| StaticConfig.ConfigRoundTripExactly | src/vllm_router/parsers/yaml_utils.py:10-23 | for every table, the two parsed lists are exactly its pairs in order if and only if some model has a backend, every URL is valid and no URL or name holds a comma |
| StaticConfig.ParseStaticAliases | src/vllm_router/utils.py:219-225 | the dictionary of all pieces, or the error of the first piece that is not one alias and one model |
| StaticConfig.ParsesExactly | src/vllm_router/utils.py:219-225 | parsing fails exactly when some piece is not one alias and one model |
| StaticConfig.LastPieceWins | src/vllm_router/utils.py:219-225 | every alias is there, with the model of its last piece |
| StaticConfig.OnlyPieces | src/vllm_router/utils.py:219-225 | and no other |
| StaticConfig.AliasRoundTripExactly | src/vllm_router/parsers/yaml_utils.py:26-27 | a table of aliases parses back to itself if and only if it is non-empty and free of commas and colons |

## Left out

- HashTries.HashTrie.constructor: a chunk size below 1 is not modelled; the source would raise on 0 and yield no chunks below it, and only ever passes 128.
- StatsMonitor.RequestStatsMonitor.GetRequestStats: a window of zero seconds, a division error in the source, is excluded.
- StatsMonitor.RequestStatsMonitor.OnNewRequest: the monitor's dictionaries hold the contents of their `MovingAverageMonitor` objects, so aliasing between those objects is not modelled; the deque object itself is the class in Windows.dfy.
- PrefixAware.PrefixAwareRouter.RouteRequest: one routing decision, lookup and insert, is one step; interleaving inside the trie is the subject of TrieConcurrency.dfy.
- PrefixAware.PrefixAwareRouter.Select: the random choice among deepest holders is an arbitrary one.
- Failover.TryServer: the attempts of one request follow one another without calls by other requests in between; `EndedAttemptsLeaveNoLoad` covers every interleaving of many.
- Failover.RunAttempt: a response stream that is neither read nor closed, and code between registration and the `try` that raises, are not modelled.
- Failover.RouteGeneralRequest: connect failures and timeouts are separate outcomes; that a connection timeout is also a timeout error, and is told apart by the order of the handlers, is not modelled.
- LoadAware.ArrivalsStayBalanced: the router is taken to read the load and register the request without another arrival in between.
- LoadAwareRouter.Router.RouteByCache: the hash ring's choice of a node is an arbitrary function of the session.
- LoraReconcile.GetAdapterRegistrations: a pod lists an adapter at most once; adapter discovery before a load is part of that load call.
- Request bodies: extracting the prompt from chat messages, model aliases, request rewriting and header handling.
- PriorityRouting.PriorityRouter.RouteRequest: the priority is a parameter; reading it from header or body and writing it back into the request are not modelled.
- `SessionRouter` and the hash ring: the node choice is a library's.
- `refresh_instance_map` and `instance_map_is_stale`: when the controller is asked; only the write of each answer is modelled.
- `proxy_multipart_request`: the same terminal hooks around form data.
- Disaggregated prefill, external providers, sleep and wake calls: sequences of I/O.
- Service discovery, engine statistics scraping, dynamic configuration and other background threads.
- Semantic cache, content checks, tracing, metrics export and logging.
- Floating-point rounding: times, rates and scores are reals.
- Process-wide singletons: one router and one monitor are assumed.
- `generate_static_model_types`, reading YAML, and the URL pattern, which is an arbitrary predicate.
- Adapter deletion, finalizers, status updates and pod events in the operator; the other operator controllers.
