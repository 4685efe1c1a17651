# Verified model of the service-governance core

A Dafny model of the three state machines that decide where a gRPC call goes: the registry server, the
client protocol that talks to it, and the dynamic weighted balancer. `dafny verify dfyconfig.toml` checks
everything.

| Files | What they model |
|---|---|
| `Arithmetic`, `SeqSums`, `SmoothWrr`, `ChangingNodes` | smooth weighted round-robin: one pick, every sequence of picks, and sequences of picks and rebuilds in which nodes come and go |
| `ConcurrentPick`, `OverlapBounds`, `OverlapFairness` | picks interleaved one atomic operation at a time, what that conserves, how far it can push a weight, and the shares that come of it |
| `RollingWindow`, `WindowReads` | the bucket ring against a plain log of samples, and which reads of it can be noticed |
| `Scoring`, `Formula`, `WeightLimits`, `ConcurrentRecompute` | window sums to scores to effective weights; the same said on the numbers read; int64 limits; a pass of `recompute` while calls go on |
| `Balancer`, `BalancerRuns` | the objects: node, picker, core, picker builder, gRPC picker; and any sequence of uses of them |
| `Snapshots`, `RegistryState`, `RegistryFields`, `RegistryServer` | the registry's state as a value with the effect of each critical section, what these effects are field by field, and the registry and guard as objects proved to have them |
| `RegistrySystem`, `LongPolls`, `Lifetimes`, `VersionCoherence`, `GuardAccounting`, `Partition`, `RegularBeats` | the running registry: callers, long polls and the background loop interleaved; the course of one long poll; who stays registered; what versions mean; what Guard counts; the network partition, in general and with regular heartbeats |
| `Registration`, `Heartbeat`, `Backoff`, `InstanceOnRegistry` | heartbeats and shutdown interleaved with an unreliable network, the heartbeat goroutine as a loop, and the same client against the running registry |
| `Mailbox`, `Watcher`, `Resolver` | the capacity-1 latest-value channel, the subscription loop, the gRPC resolver |
| `EndToEnd` | registry, subscription, mailbox and resolver composed: what gRPC is told |

How the model is built:

- A step of `RegistrySystem` is one critical section, one wait ending, or one read the code makes without
  the lock, so a long poll takes several steps, and a sweep reads the Guard flag, then the clock, then takes
  the lock. Everything else may happen in between. `Register` and `Renew` add to Guard's counter inside the
  registry's critical section; Guard's evaluation touches nothing else of that section, so an evaluation that
  falls inside it has the effect of one just before it.
- Time readings are parameters: a monotonic clock for idle times and windows, a wall clock, free to go
  backwards, for versions. A channel is an identity in a set of closed channels.
- An RPC is a request that the server serves at some moment or never, and an answer that arrives or not.
- Floats are reals. `math.Sqrt` is a parameter known only by its defining property; the weight itself is
  characterised by squares.
- Go's map order is arbitrary: loops over maps choose any order, and a picker keeps the order it was built with.

Where the code does not give what its documentation or an obvious reading suggests, there is a concrete
run or input and the exact condition:

1. A statistics window shorter than the TTL (docs/03-discovery.md:95-97) does not make Guard react before the
   TTL expires. With evaluations at most a gap apart from the registry's start on, the exact condition is: two
   gaps plus the longest silence at the start fit into the TTL (or HardEvictAfter is no longer than the TTL
   anyway). The production defaults (60 s, 60 s, 30 s against 90 s) do not meet it
   (`Partition.GuaranteedIffCovered`, `Partition.DefaultsAreNotCovered`).
2. Fewer failures can lower a node's score: of more than 5 calls, a node that fails all of them counts with
   the floor, one that fails all but a few counts with its true, lower rate
   (`Scoring.FewerFailuresScoreHigherIff`, `Scoring.TotalFailureOutweighsNearFailure`).
3. Stopping the heartbeat before cancelling prevents resurrection exactly when no register call that its
   caller gave up on is still on its way to the registry (`Registration.ResurrectionIffLateRegister`, with a
   run from the start in `Registration.LateRegisterResurrects`).
4. Reading a window is not free of consequences: a read never changes what the next read reports, but a read
   that moves the cursor, be it by one bucket, can change what reads after later samples report. Exactly the
   reads that move nothing are invisible, and all reads if buckets are one time unit wide
   (`WindowReads.ReadIsInvisibleIff`).
5. Versions taken from the wall clock identify members across restarts exactly as long as the clock does not
   come back to a version already used (`VersionCoherence.VersionCanRepeatIff`, with a run in
   `VersionCoherence.SameStampDifferentMembers`).
6. sqrt(1e9 / CPUFloorMilli) bounds the score exactly for success floors of at most 1/2; the general bound
   holds for all (`Scoring.PlainBoundIff`, `Scoring.ScoreBound`).

docs/04-resolver.md:29 calls `ResolveNow` a no-op; the code offers the last list again
(pkg/resolver/resolver.go:112-121) and the model follows the code. The comment at
internal/discovery/registry.go:34 says versions count up by one; they follow the wall clock (50-55), as in
the model. The comment at pkg/balancer/wrr/window.go:21 says the bucket start stays aligned to the width; a
full clear realigns it to the present (59).

## Model

| member | source | states |
|---|---|---|
| SmoothWrr.PicksKeepSum | pkg/balancer/wrr/picker.go:48-60 | no sequence of picks, whatever weights it reads, changes the sum of the current weights |
| SmoothWrr.Ledger | pkg/balancer/wrr/picker.go:48-61 | after k picks a node's current weight is its start plus k times its weight minus its picks times the total |
| SmoothWrr.ExactPeriod | pkg/balancer/wrr/picker.go:33-62 | from fresh nodes, W picks serve node i exactly `ewt_i` times and bring every current weight back to 0 |
| SmoothWrr.EveryWindowIsExact | pkg/balancer/wrr/picker.go:33-62 | the pick sequence repeats with period W and any W consecutive picks hold node i exactly `ewt_i` times |
| SmoothWrr.NeverAFullPickAhead | pkg/balancer/wrr/picker.go:33-34 | at no time has a node had a whole pick more than its proportional share |
| SmoothWrr.WeightsStayInBand | pkg/balancer/wrr/picker.go:48-60 | from any starting weights, as a rebuild or recompute leaves them, all weights stay in a band that does not depend on the number of picks |
| SmoothWrr.DeviationIsBounded | pkg/balancer/wrr/picker.go:33-34 | long-run share is proportional to weight: picks times total never stray from k times weight by more than that band |
| SmoothWrr.NoStarvation | pkg/balancer/wrr/picker.go:33-62 | an explicit bound on the gap between two picks of any node, from any state |
| SmoothWrr.ChangingWeightsStayBounded | pkg/balancer/wrr/picker.go:48-60 | with weights replaced at any time, every current weight stays within [1-M, (n-1)(M-1)] if no pick reads a total above M |
| ChangingNodes.ChangingNodesStayBounded | pkg/balancer/wrr/core.go:91-119 | over all runs of picks and rebuilds, nodes leaving with whatever weight they have and arriving at 0, every current weight stays within [-(n-1)M, nM] |
| ChangingNodes.NoOverflow | pkg/balancer/wrr/picker.go:43-60 | on any such run, if (n+1)*M fits an int64, no addition of the next pick overflows |
| WeightLimits.NoOverflowInProduction | pkg/balancer/wrr/core.go:91-181 | with the default configuration, at most n nodes and reported ratios of at most b that always holds if (n+1)·n·100000·b fits, whatever is measured, stored and rebuilt |
| WeightLimits.NoOverflowWhenOverlapping | pkg/balancer/wrr/picker.go:43-61 | the same for T overlapping picks over n nodes with weights stored in between: with M = n·100000·b, no weight and no running total ever leaves int64 if T·M + n·T(T+1)/2·M fits |
| WeightLimits.InNumbers | pkg/balancer/wrr/core.go:29-49 | for ratios of at most 1: nine million nodes, or a thousand nodes with ten thousand picks at a time, are within the conditions |
| ConcurrentPick.StepKeepsOk | pkg/balancer/wrr/picker.go:48-61 | every atomic step keeps each thread's choice the first maximum of the values its own additions returned |
| ConcurrentPick.RunConserves | pkg/balancer/wrr/picker.go:48-61 | over any interleaving with weights stored and nodes added at any point, the weight sum minus what in-flight picks have added is constant, and `picks` counts completed picks |
| ConcurrentPick.QuiescentConservation | pkg/balancer/wrr/picker.go:48-61 | between two quiet moments the weight sum is unchanged and `picks` grew by exactly the completed picks, which are all the begun ones |
| ConcurrentPick.AlonePickIsSequential | pkg/balancer/wrr/picker.go:35-62 | the atomic steps of a pick nobody interrupts amount to one sequential pick |
| ConcurrentPick.AnyOverlap | pkg/balancer/wrr/picker.go:35-61 | from any state any number of picks over any nodes can be in flight at once |
| ConcurrentPick.NodesAndWeights | pkg/balancer/wrr/core.go:91-119 | at any time a node can join, at 0 and without picks, and a weight can be replaced; neither moves anything else |
| OverlapBounds.BestIsHigh | pkg/balancer/wrr/picker.go:53-57 | a pick's best node, though judged by values read at different moments, was seen at least as high as the number of picks that could interfere allows |
| OverlapBounds.OverlappingPicksStayBounded | pkg/balancer/wrr/picker.go:48-61 | with at most T overlapping picks in any interleaving, weights replaced at any time and totals of at most M, no weight falls below -T(T+1)/2 * M or rises above what that leaves |
| OverlapBounds.OverlappingPicksFit | pkg/balancer/wrr/picker.go:43-60 | the condition on n, T and M under which nothing that overlapping picks compute overflows |
| OverlapFairness.QuiescentLedger | pkg/balancer/wrr/picker.go:48-61 | with fixed weights, whenever no pick is in flight a weight is the completed picks times the node's weight minus its own picks times the total, however they overlapped |
| OverlapFairness.OverlappingPicksAreFair | pkg/balancer/wrr/picker.go:33-34 | with T overlapping picks, at every moment, a node's picks times the total differ from k times its weight by no more than a bound without k, for k completed picks |
| OverlapFairness.OverlappingPicksStarveNone | pkg/balancer/wrr/picker.go:33-62 | between two quiet moments a node has been picked if the picks in between have given it more than that band |
| RollingWindow.Window.constructor | pkg/balancer/wrr/window.go:33-43 | a new window represents the empty log |
| RollingWindow.Window.AdvanceLocked | pkg/balancer/wrr/window.go:47-67 | the loops over the array compute the specified advance, keep the ring true to the log, and put the present inside the current bucket |
| RollingWindow.Window.Add | pkg/balancer/wrr/window.go:70-76 | the ring then represents the log with the sample appended |
| RollingWindow.Window.Value | pkg/balancer/wrr/window.go:79-88 | returns sum and count of all samples since one instant that lies N-1 to N widths back |
| RollingWindow.FullClearRepresents | pkg/balancer/wrr/window.go:52-61 | realigning the cursor to the present after a full clear loses no sample that still counts |
| RollingWindow.AdvanceRepresents | pkg/balancer/wrr/window.go:47-67 | advancing keeps each bucket equal to the samples of its time slot |
| RollingWindow.ValueIsSuffixOfLog | pkg/balancer/wrr/window.go:79-88 | what a read sums over the array in array order is one suffix of time |
| RollingWindow.SinceIsSum | pkg/balancer/wrr/window.go:79-88 | sum and count since an instant are the sum of the values, and the number, of the samples taken then or later |
| RollingWindow.RunRefinesLog | pkg/balancer/wrr/window.go:47-88 | over any run of adds and reads under a nondecreasing clock a read includes every sample up to N-1 widths old and none N widths old |
| RollingWindow.ReadsDoNotDisturb | pkg/balancer/wrr/window.go:47-88 | from any ring at all, a read gives the same pair with or without an earlier read before it |
| WindowReads.ReadIsInvisibleIff | pkg/balancer/wrr/window.go:47-88 | from any ring: a read goes unnoticed by everything later if and only if it does not move the cursor or buckets are one time unit wide |
| WindowReads.MovingReadIsVisible | pkg/balancer/wrr/window.go:47-67 | for every moving read, a sample and a read after it that give a different sum with and without the moving read |
| Scoring.Config.WithDefaults | pkg/balancer/wrr/core.go:29-49 | every configuration that results has positive floors, and a complete one is kept |
| Formula.DefaultsPerField | pkg/balancer/wrr/core.go:29-49 | each field is filled in by itself, with 10 buckets, 300 ms, 10 thousandths and one tenth |
| Scoring.PositiveIffSampled | pkg/balancer/wrr/core.go:148-160 | the score formula never divides by zero and is positive exactly for sampled nodes, so the later test for 0 finds exactly the unsampled ones |
| Scoring.WeightSquared | pkg/balancer/wrr/core.go:160-178 | before the minimum of 1 the new weight is the integer e with e² <= X·weight² < (e+1)², X being the radicand that the next row describes |
| Formula.RadicandOnFields | pkg/balancer/wrr/core.go:148-160 | for every sampled node, X times mean latency (at least 1) times CPU (at least its floor) is the clamped share of calls that did not fail, times the square of the reported ratio (at least its floor), times 1e9, said on the counts and sums that were read |
| Formula.CpuDivides | pkg/balancer/wrr/core.go:158-160 | k times the CPU, from the floor up, is exactly one k-th of the radicand |
| Formula.LatencyDivides | pkg/balancer/wrr/core.go:157-160 | k times the latency, from 1 µs up, is exactly one k-th of the radicand |
| Formula.PassOnFields | pkg/balancer/wrr/core.go:137-181 | the whole pass on the numbers read: without a sampled node no weight moves; otherwise one average, which times the number of sampled nodes is the sum of the scores, stands in for a missing score, and every weight is the whole part of score times configured weight, at least 1 |
| Formula.LoadedNodeWeighsLess | pkg/balancer/wrr/core.go:155-178 | two healthy nodes that differ in CPU only, 900 and 100 of 1000, get 333 and 1000 |
| Scoring.ScoreBound | pkg/balancer/wrr/core.go:155-160 | for every configuration and every bound on the reported ratios, scores lie between 0 and the root of max(1, 2·floor)·max(best ratio, floor)²·1e9 / CPU floor |
| Scoring.PlainBoundIff | pkg/balancer/wrr/core.go:184-200 | the plain bound sqrt(1e9 / CPU floor) holds for all honest readings if and only if the success floor is at most 1/2 |
| Scoring.WeightBound | pkg/balancer/wrr/core.go:165-179 | every new weight, averages included, lies between 1 and max(1, that root·weight) |
| Scoring.MostWeightSquared | pkg/balancer/wrr/core.go:160-178 | that upper bound is the integer e with e² <= ceiling·weight² < (e+1)² |
| Scoring.BetterNodeWeighsMore | pkg/balancer/wrr/core.go:126-136 | a node no worse in client success, server success, latency and CPU never gets the smaller weight |
| Scoring.ClampMonotoneIff | pkg/balancer/wrr/core.go:184-193 | the clamp keeps order except, with more than 5 requests, from rate 0 to a positive rate below the floor |
| Scoring.FewerFailuresScoreHigherIff | pkg/balancer/wrr/core.go:155-160 | fewer failures score no lower, with exactly that exception |
| Scoring.TotalFailureOutweighsNearFailure | pkg/balancer/wrr/core.go:184-193 | a concrete pair: failing 200 of 200 calls outweighs failing 198 of 200 |
| Scoring.UnsampledInBetween | pkg/balancer/wrr/core.go:169-176 | with equal configured weights a node without samples ends between the least and the greatest sampled node |
| Balancer.FailuresWithinRequests | pkg/balancer/wrr/node.go:56-67 | counting failures as 0/1 samples, over any stretch of time failures never exceed requests |
| Balancer.Node.constructor | pkg/balancer/wrr/node.go:41-54 | a new node carries its configured or default weight, is assumed healthy, and its windows represent empty logs |
| Balancer.Node.Record | pkg/balancer/wrr/node.go:58-67 | both logs and the counters grow by one call, the failures by one if and only if it failed, nothing the picker uses changes, and the node is as ready as before for any use at the same time or later |
| Balancer.Node.Read | pkg/balancer/wrr/core.go:148-150 | what a pass reads is each log's recent suffix, with failures between 0 and requests |
| Balancer.Picker.Scan | pkg/balancer/wrr/picker.go:43-58 | the loop raises each node once, totals their weights and finds the first highest |
| Balancer.Picker.Pick | pkg/balancer/wrr/picker.go:35-62 | on the node objects, a pick is exactly the step that the fairness theorems are about |
| Balancer.Core.constructor | pkg/balancer/wrr/core.go:80-87 | an empty core, picker and node map in agreement |
| Balancer.Core.SetAddrs | pkg/balancer/wrr/core.go:91-110 | node map and picker hold exactly the given addresses, each once; survivors keep their object with its statistics and weight; new nodes start at 0, with windows that begin at the present, and share nothing; an unchanged set keeps its picker |
| Balancer.Core.RebuildPicker | pkg/balancer/wrr/core.go:113-119 | the new picker lists every node exactly once, in some order, its weights taken over or 0 as the theorems on changing nodes assume |
| Balancer.Measure | pkg/balancer/wrr/core.go:145-163 | the first loop reads every node's windows and totals the sampled scores, changing nothing else |
| Balancer.Store | pkg/balancer/wrr/core.go:170-180 | the second loop gives each node its weight, the average standing in for a missing score |
| Balancer.Core.Recompute | pkg/balancer/wrr/core.go:137-181 | in any map order, all weights become those that `Formula.PassOnFields` describes on the counts, sums and reports that the nodes show; nothing else of a node changes, with no samples nothing does, and every node stays ready for the next pass |
| ConcurrentRecompute.PassOutcome | pkg/balancer/wrr/core.go:137-181 | with calls, reports and new nodes between any two reads and stores of a pass: every reading is a sum over exactly what its window had recorded by some moment of the pass, with reports that were the last ones at some moment of it, the listed nodes weigh what the formula makes of the readings, and no other weight moves |
| ConcurrentRecompute.LogsAreCalls | pkg/balancer/wrr/node.go:56-67 | over any run the windows' logs are exactly the calls of the run, 1 for each failed one, and a pass refers to the time and nodes it was started with |
| ConcurrentRecompute.ReportsAreCalls | pkg/balancer/wrr/node.go:69-77 | and the logs of reports are exactly the reports of the run |
| ConcurrentRecompute.OnlyStoresMoveWeights | pkg/balancer/wrr/core.go:170-180 | a node starts with its weight as effective weight, and only a store of a pass moves it |
| ConcurrentRecompute.AnythingMeanwhile | pkg/balancer/wrr/core.go:137-181 | whatever a pass is doing, time goes on, calls finish, reports arrive and nodes join, and none of it moves the pass |
| ConcurrentRecompute.PassAlone | pkg/balancer/wrr/core.go:137-181 | a pass can run at any time over any nodes, and one that nobody interrupts reads what every node shows at its start |
| Balancer.Core.Pick | pkg/balancer/wrr/core.go:122-124 | the picked node is one of the core's nodes |
| Balancer.GrpcPicker.Pick | pkg/balancer/wrr/wrr.go:122-144 | a picker of the latest non-empty build always finds a connection, the one of the node picked, which alone counts one pick more |
| Balancer.GrpcPicker.Done | pkg/balancer/wrr/wrr.go:134-142 | a finished call is counted once in both windows, as a failure exactly if it ended unavailable, past the deadline or out of resources, trailers update CPU and success, and the node is ready for the next use |
| Balancer.PickerBuilder.Build | pkg/balancer/wrr/wrr.go:97-112 | core nodes, current picker and connection map agree on exactly the ready addresses, old nodes kept as they were and new ones as if just made; an empty ready set changes nothing |
| BalancerRuns.Run | pkg/balancer/wrr/wrr.go:97-144 | over any sequence of builds, picks, finished calls and recomputations under a nondecreasing clock, from a new core on: the core stays valid and every node, dropped ones included, ready for use; a pick finds a connection of the latest non-empty ready set unless it goes to the error picker; each node's picks are its finished calls and those in flight, and its failures are those finished calls that ended unavailable, past the deadline or out of resources |
| Snapshots.Collect | internal/discovery/registry.go:61-68 | the list is in string order of IDs and holds each instance once, whatever the map order |
| Snapshots.LessIsStringOrder | internal/discovery/registry.go:66 | the comparison is the order of strings: at the first place where the two differ, the lesser one has ended or has the smaller character |
| Snapshots.OrderAfterPrefix | internal/discovery/registry.go:66 | strings that part after a common beginning compare as their next characters do, and a beginning comes first |
| Snapshots.SnapshotIsUnique | internal/discovery/registry.go:61-68 | there is only one such list, so map order never shows |
| Snapshots.AddrsFollowAddrMap | internal/discovery/registry.go:150-153 | equal ID-to-address maps give equal address lists, so changes that do not bump do not matter to gRPC |
| RegistryState.Config.WithDefaults | internal/discovery/config.go:37-68 | unset fields get usable values, complete configurations are kept |
| RegistryFields.DefaultsPerField | internal/discovery/config.go:37-68 | each setting is filled in by itself, with the production values |
| RegistryState.NextVersion | internal/discovery/registry.go:50-55 | strictly above the old version, and the clock reading whenever that is ahead |
| RegistryState.RegisterKeepsOk | internal/discovery/registry.go:141-156 | registration keeps every entry filed, complete, open and versioned |
| RegistryState.SweepKeepsOk | internal/discovery/registry.go:259-282 | so does the sweep |
| RegistryState.RegisterEvolves | internal/discovery/registry.go:141-156 | registering moves the version, and closes the channel, exactly when the ID-to-address map changes |
| RegistryState.CancelEvolves | internal/discovery/registry.go:178-191 | the same for cancelling |
| RegistryState.SweepEvolves | internal/discovery/registry.go:259-282 | the same for the sweep, for every service it touches, and only entries nobody waits on go |
| RegistryFields.RegisterOnFields | internal/discovery/registry.go:141-156 | on the fields: refused if and only if service, ID or address is empty; else filed as renewed now, one heartbeat more, and announced if and only if the ID is new or has another address |
| RegistryFields.RenewOnFields | internal/discovery/registry.go:160-174 | succeeds if and only if the instance is there, moves its renewal time, counts one heartbeat, announces nothing |
| RegistryFields.CancelOnFields | internal/discovery/registry.go:178-191 | succeeds if and only if the instance is there, takes it out, announces that, and is no heartbeat |
| RegistryFields.ReleaseOnFields | internal/discovery/registry.go:241-247 | counts out whoever was counted in, and touches nothing else |
| RegistryFields.SweepOnFields | internal/discovery/registry.go:252-283 | leaves exactly the instances silent for at most HardEvictAfter and, unprotected, at most interval times factor; reaps a service if and only if it then has neither instances nor waiters; announces exactly where an instance went |
| RegistryFields.SweepReaps | internal/discovery/registry.go:276-281 | after a sweep no entry has neither instances nor waiters |
| RegistryFields.EvaluateOnFields | internal/discovery/guard.go:45-57 | protects if and only if enabled, anybody is present, and heartbeats times interval fall short of count times window times threshold |
| RegistryServer.Guard.Record | internal/discovery/guard.go:29-33 | one heartbeat more |
| RegistryServer.Guard.Evaluate | internal/discovery/guard.go:45-57 | the counter restarts, and protection holds exactly when heartbeats fell short, with the change reported |
| RegistryServer.Registry.ServiceLocked | internal/discovery/registry.go:128-138 | creates a blank entry exactly on first use |
| RegistryServer.Registry.BumpLocked | internal/discovery/registry.go:50-58 | new version, old channel closed, new channel made, nothing else |
| RegistryServer.Registry.Register | internal/discovery/registry.go:141-156 | has the modelled effect on the whole registry, and is refused if and only if service, ID or address is empty |
| RegistryServer.Registry.Renew | internal/discovery/registry.go:160-174 | has the modelled effect, and not found if and only if the instance is not there |
| RegistryServer.Registry.Cancel | internal/discovery/registry.go:178-191 | has the modelled effect, and not found if and only if the instance is not there |
| RegistryServer.Registry.Fetch | internal/discovery/registry.go:194-202 | answers with the unique snapshot, in string order of IDs, and its version exactly when the service exists |
| RegistryServer.Registry.PollRound | internal/discovery/registry.go:212-223 | one locked round: answers with the snapshot, in string order of IDs, or counts in and hands out the current channel |
| RegistryServer.Registry.ReleaseWaiter | internal/discovery/registry.go:241-247 | counts out |
| RegistryServer.Registry.RemoveExpired | internal/discovery/registry.go:260-272 | deleting while walking leaves exactly the entries that are not expired |
| RegistryServer.Registry.EvictExpired | internal/discovery/registry.go:252-283 | the nested loops, in any map order, have the modelled effect of one sweep |
| RegistryServer.Registry.EvaluateGuard | internal/discovery/registry.go:287-296 | counts every instance present once and evaluates Guard with that number |
| RegistrySystem.StepKeepsInv | internal/discovery/registry.go:108-283 | every step of every interleaving keeps the whole invariant: entries, polls, waiter counts, clock, loop |
| RegistrySystem.ChannelsOpenAndDistinct | internal/discovery/registry.go:56-57 | in every reachable state all services' channels are open and different, so no bump or sweep ever closes a closed channel |
| RegistrySystem.NoLostWakeup | internal/discovery/registry.go:208-237 | in every reachable state a blocked poll can wake exactly when its entry's version left the one it came with, and `waiters` is the number of polls between counting in and out |
| LongPolls.UnchangedIffGivenUp | internal/discovery/registry.go:208-237 | over every run without a restart: a poll is told that nothing changed since its version, or is on its way out to that, if and only if its timeout or context came first; if it is answered, then with another version than its own |
| LongPolls.CourseOfPoll | internal/discovery/registry.go:208-237 | from any point of its course on: a poll goes on asking what it asked until it ends in one of these ways, and only a restart drops it |
| LongPolls.WayOut | internal/discovery/registry.go:225-235 | a woken poll goes back to the lock, one that gave up returns its own version |
| LongPolls.RoundOnFields | internal/discovery/registry.go:212-223 | a locked round answers at once if and only if the entry's version differs from the poll's, with the entry's instances in string order of IDs and its version; else the poll waits on the entry's channel |
| LongPolls.RoundCounts | internal/discovery/registry.go:128-138 | the round counts the poll if and only if it waits, creates the entry on first use, and changes nothing else |
| LongPolls.WokenPollIsAnswered | internal/discovery/registry.go:225-228 | after a wakeup, whatever comes between, the next locked round answers with a higher version and the instances of that moment, as long as the entry is not reaped before |
| LongPolls.WakeLeaveAnswer | internal/discovery/registry.go:225-228 | woken, counted out and answered back to back: with what was there at the wakeup |
| LongPolls.GiveUpReturns | internal/discovery/registry.go:229-235 | a blocked poll can give up at any time and then returns the version it came with |
| RegistrySystem.LeavingPollIsCounted | internal/discovery/registry.go:239-247 | the defensive test when a poll leaves always succeeds |
| RegistrySystem.WatchedEntryIsNotReaped | internal/discovery/registry.go:276-281 | no step but a restart removes an entry a poll is blocked on or leaving |
| RegistrySystem.SweepRemoves | internal/discovery/registry.go:259-275 | a sweep removes exactly the expired instances and keeps the others as they were |
| RegistrySystem.EveryRemovalIsJustified | internal/discovery/registry.go:252-272 | although flag and clock are read before the lock, an instance vanishes only by its own cancel, a restart, or a sweep justified at that very moment; one renewed after the clock was read survives |
| RegistrySystem.SweepLeavesNoneOverdue | internal/discovery/registry.go:252-272 | after a sweep nobody is overdue by the clock it read |
| Lifetimes.RegisterTouchesOne | internal/discovery/registry.go:141-156 | a registration puts in exactly the given instance, renewed now, and leaves every other as it was |
| Lifetimes.RenewTouchesOne | internal/discovery/registry.go:160-174 | a renewal moves one renewal time and nothing else of any instance |
| Lifetimes.CancelTouchesOne | internal/discovery/registry.go:178-191 | a cancel takes out one instance and leaves every other as it was |
| Lifetimes.PunctualStaysRegistered | internal/discovery/registry.go:249-275 | an instance that beats at least once per TTL is never evicted, on any run, whatever others do and however sweeps and evaluations fall |
| GuardAccounting.RenewsAreHeartbeats | internal/discovery/registry.go:140-174 | at every point of every run the counter is the number of successful registers and renews since the last evaluation |
| GuardAccounting.EvaluationVerdict | internal/discovery/registry.go:287-296 | an evaluation protects exactly when the heartbeats heard on the run fall short of the threshold share |
| GuardAccounting.EnoughHeartbeatsStayOpen | internal/discovery/guard.go:52-55 | m instances with at least h beats each and m·h >= n·expected·threshold keep Guard unprotected, whatever the rest do |
| GuardAccounting.SilenceProtects | internal/discovery/guard.go:52-55 | a silent window with anyone present protects exactly if Guard is enabled |
| VersionCoherence.VersionMovesIffMembersMove | internal/discovery/registry.go:46-58 | over every step an entry's version rises exactly when its ID-to-address map changes |
| VersionCoherence.EqualVersionsEqualMembers | internal/discovery/registry.go:46-55 | if the wall clock is ahead of earlier versions at each stamp, equal versions mean equal members even across reaping and restarts |
| VersionCoherence.BlockedPollIsUpToDate | internal/discovery/registry.go:204-219 | then whoever was answered with the version a poll blocks on was given the members of now |
| VersionCoherence.VersionCanRepeatIff | internal/discovery/registry.go:47-55 | from any reachable state, a service's version can come to stand for other members if and only if the wall clock may yet read that version or less |
| VersionCoherence.SameStampDifferentMembers | internal/discovery/registry.go:47-49 | one run in which it does: two registrations around a restart, stamped with the same reading |
| Partition.GuardOutlastsPartition | internal/discovery/registry.go:249-296 | in a partition with evaluations at most G apart, Guard has protected two gaps after the last evaluation before it, or one gap if too few were heard by then; if whoever renewed longest ago does not outlive the TTL until then, everyone stays until silent for HardEvictAfter, and Guard is protected whenever anyone has outlived the TTL |
| Partition.GuaranteedIffCovered | internal/discovery/registry.go:252-296 | for all runs from the start of a registry with evaluations at most G apart all along, before the partition and during it: the guarantee holds if and only if 2G+H <= TTL or HardEvictAfter <= TTL |
| RegularBeats.HeardAtMost | internal/discovery/registry.go:140-174 | instances that keep their interval and stay are together heard at most b times each in less than b intervals |
| RegularBeats.GuardOutlastsRegularBeats | internal/discovery/registry.go:249-296 | if every instance kept its interval H since the last evaluation and b beats each are below the threshold share, the guarantee holds when G plus the longest silence and 2G-b·H plus the longest silence fit into the TTL |
| RegularBeats.FourIntervals | internal/discovery/config.go:40-64 | the defaults with a TTL of four intervals meet that condition, but not the one for heartbeats that come at will |
| Partition.DefaultsAreNotCovered | internal/discovery/config.go:40-64 | the default settings do not give the guarantee, although window < TTL |
| Registration.NoResurrection | pkg/registry/registration.go:103-123 | for every choice of the selects and every fate of every call, none given up while under way, nothing of ours takes effect after the cancel is sent, and after a cancel answered done or not found the instance is back only by others |
| Registration.ResurrectionIffLateRegister | pkg/registry/registration.go:88-123 | with calls given up, the instance can come back if and only if such a register is still under way when the cancel is sent |
| Registration.LateRegisterResurrects | pkg/registry/registration.go:19-38 | a run from the start that gets there and resurrects the instance |
| Registration.ReversedOrderResurrects | pkg/registry/registration.go:117-118 | the reversed order has a bad run without any loss or delay |
| Registration.RefusedOnlyIfInvalid | pkg/registry/registration.go:16-38 | no heartbeat is started only for an invalid instance |
| Registration.AnswersDecide | pkg/registry/registration.go:19-113 | over every run, the answers that arrived decide what the client does: refused if and only if the first call was answered as a bad request; registered if and only if some register or renew was answered Ok; a register first and exactly after each renew answered not found |
| Registration.DeregisterReturnsAnswer | pkg/registry/registration.go:115-123 | over every run, Deregister makes no call but its cancel, returns what that returned, and sends it only when the heartbeat has ended |
| Heartbeat.Beat | pkg/registry/registration.go:90-113 | a renew, then a register if and only if that was answered not found; the instance is certainly registered if and only if one of them was answered Ok |
| Heartbeat.HeartbeatLoop | pkg/registry/registration.go:61-86 | turn by turn what is sent and waited: base·2^k up to the cap until a turn has confirmed the instance, the fixed interval ever after; it ends if and only if the stop is seen, and moves through the stages of the interleaved model |
| Heartbeat.RetriesUntilRegistered | pkg/registry/registration.go:61-86 | five failed beats and a registration at the sixth: waits of 1, 2, 4, 8, 15, 15 and then 30 seconds |
| Heartbeat.TurnIsRun | pkg/registry/registration.go:90-113 | each turn of the loop, with its calls answered, served but unanswered, lost or given up, is a run of the interleaved model with that effect on the registry |
| Heartbeat.StopIsRun | pkg/registry/registration.go:66-68 | so is the turn that ends the loop |
| InstanceOnRegistry.ServedAlike | internal/discovery/registry.go:141-191 | for one instance, calls are answered and take effect in the registry's state as the registration model says |
| InstanceOnRegistry.RunIsRun | pkg/registry/registration.go:61-123 | every run of a registration's client against the running registry, with other callers, polls, sweeps, evaluations and restarts in between, is a run of the registration model with the same answers and the instance there exactly when the model says so |
| InstanceOnRegistry.DeregisteredIsGone | pkg/registry/registration.go:115-123 | on every such run, once Deregister returned success or not-found the registry does not hold the instance, if nobody else registers it and no call takes effect after it was given up |
| InstanceOnRegistry.LifeOfInstance | pkg/registry/registration.go:19-123 | at a registry in any state there is a run in which a complete instance is registered and there, and then deregistered with success and gone |
| Backoff.DelayIsCappedPower | pkg/registry/registration.go:70-73 | the first retry delay is the base, the k-th after it base·2^k or the cap |
| Mailbox.SendNeverBlocks | pkg/registry/watcher.go:44-53 | in every interleaving the second, blocking send finds the channel empty |
| Mailbox.ReceivedInOrder | pkg/registry/watcher.go:44-53 | the consumer gets an in-order subsequence of the polled snapshots |
| Mailbox.NewestIsKept | pkg/registry/watcher.go:44-53 | except between drain and send, the newest completed send is buffered or the last received, and an idle producer has sent all it polled |
| Mailbox.DrainLosesIff | pkg/registry/watcher.go:48-51 | the drain loses the newest completed send if and only if it finds it in the channel and the consumer did not get an equal value last |
| Mailbox.OnlySendRestores | pkg/registry/watcher.go:51-52 | after the drain the only possible step is the send, and it restores the newest value |
| Mailbox.DrainedMoment | pkg/registry/watcher.go:48-52 | a run that reaches the moment at which the newest completed send is lost |
| Mailbox.DeliveryIsRun | pkg/registry/watcher.go:45-53 | the steps of one delivery end where the delivery method on the channel object ends |
| Mailbox.Channel.Deliver | pkg/registry/watcher.go:45-53 | afterwards the channel holds the new value, whether or not the consumer got the old one in between |
| Watcher.Watcher.WatchLoop | pkg/registry/watcher.go:31-74 | every poll asks with the version of the last snapshot received before it, or 0; the f-th failure in a row is followed by the f-th delay, an answer by none; the channel never holds anything older than the newest snapshot |
| Resolver.NeverEmpty | pkg/resolver/resolver.go:79-94 | gRPC never gets an empty list, each list it gets is some snapshot's, and the resolver remembers the newest non-empty one |
| Resolver.TakenIsCurrent | pkg/resolver/resolver.go:97-121 | gRPC's list is the newest non-empty snapshot's as soon as one offer of it was taken |
| Resolver.ResolveRepairs | pkg/resolver/resolver.go:109-121 | an accepted request to resolve makes good any updates rejected before |
| Resolver.AcceptedExactly | pkg/resolver/resolver.go:79-121 | gRPC has taken exactly the offers it did not reject, in order: those of non-empty snapshots and of requests to resolve once there was one, each the list of the newest non-empty snapshot then |
| Resolver.DiscoveryResolver.PushState | pkg/resolver/resolver.go:97-107 | the list is remembered whether or not gRPC takes it |
| Resolver.DiscoveryResolver.ResolveNow | pkg/resolver/resolver.go:112-121 | offers the remembered list again, nothing if there is none |
| Resolver.DiscoveryResolver.OnSnapshot | pkg/resolver/resolver.go:81-93 | offers the address column, in order, of a non-empty snapshot |
| Resolver.DiscoveryResolver.Watch | pkg/resolver/resolver.go:79-94 | over any interleaving of snapshots and requests the object is in the state the theorems above describe |
| EndToEnd.StepKeepsInv | pkg/registry/watcher.go:35-73 | every step of the composed system keeps all items genuine and in order from registry to gRPC |
| EndToEnd.FollowsWatchLoop | pkg/registry/watcher.go:31-74 | read as rounds of the subscription loop, every run of the composed system has that loop's version, newest snapshot and mailbox content |
| EndToEnd.PartsRun | pkg/registry/watcher.go:31-74 | on every run the mailbox makes a run of its own, and the resolver is where the snapshots and requests it dealt with bring it |
| EndToEnd.AddressSafety | pkg/resolver/resolver.go:79-121 | every list gRPC accepts is the ID-ordered addresses of a non-empty set the registry really held, and never from an earlier state than the one before: through lost polls, restarts, empty snapshots and rejected updates |
| EndToEnd.WaitingMeansCurrent | internal/discovery/registry.go:204-219 | while the subscription's poll waits and wall clocks did not fall back, the newest snapshot polled shows the members of now |
| EndToEnd.SettledMeansCurrent | pkg/resolver/resolver.go:97-121 | once everything polled is passed on, the resolver's list is exactly the current members, and an accepted request to resolve gives gRPC that list |
| EndToEnd.CanCatchUp | pkg/resolver/resolver.go:79-121 | from every reachable state in which the subscription is idle, holds no snapshot and is not at the registry's version, a few steps of its own bring exactly the current members to gRPC |

## Left out

- ChangingNodes.NoOverflow: speaks of picks that do not overlap; `WeightLimits.NoOverflowWhenOverlapping` is about those that do, over a fixed set of nodes.
- OverlapBounds.OverlappingPicksStayBounded: speaks of a fixed set of nodes that start at 0; rebuilds while picks are in flight are not combined with it.
- WeightLimits.NoOverflowInProduction: picks that do not overlap, and some whole-number bound on the success ratios that servers report; the code does not clamp them from above.
- WeightLimits.NoOverflowWhenOverlapping: as above, with overlap but without rebuilds.
- OverlapFairness.OverlappingPicksAreFair: fixed weights and a fixed set of nodes, since the share to compare with is only defined for these.
- RegularBeats.GuardOutlastsRegularBeats: a sufficient condition, for an evaluation loop that is not between its count and its verdict when the partition begins; `Partition.GuaranteedIffCovered` is exact, but about instances that may beat as often as they like.
- BalancerRuns.Run: a pick goes to the installed picker or to the latest one that had connections; a still older picker may miss, as `Balancer.GrpcPicker.Pick` says.
- LongPolls.WokenPollIsAnswered: holds while the entry is there; one that is empty may be reaped between a woken poll's count-out and its next round, which then starts from version 0.
- RegistryServer.Registry.PollRound: one round; the loop around it, with its select, is the poll's steps in `RegistrySystem` and `LongPolls`, since others act between rounds.
- Scoring.WeightSquared: exact over the reals; IEEE rounding of the score is not modelled.
- Balancer.Core.Recompute: a method runs without other steps in between; `ConcurrentRecompute` interleaves a pass with calls, reports and new nodes, and `ConcurrentPick` picks with stores.
- ConcurrentRecompute.PassOutcome: one pass at a time, as the one goroutine runs them; nodes dropped meanwhile stay in the list that the pass works on.
- RollingWindow.RunRefinesLog: assumes that readings of the injected clock never go back.
- EndToEnd.AddressSafety: follows one service and one subscription; other services, callers and polls are present as arbitrary registry steps.
- Heartbeat.HeartbeatLoop: takes the select's choices and the calls' answers as given; `Registration` has every interleaving of them.
- Sweep and evaluation pacing: tickers are steps that may come at any time; only `Partition` bounds the gap between evaluations. `EvictInterval` and `PollTimeout` therefore do not appear.
- HTTP handlers, JSON, URL building and sockets (internal/discovery/http.go, pkg/registry/client.go): an RPC is a server step with an uncertain outcome.
- gRPC internals: only "these connections are ready" and "this update is taken or rejected".
- Logging, the global registry of cores and the `/debug/backends` statistics with their rounding (pkg/balancer/wrr/wrr.go:179-219).
- Parsing of trailer values (pkg/balancer/wrr/wrr.go:163-177): a trailer is an optional number.
- int64 and duration wrap-around other than in `pick`; counters and times are unbounded integers.
- Data races at memory-model level: locks and atomics are taken at their word.
- Liveness of `select` and of goroutine scheduling: the theorems are about what every choice can lead to.
- pkg/ecode, pkg/interceptor and the demo services (internal/account, internal/relation, internal/gateway): short case splits and business logic.
