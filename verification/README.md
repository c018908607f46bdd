# cbox-init, modelled in Dafny

cbox-init is a container supervisor that runs as PID 1. This project models the parts of it whose
correctness is hard to see by reading: how the start order is found, what a configuration reload
leaves behind when stops and starts fail, who gets a child's exit status when two waiters race for
it, when a health check may condemn a process, what a broken control channel still answers, and the
streaming, buffering and sizing code around them.

Everything the program learns from outside is a parameter. Which stops and starts fail, what a
probe answers, when a timer fires, how a write ends, in which order goroutines run: each statement
holds for every such choice. Code that changes objects is written as classes whose methods are
proved against functions on values. Concurrent code is written as a state machine with one step per
locked section or system call; invariants are proved for every step, and the main lemmas are about
every reachable state. Clocks are integers (nanoseconds) or reals, floating point numbers are reals.

`dafny verify dfyconfig.toml` checks the whole project.

| file | what it is about |
|---|---|
| `Names`, `DependencyGraph` | alphabetical order; cycles, start orders and the least of them, as plain mathematics |
| `Graph` | depth-first cycle search with its witness, Kahn's sort with an always sorted queue |
| `ConfigCycles`, `StartupOrder` | the loading checks, the graph the manager sorts, start and shutdown order |
| `Shutdown`, `Reload` | stopping level by level; reloading with rollback |
| `Reaper` | the race between the wildcard reaper and the owner of a child |
| `HealthMonitor`, `ScheduledJob`, `ControlChannel`, `RateLimiter`, `LimiterRace` | timed and protocol state machines |
| `LineSplitter`, `Multiline`, `RingBuffers`, `FieldPath` | streams, buffers and environment variable names |
| `Percona`, `WorkerSizing` | memory arithmetic |
| `Options`, `Bytes`, `Sequences`, `Arithmetic` | shared vocabulary |

## What the code does not do

Where a comment or a natural expectation goes further than the code, the model follows the code and
states exactly when the expectation is met.

- **Repeated dependencies.** `TopologicalSort` takes any list of dependencies, but a name listed twice
  keeps its in-degree above zero for good. It succeeds exactly on graphs that are complete, acyclic
  and free of repetitions; `NewGraphFromConfig` removes repetitions, so the manager is safe.
- **False circular dependency.** The cycle check of a loaded configuration leaves an undefined
  dependency on its stack. It reports a cycle exactly when there is one or an undefined name is
  listed in two places (`ConfigCycles.FalseAlarm`).
- **A reload of a process with a disabled or scheduled dependency fails.** The graph drops edges to
  disabled processes, but `waitForDependencies` wants a supervisor for every listed dependency. The
  exact success condition of a reload (`Reload.CanStart`) says so, and `Reload.DisabledOrScheduled` is a
  configuration with a start order that no reload brings up.
- **A rollback that reports no failure may still leave a process behind.** Without a start order for
  the old configuration, the number returned drops the stops that failed
  (internal/process/manager_config.go:566-577). `Reload.Manager.ReloadConfig` states for that case which
  entries are left and, from the configurations and the answers alone, exactly when they are the old
  ones; `Reload.UncountedLeftover` is a reload after which they are not, nor does a shutdown stop the
  process left over.
- **The first health verdict can come early.** A failed first probe is counted and then forgotten by
  the throttle (`HealthMonitor.FirstStartIsShort`), so up to a period is missing. The full bound holds
  for all runs exactly when the failure threshold is at most one or the initial delay is at least a
  period (`HealthMonitor.CleanBoundExactly`), and always after a Rearm or Resume once the first probe
  has begun.
- **Overlapping cron ticks are not skipped.** They wait for the mutex and then run; the guard that
  would skip them never fires (`ScheduledJob.GuardNeverFires`, `ScheduledJob.OverlappingTickRuns`).
- **Long lines depend on the chunking.** The lines that come out are independent of how the stream is
  cut exactly when no terminated line is longer than 65536 bytes and an unterminated last one no longer
  than 65537.
- **Dropping idle clients** cannot be seen by any client exactly when ten minutes refill a whole burst,
  and exactly then no client gets more than burst + rate * length requests through in a window. That is
  so for the limits the server uses, as long as a request is one step.
- **A request is three steps.** It looks up its visitor, stamps it as seen and takes a token. A cleanup
  that drops the visitor in between gives the client a request more than the bound
  (`LimiterRace.TornLookup`), and a token taken long after the stamp up to a second burst
  (`LimiterRace.LateTokens`). Without the first, and with stalls of at most `gap` before the token, the
  bound holds exactly when ten minutes less `gap` refill a burst (`LimiterRace.OrderlyBoundedExactly`);
  for the server that allows stalls of 598 seconds.
- **More memory can be refused.** 256MB are accepted for InnoDB, 257MB are not; that is the only step
  at which one more MB takes budget away.
- **Strict worker sizing with a threshold above one** can refuse limits above the one its error names.
  `WorkerSizing.StrictBoundary` says for which cores and profiles it does.

## Model

| member | source | states |
|---|---|---|
| Names.LessTrichotomy | internal/deps/graph.go:224-236 | the string order the sort uses is total and irreflexive |
| Names.LessTransitive | internal/deps/graph.go:224-236 | and transitive |
| DependencyGraph.DepsFirstIsAcyclic | internal/deps/graph.go:115-129 | a listing of all nodes with dependencies first rules out every cycle |
| DependencyGraph.GreedyIsLeast | internal/deps/graph.go:162-221 | always taking the alphabetically first ready node gives an order no start order comes before |
| DependencyGraph.LeastOrderIsUnique | internal/deps/graph.go:159-221 | there is only one such order, so map iteration order cannot show |
| Graph.CycleSearch.constructor | internal/deps/graph.go:115-119 | the search starts with nothing visited |
| Graph.CycleSearch.Visit | internal/deps/graph.go:132-157 | from an unvisited node: a simple cycle, or the node finished after all it depends on with the search invariant kept; terminates as unvisited names get fewer |
| Graph.CycleSearch.VisitDeps | internal/deps/graph.go:136-153 | the loop over one node's dependencies finishes all of them or shows a simple cycle |
| Graph.CycleSearch.Reconstruct | internal/deps/graph.go:142-151 | the walk along parent links terminates and returns the stack from the repeated node on, closed |
| Graph.StackCloses | internal/deps/graph.go:142-151 | that part of the stack is a cycle that meets no other node twice |
| Graph.SortAlphabetically | internal/deps/graph.go:224-236 | the array is sorted in place and is a permutation of what it was |
| Graph.InsertLeftwards | internal/deps/graph.go:226-235 | one round extends the sorted front by one entry and permutes |
| Graph.OpenSlot | internal/deps/graph.go:230-233 | the inner loop shifts exactly the larger entries and leaves the right slot |
| Graph.RotationSorts | internal/deps/graph.go:226-235 | moving an entry left past larger ones keeps the front sorted and the contents |
| Graph.PendingZero | internal/deps/graph.go:173-212 | an in-degree reaches zero exactly for a node whose dependencies are all placed and listed once |
| Graph.PendingStep | internal/deps/graph.go:200-212 | placing a node lowers the in-degree of exactly its dependents, by one |
| Graph.AppendReady | internal/deps/graph.go:193-198 | taking the head of the queue keeps the result dependencies-first and greedy |
| Graph.ReadyStep | internal/deps/graph.go:200-212 | which nodes become ready when one is placed |
| Graph.NothingLeft | internal/deps/graph.go:193-218 | with the queue empty, an acyclic graph without repetitions has been listed completely |
| Graph.Enqueue | internal/deps/graph.go:205-210 | the queue gains the node and is sorted and duplicate-free again |
| Graph.Graph.constructor | internal/deps/graph.go:17-21 | a new graph is empty |
| Graph.Graph.AddNode | internal/deps/graph.go:74-76 | the entry is set or replaced, the others are kept |
| Graph.Drain | internal/deps/graph.go:173-213 | the queue loop lists nodes dependencies-first, always the alphabetically first ready one, until none is ready |
| Graph.Graph.Validate | internal/deps/graph.go:97-112 | accepts exactly the graphs where every dependency exists and is another node; an error names a real offender |
| Graph.Graph.HasCycle | internal/deps/graph.go:115-129 | true exactly when there is a cycle; the list shown is a closed walk along edges with no other repetition |
| Graph.Graph.TopologicalSort | internal/deps/graph.go:162-221 | succeeds exactly on complete, acyclic, repetition-free graphs, with the alphabetically least start order; an error names a dependency that is missing, a real self-dependency, a real cycle, or comes from a repetition |
| ConfigCycles.DependencyWalk.Visit | internal/config/config.go:503-524 | a report means a cycle or an undefined name listed twice; otherwise the name is finished and the invariant kept |
| ConfigCycles.DependencyWalk.VisitDep | internal/config/config.go:512-520 | the same for one dependency entry |
| ConfigCycles.Reported | internal/config/config.go:517-519 | a visited name still on the stack closes a cycle or is an undefined name met again |
| ConfigCycles.CleanWalk | internal/config/config.go:488-501 | a walk that reports nothing leaves no cycle and no undefined name listed twice |
| ConfigCycles.CheckCircularDependencies | internal/config/config.go:488-501 | reports exactly when there is a cycle or an undefined name is listed in two places |
| ConfigCycles.ValidateDependencies | internal/config/validation.go:641-692 | no error exactly when all dependencies are defined and there is no cycle; if no cycle is reported, exactly the undefined entries are
| ConfigCycles.DefinedNeverNamedTwice | internal/config/config.go:503-524 | with all dependencies defined the detectors are exact |
| ConfigCycles.FalseAlarm | internal/config/config.go:507-510 | two processes sharing one undefined dependency are reported without a cycle |
| StartupOrder.KeptDepsMembers | internal/deps/graph.go:41-61 | exactly the listed dependencies that are not disabled are kept, each once |
| StartupOrder.DropDeps | internal/deps/graph.go:41-61 | the loop computes that list |
| StartupOrder.StartGraphEdge | internal/deps/graph.go:25-71 | which edges the graph from the configuration has |
| StartupOrder.StartOrderCondition | internal/process/manager_lifecycle.go:433-441 | a start order exists exactly when no enabled process names an undefined one and no cycle runs through enabled processes only |
| StartupOrder.ValidatedConfigStarts | internal/process/manager_lifecycle.go:433-441 | a configuration both loading checks accept always has a start order |
| StartupOrder.ValidateLoaded | internal/config/validation.go:641-666 | the two checks together accept exactly complete acyclic configurations, which then have a start order |
| StartupOrder.NewGraphFromConfig | internal/deps/graph.go:25-71 | builds the graph of enabled processes and accepts it exactly when it is complete and free of self-dependencies |
| StartupOrder.GetStartupOrder | internal/process/manager_lifecycle.go:433-441 | succeeds exactly when a start order exists, with the least one; otherwise the error names a real defect of the graph |
| StartupOrder.GetShutdownOrder | internal/process/manager_lifecycle.go:444-467 | the least start order backwards, or all configured names when there is none |
| Shutdown.NextLevel | internal/process/manager_lifecycle.go:339-359 | a level is exactly the remaining processes no other remaining one depends on |
| Shutdown.StopLevel | internal/process/manager_lifecycle.go:371-399 | each of a level begins and returns once, in any interleaving; refusals are counted |
| Shutdown.AddLevel | internal/process/manager_lifecycle.go:338-400 | a further level keeps the order between all stops so far |
| Shutdown.NoKnotWithStartOrder | internal/process/manager_lifecycle.go:360-369 | with a start order no processes hold each other up |
| Shutdown.KnotStays | internal/process/manager_lifecycle.go:339-359 | processes that hold each other up are never picked before the fallback |
| Shutdown.StuckIsKnot | internal/process/manager_lifecycle.go:360-369 | an empty level means some processes hold each other up |
| Shutdown.StopAll | internal/process/manager_lifecycle.go:338-400 | every process is stopped once, the fallback is taken exactly if some hold each other up, otherwise dependents stop first |
| Shutdown.StopTracked | internal/process/manager_lifecycle.go:330-400 | the tracked processes that are configured (and enabled, if a start order exists) are each stopped once, the others not at all; whenever a start order exists there is no fallback and a Stop begins only after the Stops of all dependents returned |
| Reload.ShutdownStopsAll | internal/process/manager_lifecycle.go:330-335 | a manager in the state its configuration asks for has no other processes, so a shutdown stops all it has |
| Reload.UnsupervisedDependency | internal/process/manager_lifecycle.go:125-159 | a process that lists a disabled or scheduled dependency never comes up, whatever the world answers |
| Reload.DisabledOrScheduled | internal/process/manager_lifecycle.go:136-141 | a configuration that has a start order and cannot be started for that reason |
| Reload.Manager.UnregisterScheduled | internal/process/manager_config.go:650-657 | the job of that name is gone, others are kept |
| Reload.Manager.StopSupervisor | internal/process/manager_config.go:637-645 | an entry is dropped exactly when its process stopped |
| Reload.Manager.WaitForDependencies | internal/process/manager_lifecycle.go:125-159 | succeeds exactly when every listed dependency has a supervisor and gets ready in time |
| Reload.Manager.RegisterScheduled | internal/process/manager_lifecycle.go:162-206 | a refused or repeated registration leaves the jobs as they were |
| Reload.Manager.StartRegular | internal/process/manager_lifecycle.go:226-265 | the supervisor entry is written even if the start then fails |
| Reload.Manager.StopReload | internal/process/manager_config.go:630-648 | exactly the given names are stopped, none before one that depends on it, and exactly the refusing ones are reported |
| Reload.Manager.BringUp | internal/process/manager_config.go:671-690 | what one start adds to the entries, the jobs and the running processes, and the exact conditions of an entry and of success, in a reload and in a rollback |
| Reload.Manager.StartReload | internal/process/manager_config.go:660-698 | succeeds exactly when a start order exists and every start can succeed; then the state is the one the configuration asks for and everything started runs; otherwise exactly the names the order and the answers determine have been entered; nothing is started before what it depends on |
| Reload.Manager.StartOne | internal/process/manager_config.go:666-691 | one round of that loop, to the next name or to the error |
| Reload.Manager.StopTouched | internal/process/manager_config.go:513-560 | every touched name is stopped once, none before one that depends on it in the configuration in force; the ones that refuse are remembered |
| Reload.Manager.Restore | internal/process/manager_config.go:578-614 | every touched name ends with exactly the entry, the job and the process that the answers and its dependencies' supervisors allow; the failures are the names that would not stop and those not back up, and there are none exactly when the answers let every old process come back; nothing is started before what it depends on |
| Reload.Manager.Rollback | internal/process/manager_config.go:496-615 | the same for the whole rollback, and what its count means when there is no start order |
| Reload.Manager.ReloadConfig | internal/process/manager_config.go:326-446 | all or nothing: success, under an exact condition, gives exactly the new configuration's state with everything started running; after an error, how every touched name stands and how many failures are counted, with none counted, and the old state back, under an exact condition on the inputs; without an old start order, the count and the exact entries left; untouched names are never called and keep running; no process runs without its entry |
| Reload.StopSucceeded | internal/process/manager_config.go:392-408 | after all stops the state is the new configuration's without the names to start |
| Reload.RollbackOutcome | internal/process/manager_config.go:410-421 | when a rollback without counted failures is complete |
| Reload.AbortOutcome | internal/process/manager_config.go:395-405 | the same when the reload failed while stopping |
| Reload.LeftBehind | internal/process/manager_config.go:566-577 | without an old start order, what stays are exactly the new supervisors that refuse to stop |
| Reload.EnteredReaches | internal/process/manager_config.go:660-698 | a name is entered by a start that fails only after it |
| Reload.SettledOne | internal/process/manager_config.go:578-608 | one turn of the rollback settles its name, leaves the others as they stand, and counts it if it is not back up |
| Reload.AllSettled | internal/process/manager_config.go:578-615 | no failure is counted exactly when everything stopped and every old process could be brought back |
| Reload.EntriesBack | internal/process/manager_config.go:578-608 | with nothing in the way each process finds its dependencies back when its turn comes |
| Reload.NeedsEarlier | internal/process/manager_lifecycle.go:433-467 | in a start order no process needs itself or a later one |
| Reload.StopsFollowOn | internal/process/manager_config.go:632-646 | stopping the next name of the shutdown order stops nothing before what depends on it |
| Reload.StartsFollowOn | internal/process/manager_config.go:666-691 | starting the next name of the start order starts nothing before what it depends on |
| Reload.UncountedLeftover | internal/process/manager_config.go:326-446 | a reload that reports a rollback without failures and leaves a supervisor that has no configuration entry and that a shutdown does not stop |
| Reaper.Registry.RegisterSupervised | internal/signals/handler.go:63-78 | the pid is registered and kept statuses stay as they are |
| Reaper.Registry.UnregisterSupervised | internal/signals/handler.go:83-88 | registration and kept status are gone |
| Reaper.Registry.TakeReapedStatus | internal/signals/handler.go:94-103 | a kept status is returned once and forgotten with its registration |
| Reaper.Registry.Capture | internal/signals/handler.go:115-123 | a supervised child's status is kept, an orphan's is dropped |
| Reaper.StepInv | internal/signals/handler.go:63-180 | every step of starter, kernel, reaper and owner keeps the invariant |
| Reaper.RunInv | internal/signals/handler.go:63-180 | so does every interleaving |
| Reaper.ExactDelivery | internal/signals/run.go:51-80 | every owner gets the status its child exited with, once; the "unavailable" branch is never taken |
| Reaper.NothingLeftBehind | internal/signals/handler.go:83-103 | once all children are collected both maps are empty |
| Reaper.CanAlwaysCollect | internal/signals/run.go:51-80 | in every reachable state the owner of an exited child can collect its status within three steps |
| Reaper.WaitSupervised | internal/signals/run.go:51-95 | a clean exit is a success and any other an error with its status, whoever collected it; the registration is gone afterwards |
| Reaper.StatusToError | internal/signals/run.go:86-95 | no error for a clean exit, and otherwise one that carries the status |
| Reaper.RecoverExitCode | internal/process/supervisor.go:996-1013 | the exit code of a normal exit and -1 for anything else, whoever won the race, and the registration is gone afterwards |
| HealthMonitor.Watcher.ResetLocked | internal/process/healthcheck.go:357-379 | a new generation with all counters, grace and fast window set anew |
| HealthMonitor.Watcher.Rearm | internal/process/healthcheck.go:320-324 | resets the monitor |
| HealthMonitor.Watcher.Pause | internal/process/healthcheck.go:328-333 | paused, and probes under way become stale |
| HealthMonitor.Watcher.Resume | internal/process/healthcheck.go:336-341 | not paused, and reset |
| HealthMonitor.Watcher.ArmFastStart | internal/process/healthcheck.go:392-402 | opens the fast window and forgets the last counted failure |
| HealthMonitor.Watcher.FinishCheck | internal/process/healthcheck.go:432-522 | the counters, the flag and the status for each kind of probe result |
| HealthMonitor.FinishFirstTimely | internal/process/healthcheck.go:260-270 | the first probe's result keeps the timing invariant |
| HealthMonitor.FinishTimely | internal/process/healthcheck.go:288-304 | every later result keeps it, and turns unhealthy only when enough time has passed |
| HealthMonitor.StepInv | internal/process/healthcheck.go:245-312 | every step of the loop, the clock and the callers keeps the invariant |
| HealthMonitor.RunInv | internal/process/healthcheck.go:245-312 | so does every run |
| HealthMonitor.NoEarlyVerdict | internal/process/healthcheck.go:343-522 | no unhealthy status is accepted before threshold - 1 periods since the last reset, less what the initial delay lacks of a period if the first probe's failure was counted; its probe began after the reset |
| HealthMonitor.CleanBoundExactly | internal/process/healthcheck.go:245-312 | the full bound holds for every verdict, first start included, exactly when the threshold is at most one or the initial delay at least a period |
| HealthMonitor.VerdictAfterReset | internal/process/healthcheck.go:320-379 | after a Rearm or Resume at any time since the first probe began the full bound holds, and the verdict's probe began after it |
| HealthMonitor.StaleProbesIgnored | internal/process/healthcheck.go:343-355 | a probe begun before the last reset changes nothing and is never accepted |
| HealthMonitor.FirstStartIsShort | internal/process/healthcheck.go:260-283 | for every threshold above one: a first start whose verdict comes after the initial delay, a tenth of a second and threshold - 2 periods |
| HealthMonitor.HealthExactly | internal/process/healthcheck.go:415-522 | unless it is paused, the process counts as unhealthy exactly if since the last reset enough counted failures came in a row and not enough successes in a row since |
| HealthMonitor.ReportedExactly | internal/process/healthcheck.go:432-522 | what is reported for each result: a success as healthy exactly if the process then counts as healthy, a counted failure as unhealthy exactly if it completes the threshold, a stale result never |
| HealthMonitor.PassedOverExactly | internal/process/healthcheck.go:446-475 | a failure of the present generation is passed over exactly if the fast window is open, no success was counted in it, and the last counted failure is less than a period ago |
| HealthMonitor.IntervalExactly | internal/process/healthcheck.go:406-413 | probes come fast exactly as long as that window is open |
| HealthMonitor.GraceExactly | internal/process/healthcheck.go:383-387 | a timer leads to a probe exactly if the monitor is not paused and the initial delay since the last reset is over |
| HealthMonitor.ResetStartsAfresh | internal/process/healthcheck.go:357-379 | after a Rearm or Resume there is no result, no failure in the window and no probe that still counts; only a Resume ends a pause |
| HealthMonitor.PauseInvalidates | internal/process/healthcheck.go:328-333 | a Pause makes every probe under way and every status so far stale |
| HealthMonitor.PausedIsSilent | internal/process/healthcheck.go:343-347 | until it is resumed a paused monitor accepts and reports nothing |
| HealthMonitor.NoProbeWhilePaused | internal/process/healthcheck.go:415-421 | while it is paused no probe of the present generation is under way |
| ControlChannel.Client.Fail | internal/snapshot/client.go:261-271 | the first cause is kept and the connection closed |
| ControlChannel.Client.Request | internal/snapshot/client.go:189-220 | result and channel for every way a Checkpoint or Restore can go |
| ControlChannel.Client.RegisterChild | internal/snapshot/client.go:110-173 | the same for Register, which is never uncertain |
| ControlChannel.CallIsRun | internal/snapshot/client.go:189-220 | a call is a run of the channel's steps that ends as the client's methods say |
| ControlChannel.BreaksExactly | internal/snapshot/client.go:110-220 | a step breaks a working channel exactly if it is a call that is not abandoned and does not go out whole, a failed read, a line that is no reply, or one that does not acknowledge a Register; any other reply, a refusal included, is handed on as it is and leaves the channel as it was |
| ControlChannel.StepInv | internal/snapshot/client.go:189-295 | every step of callers, client and agent keeps requests and answers in step |
| ControlChannel.OwnAnswers | internal/snapshot/client.go:189-220 | an answer returned is the agent's answer to that same request |
| ControlChannel.UncertainExactly | internal/snapshot/client.go:189-220 | every run that breaks the channel has a step at which it breaks for good, and the latched error is uncertain exactly when that step was a partial send of a Checkpoint or Restore, or a failed read or unusable line after a whole one; every failed call returned that error
| ControlChannel.FailureExactly | internal/snapshot/client.go:206-216 | the same for the one step that breaks the channel |
| ControlChannel.RunTracks | internal/snapshot/client.go:189-220 | on a working channel the call that waits is the last one begun, sent whole, and the line it will read is the last one the agent wrote |
| ControlChannel.LatchedForever | internal/snapshot/client.go:261-271 | after the first failure nothing is sent and every call returns that error |
| ControlChannel.LateAnswerStays | internal/snapshot/client.go:261-271 | why the latch is needed: a late answer stays in the stream |
| RateLimiter.TokenBucket.Allow | internal/api/server.go:162-183 | answer and new bucket |
| RateLimiter.TokenBalance | internal/api/server.go:162-183 | grants plus tokens left never exceed the burst plus what came in |
| RateLimiter.WindowIsRun | internal/api/server.go:162-183 | what is granted in a window is what the run of requests in it is granted |
| RateLimiter.WindowBound | internal/api/server.go:162-183 | from one bucket at most burst + rate * length requests are allowed in any window |
| RateLimiter.OneBucket | internal/api/server.go:105-126 | without eviction a client has one bucket, whatever other clients do |
| RateLimiter.Limiter.Allow | internal/api/server.go:105-126 | a client's own bucket decides, a new one for an unknown client |
| RateLimiter.Limiter.CleanupVisitors | internal/api/server.go:129-149 | exactly the clients idle over ten minutes are dropped |
| RateLimiter.SameAnswers | internal/api/server.go:105-149 | if ten minutes refill a burst, every request gets the answer of a limiter that drops nobody |
| RateLimiter.SeenEviction | internal/api/server.go:129-149 | if they do not, some history tells the two apart |
| RateLimiter.EvictionInvisibleExactly | internal/api/server.go:105-149 | the two together: an if and only if |
| RateLimiter.ServerLimitsInvisible | internal/api/server.go:283-283 | the limits 100 and 200 the server uses are on the safe side |
| RateLimiter.WindowsBoundedExactly | internal/api/server.go:105-183 | the window bound holds for every client of the evicting limiter exactly when ten minutes refill a burst |
| RateLimiter.SecondBurst | internal/api/server.go:129-149 | otherwise an eviction hands out a second burst too soon |
| LimiterRace.TakeSimulates | internal/api/server.go:125-125 | a token taken without a stall from a visitor still in the map is granted as a limiter that keeps everybody grants it |
| LimiterRace.SweepSimulates | internal/api/server.go:140-146 | a cleanup that drops no visitor of a request under way drops only clients whose buckets are full again |
| LimiterRace.SmallStepsAgree | internal/api/server.go:105-149 | every interleaving of lookups, stamps, tokens and cleanups without such a drop, and with stalls after which the idle limit still refills a burst, grants exactly what a limiter that never drops anybody grants |
| LimiterRace.OrderlyBoundedExactly | internal/api/server.go:105-149 | for every longest stall between stamp and token, the window bound holds in all these interleavings exactly when the idle limit less the stall refills a burst |
| LimiterRace.ServerStall | internal/api/server.go:283-283 | with the server's limits that is so for stalls of up to 598 seconds and no longer |
| LimiterRace.LateTokens | internal/api/server.go:124-149 | otherwise tokens taken long after the stamps let a second burst through too soon |
| LimiterRace.TornLookup | internal/api/server.go:105-149 | a cleanup between lookup and token lets a burst and one request more through in a moment, without any stall |
| LimiterRace.AlwaysBoundedExactly | internal/api/server.go:105-149 | over all interleavings the bound holds exactly for a limiter without a burst |
| ScheduledJob.ExecutionHistory.StartExecution | internal/schedule/history.go:72-91 | a running entry with the next ID, the oldest making room |
| ScheduledJob.ExecutionHistory.EndExecution | internal/schedule/history.go:94-108 | the latest entry of that ID gets exactly the result given, the others are kept |
| ScheduledJob.EndedRecords | internal/schedule/history.go:94-108 | the last entry with that ID keeps its other fields and ends with exactly the result given; every other entry is unchanged |
| ScheduledJob.Returned | internal/schedule/job.go:423-428 | a success is exit code 0 without an error; code and message are kept |
| ScheduledJob.Panicked | internal/schedule/job.go:383-389 | a panic is recorded as a failure with code -1 and its value |
| ScheduledJob.ExecutionHistory.GetRecent | internal/schedule/history.go:124-138 | the most recent entries, newest first |
| ScheduledJob.Job.Pause | internal/schedule/job.go:240-254 | refused exactly while executing |
| ScheduledJob.Job.Resume | internal/schedule/job.go:257-268 | possible exactly when paused |
| ScheduledJob.Job.Enter | internal/schedule/job.go:343-360 | an idle job starts an execution, any other is left alone |
| ScheduledJob.Job.Leave | internal/schedule/job.go:370-428 | idle again and the entry ended with exactly the result given, after a panic as well |
| ScheduledJob.Job.Complete | internal/schedule/job.go:416-428 | the result recorded for an executor that returns |
| ScheduledJob.Job.Trigger | internal/schedule/job.go:301-329 | refused exactly for a job that is paused or executing |
| ScheduledJob.StepInv | internal/schedule/job.go:338-438 | every step of ticks, triggers, pauses, resumes and executors keeps the invariant |
| ScheduledJob.NeverOverlap | internal/schedule/job.go:338-438 | two executions never overlap |
| ScheduledJob.RestIsClean | internal/schedule/job.go:338-438 | with the mutex free: not executing, no current ID, no running entry, all starts ended |
| ScheduledJob.EachEndedOnce | internal/schedule/history.go:72-108 | each start gets one end under its own ID, in order |
| ScheduledJob.HistoryExactly | internal/schedule/history.go:72-108 | the history holds the latest executions, as many as it may, each with what set it off and, once ended, with exactly what its executor returned or panicked with |
| ScheduledJob.PausedIsQuiet | internal/schedule/job.go:345-349 | a paused job starts nothing until it is resumed |
| ScheduledJob.RunsFromRest | internal/schedule/job.go:293-335 | from rest a tick or a trigger runs the job at once, under its own reason |
| ScheduledJob.GuardNeverFires | internal/schedule/job.go:350-354 | the guard against an execution under way is unreachable |
| ScheduledJob.LogsOwnEntry | internal/schedule/job.go:428-435 | the entry read for the log is the execution's own, and ended |
| ScheduledJob.OverlappingTickRuns | internal/schedule/job.go:338-360 | a tick during an execution can wait and then run |
| LineSplitter.ProcessWriter.Write | internal/logger/process_writer.go:102-146 | which lines one Write passes on and what it keeps |
| LineSplitter.ProcessWriter.Flush | internal/logger/process_writer.go:304-315 | the kept rest is passed on and the buffer emptied |
| LineSplitter.IndexNewlineFinds | internal/logger/process_writer.go:114-123 | the index is that of the first newline |
| LineSplitter.SplitLosesNothing | internal/logger/process_writer.go:102-146 | without carriage returns the lines give back the stream |
| LineSplitter.SplitExactly | internal/logger/process_writer.go:114-123 | whatever the stream, it is the lines with at most one carriage return added to each, ended by newlines, and the rest |
| LineSplitter.SplitConcat | internal/logger/process_writer.go:102-146 | a stream may be split anywhere if the unfinished line is carried over |
| LineSplitter.PrefixFits | internal/logger/process_writer.go:132-143 | with short lines the buffer limit is not met before the end |
| LineSplitter.OneWrite | internal/logger/process_writer.go:102-146 | one Write of everything and a Flush give the lines of the stream |
| LineSplitter.ChunkingInvisibleExactly | internal/logger/process_writer.go:102-146 | the lines do not depend on the chunking exactly when no line is too long |
| LineSplitter.LongLineShows | internal/logger/process_writer.go:132-143 | otherwise some chunking gives other lines |
| Multiline.MultilineWriter.Add | internal/logger/multiline.go:69-107 | what a line does to the buffer and which entry leaves it |
| Multiline.MultilineWriter.ProcessLine | internal/logger/process_writer.go:149-165 | a line is added and the flush timer set or cleared |
| Multiline.MultilineWriter.ArmFlushTimer | internal/logger/process_writer.go:171-189 | a new timer exactly for a buffer that is not empty |
| Multiline.MultilineWriter.FlushOnTimeout | internal/logger/process_writer.go:192-204 | the buffered lines leave as one entry |
| Multiline.MultilineWriter.Flush | internal/logger/process_writer.go:317-328 | the buffered lines leave and the timer is stopped |
| Multiline.StepInv | internal/logger/process_writer.go:149-204 | every event keeps the limits and the timer, and loses or reorders no line |
| Multiline.NothingLostOrReordered | internal/logger/multiline.go:69-143 | through any interleaving entries and buffer are exactly the input lines in order; entries keep the line limit and have a start line only first; a filled buffer has a pending timer |
| Multiline.EntriesEndExactly | internal/logger/multiline.go:69-107 | along every run an entry ends exactly where a line starts a new one or fills the limit, or at a flush, and holds all lines pending until then |
| Multiline.EntriesAreMaximal | internal/logger/multiline.go:69-107 | without flushes no two neighbouring entries could have been one |
| Multiline.TimerExactly | internal/logger/process_writer.go:171-204 | after every line there is a new timer exactly if something is pending, and the one before it is stopped |
| Multiline.FinalFlushEmpties | internal/logger/process_writer.go:304-328 | after the final Flush the entries alone are the input |
| Multiline.UnjoinJoin | internal/logger/multiline.go:134-143 | an entry's text determines its lines |
| Multiline.OnlyEmptyLineDropped | internal/logger/process_writer.go:151-155 | the only entry dropped for having no text is a single empty line |
| Multiline.EntriesGiveBackLines | internal/logger/process_writer.go:149-204 | the entries passed on, read back, are all lines but those dropped |
| FieldPath.BuildFieldNode | internal/config/envsubst.go:167-196 | the field tree of a type, built field by field |
| FieldPath.ChildComesFromField | internal/config/envsubst.go:167-196 | a child stands for the last field stored under its key |
| FieldPath.FieldHasChild | internal/config/envsubst.go:167-196 | every field with a yaml key has a child |
| FieldPath.FieldTreeWellKeyed | internal/config/envsubst.go:167-196 | at every depth each child is stored under its own key, normalised |
| FieldPath.TreeExactly | internal/config/envsubst.go:167-196 | a path of keys leads to a node exactly if it leads from field to field through the types, and the node has that field's name and type |
| FieldPath.TagNameIs | internal/config/envsubst.go:184-188 | the name of a tag is what comes before its first comma |
| FieldPath.IsKeyIs | internal/config/envsubst.go:181-188 | exactly the tags without a name or named "-" are passed over |
| FieldPath.NormalizeKeyIs | internal/config/envsubst.go:216-218 | dashes become underscores and capitals small letters, nothing else changes, and once is enough |
| FieldPath.MatchFieldPath | internal/config/envsubst.go:220-238 | succeeds exactly when some grouping of the tokens names a path, and takes the one with the longest groups first |
| FieldPath.PathNamesField | internal/config/envsubst.go:220-238 | the normalised path re-joins to the input and names a field of the tree |
| FieldPath.FieldType | internal/config/envsubst.go:265-275 | the type of the node the path leads to |
| RingBuffers.TruncateAtRuneBoundary | internal/logger/log_buffer.go:63-75 | the longest prefix within the limit that does not end inside a rune |
| RingBuffers.LogBuffer.constructor | internal/logger/log_buffer.go:35-45 | empty, with the default size for a size that is not positive |
| RingBuffers.LogBuffer.Add | internal/logger/log_buffer.go:78-101 | one entry more in the history, cut only if too long |
| RingBuffers.LogBuffer.GetAll | internal/logger/log_buffer.go:104-125 | the last entries stored since Clear, as many as fit, in order |
| RingBuffers.LogBuffer.GetRecent | internal/logger/log_buffer.go:128-169 | the last n of them, for any n |
| RingBuffers.LogBuffer.Clear | internal/logger/log_buffer.go:172-178 | the history starts anew |
| RingBuffers.UnwoundStore | internal/logger/log_buffer.go:89-95 | storing into the ring drops the oldest and appends the newest |
| RingBuffers.TimeSeriesBuffer.constructor | internal/metrics/timeseries.go:29-40 | empty, with the default capacity for one below 1 |
| RingBuffers.TimeSeriesBuffer.Add | internal/metrics/timeseries.go:43-53 | one sample more in the history |
| RingBuffers.RingAdd | internal/metrics/timeseries.go:43-53 | the ring drops the oldest and appends the newest |
| RingBuffers.TimeSeriesBuffer.GetRange | internal/metrics/timeseries.go:56-89 | the last `limit` retained samples not older than `since`, oldest first |
| RingBuffers.SinceConcat | internal/metrics/timeseries.go:71-81 | filtering by age distributes over concatenation |
| RingBuffers.EnoughCollected | internal/metrics/timeseries.go:71-81 | a walk that stops early has the newest matches |
| RingBuffers.ReverseInPlace | internal/metrics/timeseries.go:83-86 | the two-pointer swap reverses |
| RingBuffers.TimeSeriesBuffer.Latest | internal/metrics/timeseries.go:110-120 | the last sample added, if any since Clear |
| RingBuffers.TimeSeriesBuffer.Clear | internal/metrics/timeseries.go:123-130 | the history starts anew |
| Percona.Reserved | internal/autotune/engine.go:372-385 | the reserve is never the whole limit |
| Percona.AcceptedLimits | internal/autotune/engine.go:372-385 | exactly the limits 15 to 256 and from 264 on leave InnoDB enough to start |
| Percona.BudgetDropsOnce | internal/autotune/engine.go:372-385 | one more MB takes budget away at exactly one limit |
| Percona.MoreMemoryRefused | internal/autotune/engine.go:372-385 | 256MB are accepted and 257MB refused |
| Percona.PoolForMonotone | internal/autotune/engine.go:213-230 | the coarser rounding of larger pools never makes a pool smaller |
| Percona.PoolGrowsWithLimit | internal/autotune/engine.go:188-230 | for any two limits, the larger one gets the smaller pool exactly across 256MB and only until its excess has caught up with half of the smaller limit |
| Percona.MultipleIsKept | internal/autotune/engine.go:207-230 | InnoDB's own rounding up changes nothing for a whole number of chunks per instance |
| Percona.TunePercona | internal/autotune/engine.go:188-278 | refuses exactly the limits above; otherwise InnoDB's rounding keeps the pool, pool and reserve fit the limit, a warm pool is at most 512MB, connections are as many as cores and reserve allow and fit the limit unless the warning says otherwise |
| WorkerSizing.PoolHolds | internal/autotune/calculator.go:236-238 | the quotient is exactly the number of workers that fit |
| WorkerSizing.Suggested | internal/autotune/calculator.go:234-261 | the suggested count covers exactly the counts wanted by threshold, cores, profile maximum or minimum; each warning is raised exactly when its bound is the one that bites |
| WorkerSizing.SizeWorkers | internal/autotune/calculator.go:229-295 | the largest count that is wanted and fits the real limit, at least one; strict mode errors exactly when something wanted does not fit; the warnings say exactly when the pool was clamped or over-committed |
| WorkerSizing.SizingIsUnique | internal/autotune/calculator.go:229-295 | that count is unique |
| WorkerSizing.SizingFits | internal/autotune/calculator.go:263-272 | it fits the real limit whenever one worker does, whatever the threshold |
| WorkerSizing.SizingMonotone | internal/autotune/calculator.go:229-295 | it never goes down as the limit goes up |
| WorkerSizing.MisfitExactly | internal/autotune/calculator.go:263-281 | for every limit and threshold, strict mode errors exactly when the first count that does not fit is wanted |
| WorkerSizing.StrictBoundary | internal/autotune/calculator.go:297-306 | for every threshold, strict mode errors exactly below the smallest bootable limit unless the cores and the profile let oversubscription grant more workers than fit |
| WorkerSizing.OversubscriptionRefused | internal/autotune/calculator.go:274-281 | in that case there is a limit at or above the one the error names that is refused |
| WorkerSizing.GrantedFits | internal/autotune/calculator.go:234-261 | in every other case each count granted above the minimum fits the real limit |
| WorkerSizing.DynamicSettings | internal/autotune/calculator.go:137-155 | each spare-server setting is its share of the pool rounded up and kept at or above the one before; they are in order exactly when neither the minimum nor the start ratio exceeds one |
| WorkerSizing.ValidateConfig | internal/autotune/calculator.go:173-191 | of settings calculated for a dynamic pool it accepts exactly those in the order PHP-FPM demands, although by itself it compares neither the start count with the spares nor the minimum with one; other modes always pass |
| WorkerSizing.Calculate | internal/autotune/calculator.go:65-167 | rejection by the final validation is possible only for such ratios; every configuration returned has exactly these settings for its mode, is in order and fits the limit whenever one worker does |

## Left out

- Spawning, signalling, pipes, restarts with backoff, scaling and hooks: operating system calls; a stop or a start is a success or a failure here.
- Checkpointing of supervisors and the coordinator that drives it.
- The HTTP handlers, middleware, TLS, metrics export, audit log, templates and command line: input, output and formatting.
- YAML loading, cron expressions, regular expressions, JSON and redaction: library code; a pattern match is an arbitrary predicate.
- Contexts, timeouts and the time budget of a rollback: they show up as refused stops, failed starts and dependencies that are not ready.
- Locks: each locked section is one step, except where the race between sections is the point (Reaper, ScheduledJob).
- String order is by character, not by UTF-8 byte; `ToLower` in a normalised key is ASCII only.
- Floating point rounding: thresholds, ratios, tokens and times are reals.
- Nil process entries in a configuration, which loading rejects.
- ConfigCycles.CheckCircularDependencies: the detectors of config.go and validation.go are the same walk and are modelled once.
- Reload.Manager.ReloadConfig: two definitions count as unchanged when they are equal; telemetry and the scheduler's own start are not modelled, and a job unregistered twice in a rollback is unregistered once.
- Shutdown.StopTracked: the hooks, the scheduler and the wait for goroutines around the level loop are not modelled.
- Reaper.ExactDelivery: assumes, as the source does, that the kernel does not reuse a registered pid and that no other wildcard waiter runs.
- HealthMonitor.NoEarlyVerdict: metrics and logging are not modelled, nor is the end of the monitor with its context.
- ControlChannel.OwnAnswers: assumes that the agent writes at most one line for each request it was sent, and none unasked.
- ControlChannel.Client.Request: messages are abstract lines that are well formed, name the verb asked for, or neither; argument checks before anything is sent are left out.
- RateLimiter.Limiter.Allow: one step with one time stamp; `LimiterRace` has its three steps and states what interleaving changes.
- ScheduledJob.ExecutionHistory.GetRecent: Stats, SuccessRate, GetAll and the lookup by ID would add easy members.
- Multiline.MultilineWriter.ProcessLine: what happens to an entry afterwards (levels, JSON, redaction, filters, the log buffer) is not modelled.
- RingBuffers.LogBuffer.Add: the broadcast to streaming readers is not modelled, and the text that notes the cut is a parameter.
- FieldPath.MatchFieldPath: parsing the value found for a field and writing it into the configuration are left out.
- Percona.TunePercona: the settings are numbers rather than text; the tuning of Valkey would add easy members.
