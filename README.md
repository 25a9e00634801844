# Live Solr server checker

A model of `LiveServerChecker`, the background monitor of the Liferay Solr
plugin. The monitor keeps the pool's handles sorted into a **live** list (the
handles that receive queries) and a **dead** list.

- A **check cycle** (`run()`) takes the dead handles followed by the live
  ones. It skips each handle that has no server. It pings every other handle.
  A response with status 0 starts the handle in the pool. Any other status,
  or a ping that throws, kills it.
- **Shutdown** (`shutdown()`) first copies the dead list and then the live
  list into one working list, clearing each pool list after copying it. It
  then kills every handle that has a server and stops that server when it is
  a `StoppableSolrServer`. Last, it cancels the schedule and releases the
  shared HTTP connections.

Modules:

- `ServerPool` (`pool.dfy`) holds the handles and the two lists. It defines
  `MarkLive` and `MarkDead`, the effects of starting and killing a handle.
  It also holds the `SolrServerFactory` class, whose `live` and `dead`
  fields the checker's calls reassign.
- `CallLog` (`call_log.dfy`) holds the ping outcome (`Status(code)` or
  `Fault`) and the calls the checker makes (ping, start, kill, stop, cancel
  the schedule, release the connections).
- `CheckCycle` (`check_cycle.dfy`) gives the calls and the resulting pool of
  one cycle as functions of the list walked and the ping oracle. The lemmas
  about the cycle are here too.
- `ShutdownSpec` (`shutdown_spec.dfy`) does the same for shutdown.
- `LiveServerCheck` (`live_server_checker.dfy`) holds the
  `LiveServerChecker` class. Its `Run` and `Shutdown` methods use `while`
  loops over the list they walk. Their postconditions tie the new pool and
  the ghost call log to the functions above.

Assumptions about code that is not part of this model:

- `SolrServerFactory` is not part of this model. Its `startServer(h)` and
  `killServer(h)` are assumed to work as follows:
  - The handle is appended to the target list unless it is already there.
  - Every occurrence of the handle is removed from the other list.
  - Nothing else changes.
- `getDeadServers()` and `getLiveServers()` are assumed to return the
  pool's backing lists. That is what makes the `clear()` calls in
  `shutdown()` drain the pool.
- `run()` is modelled as walking a fresh copy of `dead + live`. The code
  actually appends into the list `getDeadServers()` returns, and under the
  aliasing assumption above that list is the pool's own dead list. See
  "## Findings".
- The ping is an oracle `Handle -> Outcome`, passed to `Run`. A handle that
  appears twice in one snapshot gets the same outcome both times.
- Handles are compared by value. Their `id` stands for the wrapper object's
  identity.

What shutdown leaves behind, as the code is written:

- Both lists are empty once the drain finishes (line 104, `DrainPool`), but
  not at the end of `shutdown()`. The loop after the drain calls `killServer`
  for every handle with a server. Under the assumed contract, that puts each
  such handle back into the dead list. `TeardownFromDrained` and `Shutdown`
  state the final state: the live list is empty, and the dead list holds
  exactly the collected handles that have a server.
- There is no `try` around `stop()` (line 119), so a failing `stop()` would
  end the teardown early. The model treats `stop()` as a call that never
  fails.

## Model

| member | source | states |
|---|---|---|
| `ServerPool.MarkLive` | docroot/WEB-INF/src/com/liferay/portal/search/solr/server/LiveServerChecker.java:73 | Assumed `startServer` contract: afterwards the handle is live and not dead, every other handle keeps its classification, and starting a handle that is live and not dead changes nothing |
| `ServerPool.MarkDead` | docroot/WEB-INF/src/com/liferay/portal/search/solr/server/LiveServerChecker.java:76-80 | Assumed `killServer` contract: afterwards the handle is dead and not live, every other handle keeps its classification, and killing a handle that is dead and not live changes nothing |
| `ServerPool.MarkLivePartitioned` | docroot/WEB-INF/src/com/liferay/portal/search/solr/server/LiveServerChecker.java:73 | Starting a handle keeps the pool a partition: no duplicates in either list, and no handle in both |
| `ServerPool.MarkDeadPartitioned` | docroot/WEB-INF/src/com/liferay/portal/search/solr/server/LiveServerChecker.java:76-80 | Killing a handle keeps the pool a partition |
| `ServerPool.SolrServerFactory.StartServer` | docroot/WEB-INF/src/com/liferay/portal/search/solr/server/LiveServerChecker.java:73 | The factory's lists after `startServer(h)` are `MarkLive` of the lists before |
| `ServerPool.SolrServerFactory.KillServer` | docroot/WEB-INF/src/com/liferay/portal/search/solr/server/LiveServerChecker.java:76-80 | The factory's lists after `killServer(h)` are `MarkDead` of the lists before |
| `ServerPool.SolrServerFactory.ClearDeadServers` | docroot/WEB-INF/src/com/liferay/portal/search/solr/server/LiveServerChecker.java:97 | `clear()` on the dead list empties the pool's dead list and leaves its live list alone |
| `ServerPool.SolrServerFactory.ClearLiveServers` | docroot/WEB-INF/src/com/liferay/portal/search/solr/server/LiveServerChecker.java:104 | `clear()` on the live list empties the pool's live list and leaves its dead list alone |
| `CheckCycle.Snapshot` | docroot/WEB-INF/src/com/liferay/portal/search/solr/server/LiveServerChecker.java:57-60 | The list a cycle walks has one entry per dead or live entry and holds exactly the handles the pool knows |
| `CheckCycle.CycleCalls` | docroot/WEB-INF/src/com/liferay/portal/search/solr/server/LiveServerChecker.java:63-81 | A handle is pinged iff it is in the snapshot with a server. It is started iff it is also healthy (status 0). It is killed iff its ping gave another status or threw. A null-server handle gets none of these calls, and a cycle never stops, cancels or releases |
| `CheckCycle.CycleMembership` | docroot/WEB-INF/src/com/liferay/portal/search/solr/server/LiveServerChecker.java:63-81 | After a cycle, a snapshot handle with a server is live and not dead iff its ping returned 0, and dead and not live otherwise. Every other handle, including a null-server one, keeps its classification |
| `CheckCycle.FaultIsolation` | docroot/WEB-INF/src/com/liferay/portal/search/solr/server/LiveServerChecker.java:69-81 | A ping that throws yields just "ping, kill" for that entry. The entries before and after make exactly the calls and changes they would make on their own |
| `CheckCycle.CycleOrder` | docroot/WEB-INF/src/com/liferay/portal/search/solr/server/LiveServerChecker.java:62-81 | The handles pinged, and the handles started or killed, are both exactly the snapshot entries with a server, in snapshot order. So there is at most one start/kill per entry |
| `CheckCycle.CycleVisitsDeadThenLive` | docroot/WEB-INF/src/com/liferay/portal/search/solr/server/LiveServerChecker.java:57-62 | Both the ping sequence and the start/kill sequence are the dead list's served handles followed by the live list's |
| `CheckCycle.CyclePreservesPartition` | docroot/WEB-INF/src/com/liferay/portal/search/solr/server/LiveServerChecker.java:57-82 | From a partitioned pool, a cycle leaves the pool partitioned, and the pool afterwards knows exactly the handles it knew before |
| `CheckCycle.CyclePoolKeepsMembers` | docroot/WEB-INF/src/com/liferay/portal/search/solr/server/LiveServerChecker.java:62-81 | From any pool, walking handles the pool knows leaves it knowing exactly the handles it knew before: a start or kill moves a handle between the lists and never adds or drops one |
| `CheckCycle.CycleIdempotent` | docroot/WEB-INF/src/com/liferay/portal/search/solr/server/LiveServerChecker.java:53-86 | From any pool, including one whose lists overlap or repeat a handle, a second cycle with the same ping outcomes leaves both lists exactly as the first cycle left them |
| `CheckCycle.FaultIsolationScenarioCalls` | docroot/WEB-INF/src/com/liferay/portal/search/solr/server/LiveServerChecker.java:62-81 | Three handles whose pings give 0, then a fault, then 1: the log is ping/start for the first, ping/kill for the second, ping/kill for the third |
| `CheckCycle.FaultIsolationScenarioPool` | docroot/WEB-INF/src/com/liferay/portal/search/solr/server/LiveServerChecker.java:62-81 | In that scenario the first handle ends up live only, and the second and third end up dead only |
| `CheckCycle.AliasedRunStart` | docroot/WEB-INF/src/com/liferay/portal/search/solr/server/LiveServerChecker.java:57-60 | With backing-list getters, line 60 leaves the live list as it was and makes the dead list one entry longer per live entry, holding exactly the handles the pool knows; every live handle is then in both lists |
| `CheckCycle.AliasedSnapshotBreaksPartition` | docroot/WEB-INF/src/com/liferay/portal/search/solr/server/LiveServerChecker.java:57-60 | With backing-list getters, any pool with a live handle has that handle in both lists after line 60 |
| `CheckCycle.AliasedCycleBreaksPartition` | docroot/WEB-INF/src/com/liferay/portal/search/solr/server/LiveServerChecker.java:57-81 | With backing-list getters, a live handle without a server is in both lists not only after line 60 but still after the whole cycle, so the pool ends the cycle not partitioned |
| `ShutdownSpec.TeardownCallsExactly` | docroot/WEB-INF/src/com/liferay/portal/search/solr/server/LiveServerChecker.java:106-121 | `killServer` is called for a handle iff it was collected and has a server. `stop()` is called iff it was collected and its server is stoppable. Nothing is pinged or started |
| `ShutdownSpec.ShutdownReleasesOnce` | docroot/WEB-INF/src/com/liferay/portal/search/solr/server/LiveServerChecker.java:123-125 | The schedule is cancelled exactly once, as the next-to-last call. The shared connections are released exactly once, as the last call |
| `ShutdownSpec.TeardownFromDrained` | docroot/WEB-INF/src/com/liferay/portal/search/solr/server/LiveServerChecker.java:106-121 | Killing the collected handles after the drain leaves the live list empty. The dead list holds exactly the collected handles with a server, each once. Null-server handles are dropped from both lists |
| `ShutdownSpec.ShutdownScenario` | docroot/WEB-INF/src/com/liferay/portal/search/solr/server/LiveServerChecker.java:88-126 | Pool A (live, stoppable), B (dead, stoppable), C (live, no server). The calls are kill/stop B, kill/stop A, cancel, release. C gets no call and ends in neither list |
| `LiveServerCheck.LiveServerChecker.constructor` | docroot/WEB-INF/src/com/liferay/portal/search/solr/server/LiveServerChecker.java:39-51 | Keeps the factory reference, with an empty call log and the schedule not cancelled |
| `LiveServerCheck.LiveServerChecker.Run` | docroot/WEB-INF/src/com/liferay/portal/search/solr/server/LiveServerChecker.java:53-86 | The new pool is `Cycle` of the old pool. The calls appended to the log are `CycleLog` of the old `dead + live` snapshot |
| `LiveServerCheck.LiveServerChecker.CheckServer` | docroot/WEB-INF/src/com/liferay/portal/search/solr/server/LiveServerChecker.java:63-81 | For one handle, the new pool is `Step` of the old pool and the log grows by that entry's calls |
| `LiveServerCheck.LiveServerChecker.DrainPool` | docroot/WEB-INF/src/com/liferay/portal/search/solr/server/LiveServerChecker.java:89-104 | Returns the old dead handles followed by the old live handles. Leaves both pool lists empty |
| `LiveServerCheck.LiveServerChecker.Shutdown` | docroot/WEB-INF/src/com/liferay/portal/search/solr/server/LiveServerChecker.java:88-126 | The new pool is `Teardown` of the drained pool over the collected list. The log grows by `ShutdownLog` of that list. The schedule ends cancelled |
| `LiveServerCheck.LiveServerChecker.ReleaseServer` | docroot/WEB-INF/src/com/liferay/portal/search/solr/server/LiveServerChecker.java:107-120 | For one collected handle, the pool is killed-into-dead when the handle has a server. The log grows by kill, then stop when the server is stoppable |

## Left out

- Scheduling: the single-thread executor and the fixed-delay schedule (lines 44-48) are timer and thread machinery. The constructor therefore takes no delay. `shutdownNow()` (line 123) appears only as the `CancelSchedule` call and the ghost `cancelled` flag.
- Registration with `SolrServletContextListener` (line 50) is a process-wide registry side effect.
- The `_log.debug` calls (lines 55, 84) carry no behaviour.
- The ping itself (line 70) is HTTP I/O. It is replaced by the outcome oracle.
- `MultiThreadedHttpConnectionManager.shutdownAll()` (line 125) is a foreign library call. It appears only as the `ReleaseConnections` call.
- `SolrServerFactory`, `SolrServerWrapper` and `StoppableSolrServer` are not part of this model. The pool's contract above is an assumption about them.
- Exceptions other than a failing ping are not modelled. In the code, an exception from `startServer`/`killServer` inside the `try` (lines 73, 76) would also lead to `killServer`. An exception from `stop()` (line 119) would end `shutdown()` early. In the model these calls always succeed.
- Races between an in-flight `run()` and `shutdown()` are not modelled, and neither is `ConcurrentModificationException`. Both are thread interleavings.
- `LiveServerCheck.LiveServerChecker.Run`: walks a fresh copy of `dead + live`. So it does not capture the aliasing in which line 60 appends into the pool's own dead list, nor what happens when that list is changed while it is iterated.

## Findings

| source | as written | input that shows it | evidently intended | confidence | as-written member | corrected member |
|---|---|---|---|---|---|---|
| docroot/WEB-INF/src/com/liferay/portal/search/solr/server/LiveServerChecker.java:57-60 | `run()` calls `addAll` on the list `getDeadServers()` returns. `shutdown()` relies on that list being the pool's backing list (its `clear()` at line 97 drains the pool). Under that contract, line 60 appends every live handle to the pool's dead list. | dead = [B], live = [A]: after line 60 the dead list is [B, A], so A is both live and dead before any ping. If A has no server, the cycle never starts or kills it, and it is still in both lists when the cycle ends | Walk a fresh copy of dead + live and leave the pool's lists alone. The cycle then keeps the pool a partition (`CheckCycle.CyclePreservesPartition`) | low: depends on `SolrServerFactory`, which is not part of this model; not executed | `CheckCycle.AliasedSnapshotBreaksPartition`, `CheckCycle.AliasedCycleBreaksPartition` | `LiveServerCheck.LiveServerChecker.Run` |
