# TopologicalSorting in Dafny

A model of the TopologicalSorting library: a dependency graph of
*processes*, ordered before or after one another, and *resources*, each of
which at most one process may use at a time. Sorting the graph yields an
ordered list of *batches*. The processes of one batch may run in any order
or together. A batch never holds two processes that require a common
resource, and every predecessor sits in an earlier batch than its follower.

The repository carries the library twice: a non-generic copy
(`TopologicalSorting/`, where a process has a `string` name) and a generic
copy (`TopoSort/TopoSort/`, where a process carries a value of type `T`).
Both copies have the same behaviour, and one model serves both. The payload
is the type parameter `T`.

Modules, one per concern of the source:

- `Results`: the two exceptions the library throws, as error values.
  `ArgumentException` from `CheckGraph` is `GraphMismatch`. The
  "Cannot order this set of processes" `InvalidOperationException` is
  `CannotOrder`.
- `Enumerables`: `IsEmpty`.
- `Relations`: updates of the relation maps (`Spread` adds every pair of two
  sets), and what it means for two maps to record one relation from both
  sides.
- `Kahn`: the level-by-level rounds of `CalculateSort` over an abstract
  process type. `Level` is the set a round selects. `Levels` is the whole
  run of the do-while loop. Lemmas cover termination, partition,
  precedence, and failure exactly on an empty graph or a cycle.
- `Schedules`: what a sort must satisfy (`IsSchedule`). It also proves that
  splitting every level into clash-free batches and concatenating the
  splits gives one.
- `ResourceSplit`: `SolveResourceDependencies`, which has the fast path and
  the greedy smallest-agreeable-batch placement.
- `Sorts`: the sort result `TopologicalSort`, with `Append` and the
  flattened process order.
- `Graphs`: the classes `DependencyGraph`, `OrderedProcess` and `Resource`.
  The graph owns all relations, in the maps `predecessors`, `followers`,
  `requirements` and `users`. The mutual recursion `Before`↔`After` and
  `Requires`↔`UsedBy` is kept, with the number of still-missing halves of
  the relation as its termination measure.
- `Extensions`: the group combinators on sequences of processes.
- `Scenarios`: the graphs of the library's tests, with the sorts the model
  admits for them.

Modelling choices:

- .NET `HashSet` iteration order is unspecified. A set of processes is a
  Dafny `set`, and the order in which a level's processes are visited is
  left open. The set of batches `result` is different: it is a sequence in
  the order the batches were created, which is the order .NET's `HashSet`
  enumerates when nothing is removed. `Place` reads it in that order, so
  the tie rule of the smallest-batch fold depends on it. The final
  `foreach` yields it in that order too. `SolveResourceDependencies` is
  specified by what any visiting order guarantees, `GreedySplit`:
  - the batches partition the level;
  - no batch holds two processes that share a resource;
  - every batch after the first was opened by a process that clashed with
    some member of each earlier batch, earlier meaning created earlier.

  The smallest-batch tie-break itself is stated on `Place`.
- The lazy `yield return` sequences are consumed at once by the source, so
  they are modelled as the finished `seq<set<P>>`.
- Exceptions end an operation early. The state changes made before the
  throw stay in place, and the model keeps them too: `CalculateSort`
  appends the levels found before the failing round, and the group forms
  keep the edges added before the first process of another graph.
- On an empty graph the do-while body runs once, finds no process ready,
  and throws. The model does the same (`Scenarios.EmptyGraphCannotOrder`).
  So an empty graph cannot be sorted, although it has no cycle.

## Model

| member | source | states |
|---|---|---|
| Enumerables.IsEmpty | TopologicalSorting/IEnumerableExtensions.cs:18-21 | an enumerable is empty exactly when it has no member; the generic copy, TopoSort/TopoSort/EnumerableExtensions.cs lines 19-21, does the same |
| Kahn.Level | TopologicalSorting/DependencyGraph.cs:74-76 | the set a round selects lies within the unused processes, and none of its members waits on a process that is still unused |
| Kahn.Levels | TopologicalSorting/DependencyGraph.cs:70-86 | the processes left over lie within the graph; when the loop stops with a failure, the next round would select nothing, which is the throw, also on an empty graph; on success nothing is left over and there is at least one level |
| Kahn.LevelsWithin | TopologicalSorting/DependencyGraph.cs:72-81 | each round's level is a nonempty subset of the still-unused processes; the leftover processes are unused and placed in no level |
| Kahn.LevelsDisjoint | TopologicalSorting/DependencyGraph.cs:81 | `ExceptWith` removes each level, so no process lands in two levels |
| Kahn.LevelsCover | TopologicalSorting/DependencyGraph.cs:70-86 | every process of the graph is placed in some level or is left over when the loop stops |
| Kahn.LevelsTermination | TopologicalSorting/DependencyGraph.cs:72-86 | the loop stops on an empty level exactly when the graph is empty or processes are left over; on success there is at least one level; there are never more rounds than processes |
| Kahn.LevelsPartition | TopologicalSorting/DependencyGraph.cs:70-86 | when the loop does not fail, its levels are nonempty, pairwise disjoint, and cover the graph |
| Kahn.LevelsRespectPrecedence | TopologicalSorting/DependencyGraph.cs:75-76 | a predecessor is always placed in a strictly earlier level than its follower |
| Kahn.StuckLeavesBlockedSet | TopologicalSorting/DependencyGraph.cs:78-79 | when a round finds no process ready, every remaining process has a remaining predecessor |
| Kahn.BlockedSetForcesStuck | TopologicalSorting/DependencyGraph.cs:75-79 | a set of processes each waiting on a member of the set is never placed, and the loop fails |
| Kahn.StuckIffCycle | TopologicalSorting/DependencyGraph.cs:72-86 | the sort fails exactly when the graph is empty or a nonempty set of its processes waits on itself (a cycle) |
| Schedules.LevelsSchedule | TopologicalSorting/DependencyGraph.cs:68-89 | splitting every level of a successful run into clash-free batches and appending the splits in order gives a valid schedule: a partition of the processes that respects precedence and is free of resource clashes |
| Schedules.JoinSchedules | TopologicalSorting/DependencyGraph.cs:83-84 | two schedules of disjoint process sets run one after the other form a schedule when nothing in the first waits on the second |
| Schedules.LevelBatchesUnordered | TopologicalSorting/DependencyGraph.cs:75 | any clash-free split of one level is a schedule of it, since no member of a level precedes another |
| Schedules.PartitionBound | TopologicalSorting/DependencyGraph.cs:119-129 | a partition into nonempty batches has at most as many batches as processes |
| Schedules.SingletonPartition | TopologicalSorting/DependencyGraph.cs:100-101 | a level of one process is one batch |
| Schedules.PairPartition | TopologicalSorting/DependencyGraph.cs:111-124 | two processes that share a resource end up in two singleton batches, in either order |
| ResourceSplit.Agreeable | TopologicalSorting/DependencyGraph.cs:111-114 | a batch is agreeable to a process exactly when none of its members shares a resource with it |
| ResourceSplit.FastPath | TopologicalSorting/DependencyGraph.cs:100 | the fast path is taken whenever the graph has no resources or no process of the level requires one; when it is taken and the level's requirements lie among the graph's resources, no process of the level requires any |
| ResourceSplit.Place | TopologicalSorting/DependencyGraph.cs:108-129 | the process joins an agreeable batch of least size, the later one on a tie, when one exists; otherwise it opens a new batch at the end; nothing else changes |
| ResourceSplit.SolveResourceDependencies | TopologicalSorting/DependencyGraph.cs:96-135 | with no resources in the graph, or none required in the level, the level is returned as one batch; otherwise the greedy split is a clash-free partition of the level with at least one batch and no more batches than processes in the level |
| ResourceSplit.GreedyBatches | TopologicalSorting/DependencyGraph.cs:104-133 | the foreach over the level keeps a clash-free partition of the processes seen so far, with each new batch opened by a process that clashed with every earlier batch |
| ResourceSplit.FastPathSplit | TopologicalSorting/DependencyGraph.cs:100-101 | the level returned whole on the fast path has no resource clash |
| ResourceSplit.PlaceKeepsConflictFree | TopologicalSorting/DependencyGraph.cs:111-129 | placing a process in an agreeable batch or a new one keeps every batch clash-free |
| ResourceSplit.PlaceFounds | TopologicalSorting/DependencyGraph.cs:116-121 | a new batch is opened only by a process that clashes with some member of every existing batch |
| ResourceSplit.LaterBatchSharer | TopologicalSorting/DependencyGraph.cs:116-121 | a split with a second batch implies two distinct processes of the level that share a resource |
| ResourceSplit.OnePairTwoBatches | TopologicalSorting/DependencyGraph.cs:108-129 | when one pair of the level shares a resource and no other pair does, the split has exactly two batches |
| ResourceSplit.NoClashOneBatch | TopologicalSorting/DependencyGraph.cs:108-129 | when no two processes of the level share a resource, the split is the level itself |
| ResourceSplit.NoResourcesOneBatch | TopologicalSorting/DependencyGraph.cs:100-101 | a level whose processes require no resource is kept whole |
| ResourceSplit.NoResourcesWholeLevels | TopologicalSorting/DependencyGraph.cs:83-84 | with no resource required anywhere, the sort's batches are exactly the Kahn levels |
| Sorts.EnumerateSet | TopologicalSorting/TopologicalSort.cs:62-67 | a batch's members are listed once each, in an order left open |
| Sorts.TopologicalSort.constructor | TopologicalSorting/TopologicalSort.cs:12-20 | a new sort has no batches; the generic copy, TopoSort/TopoSort/TopologicalSort.cs lines 14-19, does the same |
| Sorts.TopologicalSort.Append | TopologicalSorting/TopologicalSort.cs:32-35 | one batch is added after the others, which are kept as they were; the generic copy, TopoSort/TopoSort/TopologicalSort.cs lines 30-32, does the same |
| Sorts.TopologicalSort.AppendAll | TopologicalSorting/DependencyGraph.cs:83-84 | appending a level's batches in turn adds them, in order, after the existing ones |
| Sorts.TopologicalSort.Processes | TopologicalSorting/TopologicalSort.cs:53-67 | the process enumeration is the batches' members, batch after batch; the generic copy, TopoSort/TopoSort/TopologicalSort.cs lines 50-62, does the same |
| Sorts.Flattens | TopologicalSorting/TopologicalSort.cs:62-67 | enumerating the sort process by process lists as many processes as the batches hold together |
| Sorts.FlattensMembers | TopologicalSorting/TopologicalSort.cs:62-67 | the flattened sequence holds exactly the members of the batches |
| Sorts.FlattensDistinct | TopologicalSorting/TopologicalSort.cs:62-67 | when the batches are disjoint, no process is listed twice |
| Sorts.FlattensOrder | TopologicalSorting/TopologicalSort.cs:62-67 | the flattened sequence lists every predecessor before its follower when the batches do |
| Sorts.ScheduleOrder | TopologicalSorting/TopologicalSort.cs:62-67 | enumerating a sorted graph process by process lists every process exactly once, every predecessor before its followers |
| Graphs.FirstMismatch | TopologicalSorting/DependencyGraph.cs:148-152 | the position of the first process of another graph, before which every process passes the graph check |
| Graphs.AddProcessValid | TopologicalSorting/DependencyGraph.cs:138-141 | registering a new process with empty relations keeps every relation recorded on both sides |
| Graphs.AddResourceValid | TopologicalSorting/DependencyGraph.cs:143-146 | registering a new resource with no users keeps every relation recorded on both sides |
| Graphs.DependencyGraph.constructor | TopologicalSorting/DependencyGraph.cs:10-37 | a new graph has no processes and no resources |
| Graphs.DependencyGraph.AddProcess | TopologicalSorting/DependencyGraph.cs:138-141 | set insertion: the result says whether the process was new; a new one gets empty relations; re-adding changes nothing |
| Graphs.DependencyGraph.AddResource | TopologicalSorting/DependencyGraph.cs:143-146 | the same for resources |
| Graphs.DependencyGraph.CalculateSort | TopologicalSorting/DependencyGraph.cs:68-89 | succeeds exactly when the loop never finds an empty level, returning the same instance; fails with `CannotOrder` otherwise; either way the instance's earlier batches stay in front, followed by the splits of the levels found; on success the appended batches are a valid schedule of the graph |
| Graphs.DependencyGraph.CalculateNewSort | TopologicalSorting/DependencyGraph.cs:58-61 | sorting into a fresh solution yields exactly the appended batches, and a valid schedule on success |
| Graphs.SortFromGraph | TopologicalSorting/TopologicalSort.cs:26-30 | a sort built from a graph holds the graph's sort; the generic copy, TopoSort/TopoSort/TopologicalSort.cs lines 25-28, does the same |
| Graphs.OrderedProcess.constructor | TopologicalSorting/OrderedProcess.cs:72-78 | a new process is registered in its graph with no relations; nothing else changes; the generic copy, TopoSort/TopoSort/OrderedProcess.cs lines 19-24, does the same, carrying its value |
| Graphs.OrderedProcess.Before | TopologicalSorting/OrderedProcess.cs:87-95 | a follower of another graph fails with `GraphMismatch` before any change; otherwise the edge is recorded on both sides, only the two endpoints' sets change, re-declaring an edge changes nothing, and the follower is returned; the generic copy, TopoSort/TopoSort/OrderedProcess.cs lines 101-109, does the same |
| Graphs.OrderedProcess.After | TopologicalSorting/OrderedProcess.cs:125-133 | the mirror image of `Before`, returning the predecessor; the generic copy, TopoSort/TopoSort/OrderedProcess.cs lines 140-148, does the same |
| Graphs.OrderedProcess.BeforeAll | TopologicalSorting/OrderedProcess.cs:102-118 | applies `Before` to each follower in order and returns them; the edges to the followers before the first one of another graph are kept, and that one fails; the generic copy, TopoSort/TopoSort/OrderedProcess.cs lines 116-133, does the same |
| Graphs.OrderedProcess.AfterAll | TopologicalSorting/OrderedProcess.cs:140-156 | the mirror image of `BeforeAll`; the generic copy, TopoSort/TopoSort/OrderedProcess.cs lines 155-172, does the same |
| Graphs.OrderedProcess.Requires | TopologicalSorting/OrderedProcess.cs:165-171 | a resource of another graph fails with `GraphMismatch` before any change; otherwise the use is recorded on both sides, and repeating it changes nothing; the generic copy, TopoSort/TopoSort/OrderedProcess.cs lines 35-41, does the same |
| Graphs.Resource.constructor | TopologicalSorting/Resource.cs:37-43 | a new resource is registered in its graph with no users; nothing else changes; the generic copy, TopoSort/TopoSort/Resource.cs lines 28-33, does the same |
| Graphs.Resource.UsedBy | TopologicalSorting/Resource.cs:51-57 | the mirror image of `Requires`; the generic copy, TopoSort/TopoSort/Resource.cs lines 58-64, does the same |
| Graphs.Resource.UsedByAll | TopologicalSorting/Resource.cs:63-76 | applies `UsedBy` to each process in order, stopping at the first of another graph; the generic copy, TopoSort/TopoSort/Resource.cs lines 70-82, does the same |
| Graphs.ProcessEquals | TopoSort/TopoSort/OrderedProcess.cs:186-196 | two missing processes are equal and a missing one equals no present one; two present processes are equal exactly when the payload comparer says their values are |
| Graphs.ProcessEqualsEquivalence | TopoSort/TopoSort/OrderedProcess.cs:186-196 | the process comparer is an equivalence when the payload comparer is one, and a missing process equals only a missing one |
| Extensions.FirstMismatchAll | TopologicalSorting/DependencyGraph.cs:148-152 | the graph check passes for a whole sequence exactly when all its processes lie in the graph |
| Extensions.AfterOne | TopologicalSorting/IEnumerableExtensions.cs:29-34 | each follower is ordered after the predecessor, which is returned; succeeds exactly when all lie in one graph; the generic copy, TopoSort/TopoSort/EnumerableExtensions.cs lines 29-34, does the same |
| Extensions.BeforeOne | TopologicalSorting/IEnumerableExtensions.cs:67-72 | each predecessor is ordered before the follower, which is returned; succeeds exactly when all lie in one graph; the generic copy, TopoSort/TopoSort/EnumerableExtensions.cs lines 68-73, does the same |
| Extensions.AfterEach | TopologicalSorting/IEnumerableExtensions.cs:42-59 | every pair of predecessor and follower is ordered and the predecessors are returned; succeeds exactly when one side is empty or all lie in one graph; with no followers nothing changes; the generic copy, TopoSort/TopoSort/EnumerableExtensions.cs lines 42-60, does the same |
| Extensions.BeforeEach | TopologicalSorting/IEnumerableExtensions.cs:80-97 | the same pairs recorded the other way round, returning the followers; with no predecessors nothing changes; the generic copy, TopoSort/TopoSort/EnumerableExtensions.cs lines 81-99, does the same |
| Scenarios.ChainSort | TopoSort.Testing/TopoSort.Testing/Ordering.cs:43-89 | A before B before C sorts into `{A}`, `{B}`, `{C}` |
| Scenarios.LinkChain | TopoSort.Testing/TopoSort.Testing/Ordering.cs:77 | `a.Before(b).Before(c)` on three unrelated processes records exactly the chain and keeps the graph valid |
| Scenarios.BuildAndSortChain | TopoSort.Testing/TopoSort.Testing/Ordering.cs:70-89 | a chain built with the constructors and `Before` sorts successfully into `{A}`, `{B}`, `{C}` |
| Scenarios.DiamondSort | TopoSort.Testing/TopoSort.Testing/Ordering.cs:16-37 | A before B1 and B2, both before C, sorts into `{A}`, `{B1, B2}`, `{C}` |
| Scenarios.TwoCycleCannotOrder | TopoSort.Testing/TopoSort.Testing/Ordering.cs:153-163 | A before B and B before A cannot be sorted |
| Scenarios.SelfEdgeCannotOrder | TopologicalSorting/OrderedProcess.cs:87-95 | a process ordered before itself is never placed, and the sort fails |
| Scenarios.EmptyGraphCannotOrder | TopologicalSorting/DependencyGraph.cs:72-79 | a graph with no processes cannot be sorted |
| Scenarios.ForkSort | TopoSort.Testing/TopoSort.Testing/Resources.cs:15-44 | A before B and C, which share a resource: three singleton batches, A first |
| Scenarios.BranchingSort | TopoSort.Testing/TopoSort.Testing/Resources.cs:82-111 | the branching graph with C1 and C3 sharing a resource: five batches, A first, D last, C1 never with C3 |
| Scenarios.ComplexBranchingSort | TopoSort.Testing/TopoSort.Testing/Ordering.cs:116-147 | the branching graph without resources sorts into `{A}`, `{B1, B2}`, `{C1..C4}`, `{D}` |
| Scenarios.BranchingLoopCannotOrder | TopoSort.Testing/TopoSort.Testing/Ordering.cs:95-110 | closing the branching graph with D before B1 makes the sort fail |

## Left out

- The `DependencyGraph<T>` class of the generic copy is not part of this
  model. The non-generic `DependencyGraph` is modelled, and the generic
  classes above are modelled as running against it.
- The `DependsOn` attribute and the `TopoSort()` extension are left out:
  they build a graph from runtime types by reflection.
- `OrderedProcessComprarer.GetHashCode` is left out: it calls the payload's
  own hash function, which is not visible.
- `ToString` overrides and exception message texts are left out: they are
  string formatting only.
- The concrete iteration order of .NET `HashSet` is left out. It is
  unspecified, so the order of processes inside a level and the order in
  which the greedy split visits them are left open. The batches of the
  split are the exception; see `ResourceSplit.Place` below. The graph's `Processes` and `Resources`
  enumerations and `ProcessCount` are the fields `processes` and
  `resources` themselves.
- Enumerator objects (`GetEnumerator`, the untyped enumerator, lazy LINQ
  re-evaluation) are left out as plumbing. The batch enumeration is the
  field `batches`, and the process enumeration is `Processes`.
- The generic group forms copy their argument to an array before the loop.
  Sequences are values in Dafny, so that copy has no counterpart.
- ResourceSplit.Place: reads `result` in creation order (what .NET's
  HashSet does when nothing is removed); the tie rule rests on that. The
  batches are also yielded in creation order. `FoundedBy`, where each
  batch's founder clashes with every earlier batch, rests on that too. An
  enumeration of `result` in any other order is not modelled.
- ResourceSplit.SolveResourceDependencies: does not state which batch comes
  first in the result, because that depends on the order in which the
  level's processes are visited, which is left open.
- Graphs.DependencyGraph.CalculateSort: states the fast path per level only
  through `SolveResourceDependencies`, not again in its own contract.
- Extensions.AfterEach: does not state the edges left behind when it fails
  part way. A failure throws, and the partial edges depend on which
  predecessor was reached first.
- Extensions.BeforeEach: does not state the edges left behind when it fails
  part way, for the same reason.
