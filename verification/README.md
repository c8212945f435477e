# Verified model of the parallel maximal clique enumeration

A Dafny model of a program that lists all maximal cliques of a graph with a parallel Bron-Kerbosch
search over hand-written sets, and proofs that the search is right. The model follows the source in
its own form: the unrolled list, the hopscotch table, the hash set, the graph with its bucket queue,
the memory chunk, the graph guard and the search task are classes that change in place. The scheduler
is a state machine in which any task that is ready may take the next step.

`dafny verify dfyconfig.toml` checks everything.

## The main results

* `Enumeration.EnumerateCliques` is the whole program on a list of edges: reading, hashing, ordering, any
  schedule over any number of workers, the reference counts of the graphs, and merging, in the scalar
  and in the vector build, without the memory pool. For every vertex order, threshold, subgraph mode
  (0, 1, 2) and size limit, if it completes, the histogram lists just the sizes k of maximal cliques, each with
  their number, and with the degeneracy order the leaf calls are at most n * m with m^3 <= 3^d, where no order of
  the vertices has a smaller d; the whole graph is still there, and every subgraph has been destroyed
  exactly once, unless the mode is 2 and some clique is larger than the limit. It has three other ends.
  - `AssertionFailed`: if and only if the order is the degeneracy order and there are only loops.
  - `GraphLost`: a task needs the whole graph after its destruction, or the program gives back its guard
    once more. Once the graph has been read, this happens if and only if the mode is 1, the limit is 0 or
    1, and some edge is no loop. The condition comes out of the executions: the tasks hold the guards.
  - `TableFailed`: a key could not be inserted, and there are tables in which its displacements got stuck,
    ten of them or one and a table that has reached 2^30 slots; or some list is longer than 2^29; or, on the
    vector build, the memory behind a table has made a lookup go wrong. This cannot happen when no vertex
    has more than fifteen neighbours and no list is longer than 2^29.
* `PoolRuns` proves this about the task pool as a state machine: safety at every moment, exactly once
  at rest, the same answer for every configuration, no deadlock, termination, and both bounds.
  `Search.MainBKTask.Execute` proves that the imperative task takes exactly the steps of that machine, and
  that what it does to the guards of the graphs are moves of the machine of `GraphGuards`.
* `CliqueBound` and `LeafBound` prove the 3^(n/3) bound on the leaf calls from the choice of the pivot.
* `Degeneracy` and `Graphs.Graph.DegeneracyOrdering` prove the bucket queue and the optimality of the order;
  `Roots` proves what the degree orders mean, and a bound for the ascending one.
* `Subgraphs`, `Pruning` and `Graphs.Graph.CreateHpxSubgraph` prove that the search cannot tell a pruned
  subgraph (or a subgraph of one) from the whole graph.
* `Hopscotch`, `HashTables`, `HashSets`, `HashUniformity`, `UnrolledLists` prove the containers, the scalar and
  the vector versions, and `SetBuilds` puts the two builds behind one contract. `GraphGuards`, `GuardRuns`,
  `GuardVerdicts`, `GuardLeaks`, `MemChunks` and `PooledSets` prove the memory protocols, the former four in
  every interleaving of single operations on the guards, and `GuardObjects` ties them to the tasks.

How the layers meet: a hash set is a list of keys or a set of keys (`HashSets`), `VertexSets` reads it as a set of
vertices, `Search` runs on these objects with contracts that are the relations of `TaskPool` and `GraphGuards`,
and `Enumeration` keeps the heap in step with a run of `PoolRuns` and with one of `GraphGuards`.

## Where the code does not do what one would expect

The model keeps the code as it is, and the conditions given here are proved.

* **Vector lookup.** When the second load starts exactly at the capacity, it reads one lane behind the
  padding (`include/SimpleHashTable.h:127-128`). `ContainsVector` is right if and only if it is not the case that
  the key is absent and `StrayHit` holds: its home is 16 slots before the end, the 16 slots are full, and
  the lane behind the padding happens to hold the key. `StrayHitHappens` gives such a table. The end-to-end
  result for the vector build holds for any memory behind the tables, up to the first lookup of this kind.
* **Vector removal.** `find_element` also looks at the stale lanes of the tail bucket (`src/UnrolledList.cpp:56-68`).
  `RemoveVector` has the exact condition, and `StaleLaneMisleads` an input that loses an element. It is right
  whenever the key is present, as in every call of the search.
* **Size limit.** `--max-clq` is compared with an unsigned size (`src/BronKerboschTBB.cpp:188`): a negative limit never
  cuts, and 0 acts like 1. A limit of k >= 1 gives exactly the maximal cliques of size at most k, if the
  program completes; in mode 1 it does not for k = 1 and a graph with an edge, as follows.
* **Graph guards with a size limit.** In mode 1 a root that is cut off gives back the guard of the whole
  graph (`src/BronKerboschTBB.cpp:139`). All graphs are there whenever a task needs them, in all runs, if and only
  if it is not the case that the mode is 1, the limit is 0 or 1, and the graph has an edge
  (`NoUseAfterReleaseExactly`); `UseAfterRelease` gives the run that fails. In that case no schedule of the
  program completes: at the latest it deletes its own guard a second time (`src/BronKerboschTBB.cpp:286`), and
  `EnumerateCliques` answers `GraphLost`.
* **Leaked subgraphs.** In mode 2 a child that is cut off never gives back its parent's guard. With a threshold
  of at most 1 a finished run leaks a subgraph if and only if the limit is at least 2 and some clique is
  larger (`LeaksExactly`). For larger thresholds a clique of limit + threshold vertices makes every finished
  run leak (`LargeCliqueLeaks`), and no run leaks unless a clique of exactly the limit's size has as many
  common neighbours as the threshold (`LeaksOnlyCrowded`).
* **Thresholds.** Sets from a task's pool reach another task in some search if and only if `--mem-thresh` is
  more than one above `--thresh` (`EscapeCondition`); the defaults 20 and 30 are safe.
* **Empty reservations.** `hashSet` reserves a table for no elements when a list is empty, and the shift in
  `reserve` is then undefined (`include/SimpleHashTable.h:79`). The model gives such a table no slots.
* **Subgraph modes.** `subgraphBased == 0` in `src/main.cpp:83` compares where it should assign, so modes beyond 2 get
  through. They are not part of this model.
* **The last reference.** `dec_graph_ref_count` deletes the guard while its own lock is held
  (`src/BKTask.cpp:17-28`). Locks are not part of this model.
* **Widest table.** The signed shift in `reserve` (`include/SimpleHashTable.h:79`) makes 2^30 slots the widest table, so
  a reservation works if and only if it is for at most 2^29 elements.
* **Large requests.** The 32-bit mask in `get_address` (`include/MemChunk.h:30-31`) makes the region smaller than the
  request if and only if the request is larger than 2^32 - 64.
* **Loops only.** With the degeneracy order and edges that are all loops the buckets have size 0 and the
  program's own assertion fails (`src/Graph.cpp:81-87`). `EnumerateCliques` answers `AssertionFailed`
  if and only if this is so.
* **Header row.** `if(nodeNo = -1)` (`src/Graph.cpp:141`) is an assignment, so the number of vertices is always
  the number of end points read; the model takes it from there.

## What the model assumes

The hash parameters are any odd multiplier and any offset. A clash with the two reserved key values is
excluded by the type `Key`. `exit(1)` and a table that cannot grow are an answer `ok == false`, with the
table that caused it. The addresses that the system allocator answers, and the memory behind a
table, are arbitrary. On the vector build the model stops, with `ok == false`, at the first lookup of a
listed key that the memory behind the table alone makes go wrong. A guard whose graph has been destroyed
keeps a null graph; the model stops, with `lost`, at the first task that would work on such a graph or give
it back, since what the program does with freed memory is undefined.

## Model

| member | source | states |
|---|---|---|
| `Enumeration.EnumerateCliques` | src/main.cpp:86-110 | in both builds, without the memory pool, for every order, threshold, mode 0 to 2, limit and schedule: a completed run lists just the sizes of maximal cliques of the graph of the edges, each with its number, is a run of the task pool with the given threshold, limit and number of workers and in the order that the option promises, and of the guard protocol in the given mode with tasks of the given build, stays within the bound on the leaf calls, and has destroyed each subgraph once outside the leaks of mode 2; it fails an assertion exactly for loops only with the degeneracy order, works on the destroyed whole graph, once that is read, exactly in mode 1 with a limit of 0 or 1 and an edge that is no loop, and otherwise fails only with an outgrown table or a misled vector lookup to show, never with at most fifteen neighbours per vertex |
| `Enumeration.LoopsGiveNoDegree` | src/Graph.cpp:81-87 | no vertex has a neighbour, and the graph no edge, if and only if all edges are loops |
| `Enumeration.RunPool` | src/BronKerboschTBB.cpp:281-287 | whatever task and worker are picked, the objects follow a run of the task pool until it rests, and the cliques and leaf calls of the workers are those of the run, and the tasks and guards those of a finished run of the guard protocol; it works on a destroyed graph if and only if some run of the guard protocol does, which is if and only if the mode is 1, the limit 0 or 1, and the graph has an edge |
| `Enumeration.RunOne` | src/BronKerboschTBB.cpp:78-144 | a turn of any task continues the run of the task pool and that of the guard protocol; every guard goes on counting the tasks that hold it, and has its graph exactly while there are any |
| `Enumeration.OneStep` | src/BronKerboschTBB.cpp:78-129 | one execution of any task by any worker is one step of the pool and some moves of the guard protocol, and tasks stay apart in memory |
| `Enumeration.FinishOne` | src/BronKerboschTBB.cpp:131-144 | a continuation is one step of the guard protocol and none of the task pool |
| `Enumeration.ExecuteAt` | src/BronKerboschTBB.cpp:126-128 | an execution changes one task, one worker and one guard; a child joins the pool with memory of its own |
| `Enumeration.GraphIsThere` | src/BronKerboschTBB.cpp:194-214 | at every turn of every schedule the graph that the task needs exists, outside mode 1 with a limit of 0 or 1 and an edge |
| `Enumeration.LastMayStep` | src/BronKerboschTBB.cpp:131-144 | as long as a task has not finished, the last such task may be picked |
| `Enumeration.EndsCleanly` | src/BronKerboschTBB.cpp:285-286 | at the end the whole graph is there, with one reference, outside the case above, and each subgraph has been destroyed once outside the leaks of mode 2 |
| `Enumeration.SpawnRoots` | src/BKTask.cpp:36-47 | one root task per vertex in the vertex order, sharing no memory; in the degeneracy order P is the neighbours listed after the vertex and X those before it |
| `Enumeration.Load` | src/Graph.cpp:120-158 | the graph read is the simple graph of the edges, hashed, with its vertices and their positions listed once and each proper edge counted twice; it fails only on an outgrown table |
| `Enumeration.PrepareOrder` | src/main.cpp:95-100 | the degeneracy order always takes a vertex of least remaining degree, with its position, and is optimal; in the degree order every later neighbour has at least as many neighbours, in the inverse order at most as many, and among equals the larger number |
| `Enumeration.MergedIsExact` | src/Graph.cpp:163-174 | the merged histogram of a run at rest lists just the sizes of maximal cliques, each with their number, and its total is their number |
| `PoolRuns.ExactlyOnce` | src/BronKerboschTBB.cpp:86-276 | at rest every maximal clique within the limit has been stored exactly once, the merged counts agree, and the workers list just the sizes that occur |
| `PoolRuns.NothingElseStored` | src/BronKerboschTBB.cpp:86-276 | at every moment nothing is stored twice and nothing but maximal cliques |
| `PoolRuns.RunInv` | src/BronKerboschTBB.cpp:86-276 | along every run: stored cliques and those of the pending tasks partition all maximal cliques, and the weights bound the steps and leaves |
| `PoolRuns.StepInv` | src/BronKerboschTBB.cpp:86-276 | one execution keeps the partition, lowers the weight and stays within the leaf budget |
| `PoolRuns.ConfigurationIndependent` | src/BronKerboschTBB.cpp:59-75 | two runs at rest with any schedules, workers, thresholds and vertex orders have the same result |
| `PoolRuns.Progress` | src/BronKerboschTBB.cpp:86-129 | whichever pending task and worker are picked, an execution is possible |
| `PoolRuns.Completes` | src/BronKerboschTBB.cpp:86-276 | every run extends to one at rest |
| `PoolRuns.RunBounds` | src/BronKerboschTBB.cpp:86-276 | with at most d later neighbours per vertex a run has at most n(2^(d+1) - 1) executions and n m leaf calls, m^3 <= 3^d |
| `PoolRuns.DegreeOrderBounds` | src/BronKerboschTBB.cpp:61-70 | in the degree order these bounds hold for d the square root of the sum of all degrees |
| `PoolRuns.CliquesOfGraph` | src/BronKerboschTBB.cpp:52-76 | a graph with such an order has at most n m maximal cliques |
| `PoolRuns.RootTargets` | src/BKTask.cpp:42-43 | the root tasks together are responsible for the cliques rooted at their vertices |
| `TaskPool.ExecutionAccounts` | src/BronKerboschTBB.cpp:86-129 | one execution hands its responsibility on without loss or overlap, lowers the weight, and pays for its leaves |
| `TaskPool.IterationAccounts` | src/BronKerboschTBB.cpp:233-276 | the same for one candidate |
| `TaskPool.StartAccounts` | src/BronKerboschTBB.cpp:167-229 | the same for the beginning of a call and its first candidate |
| `TaskPool.PivotSurvives` | src/BronKerboschTBB.cpp:244-252 | the candidates left are always the current P minus the pivot's neighbours, even when the pivot has moved to X, and when none is left nothing is left to report |
| `TaskPool.LoopBudget` | src/BronKerboschTBB.cpp:211-226 | a best pivot leaves so few candidates that their budgets fit into that of the call |
| `TaskPool.EnteredOrLooping` | src/BronKerboschTBB.cpp:86-129 | a first execution is its start followed by the iteration on its first candidate |
| `Cliques.MaximalMeansInclusionMaximal` | src/BronKerboschTBB.cpp:169-179 | no common neighbour means maximal under inclusion |
| `Cliques.BranchSteps` | src/BronKerboschTBB.cpp:244-252 | descending on a vertex of P, and moving it from P to X, keep R a clique and P and X a partition of its common neighbourhood |
| `Cliques.BranchSplits` | src/BronKerboschTBB.cpp:244-252 | the cliques of a branch are those of the child and those left after the move, disjointly |
| `Cliques.PivotExhausts` | src/BronKerboschTBB.cpp:211-226 | when P holds only neighbours of the pivot nothing is left to report |
| `Cliques.LeafFamily` | src/BronKerboschTBB.cpp:169-185 | with P empty, R is reported exactly when X is empty |
| `Cliques.CutOffFamily` | src/BronKerboschTBB.cpp:188 | a branch that the size limit cuts off holds no clique within the limit |
| `Roots.RootIsBranch` | src/BronKerboschTBB.cpp:52-76 | the lists of a root task split the neighbourhood of its vertex |
| `Roots.LeastExists` | src/BronKerboschTBB.cpp:61-70 | each vertex order is strict and total: every clique has a least vertex |
| `Roots.OrderMeans` | src/BronKerboschTBB.cpp:61-70 | the later and earlier neighbours of a vertex, by positions; by ascending and by descending degrees, where among equals the later one has the larger number |
| `Roots.FewLaterByDegree` | src/BronKerboschTBB.cpp:61-70 | in the degree order the square of the number of later neighbours is at most the sum of all degrees |
| `Roots.RootedAtLeast` | src/BronKerboschTBB.cpp:52-76 | a maximal clique lies below a root if and only if that is its least vertex |
| `Roots.AllRooted` | src/BKTask.cpp:39-47 | the roots together cover all maximal cliques |
| `LeafBound.Branching` | src/BronKerboschTBB.cpp:211-226 | k children of size at most p - k stay within the budget of p |
| `LeafBound.MaxLeavesIsFloor` | src/BronKerboschTBB.cpp:167-229 | the budget is the largest m with m^3 <= 3^p |
| `LeafBound.CubeBelowPow3` | src/BronKerboschTBB.cpp:167-229 | k^3 <= 3^k |
| `CliqueBound.ListBranch` | src/BronKerboschTBB.cpp:147-163 | every branch can be listed, each clique once, within its budget |
| `CliqueBound.CliquesOfBranch` | src/BronKerboschTBB.cpp:147-163 | the cube of the number of cliques of a branch is at most 3^P |
| `Histograms.MergeHistograms` | src/Graph.cpp:163-174 | the merged histogram lists the sizes that some worker lists, with the sums over the workers, and the total is the sum of the counts |
| `Histograms.SizesThatOccur` | src/BronKerboschTBB.cpp:171-177 | the sizes counted in a log are those of its cliques |
| `Histograms.OnceEachCounts` | src/BronKerboschTBB.cpp:171-177 | when each clique of a family is stored once, the count at k is the number of cliques of size k |
| `Histograms.TotalIsLength` | src/Graph.cpp:166-170 | the total of a histogram is the number of cliques it describes |
| `Workers.Worker.Report` | src/BronKerboschTBB.cpp:171-178 | the histogram of the worker goes on listing just the sizes of the cliques it stored, each with their number |
| `Search.MainBKTask.Execute` | src/BronKerboschTBB.cpp:78-129 | the imperative execution of a task on its lists is an execution of the task pool, with the cliques and leaves credited to the worker; and its increments, decrements and new guards are moves of the guard protocol |
| `Search.MainBKTask.Continuation` | src/BronKerboschTBB.cpp:131-144 | the continuation gives back the guard in mode 1, unless the task had no vertices to add |
| `Search.MainBKTask.SwitchGuard` | src/BronKerboschTBB.cpp:199-207 | a new subgraph gets a guard with one reference, and a child task in mode 2 gives back the one it came with |
| `Search.MainBKTask.LeaveGraph` | src/BronKerboschTBB.cpp:182-184 | a task that has no vertices to add has no graph of its own, and a child task in mode 2 gives back the guard |
| `Search.MainBKTask.FinishLoop` | src/BronKerboschTBB.cpp:112-124 | after its last candidate a task becomes a continuation, and in mode 2 gives back the guard of its subgraph |
| `Search.MainBKTask.SpawnChild` | src/BronKerboschTBB.cpp:269-272 | a child task has its own copy of R and shares the guard, which counts it in mode 2 |
| `Search.MainBKTask.Root` | include/BKTask.h:135-144 | a root task is responsible for its vertex with its later and earlier neighbours |
| `Search.MainBKTask.Child` | include/BKTask.h:122-133 | a child task takes over the branch it is given |
| `Search.MainBKTask.BuildRoot` | src/BronKerboschTBB.cpp:88-92 | the first execution of a root builds R, P and X for its branch |
| `Search.MainBKTask.CreateRootSets` | src/BronKerboschTBB.cpp:52-76 | P is the later and X the earlier neighbours under each of the three orders |
| `Search.MainBKTask.ComesLater` | src/BronKerboschTBB.cpp:61-70 | later means a larger position, at least as many neighbours in the degree order, at most as many in the inverse one, and among equals the larger number; not later means the converse |
| `Search.MainBKTask.StartTask` | src/BronKerboschTBB.cpp:167-229 | a call ends with a report exactly if P and X are empty, ends at the limit, or lists P minus the neighbours of a best pivot, in a graph that serves the branch; only the first call of a task touches its guard |
| `Search.MainBKTask.EndsHere` | src/BronKerboschTBB.cpp:168-188 | the test for an empty P comes before the size limit |
| `Search.MainBKTask.ChoosePivot` | src/BronKerboschTBB.cpp:193-215 | in every subgraph mode the pivot is a best one of the whole graph, and the graph chosen serves the branch |
| `Search.MainBKTask.SubgraphFor` | src/BronKerboschTBB.cpp:197-213 | the new subgraph serves the branch and its recorded pivot is a best one |
| `Search.MainBKTask.PivotFor` | src/BronKerboschTBB.cpp:214 | scoring through a graph that serves the branch finds a best pivot of the whole graph |
| `Search.MainBKTask.LoopIteration` | src/BronKerboschTBB.cpp:233-276 | one candidate: the child gets P and X restricted to its neighbours, it moves from P to X, and R and the task level are restored |
| `Search.MainBKTask.SplitOff` | src/BronKerboschTBB.cpp:244-252 | the two intersections and the move, on the lists |
| `Search.MainBKTask.DescendOn` | src/BronKerboschTBB.cpp:254-275 | below the threshold the child is run here, otherwise, and only then, a new task owns it |
| `Search.MainBKTask.DescendSequentially` | src/BronKerboschTBB.cpp:256-266 | R grows by the vertex for the call and is restored on every path |
| `Search.MainBKTask.SequentialRun` | src/BronKerboschTBB.cpp:147-163 | the whole subtree is reported to this worker, each clique once, within the leaf budget, without new tasks |
| `Search.MainBKTask.RunCandidates` | src/BronKerboschTBB.cpp:154-157 | the loop over the candidates reports exactly what the loop is responsible for |
| `Search.MainBKTask.OneCandidate` | src/BronKerboschTBB.cpp:104-112 | the iterator hands out the next candidate and knows when it was the last |
| `Search.MainBKTask.Begin` | src/BronKerboschTBB.cpp:94-124 | a first execution ends, finds no candidate, or is left with its candidates queued |
| `Search.ListPivotIsBest` | src/BronKerboschTBB.cpp:211-215 | the best vertex of the lists in a serving graph is a best pivot of the branch |
| `Search.CandidateStep` | src/BronKerboschTBB.cpp:244-276 | P plus X keeps its size over an iteration, and once sequential always sequential |
| `VertexSets.Restrict` | src/BronKerboschTBB.cpp:246-248 | intersecting with an adjacency set restricts the set of vertices |
| `VertexSets.Without` | src/BronKerboschTBB.cpp:226 | excluding an adjacency set removes it |
| `VertexSets.Delete` | src/BronKerboschTBB.cpp:251 | in both builds, deleting the candidate from P removes just that vertex |
| `VertexSets.TakeNext` | src/BronKerboschTBB.cpp:104 | the iterator hands out each waiting candidate once |
| `VertexSets.AtLast` | src/BronKerboschTBB.cpp:109 | the end test is true exactly when no candidate waits |
| `VertexSets.CopyAndPush` | src/BronKerboschTBB.cpp:269-270 | the copy of R holds R and the vertex and shares no memory |
| `Subgraphs.SameAnswers` | src/BronKerboschTBB.cpp:244-248 | every intersection and difference through a serving graph is that of the whole graph |
| `Subgraphs.ServesBelow` | src/BronKerboschTBB.cpp:233-276 | a graph that serves a branch serves everything below it |
| `Subgraphs.PrunedServes` | src/Graph.cpp:18-63 | dropping the edges inside X is invisible, also for a subgraph of a subgraph |
| `Subgraphs.PrunedEdges` | src/Graph.cpp:18-63 | the subgraph of a branch has all edges of the whole graph between P and P or X, and none inside X |
| `Graphs.Graph.AddEdge` | include/Graph.h:94-103 | both end points become vertices, each in the other's list unless it is a loop; the edge count and the greatest list length follow |
| `Graphs.Graph.HashAll` | src/Graph.cpp:152-157 | every adjacency set is hashed and holds the set of its list |
| `Graphs.Graph.LoadEdges` | src/Graph.cpp:120-158 | the finished graph is the graph of the edges, every vertex has its position, and each proper edge is counted twice |
| `Graphs.Graph.GetPivot` | src/Graph.cpp:65-76 | the vertex of P or X with the most neighbours in P; -1 only for an empty P |
| `Graphs.Graph.SetAdjacentNodes` | include/Graph.h:105-109 | the list becomes the adjacency list, and the counts follow |
| `Graphs.Graph.CreateHpxSubgraph` | src/Graph.cpp:18-63 | the hashed graph on P and X without the edges inside X, and its pivot |
| `Graphs.Graph.DegeneracyOrdering` | src/Graph.cpp:79-118 | a permutation with its inverse that always takes a vertex of least remaining degree, at most d later neighbours each, and no order of the graph does better |
| `Graphs.Graph.FillBuckets` | src/Graph.cpp:84-90 | each vertex lies in exactly the bucket of its degree |
| `Graphs.Graph.RemoveLeast` | src/Graph.cpp:93-111 | the first non-empty bucket gives a vertex of least remaining degree, and all recorded degrees are exact again |
| `Graphs.Graph.StrikeNeighbours` | src/Graph.cpp:103-111 | after the loop every remaining vertex is recorded with its number of remaining neighbours |
| `Degeneracy.StrikeOne` | src/Graph.cpp:104-110 | a neighbour that is still in its bucket has a positive recorded degree, so none is lost |
| `Degeneracy.FirstBucketIsLeast` | src/Graph.cpp:93-96 | a vertex of the first non-empty bucket has least remaining degree |
| `Degeneracy.CoreForcesLater` | src/Graph.cpp:79-118 | in every order some vertex of a d-core has d later neighbours |
| `Degeneracy.CoreIsOptimal` | src/Graph.cpp:101 | the vertices left at the step that set the maximum show that no order does better |
| `Degeneracy.AllPlaced` | src/Graph.cpp:92-118 | when all vertices are placed the order is a permutation with its inverse that always takes a vertex of least remaining degree and meets the bound |
| `EdgeLists.OneMoreEdge` | include/Graph.h:94-103 | adding an edge to lists that represent some edges represents one more, in membership and in length |
| `EdgeLists.ListsGiveGraph` | src/Graph.cpp:152-157 | lists that represent the edges give the simple graph of the edges once duplicates go |
| `Pruning.StepPartOf` | src/Graph.cpp:46-52 | one edge back from P to X |
| `Pruning.EndX` | src/Graph.cpp:35-53 | the filled lists are those of the pruned subgraph |
| `AdjacencyMaps.HashOne` | src/Graph.cpp:154-157 | hashing one adjacency set leaves the others alone |
| `UnrolledLists.UnrolledList.PushBack` | src/UnrolledList.cpp:4-19 | appends |
| `UnrolledLists.UnrolledList.PopBack` | src/UnrolledList.cpp:29-44 | drops the last element, across bucket boundaries |
| `UnrolledLists.UnrolledList.Remove` | src/UnrolledList.cpp:22-27 | the last element takes the place of the first occurrence; nothing happens to an absent key |
| `UnrolledLists.UnrolledList.FindElement` | src/UnrolledList.cpp:70-82 | the bucket and lane of the first occurrence, or none |
| `UnrolledLists.UnrolledList.FindElementVector` | src/UnrolledList.cpp:53-68 | the first lane that holds the key, stale lanes of the tail included |
| `UnrolledLists.UnrolledList.RemoveVector` | src/UnrolledList.cpp:22-27 | agrees with the scalar removal if and only if the key is present or in no stale lane |
| `UnrolledLists.StaleLaneMisleads` | src/UnrolledList.cpp:53-68 | after two insertions and one pop, removing the popped key on the vector build also loses the other one |
| `UnrolledLists.UnrolledList.GetNext` | include/UnrolledList.h:128-140 | the iterator walks the elements in order and answers -1 after the last |
| `UnrolledLists.UnrolledList.EndIter` | include/UnrolledList.h:44 | true exactly at the last element or in an empty list |
| `UnrolledLists.UnrolledList.ForEach` | include/UnrolledList.h:114-126 | visits the elements in order |
| `UnrolledLists.UnrolledList.Copy` | include/UnrolledList.h:97-107 | the copy holds the same elements and shares no bucket |
| `UnrolledLists.UnrolledList.Back` | include/UnrolledList.h:38 | the last element, or the empty key |
| `UnrolledLists.UnrolledList.Front` | include/UnrolledList.h:37 | the first element, or the empty key |
| `Filters.SwapRemoveIsRemoval` | src/UnrolledList.cpp:21-27 | as a set, swap-removal removes just the key and makes no duplicates |
| `Filters.FilterIsSetOperation` | include/SimpleHashSet.h:92-113 | filtering a list is intersection or difference of sets |
| `Hopscotch.HomeInRange` | include/SimpleHashTable.h:59-62 | the hash function answers a slot of the table |
| `Hopscotch.ReservedCapacity` | include/SimpleHashTable.h:78-88 | for cap elements at least 2 cap and at most 4 cap - 2 slots; the width is in range if and only if cap is at most 2^29 |
| `Hopscotch.ReserveDoubles` | include/SimpleHashTable.h:195 | reserving a table's own capacity doubles it |
| `Hopscotch.Hop` | include/SimpleHashTable.h:174-182 | one displacement keeps every other key reachable and comes strictly closer to the home |
| `Hopscotch.Land` | include/SimpleHashTable.h:187 | at the end of the chain the table holds exactly the old keys and the new one |
| `Hopscotch.AbandonedKeys` | include/SimpleHashTable.h:183-185 | a displacement given up half way has lost no key |
| `Hopscotch.MovableIsReachable` | include/SimpleHashTable.h:178-182 | a key of the window may move exactly if lookups will find it in the free slot |
| `Hopscotch.TooFarIsUnreachable` | include/SimpleHashTable.h:174 | the free slot is too far exactly if lookups would not find the new key in it |
| `Hopscotch.OneOutcome` | include/SimpleHashTable.h:162-190 | an attempt has one outcome: stuck where no key may move, or one table with the new key in it |
| `Hopscotch.OneChain` | include/SimpleHashTable.h:174-186 | the displacements of an attempt, the farthest key first, are determined by the table |
| `Hopscotch.PresentIsNear` | include/SimpleHashTable.h:100-112 | a present key is met within 16 slots of its home before any empty slot |
| `Hopscotch.TwoLoads` | include/SimpleHashTable.h:114-131 | what the first vector load decides and what is left to the second |
| `Hopscotch.StrayHitHappens` | include/SimpleHashTable.h:127-128 | a sound table and an absent key that the vector lookup finds behind the padding |
| `Hopscotch.ProbeLength` | include/SimpleHashTable.h:166-174 | a probe for a free slot passes at most as many slots as there are keys, so up to 16 keys nothing is displaced |
| `Hopscotch.StrayNeedsSixteen` | include/SimpleHashTable.h:119-129 | the stray lane can only be reached in a table of at least 16 keys |
| `HashUniformity.HomesAreUniform` | include/SimpleHashTable.h:59-62 | exactly 2^(32-M) of the 2^32 words have any given home, for every odd multiplier |
| `HashUniformity.WordsAreLinear` | include/SimpleHashTable.h:59-62 | the word of key 0 is the offset, and the words of two keys differ by a times what the keys differ by |
| `HashUniformity.HomeIsHighBits` | include/SimpleHashTable.h:59-62 | the home is the word divided by 2^(32-M) |
| `HashTables.SimpleHashTable.Reserve` | include/SimpleHashTable.h:78-97 | an empty sound table of the reserved size, without slots for no elements; it fails exactly beyond the widest table |
| `HashTables.SimpleHashTable.TryInsert` | include/SimpleHashTable.h:162-190 | succeeds, with the table at the end of the displacements, if and only if the key is there already or they do not get stuck; otherwise the old keys in a table at least twice as large, or a failure with its explanation |
| `HashTables.SimpleHashTable.MoveHole` | include/SimpleHashTable.h:174-186 | follows the displacements until the free slot is within reach of the home, or no key may move |
| `HashTables.SimpleHashTable.FindHop` | include/SimpleHashTable.h:175-182 | finds the farthest key in the window that may move to the free slot, if there is one |
| `HashTables.SimpleHashTable.Reconstruct` | include/SimpleHashTable.h:192-201 | the same keys, each once and counted, in at least twice the capacity, and just twice for up to 16 keys |
| `HashTables.SimpleHashTable.Insert` | include/SimpleHashTable.h:156-160 | adds the key; the table keeps its size if and only if the key is there already or its displacements do not get stuck, as always up to 16 keys; a failure shows ten stuck attempts in ever larger tables, or one and a table that has reached 2^30 slots |
| `HashTables.SimpleHashTable.Contains` | include/SimpleHashTable.h:100-112 | membership |
| `HashTables.SimpleHashTable.ContainsVector` | include/SimpleHashTable.h:114-131 | membership, or a hit of the stray lane |
| `HashTables.SimpleHashTable.VectorLookup` | include/SimpleHashTable.h:133-148 | a lane is set exactly when it is enabled and its key is a member, or hit by the stray lane |
| `HashTables.SimpleHashTable.ForEach` | include/SimpleHashTable.h:73-76 | visits every key once |
| `HashSets.SimpleHashSet.HashSet` | include/SimpleHashSet.h:61-74 | the table holds the set of the list, and has the reserved size up to 16 different elements; it fails only for a list of more than 2^29 elements, or of more than 16 different ones with the attempts that got stuck to show |
| `HashSets.SimpleHashSet.AddElem` | include/SimpleHashSet.h:39 | appends to the list of an unhashed set |
| `HashSets.SimpleHashSet.DelElem` | include/SimpleHashSet.h:40 | removes from the list of an unhashed set; a hashed one stays as it is |
| `HashSets.SimpleHashSet.Contains` | include/SimpleHashSet.h:41 | membership in a hashed set; an unhashed one answers false |
| `HashSets.SimpleHashSet.Intersect` | include/SimpleHashSet.h:108-113 | the order-preserving filter of a list by the other set; the intersection, each member once, of a hashed set |
| `HashSets.SimpleHashSet.Exclude` | include/SimpleHashSet.h:92-97 | the order-preserving filter of a list by absence from the other set; the difference, each member once, of a hashed set |
| `HashSets.SimpleHashSet.IntersectionSize` | include/SimpleHashSet.h:141-146 | the size of the intersection |
| `HashSets.SimpleHashSet.IntersectVector` | include/SimpleHashSet.h:115-137 | the same filter by what the vector lookup takes for members, tail masks included; nothing for a hashed set |
| `HashSets.SimpleHashSet.IntersectionSizeVector` | include/SimpleHashSet.h:148-167 | its length |
| `HashSets.SimpleHashSet.ContainsVector` | include/SimpleHashTable.h:114-131 | what the vector lookup takes for a member; an unhashed set answers false |
| `HashSets.SimpleHashSet.ExcludeVector` | include/SimpleHashSet.h:92-97 | on the vector build, the filter by what the vector lookup takes for no member; for a hashed set the difference, each member once |
| `HashSets.SimpleHashSet.DelElemVector` | src/UnrolledList.cpp:22-27 | on the vector build, removing a key is the scalar removal, but if it is only in a stale lane the last element is lost; a hashed set stays as it is |
| `HashSets.SimpleHashSet.VectorAgrees` | include/SimpleHashSet.h:115-167 | the vector operations on a list by this set equal the scalar ones if and only if no listed key is a non-member hit by the stray lane |
| `HashSets.SimpleHashSet.MisleadingNeedsSixteen` | include/SimpleHashTable.h:114-131 | a misled lookup needs a hashed set of at least 16 members, and shows the table and the key |
| `SetBuilds.Intersect` | include/SimpleHashSet.h:107-138 | in either build, for any memory behind the table, the filter, unless a listed key is misled; a hashed set gives the intersection on the scalar build and nothing on the vector build |
| `SetBuilds.Exclude` | include/SimpleHashSet.h:92-97 | in either build, the filter of a list by absence, and the difference of a hashed set, unless a visited key is misled |
| `SetBuilds.IntersectionSize` | include/SimpleHashSet.h:140-168 | in either build, the length of the intersection, unless a listed key is misled; 0 for a hashed set on the vector build |
| `HashSets.SimpleHashSet.GetFirst` | include/SimpleHashSet.h:43 | the first listed element, or -1 |
| `GuardObjects.RunWithin` | src/BronKerboschTBB.cpp:78-129 | the moves of one execution are steps of the whole pool of the guard protocol |
| `GuardObjects.EnterMoves` | src/BronKerboschTBB.cpp:193-207 | a task that gets a graph of its own takes the new guard before it gives up the old one |
| `GuardObjects.CountsHolders` | src/BKTask.cpp:12-28 | a guard object counts the tasks that hold it, and has its graph exactly while there are any |
| `GraphGuards.StepCounted` | src/BKTask.cpp:12-28 | in every interleaving each count stays the number of holders |
| `GraphGuards.StepGuards` | src/BKTask.cpp:17-28 | a created guard lives exactly as long as its count is positive and is destroyed once |
| `GraphGuards.MoveOk` | src/BronKerboschTBB.cpp:181-207 | the step of one task changes counts by exactly what it takes and gives back |
| `GraphGuards.StepLineage` | src/BronKerboschTBB.cpp:131-144 | a continuation runs after its children, which in mode 1 share the graph of their root |
| `GuardRuns.NoUseAfterRelease` | src/BronKerboschTBB.cpp:181-207 | outside mode 1 with a limit of 0 or 1 and an edge, no task ever needs a destroyed graph; at the end of a run the whole graph is there if and only if this is so |
| `GuardVerdicts.NoUseAfterReleaseExactly` | src/BronKerboschTBB.cpp:139 | in all runs, at all moments, every graph a task needs exists, if and only if it is not mode 1 with a limit of 0 or 1 and an edge |
| `GuardVerdicts.UseAfterRelease` | src/BronKerboschTBB.cpp:139 | in that case a run in which a root needs the destroyed graph |
| `GuardVerdicts.Completes` | src/BronKerboschTBB.cpp:86-144 | every run extends to one in which all tasks have finished |
| `GuardVerdicts.SomeRunFinishes` | src/BronKerboschTBB.cpp:281-287 | finished runs exist, and keep or lose the whole graph as the condition says |
| `GuardRuns.StepsUseLiveGraphs` | src/BronKerboschTBB.cpp:113-124 | no step counts on, uses or destroys a graph that is gone |
| `GuardRuns.ReleasedExactlyOnce` | src/BronKerboschTBB.cpp:112-124 | at the end each created subgraph has been destroyed once, except those on which a child was cut off |
| `GuardLeaks.LeaksExactly` | src/BronKerboschTBB.cpp:188 | in mode 2 with a threshold of at most 1 a finished run leaks a subgraph if and only if the limit is at least 2 and some clique is larger |
| `GuardLeaks.LargeCliqueLeaks` | src/BronKerboschTBB.cpp:188 | for any threshold, a clique of limit plus threshold vertices makes every finished run leak |
| `GuardLeaks.LeaksOnlyCrowded` | src/BronKerboschTBB.cpp:188 | nothing leaks at any moment unless a clique of the limit's size has enough common neighbours for a task |
| `GuardLeaks.CompleteGraphLeaks` | src/BronKerboschTBB.cpp:188 | on a large enough complete graph there is a finished run, and it leaks |
| `GuardRuns.OnlyRoots` | src/BronKerboschTBB.cpp:188 | under a limit of 0 or 1 every task is a root that ends in its first execution |
| `GuardRuns.AllReleased` | src/BronKerboschTBB.cpp:112-124 | outside mode 2, or with a limit that no clique exceeds, each created subgraph has been destroyed once at the end |
| `GuardRuns.WithoutCutOff` | src/BronKerboschTBB.cpp:188 | with a limit that no clique exceeds all modes release every subgraph exactly once and keep the whole graph |
| `GuardRuns.NoDeadlock` | src/BronKerboschTBB.cpp:131-144 | as long as a task has not finished some task can step |
| `MemChunks.IncrementCovers` | include/MemChunk.h:30-31 | requests are rounded up to lines, and the region covers the request if and only if it is at most 2^32 - 64 |
| `MemChunks.MemChunk.GetAddress` | include/MemChunk.h:29-44 | an aligned region of at least the size, apart from all regions handed out since the last release: behind the last region if the request fits there, else at the start of one new block |
| `MemChunks.MemChunk.DecrementAllocations` | include/MemChunk.h:19 | all blocks are released exactly when the count reaches zero |
| `MemChunks.MemChunk.DeleteDynamicBlocks` | include/MemChunk.h:46-52 | no block and no region is left |
| `MemChunks.Behind` | include/MemChunk.h:41-42 | what is taken behind the used part overlaps nothing |
| `PooledSets.EscapeCondition` | src/BronKerboschTBB.cpp:236-272 | some call that a search reaches hands a pooled set to another task if and only if the memory threshold is more than one above the other |
| `PooledSets.SetPool.MakeSet` | src/BronKerboschTBB.cpp:245-248 | a pooled set of n elements is counted and gets 1 + ceil(n / 16) regions of its own; all other live sets keep theirs |
| `PooledSets.SetPool.GrowSet` | src/BronKerboschTBB.cpp:252 | a pooled set has one more element, and one more region of its own exactly if its last bucket was full; every live set has room for its elements |
| `PooledSets.SetPool.ShrinkSet` | src/BronKerboschTBB.cpp:251 | a pooled set has one element less, in the same memory |
| `PooledSets.SetPool.DeleteSet` | src/BronKerboschTBB.cpp:41-50 | the count falls with the set, and memory is released only when no set is left |
| `PooledSets.Call` | src/BronKerboschTBB.cpp:147-226 | at every moment the count is that of the live pooled sets and their memory is in the chunk, disjoint, and has room for their elements; a call gives back its sets and those it was given, and the callers' sets keep their memory; as many sets are pooled as the calls and candidates below the memory threshold make, beginning with the candidates of this call |
| `PooledSets.Candidates` | src/BronKerboschTBB.cpp:154-157 | every candidate leaves P and enters X, and the loop leaves the other live sets as they were |
| `PooledSets.Iteration` | src/BronKerboschTBB.cpp:236-272 | no pooled set is handed to another task; the two sets of the candidate are pooled exactly below the memory threshold, and a call in this task is made on them exactly below the other one |

## Left out

- `Enumeration.EnumerateCliques`: does not cover the memory pool (`-o`), nor subgraph modes other than 0, 1 and 2; mode 3 is not in the help text, and the others fail an assertion at the first pivot.
- `Search.MainBKTask.Execute`: the memory pool of a task is not in the class; it is the separate model `PooledSets`.
- `Enumeration.RunPool`: one execution is not interrupted; the interleavings of single operations on the guards are covered by `GuardRuns`, those on lists and tables do not meet, since the tasks share none that change.
- `Graphs.Graph.DegeneracyOrdering`: its precondition is the source's own assertion on the degrees; `EnumerateCliques` covers the case in which it fails.
- `MemChunks.MemChunk.GetAddress`: requests beyond 2^31 - 64 bytes, blocks beyond 2^31 - 1 bytes and a failing system allocator are excluded.
- `HashSets.SimpleHashSet.AddElem`: linear-probing insertion into a hashed set is excluded; no path of the search reaches it.
- `HashTables.SimpleHashTable.Insert`: that ten attempts suffice is a matter of chance; what is proved is when the first one succeeds and what a failure implies.
- `HashTables.SimpleHashTable.Reserve`: for no elements the source's shift is undefined; the model takes it to give a table without slots.
- `SetBuilds.Intersect`: the word behind a table is taken to stay the same while one set operation runs.
- `GuardLeaks.LargeCliqueLeaks`: for thresholds above 1 no exact condition is given, because whether a clique is met by tasks or by sequential calls depends on the pivots that a run picks.
- Intel TBB: task stealing, recycling, mutexes and thread-local storage are reduced to "any ready task may step", "a continuation runs after its children" and one histogram per worker.
- AVX-512 as machine code: a vector is 16 lanes and a mask 16 booleans.
- Option parsing, reading and printing files, timing, and the logging of memory use.
- `returnClique`, `store_clique`, `isSorted`, the copy constructor of the hash set, `include` (union) and `kill_list`: unused, empty or not maintained by the source.
- Deallocation of lists, buckets, tables and tasks: objects become unreachable.
- Integer overflow of counters such as `edgeNo` and the histogram's `long`.
