/**
 The whole run: one root task per vertex, any ready task executed by any worker, and the histograms
 of the workers merged at the end.
 */
module Enumeration {
  import opened FiniteSets
  import opened Cliques
  import opened Roots
  import opened LeafBound
  import opened Histograms
  import opened HashSets
  import opened SetBuilds
  import opened Degeneracy
  import opened EdgeLists
  import opened Graphs
  import opened TaskPool
  import opened PoolRuns
  import opened Workers
  import opened GuardObjects
  import opened Search
  import G = GraphGuards
  import GuardRuns
  import GuardVerdicts

  type Guards = seq<G.GraphGuard>

  /** What tasks use together: the workers and the guards. */
  ghost function Shared(ws: seq<Worker>, guards: Guards): set<object> {
    var workers: set<object> := set w | w in ws;
    var objects: set<object> := set x | x in guards;
    workers + objects
  }

  /** A sound task of this run, away from the memory that is shared. */
  ghost predicate Member(t: MainBKTask, shared: set<object>, g: Adjacency, cfg: Config, mode: nat, vector: bool)
    reads t, t.Repr, t.graph, t.graph.store
  {
    && t.Valid() && t in t.Repr && t.g == g && t.cfg == cfg && t.mode == mode && t.vector == vector
    && shared !! t.Repr + t.graph.store + {t.graph}
  }

  /** Two tasks own different memory, and neither owns the other's graph. */
  ghost predicate Apart(a: MainBKTask, b: MainBKTask)
    reads a, b, a.graph, b.graph
  {
    && a.Repr !! b.Repr
    && a.Repr !! b.graph.store + {b.graph} && b.Repr !! a.graph.store + {a.graph}
  }

  lemma TaskFacts(t: MainBKTask)
    requires t.Valid()
    ensures t in t.Repr && t.Repr !! t.graph.store + {t.graph} && t.graphg !in t.Repr + t.graph.store
    ensures t.graphg.held == t.graph
    ensures t.agent.duty == t.duty && (G.IsRoot(t.agent) <==> t.parent == null)
    ensures (t.isContinuation <==> t.duty == Done) && (t.finished <==> t.agent.phase.Finished?)
    ensures t.isContinuation ==> t.agent.phase.Resting? || t.agent.phase.Finished?
    ensures !t.isContinuation ==> t.agent.phase.Waiting? || t.agent.phase.Searching?
  {
  }

  /** The guard of a member among all guards. */
  lemma MemberAway(t: MainBKTask, ws: seq<Worker>, guards: Guards, w: Worker, g: Adjacency, cfg: Config, mode: nat,
        vector: bool)
    requires Member(t, Shared(ws, guards), g, cfg, mode, vector) && w in ws
    ensures t.Away(guards) && w !in t.Repr + t.graph.store + {t.graph}
  {
    hide MainBKTask.Valid;
    assert forall x :: 0 <= x < |guards| ==> guards[x] in guards;
  }

  lemma SharedGrows(t: MainBKTask, ws: seq<Worker>, guards: Guards, guards': Guards, g: Adjacency, cfg: Config,
        mode: nat, vector: bool)
    requires Member(t, Shared(ws, guards), g, cfg, mode, vector)
    requires guards' == guards
        || (|guards'| == |guards| + 1 && guards <= guards' && OffLimits(t, guards'[|guards'| - 1]))
    ensures Member(t, Shared(ws, guards'), g, cfg, mode, vector)
  {
    hide MainBKTask.Valid;
    forall o | o in Shared(ws, guards') && o !in Shared(ws, guards)
      ensures o !in t.Repr + t.graph.store + {t.graph}
    {
      assert o in guards';
    }
  }

  /** Execute one task, which is agent number i; its child, if any, is away from all tasks. */
  method ExecuteAt(tasks: seq<MainBKTask>, i: nat, w: Worker, ghost shared: set<object>, ghost g: Adjacency,
        cfg: Config, mode: nat, vector: bool, ghost guards: Guards, ghost states: seq<G.Guard>)
    returns (ok: bool, child: MainBKTask?, ghost e: Effect, ghost failed: Graph?, ghost miss: Miss,
        ghost guards': Guards, ghost states': seq<G.Guard>)
    requires i < |tasks| && w.Valid() && !tasks[i].isContinuation
    requires w in shared && tasks[i].graphg in shared && tasks[i].Away(guards)
    requires forall j :: 0 <= j < |tasks| ==> Member(tasks[j], shared, g, cfg, mode, vector)
    requires forall j, k :: 0 <= j < k < |tasks| ==> Apart(tasks[j], tasks[k])
    requires tasks[i].Holds(guards, states) && tasks[i].Live()
    modifies tasks[i].Repr, w, tasks[i].graphg
    ensures (mode == 0 && !vector) || Narrow(g) || old(tasks[i].CutsAtOnce(tasks[i].duty)) ==> ok
    ensures !ok ==> (failed != null && failed.Overgrown()) || Misses(vector, miss)
    ensures ok ==> w.Valid() && w.log == old(w.log) + e.log && w.leaves == old(w.leaves) + e.leaves
    ensures ok ==> forall j :: 0 <= j < |tasks| ==> Member(tasks[j], shared, g, cfg, mode, vector)
    ensures ok && guards' != guards ==> forall j :: 0 <= j < |tasks| ==> OffLimits(tasks[j], tasks[i].graphg)
    ensures ok ==> forall j, k :: 0 <= j < k < |tasks| ==> Apart(tasks[j], tasks[k])
    ensures ok ==> forall j :: 0 <= j < |tasks| && j != i ==> tasks[j].Repr == old(tasks[j].Repr)
    ensures ok ==> Executes(g, cfg, old(tasks[i].duty), e) && tasks[i].duty == e.after
    ensures ok ==> Fits(tasks, i, child, e, shared, g, cfg, mode, vector)
    ensures ok && child != null ==> fresh(child.Repr)
    ensures ok ==> fresh(tasks[i].Repr - old(tasks[i].Repr)) && tasks[i].Holds(guards', states')
    ensures ok ==> guards' == guards || (guards' == guards + [tasks[i].graphg] && fresh(tasks[i].graphg))
    ensures ok ==>
        Reaches(g, cfg, mode, i, Local(old(tasks[i].agent), [], states),
          Local(tasks[i].agent, MainBKTask.KidsOf(child), states'))
  {
    hide MainBKTask.Valid, Executes, Worker.Valid, Narrow, Graph.Overgrown, Reaches;
    hide MainBKTask.CutsAtOnce, MainBKTask.Live, Mirror;
    var t := tasks[i];
    TaskFacts(t);
    ok, child, e, failed, miss, guards', states' := t.Execute(w, i, guards, states);
    if !ok {
      return;
    }
    TaskFacts(t);
    forall j | 0 <= j < |tasks| && j != i
      ensures Member(tasks[j], shared, g, cfg, mode, vector) && Apart(tasks[j], t) && Apart(t, tasks[j])
          && tasks[j].Repr == old(tasks[j].Repr)
    {
    }
    if child != null {
      TaskFacts(child);
      forall j | 0 <= j < |tasks| ensures Apart(tasks[j], child) {
      }
    }
  }

  /** The child, if any, is what the execution has spawned, and its memory is away from that of all tasks. */
  ghost predicate Fits(tasks: seq<MainBKTask>, i: nat, child: MainBKTask?, e: Effect, shared: set<object>,
        g: Adjacency, cfg: Config, mode: nat, vector: bool)
    requires i < |tasks|
    reads tasks, child, if child == null then {} else child.Repr + child.graph.store + {child.graph}
    reads set j | 0 <= j < |tasks| :: tasks[j].graph
  {
    if child == null then e.spawned == [] else
      && e.spawned == [child.duty] && tasks[i].IsChild(child, i) && OffLimits(child, tasks[i].graphg)
      && Member(child, shared, g, cfg, mode, vector)
      && forall j :: 0 <= j < |tasks| ==> Apart(tasks[j], child)
  }

  /** The object is not memory of the task. */
  ghost predicate OffLimits(t: MainBKTask, gg: G.GraphGuard)
    reads t, t.graph
  {
    gg !in t.Repr + t.graph.store
  }

  /** The task with number i owns none of the other tasks and no worker. */
  lemma NoneOwned(tasks: seq<MainBKTask>, i: nat, ws: seq<Worker>, guards: Guards, g: Adjacency, cfg: Config,
        mode: nat, vector: bool)
    requires i < |tasks|
    requires forall j :: 0 <= j < |tasks| ==> Member(tasks[j], Shared(ws, guards), g, cfg, mode, vector)
    requires forall j, k :: 0 <= j < k < |tasks| ==> Apart(tasks[j], tasks[k])
    ensures forall j :: 0 <= j < |tasks| && j != i ==> tasks[j] !in tasks[i].Repr
    ensures forall x :: 0 <= x < |ws| ==> ws[x] !in tasks[i].Repr
  {
    hide MainBKTask.Valid;
    assert forall x :: 0 <= x < |ws| ==> ws[x] in ws;
  }

  /** All tasks but number i, and all workers but number w, are as the two states say. */
  ghost predicate Bystanders(tasks: seq<MainBKTask>, i: nat, ws: seq<Worker>, w: nat, guards: Guards, s: State,
        logs: seq<Share>, gs: G.Pool)
    reads set j | 0 <= j < |tasks| && j != i :: tasks[j]
    reads set x | 0 <= x < |ws| && x != w :: ws[x]
  {
    && |tasks| == |s.tasks| == |gs.agents| && |ws| == |s.locals| == |logs|
    && (forall j :: 0 <= j < |tasks| && j != i ==>
        tasks[j].duty == s.tasks[j] && tasks[j].agent == gs.agents[j] && gs.agents[j].guard < |guards|
            && guards[gs.agents[j].guard] == tasks[j].graphg)
    && (forall x :: 0 <= x < |ws| && x != w ==>
        ws[x].Valid() && ws[x].counts == s.locals[x] && Share(ws[x].log, ws[x].leaves) == logs[x])
  }

  lemma MoreGuards(tasks: seq<MainBKTask>, i: nat, ws: seq<Worker>, w: nat, guards: Guards, guards': Guards, s: State,
        logs: seq<Share>, gs: G.Pool)
    requires Bystanders(tasks, i, ws, w, guards, s, logs, gs) && guards <= guards'
    ensures Bystanders(tasks, i, ws, w, guards', s, logs, gs)
  {
  }

  lemma InShared(ws: seq<Worker>, guards: Guards, w: Worker, gg: G.GraphGuard)
    requires w in ws && gg in guards
    ensures w in Shared(ws, guards) && gg in Shared(ws, guards)
  {
  }
  lemma SharedApart(ws: seq<Worker>, gg: G.GraphGuard, S: set<object>)
    requires (forall w :: w in ws ==> w !in S) && gg !in S
    ensures Shared(ws, [gg]) !! S
  {
  }

  /** Two members with disjoint memory that search the same graph. */
  lemma MembersApart(a: MainBKTask, b: MainBKTask, shared: set<object>, g: Adjacency, cfg: Config, mode: nat,
        vector: bool)
    requires Member(a, shared, g, cfg, mode, vector) && Member(b, shared, g, cfg, mode, vector)
    requires a.graph == b.graph && a.Repr !! b.Repr
    ensures Apart(a, b)
  {
    TaskFacts(a);
    TaskFacts(b);
    hide MainBKTask.Valid;
  }

  /** The root task of v, before its first execution. */
  ghost predicate StartsAtRoot(t: MainBKTask, gg: G.GraphGuard, g: Adjacency, ord: Order, mode: nat, v: Vertex)
    requires Simple(g) && ValidOrder(g, ord) && v in g
    reads t
  {
    && t.parent == null && t.graphg == gg && t.duty == RootTask(g, ord, v)
    && t.agent == G.Agent(t.duty, -1, 0, mode != 0, G.Waiting)
  }

  method NewRoot(gg: G.GraphGuard, v: Vertex, ws: seq<Worker>, cfg: Config, mode: nat, vector: bool,
        ghost g: Adjacency)
    returns (t: MainBKTask)
    requires Simple(g) && ValidOrder(g, cfg.order) && mode <= 2 && gg.held.Ready() && gg.held.model == g && v in g
    requires cfg.order.ByPosition? ==> gg.held.backwardsMapping == cfg.order.pos
    requires Shared(ws, [gg]) !! gg.held.store + {gg.held}
    ensures Member(t, Shared(ws, [gg]), g, cfg, mode, vector) && fresh(t.Repr) && fresh(t) && t.graph == gg.held
    ensures StartsAtRoot(t, gg, g, cfg.order, mode, v)
  {
    hide Graph.Ready, MainBKTask.Valid, Simple, ValidOrder, Later, Earlier;
    assert gg in [gg];
    assert gg in Shared(ws, [gg]);
    hide Shared;
    t := new MainBKTask.Root(v, gg, cfg, mode, vector, g);
    TaskFacts(t);
  }

  /** The root of the vertex number i has the neighbours that come after it in P, and the others in X. */
  ghost predicate SplitsAt(g: Adjacency, vs: seq<Vertex>, i: nat, t: Task)
    requires i < |vs| && vs[i] in g
  {
    t == New({vs[i]}, g[vs[i]] - ToSet(vs[..i]), g[vs[i]] * ToSet(vs[..i]))
  }

  lemma AllListed(vs: seq<Vertex>, g: Adjacency)
    requires Enumerates<Vertex>(vs, g.Keys)
    ensures forall i :: 0 <= i < |vs| ==> vs[i] in g
  {
  }

  lemma RootSplits(t: MainBKTask, gg: G.GraphGuard, g: Adjacency, ord: Order, mode: nat, vs: seq<Vertex>, i: nat)
    requires Simple(g) && ValidOrder(g, ord) && Enumerates<Vertex>(vs, g.Keys) && i < |vs| && ord.ByPosition?
    requires Positioned(vs, ord.pos, |vs|) && StartsAtRoot(t, gg, g, ord, mode, vs[i])
    ensures SplitsAt(g, vs, i, t.duty)
  {
    LaterAreUnremoved(g, vs, ord.pos, i);
    assert g[vs[i]] <= g.Keys;
    hide Later, Positioned, Enumerates;
  }

  /** One root task per vertex, in the order of the vertex ordering. */
  method SpawnRoots(gg: G.GraphGuard, vertexOrdering: seq<Vertex>, ws: seq<Worker>, cfg: Config, mode: nat,
        vector: bool, ghost g: Adjacency)
    returns (tasks: seq<MainBKTask>)
    requires Simple(g) && ValidOrder(g, cfg.order) && mode <= 2 && gg.held.Ready() && gg.held.model == g
    requires cfg.order.ByPosition? ==> gg.held.backwardsMapping == cfg.order.pos
    requires Enumerates<Vertex>(vertexOrdering, g.Keys)
    requires Positioned(vertexOrdering, gg.held.backwardsMapping, |vertexOrdering|)
    requires Shared(ws, [gg]) !! gg.held.store + {gg.held}
    ensures forall j :: 0 <= j < |tasks| ==>
        Member(tasks[j], Shared(ws, [gg]), g, cfg, mode, vector) && fresh(tasks[j].Repr)
    ensures forall j, k :: 0 <= j < k < |tasks| ==> Apart(tasks[j], tasks[k])
    ensures |tasks| == |vertexOrdering|
    ensures forall j :: 0 <= j < |tasks| ==> StartsAtRoot(tasks[j], gg, g, cfg.order, mode, vertexOrdering[j])
    ensures cfg.order.ByPosition? ==>
        forall j :: 0 <= j < |tasks| ==> SplitsAt(g, vertexOrdering, j, tasks[j].duty)
  {
    hide Graph.Ready, MainBKTask.Valid, Simple, ValidOrder, Member, Apart, Later, Earlier, Shared, StartsAtRoot;
    hide Positioned, SplitsAt, Enumerates;
    AllListed(vertexOrdering, g);
    tasks := [];
    for i := 0 to |vertexOrdering|
      invariant |tasks| == i
      invariant forall j :: 0 <= j < |tasks| ==>
          Member(tasks[j], Shared(ws, [gg]), g, cfg, mode, vector) && fresh(tasks[j].Repr) && tasks[j].graph == gg.held
      invariant forall j, k :: 0 <= j < k < |tasks| ==> Apart(tasks[j], tasks[k])
      invariant forall j :: 0 <= j < |tasks| ==> StartsAtRoot(tasks[j], gg, g, cfg.order, mode, vertexOrdering[j])
      invariant cfg.order.ByPosition? ==>
          forall j :: 0 <= j < |tasks| ==> SplitsAt(g, vertexOrdering, j, tasks[j].duty)
    {
      var t := NewRoot(gg, vertexOrdering[i], ws, cfg, mode, vector, g);
      if cfg.order.ByPosition? {
        RootSplits(t, gg, g, cfg.order, mode, vertexOrdering, i);
      }
      forall j | 0 <= j < |tasks| ensures Apart(tasks[j], t) {
        MembersApart(tasks[j], t, Shared(ws, [gg]), g, cfg, mode, vector);
      }
      tasks := tasks + [t];
    }
  }

  method NewWorkers(n: nat) returns (ws: seq<Worker>)
    ensures |ws| == n && fresh(set w | w in ws)
    ensures forall i :: 0 <= i < n ==> ws[i].Valid() && ws[i].counts == map[] && ws[i].log == [] && ws[i].leaves == 0
    ensures forall i, j :: 0 <= i < j < n ==> ws[i] != ws[j]
  {
    ws := [];
    for i := 0 to n
      invariant |ws| == i && fresh(set w | w in ws)
      invariant forall j :: 0 <= j < i ==>
          ws[j].Valid() && ws[j].counts == map[] && ws[j].log == [] && ws[j].leaves == 0
      invariant forall j, k :: 0 <= j < k < i ==> ws[j] != ws[k]
    {
      var w := new Worker();
      ws := ws + [w];
    }
  }

  type Log = seq<set<Vertex>>

  /** What one worker has done: the cliques it stored and its leaf calls. */
  datatype Share = Share(log: Log, leaves: nat)

  ghost function SumLogs(logs: seq<Share>): multiset<set<Vertex>> {
    if logs == [] then multiset{} else SumLogs(logs[..|logs| - 1]) + multiset(logs[|logs| - 1].log)
  }

  ghost function SumLeaves(logs: seq<Share>): nat {
    if logs == [] then 0 else SumLeaves(logs[..|logs| - 1]) + logs[|logs| - 1].leaves
  }

  function More(share: Share, log: Log, leaves: nat): Share {
    Share(share.log + log, share.leaves + leaves)
  }

  lemma {:induction false} SumsUpdate(logs: seq<Share>, w: nat, more: Log, n: nat)
    requires w < |logs|
    ensures SumLogs(logs[w := More(logs[w], more, n)]) == SumLogs(logs) + multiset(more)
    ensures SumLeaves(logs[w := More(logs[w], more, n)]) == SumLeaves(logs) + n
    decreases |logs|
  {
    var logs' := logs[w := More(logs[w], more, n)];
    var init := logs[..|logs| - 1];
    if w == |logs| - 1 {
      assert logs'[..|logs| - 1] == init;
      assert multiset(logs[w].log + more) == multiset(logs[w].log) + multiset(more);
    } else {
      SumsUpdate(init, w, more, n);
      assert logs'[..|logs| - 1] == init[w := More(init[w], more, n)];
    }
  }

  lemma {:induction false} NoLogs(logs: seq<Share>)
    requires forall j :: 0 <= j < |logs| ==> logs[j] == Share([], 0)
    ensures SumLogs(logs) == multiset{} && SumLeaves(logs) == 0
    decreases |logs|
  {
    if logs != [] {
      NoLogs(logs[..|logs| - 1]);
    }
  }

  /** The workers are sound, and the state s of the task pool is what the tasks and workers amount to. */
  ghost predicate Mirrors(tasks: seq<MainBKTask>, ws: seq<Worker>, s: State, logs: seq<Share>)
    reads tasks, ws
  {
    && |tasks| == |s.tasks| && (forall j :: 0 <= j < |tasks| ==> tasks[j].duty == s.tasks[j])
    && |ws| == |s.locals| == |logs|
    && (forall j :: 0 <= j < |ws| ==>
        ws[j].Valid() && ws[j].counts == s.locals[j] && Share(ws[j].log, ws[j].leaves) == logs[j])
    && (forall j, k :: 0 <= j < k < |ws| ==> ws[j] != ws[k])
    && multiset(s.log) == SumLogs(logs) && s.leaves == SumLeaves(logs)
  }

  /** What the worker's histogram gained is what it stored. */
  lemma RecordsGain(h: Histogram, log: Log, h': Histogram, more: Log)
    requires Describes(h, log) && Describes(h', log + more)
    ensures Records(h, h', more)
  {
    forall k: nat
      ensures CountAt(h', k) == CountAt(h, k) + OfSize(more, k) && (k in h' <==> k in h || OfSize(more, k) > 0)
    {
      OfSizeConcat(log, more, k);
      assert CountAt(h, k) == OfSize(log, k);
      assert CountAt(h', k) == OfSize(log + more, k);
    }
  }

  // --- the tasks as the agents of the guard protocol ---

  ghost function Last(run: seq<G.Pool>): G.Pool
    requires run != []
  {
    run[|run| - 1]
  }

  ghost predicate ParentIs(tasks: seq<MainBKTask>, j: nat, a: G.Agent)
    requires j < |tasks|
  {
    if G.IsRoot(a) then tasks[j].parent == null
    else 0 <= a.parent < |tasks| && tasks[j].parent == tasks[a.parent]
  }

  /** The tasks are different ones, and have the parents that the agents have. */
  ghost predicate Related(tasks: seq<MainBKTask>, agents: seq<G.Agent>) {
    && |tasks| == |agents|
    && (forall j :: 0 <= j < |tasks| ==> ParentIs(tasks, j, agents[j]))
    && forall j, k :: 0 <= j < k < |tasks| ==> tasks[j] != tasks[k]
  }

  /** The tasks and the guards are what the state s of the guard protocol says. */
  ghost predicate Guarded(tasks: seq<MainBKTask>, guards: Guards, s: G.Pool)
    reads tasks, guards
  {
    && Mirror(guards, s.guards) && |tasks| == |s.agents|
    && (forall j :: 0 <= j < |tasks| ==>
        tasks[j].agent == s.agents[j] && s.agents[j].guard < |guards| && guards[s.agents[j].guard] == tasks[j].graphg)
    && Related(tasks, s.agents)
  }

  /** What the two states say, apart from task i and worker w. */
  lemma LookAway(tasks: seq<MainBKTask>, i: nat, ws: seq<Worker>, w: nat, guards: Guards, s: State, logs: seq<Share>,
        gs: G.Pool)
    requires i < |tasks| && w < |ws| && Mirrors(tasks, ws, s, logs) && Guarded(tasks, guards, gs)
    ensures Bystanders(tasks, i, ws, w, guards, s, logs, gs) && Related(tasks, gs.agents)
    ensures tasks[i].duty == s.tasks[i] && tasks[i].agent == gs.agents[i] && tasks[i].Holds(guards, gs.guards)
    ensures tasks[i].graphg in guards
    ensures ws[w].Valid() && ws[w].counts == s.locals[w] && Share(ws[w].log, ws[w].leaves) == logs[w]
    ensures multiset(s.log) == SumLogs(logs) && s.leaves == SumLeaves(logs)
    ensures forall j, k :: 0 <= j < k < |ws| ==> ws[j] != ws[k]
  {
    hide Mirror;
  }

  function WithChild(tasks: seq<MainBKTask>, child: MainBKTask?): (r: seq<MainBKTask>)
    ensures tasks <= r
  {
    if child == null then tasks else tasks + [child]
  }

  /** One execution of task i by worker w is one execution of the task pool. */
  lemma PoolSteps(tasks: seq<MainBKTask>, i: nat, child: MainBKTask?, ws: seq<Worker>, w: nat, guards: Guards,
        g: Adjacency, cfg: Config, e: Effect, s: State, logs: seq<Share>, gs: G.Pool)
    returns (s': State, logs': seq<Share>)
    requires i < |tasks| && w < |ws| && Bystanders(tasks, i, ws, w, guards, s, logs, gs)
    requires Executes(g, cfg, s.tasks[i], e) && tasks[i].duty == e.after
    requires e.spawned == if child == null then [] else [child.duty]
    requires ws[w].Valid() && ws[w].log == logs[w].log + e.log && ws[w].leaves == logs[w].leaves + e.leaves
    requires Describes(s.locals[w], logs[w].log)
    requires multiset(s.log) == SumLogs(logs) && s.leaves == SumLeaves(logs)
    requires forall j, k :: 0 <= j < k < |ws| ==> ws[j] != ws[k]
    ensures Next(g, cfg, s, s') && Mirrors(WithChild(tasks, child), ws, s', logs')
  {
    hide Executes, SumLogs, SumLeaves, Records;
    s' := State(s.tasks[i := e.after] + e.spawned, s.locals[w := ws[w].counts], s.log + e.log, s.leaves + e.leaves);
    logs' := logs[w := More(logs[w], e.log, e.leaves)];
    SumsUpdate(logs, w, e.log, e.leaves);
    RecordsGain(s.locals[w], logs[w].log, ws[w].counts, e.log);
    assert multiset(s'.log) == multiset(s.log) + multiset(e.log);
    assert Step(g, cfg, s, s', i, w, e);
  }

  /** The same execution is a number of moves in the guard protocol. */
  lemma GuardsStep(tasks: seq<MainBKTask>, i: nat, child: MainBKTask?, ws: seq<Worker>, w: nat, guards: Guards,
        states: seq<G.Guard>, g: Adjacency, cfg: Config, mode: nat, vs: seq<Vertex>, s: State, logs: seq<Share>,
        grun: seq<G.Pool>)
    returns (grun': seq<G.Pool>)
    requires Simple(g) && ValidOrder(g, cfg.order) && grun != [] && G.IsRun(g, cfg, mode, vs, grun) && i < |tasks|
    requires Bystanders(tasks, i, ws, w, guards, s, logs, Last(grun)) && Related(tasks, Last(grun).agents)
    requires tasks[i].Holds(guards, states)
    requires Reaches(g, cfg, mode, i, Local(Last(grun).agents[i], [], Last(grun).guards),
      Local(tasks[i].agent, MainBKTask.KidsOf(child), states))
    requires child != null ==> tasks[i].IsChild(child, i) && child !in tasks
    ensures grun' != [] && G.IsRun(g, cfg, mode, vs, grun') && Guarded(WithChild(tasks, child), guards, Last(grun'))
  {
    hide MainBKTask.Valid, Mirror, Reaches, Simple, ValidOrder, G.IsRun;
    var gs := Last(grun);
    var l, l' := Local(gs.agents[i], [], gs.guards), Local(tasks[i].agent, MainBKTask.KidsOf(child), states);
    ReachesParent(g, cfg, mode, i, l, l');
    grun' := RunWithin(g, cfg, mode, vs, grun, i, l, l');
    assert Related(WithChild(tasks, child), PoolAt(gs, i, l').agents);
  }

  /** One execution of the pool: any task i that is not a continuation and whose graph is there, any worker w. */
  method OneStep(tasks: seq<MainBKTask>, i: nat, ws: seq<Worker>, w: nat, ghost g: Adjacency, cfg: Config, mode: nat,
        vector: bool, ghost s: State, ghost logs: seq<Share>, ghost guards: Guards, ghost vs: seq<Vertex>,
        ghost grun: seq<G.Pool>)
    returns (ok: bool, tasks': seq<MainBKTask>, ghost s': State, ghost logs': seq<Share>, ghost failed: Graph?,
        ghost miss: Miss, ghost guards': Guards, ghost grun': seq<G.Pool>)
    requires i < |tasks| && w < |ws| && !tasks[i].isContinuation && tasks[i].Live() && Mirrors(tasks, ws, s, logs)
    requires forall j :: 0 <= j < |tasks| ==> Member(tasks[j], Shared(ws, guards), g, cfg, mode, vector)
    requires forall j, k :: 0 <= j < k < |tasks| ==> Apart(tasks[j], tasks[k])
    requires Simple(g) && ValidOrder(g, cfg.order) && grun != [] && G.IsRun(g, cfg, mode, vs, grun)
        && Guarded(tasks, guards, Last(grun))
    modifies tasks[i].Repr, ws[w], tasks[i].graphg
    ensures (mode == 0 && !vector) || Narrow(g) || old(tasks[i].CutsAtOnce(tasks[i].duty)) ==> ok
    ensures !ok ==> (failed != null && failed.Overgrown()) || Misses(vector, miss)
    ensures ok ==> Next(g, cfg, s, s') && Mirrors(tasks', ws, s', logs') && tasks <= tasks'
    ensures ok ==> forall j :: 0 <= j < |tasks'| ==> Member(tasks'[j], Shared(ws, guards'), g, cfg, mode, vector)
    ensures ok ==> forall j, k :: 0 <= j < k < |tasks'| ==> Apart(tasks'[j], tasks'[k])
    ensures ok ==> forall j :: |tasks| <= j < |tasks'| ==> fresh(tasks'[j].Repr)
    ensures ok ==> forall j :: 0 <= j < |tasks| ==> fresh(tasks[j].Repr - old(tasks[j].Repr))
    ensures ok ==> guards <= guards' && forall x :: |guards| <= x < |guards'| ==> fresh(guards'[x])
    ensures ok ==> grun' != [] && G.IsRun(g, cfg, mode, vs, grun') && Guarded(tasks', guards', Last(grun'))
  {
    hide Member, Apart, Executes, SumLogs, SumLeaves, Narrow, Graph.Overgrown, Reaches, Shared, Bystanders, Related;
    hide MainBKTask.CutsAtOnce, Simple, ValidOrder, G.IsRun, Mirrors, Guarded, Next, IsMiss, MainBKTask.Live;
    hide MainBKTask.Holds, MainBKTask.Valid, MainBKTask.IsChild, Fits;
    ghost var e, states';
    s', logs', grun', tasks' := s, logs, grun, tasks;
    LookAway(tasks, i, ws, w, guards, s, logs, Last(grun));
    WorkerDescribes(ws[w]);
    NoneOwned(tasks, i, ws, guards, g, cfg, mode, vector);
    MemberAway(tasks[i], ws, guards, ws[w], g, cfg, mode, vector);
    InShared(ws, guards, ws[w], tasks[i].graphg);
    var child;
    ok, child, e, failed, miss, guards', states' :=
      ExecuteAt(tasks, i, ws[w], Shared(ws, guards), g, cfg, mode, vector, guards, Last(grun).guards);
    if ok {
      assert Bystanders(tasks, i, ws, w, guards, s, logs, Last(grun));
      MoreGuards(tasks, i, ws, w, guards, guards', s, logs, Last(grun));
      tasks' := WithChild(tasks, child);
      NewTask(tasks, i, child, e, Shared(ws, guards), g, cfg, mode, vector);
      s', logs' := PoolSteps(tasks, i, child, ws, w, guards', g, cfg, e, s, logs, Last(grun));
      forall j | 0 <= j < |tasks'| ensures Member(tasks'[j], Shared(ws, guards'), g, cfg, mode, vector) {
        SharedGrows(tasks'[j], ws, guards, guards', g, cfg, mode, vector);
      }
      grun' := GuardsStep(tasks, i, child, ws, w, guards', states', g, cfg, mode, vs, s, logs, grun);
    }
  }

  lemma WorkerDescribes(w: Worker)
    requires w.Valid()
    ensures Describes(w.counts, w.log)
  {
  }

  lemma NewTask(tasks: seq<MainBKTask>, i: nat, child: MainBKTask?, e: Effect, shared: set<object>, g: Adjacency,
        cfg: Config, mode: nat, vector: bool)
    requires i < |tasks| && Fits(tasks, i, child, e, shared, g, cfg, mode, vector)
    requires forall j :: 0 <= j < |tasks| ==> Member(tasks[j], shared, g, cfg, mode, vector)
    requires forall j, k :: 0 <= j < k < |tasks| ==> Apart(tasks[j], tasks[k])
    ensures child != null ==> child !in tasks && tasks[i].IsChild(child, i) && OffLimits(child, tasks[i].graphg)
    ensures e.spawned == if child == null then [] else [child.duty]
    ensures var tasks' := WithChild(tasks, child);
            && (forall j :: 0 <= j < |tasks'| ==> Member(tasks'[j], shared, g, cfg, mode, vector))
            && forall j, k :: 0 <= j < k < |tasks'| ==> Apart(tasks'[j], tasks'[k])
  {
    hide MainBKTask.Valid;
  }

  /** Task i may be picked: it has candidates left, or all its children have finished. */
  predicate MayStep(pool: seq<MainBKTask>, i: nat)
    requires i < |pool|
    reads pool
  {
    !pool[i].isContinuation
    || (!pool[i].finished && forall j :: 0 <= j < |pool| && pool[j].parent == pool[i] ==> pool[j].finished)
  }

  /** What the task does next works on its graph, or gives it back. */
  predicate NeedsGraph(t: MainBKTask)
    reads t
  {
    !t.isContinuation || (t.mode == 1 && t.newGraph)
  }

  lemma FirstRun(g: Adjacency, cfg: Config, vs: seq<Vertex>, s: State)
    requires Simple(g) && ValidOrder(g, cfg.order) && Init(g, cfg, vs, s)
    ensures IsRun(g, cfg, vs, [s]) && Final([s]) == s
  {
    hide Init;
  }

  /** One more execution makes the run longer and the weight smaller. */
  lemma RunGrows(g: Adjacency, cfg: Config, vs: seq<Vertex>, run: seq<State>, s': State)
    requires Simple(g) && ValidOrder(g, cfg.order) && run != [] && IsRun(g, cfg, vs, run)
        && Next(g, cfg, Final(run), s')
    ensures IsRun(g, cfg, vs, run + [s']) && Final(run + [s']) == s' && Weights(s'.tasks) < Weights(Final(run).tasks)
  {
    hide Inv, Step, Weights, Init, Simple, ValidOrder;
    RunInv(g, cfg, vs, run, |run| - 1);
    var i, w, e :| Step(g, cfg, Final(run), s', i, w, e);
    StepInv(g, cfg, Final(run), s', i, w, e);
  }

  /** The pool before the first execution. */
  lemma StartsAsInit(tasks: seq<MainBKTask>, ws: seq<Worker>, g: Adjacency, cfg: Config, vs: seq<Vertex>)
    returns (s: State, logs: seq<Share>)
    requires Simple(g) && ValidOrder(g, cfg.order) && Enumerates<Vertex>(vs, g.Keys) && |ws| >= 1
    requires |tasks| == |vs| && forall j :: 0 <= j < |tasks| ==> tasks[j].duty == RootTask(g, cfg.order, vs[j])
    requires forall i :: 0 <= i < |ws| ==>
        ws[i].Valid() && ws[i].counts == map[] && ws[i].log == [] && ws[i].leaves == 0
    requires forall i, j :: 0 <= i < j < |ws| ==> ws[i] != ws[j]
    ensures Init(g, cfg, vs, s) && Mirrors(tasks, ws, s, logs)
  {
    s := State(RootTasks(g, cfg.order, vs), seq(|ws|, _ => map[]), [], 0);
    logs := seq(|ws|, _ => Share([], 0));
    NoLogs(logs);
    hide Later, Earlier, ValidOrder, Simple, SumLogs, SumLeaves;
  }

  /** A continuation whose children have finished: one step of the guard protocol, and none of the task pool. */
  method FinishOne(pool: seq<MainBKTask>, i: nat, ghost ws: seq<Worker>, ghost g: Adjacency, ghost cfg: Config,
        ghost mode: nat, ghost vector: bool, ghost guards: Guards, ghost vs: seq<Vertex>, ghost grun: seq<G.Pool>,
        ghost s: State, ghost logs: seq<Share>)
    returns (ghost grun': seq<G.Pool>)
    requires i < |pool| && pool[i].isContinuation && MayStep(pool, i) && (NeedsGraph(pool[i]) ==> pool[i].Live())
    requires forall j :: 0 <= j < |pool| ==> Member(pool[j], Shared(ws, guards), g, cfg, mode, vector)
    requires forall j, k :: 0 <= j < k < |pool| ==> Apart(pool[j], pool[k])
    requires Simple(g) && ValidOrder(g, cfg.order) && grun != [] && G.IsRun(g, cfg, mode, vs, grun)
        && Guarded(pool, guards, Last(grun)) && Mirrors(pool, ws, s, logs)
    modifies pool[i], pool[i].graphg
    ensures forall j :: 0 <= j < |pool| ==> Member(pool[j], Shared(ws, guards), g, cfg, mode, vector)
    ensures forall j, k :: 0 <= j < k < |pool| ==> Apart(pool[j], pool[k])
    ensures forall j :: 0 <= j < |pool| ==> pool[j].Repr == old(pool[j].Repr)
    ensures Mirrors(pool, ws, s, logs)
    ensures grun' != [] && G.IsRun(g, cfg, mode, vs, grun') && Guarded(pool, guards, Last(grun'))
    ensures Unfinished(Last(grun').agents) < Unfinished(Last(grun).agents)
  {
    hide MainBKTask.Valid, Shared, Simple, ValidOrder, G.IsRun, Mirror, Guarded, Related, OtherAgents, MayStep;
    hide Bystanders, MainBKTask.Live, MainBKTask.Holds, Worker.Valid, SumLogs, SumLeaves;
    ghost var gs := Last(grun);
    LookAside(pool, i, guards, gs);
    forall j | 0 <= j < |pool| ensures pool[j].finished <==> pool[j].agent.phase.Finished? {
      TaskFacts(pool[j]);
    }
    TaskFacts(pool[i]);
    ChildrenFinished(pool, i, guards, gs);
    ghost var gs' := ContinuationStep(g, cfg, mode, vs, grun, gs, i);
    LastIs(grun, gs');
    NotOwned(pool, i, ws, guards, g, cfg, mode, vector);
    ghost var states' := pool[i].Continuation(guards, gs.guards);
    grun' := grun + [gs'];
    Rejoin(pool, i, guards, gs, gs');
    forall j | 0 <= j < |pool| ensures Member(pool[j], Shared(ws, guards), g, cfg, mode, vector) {
    }
  }

  /** Task i is memory of no other task. */
  lemma NotOwned(pool: seq<MainBKTask>, i: nat, ws: seq<Worker>, guards: Guards, g: Adjacency, cfg: Config,
        mode: nat, vector: bool)
    requires i < |pool| && pool[i].graphg in guards
    requires forall j :: 0 <= j < |pool| ==> Member(pool[j], Shared(ws, guards), g, cfg, mode, vector)
    requires forall j, k :: 0 <= j < k < |pool| ==> Apart(pool[j], pool[k])
    ensures forall j :: 0 <= j < |pool| && j != i ==> pool[i] !in pool[j].Repr + pool[j].graph.store
    ensures forall j :: 0 <= j < |pool| ==> pool[i].graphg !in pool[j].Repr + pool[j].graph.store
    ensures forall j :: 0 <= j < |pool| && j != i ==> pool[j] != pool[i]
  {
    hide MainBKTask.Valid;
    assert pool[i].graphg in Shared(ws, guards);
  }

  lemma LastIs(grun: seq<G.Pool>, s: G.Pool)
    ensures Last(grun + [s]) == s
  {
  }

  /** The tasks but number i, as agents. */
  ghost predicate OtherAgents(pool: seq<MainBKTask>, i: nat, guards: Guards, agents: seq<G.Agent>)
    reads set j | 0 <= j < |pool| && j != i :: pool[j]
  {
    && |pool| == |agents|
    && forall j :: 0 <= j < |pool| && j != i ==>
        pool[j].agent == agents[j] && agents[j].guard < |guards| && guards[agents[j].guard] == pool[j].graphg
  }

  lemma LookAside(pool: seq<MainBKTask>, i: nat, guards: Guards, s: G.Pool)
    requires i < |pool| && Guarded(pool, guards, s)
    ensures OtherAgents(pool, i, guards, s.agents) && Related(pool, s.agents) && pool[i].Holds(guards, s.guards)
    ensures pool[i].agent == s.agents[i] && s.agents[i].guard < |s.guards| && pool[i].graphg in guards
  {
  }

  lemma Rejoin(pool: seq<MainBKTask>, i: nat, guards: Guards, s: G.Pool, s': G.Pool)
    requires i < |pool| && OtherAgents(pool, i, guards, s.agents) && Related(pool, s.agents)
    requires pool[i].Holds(guards, s'.guards) && s'.agents == s.agents[i := pool[i].agent]
    requires pool[i].agent.parent == s.agents[i].parent
    requires pool[i].agent.phase.Finished? && !s.agents[i].phase.Finished?
    ensures Guarded(pool, guards, s') && Unfinished(s'.agents) < Unfinished(s.agents)
  {
    hide Mirror;
    assert Related(pool, s'.agents);
    assert i in Unfinished(s.agents) && i !in Unfinished(s'.agents);
  }

  lemma ChildrenFinished(pool: seq<MainBKTask>, i: nat, guards: Guards, s: G.Pool)
    requires i < |pool| && Guarded(pool, guards, s) && pool[i].isContinuation && MayStep(pool, i)
    requires forall j :: 0 <= j < |pool| ==> (pool[j].finished <==> pool[j].agent.phase.Finished?)
    ensures G.Quiet(s.agents, i) && !pool[i].finished
  {
    hide Mirror;
    forall j | 0 <= j < |s.agents| && s.agents[j].parent == i ensures s.agents[j].phase.Finished? {
      assert ParentIs(pool, j, s.agents[j]);
    }
  }

  ghost function Unfinished(agents: seq<G.Agent>): set<nat> {
    set j: nat | j < |agents| && !agents[j].phase.Finished?
  }

  /** As long as some task has not finished, the last one that has not may be picked. */
  lemma LastMayStep(pool: seq<MainBKTask>, guards: Guards, mode: nat, s: G.Pool) returns (i: nat)
    requires Guarded(pool, guards, s) && G.Inv(mode, s) && !GuardRuns.AllFinished(s)
    requires forall j :: 0 <= j < |pool| ==> (pool[j].finished <==> pool[j].agent.phase.Finished?)
    ensures i < |pool| && MayStep(pool, i)
  {
    hide Mirror, G.AgentOk, G.Counted, G.GuardOk, G.Related;
    i := GuardRuns.LastUnfinished(s.agents);
    forall j | 0 <= j < |pool| && pool[j].parent == pool[i] ensures pool[j].finished {
      assert ParentIs(pool, j, s.agents[j]);
      assert 0 <= s.agents[j].parent < j;
      assert s.agents[j].parent == i;
    }
  }

  /** A graph that is needed is there, unless the size limit gives away the whole graph in mode 1. */
  lemma GraphIsThere(pool: seq<MainBKTask>, i: nat, guards: Guards, g: Adjacency, cfg: Config, mode: nat,
        vs: seq<Vertex>, grun: seq<G.Pool>)
    requires Simple(g) && ValidOrder(g, cfg.order) && mode <= 2 && grun != [] && G.IsRun(g, cfg, mode, vs, grun)
        && Guarded(pool, guards, Last(grun))
    requires i < |pool| && NeedsGraph(pool[i]) && pool[i].Valid() && pool[i].mode == mode && MayStep(pool, i)
    ensures !GuardRuns.LosesMainGraph(g, cfg, mode) ==> pool[i].Live()
  {
    hide Simple, ValidOrder, G.IsRun, G.Inv, GuardRuns.LosesMainGraph;
    GuardRuns.NoUseAfterRelease(g, cfg, mode, vs, grun, |grun| - 1);
    var a := pool[i].agent;
    assert a == Last(grun).agents[i];
    if !GuardRuns.LosesMainGraph(g, cfg, mode) {
      assert GuardRuns.Usable(mode, Last(grun).guards, Last(grun).agents[i]);
      PhaseOf(pool[i]);
      hide MainBKTask.Valid;
      assert GuardRuns.Exists(Last(grun).guards, a.guard);
      assert guards[a.guard].State() == Last(grun).guards[a.guard];
    }
  }

  /** Whether the graph of a task is gone. */
  method GraphGone(pool: seq<MainBKTask>, i: nat, ghost guards: Guards, ghost s: G.Pool) returns (gone: bool)
    requires i < |pool| && Guarded(pool, guards, s)
    ensures (gone <==> !pool[i].Live()) && pool[i].graphg in guards
  {
    assert guards[pool[i].agent.guard].Valid();
    gone := pool[i].graphg.graph == null;
  }

  lemma NeedsNow(t: MainBKTask)
    requires !t.isContinuation
    ensures NeedsGraph(t)
  {
  }

  lemma PhaseOf(t: MainBKTask)
    requires t.Valid()
    ensures !t.isContinuation ==> t.agent.phase.Waiting? || t.agent.phase.Searching?
    ensures t.isContinuation && !t.finished ==> t.agent.phase.Resting?
    ensures t.agent.newGraph <==> t.newGraph
    ensures (t.finished <==> t.agent.phase.Finished?) && (t.finished ==> t.isContinuation)
    ensures t.agent.duty == t.duty && (t.isContinuation <==> t.duty == Done)
  {
  }

  /** When the whole graph will be lost, every task ends in its first execution, before anything can fail. */
  lemma EndsBeforeFailing(pool: seq<MainBKTask>, i: nat, guards: Guards, g: Adjacency, cfg: Config, mode: nat,
        vs: seq<Vertex>, grun: seq<G.Pool>)
    requires Simple(g) && ValidOrder(g, cfg.order) && mode <= 2 && grun != [] && G.IsRun(g, cfg, mode, vs, grun)
        && Guarded(pool, guards, Last(grun))
    requires i < |pool| && pool[i].Valid() && pool[i].cfg == cfg && !pool[i].isContinuation
    ensures GuardRuns.LosesMainGraph(g, cfg, mode) ==> pool[i].CutsAtOnce(pool[i].duty)
  {
    hide Simple, ValidOrder, G.IsRun, G.Inv, GuardRuns.Fates, GuardRuns.HasEdge;
    GuardRuns.RunInv(g, cfg, mode, vs, grun, |grun| - 1);
    assert pool[i].agent == Last(grun).agents[i];
    PhaseOf(pool[i]);
    hide MainBKTask.Valid;
    if GuardRuns.LosesMainGraph(g, cfg, mode) {
      GuardRuns.OnlyRoots(g, cfg, vs, Last(grun).agents, i);
    }
  }

  /** The pool after its last step. */
  lemma AtRest(tasks: seq<MainBKTask>, ws: seq<Worker>, s: State, logs: seq<Share>)
    requires Mirrors(tasks, ws, s, logs) && forall j :: 0 <= j < |tasks| ==> tasks[j].duty == Done
    ensures Quiescent(s)
    ensures |ws| == |s.locals| == |logs|
    ensures forall j :: 0 <= j < |ws| ==> ws[j].counts == s.locals[j] && Share(ws[j].log, ws[j].leaves) == logs[j]
    ensures multiset(s.log) == SumLogs(logs) && s.leaves == SumLeaves(logs)
  {
  }

  /** The guards after the last step: that of the whole graph is left alone, and the others have gone once each. */
  ghost predicate CleanedUp(g: Adjacency, limit: int, mode: nat, guards: Guards)
    reads guards
  {
    && guards != [] && guards[0].State() == G.NewGuard()
    && (mode != 2 || !GuardRuns.Exceeded(g, limit) ==>
          forall x :: 1 <= x < |guards| ==> guards[x].State() == G.Guard(0, false, 1))
  }

  lemma EndsCleanly(g: Adjacency, cfg: Config, mode: nat, vs: seq<Vertex>, grun: seq<G.Pool>, guards: Guards)
    requires Simple(g) && ValidOrder(g, cfg.order) && mode <= 2 && grun != [] && G.IsRun(g, cfg, mode, vs, grun)
    requires GuardRuns.AllFinished(Last(grun)) && Mirror(guards, Last(grun).guards)
    ensures guards != []
    ensures guards[0].graph == null <==> GuardRuns.LosesMainGraph(g, cfg, mode)
    ensures !GuardRuns.LosesMainGraph(g, cfg, mode) ==> CleanedUp(g, cfg.limit, mode, guards)
  {
    var s := Last(grun);
    GuardRuns.NoUseAfterRelease(g, cfg, mode, vs, grun, |grun| - 1);
    GuardVerdicts.InvNotEmpty(mode, s);
    hide Simple, ValidOrder, G.IsRun, G.Inv, GuardRuns.LosesMainGraph, GuardRuns.Exceeded, GuardRuns.AllFinished;
    hide GuardRuns.Usable;
    assert guards[0].State() == s.guards[0];
    if s.guards[0].live {
      GuardRuns.MainGraphCount(mode, s);
    }
    if mode != 2 || !GuardRuns.Exceeded(g, cfg.limit) {
      forall x | 1 <= x < |guards| ensures guards[x].State() == G.Guard(0, false, 1) {
        GuardRuns.AllReleased(g, cfg, mode, vs, grun, x);
      }
    }
  }

  /** The guard protocol before the first execution: all tasks are roots, and hold no reference. */
  lemma FirstGuards(pool: seq<MainBKTask>, gg: G.GraphGuard, g: Adjacency, cfg: Config, mode: nat, vs: seq<Vertex>)
    returns (grun: seq<G.Pool>)
    requires Simple(g) && ValidOrder(g, cfg.order) && Enumerates<Vertex>(vs, g.Keys)
    requires gg.Valid() && gg.State() == G.NewGuard() && |pool| == |vs|
    requires forall j :: 0 <= j < |pool| ==> StartsAtRoot(pool[j], gg, g, cfg.order, mode, vs[j])
    requires forall j, k :: 0 <= j < k < |pool| ==> pool[j] != pool[k]
    ensures grun != [] && G.IsRun(g, cfg, mode, vs, grun) && Guarded(pool, [gg], Last(grun))
  {
    hide Simple, ValidOrder, Later, Earlier, Enumerates;
    var s := GuardVerdicts.FirstPool(g, cfg, mode, vs);
    grun := [s];
  }

  lemma DifferentTasks(pool: seq<MainBKTask>, shared: set<object>, g: Adjacency, cfg: Config, mode: nat,
        vector: bool)
    requires forall j :: 0 <= j < |pool| ==> Member(pool[j], shared, g, cfg, mode, vector)
    requires forall j, k :: 0 <= j < k < |pool| ==> Apart(pool[j], pool[k])
    ensures forall j, k :: 0 <= j < k < |pool| ==> pool[j] != pool[k]
    ensures forall j :: 0 <= j < |pool| ==>
        pool[j].Valid() && pool[j].cfg == cfg && pool[j].mode == mode && pool[j] in pool[j].Repr
  {
    hide MainBKTask.Valid;
  }

  /** All tasks, of the given mode and build, have finished, at the end of a run of the guard protocol. */
  ghost predicate AtEnd(pool: seq<MainBKTask>, guards: Guards, g: Adjacency, cfg: Config, mode: nat, vector: bool,
        vs: seq<Vertex>, grun: seq<G.Pool>)
    reads pool, guards
  {
    && Simple(g) && ValidOrder(g, cfg.order) && grun != [] && G.IsRun(g, cfg, mode, vs, grun)
    && Guarded(pool, guards, Last(grun)) && GuardRuns.AllFinished(Last(grun))
    && forall j :: 0 <= j < |pool| ==> pool[j].cfg == cfg && pool[j].mode == mode && pool[j].vector == vector
  }

  /** The end of the loop: all tasks have finished. */
  lemma Finishes(pool: seq<MainBKTask>, shared: set<object>, guards: Guards, g: Adjacency, cfg: Config, mode: nat,
        vector: bool, vs: seq<Vertex>, grun: seq<G.Pool>)
    requires forall j :: 0 <= j < |pool| ==> Member(pool[j], shared, g, cfg, mode, vector)
    requires Simple(g) && ValidOrder(g, cfg.order) && mode <= 2 && grun != [] && G.IsRun(g, cfg, mode, vs, grun)
        && Guarded(pool, guards, Last(grun)) && forall i :: 0 <= i < |pool| ==> !MayStep(pool, i)
    ensures forall j :: 0 <= j < |pool| ==> pool[j].duty == Done
    ensures guards != [] && AtEnd(pool, guards, g, cfg, mode, vector, vs, grun)
    ensures guards[0].graph == null <==> GuardRuns.LosesMainGraph(g, cfg, mode)
    ensures !GuardRuns.LosesMainGraph(g, cfg, mode) ==> CleanedUp(g, cfg.limit, mode, guards)
  {
    hide Simple, ValidOrder, G.IsRun, GuardRuns.LosesMainGraph, MainBKTask.Valid, CleanedUp, G.Inv, Mirror;
    hide GuardRuns.Fates, MayStep;
    GuardRuns.RunInv(g, cfg, mode, vs, grun, |grun| - 1);
    forall j | 0 <= j < |pool|
      ensures pool[j].finished <==> pool[j].agent.phase.Finished?
      ensures pool[j].isContinuation <==> pool[j].duty == Done
      ensures pool[j].finished ==> pool[j].isContinuation
    {
      PhaseOf(pool[j]);
    }
    if !GuardRuns.AllFinished(Last(grun)) {
      var i := LastMayStep(pool, guards, mode, Last(grun));
      assert false;
    }
    forall j | 0 <= j < |pool| ensures pool[j].duty == Done {
      assert Last(grun).agents[j].phase.Finished?;
    }
    EndsCleanly(g, cfg, mode, vs, grun, guards);
  }

  /** The tasks, the workers and the guards in the middle of a run, of the task pool and of the guard protocol. */
  ghost predicate Running(pool: seq<MainBKTask>, ws: seq<Worker>, guards: Guards, g: Adjacency, cfg: Config, mode: nat,
        vector: bool, vs: seq<Vertex>, run: seq<State>, s: State, logs: seq<Share>, grun: seq<G.Pool>)
    requires Simple(g) && ValidOrder(g, cfg.order)
    reads *
  {
    && run != [] && IsRun(g, cfg, vs, run) && s == Final(run) && Mirrors(pool, ws, s, logs)
    && grun != [] && G.IsRun(g, cfg, mode, vs, grun) && Guarded(pool, guards, Last(grun))
    && (forall j :: 0 <= j < |pool| ==> Member(pool[j], Shared(ws, guards), g, cfg, mode, vector))
    && forall j, k :: 0 <= j < k < |pool| ==> Apart(pool[j], pool[k])
  }

  lemma OwnGuardAmong(pool: seq<MainBKTask>, i: nat, ws: seq<Worker>, guards: Guards, g: Adjacency, cfg: Config,
        mode: nat, vector: bool, vs: seq<Vertex>, run: seq<State>, s: State, logs: seq<Share>, grun: seq<G.Pool>)
    requires Simple(g) && ValidOrder(g, cfg.order) && i < |pool|
    requires Running(pool, ws, guards, g, cfg, mode, vector, vs, run, s, logs, grun)
    ensures exists x :: 0 <= x < |guards| && guards[x] == pool[i].graphg
  {
    hide Simple, ValidOrder, Mirrors, Mirror, IsRun, G.IsRun, Member, Apart;
    assert guards[Last(grun).agents[i].guard] == pool[i].graphg;
  }

  /**
   Task i is picked, with worker w: it is executed, or runs as a continuation. Two things can go wrong:
   the graph that it needs is gone (lost), or a hash table fails it.
   */
  method RunOne(pool: seq<MainBKTask>, i: nat, ws: seq<Worker>, w: nat, ghost g: Adjacency, cfg: Config, mode: nat,
        vector: bool, ghost vs: seq<Vertex>, ghost run: seq<State>, ghost s: State, ghost logs: seq<Share>,
        ghost grun: seq<G.Pool>, ghost guards: Guards)
    returns (ok: bool, lost: bool, pool': seq<MainBKTask>, ghost run': seq<State>, ghost s': State,
        ghost logs': seq<Share>, ghost grun': seq<G.Pool>, ghost guards': Guards, ghost failed: Graph?,
        ghost miss: Miss)
    requires Simple(g) && ValidOrder(g, cfg.order) && mode <= 2 && w < |ws|
    requires Running(pool, ws, guards, g, cfg, mode, vector, vs, run, s, logs, grun)
    requires i < |pool| && MayStep(pool, i)
    modifies pool[i].Repr, pool[i].graphg, ws[w]
    ensures lost ==> !ok && GuardRuns.LosesMainGraph(g, cfg, mode)
    ensures GuardRuns.LosesMainGraph(g, cfg, mode) && !lost ==> ok
    ensures !lost && ((mode == 0 && !vector) || Narrow(g)) ==> ok
    ensures !lost && !ok ==> (failed != null && failed.Overgrown()) || Misses(vector, miss)
    ensures ok ==> Running(pool', ws, guards', g, cfg, mode, vector, vs, run', s', logs', grun') && pool <= pool'
    ensures ok ==> guards <= guards' && forall x :: |guards| <= x < |guards'| ==> fresh(guards'[x])
    ensures ok ==> forall j :: 0 <= j < |pool| ==> fresh(pool[j].Repr - old(pool[j].Repr))
    ensures ok ==> forall j :: |pool| <= j < |pool'| ==> fresh(pool'[j].Repr)
    ensures ok ==>
        Weights(s'.tasks) < Weights(s.tasks)
        || (s' == s && Unfinished(Last(grun').agents) < Unfinished(Last(grun).agents))
    ensures ok ==> forall x :: 0 <= x < |guards'| ==> Counts(mode, guards'[x], Last(grun').agents, x)
  {
    hide Member, Apart, Mirrors, Init, Next, IsRun, Final, IsMiss, Narrow, Graph.Overgrown, Simple, ValidOrder;
    hide Weights, Shared, Guarded, MayStep, NeedsGraph, MainBKTask.Live, G.IsRun, Unfinished, MainBKTask.Valid;
    hide GuardRuns.LosesMainGraph, MainBKTask.CutsAtOnce, Counts;
    pool', run', s', logs', grun', guards', failed, miss := pool, run, s, logs, grun, guards, null, NO_MISS;
    ok, lost := true, false;
    DifferentTasks(pool, Shared(ws, guards), g, cfg, mode, vector);
    if NeedsGraph(pool[i]) {
      GraphIsThere(pool, i, guards, g, cfg, mode, vs, grun);
    }
    var gone := GraphGone(pool, i, guards, Last(grun));
    if gone && NeedsGraph(pool[i]) {
      ok, lost := false, true;
    } else if pool[i].isContinuation {
      grun' := FinishOne(pool, i, ws, g, cfg, mode, vector, guards, vs, grun, s, logs);
    } else {
      NeedsNow(pool[i]);
      EndsBeforeFailing(pool, i, guards, g, cfg, mode, vs, grun);
      ok, pool', s', logs', failed, miss, guards', grun' :=
        OneStep(pool, i, ws, w, g, cfg, mode, vector, s, logs, guards, vs, grun);
      if ok {
        RunGrows(g, cfg, vs, run, s');
        run' := run + [s'];
      }
    }
    if ok {
      AllCount(pool', guards', g, cfg, mode, vs, grun');
    }
  }

  /** Along a run every guard counts the tasks that hold it, and has its graph as long as there are any. */
  lemma AllCount(pool: seq<MainBKTask>, guards: Guards, g: Adjacency, cfg: Config, mode: nat, vs: seq<Vertex>,
        grun: seq<G.Pool>)
    requires Simple(g) && ValidOrder(g, cfg.order) && mode <= 2 && grun != [] && G.IsRun(g, cfg, mode, vs, grun)
    requires Guarded(pool, guards, Last(grun))
    ensures forall x :: 0 <= x < |guards| ==> Counts(mode, guards[x], Last(grun).agents, x)
  {
    hide Simple, ValidOrder, G.IsRun, G.Inv, GuardRuns.Fates, Mirror, Counts;
    GuardRuns.RunInv(g, cfg, mode, vs, grun, |grun| - 1);
    forall x | 0 <= x < |guards| ensures Counts(mode, guards[x], Last(grun).agents, x) {
      CountsHolders(mode, guards, Last(grun), x);
    }
  }

  /**
   Any schedule: as long as some task may be picked, any such task is executed by any worker, or runs as
   a continuation. The pool comes to rest. Two things end it early: the graph that a task needs is gone
   (lost), or the process exits while a subgraph is hashed, or goes wrong by a lookup. The former
   happens, if not before then when the program gives back its own guard, if and only if the mode is 1,
   the limit is 0 or 1, and the graph has an edge.
   */
  method RunPool(graph: Graph, nthr: nat, cfg: Config, mode: nat, vector: bool, ghost g: Adjacency)
    returns (ok: bool, lost: bool, ws: seq<Worker>, ghost run: seq<State>, ghost logs: seq<Share>, ghost s: State,
        ghost failed: Graph?, ghost miss: Miss, ghost guards: Guards, ghost tasks: seq<MainBKTask>,
        ghost grun: seq<G.Pool>)
    requires Simple(g) && ValidOrder(g, cfg.order) && mode <= 2 && graph.Ready() && graph.model == g && nthr >= 1
    requires cfg.order.ByPosition? ==> graph.backwardsMapping == cfg.order.pos
    requires Enumerates<Vertex>(graph.vertexOrdering, g.Keys)
    requires Positioned(graph.vertexOrdering, graph.backwardsMapping, |graph.vertexOrdering|)
    ensures lost <==> GuardRuns.LosesMainGraph(g, cfg, mode)
    ensures lost <==> !GuardVerdicts.AlwaysUsable(g, cfg, mode, graph.vertexOrdering)
    ensures lost ==> !ok
    ensures !lost && ((mode == 0 && !vector) || Narrow(g)) ==> ok
    ensures !lost && !ok ==> (failed != null && failed.Overgrown()) || Misses(vector, miss)
    ensures ok ==> CleanedUp(g, cfg.limit, mode, guards)
    ensures ok ==> AtEnd(tasks, guards, g, cfg, mode, vector, graph.vertexOrdering, grun)
    ensures ok ==> run != [] && IsRun(g, cfg, graph.vertexOrdering, run) && s == Final(run) && Quiescent(s)
    ensures ok ==> |ws| == |s.locals| == |logs| == nthr
    ensures ok ==> forall j :: 0 <= j < |ws| ==>
        ws[j].counts == s.locals[j] && Share(ws[j].log, ws[j].leaves) == logs[j]
    ensures ok ==> multiset(s.log) == SumLogs(logs) && s.leaves == SumLeaves(logs)
  {
    hide Member, Apart, Mirrors, Init, Next, IsRun, Final, IsMiss, Narrow, Graph.Overgrown, Simple, ValidOrder;
    hide SumLogs, SumLeaves, Weights, Shared, Guarded, MayStep, NeedsGraph, CleanedUp, MainBKTask.Live, G.IsRun;
    hide Graph.Ready, Later, Earlier, GuardRuns.LosesMainGraph, GuardVerdicts.AlwaysUsable, Unfinished, SplitsAt;
    hide Positioned, AtEnd;
    ghost var vs := graph.vertexOrdering;
    GuardVerdicts.NoUseAfterReleaseExactly(g, cfg, mode, vs);
    ws := NewWorkers(nthr);
    var gg := new G.GraphGuard(graph);
    guards := [gg];
    SharedApart(ws, gg, graph.store + {graph});
    var pool := SpawnRoots(gg, graph.vertexOrdering, ws, cfg, mode, vector, g);
    s, logs := StartsAsInit(pool, ws, g, cfg, vs);
    FirstRun(g, cfg, vs, s);
    DifferentTasks(pool, Shared(ws, guards), g, cfg, mode, vector);
    tasks := pool;
    grun := FirstGuards(pool, gg, g, cfg, mode, vs);
    run, ok, lost, failed, miss := [s], true, false, null, NO_MISS;
    while exists i :: 0 <= i < |pool| && MayStep(pool, i)
      invariant ok && !lost && Running(pool, ws, guards, g, cfg, mode, vector, vs, run, s, logs, grun)
      invariant |ws| == nthr && guards != [] && guards[0] == gg
      invariant forall x :: 0 <= x < |ws| ==> fresh(ws[x])
      invariant forall x :: 0 <= x < |guards| ==> fresh(guards[x])
      invariant forall j :: 0 <= j < |pool| ==> fresh(pool[j].Repr)
      decreases Weights(s.tasks), Unfinished(Last(grun).agents)
    {
      var i: nat :| i < |pool| && MayStep(pool, i);
      var w: nat :| w < |ws|;
      OwnGuardAmong(pool, i, ws, guards, g, cfg, mode, vector, vs, run, s, logs, grun);
      ok, lost, pool, run, s, logs, grun, guards, failed, miss :=
        RunOne(pool, i, ws, w, g, cfg, mode, vector, vs, run, s, logs, grun, guards);
      if !ok {
        return;
      }
    }
    Finishes(pool, Shared(ws, guards), guards, g, cfg, mode, vector, vs, grun);
    tasks := pool;
    AtRest(pool, ws, s, logs);
    if gg.graph == null {
      ok, lost := false, true;
    }
  }

  /** `--ord` */
  datatype OrderOption = DegeneracyOrder | DegreeOrder | InverseDegreeOrder

  /**
   What each option promises of the order and the listing vs of the vertices: always removing a vertex of
   least degree; or ascending, or descending degrees.
   */
  ghost predicate Follows(g: Adjacency, option: OrderOption, ord: Order, vs: seq<Vertex>)
    requires Simple(g) && ValidOrder(g, ord)
  {
    match option
    case DegeneracyOrder => ord.ByPosition? && Positioned(vs, ord.pos, |vs|) && LeastFirst(g, vs, |vs|)
    case DegreeOrder => forall v :: v in g ==> Rising(g, v, Later(g, ord, v), Earlier(g, ord, v))
    case InverseDegreeOrder => forall v :: v in g ==> Falling(g, v, Later(g, ord, v), Earlier(g, ord, v))
  }

  /** The vertex order that a run uses; only the degeneracy order has to be computed. */
  method PrepareOrder(graph: Graph, option: OrderOption) returns (ord: Order)
    requires graph.Ready() && Simple(graph.model) && |graph.vertexOrdering| == |graph.model.Keys| && graph.maxdeg >= -1
    requires Enumerates<Vertex>(graph.vertexOrdering, graph.model.Keys)
    requires Positioned(graph.vertexOrdering, graph.backwardsMapping, |graph.vertexOrdering|)
    requires option == DegeneracyOrder ==> forall v :: v in graph.model ==> |graph.model[v]| < graph.maxdeg + 1
    modifies graph`vertexOrdering, graph`backwardsMapping, graph`degeneracy
    ensures graph.Ready() && Enumerates<Vertex>(graph.vertexOrdering, graph.model.Keys)
    ensures Positioned(graph.vertexOrdering, graph.backwardsMapping, |graph.vertexOrdering|)
    ensures ValidOrder(graph.model, ord) && (ord.ByPosition? ==> graph.backwardsMapping == ord.pos)
    ensures Follows(graph.model, option, ord, graph.vertexOrdering)
    ensures option == DegeneracyOrder ==> LaterAtMost(graph.model, ord, graph.degeneracy)
    ensures option == DegeneracyOrder && graph.model != map[] ==> NoOrderBelow(graph.model, graph.degeneracy)
  {
    hide Graph.Ready, Simple, LaterAtMost, NoOrderBelow, Rising, Falling, Later, Earlier, Before, Positioned;
    hide LeastFirst;
    forall v: Vertex, o: Order | v in graph.model && ValidOrder(graph.model, o)
      ensures Later(graph.model, o, v) + Earlier(graph.model, o, v) <= graph.model.Keys
      ensures o.ByDegree? ==> Rising(graph.model, v, Later(graph.model, o, v), Earlier(graph.model, o, v))
      ensures o.ByInverseDegree? ==> Falling(graph.model, v, Later(graph.model, o, v), Earlier(graph.model, o, v))
    {
      OrderMeans(graph.model, o, v);
    }
    match option
    case DegeneracyOrder =>
      var degen := graph.DegeneracyOrdering();
      ord := ByPosition(graph.backwardsMapping);
    case DegreeOrder => ord := ByDegree;
    case InverseDegreeOrder => ord := ByInverseDegree;
  }

  /** Read the edges into a graph of hashed adjacency sets. */
  method Load(edges: seq<Edge>) returns (ok: bool, graph: Graph)
    ensures fresh(graph) && (!ok ==> graph.Overgrown()) && graph.edgeNo == 2 * ProperEdges(edges)
    ensures ok ==>
        graph.Ready() && fresh(graph.store) && graph.model == GraphOf(edges) && Simple(graph.model)
            && graph.maxdeg >= -1
    ensures ok ==>
        Enumerates<Vertex>(graph.vertexOrdering, graph.model.Keys) && |graph.vertexOrdering| == |graph.model.Keys|
    ensures ok ==> Positioned(graph.vertexOrdering, graph.backwardsMapping, |graph.vertexOrdering|)
    ensures ok ==> (graph.maxdeg == -1 <==> OnlyLoops(edges))
    ensures ok && graph.maxdeg != -1 ==> forall v :: v in graph.model ==> |graph.model[v]| < graph.maxdeg + 1
    ensures Sparse(edges) ==> ok && Narrow(graph.model)
  {
    hide Graph.Ready, Graph.Building, GraphOf, Simple, Bounded, Sparse, Narrow, Graph.Overgrown, OnlyLoops;
    graph := new Graph();
    NoEdges(graph.maxdeg);
    ok := graph.LoadEdges(edges);
    if ok {
      GraphOfIsSimple(edges);
      EnumerationSize<Vertex>(graph.vertexOrdering, graph.model.Keys);
      LoopsGiveNoDegree(edges);
    }
  }

  lemma LoopsGiveNoDegree(edges: seq<Edge>)
    ensures OnlyLoops(edges) <==> forall v :: v in GraphOf(edges) ==> GraphOf(edges)[v] == {}
    ensures OnlyLoops(edges) ==> Sparse(edges)
    ensures edges == [] <==> GraphOf(edges) == map[]
    ensures GuardRuns.HasEdge(GraphOf(edges)) <==> !OnlyLoops(edges)
  {
    if e :| e in edges && e.0 != e.1 {
      assert Joined(edges, e.0, e.1);
      JoinedEndpoints(edges, e.0, e.1);
      assert e.1 in GraphOf(edges)[e.0];
    } else {
      LoopsCountNothing(edges);
    }
    if edges != [] {
      assert edges[0] in edges;
      assert edges[0].0 in GraphOf(edges);
    }
  }

  lemma {:induction false} LoopsCountNothing(edges: seq<Edge>)
    requires OnlyLoops(edges)
    ensures forall v :: Times(edges, v) == 0
    decreases |edges|
  {
    if edges != [] {
      LoopsCountNothing(edges[..|edges| - 1]);
    }
  }

  /** The per-worker histograms. */
  method Collect(ws: seq<Worker>) returns (hs: seq<Histogram>)
    ensures |hs| == |ws| && forall j :: 0 <= j < |ws| ==> hs[j] == ws[j].counts
  {
    hs := [];
    for i := 0 to |ws|
      invariant |hs| == i && forall j :: 0 <= j < i ==> hs[j] == ws[j].counts
    {
      hs := hs + [ws[i].counts];
    }
  }

  /** The merged histogram of a run at rest. */
  lemma MergedIsExact(g: Adjacency, cfg: Config, vs: seq<Vertex>, run: seq<State>, merged: Histogram)
    requires Simple(g) && ValidOrder(g, cfg.order) && run != [] && IsRun(g, cfg, vs, run) && Quiescent(Final(run))
    requires forall k: nat :: k in merged <==> ListedIn(Final(run).locals, k)
    requires forall k: nat :: CountAt(merged, k) == SumAt(Final(run).locals, k)
    ensures forall k: nat :: k in merged <==> SizeClass(AllMaximal(g, cfg.limit), k) != {}
    ensures forall k: nat :: CountAt(merged, k) == |SizeClass(AllMaximal(g, cfg.limit), k)|
    ensures Total(merged, merged.Keys) == |AllMaximal(g, cfg.limit)|
  {
    hide AllMaximal, IsRun, Quiescent, SizeClass, Inv, Simple, ValidOrder;
    var s := Final(run);
    ExactlyOnce(g, cfg, vs, run);
    forall k: nat ensures CountAt(merged, k) == OfSize(s.log, k) {
      OnceEachCounts(s.log, AllMaximal(g, cfg.limit), k);
      assert CountAt(merged, k) == SumAt(s.locals, k);
    }
    TotalIsLength(merged, s.log);
    assert |multiset(s.log)| == |multiset(AllMaximal(g, cfg.limit))|;
  }

  /**
   How the program ends: with the histogram, by an assertion of the degeneracy ordering, by working on a
   graph that has been destroyed, or because of a hash table.
   */
  datatype Outcome = Completed | AssertionFailed | GraphLost | TableFailed

  /** A run of the task pool to its rest, in the order that the option asks for. */
  ghost predicate Rested(g: Adjacency, cfg: Config, option: OrderOption, vs: seq<Vertex>, run: seq<State>) {
    && Simple(g) && ValidOrder(g, cfg.order) && Follows(g, option, cfg.order, vs)
    && run != [] && IsRun(g, cfg, vs, run) && Quiescent(Final(run))
  }

  /**
   The program on a list of edges: for every order, threshold, subgraph mode, size limit and number of
   threads, and for every schedule, if it completes the histogram lists the sizes of the maximal cliques of
   the graph, each with their number, `run` is the run of the task pool, and every subgraph it has made has
   been destroyed once, except that in mode 2 the size limit may leak some. There are three other ends.

   It is aborted by an assertion of the degeneracy ordering exactly when all edges are loops and there is
   one. It works on the whole graph after its destruction, once that has been read (`loaded`), exactly in
   mode 1 with a limit of 0 or 1 and an edge that is no loop. And a hash table fails it: one of the graph
   `failed` has outgrown its bounds, which ends the process, or, on the vector build, the memory behind a
   table has made the lookup `miss` go wrong. The latter end needs a vertex with more than fifteen
   neighbours, or a list too long for any table.
   */
  method EnumerateCliques(edges: seq<Edge>, option: OrderOption, threshold: int, limit: int, mode: nat, vector: bool,
        nthr: nat)
    returns (outcome: Outcome, histogram: Histogram, maxClqNum: nat, ghost loaded: bool, ghost leaves: nat,
        ghost degeneracy: nat, ghost guards: Guards, ghost failed: Graph?, ghost miss: Miss, ghost ord: Order,
        ghost vs: seq<Vertex>, ghost run: seq<State>, ghost tasks: seq<MainBKTask>, ghost grun: seq<G.Pool>)
    requires mode <= 2 && nthr >= 1
    ensures outcome == AssertionFailed <==> option == DegeneracyOrder && edges != [] && OnlyLoops(edges)
    ensures outcome == GraphLost <==> loaded && mode == 1 && 0 <= limit <= 1 && !OnlyLoops(edges)
    ensures outcome == TableFailed ==> (failed != null && failed.Overgrown()) || Misses(vector, miss)
    ensures !loaded ==> outcome == TableFailed
    ensures Sparse(edges) ==> loaded && outcome != TableFailed
    ensures outcome == Completed ==>
        forall k: nat :: CountAt(histogram, k) == |SizeClass(AllMaximal(GraphOf(edges), limit), k)|
    ensures outcome == Completed ==>
        forall k: nat :: k in histogram <==> SizeClass(AllMaximal(GraphOf(edges), limit), k) != {}
    ensures outcome == Completed ==> maxClqNum == |AllMaximal(GraphOf(edges), limit)|
    ensures outcome == Completed ==> CleanedUp(GraphOf(edges), limit, mode, guards)
    ensures outcome == Completed ==>
        Rested(GraphOf(edges), Config(limit, threshold, ord), option, vs, run) && leaves == Final(run).leaves
            && |Final(run).locals| == nthr
            && AtEnd(tasks, guards, GraphOf(edges), Config(limit, threshold, ord), mode, vector, vs, grun)
    ensures outcome == Completed && option == DegeneracyOrder ==>
        leaves <= |GraphOf(edges).Keys| * MaxLeaves(degeneracy)
    ensures outcome == Completed && option == DegeneracyOrder && edges != [] ==>
        NoOrderBelow(GraphOf(edges), degeneracy)
  {
    hide GraphOf, Graph.Ready, Graph.Overgrown, Simple, Sparse, OnlyLoops, Narrow, ValidOrder, AllMaximal, SizeClass;
    hide IsRun, Quiescent, SumLogs, SumLeaves, LaterAtMost, NoOrderBelow, MaxLeaves, IsMiss, GuardRuns.HasEdge;
    hide GuardVerdicts.AlwaysUsable, CleanedUp, Positioned, LeastFirst, Follows, ListedIn, AtEnd, CountAt, Total;
    outcome, histogram, maxClqNum, leaves, degeneracy, guards, miss := TableFailed, map[], 0, 0, 0, [], NO_MISS;
    ord, vs, run, tasks, grun := ByDegree, [], [], [], [];
    LoopsGiveNoDegree(edges);
    var ok, graph := Load(edges);
    failed, loaded := graph, ok;
    if !ok {
      return;
    }
    ghost var g := graph.model;
    if option == DegeneracyOrder && graph.maxdeg == -1 && |graph.vertexOrdering| > 0 {
      outcome := AssertionFailed;
      return;
    }
    var order := PrepareOrder(graph, option);
    var cfg := Config(limit, threshold, order);
    ord, vs := order, graph.vertexOrdering;
    var lost, ws;
    ghost var logs, s;
    ok, lost, ws, run, logs, s, failed, miss, guards, tasks, grun := RunPool(graph, nthr, cfg, mode, vector, g);
    outcome := if lost then GraphLost else if ok then Completed else TableFailed;
    if !ok {
      return;
    }
    var hs := Collect(ws);
    assert hs == s.locals;
    histogram, maxClqNum := MergeHistograms(hs);
    ListedWhere(hs);
    MergedIsExact(g, cfg, graph.vertexOrdering, run, histogram);
    leaves, degeneracy := SumLeaves(logs), graph.degeneracy;
    if option == DegeneracyOrder {
      RunBounds(g, cfg, graph.vertexOrdering, run, degeneracy);
      EnumerationSize<Vertex>(graph.vertexOrdering, g.Keys);
    }
  }
}
