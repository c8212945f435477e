/**
 The search task. Its methods work in place on the lists P, X and R and on the worker's histogram;
 their contracts are the relations of `TaskPool.dfy`.
 */
module Search {
  import opened Keys
  import opened FiniteSets
  import opened Filters
  import opened Hopscotch
  import opened LeafBound
  import opened UnrolledLists
  import opened HashSets
  import opened SetBuilds
  import opened VertexSets
  import opened Cliques
  import opened Roots
  import opened Subgraphs
  import opened Pruning
  import opened Graphs
  import opened TaskPool
  import opened Workers
  import opened GraphGuards
  import opened GuardObjects

  /** The best vertex of the lists, scored through a graph that serves the branch, is a best pivot of the branch. */
  lemma ListPivotIsBest(h: Adjacency, g: Adjacency, ps: seq<Vertex>, xs: seq<Vertex>, pivot: int)
    requires Serves(h, g, ToSet(ps), ToSet(xs)) && NoDups(ps) && BestOf(h, ps, xs, pivot)
    ensures IsKey(pivot) && BestPivot(g, ToSet(ps), ToSet(xs), pivot)
  {
    var P, X := ToSet(ps), ToSet(xs);
    forall u | u in P + X ensures u in g && Overlap(h, ps, u) == Score(g, P, u) {
      SameAnswers(h, g, P, X, u);
      FilterSize(ps, h[u]);
    }
    hide Overlap, Score;
    assert pivot in P + X;
    forall w | w in P + X ensures Score(g, P, w) <= Score(g, P, pivot) {
      assert w in ps || w in xs;
    }
  }

  /** P, X and the graph h carry the branch (S, T) of the search in g. */
  ghost predicate Carries(P: SimpleHashSet, X: SimpleHashSet, h: Graph, g: Adjacency, S: set<Vertex>, T: set<Vertex>)
    reads P, P.Repr, X, X.Repr, h, h.store
  {
    && Lists(P, S) && Lists(X, T) && S !! T && h.Ready() && Serves(h.model, g, S, T)
    && (Narrow(g) ==> Narrow(h.model))
  }

  class MainBKTask {
    const cfg: Config
    /** The subgraph mode: 0, 1 or 2. */
    const mode: nat
    /** The build with vector operations. */
    const vector: bool
    /** The task that has spawned this one; none for a root. */
    const parent: MainBKTask?
    const new_vertex: Vertex
    /** The whole graph. */
    ghost const g: Adjacency

    var graphg: GraphGuard
    var newTask: bool
    var isContinuation: bool
    /** The continuation has run. */
    var finished: bool
    var newGraph: bool
    var taskSpawnCnt: nat
    var taskLevel: nat

    var R_task: UnrolledList?
    var P_task: SimpleHashSet?
    var X_task: SimpleHashSet?
    var cand_task: SimpleHashSet?

    /** The memory this task owns alone, what it is responsible for, and where its iterator stands. */
    ghost var Repr: set<object>
    ghost var duty: Task
    ghost var cursor: int
    /** The graph that its guard was made for, and the task as an agent of the guard protocol. */
    ghost var graph: Graph
    ghost var agent: Agent

    /** A task before its first execution that has its lists. */
    ghost predicate HasLists()
      reads this, Repr, graph, graph.store
    {
      && R_task != null && P_task != null && X_task != null
      && {R_task, P_task, X_task} <= Repr && R_task.Repr <= Repr && P_task.Repr <= Repr && X_task.Repr <= Repr
      && R_task.Repr !! P_task.Repr !! X_task.Repr !! {this}
      && (duty.New? || duty.Looping?) && TaskOk(g, cfg.limit, duty)
      && IsList(R_task, duty.R) && Carries(P_task, X_task, graph, g, duty.P, duty.X)
    }

    /** Between two executions: candidates are waiting. */
    ghost predicate InLoop()
      reads this, Repr, graph, graph.store
    {
      && HasLists() && duty.Looping? && cand_task != null && cand_task in Repr && cand_task.Repr <= Repr
      && Queue(cand_task, cursor, duty.K)
      && cand_task.Repr !! R_task.Repr !! P_task.Repr !! X_task.Repr !! {this}
    }

    ghost predicate Valid()
      reads this, Repr, graph, graph.store
    {
      && Static() && (isContinuation <==> duty == Done) && InPhase()
      && (!isContinuation && newTask ==>
          Unstarted() && if parent == null then RootDuty() else duty.New? && HasLists())
      && (!isContinuation && !newTask ==> InLoop())
    }

    ghost predicate Static()
      reads this, graph
    {
      && this in Repr && Repr !! graph.store + {graph} && Simple(g) && ValidOrder(g, cfg.order) && mode <= 2
      && graphg !in Repr + graph.store && graphg.held == graph
      && agent.duty == duty && (agent.newGraph <==> newGraph) && (IsRoot(agent) <==> parent == null)
    }

    /** Where the task stands in the guard protocol. */
    ghost predicate InPhase()
      reads this
    {
      && (finished <==> agent.phase.Finished?)
      && if isContinuation then agent.phase.Resting? || finished
         else agent.phase == if newTask then Waiting else Searching
    }

    /** `guards` are all guards, with the own one among them, and `states` is what they look like. */
    ghost predicate Holds(guards: seq<GraphGuard>, states: seq<Guard>)
      reads this, guards
    {
      Mirror(guards, states) && agent.guard < |guards| && guards[agent.guard] == graphg
    }

    /** No guard is memory of this task. */
    ghost predicate Away(guards: seq<GraphGuard>)
      reads this
    {
      forall x :: 0 <= x < |guards| ==> guards[x] !in Repr
    }

    /** The graph under guard is there. */
    ghost predicate Live()
      reads this, graphg
    {
      graphg.Valid() && graphg.graph != null
    }

    ghost predicate Unstarted()
      reads this
    {
      taskSpawnCnt == 0 && taskLevel == 0 && (newGraph <==> if parent == null then mode != 0 else mode == 2)
    }

    ghost predicate RootDuty()
      reads this, graph, graph.store
      requires Simple(g) && ValidOrder(g, cfg.order)
    {
      && new_vertex in g
          && duty == New({new_vertex}, Later(g, cfg.order, new_vertex), Earlier(g, cfg.order, new_vertex))
      && graph.Ready() && graph.model == g && (cfg.order.ByPosition? ==> graph.backwardsMapping == cfg.order.pos)
    }

    /** A root task; its lists are built when it first executes. */
    constructor Root(vertex: Vertex, gg: GraphGuard, cfg: Config, mode: nat, vector: bool, ghost g: Adjacency)
      requires Simple(g) && ValidOrder(g, cfg.order) && mode <= 2 && vertex in g && gg !in gg.held.store
      requires gg.held.Ready() && gg.held.model == g
          && (cfg.order.ByPosition? ==> gg.held.backwardsMapping == cfg.order.pos)
      ensures Valid() && fresh(Repr)
          && duty == New({vertex}, Later(g, cfg.order, vertex), Earlier(g, cfg.order, vertex))
      ensures this.cfg == cfg && this.mode == mode && this.vector == vector && this.g == g && parent == null
      ensures graphg == gg && graph == gg.held && agent == Agent(duty, -1, 0, mode != 0, Waiting)
    {
      hide Simple, ValidOrder, Later, Graph.Ready, TaskOk;
      this.cfg, this.mode, this.vector, this.parent, this.new_vertex, this.g := cfg, mode, vector, null, vertex, g;
      graphg, graph, newTask, isContinuation, finished, newGraph := gg, gg.held, true, false, false, mode != 0;
      taskSpawnCnt, taskLevel := 0, 0;
      R_task, P_task, X_task, cand_task := null, null, null, null;
      Repr, duty, cursor := {this}, New({vertex}, Later(g, cfg.order, vertex), Earlier(g, cfg.order, vertex)), -1;
      agent :=
        Agent(New({vertex}, Later(g, cfg.order, vertex), Earlier(g, cfg.order, vertex)), -1, 0, mode != 0, Waiting);
    }

    /** A child task takes over the lists it is given. */
    constructor Child(R: UnrolledList, P: SimpleHashSet, X: SimpleHashSet, gg: GraphGuard, vertex: Vertex,
          parent: MainBKTask, cfg: Config, mode: nat, vector: bool, ghost g: Adjacency, ghost a: Agent)
      requires Simple(g) && ValidOrder(g, cfg.order) && mode <= 2 && a.duty.New? && TaskOk(g, cfg.limit, a.duty)
      requires !IsRoot(a) && (a.newGraph <==> mode > 1) && a.phase == Waiting
      requires IsList(R, a.duty.R) && Carries(P, X, gg.held, g, a.duty.P, a.duty.X)
      requires R in R.Repr && P in P.Repr && X in X.Repr && gg !in R.Repr + P.Repr + X.Repr + gg.held.store
      requires R.Repr !! P.Repr !! X.Repr !! gg.held.store + {gg.held}
      ensures Valid() && fresh(Repr - R.Repr - P.Repr - X.Repr) && duty == a.duty && agent == a
      ensures this.cfg == cfg && this.mode == mode && this.vector == vector && this.g == g && this.parent == parent
      ensures graphg == gg && graph == gg.held
    {
      hide Simple, ValidOrder, TaskOk, Carries, IsList;
      this.cfg, this.mode, this.vector, this.parent, this.new_vertex, this.g := cfg, mode, vector, parent, vertex, g;
      graphg, graph, newTask, isContinuation, finished, newGraph := gg, gg.held, true, false, false, mode > 1;
      taskSpawnCnt, taskLevel := 0, 0;
      R_task, P_task, X_task, cand_task := R, P, X, null;
      Repr, duty, cursor, agent := {this} + R.Repr + P.Repr + X.Repr, a.duty, -1, a;
    }

    // --- the guard ---

    /** The graph h is there, under the guard of this task, which is away from the memory S. */
    ghost predicate Guards(h: Graph, S: set<object>)
      reads this, graphg, h
    {
      Live() && graphg.held == h && graphg !in S + h.store
    }

    /** The guard has not been touched. */
    ghost predicate KeepsGuard(own: GraphGuard, was: Guard)
      reads this, own
    {
      graphg == own && own.Valid() && own.State() == was
    }

    /** A child task in mode 2 gives a reference back. */
    function GivenBack(was: Guard): Guard {
      if mode == 2 && parent != null then Decremented(was) else was
    }

    /** A new guard for the subgraph takes the place of the old one. */
    ghost predicate TakesGuard(own: GraphGuard, was: Guard, sub: Graph)
      reads this, own, graphg
    {
      && graphg != own && graphg.Valid() && graphg.State() == NewGuard() && graphg.held == sub
      && own.Valid() && own.State() == GivenBack(was)
    }

    /** A task that ends at once lets go of the graph. */
    ghost predicate LeavesGuard(own: GraphGuard, was: Guard)
      reads this, own
    {
      graphg == own && own.Valid() && own.State() == GivenBack(was) && !newGraph
    }

    /** The guard once there is a pivot: a new one, if there is a new graph. */
    ghost predicate PicksGuard(own: GraphGuard, was: Guard, h: Graph)
      reads this, own, graphg
    {
      if CreatesGraph() then TakesGuard(own, was, h) else KeepsGuard(own, was)
    }

    /** The guard after the beginning of the first call, which works on the branch t and goes on in the graph h. */
    ghost predicate StartsGuard(own: GraphGuard, was: Guard, t: Task, h: Graph)
      reads this, own, graphg
      requires t.New?
    {
      if t.P == {} then LeavesGuard(own, was)
      else if CutsOff(cfg.limit, |t.R|) then KeepsGuard(own, was)
      else PicksGuard(own, was, h)
    }

    lemma StartsGuardFacts(own: GraphGuard, was: Guard, t: Task, h: Graph)
      requires t.New? && StartsGuard(own, was, t, h)
      ensures t.P == {} || CutsOff(cfg.limit, |t.R|) || !CreatesGraph() ==> graphg == own
      ensures t.P != {} && !CutsOff(cfg.limit, |t.R|) && CreatesGraph() ==> graphg != own && graphg.held == h
    {
    }

    /** What a task may change before it has started a sequential call: its guard, and the flag for it. */
    ghost function Opening(): set<MainBKTask>
      reads this
    {
      if taskSpawnCnt == 0 then {this} else {}
    }

    ghost function OwnGuard(): set<GraphGuard>
      reads this
    {
      if taskSpawnCnt == 0 then {graphg} else {}
    }

    /** The guard that an iteration of d may count up: that of the task, unless all its children are too small. */
    ghost function SpawnGuard(d: Task): set<GraphGuard>
      reads this
    {
      if d.Looping? && cfg.threshold <= |d.P| + |d.X| then {graphg} else {}
    }

    // --- LoopIteration ---

    /** Intersect P and X with the neighbours of the vertex, then move it from P to X. */
    method SplitOff(vertex: Vertex, P: SimpleHashSet, X: SimpleHashSet, h: Graph, ghost t: Task)
      returns (ok: bool, intersP: SimpleHashSet, intersX: SimpleHashSet, ghost miss: Miss)
      requires t.Looping? && vertex in t.P && Carries(P, X, h, g, t.P, t.X) && vertex in g
      requires P.Repr !! X.Repr && P.Repr + X.Repr !! h.store + {h}
      modifies P.Repr, X.Repr
      ensures (Narrow(g) ==> ok) && (!ok ==> Misses(vector, miss))
      ensures ok ==> Carries(P, X, h, g, t.P - {vertex}, t.X + {vertex})
      ensures ok ==> Carries(intersP, intersX, h, g, t.P * g[vertex], t.X * g[vertex])
      ensures ok ==> P.Repr == old(P.Repr) && fresh(X.Repr - old(X.Repr))
      ensures ok ==>
          fresh(intersP.Repr) && fresh(intersX.Repr) && intersP.Repr !! intersX.Repr
              && intersP.Repr + intersX.Repr !! X.Repr
      ensures ok ==> intersP in intersP.Repr && intersX in intersX.Repr
    {
      hide Narrow, IsMiss;
      hide Lists, Serves, Graph.Ready;
      SplitServes(h.model, g, t.P, t.X, vertex);
      ListsOwn(P, t.P);
      ListsOwn(X, t.X);
      ok, intersP, miss := Restrict(vector, P, t.P, h, vertex);
      if !ok {
        intersX := intersP;
        return;
      }
      ok, intersX, miss := Restrict(vector, X, t.X, h, vertex);
      if !ok {
        return;
      }
      Delete(vector, P, t.P, vertex);
      Add(X, t.X, vertex);
    }

    /** The call on the child, in place: R grows by the vertex for the time of the call. */
    method DescendSequentially(vertex: Vertex, R: UnrolledList, P: SimpleHashSet, X: SimpleHashSet, h: Graph,
          w: Worker, ghost t: Task, ghost c: Task)
      returns (ok: bool, ghost out: seq<set<Vertex>>, ghost miss: Miss)
      requires Simple(g) && ValidOrder(g, cfg.order) && mode <= 2 && c.New? && Branch(g, cfg.limit, c.R, c.P, c.X)
      requires t.Looping? && c.R == t.R + {vertex} && vertex !in t.R && |c.P| < |t.P|
      requires IsList(R, t.R) && Carries(P, X, h, g, c.P, c.X) && w.Valid() && |c.P| + |c.X| < cfg.threshold
      requires R.Repr !! P.Repr !! X.Repr !! h.store + {h} !! {w} !! {this}
      modifies `taskSpawnCnt, `taskLevel, w, R.Repr, P.Repr, X.Repr
      ensures (Narrow(g) ==> ok) && (!ok ==> Misses(vector, miss))
      ensures ok ==> w.Valid() && w.log == old(w.log) + out && multiset(out) == multiset(Below(g, cfg.limit, c.R, c.P))
      ensures ok ==> |out| <= w.leaves - old(w.leaves) <= MaxLeaves(|c.P|)
      ensures ok ==> R.Valid() && fresh(R.Repr - old(R.Repr)) && R.Elems() == old(R.Elems()) && IsList(R, t.R)
      ensures ok ==> taskLevel == old(taskLevel) && taskSpawnCnt >= old(taskSpawnCnt)
      decreases |t.P|, 0, 0
    {
      hide ValidOrder, ListOf;
      hide Narrow, IsMiss;
      hide Carries, IsList, Branch, Worker.Valid, Below, UnrolledList.Valid, UnrolledList.Elems, MaxLeaves, Simple;
      taskSpawnCnt := taskSpawnCnt + 1;
      taskLevel := taskLevel + 1;
      ghost var s := CliqueElems(R, t.R);
      IsListSize(R, t.R);
      CarriesOwn(P, X, h, g, c.P, c.X);
      Push(R, t.R, vertex);
      ok, out, miss := SequentialRun(R, P, X, h, w, c);
      if !ok {
        return;
      }
      Pop(R, s, vertex);
      Restored(R, s, t.R);
      taskLevel := taskLevel - 1;
    }

    /** A whole subtree without new tasks: all of it is reported to this worker, and R is restored. */
    method SequentialRun(R: UnrolledList, P: SimpleHashSet, X: SimpleHashSet, h: Graph, w: Worker, ghost c: Task)
      returns (ok: bool, ghost out: seq<set<Vertex>>, ghost miss: Miss)
      requires Simple(g) && ValidOrder(g, cfg.order) && mode <= 2 && c.New? && Branch(g, cfg.limit, c.R, c.P, c.X)
      requires taskSpawnCnt > 0 && taskLevel > 0
      requires IsList(R, c.R) && Carries(P, X, h, g, c.P, c.X) && w.Valid() && |c.P| + |c.X| < cfg.threshold
      requires R.Repr !! P.Repr !! X.Repr !! h.store + {h} !! {w} !! {this}
      modifies `taskSpawnCnt, `taskLevel, w, R.Repr, P.Repr, X.Repr
      ensures (Narrow(g) ==> ok) && (!ok ==> Misses(vector, miss))
      ensures ok ==> w.Valid() && w.log == old(w.log) + out && multiset(out) == multiset(Below(g, cfg.limit, c.R, c.P))
      ensures ok ==> |out| <= w.leaves - old(w.leaves) <= MaxLeaves(|c.P|)
      ensures ok ==> R.Valid() && fresh(R.Repr - old(R.Repr)) && R.Elems() == old(R.Elems())
      ensures ok ==> taskLevel == old(taskLevel) && taskSpawnCnt >= old(taskSpawnCnt)
      decreases |c.P|, 1, 2
    {
      hide Narrow, IsMiss;
      hide Carries, IsList, Branch, Worker.Valid, Below, UnrolledList.Valid, UnrolledList.Elems, MaxLeaves, Simple;
      hide BestPivot, Lists;
      hide SimpleHashSet.CursorAt, SimpleHashSet.Valid, ValidOrder;
      AtLeastOneLeaf(|c.P|);
      IsListSize(R, c.R);
      CarriesOwn(P, X, h, g, c.P, c.X);
      var end, cand, h';
      ghost var u;
      ok, end, cand, h', u, miss := StartTask(R, P, X, h, w, c);
      out := if c.P == {} && c.X == {} then [c.R] else [];
      if !ok {
        return;
      }
      if end {
        EndFamily(g, cfg.limit, c);
        return;
      }
      ok, out, miss := RunBranch(R, P, X, h, w, c, cand, u);
    }

    /** A sequential call that has its candidates. */
    method RunBranch(R: UnrolledList, P: SimpleHashSet, X: SimpleHashSet, h: Graph, w: Worker, ghost c: Task,
          cand: SimpleHashSet, ghost u: Vertex)
      returns (ok: bool, ghost out: seq<set<Vertex>>, ghost miss: Miss)
      requires Simple(g) && ValidOrder(g, cfg.order) && mode <= 2 && c.New? && Branch(g, cfg.limit, c.R, c.P, c.X)
          && !CutsOff(cfg.limit, |c.R|)
      requires taskSpawnCnt > 0 && taskLevel > 0 && u in g && BestPivot(g, c.P, c.X, u) && Lists(cand, c.P - g[u])
      requires IsList(R, c.R) && Carries(P, X, h, g, c.P, c.X) && w.Valid() && |c.P| + |c.X| < cfg.threshold
      requires R.Repr !! P.Repr !! X.Repr !! h.store + {h} !! {w} !! {this}
      modifies `taskSpawnCnt, `taskLevel, w, R.Repr, P.Repr, X.Repr
      ensures (Narrow(g) ==> ok) && (!ok ==> Misses(vector, miss))
      ensures ok ==> w.Valid() && w.log == old(w.log) + out && multiset(out) == multiset(Below(g, cfg.limit, c.R, c.P))
      ensures ok ==>
          |out| <= w.leaves - old(w.leaves) <= MaxLeaves(|c.P|) && (c.P - g[u] == {} ==> w.leaves == old(w.leaves))
      ensures ok ==> R.Valid() && fresh(R.Repr - old(R.Repr)) && R.Elems() == old(R.Elems())
      ensures ok ==> taskLevel == old(taskLevel) && taskSpawnCnt >= old(taskSpawnCnt)
      decreases |c.P|, 1, 1
    {
      hide Narrow, IsMiss;
      hide Carries, IsList, Branch, Worker.Valid, Below, UnrolledList.Valid, UnrolledList.Elems, MaxLeaves, Simple;
      hide ValidOrder, BestPivot, Lists, Budget, TaskOk;
      hide SimpleHashSet.Valid;
      IsListSize(R, c.R);
      CarriesOwn(P, X, h, g, c.P, c.X);
      ListsSize(cand, c.P - g[u]);
      var cl := cand.ForEach();
      ghost var t := Entered(g, c, u);
      EnteredLoop(g, cfg.limit, c, u, cl);
      ok, out, miss := RunCandidates(R, P, X, h, w, c, cl, t);
    }

    /** The loop of a sequential call over its candidates. */
    method RunCandidates(R: UnrolledList, P: SimpleHashSet, X: SimpleHashSet, h: Graph, w: Worker, ghost c: Task,
          cl: seq<Vertex>, ghost t: Task)
      returns (ok: bool, ghost out: seq<set<Vertex>>, ghost miss: Miss)
      requires Simple(g) && ValidOrder(g, cfg.order) && mode <= 2 && taskSpawnCnt > 0 && taskLevel > 0 && c.New?
      requires NoDups(cl) && if cl == [] then t == Done
          else t.Looping? && t.R == c.R && t.P == c.P && t.X == c.X && t.K == ToSet(cl)
      requires TaskOk(g, cfg.limit, t)
      requires IsList(R, c.R) && Carries(P, X, h, g, c.P, c.X) && w.Valid() && |c.P| + |c.X| < cfg.threshold
      requires R.Repr !! P.Repr !! X.Repr !! h.store + {h} !! {w} !! {this}
      modifies `taskSpawnCnt, `taskLevel, w, R.Repr, P.Repr, X.Repr
      ensures (Narrow(g) ==> ok) && (!ok ==> Misses(vector, miss))
      ensures ok ==> w.Valid() && w.log == old(w.log) + out && multiset(out) == multiset(Target(g, cfg.limit, t))
      ensures ok ==> |out| <= w.leaves - old(w.leaves) <= Budget(g, t)
      ensures ok ==> R.Valid() && fresh(R.Repr - old(R.Repr)) && R.Elems() == old(R.Elems())
      ensures ok ==> taskLevel == old(taskLevel) && taskSpawnCnt >= old(taskSpawnCnt)
      decreases |c.P|, 1, 0
    {
      hide Narrow, IsMiss;
      hide Carries, IsList, Worker.Valid, UnrolledList.Valid, UnrolledList.Elems, Simple, ValidOrder, TaskOk, Below;
      hide Branch, Budget, Target, Descends, NoDups, ToSet, ListOf, ReprOf, MaxLeaves, Graph.Ready, Lists;
      DoneTask(g, cfg.limit);
      IsListSize(R, c.R);
      ok, out, miss := true, [], NO_MISS;
      ghost var d := t;
      ghost var S, T := c.P, c.X;
      for i := 0 to |cl|
        invariant if i < |cl| then d.Looping? && d.R == c.R && d.P == S && d.X == T
            && d.K == ToSet(cl[i..]) else d == Done
        invariant ok && TaskOk(g, cfg.limit, d) && Carries(P, X, h, g, S, T) && |S| + |T| == |c.P| + |c.X|
            && |S| <= |c.P|
        invariant IsList(R, c.R) && R.Valid() && R.Elems() == old(R.Elems()) && fresh(R.Repr - old(R.Repr))
        invariant P.Repr == old(P.Repr) && fresh(X.Repr - old(X.Repr))
        invariant R.Repr !! P.Repr !! X.Repr !! h.store + {h} !! {w} !! {this}
        invariant taskLevel == old(taskLevel) && taskSpawnCnt >= old(taskSpawnCnt)
        invariant w.Valid() && w.log == old(w.log) + out
        invariant multiset(out) + multiset(Target(g, cfg.limit, d)) == multiset(Target(g, cfg.limit, t))
        invariant |out| <= w.leaves - old(w.leaves) && w.leaves - old(w.leaves) + Budget(g, d) <= Budget(g, t)
      {
        TailMembers(cl, i);
        var child;
        ghost var e;
        ok, child, e, miss := LoopIteration(cl[i], R, P, X, h, w, d, 0);
        if !ok {
          return;
        }
        CandidateStep(g, cfg, d, cl[i], e);
        assert child == null;
        out := out + e.log;
        d, S, T := e.after, S - {cl[i]}, T + {cl[i]};
      }
    }

    /**
     One candidate: descend on it in this task if the child is small, or spawn a child task; and move
     the candidate from P to X. A child task in mode 2 is one more holder of the guard.
     */
    method LoopIteration(vertex: Vertex, R: UnrolledList, P: SimpleHashSet, X: SimpleHashSet, h: Graph, w: Worker,
          ghost d: Task, ghost i: nat)
      returns (ok: bool, child: MainBKTask?, ghost e: Effect, ghost miss: Miss)
      requires Simple(g) && ValidOrder(g, cfg.order) && mode <= 2 && d.Looping? && TaskOk(g, cfg.limit, d)
          && vertex in d.K
      requires IsList(R, d.R) && Carries(P, X, h, g, d.P, d.X) && w.Valid()
      requires R.Repr !! P.Repr !! X.Repr !! h.store + {h} !! {w} !! {this}
      requires SpawnGuard(d) != {} ==> Guards(h, R.Repr + P.Repr + X.Repr)
      modifies `taskSpawnCnt, `taskLevel, w, R.Repr, P.Repr, X.Repr, SpawnGuard(d)
      ensures (Narrow(g) ==> ok) && (!ok ==> Misses(vector, miss))
      ensures ok ==> IteratesOn(g, cfg, d, vertex, e)
      ensures ok ==> w.Valid() && w.log == old(w.log) + e.log && w.leaves == old(w.leaves) + e.leaves
      ensures ok ==> Carries(P, X, h, g, d.P - {vertex}, d.X + {vertex})
      ensures ok ==> R.Valid() && R.Elems() == old(R.Elems()) && fresh(R.Repr - old(R.Repr)) && IsList(R, d.R)
      ensures ok ==> P.Repr == old(P.Repr) && fresh(X.Repr - old(X.Repr))
      ensures ok ==> Separate(R, P, X, h, w)
      ensures ok ==> taskLevel == old(taskLevel) && taskSpawnCnt >= old(taskSpawnCnt)
      ensures ok ==> Spawns(child, i, e, R.Repr + P.Repr + X.Repr) && fresh(ReprOf(child))
      ensures ok && SpawnGuard(d) == {} ==> child == null
      ensures ok && SpawnGuard(d) != {} ==> CountsChild(old(graphg.State()), child != null)
      decreases |d.P|, 0, 3
    {
      hide Narrow, IsMiss, IsChild, CountsChild;
      hide Carries, IsList, Worker.Valid, UnrolledList.Valid, UnrolledList.Elems, Simple, ValidOrder, Below, Branch;
      hide MaxLeaves, TaskOk, Valid, IteratesOn, Lists, Graph.Ready, Serves, SimpleHashSet.Valid, Descends, HasPivot;
      IsListSize(R, d.R);
      CarriesOwn(P, X, h, g, d.P, d.X);
      LoopFacts(g, cfg.limit, d, vertex);
      ghost var c := New(d.R + {vertex}, d.P * g[vertex], d.X * g[vertex]);
      SubsetSize(c.P, d.P);
      SubsetSize(c.X, d.X);
      child, e := null, Effect(Done, [], [], 0);
      var intersP, intersX;
      ok, intersP, intersX, miss := SplitAside(vertex, R, P, X, h, w, d);
      if !ok {
        return;
      }
      ghost var f;
      ok, child, f, miss := DescendAside(vertex, R, intersP, intersX, h, w, d, c, i, P, X);
      if !ok {
        return;
      }
      ghost var after := if d.K == {vertex} then Done else Looping(d.R, d.P - {vertex}, d.X + {vertex}, d.K - {vertex});
      e := f.(after := after);
      IsIteration(g, cfg, d, vertex, c, f, e);
    }

    /** What a task works on shares no memory. */
    ghost predicate Separate(R: UnrolledList, P: SimpleHashSet, X: SimpleHashSet, h: Graph, w: Worker)
      reads R, P, X, h
    {
      R.Repr !! P.Repr !! X.Repr !! h.store + {h} !! {w} !! {this}
    }

    ghost function ReprOf(child: MainBKTask?): set<object>
      reads child
    {
      if child == null then {} else child.Repr
    }

    /** The child, if any, is what the effect says, and owns nothing of `others`. */
    ghost predicate Spawns(child: MainBKTask?, i: nat, e: Effect, others: set<object>)
      reads this, child, if child == null then {} else child.Repr + {child.graph} + child.graph.store
    {
      if child == null then e.spawned == []
      else IsChild(child, i) && child.Repr !! others && e.spawned == [child.duty]
    }

    /** A child of this task, which is number i, as it is when it has been spawned. */
    ghost predicate IsChild(child: MainBKTask, i: nat)
      reads this, child, child.Repr, child.graph, child.graph.store
    {
      && child.Valid() && child.cfg == cfg && child.mode == mode && child.vector == vector && child.g == g
      && child.parent == this && child.graphg == graphg && !child.isContinuation
      && child.agent == Agent(child.duty, i, agent.guard, mode == 2, Waiting)
    }

    /** The guard counts one more holder if a child has been spawned in mode 2. */
    ghost predicate CountsChild(was: Guard, spawned: bool)
      reads this, graphg
    {
      Live() && graphg.State() == if spawned && mode == 2 then Incremented(was) else was
    }

    /** The split leaves R, the worker and the guard alone. */
    method SplitAside(vertex: Vertex, ghost R: UnrolledList, P: SimpleHashSet, X: SimpleHashSet, h: Graph,
          ghost w: Worker, ghost d: Task)
      returns (ok: bool, intersP: SimpleHashSet, intersX: SimpleHashSet, ghost miss: Miss)
      requires d.Looping? && vertex in d.P && vertex in g && IsList(R, d.R) && Carries(P, X, h, g, d.P, d.X)
      requires w.Valid() && Separate(R, P, X, h, w)
      requires SpawnGuard(d) != {} ==> Guards(h, R.Repr + P.Repr + X.Repr)
      modifies P.Repr, X.Repr
      ensures (Narrow(g) ==> ok) && (!ok ==> Misses(vector, miss))
      ensures ok ==> Carries(P, X, h, g, d.P - {vertex}, d.X + {vertex})
      ensures ok ==> Carries(intersP, intersX, h, g, d.P * g[vertex], d.X * g[vertex])
      ensures ok ==> P.Repr == old(P.Repr) && fresh(X.Repr - old(X.Repr))
      ensures ok ==> fresh(intersP.Repr) && fresh(intersX.Repr) && intersP.Repr + intersX.Repr !! P.Repr + X.Repr
      ensures ok ==> IsList(R, d.R) && Separate(R, P, X, h, w) && Separate(R, intersP, intersX, h, w)
      ensures SpawnGuard(d) != {} ==> Live() && graphg.State() == old(graphg.State())
      ensures ok && SpawnGuard(d) != {} ==> Guards(h, R.Repr + P.Repr + X.Repr + intersP.Repr + intersX.Repr)
    {
      hide Narrow, IsMiss, Carries, UnrolledList.Valid, UnrolledList.Elems, Worker.Valid;
      CarriesOwn(P, X, h, g, d.P, d.X);
      IsListSize(R, d.R);
      ok, intersP, intersX, miss := SplitOff(vertex, P, X, h, d);
    }

    /** The call on the child leaves the lists P and X of the parent alone. */
    method DescendAside(vertex: Vertex, R: UnrolledList, intersP: SimpleHashSet, intersX: SimpleHashSet, h: Graph,
          w: Worker, ghost d: Task, ghost c: Task, ghost i: nat, ghost P: SimpleHashSet, ghost X: SimpleHashSet)
      returns (ok: bool, child: MainBKTask?, ghost e: Effect, ghost miss: Miss)
      requires Simple(g) && ValidOrder(g, cfg.order) && mode <= 2 && c.New? && Branch(g, cfg.limit, c.R, c.P, c.X)
      requires d.Looping? && c.R == d.R + {vertex} && vertex !in d.R && |c.P| < |d.P| && |c.X| <= |d.X|
      requires IsList(R, d.R) && Carries(intersP, intersX, h, g, c.P, c.X) && w.Valid()
      requires Carries(P, X, h, g, d.P - {vertex}, d.X + {vertex})
      requires Separate(R, P, X, h, w) && Separate(R, intersP, intersX, h, w)
      requires intersP.Repr + intersX.Repr !! P.Repr + X.Repr
      requires SpawnGuard(d) != {} ==> Guards(h, R.Repr + P.Repr + X.Repr + intersP.Repr + intersX.Repr)
      modifies `taskSpawnCnt, `taskLevel, w, R.Repr, intersP.Repr, intersX.Repr, SpawnGuard(d)
      ensures (Narrow(g) ==> ok) && (!ok ==> Misses(vector, miss))
      ensures ok ==> Descends(g, cfg, c.R, c.P, c.X, e)
      ensures ok ==> w.Valid() && w.log == old(w.log) + e.log && w.leaves == old(w.leaves) + e.leaves
      ensures ok ==> Carries(P, X, h, g, d.P - {vertex}, d.X + {vertex}) && Separate(R, P, X, h, w)
      ensures ok ==> R.Valid() && R.Elems() == old(R.Elems()) && fresh(R.Repr - old(R.Repr)) && IsList(R, d.R)
      ensures ok ==> taskLevel == old(taskLevel) && taskSpawnCnt >= old(taskSpawnCnt)
      ensures ok ==> Spawns(child, i, e, R.Repr + P.Repr + X.Repr)
      ensures ok ==> fresh(ReprOf(child) - old(intersP.Repr) - old(intersX.Repr))
      ensures ok && SpawnGuard(d) == {} ==> child == null
      ensures ok && SpawnGuard(d) != {} ==> CountsChild(old(graphg.State()), child != null)
      decreases |d.P|, 0, 2
    {
      hide Narrow, IsMiss, IsChild, CountsChild;
      hide Carries, IsList, Worker.Valid, UnrolledList.Valid, UnrolledList.Elems, Simple, ValidOrder, Branch;
      hide Valid, Descends;
      CarriesOwn(P, X, h, g, d.P - {vertex}, d.X + {vertex});
      ok, child, e, miss := DescendOn(vertex, R, intersP, intersX, h, w, d, c, i);
    }

    /** The call on the child: in this task if it is small, in a new one otherwise. */
    method DescendOn(vertex: Vertex, R: UnrolledList, P: SimpleHashSet, X: SimpleHashSet, h: Graph, w: Worker,
          ghost d: Task, ghost c: Task, ghost i: nat)
      returns (ok: bool, child: MainBKTask?, ghost e: Effect, ghost miss: Miss)
      requires Simple(g) && ValidOrder(g, cfg.order) && mode <= 2 && c.New? && Branch(g, cfg.limit, c.R, c.P, c.X)
      requires d.Looping? && c.R == d.R + {vertex} && vertex !in d.R && |c.P| < |d.P| && |c.X| <= |d.X|
      requires IsList(R, d.R) && Carries(P, X, h, g, c.P, c.X) && w.Valid()
      requires R.Repr !! P.Repr !! X.Repr !! h.store + {h} !! {w} !! {this}
      requires SpawnGuard(d) != {} ==> Guards(h, R.Repr + P.Repr + X.Repr)
      modifies `taskSpawnCnt, `taskLevel, w, R.Repr, P.Repr, X.Repr, SpawnGuard(d)
      ensures (Narrow(g) ==> ok) && (!ok ==> Misses(vector, miss))
      ensures ok ==> Descends(g, cfg, c.R, c.P, c.X, e)
      ensures ok ==> w.Valid() && w.log == old(w.log) + e.log && w.leaves == old(w.leaves) + e.leaves
      ensures ok ==> R.Valid() && R.Elems() == old(R.Elems()) && fresh(R.Repr - old(R.Repr)) && IsList(R, d.R)
      ensures ok ==> taskLevel == old(taskLevel) && taskSpawnCnt >= old(taskSpawnCnt)
      ensures ok ==> Spawns(child, i, e, R.Repr) && (child == null <==> |c.P| + |c.X| < cfg.threshold)
      ensures ok && child != null ==> fresh(child.Repr - old(P.Repr) - old(X.Repr))
      ensures ok && SpawnGuard(d) == {} ==> child == null
      ensures ok && SpawnGuard(d) != {} ==> CountsChild(old(graphg.State()), child != null)
      decreases |d.P|, 0, 1
    {
      hide Narrow, IsMiss;
      hide Carries, IsList, Branch, Worker.Valid, Below, UnrolledList.Valid, UnrolledList.Elems, MaxLeaves, Simple;
      hide ValidOrder, Valid;
      ok, child, e, miss := true, null, Effect(Done, [], [], 0), NO_MISS;
      IsListSize(R, d.R);
      var pSize, xSize := ChildSizes(P, X, h, c);
      if pSize + xSize < cfg.threshold {
        ghost var leaves := w.leaves;
        ghost var out;
        ok, out, miss := DescendSequentially(vertex, R, P, X, h, w, d, c);
        if !ok {
          return;
        }
        e := Effect(Done, [], out, w.leaves - leaves);
      } else {
        child := SpawnChild(vertex, R, P, X, h, d.R, c, i);
        e := Effect(Done, [c], [], 0);
      }
    }

    /** A child task with its own copy of R, on the same graph. */
    method SpawnChild(vertex: Vertex, R: UnrolledList, P: SimpleHashSet, X: SimpleHashSet, h: Graph,
          ghost S: set<Vertex>, ghost c: Task, ghost i: nat)
      returns (child: MainBKTask)
      requires Simple(g) && ValidOrder(g, cfg.order) && mode <= 2 && c.New? && Branch(g, cfg.limit, c.R, c.P, c.X)
      requires IsList(R, S) && vertex !in S && c.R == S + {vertex} && Carries(P, X, h, g, c.P, c.X)
      requires P.Repr !! X.Repr !! h.store + {h} && Guards(h, P.Repr + X.Repr)
      modifies graphg`ref_count
      ensures IsChild(child, i) && fresh(child.Repr - P.Repr - X.Repr) && child.duty == c
      ensures CountsChild(old(graphg.State()), true)
    {
      hide Carries, IsList, Simple, ValidOrder, Branch;
      CarriesOwn(P, X, h, g, c.P, c.X);
      var Rcpy := CopyAndPush(R, S, vertex);
      child := new MainBKTask.Child(Rcpy, P, X, graphg, vertex, this, cfg, mode, vector, g,
        Agent(c, i, agent.guard, mode == 2, Waiting));
      OwnsNoGuard(child);
      hide Valid;
      if mode > 1 {
        graphg.IncGraphRefCount();
      }
    }

    static lemma OwnsNoGuard(t: MainBKTask)
      requires t.Valid()
      ensures t.graphg !in t.Repr + t.graph.store && t.graphg.held == t.graph
      ensures t.agent.duty == t.duty
    {
    }

    method ChildSizes(P: SimpleHashSet, X: SimpleHashSet, h: Graph, ghost c: Task) returns (pSize: nat, xSize: nat)
      requires c.New? && Carries(P, X, h, g, c.P, c.X)
      ensures pSize == |c.P| && xSize == |c.X|
    {
      hide Lists;
      pSize := SizeOf(P, c.P);
      xSize := SizeOf(X, c.X);
    }

    // --- StartTask ---

    predicate CreatesGraph()
      reads this
    {
      (mode == 1 && parent == null && taskSpawnCnt == 0) || (mode == 2 && taskSpawnCnt == 0 && newGraph)
    }

    /** The pruned subgraph of the branch, and the pivot found while it was made. */
    method SubgraphFor(P: SimpleHashSet, X: SimpleHashSet, h: Graph, ghost S: set<Vertex>, ghost T: set<Vertex>)
      returns (ok: bool, sub: Graph, ghost miss: Miss)
      requires Carries(P, X, h, g, S, T) && S != {} && Simple(g)
      ensures fresh(sub) && (Narrow(g) ==> ok) && (!ok ==> sub.Overgrown() || Misses(vector, miss))
      ensures ok ==> fresh(sub.store) && Carries(P, X, sub, g, S, T)
      ensures ok ==> IsKey(sub.pivot_node) && BestPivot(g, S, T, sub.pivot_node)
    {
      hide IsMiss;
      hide SimpleHashSet.Valid, SimpleHashSet.List, Graph.Ready, BestOf, BestPivot, Pruned, Serves, NoDups, Simple;
      hide Narrow, Graph.Overgrown;
      ListsSize(P, S);
      ListsSize(X, T);
      InGraph(h.model, g, S, T);
      if Narrow(g) {
        PrunedNarrow(h.model, g, S, T);
      }
      ok, sub, miss := h.CreateHpxSubgraph(vector, P, X);
      if ok {
        PrunedServes(h.model, g, S, T);
        ListPivotIsBest(h.model, g, P.List(), X.List(), sub.pivot_node);
      }
    }

    /** The pivot of a branch that is searched in a graph made for an earlier one. */
    method PivotFor(P: SimpleHashSet, X: SimpleHashSet, h: Graph, ghost S: set<Vertex>, ghost T: set<Vertex>)
      returns (ok: bool, pivot: int, ghost miss: Miss)
      requires Carries(P, X, h, g, S, T) && S != {}
      ensures (Narrow(g) ==> ok) && (!ok ==> Misses(vector, miss))
      ensures ok ==> IsKey(pivot) && BestPivot(g, S, T, pivot)
    {
      hide Narrow, IsMiss;
      hide SimpleHashSet.Valid, SimpleHashSet.List, Graph.Ready, BestOf, BestPivot, Serves, NoDups;
      ListsSize(P, S);
      ListsSize(X, T);
      InGraph(h.model, g, S, T);
      ok, pivot, miss := h.GetPivot(vector, P, X);
      if !ok {
        return;
      }
      ListPivotIsBest(h.model, g, P.List(), X.List(), pivot);
    }

    /** The subgraph gets a guard of its own, and a child task in mode 2 gives back the one it came with. */
    method SwitchGuard(sub: Graph)
      requires CreatesGraph() && Live()
      modifies `graphg, graphg
      ensures fresh(graphg) && TakesGuard(old(graphg), old(graphg.State()), sub)
    {
      var thisgg := new GraphGuard(sub);
      var isRootSg := parent == null && taskSpawnCnt == 0;
      if !isRootSg && mode != 1 {
        graphg.DecGraphRefCount();
      }
      graphg := thisgg;
    }

    /** The graph to search in, with its guard, and the pivot. */
    method ChoosePivot(P: SimpleHashSet, X: SimpleHashSet, h: Graph, ghost S: set<Vertex>, ghost T: set<Vertex>)
      returns (ok: bool, h': Graph, pivot: int, ghost miss: Miss)
      requires Carries(P, X, h, g, S, T) && S != {} && Simple(g)
      requires newGraph && taskLevel == 0 ==> CreatesGraph()
      requires OwnGuard() != {} ==> Guards(h, P.Repr + X.Repr)
      requires Opening() !! P.Repr + X.Repr + h.store
      modifies Opening()`graphg, OwnGuard()
      ensures ok ==> IsKey(pivot) && BestPivot(g, S, T, pivot)
      ensures ok ==> (h' == h || (fresh(h') && fresh(h'.store))) && Carries(P, X, h', g, S, T)
      ensures ok && !CreatesGraph() ==> h' == h
      ensures ok && !CreatesGraph() && taskSpawnCnt == 0 ==> KeepsGuard(old(graphg), old(graphg.State()))
      ensures ok && CreatesGraph() ==> fresh(graphg) && TakesGuard(old(graphg), old(graphg.State()), h')
      ensures ok && taskSpawnCnt == 0 ==> graphg !in h'.store
      ensures !CreatesGraph() ==> graphg == old(graphg)
      ensures (Narrow(g) ==> ok) && (!ok ==> (CreatesGraph() && h'.Overgrown()) || Misses(vector, miss))
    {
      hide IsMiss;
      hide Carries, BestPivot, Simple, Narrow, Graph.Overgrown;
      h', ok, pivot, miss := h, true, -1, NO_MISS;
      if CreatesGraph() {
        ok, h', miss := SubgraphFor(P, X, h, S, T);
        if !ok {
          return;
        }
        SwitchGuard(h');
      }
      if newGraph && taskLevel == 0 {
        pivot := h'.pivot_node;
      } else {
        ok, pivot, miss := PivotFor(P, X, h', S, T);
      }
    }

    /** A task that ends at once: its subgraph was never made, and a child in mode 2 gives back the guard. */
    method LeaveGraph(ghost R: UnrolledList, ghost P: SimpleHashSet, ghost X: SimpleHashSet, ghost h: Graph,
          ghost t: Task)
      requires mode <= 2 && t.New? && IsList(R, t.R) && Carries(P, X, h, g, t.P, t.X) && R in R.Repr
          && P in P.Repr && X in X.Repr
      requires OwnGuard() != {} ==> Guards(h, R.Repr + P.Repr + X.Repr)
      requires Opening() !! R.Repr + P.Repr + X.Repr + h.store
      modifies Opening()`newGraph, OwnGuard()
      ensures IsList(R, t.R) && Carries(P, X, h, g, t.P, t.X)
      ensures taskSpawnCnt == 0 ==> LeavesGuard(old(graphg), old(graphg.State())) && graphg !in h.store
    {
      hide IsList, Carries;
      var isRootSg := parent == null && taskSpawnCnt == 0;
      if mode == 2 && taskSpawnCnt == 0 && !isRootSg {
        graphg.DecGraphRefCount();
      }
      if taskSpawnCnt == 0 {
        newGraph := false;
      }
    }

    /** An empty P ends the call, with a report when X is empty too; so does the size limit. */
    method EndsHere(R: UnrolledList, P: SimpleHashSet, X: SimpleHashSet, w: Worker, ghost t: Task)
      returns (end: bool, empty: bool)
      requires t.New? && IsList(R, t.R) && Lists(P, t.P) && Lists(X, t.X) && w.Valid()
      modifies w
      ensures w.Valid() && (end <==> t.P == {} || CutsOff(cfg.limit, |t.R|)) && (empty <==> t.P == {})
      ensures w.log == old(w.log) + (if t.P == {} && t.X == {} then [t.R] else [])
      ensures w.leaves == old(w.leaves) + if end then 1 else 0
    {
      hide Lists, IsList, Worker.Valid;
      end := true;
      IsListSize(R, t.R);
      R.Count();
      var rSize := R.num_of_elems;
      var pSize := SizeOf(P, t.P);
      var xSize := SizeOf(X, t.X);
      empty := pSize == 0;
      if empty {
        if xSize == 0 {
          w.Report(rSize, t.R);
        }
        w.Leaf();
      } else if cfg.limit >= 0 && rSize >= cfg.limit {
        w.Leaf();
      } else {
        end := false;
      }
    }

    /** The candidates: P without the neighbours of the pivot. */
    method Candidates(P: SimpleHashSet, X: SimpleHashSet, h: Graph, pivot: Vertex, ghost t: Task)
      returns (ok: bool, cand: SimpleHashSet, none: bool, ghost miss: Miss)
      requires t.New? && Carries(P, X, h, g, t.P, t.X) && BestPivot(g, t.P, t.X, pivot)
      ensures (Narrow(g) ==> ok) && (!ok ==> Misses(vector, miss))
      ensures ok ==>
          pivot in g && fresh(cand.Repr) && cand in cand.Repr && Lists(cand, t.P - g[pivot]) && cand.Valid()
              && cand.CursorAt(-1)
      ensures ok ==> (none <==> t.P - g[pivot] == {})
    {
      hide Narrow, IsMiss;
      hide Lists, BestPivot, Serves, Graph.Ready, SimpleHashSet.CursorAt;
      PivotAnswers(h.model, g, t.P, t.X, pivot);
      none := false;
      ok, cand, miss := Without(vector, P, t.P, h, pivot);
      if !ok {
        return;
      }
      var n := SizeOf(cand, t.P - g[pivot]);
      none := n == 0;
    }

    /**
     The beginning of a call: report a maximal clique, or give up, or pick a pivot and list the
     candidates P - N(pivot). The ghost t is the branch. Only the first call of a task touches its guard.
     */
    method StartTask(R: UnrolledList, P: SimpleHashSet, X: SimpleHashSet, h: Graph, w: Worker, ghost t: Task)
      returns (ok: bool, end: bool, cand: SimpleHashSet?, h': Graph, ghost u: Vertex, ghost miss: Miss)
      requires Simple(g) && t.New? && IsList(R, t.R) && Carries(P, X, h, g, t.P, t.X) && w.Valid() && mode <= 2
      requires {w} !! R.Repr + P.Repr + X.Repr + h.store + {h}
      requires newGraph && taskLevel == 0 ==> CreatesGraph()
      requires OwnGuard() != {} ==> Guards(h, R.Repr + P.Repr + X.Repr)
      requires Opening() !! R.Repr + P.Repr + X.Repr + h.store
      modifies w, Opening()`newGraph, Opening()`graphg, OwnGuard()
      ensures ok && !CreatesGraph() ==> h' == h
      ensures Narrow(g) ==> ok
      ensures !ok ==> (CreatesGraph() && h'.Overgrown()) || Misses(vector, miss)
      ensures t.P == {} || CutsOff(cfg.limit, |t.R|) ==> ok
      ensures ok ==> w.Valid() && (h' == h || (fresh(h') && fresh(h'.store)))
      ensures ok ==> Carries(P, X, h', g, t.P, t.X) && IsList(R, t.R)
      ensures ok ==> (end <==> t.P == {} || CutsOff(cfg.limit, |t.R|))
      ensures ok && end ==>
          h' == h && w.log == old(w.log) + (if t.P == {} && t.X == {} then [t.R] else [])
              && w.leaves == old(w.leaves) + 1
      ensures ok && !end ==> Picks(t, cand, h', u) && cand != null && fresh(cand.Repr) && graphg !in cand.Repr
      ensures ok && !end ==> w.log == old(w.log) && w.leaves == old(w.leaves) + PivotLeaf(t, u)
      ensures ok && t.P != {} ==> newGraph == old(newGraph)
      ensures ok && taskSpawnCnt == 0 ==>
          StartsGuard(old(graphg), old(graphg.State()), t, h') && graphg !in h'.store
      ensures ok ==> graphg == old(graphg) || fresh(graphg)
    {
      hide Misses;
      hide Carries, BestPivot, Worker.Valid, SimpleHashSet.CursorAt, SimpleHashSet.Valid, Simple, Lists, IsList;
      hide Narrow, Graph.Overgrown, TakesGuard, Picks, PivotLeaf, UnrolledList.Valid, UnrolledList.Elems, Graph.Ready;
      hide Serves;
      ok, cand, h', u, miss := true, null, h, new_vertex, NO_MISS;
      CarriesLists(P, X, h, g, t.P, t.X);
      CarriesOwn(P, X, h, g, t.P, t.X);
      IsListSize(R, t.R);
      var empty;
      end, empty := EndsHere(R, P, X, w, t);
      assert IsList(R, t.R) && Carries(P, X, h, g, t.P, t.X);
      if end {
        if empty {
          LeaveGraph(R, P, X, h, t);
        }
        return;
      }
      ok, cand, h', u, miss := PickCandidates(P, X, h, w, t);
    }

    /** The pivot u leaves the candidates in cand, away from the graph h. */
    ghost predicate Picks(t: Task, cand: SimpleHashSet?, h: Graph, u: Vertex)
      reads h, cand, if cand == null then {} else cand.Repr
    {
      && t.New? && u in g && BestPivot(g, t.P, t.X, u) && cand != null && cand in cand.Repr && cand.Valid()
      && Lists(cand, t.P - g[u]) && cand.CursorAt(-1) && cand.Repr !! h.store + {h}
    }

    /** A pivot that leaves no candidate makes the call a leaf. */
    ghost function PivotLeaf(t: Task, u: Vertex): nat
      requires t.New?
    {
      if u in g && t.P - g[u] == {} then 1 else 0
    }

    /** The pivot, and the candidates it leaves. */
    method PickCandidates(P: SimpleHashSet, X: SimpleHashSet, h: Graph, w: Worker, ghost t: Task)
      returns (ok: bool, cand: SimpleHashSet?, h': Graph, ghost u: Vertex, ghost miss: Miss)
      requires Simple(g) && t.New? && t.P != {} && Carries(P, X, h, g, t.P, t.X) && w.Valid()
      requires {w} !! P.Repr + X.Repr + h.store + {h}
      requires newGraph && taskLevel == 0 ==> CreatesGraph()
      requires OwnGuard() != {} ==> Guards(h, P.Repr + X.Repr)
      requires Opening() !! P.Repr + X.Repr + h.store
      modifies w`leaves, Opening()`graphg, OwnGuard()
      ensures ok && !CreatesGraph() ==> h' == h
      ensures ok && taskSpawnCnt == 0 ==> PicksGuard(old(graphg), old(graphg.State()), h') && graphg !in h'.store
      ensures ok ==> graphg == old(graphg) || fresh(graphg)
      ensures (Narrow(g) ==> ok) && (!ok ==> (CreatesGraph() && h'.Overgrown()) || Misses(vector, miss))
      ensures w.Valid() && (ok ==> h' == h || (fresh(h') && fresh(h'.store)))
      ensures ok ==> Carries(P, X, h', g, t.P, t.X) && Picks(t, cand, h', u)
      ensures ok ==> cand != null && fresh(cand.Repr) && graphg !in cand.Repr
      ensures ok ==> w.leaves == old(w.leaves) + PivotLeaf(t, u)
    {
      hide IsMiss;
      hide Carries, BestPivot, Worker.Valid, SimpleHashSet.CursorAt, SimpleHashSet.Valid, Simple, Lists, Narrow;
      hide Graph.Overgrown;
      cand, u := null, new_vertex;
      CarriesOwn(P, X, h, g, t.P, t.X);
      var pivot;
      ok, h', pivot, miss := ChoosePivot(P, X, h, t.P, t.X);
      if !ok {
        return;
      }
      u := pivot;
      var none;
      ok, cand, none, miss := Candidates(P, X, h', pivot, t);
      if ok && none {
        w.Leaf();
      }
    }

    // --- the root lists ---

    /** Whether the neighbour comes after the root vertex in the vertex order. */
    method ComesLater(h: Graph, vertex_name: Vertex) returns (later: bool)
      requires h.Ready() && h.model == g && Simple(g) && ValidOrder(g, cfg.order)
      requires new_vertex in g && vertex_name in g
          && (cfg.order.ByPosition? ==> h.backwardsMapping == cfg.order.pos)
      ensures later <==> Before(g, cfg.order, new_vertex, vertex_name)
      ensures vertex_name != new_vertex && cfg.order.ByPosition? ==>
          if later then cfg.order.pos[new_vertex] < cfg.order.pos[vertex_name]
          else cfg.order.pos[vertex_name] < cfg.order.pos[new_vertex]
      ensures vertex_name != new_vertex && cfg.order.ByDegree? ==>
          if later then Ascending(g, new_vertex, vertex_name) else Ascending(g, vertex_name, new_vertex)
      ensures vertex_name != new_vertex && cfg.order.ByInverseDegree? ==>
          if later then Descending(g, new_vertex, vertex_name) else Descending(g, vertex_name, new_vertex)
    {
      hide SimpleHashSet.Valid, SimpleHashSet.Set, SimpleHashSet.List;
      if vertex_name != new_vertex {
        BeforeMeans(g, cfg.order, new_vertex, vertex_name);
        BeforeMeans(g, cfg.order, vertex_name, new_vertex);
      }
      hide Ascending, Descending, Simple;
      if cfg.order.ByPosition? {
        later := h.backwardsMapping[vertex_name] > h.backwardsMapping[new_vertex];
      } else {
        var this_vertex_size := h.adjList[vertex_name].Size();
        var other_vertex_size := h.adjList[new_vertex].Size();
        later := (if cfg.order.ByDegree? then this_vertex_size > other_vertex_size
            else this_vertex_size < other_vertex_size)
                 || (this_vertex_size == other_vertex_size && vertex_name > new_vertex);
      }
    }

    /** One neighbour goes to P or to X; those of D have been there before. */
    method SortNeighbour(h: Graph, P: SimpleHashSet, X: SimpleHashSet, v: Vertex, ghost D: set<Vertex>)
      requires h.Ready() && h.model == g && Simple(g) && ValidOrder(g, cfg.order) && new_vertex in g
      requires (cfg.order.ByPosition? ==> h.backwardsMapping == cfg.order.pos) && v in g[new_vertex] && v !in D
      requires Lists(P, D * Later(g, cfg.order, new_vertex)) && Lists(X, D * Earlier(g, cfg.order, new_vertex))
      requires P.Repr !! X.Repr && P.Repr + X.Repr !! h.store + {h, this} && P in P.Repr && X in X.Repr
      modifies P.Repr, X.Repr
      ensures Lists(P, (D + {v}) * Later(g, cfg.order, new_vertex))
          && Lists(X, (D + {v}) * Earlier(g, cfg.order, new_vertex))
      ensures fresh(P.Repr - old(P.Repr)) && fresh(X.Repr - old(X.Repr)) && P.Repr !! X.Repr && P in P.Repr
          && X in X.Repr
      ensures h.Ready()
    {
      hide Lists, Graph.Ready, Before, ValidOrder, Later, Earlier, Simple;
      ghost var L, E := Later(g, cfg.order, new_vertex), Earlier(g, cfg.order, new_vertex);
      LaterOrEarlier(g, cfg.order, new_vertex, v);
      var later := ComesLater(h, v);
      if later {
        assert (D + {v}) * L == D * L + {v} && (D + {v}) * E == D * E;
        AddToList(P, D * L, v, (D + {v}) * L);
      } else {
        assert (D + {v}) * E == D * E + {v} && (D + {v}) * L == D * L;
        AddToList(X, D * E, v, (D + {v}) * E);
      }
      ListsOwn(P, (D + {v}) * L);
      ListsOwn(X, (D + {v}) * E);
    }

    /** `create_root_sets`: the later neighbours go to P, the earlier ones to X. */
    method CreateRootSets(h: Graph) returns (P: SimpleHashSet, X: SimpleHashSet)
      requires h.Ready() && h.model == g && Simple(g) && ValidOrder(g, cfg.order)
      requires new_vertex in g && (cfg.order.ByPosition? ==> h.backwardsMapping == cfg.order.pos)
      ensures Lists(P, Later(g, cfg.order, new_vertex)) && Lists(X, Earlier(g, cfg.order, new_vertex))
      ensures fresh(P.Repr) && fresh(X.Repr) && P.Repr !! X.Repr && P in P.Repr && X in X.Repr
    {
      hide SimpleHashSet.Valid, SimpleHashSet.Set, SimpleHashSet.List, SimpleHashSet.Lookup, Lists, Graph.Ready;
      hide Before, ValidOrder;
      hide NoDups, ToSet, Enumerates, Later, Earlier, Simple;
      P := NewList();
      X := NewList();
      var Q := h.GetAdjacentNodes(new_vertex);
      var q := Q.ForEach();
      ghost var L, E := Later(g, cfg.order, new_vertex), Earlier(g, cfg.order, new_vertex);
      PrefixAll(q);
      EnumeratesItsSet<Key>(q, g[new_vertex]);
      assert ToSet(q[..0]) * L == {} && ToSet(q[..0]) * E == {};
      for i := 0 to |q|
        invariant fresh(P.Repr) && fresh(X.Repr) && P.Repr !! X.Repr && P in P.Repr && X in X.Repr
        invariant h.Ready() && h.model == g
        invariant Lists(P, ToSet(q[..i]) * L) && Lists(X, ToSet(q[..i]) * E)
      {
        PrefixSet(q, i);
        SortNeighbour(h, P, X, q[i], ToSet(q[..i]));
      }
      LaterInside(g, cfg.order, new_vertex);
      assert ToSet(q) * L == L && ToSet(q) * E == E;
    }

    // --- execute ---

    /** R is the root vertex, and P and X are its neighbours. */
    method RootLists(h: Graph) returns (R: UnrolledList, P: SimpleHashSet, X: SimpleHashSet)
      requires Static() && RootDuty() && h == graph
      ensures IsList(R, duty.R) && Carries(P, X, graph, g, duty.P, duty.X) && TaskOk(g, cfg.limit, duty)
      ensures fresh(R.Repr) && fresh(P.Repr) && fresh(X.Repr) && R.Repr !! P.Repr !! X.Repr
      ensures R in R.Repr && P in P.Repr && X in X.Repr
    {
      hide Lists, Serves, Graph.Ready, ListOf, Simple, ValidOrder, Later, Earlier, Branch, UnrolledList.Valid;
      hide UnrolledList.Elems;
      RootIsBranch(g, cfg.limit, cfg.order, new_vertex);
      RootServes(g, cfg.limit, duty);
      P, X := CreateRootSets(h);
      R := new UnrolledList();
      EmptyList();
      Push(R, {}, new_vertex);
      IsListSize(R, {} + {new_vertex});
      assert {} + {new_vertex} == {new_vertex};
    }

    /** The first execution of a root task builds its lists. */
    method BuildRoot()
      requires Valid() && !isContinuation && newTask && parent == null && Live()
      modifies this`R_task, this`P_task, this`X_task, this`Repr
      ensures Static() && InPhase() && HasLists() && Unstarted() && duty.New? && fresh(Repr - old(Repr))
    {
      hide IsList, Carries, TaskOk, Simple, ValidOrder, Later, Earlier, Graph.Ready;
      var R, P, X := RootLists(graphg.graph);
      R_task, P_task, X_task := R, P, X;
      Repr := {this} + R.Repr + P.Repr + X.Repr;
    }

    /** The task becomes a continuation and lets go of its lists. */
    method Finish(ghost cut: bool)
      requires Static() && !isContinuation && !finished
      modifies `P_task, `X_task, `cand_task, `isContinuation, `duty, `agent
      ensures Valid() && Static() && duty == Done && isContinuation
      ensures agent == old(agent).(duty := Done, phase := Resting(cut))
    {
      P_task, X_task, cand_task := null, null, null;
      isContinuation := true;
      duty, agent := Done, agent.(duty := Done, phase := Resting(cut));
    }

    /** The candidates are used up; in mode 2 the task gives back the guard of its own subgraph. */
    method FinishLoop(ghost guards: seq<GraphGuard>, ghost states: seq<Guard>) returns (ghost states': seq<Guard>)
      requires Static() && !isContinuation && !finished && Holds(guards, states) && Live()
      modifies `P_task, `X_task, `cand_task, `isContinuation, `duty, `agent, graphg
      ensures Valid() && Static() && duty == Done && isContinuation && Holds(guards, states')
      ensures agent == old(agent).(duty := Done, phase := Resting(false))
      ensures states' == Apply(if mode == 2 && agent.newGraph then Dec else Keep, states, agent.guard)
    {
      hide Valid;
      states' := Apply(if mode == 2 && newGraph then Dec else Keep, states, agent.guard);
      if mode == 2 && newGraph {
        graphg.DecGraphRefCount();
      }
      Finish(false);
    }

    /** More candidates are waiting: the task, which is the agent a now, will be executed again. */
    method Reexecute(R: UnrolledList, P: SimpleHashSet, X: SimpleHashSet, cand: SimpleHashSet, ghost k: int,
          ghost a: Agent)
      requires !newTask && !isContinuation && !finished && R_task == R && P_task == P && X_task == X
          && cand_task == cand
      requires a.duty.Looping? && TaskOk(g, cfg.limit, a.duty) && IsList(R, a.duty.R)
          && Carries(P, X, graph, g, a.duty.P, a.duty.X) && Queue(cand, k, a.duty.K)
      requires R in R.Repr && P in P.Repr && X in X.Repr && cand in cand.Repr
      requires R.Repr !! P.Repr !! X.Repr !! cand.Repr !! {this} !! graph.store + {graph}
      requires graphg !in R.Repr + P.Repr + X.Repr + cand.Repr + graph.store && graphg.held == graph
      requires Simple(g) && ValidOrder(g, cfg.order) && mode <= 2
      requires a.phase == Searching && (a.newGraph <==> newGraph) && (IsRoot(a) <==> parent == null)
      modifies `duty, `cursor, `Repr, `agent
      ensures Valid() && Static() && InPhase() && InLoop() && agent == a
      ensures duty == a.duty && Repr == {this} + R.Repr + P.Repr + X.Repr + cand.Repr
    {
      hide IsList, Carries, Queue, TaskOk, Simple, ValidOrder, HasLists, InLoop, Valid;
      duty, cursor, agent := a.duty, k, a;
      Repr := {this} + R.Repr + P.Repr + X.Repr + cand.Repr;
      WaitsForNext(R, P, X, cand);
    }

    lemma WaitsForNext(R: UnrolledList, P: SimpleHashSet, X: SimpleHashSet, cand: SimpleHashSet)
      requires Static() && !newTask && !isContinuation && !finished && agent.phase == Searching
      requires R_task == R && P_task == P && X_task == X && cand_task == cand
      requires duty.Looping? && TaskOk(g, cfg.limit, duty) && IsList(R, duty.R)
          && Carries(P, X, graph, g, duty.P, duty.X) && Queue(cand, cursor, duty.K)
      requires R in R.Repr && P in P.Repr && X in X.Repr && cand in cand.Repr
      requires R.Repr !! P.Repr !! X.Repr !! cand.Repr !! {this}
      requires Repr == {this} + R.Repr + P.Repr + X.Repr + cand.Repr
      ensures Valid() && InPhase() && InLoop()
    {
      hide IsList, Carries, Queue, TaskOk, Simple, ValidOrder, Unstarted, RootDuty;
      assert HasLists();
      assert InLoop();
    }

    /** Without candidates the task is done at once. */
    method EnterDone(ghost S: set<object>, ghost a: Agent, ghost guards: seq<GraphGuard>, ghost states: seq<Guard>)
      returns (ghost states': seq<Guard>)
      requires Simple(g) && ValidOrder(g, cfg.order) && mode <= 2 && !isContinuation && !finished
      requires S !! graph.store + {graph} && this in S && graphg !in S + graph.store && graphg.held == graph && Live()
      requires a.duty == Done && (a.newGraph <==> newGraph) && (IsRoot(a) <==> parent == null)
      requires Mirror(guards, states) && a.guard < |guards| && guards[a.guard] == graphg
      modifies `P_task, `X_task, `cand_task, `isContinuation, `Repr, `duty, `agent, graphg
      ensures Valid() && Static() && duty == Done && Repr == S && Holds(guards, states')
      ensures agent == a.(phase := Resting(false))
      ensures states' == Apply(if mode == 2 && a.newGraph then Dec else Keep, states, a.guard)
    {
      hide Valid, Simple, ValidOrder, Mirror;
      Repr, duty, agent := S, Done, a;
      states' := FinishLoop(guards, states);
    }

    /** Take the next candidate and do its iteration. */
    method OneCandidate(R: UnrolledList, P: SimpleHashSet, X: SimpleHashSet, cand: SimpleHashSet, h: Graph, w: Worker,
          ghost k: int, ghost d: Task, ghost i: nat)
      returns (ok: bool, child: MainBKTask?, atEnd: bool, ghost e: Effect, ghost miss: Miss)
      requires Simple(g) && ValidOrder(g, cfg.order) && mode <= 2 && w.Valid()
      requires d.Looping? && TaskOk(g, cfg.limit, d) && IsList(R, d.R) && Carries(P, X, h, g, d.P, d.X)
          && Queue(cand, k, d.K)
      requires R in R.Repr && P in P.Repr && X in X.Repr && cand in cand.Repr
      requires R.Repr !! P.Repr !! X.Repr !! cand.Repr !! {this} !! h.store + {h} !! {w}
      requires Guards(h, R.Repr + P.Repr + X.Repr + cand.Repr)
      modifies `taskSpawnCnt, `taskLevel, w, R.Repr, P.Repr, X.Repr, cand.Repr, graphg
      ensures (Narrow(g) ==> ok) && (!ok ==> Misses(vector, miss))
      ensures ok ==>
          Iterates(g, cfg, d, e) && w.Valid() && w.log == old(w.log) + e.log && w.leaves == old(w.leaves) + e.leaves
      ensures ok ==>
          fresh(R.Repr - old(R.Repr)) && P.Repr == old(P.Repr) && fresh(X.Repr - old(X.Repr))
              && cand.Repr == old(cand.Repr)
      ensures ok ==> R in R.Repr && P in P.Repr && X in X.Repr && cand in cand.Repr
      ensures ok ==> R.Repr !! P.Repr !! X.Repr !! cand.Repr !! {this} !! h.store + {h} !! {w}
      ensures ok && atEnd ==> e.after == Done
      ensures ok && !atEnd ==> e.after.Looping? && TaskOk(g, cfg.limit, e.after)
      ensures ok && !atEnd ==>
          IsList(R, e.after.R) && Carries(P, X, h, g, e.after.P, e.after.X) && Queue(cand, k + 1, e.after.K)
      ensures ok && child == null ==> e.spawned == []
      ensures ok && child != null ==>
          IsChild(child, i) && fresh(child.Repr) && child.Repr !! R.Repr + P.Repr + X.Repr
              && e.spawned == [child.duty]
      ensures ok ==> CountsChild(old(graphg.State()), child != null)
    {
      hide Narrow, IsMiss, IsChild;
      hide IsList, Carries, Queue, Worker.Valid, TaskOk, Simple, ValidOrder, IteratesOn, Valid, UnrolledList.Valid;
      hide UnrolledList.Elems;
      LoopingNotEmpty(g, cfg.limit, d);
      var current_node := TakeNext(cand, k, d.K);
      atEnd := false;
      ok, child, e, miss := LoopIteration(current_node, R, P, X, h, w, d, i);
      if !ok {
        return;
      }
      AfterIteration(g, cfg, d, current_node, e);
      IsListSize(R, d.R);
      CarriesOwn(P, X, h, g, d.P - {current_node}, d.X + {current_node});
      atEnd := AtLast(cand, k + 1, d.K - {current_node});
    }

    /** A child as an agent, if there is one. */
    static ghost function KidsOf(child: MainBKTask?): seq<Agent>
      reads child
    {
      if child == null then [] else [child.agent]
    }

    lemma ChildAgents(child: MainBKTask?, i: nat, e: Effect)
      requires child == null ==> e.spawned == []
      requires child != null ==> IsChild(child, i) && e.spawned == [child.duty]
      ensures KidsOf(child) == Spawned(mode, e.spawned, i, agent.guard)
    {
      hide Valid;
    }

    lemma OthersAway(guards: seq<GraphGuard>)
      requires Away(guards)
      ensures forall o :: o in OthersOf(guards, agent.guard) ==> o !in Repr
    {
    }

    lemma CountedChild(guards: seq<GraphGuard>, states: seq<Guard>, spawned: bool) returns (states': seq<Guard>)
      requires Others(guards, states, agent.guard) && guards[agent.guard] == graphg
          && CountsChild(states[agent.guard], spawned)
      ensures agent.guard < |states|
      ensures states' == Apply(if spawned && mode == 2 then Inc else Keep, states, agent.guard)
      ensures Holds(guards, states') && Live()
    {
      states' := Apply(if spawned && mode == 2 then Inc else Keep, states, agent.guard);
    }

    /** One candidate has been dealt with, with a child or without, and the guards have been counted up for it. */
    ghost predicate Counted(R: UnrolledList, P: SimpleHashSet, X: SimpleHashSet, cand: SimpleHashSet, atEnd: bool,
          k: int, e: Effect, spawned: bool, guards: seq<GraphGuard>, states: seq<Guard>)
      reads this, graphg, graph, graph.store, R, R.Repr, P, P.Repr, X, X.Repr, cand, cand.Repr, guards
    {
      && Static() && InPhase() && !newTask && !isContinuation
      && R_task == R && P_task == P && X_task == X && cand_task == cand
      && R in R.Repr && P in P.Repr && X in X.Repr && cand in cand.Repr
      && R.Repr !! P.Repr !! X.Repr !! cand.Repr !! {this} !! graph.store + {graph}
      && graphg !in R.Repr + P.Repr + X.Repr + cand.Repr
      && (if atEnd then e.after == Done else
            && e.after.Looping? && TaskOk(g, cfg.limit, e.after) && IsList(R, e.after.R)
            && Carries(P, X, graph, g, e.after.P, e.after.X) && Queue(cand, k + 1, e.after.K))
      && Others(guards, states, agent.guard) && guards[agent.guard] == graphg
      && CountsChild(states[agent.guard], spawned)
    }

    /** The task waits for its next candidate, or becomes a continuation. */
    method Settle(R: UnrolledList, P: SimpleHashSet, X: SimpleHashSet, cand: SimpleHashSet, atEnd: bool,
          ghost k: int, ghost e: Effect, ghost kids: seq<Agent>, ghost i: nat, ghost guards: seq<GraphGuard>,
          ghost states: seq<Guard>)
      returns (ghost states': seq<Guard>)
      requires Counted(R, P, X, cand, atEnd, k, e, kids != [], guards, states)
      requires Iterates(g, cfg, agent.duty, e) && kids == Spawned(mode, e.spawned, i, agent.guard)
      modifies `P_task, `X_task, `cand_task, `isContinuation, `duty, `cursor, `Repr, `agent, graphg
      ensures Valid() && duty == e.after && Holds(guards, states') && agent.guard == old(agent).guard
      ensures Repr == if atEnd then old(Repr) else {this} + R.Repr + P.Repr + X.Repr + cand.Repr
      ensures Reaches(g, cfg, mode, i, Local(old(agent), [], states), Local(agent, kids, states'))
    {
      hide IsList, Carries, Queue, TaskOk, Simple, ValidOrder, Iterates, Valid, Reaches, Mirror, Others, CountsChild;
      ghost var a := agent;
      states' := CountedChild(guards, states, kids != []);
      IterationMove(g, cfg, mode, i, a, e, states);
      if atEnd {
        ghost var before := states';
        duty, agent := Done, agent.(duty := Done);
        states' := FinishLoop(guards, before);
        FinishMove(g, cfg, mode, i, a.(duty := Done), kids, before);
        Onwards(g, cfg, mode, i, Local(a, [], states), Local(a.(duty := Done), kids, before),
                Local(agent, kids, states'));
      } else {
        Reexecute(R, P, X, cand, k + 1, a.(duty := e.after));
      }
    }

    /** The next candidate of this task, which is agent number i. */
    method Advance(w: Worker, cand: SimpleHashSet, ghost i: nat, ghost guards: seq<GraphGuard>,
          ghost states: seq<Guard>)
      returns (ok: bool, child: MainBKTask?, ghost e: Effect, ghost miss: Miss, ghost states': seq<Guard>)
      requires Static() && InPhase() && InLoop() && !newTask && !isContinuation && cand == cand_task
      requires w.Valid() && {w} !! Repr + graph.store + {graph} && Holds(guards, states) && Live()
      requires Away(guards)
      modifies Repr, w, graphg
      ensures (Narrow(g) ==> ok) && (!ok ==> Misses(vector, miss))
      ensures ok ==> Valid() && fresh(Repr - old(Repr)) && graph == old(graph) && graphg == old(graphg) && w.Valid()
      ensures ok ==> Iterates(g, cfg, old(duty), e) && duty == e.after
      ensures ok ==> w.log == old(w.log) + e.log && w.leaves == old(w.leaves) + e.leaves
      ensures ok && child == null ==> e.spawned == []
      ensures ok && child != null ==>
          IsChild(child, i) && fresh(child.Repr) && child.Repr !! Repr && e.spawned == [child.duty]
      ensures ok ==> Holds(guards, states')
      ensures ok ==>
          Reaches(g, cfg, mode, i, Local(old(agent), [], states), Local(agent, KidsOf(child), states'))
    {
      hide Narrow, IsMiss, Counted;
      hide IsList, Carries, Queue, Worker.Valid, TaskOk, Simple, ValidOrder, Iterates, Valid, Reaches, Mirror, Others;
      var R, P, X := R_task, P_task, X_task;
      states' := states;
      var atEnd;
      ghost var k := cursor;
      ok, child, atEnd, e, miss := NextCandidate(R, P, X, cand, w, i, guards, states);
      if ok {
        ghost var kids := KidsOf(child);
        if child != null {
          OwnsNoGuard(child);
        }
        states' := Settle(R, P, X, cand, atEnd, k, e, kids, i, guards, states);
      }
    }

    /** The next candidate, up to the state in which the task is left. */
    method NextCandidate(R: UnrolledList, P: SimpleHashSet, X: SimpleHashSet, cand: SimpleHashSet, w: Worker,
          ghost i: nat, ghost guards: seq<GraphGuard>, ghost states: seq<Guard>)
      returns (ok: bool, child: MainBKTask?, atEnd: bool, ghost e: Effect, ghost miss: Miss)
      requires Static() && InPhase() && InLoop() && !newTask && !isContinuation && cand == cand_task
          && R_task == R && P_task == P && X_task == X
      requires w.Valid() && {w} !! Repr + graph.store + {graph} && Holds(guards, states) && Live()
      requires Away(guards)
      modifies `taskSpawnCnt, `taskLevel, w, R.Repr, P.Repr, X.Repr, cand.Repr, graphg
      ensures (Narrow(g) ==> ok) && (!ok ==> Misses(vector, miss))
      ensures ok ==> Counted(R, P, X, cand, atEnd, old(cursor), e, child != null, guards, states) && w.Valid()
      ensures ok ==> fresh(R.Repr + P.Repr + X.Repr + cand.Repr - old(Repr))
      ensures ok ==> Iterates(g, cfg, duty, e) && KidsOf(child) == Spawned(mode, e.spawned, i, agent.guard)
      ensures ok ==> w.log == old(w.log) + e.log && w.leaves == old(w.leaves) + e.leaves
      ensures ok && child == null ==> e.spawned == []
      ensures ok && child != null ==>
          IsChild(child, i) && fresh(child.Repr) && child.Repr !! Repr + R.Repr + P.Repr + X.Repr + cand.Repr
              && e.spawned == [child.duty]
    {
      hide Narrow, IsMiss, IsChild;
      hide IsList, Carries, Queue, Worker.Valid, TaskOk, Simple, ValidOrder, Iterates, Valid, Mirror, Others;
      hide CountsChild;
      ghost var k, d := cursor, duty;
      IsListSize(R, d.R);
      CarriesOwn(P, X, graph, g, d.P, d.X);
      QueueOwn(cand, k, d.K);
      MirrorsOthers(guards, states, agent.guard);
      OthersAway(guards);
      hide Away;
      ok, child, atEnd, e, miss := OneCandidate(R, P, X, cand, graphg.graph, w, k, d, i);
      if ok {
        ChildAgents(child, i, e);
      }
    }

    /** The candidates are known. Without any, the first `get_next` answers -1 and the task is done. */
    method Enter(R: UnrolledList, P: SimpleHashSet, X: SimpleHashSet, cand: SimpleHashSet, h: Graph, ghost d: Task,
          ghost u: Vertex, ghost a: Agent, ghost guards: seq<GraphGuard>, ghost states: seq<Guard>)
      returns (done: bool, ghost states': seq<Guard>)
      requires Simple(g) && ValidOrder(g, cfg.order) && mode <= 2 && !isContinuation && !finished && R_task == R
          && P_task == P && X_task == X
      requires d.New? && TaskOk(g, cfg.limit, d) && d.P != {} && !CutsOff(cfg.limit, |d.R|) && u in g
          && BestPivot(g, d.P, d.X, u)
      requires IsList(R, d.R) && Carries(P, X, h, g, d.P, d.X) && Lists(cand, d.P - g[u]) && cand.Valid()
          && cand.CursorAt(-1)
      requires R in R.Repr && P in P.Repr && X in X.Repr && cand in cand.Repr
      requires R.Repr !! P.Repr !! X.Repr !! cand.Repr !! {this} !! h.store + {h}
      requires Guards(h, R.Repr + P.Repr + X.Repr + cand.Repr)
      requires a.duty == Entered(g, d, u) && a.phase == Searching && (a.newGraph <==> newGraph)
          && (IsRoot(a) <==> parent == null)
      requires Mirror(guards, states) && a.guard < |guards| && guards[a.guard] == graphg
      modifies `newTask, `graph, `P_task, `X_task, `cand_task, `isContinuation, `Repr, `duty, `cursor, `agent, graphg
      ensures Static() && graph == h && Repr == {this} + R.Repr + P.Repr + X.Repr + cand.Repr && Holds(guards, states')
      ensures done <==> d.P - g[u] == {}
      ensures done ==> Valid() && duty == Done && Executes(g, cfg, d, Effect(Done, [], [], 1))
      ensures done ==> agent == a.(phase := Resting(false))
      ensures done ==> states' == Apply(if mode == 2 && a.newGraph then Dec else Keep, states, a.guard)
      ensures !done ==> InLoop() && InPhase() && !newTask && !isContinuation && Enters(g, cfg, d, duty)
      ensures !done ==> agent == a && states' == states && Live()
    {
      hide IsList, Carries, Queue, TaskOk, Simple, ValidOrder, BestPivot, Lists, SimpleHashSet.Valid;
      hide SimpleHashSet.CursorAt, Executes, Enters, Valid, InLoop, Mirror;
      EnterLoop(g, cfg, d, u);
      StartQueue(cand, d.P - g[u]);
      done := AtLast(cand, -1, d.P - g[u]);
      newTask, graph, cand_task, states' := false, h, cand, states;
      if done {
        states' := EnterDone({this} + R.Repr + P.Repr + X.Repr + cand.Repr, a, guards, states);
      } else {
        Reexecute(R, P, X, cand, -1, a);
      }
    }

    /** The first part of the first execution of this task, which is agent number i. */
    method Begin(w: Worker, ghost d: Task, ghost i: nat, ghost guards: seq<GraphGuard>, ghost states: seq<Guard>)
      returns (ok: bool, done: bool, ghost e: Effect, ghost failed: Graph?, ghost miss: Miss,
          ghost guards': seq<GraphGuard>, ghost states': seq<Guard>)
      requires Static() && InPhase() && HasLists() && Unstarted() && d == duty && d.New? && newTask && !isContinuation
      requires w.Valid() && {w} !! Repr + graph.store + {graph} && Holds(guards, states) && Live()
      modifies this, w, graphg
      ensures ok ==> Static() && w.Valid() && fresh(Repr - old(Repr))
      ensures (mode == 0 && !vector) || Narrow(g) ==> ok
      ensures CutsAtOnce(d) ==> ok && done
      ensures !ok ==> (failed != null && failed.Overgrown()) || Misses(vector, miss)
      ensures ok ==> graph == old(graph) || (fresh(graph) && fresh(graph.store))
      ensures ok ==> graphg == old(graphg) || fresh(graphg)
      ensures ok ==> w.log == old(w.log) + e.log && w.leaves == old(w.leaves) + e.leaves
      ensures ok && done ==> Valid() && duty == Done && e.after == Done && e.spawned == [] && Executes(g, cfg, d, e)
      ensures ok && !done ==>
          InLoop() && InPhase() && !newTask && !isContinuation && Enters(g, cfg, d, duty) && e.log == []
              && e.leaves == 0 && Live()
      ensures ok ==> Holds(guards', states') && (guards' == guards || (guards' == guards + [graphg] && fresh(graphg)))
      ensures ok ==> Reaches(g, cfg, mode, i, Local(old(agent), [], states), Local(agent, [], states'))
    {
      hide IsList, Carries, Queue, Worker.Valid, TaskOk, Simple, ValidOrder, InLoop, Executes, Enters, Narrow;
      hide Graph.Overgrown, IsMiss, Valid, Begun, Mirror, Others, Reaches;
      var R, P, X := R_task, P_task, X_task;
      IsListSize(R, d.R);
      CarriesOwn(P, X, graph, g, d.P, d.X);
      var end, cand, h;
      ghost var u;
      ok, end, cand, h, u, miss := BeginWith(R, P, X, w, d, guards, states);
      failed := h;
      done, e, guards', states' := true, Effect(Done, [], [], 0), guards, states;
      if !ok {
        return;
      }
      ghost var owned, more: set<object> := Repr, if end || cand == null then {} else cand.Repr;
      done, e, guards', states' := Proceed(R, P, X, end, cand, h, d, u, i, guards, states);
      assert Repr <= owned + more;
    }

    /** A new task is waiting, and its graph is alive. */
    lemma BeforeStart(guards: seq<GraphGuard>, states: seq<Guard>)
      requires Holds(guards, states) && Live() && InPhase() && newTask && !isContinuation
      ensures Others(guards, states, agent.guard) && |guards| == |states| && graphg !in OthersOf(guards, agent.guard)
      ensures states[agent.guard] == graphg.State() && states[agent.guard].live
      ensures agent.phase == Waiting && !finished
    {
      MirrorsOthers(guards, states, agent.guard);
    }

    /** The first call has begun on the branch d: it ends, or goes on in h with the candidates of the pivot u. */
    ghost predicate Begun(R: UnrolledList, P: SimpleHashSet, X: SimpleHashSet, end: bool, cand: SimpleHashSet?,
          h: Graph, d: Task, u: Vertex, guards: seq<GraphGuard>, states: seq<Guard>)
      reads this, graphg, R, R.Repr, P, P.Repr, X, X.Repr, cand, if cand == null then {} else cand.Repr, h, h.store
      reads graph, guards
    {
      && this in Repr && Repr !! graph.store + {graph} && Simple(g) && ValidOrder(g, cfg.order) && mode <= 2
      && newTask && !isContinuation && !finished && R_task == R && P_task == P && X_task == X
      && d.New? && TaskOk(g, cfg.limit, d) && (end <==> d.P == {} || CutsOff(cfg.limit, |d.R|))
      && IsList(R, d.R) && Carries(P, X, h, g, d.P, d.X) && (d.P != {} ==> newGraph == agent.newGraph)
      && agent.duty == d && agent.phase == Waiting && (IsRoot(agent) <==> parent == null) && taskSpawnCnt == 0
      && Others(guards, states, agent.guard) && StartsGuard(guards[agent.guard], states[agent.guard], d, h)
      && states[agent.guard].live && R.Repr <= Repr && P.Repr <= Repr && X.Repr <= Repr
      && if end then
           h == graph && graphg !in Repr + graph.store && graphg.held == graph && guards[agent.guard] == graphg
         else
           && cand != null && Picks(d, cand, h, u) && cand.Repr !! R.Repr + P.Repr + X.Repr + {this}
           && (CreatesGraph() || graphg.held == h) && (CreatesGraph() ==> graphg !in guards)
           && R in R.Repr && P in P.Repr && X in X.Repr && R.Repr !! P.Repr !! X.Repr !! {this} !! h.store + {h}
           && graphg !in R.Repr + P.Repr + X.Repr + cand.Repr + h.store
    }

    method BeginWith(R: UnrolledList, P: SimpleHashSet, X: SimpleHashSet, w: Worker, ghost d: Task,
          ghost guards: seq<GraphGuard>, ghost states: seq<Guard>)
      returns (ok: bool, end: bool, cand: SimpleHashSet?, h: Graph, ghost u: Vertex, ghost miss: Miss)
      requires Static() && InPhase() && Unstarted() && d.New? && TaskOk(g, cfg.limit, d) && newTask && !isContinuation
      requires R_task == R && P_task == P && X_task == X && R in R.Repr && P in P.Repr && X in X.Repr && duty == d
      requires IsList(R, d.R) && Carries(P, X, graph, g, d.P, d.X) && R.Repr <= Repr && P.Repr <= Repr && X.Repr <= Repr
      requires R.Repr !! P.Repr !! X.Repr !! {this}
      requires w.Valid() && {w} !! Repr + graph.store + {graph} && Holds(guards, states) && Live()
      modifies `newGraph, `graphg, w, graphg
      ensures ok ==> Begun(R, P, X, end, cand, h, d, u, guards, states) && w.Valid()
      ensures (mode == 0 && !vector) || Narrow(g) || CutsAtOnce(d) ==> ok
      ensures !ok ==> h.Overgrown() || Misses(vector, miss)
      ensures ok ==> h == graph || (fresh(h) && fresh(h.store))
      ensures ok ==> graphg == old(graphg) || fresh(graphg)
      ensures ok ==> w.log == old(w.log) + (if d.P == {} && d.X == {} then [d.R] else [])
      ensures ok ==> w.leaves == old(w.leaves) + if end then 1 else PivotLeaf(d, u)
      ensures ok && !end ==> cand != null && fresh(cand.Repr) && (CreatesGraph() ==> fresh(graphg))
    {
      hide IsList, Carries, Queue, Worker.Valid, TaskOk, Simple, ValidOrder, BestPivot, Lists, SimpleHashSet.Valid;
      hide SimpleHashSet.CursorAt, Narrow, Graph.Overgrown, IsMiss, Valid;
      hide Graph.Ready, Serves, StartsGuard, Picks, HasLists, RootDuty, Mirror, Others;
      hide InPhase, GraphGuard.State;
      BeforeStart(guards, states);
      ok, end, cand, h, u, miss := StartTask(R, P, X, graphg.graph, w, d);
      if !ok {
        return;
      }
      assert Others(guards, states, agent.guard);
      StartsGuardFacts(guards[agent.guard], states[agent.guard], d, h);
    }

    /** The first part once the call has begun: the task ends, or moves on to its candidates. */
    method Proceed(R: UnrolledList, P: SimpleHashSet, X: SimpleHashSet, end: bool, cand: SimpleHashSet?, h: Graph,
          ghost d: Task, ghost u: Vertex, ghost i: nat, ghost guards: seq<GraphGuard>, ghost states: seq<Guard>)
      returns (done: bool, ghost e: Effect, ghost guards': seq<GraphGuard>, ghost states': seq<Guard>)
      requires Begun(R, P, X, end, cand, h, d, u, guards, states)
      modifies `newTask, `graph, `P_task, `X_task, `cand_task, `isContinuation, `Repr, `duty, `cursor, `agent, graphg
      ensures Static() && graph == h && Holds(guards', states')
      ensures if end then Repr == old(Repr) else cand != null && Repr - old(Repr) <= old(cand.Repr)
      ensures end == (d.P == {} || CutsOff(cfg.limit, |d.R|))
      ensures guards' == if !end && CreatesGraph() then guards + [graphg] else guards
      ensures e.after == Done && e.spawned == []
      ensures end ==> done && e.log == (if d.P == {} && d.X == {} then [d.R] else []) && e.leaves == 1
      ensures !end ==> e.log == [] && e.leaves == PivotLeaf(d, u)
      ensures done ==> Valid() && duty == Done && Executes(g, cfg, d, e)
      ensures !done ==>
          InLoop() && InPhase() && !newTask && !isContinuation && Enters(g, cfg, d, duty) && e.leaves == 0 && Live()
      ensures Reaches(g, cfg, mode, i, Local(old(agent), [], states), Local(agent, [], states'))
    {
      hide IsList, Carries, Queue, TaskOk, Simple, ValidOrder, BestPivot, Lists, SimpleHashSet.Valid;
      hide SimpleHashSet.CursorAt, InLoop, Executes, Enters, Valid, Reaches, Picks, StartsGuard, HasLists, RootDuty;
      hide PivotLeaf;
      if end {
        done, e, guards' := true, Effect(Done, [], if d.P == {} && d.X == {} then [d.R] else [], 1), guards;
        EndExecutes(g, cfg, d);
        states' := EndWith(d, i, guards, states);
      } else {
        done, e, guards', states' := EnterWith(R, P, X, cand, h, d, u, i, guards, states);
      }
    }

    /** The end of a task in its first execution: it has no vertices to add, or the size limit ends it. */
    method EndWith(ghost d: Task, ghost i: nat, ghost guards: seq<GraphGuard>, ghost states: seq<Guard>)
      returns (ghost states': seq<Guard>)
      requires this in Repr && Repr !! graph.store + {graph} && Simple(g) && ValidOrder(g, cfg.order) && mode <= 2
      requires graphg !in Repr + graph.store && graphg.held == graph && newTask && !isContinuation && !finished
      requires d.New? && (d.P == {} || CutsOff(cfg.limit, |d.R|)) && (d.P != {} ==> newGraph == agent.newGraph)
      requires agent.duty == d && agent.phase == Waiting && (IsRoot(agent) <==> parent == null)
      requires Others(guards, states, agent.guard) && guards[agent.guard] == graphg
          && StartsGuard(graphg, states[agent.guard], d, graph)
      modifies `P_task, `X_task, `cand_task, `isContinuation, `duty, `agent
      ensures Valid() && Static() && duty == Done && Holds(guards, states')
      ensures Reaches(g, cfg, mode, i, Local(old(agent), [], states), Local(agent, [], states'))
    {
      hide Simple, ValidOrder, Reaches, Valid;
      ghost var a := agent;
      agent := a.(newGraph := newGraph);
      states' := Apply(if d.P == {} && mode == 2 && !IsRoot(a) then Dec else Keep, states, a.guard);
      duty := d;
      EndsAsMoved(i, d, a, states);
      assert Mirror(guards, states');
      Finish(d.P != {});
    }

    /** The moves of an execution that ends at once. */
    lemma EndsAsMoved(i: nat, d: Task, a: Agent, states: seq<Guard>)
      requires a.phase.Waiting? && a.duty == d && d.New? && (d.P == {} || CutsOff(cfg.limit, |d.R|))
          && a.guard < |states|
      ensures Reaches(g, cfg, mode, i, Local(a, [], states), Local(
        a.(duty := Done, newGraph := a.newGraph && d.P != {}, phase := Resting(d.P != {})), [],
        Apply(if d.P == {} && mode == 2 && !IsRoot(a) then Dec else Keep, states, a.guard)))
    {
      hide Reaches;
      if d.P == {} {
        EndMove(g, cfg, mode, i, a, states);
        assert (d.P != {}) == false;
      } else {
        CutMove(g, cfg, mode, i, a, states);
        assert a.(newGraph := a.newGraph && true) == a;
      }
    }

    /** The end of the first part, when there is a pivot: the agent moves to its graph and its candidates. */
    method EnterWith(R: UnrolledList, P: SimpleHashSet, X: SimpleHashSet, cand: SimpleHashSet, h: Graph, ghost d: Task,
          ghost u: Vertex, ghost i: nat, ghost guards: seq<GraphGuard>, ghost states: seq<Guard>)
      returns (done: bool, ghost e: Effect, ghost guards': seq<GraphGuard>, ghost states': seq<Guard>)
      requires Simple(g) && ValidOrder(g, cfg.order) && mode <= 2 && !isContinuation && !finished && R_task == R
          && P_task == P && X_task == X
      requires d.New? && TaskOk(g, cfg.limit, d) && d.P != {} && !CutsOff(cfg.limit, |d.R|)
      requires IsList(R, d.R) && Carries(P, X, h, g, d.P, d.X) && Picks(d, cand, h, u)
      requires R in R.Repr && P in P.Repr && X in X.Repr && taskSpawnCnt == 0
      requires R.Repr !! P.Repr !! X.Repr !! {this} !! h.store + {h} && cand.Repr !! R.Repr + P.Repr + X.Repr + {this}
      requires graphg !in R.Repr + P.Repr + X.Repr + cand.Repr + h.store
      requires agent.duty == d && agent.phase == Waiting && (agent.newGraph <==> newGraph)
          && (IsRoot(agent) <==> parent == null)
      requires Others(guards, states, agent.guard) && StartsGuard(guards[agent.guard], states[agent.guard], d, h)
          && states[agent.guard].live && (CreatesGraph() || graphg.held == h) && (CreatesGraph() ==> graphg !in guards)
      modifies `newTask, `graph, `P_task, `X_task, `cand_task, `isContinuation, `Repr, `duty, `cursor, `agent, graphg
      ensures Static() && graph == h && Repr == {this} + R.Repr + P.Repr + X.Repr + cand.Repr && Holds(guards', states')
      ensures guards' == if CreatesGraph() then guards + [graphg] else guards
      ensures e == Effect(Done, [], [], PivotLeaf(d, u))
      ensures done ==> Valid() && duty == Done && Executes(g, cfg, d, e)
      ensures !done ==>
          InLoop() && InPhase() && !newTask && !isContinuation && Enters(g, cfg, d, duty) && e.leaves == 0 && Live()
      ensures Reaches(g, cfg, mode, i, Local(old(agent), [], states), Local(agent, [], states'))
    {
      hide IsList, Carries, Queue, TaskOk, Simple, ValidOrder, BestPivot, Lists, SimpleHashSet.Valid;
      hide SimpleHashSet.CursorAt, Executes, Enters, InLoop, Valid, Reaches;
      ghost var a := agent;
      ghost var a', started := Started(mode, a, Entered(g, d, u), states), StartedGuards(mode, a, states);
      guards' := if CreatesGraph() then guards + [graphg] else guards;
      EntersBy(g, cfg, d, u);
      EnterMoves(g, cfg, mode, i, a, Entered(g, d, u), states);
      StartedMirror(d, h, guards, states);
      done, states' := Enter(R, P, X, cand, h, d, u, a', guards', started);
      e := Effect(Done, [], [], if done then 1 else 0);
      if done {
        FinishMove(g, cfg, mode, i, a', [], started);
        Onwards(g, cfg, mode, i, Local(a, [], states), Local(a', [], started), Local(agent, [], states'));
      }
    }

    /** The guards once a task has started. */
    lemma StartedMirror(d: Task, h: Graph, guards: seq<GraphGuard>, states: seq<Guard>)
      requires d.New? && d.P != {} && !CutsOff(cfg.limit, |d.R|) && mode <= 2 && taskSpawnCnt == 0
      requires (agent.newGraph <==> newGraph) && (IsRoot(agent) <==> parent == null)
      requires Others(guards, states, agent.guard) && StartsGuard(guards[agent.guard], states[agent.guard], d, h)
          && states[agent.guard].live && (CreatesGraph() || graphg.held == h) && (CreatesGraph() ==> graphg !in guards)
      ensures var guards' := if CreatesGraph() then guards + [graphg] else guards;
              var a' := Started(mode, agent, d, states);
              Mirror(guards', StartedGuards(mode, agent, states)) && a'.guard < |guards'|
                  && guards'[a'.guard] == graphg
      ensures Live() && graphg.held == h
    {
    }

    /** The first execution of this task, which is agent number i, up to its first candidate. */
    method Start(w: Worker, ghost d: Task, ghost i: nat, ghost guards: seq<GraphGuard>, ghost states: seq<Guard>)
      returns (ok: bool, done: bool, ghost e: Effect, ghost failed: Graph?, ghost miss: Miss,
          ghost guards': seq<GraphGuard>, ghost states': seq<Guard>)
      requires Valid() && newTask && !isContinuation && d == duty
      requires w.Valid() && {w} !! Repr + graph.store + {graph} && Holds(guards, states) && Live()
      modifies this, w, graphg
      ensures ok ==> Static() && w.Valid() && fresh(Repr - old(Repr))
      ensures (mode == 0 && !vector) || Narrow(g) ==> ok
      ensures CutsAtOnce(d) ==> ok && done
      ensures !ok ==> (failed != null && failed.Overgrown()) || Misses(vector, miss)
      ensures ok ==> graph == old(graph) || (fresh(graph) && fresh(graph.store))
      ensures ok ==> graphg == old(graphg) || fresh(graphg)
      ensures ok ==> w.log == old(w.log) + e.log && w.leaves == old(w.leaves) + e.leaves
      ensures ok && done ==> Valid() && duty == Done && e.after == Done && e.spawned == [] && Executes(g, cfg, d, e)
      ensures ok && !done ==>
          InLoop() && InPhase() && !newTask && !isContinuation && Enters(g, cfg, d, duty) && e.log == []
              && e.leaves == 0 && Live()
      ensures ok ==> Holds(guards', states') && (guards' == guards || (guards' == guards + [graphg] && fresh(graphg)))
      ensures ok ==> Reaches(g, cfg, mode, i, Local(old(agent), [], states), Local(agent, [], states'))
    {
      hide IsMiss, Reaches;
      hide Worker.Valid, HasLists, RootDuty, InLoop, Executes, Enters, Simple, ValidOrder, Narrow, Graph.Overgrown;
      if parent == null {
        BuildRoot();
      }
      ok, done, e, failed, miss, guards', states' := Begin(w, d, i, guards, states);
    }

    /** The size limit ends a new task in its first execution. */
    ghost predicate CutsAtOnce(d: Task) {
      d.New? && CutsOff(cfg.limit, |d.R|)
    }

    /** The rest of an execution. */
    method Continue(w: Worker, ghost i: nat, ghost guards: seq<GraphGuard>, ghost states: seq<Guard>)
      returns (ok: bool, child: MainBKTask?, ghost e: Effect, ghost miss: Miss, ghost states': seq<Guard>)
      requires Static() && InPhase() && InLoop() && !newTask && !isContinuation
      requires w.Valid() && {w} !! Repr + graph.store + {graph} && Holds(guards, states) && Live()
      requires Away(guards)
      modifies Repr, w, graphg
      ensures (Narrow(g) ==> ok) && (!ok ==> Misses(vector, miss))
      ensures ok ==> Valid() && fresh(Repr - old(Repr)) && graph == old(graph) && graphg == old(graphg) && w.Valid()
      ensures ok ==> Iterates(g, cfg, old(duty), e) && duty == e.after
      ensures ok ==> w.log == old(w.log) + e.log && w.leaves == old(w.leaves) + e.leaves
      ensures ok && child == null ==> e.spawned == []
      ensures ok && child != null ==>
          IsChild(child, i) && fresh(child.Repr) && child.Repr !! Repr && e.spawned == [child.duty]
      ensures ok ==> Holds(guards, states')
      ensures ok ==>
          Reaches(g, cfg, mode, i, Local(old(agent), [], states), Local(agent, KidsOf(child), states'))
    {
      hide Narrow, IsMiss;
      hide HasLists, Worker.Valid, Iterates, Queue, Reaches, IsChild;
      ok, child, e, miss, states' := Advance(w, cand_task, i, guards, states);
    }

    /**
     `execute()` of a task that is not a continuation: build and start it if it is new, and do the
     iteration of its next candidate. It is one execution of the task pool; and on the guards, which are
     `guards` in the states `states` with the graph of this task alive, it makes the moves of the guard
     protocol as agent number i. If ok is false the process has exited, because a table of the graph
     `failed` has outgrown its bounds, or a lookup has gone wrong.
     */
    method Execute(w: Worker, ghost i: nat, ghost guards: seq<GraphGuard>, ghost states: seq<Guard>)
      returns (ok: bool, child: MainBKTask?, ghost e: Effect, ghost failed: Graph?, ghost miss: Miss,
          ghost guards': seq<GraphGuard>, ghost states': seq<Guard>)
      requires Valid() && !isContinuation && w.Valid() && {w} !! Repr + graph.store + {graph}
      requires Holds(guards, states) && Live()
      requires Away(guards)
      modifies Repr, w, graphg
      ensures ok ==> Valid() && fresh(Repr - old(Repr)) && w.Valid()
      ensures (mode == 0 && !vector) || Narrow(g) || CutsAtOnce(old(duty)) ==> ok
      ensures !ok ==> (failed != null && failed.Overgrown()) || Misses(vector, miss)
      ensures ok ==> graph == old(graph) || (fresh(graph) && fresh(graph.store))
      ensures ok ==> graphg == old(graphg) || fresh(graphg)
      ensures ok ==> Executes(g, cfg, old(duty), e) && duty == e.after
      ensures ok ==> w.log == old(w.log) + e.log && w.leaves == old(w.leaves) + e.leaves
      ensures ok && child == null ==> e.spawned == []
      ensures ok && child != null ==>
          IsChild(child, i) && fresh(child.Repr) && child.Repr !! Repr && e.spawned == [child.duty]
      ensures ok ==> Holds(guards', states') && (guards' == guards || (guards' == guards + [graphg] && fresh(graphg)))
      ensures ok ==>
          Reaches(g, cfg, mode, i, Local(old(agent), [], states), Local(agent, KidsOf(child), states'))
    {
      hide IsMiss, Reaches, IsChild;
      hide HasLists, Worker.Valid, Iterates, Executes, Enters, Simple, ValidOrder, Queue, Later, Earlier, Graph.Ready;
      hide Narrow, Graph.Overgrown;
      ghost var d, l := duty, Local(agent, [], states);
      child, e, failed, miss, guards', states' := null, Effect(Done, [], [], 0), null, NO_MISS, guards, states;
      NoMove(g, cfg, mode, i, l);
      if newTask {
        var done;
        ok, done, e, failed, miss, guards', states' := Start(w, d, i, guards, states);
        if !ok || done {
          return;
        }
      }
      ghost var loop, m := duty, Local(agent, [], states');
      ok, child, e, miss, states' := Continue(w, i, guards', states');
      if !ok {
        return;
      }
      EnteredOrLooping(g, cfg, d, loop, e);
      Onwards(g, cfg, mode, i, l, m, Local(agent, KidsOf(child), states'));
    }

    /** `Continuation()`, after all children: in mode 1 the task gives back the guard, unless it has ended at once. */
    method Continuation(ghost guards: seq<GraphGuard>, ghost states: seq<Guard>) returns (ghost states': seq<Guard>)
      requires Valid() && isContinuation && !finished && Holds(guards, states) && (mode == 1 && newGraph ==> Live())
      modifies `finished, `agent, graphg
      ensures Valid() && finished && Holds(guards, states')
      ensures agent == old(agent).(phase := Finished(old(agent).phase.cut))
      ensures states' == Apply(if mode == 1 && agent.newGraph then Dec else Keep, states, agent.guard)
    {
      hide Unstarted, RootDuty, HasLists, InLoop, Simple, ValidOrder;
      states' := Apply(if mode == 1 && newGraph then Dec else Keep, states, agent.guard);
      if mode == 1 && newGraph {
        graphg.DecGraphRefCount();
      }
      finished, agent := true, agent.(phase := Finished(agent.phase.cut));
    }
  }

  lemma EntersBy(g: Adjacency, cfg: Config, d: Task, u: Vertex)
    requires d.New? && d.P != {} && !CutsOff(cfg.limit, |d.R|) && u in g && BestPivot(g, d.P, d.X, u)
    ensures Enters(g, cfg, d, Entered(g, d, u))
  {
  }

  lemma EnterLoop(g: Adjacency, cfg: Config, d: Task, u: Vertex)
    requires Simple(g) && d.New? && TaskOk(g, cfg.limit, d) && d.P != {} && !CutsOff(cfg.limit, |d.R|)
    requires u in g && BestPivot(g, d.P, d.X, u)
    ensures d.P - g[u] == {} ==> Executes(g, cfg, d, Effect(Done, [], [], 1))
    ensures d.P - g[u] != {} ==> TaskOk(g, cfg.limit, Looping(d.R, d.P, d.X, d.P - g[u]))
    ensures d.P - g[u] != {} ==> Enters(g, cfg, d, Looping(d.R, d.P, d.X, d.P - g[u]))
  {
    hide Branch, BestPivot;
    StartIsLoop(g, cfg.limit, d.R, d.P, d.X, u);
    if d.P - g[u] == {} {
      assert StartsAt(g, cfg, d, u, Effect(Done, [], [], 1));
    }
  }

  lemma LoopingNotEmpty(g: Adjacency, limit: int, d: Task)
    requires TaskOk(g, limit, d) && d.Looping?
    ensures d.K != {}
  {
  }

  lemma AfterIteration(g: Adjacency, cfg: Config, d: Task, v: Vertex, e: Effect)
    requires Simple(g) && d.Looping? && TaskOk(g, cfg.limit, d) && IteratesOn(g, cfg, d, v, e)
    ensures Iterates(g, cfg, d, e) && TaskOk(g, cfg.limit, e.after)
    ensures e.after == if d.K - {v} == {} then Done else Looping(d.R, d.P - {v}, d.X + {v}, d.K - {v})
  {
    hide TaskOk, Descends;
    IterationOk(g, cfg, d, v, e);
    assert d.K - {v} == {} <==> d.K == {v};
  }

  lemma EmptyList()
    ensures ListOf([], {})
  {
  }

  lemma RootServes(g: Adjacency, limit: int, d: Task)
    requires d.New? && Branch(g, limit, d.R, d.P, d.X)
    ensures Serves(g, g, d.P, d.X) && d.P !! d.X
  {
    ServesItself(g, d.P, d.X);
  }

  lemma LaterInside(g: Adjacency, ord: Order, v: Vertex)
    requires Simple(g) && ValidOrder(g, ord) && v in g
    ensures Later(g, ord, v) <= g[v] && Earlier(g, ord, v) <= g[v]
  {
  }

  lemma LaterOrEarlier(g: Adjacency, ord: Order, v: Vertex, w: Vertex)
    requires Simple(g) && ValidOrder(g, ord) && v in g && w in g[v]
    ensures w in g && (w in Later(g, ord, v) <==> Before(g, ord, v, w))
        && (w in Earlier(g, ord, v) <==> !Before(g, ord, v, w))
    ensures Later(g, ord, v) <= g[v] && Earlier(g, ord, v) <= g[v]
  {
  }

  /** The loop that a call enters: its candidates, its cliques and its budget. */
  lemma EnteredLoop(g: Adjacency, limit: int, c: Task, u: Vertex, cl: seq<Vertex>)
    requires Simple(g) && c.New? && Branch(g, limit, c.R, c.P, c.X) && !CutsOff(limit, |c.R|)
    requires u in g && BestPivot(g, c.P, c.X, u) && NoDups(cl) && ToSet(cl) == c.P - g[u]
    ensures var t := Entered(g, c, u);
            && (if cl == [] then t == Done
                else t.Looping? && t.R == c.R && t.P == c.P && t.X == c.X && t.K == ToSet(cl))
            && TaskOk(g, limit, t) && Target(g, limit, t) == Below(g, limit, c.R, c.P)
            && Budget(g, t) <= MaxLeaves(|c.P|) && (c.P - g[u] == {} ==> Budget(g, t) == 0)
  {
    hide Below, Branch, BestPivot, MaxLeaves, Width, Simple;
    StartIsLoop(g, limit, c.R, c.P, c.X, u);
    assert cl == [] <==> ToSet(cl) == {} by {
      NoDupsSize(cl);
    }
    if c.P - g[u] != {} {
      LoopBudget(g, c.P, c.X, u);
    }
  }

  lemma CarriesLists(P: SimpleHashSet, X: SimpleHashSet, h: Graph, g: Adjacency, S: set<Vertex>, T: set<Vertex>)
    requires Carries(P, X, h, g, S, T)
    ensures Lists(P, S) && Lists(X, T) && h.Ready() && Serves(h.model, g, S, T) && S !! T
  {
  }

  /** The graph keeps serving the branch and serves the child, and gives the child the right sets. */
  lemma SplitServes(h: Adjacency, g: Adjacency, P: set<Vertex>, X: set<Vertex>, v: Vertex)
    requires Serves(h, g, P, X) && v in P && P !! X
    ensures v in h && v in g && P * h[v] == P * g[v] && X * h[v] == X * g[v]
    ensures Serves(h, g, P - {v}, X + {v}) && Serves(h, g, P * g[v], X * g[v])
  {
    SameAnswers(h, g, P, X, v);
    ServesBelow(h, g, P, X, P - {v}, X + {v});
    ServesBelow(h, g, P, X, P * g[v], X * g[v]);
  }

  lemma CarriesOwn(P: SimpleHashSet, X: SimpleHashSet, h: Graph, g: Adjacency, S: set<Vertex>, T: set<Vertex>)
    requires Carries(P, X, h, g, S, T)
    ensures P in P.Repr && X in X.Repr
  {
  }

  lemma Restored(R: UnrolledList, s: seq<int>, S: set<Vertex>)
    requires R.Valid() && R.Elems() == s && ListOf(s, S)
    ensures IsList(R, S)
  {
  }

  ghost function CliqueElems(R: UnrolledList, S: set<Vertex>): (s: seq<int>)
    reads R, R.Repr
    requires IsList(R, S)
    ensures s == R.Elems() && ListOf(s, S)
  {
    R.Elems()
  }

  /** A call that ends at once has reported exactly its family. */
  lemma EndFamily(g: Adjacency, limit: int, c: Task)
    requires c.New? && Branch(g, limit, c.R, c.P, c.X) && (c.P == {} || CutsOff(limit, |c.R|))
    ensures Below(g, limit, c.R, c.P) == if c.P == {} && c.X == {} then {c.R} else {}
  {
    if c.P == {} {
      LeafFamily(g, limit, c.R, c.X);
    } else {
      CutOffFamily(g, limit, c.R, c.P, c.X);
    }
  }

  /** Below the threshold there is no way back: a child of a small call is smaller still. */
  lemma NoSpawn(g: Adjacency, cfg: Config, d: Task, v: Vertex, e: Effect)
    requires Simple(g) && d.Looping? && TaskOk(g, cfg.limit, d) && IteratesOn(g, cfg, d, v, e)
    requires |d.P| + |d.X| < cfg.threshold
    ensures e.spawned == []
  {
    SubsetSize(d.P * g[v], d.P);
    SubsetSize(d.X * g[v], d.X);
  }

  /** One candidate of a small call: nothing is spawned, and what it reports is taken off what is left to report. */
  lemma CandidateStep(g: Adjacency, cfg: Config, d: Task, v: Vertex, e: Effect)
    requires Simple(g) && d.Looping? && TaskOk(g, cfg.limit, d) && IteratesOn(g, cfg, d, v, e)
    requires |d.P| + |d.X| < cfg.threshold
    ensures e.spawned == [] && TaskOk(g, cfg.limit, e.after)
    ensures multiset(Target(g, cfg.limit, d)) == multiset(e.log) + multiset(Target(g, cfg.limit, e.after))
    ensures e.leaves + Budget(g, e.after) <= Budget(g, d) && |e.log| <= e.leaves
    ensures |d.P - {v}| + |d.X + {v}| == |d.P| + |d.X| && |d.P - {v}| <= |d.P|
  {
    hide TaskOk, Target, Budget, Weight, Below, Branch, Descends;
    NoSpawn(g, cfg, d, v, e);
    IterationAccounts(g, cfg, d, v, e);
    MovedSizes(g, cfg.limit, d, v);
  }

  lemma DoneTask(g: Adjacency, limit: int)
    ensures TaskOk(g, limit, Done) && Target(g, limit, Done) == {} && Budget(g, Done) == 0
  {
  }

  /** Descending on a candidate and moving it is an iteration of the task pool. */
  lemma IsIteration(g: Adjacency, cfg: Config, d: Task, v: Vertex, c: Task, f: Effect, e: Effect)
    requires d.Looping? && v in d.K && v in g && c == New(d.R + {v}, d.P * g[v], d.X * g[v])
    requires Descends(g, cfg, c.R, c.P, c.X, f)
    requires e == f.(after := if d.K == {v} then Done else Looping(d.R, d.P - {v}, d.X + {v}, d.K - {v}))
    ensures IteratesOn(g, cfg, d, v, e)
  {
    hide Below, MaxLeaves;
  }

  /** What an iteration may rely on. */
  lemma LoopFacts(g: Adjacency, limit: int, d: Task, v: Vertex)
    requires Simple(g) && d.Looping? && TaskOk(g, limit, d) && v in d.K
    ensures v in d.P && v in g && v !in d.R && |d.P * g[v]| < |d.P|
    ensures Branch(g, limit, d.R + {v}, d.P * g[v], d.X * g[v])
  {
    hide Below, Branch, HasPivot;
    var u :| HasPivot(g, d.R, d.P, d.K, u);
    PivotSurvives(g, limit, d.R, d.P, d.K, u, v);
    BranchSteps(g, limit, d.R, d.P, d.X, v);
    ChildIsSmaller(g, d.P, v);
    NotInClique(g, limit, d.R, d.P, d.X, v);
  }

  lemma NotInClique(g: Adjacency, limit: int, R: set<Vertex>, P: set<Vertex>, X: set<Vertex>, v: Vertex)
    requires Branch(g, limit, R, P, X) && v in P
    ensures v !in R
  {
    assert v in P + X;
  }

  /** |P| + |X| stays constant over an iteration. */
  lemma MovedSizes(g: Adjacency, limit: int, d: Task, v: Vertex)
    requires Simple(g) && d.Looping? && TaskOk(g, limit, d) && v in d.K
    ensures |d.P - {v}| + |d.X + {v}| == |d.P| + |d.X| && |d.P - {v}| <= |d.P|
  {
    hide Below;
    var u :| HasPivot(g, d.R, d.P, d.K, u);
  }

  lemma PivotAnswers(h: Adjacency, g: Adjacency, P: set<Vertex>, X: set<Vertex>, u: Vertex)
    requires Serves(h, g, P, X) && BestPivot(g, P, X, u)
    ensures u in h && u in g && P - h[u] == P - g[u]
  {
    SameAnswers(h, g, P, X, u);
  }

  lemma InGraph(h: Adjacency, g: Adjacency, S: set<Vertex>, T: set<Vertex>)
    requires Serves(h, g, S, T)
    ensures S + T <= h.Keys
  {
  }
}
