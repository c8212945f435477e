/**
 When the size limit makes mode 2 leak subgraphs, as a condition on the graph and the options: a
 child task that the limit cuts off never gives back its parent's guard.
 */
module GuardLeaks {
  import opened FiniteSets
  import opened Cliques
  import opened Roots
  import opened TaskPool
  import opened GraphGuards
  import opened GuardRuns
  import opened CompleteGraphs
  import GuardVerdicts

  predicate IsCutChild(a: Agent) {
    !IsRoot(a) && IsCut(a)
  }

  predicate SomeCutChild(agents: seq<Agent>) {
    exists j :: 0 <= j < |agents| && IsCutChild(agents[j])
  }

  // --- a large clique is pursued until some child is cut off ---

  /** A maximal clique so far above the limit that every task on the way to it is large enough to be spawned. */
  ghost predicate Large(g: Adjacency, cfg: Config, M: set<Vertex>) {
    IsMaximal(g, M) && 2 <= cfg.limit < |M| && cfg.limit + cfg.threshold <= |M|
  }

  /** Without the limit the task t would report M. */
  ghost predicate Owing(g: Adjacency, t: Task, M: set<Vertex>) {
    t != Done && M in Below(g, -1, t.R, t.P)
  }

  ghost predicate Pursued(g: Adjacency, agents: seq<Agent>, M: set<Vertex>) {
    SomeCutChild(agents) || exists j :: 0 <= j < |agents| && Owing(g, agents[j].duty, M)
  }

  lemma SameBranch(g: Adjacency, limit: int, R: set<Vertex>, P: set<Vertex>, X: set<Vertex>)
    requires Branch(g, limit, R, P, X)
    ensures Branch(g, -1, R, P, X)
  {
  }

  /** A task at or below the limit that owes a larger clique has vertices left. */
  lemma OwesMore(g: Adjacency, limit: int, t: Task, M: set<Vertex>)
    requires t != Done && TaskOk(g, limit, t) && M in Below(g, -1, t.R, t.P) && |M| > limit >= 2
    ensures t.P != {} && |t.P| >= |M| - |t.R|
  {
    assert M <= t.R + t.P;
    SubsetSize(M, t.R + t.P);
  }

  /** The pivot always leaves a candidate to a task that owes something. */
  lemma EntersOwing(g: Adjacency, cfg: Config, t: Task, loop: Task, M: set<Vertex>)
    requires Simple(g) && t.New? && TaskOk(g, cfg.limit, t) && Owing(g, t, M) && Enters(g, cfg, t, loop)
    ensures Owing(g, loop, M)
  {
    hide Below;
    var u :| u in g && BestPivot(g, t.P, t.X, u) && loop == Entered(g, t, u);
    if t.P - g[u] == {} {
      assert u in Common(g, t.R);
      PivotExhausts(g, -1, t.R, t.P, u);
    }
  }

  /** The clique stays with the loop or goes to the child, and the child is spawned. */
  lemma IteratesOwing(g: Adjacency, cfg: Config, t: Task, e: Effect, M: set<Vertex>)
    requires Simple(g) && TaskOk(g, cfg.limit, t) && Owing(g, t, M) && Large(g, cfg, M) && Iterates(g, cfg, t, e)
    ensures Owing(g, e.after, M) || (|e.spawned| == 1 && Owing(g, e.spawned[0], M))
  {
    hide Below, Branch, HasPivot, IsMaximal;
    var v :| IteratesOn(g, cfg, t, v, e);
    var u :| HasPivot(g, t.R, t.P, t.K, u);
    SameBranch(g, cfg.limit, t.R, t.P, t.X);
    PivotSurvives(g, -1, t.R, t.P, t.K, u, v);
    BranchSteps(g, cfg.limit, t.R, t.P, t.X, v);
    BranchSplits(g, -1, t.R, t.P, t.X, v);
    if M in Below(g, -1, t.R + {v}, t.P * g[v]) {
      var c := New(t.R + {v}, t.P * g[v], t.X * g[v]);
      OwesMore(g, cfg.limit, c, M);
      assert |c.R| <= cfg.limit;
    }
  }

  lemma MoveOwing(g: Adjacency, cfg: Config, mode: nat, n: nat, a: Agent, i: nat, quiet: bool, a': Agent,
        kids: seq<Agent>, op: Op, M: set<Vertex>)
    requires Simple(g) && TaskOk(g, cfg.limit, a.duty) && Moves(g, cfg, mode, n, a, i, quiet, a', kids, op)
    requires AgentOk(mode, n, a) && Owing(g, a.duty, M) && Large(g, cfg, M)
    requires IsRoot(a) && a.phase.Waiting? ==> |a.duty.R| == 1
    ensures Owing(g, a'.duty, M) || IsCutChild(a') || (|kids| == 1 && Owing(g, kids[0].duty, M))
  {
    hide Enters, Iterates, Simple, Owing, TaskOk, IsMaximal;
    if a.phase.Waiting? {
      OwingFacts(g, a.duty, M);
      OwesMore(g, cfg.limit, a.duty, M);
      if !CutsOff(cfg.limit, |a.duty.R|) {
        EntersOwing(g, cfg, a.duty, a'.duty, M);
      }
    } else if a.phase.Searching? && a.duty != Done {
      var e :| Iterates(g, cfg, a.duty, e) && a' == a.(duty := e.after) && kids == Spawned(mode, e.spawned, i, a.guard)
               && op == if kids != [] && mode == 2 then Inc else Keep;
      IteratesOwing(g, cfg, a.duty, e, M);
    } else {
      OwingFacts(g, a.duty, M);
    }
  }

  lemma OwingFacts(g: Adjacency, t: Task, M: set<Vertex>)
    requires Owing(g, t, M)
    ensures t != Done && M in Below(g, -1, t.R, t.P)
  {
  }

  lemma StepPursued(g: Adjacency, cfg: Config, mode: nat, vs: seq<Vertex>, s: Pool, s': Pool, M: set<Vertex>)
    requires Simple(g) && ValidOrder(g, cfg.order) && mode <= 2 && Large(g, cfg, M)
    requires Inv(mode, s) && Fates(g, cfg, vs, s.agents) && Next(g, cfg, mode, s, s') && Pursued(g, s.agents, M)
    ensures Pursued(g, s'.agents, M)
  {
    hide Moves, AgentOk, Lineage, Counted, GuardOk, TaskOk, Exceeded, Simple, ValidOrder, Owes, Owed, Owing, Large;
    hide RootFate;
    var i: nat, kids, op :| Step(g, cfg, mode, s, s', i, kids, op);
    var a, a', n, quiet := s.agents[i], s'.agents[i], |s.guards|, Quiet(s.agents, i);
    MoveOk(g, cfg, mode, n, a, i, quiet, a', kids, op);
    StaysCut(g, cfg, mode, n, a, i, quiet, a', kids, op);
    if SomeCutChild(s.agents) {
      var j :| 0 <= j < |s.agents| && IsCutChild(s.agents[j]);
      assert IsCutChild(s'.agents[j]);
    } else {
      var j :| 0 <= j < |s.agents| && Owing(g, s.agents[j].duty, M);
      if j == i {
        RootStartsAlone(g, cfg, vs, s.agents, i);
        MoveOwing(g, cfg, mode, n, a, i, quiet, a', kids, op, M);
        assert |kids| == 1 ==> s'.agents[|s.agents|] == kids[0];
      } else {
        assert s'.agents[j] == s.agents[j];
      }
    }
  }

  lemma StaysCut(g: Adjacency, cfg: Config, mode: nat, n: nat, a: Agent, i: nat, quiet: bool, a': Agent,
        kids: seq<Agent>, op: Op)
    requires Moves(g, cfg, mode, n, a, i, quiet, a', kids, op)
    ensures IsCut(a) ==> IsCut(a')
  {
    hide Enters, Iterates;
  }

  lemma RootStartsAlone(g: Adjacency, cfg: Config, vs: seq<Vertex>, agents: seq<Agent>, i: nat)
    requires Simple(g) && ValidOrder(g, cfg.order) && Fates(g, cfg, vs, agents) && i < |agents|
    ensures TaskOk(g, cfg.limit, agents[i].duty)
    ensures IsRoot(agents[i]) && agents[i].phase.Waiting? ==> agents[i].duty.New? && |agents[i].duty.R| == 1
  {
    hide TaskOk, Exceeded, Simple, ValidOrder, Later, Earlier, CutAtRoot;
    if IsRoot(agents[i]) {
      assert RootFate(g, cfg, vs[i], agents[i]);
    }
  }

  lemma InitPursued(g: Adjacency, cfg: Config, mode: nat, vs: seq<Vertex>, s: Pool, M: set<Vertex>)
    requires Simple(g) && ValidOrder(g, cfg.order) && Init(g, cfg, mode, vs, s) && Large(g, cfg, M)
    ensures Pursued(g, s.agents, M)
  {
    var v := LeastExists(g, cfg.order, M);
    assert M in AllMaximal(g, -1);
    RootedAtLeast(g, -1, cfg.order, v, M);
    hide Simple, ValidOrder, Later, Earlier, IsMaximal, Below;
    var j :| 0 <= j < |vs| && vs[j] == v;
    assert Owing(g, s.agents[j].duty, M);
  }

  lemma {:induction false} RunPursued(g: Adjacency, cfg: Config, mode: nat, vs: seq<Vertex>, run: seq<Pool>, j: nat,
        M: set<Vertex>)
    requires Simple(g) && ValidOrder(g, cfg.order) && mode <= 2 && IsRun(g, cfg, mode, vs, run) && j < |run|
    requires Large(g, cfg, M)
    ensures Pursued(g, run[j].agents, M)
    decreases j
  {
    hide Inv, Fates, Next, Init, Simple, ValidOrder, Pursued, Large;
    if j == 0 {
      InitPursued(g, cfg, mode, vs, run[0], M);
    } else {
      RunPursued(g, cfg, mode, vs, run, j - 1, M);
      RunInv(g, cfg, mode, vs, run, j - 1);
      assert Next(g, cfg, mode, run[j - 1], run[j - 1 + 1]);
      StepPursued(g, cfg, mode, vs, run[j - 1], run[j], M);
    }
  }

  /** Some created subgraph is never destroyed. */
  ghost predicate LeaksSubgraph(mode: nat, s: Pool) {
    exists x :: 1 <= x < |s.guards| && Leaks(mode, s.agents, x)
  }

  lemma CutChildLeaks(s: Pool)
    requires Inv(2, s)
    ensures LeaksSubgraph(2, s) <==> SomeCutChild(s.agents)
  {
    hide Lineage, Counted, GuardOk, IsCut;
    if SomeCutChild(s.agents) {
      var j :| 0 <= j < |s.agents| && IsCutChild(s.agents[j]);
      assert AgentOk(2, |s.guards|, s.agents[j]);
      assert Leaks(2, s.agents, s.agents[j].guard);
    }
  }

  lemma {:induction false} InMaximalClique(g: Adjacency, C: set<Vertex>) returns (M: set<Vertex>)
    requires Simple(g) && C != {} && IsClique(g, C)
    ensures IsMaximal(g, M) && |M| >= |C|
    decreases |g.Keys - C|
  {
    if Common(g, C) == {} {
      M := C;
    } else {
      var v :| v in Common(g, C);
      assert g.Keys - (C + {v}) < g.Keys - C;
      SubsetSize(g.Keys - (C + {v}), g.Keys - C);
      M := InMaximalClique(g, C + {v});
    }
  }

  /** A clique far enough above the limit: every finished run leaks a subgraph. */
  lemma LargeCliqueLeaks(g: Adjacency, cfg: Config, vs: seq<Vertex>, run: seq<Pool>, C: set<Vertex>)
    requires Simple(g) && ValidOrder(g, cfg.order) && IsRun(g, cfg, 2, vs, run) && AllFinished(run[|run| - 1])
    requires IsClique(g, C) && 2 <= cfg.limit < |C| && cfg.limit + cfg.threshold <= |C|
    ensures LeaksSubgraph(2, run[|run| - 1])
  {
    var M := InMaximalClique(g, C);
    var s := run[|run| - 1];
    hide Simple, ValidOrder, IsRun, IsMaximal;
    assert Large(g, cfg, M);
    NonEmptyRun(g, cfg, vs, run);
    RunPursued(g, cfg, 2, vs, run, |run| - 1, M);
    RunInv(g, cfg, 2, vs, run, |run| - 1);
    hide Fates, Lineage, Counted, GuardOk, Below;
    FinishedOwesNothing(g, s, M);
    CutChildLeaks(s);
  }

  lemma NonEmptyRun(g: Adjacency, cfg: Config, vs: seq<Vertex>, run: seq<Pool>)
    requires Simple(g) && ValidOrder(g, cfg.order) && IsRun(g, cfg, 2, vs, run)
    ensures run != []
  {
  }

  lemma FinishedOwesNothing(g: Adjacency, s: Pool, M: set<Vertex>)
    requires Inv(2, s) && AllFinished(s)
    ensures forall j :: 0 <= j < |s.agents| ==> !Owing(g, s.agents[j].duty, M)
  {
    hide Lineage, Counted, GuardOk, Below;
    forall j | 0 <= j < |s.agents| ensures s.agents[j].duty == Done {
      assert AgentOk(2, |s.guards|, s.agents[j]);
    }
  }

  // --- nothing leaks without a crowded clique of exactly the limit's size ---

  /** A clique as large as the limit with enough common neighbours for a task of its own. */
  ghost predicate Crowded(g: Adjacency, cfg: Config) {
    cfg.limit >= 2 && exists R :: CrowdedAt(g, cfg, R)
  }

  ghost predicate CrowdedAt(g: Adjacency, cfg: Config, R: set<Vertex>) {
    IsClique(g, R) && |R| == cfg.limit && Common(g, R) != {} && |Common(g, R)| >= cfg.threshold
  }

  ghost predicate ChildOk(g: Adjacency, cfg: Config, a: Agent) {
    !IsRoot(a) ==>
      && (a.phase.Waiting? ==> a.duty.New? && |a.duty.R| >= 2 && |a.duty.P| + |a.duty.X| >= cfg.threshold)
      && (IsCut(a) ==> Crowded(g, cfg))
  }

  lemma CutIsCrowded(g: Adjacency, cfg: Config, t: Task)
    requires t.New? && TaskOk(g, cfg.limit, t) && t.P != {} && CutsOff(cfg.limit, |t.R|)
    requires |t.R| >= 2 && |t.P| + |t.X| >= cfg.threshold
    ensures Crowded(g, cfg)
  {
    assert t.P + t.X == Common(g, t.R);
    assert |t.P + t.X| == |t.P| + |t.X|;
    assert CrowdedAt(g, cfg, t.R);
  }

  lemma SpawnedIsLarge(g: Adjacency, cfg: Config, t: Task, e: Effect)
    requires Simple(g) && TaskOk(g, cfg.limit, t) && Iterates(g, cfg, t, e)
    ensures forall c :: c in e.spawned ==> c.New? && |c.R| >= 2 && |c.P| + |c.X| >= cfg.threshold
  {
    hide Below, HasPivot;
    var v :| IteratesOn(g, cfg, t, v, e);
    var u :| HasPivot(g, t.R, t.P, t.K, u);
    PivotSurvives(g, cfg.limit, t.R, t.P, t.K, u, v);
    BranchSteps(g, cfg.limit, t.R, t.P, t.X, v);
    RootedBranch(g, cfg.limit, t.R, t.P, t.X);
  }

  lemma RootedBranch(g: Adjacency, limit: int, R: set<Vertex>, P: set<Vertex>, X: set<Vertex>)
    requires Branch(g, limit, R, P, X)
    ensures |R| >= 1
  {
  }

  lemma MoveChildOk(g: Adjacency, cfg: Config, mode: nat, n: nat, a: Agent, i: nat, quiet: bool, a': Agent,
        kids: seq<Agent>, op: Op)
    requires Simple(g) && TaskOk(g, cfg.limit, a.duty) && Moves(g, cfg, mode, n, a, i, quiet, a', kids, op)
    requires ChildOk(g, cfg, a)
    ensures ChildOk(g, cfg, a') && forall c :: c in kids ==> ChildOk(g, cfg, c)
  {
    hide Enters, Iterates, Simple, TaskOk, Crowded;
    if a.phase.Waiting? {
      if !IsRoot(a) && a.duty.P != {} && CutsOff(cfg.limit, |a.duty.R|) {
        CutIsCrowded(g, cfg, a.duty);
      }
    } else if a.phase.Searching? && a.duty != Done {
      var e :| Iterates(g, cfg, a.duty, e) && a' == a.(duty := e.after) && kids == Spawned(mode, e.spawned, i, a.guard)
               && op == if kids != [] && mode == 2 then Inc else Keep;
      SpawnedIsLarge(g, cfg, a.duty, e);
    }
  }

  lemma StepChildrenOk(g: Adjacency, cfg: Config, mode: nat, vs: seq<Vertex>, s: Pool, s': Pool)
    requires Simple(g) && ValidOrder(g, cfg.order) && Fates(g, cfg, vs, s.agents) && Next(g, cfg, mode, s, s')
    requires forall j :: 0 <= j < |s.agents| ==> ChildOk(g, cfg, s.agents[j])
    ensures forall j :: 0 <= j < |s'.agents| ==> ChildOk(g, cfg, s'.agents[j])
  {
    hide Moves, TaskOk, Exceeded, Simple, ValidOrder, RootFate, ChildOk;
    var i: nat, kids, op :| Step(g, cfg, mode, s, s', i, kids, op);
    MoveChildOk(g, cfg, mode, |s.guards|, s.agents[i], i, Quiet(s.agents, i), s'.agents[i], kids, op);
    forall j | 0 <= j < |s'.agents| ensures ChildOk(g, cfg, s'.agents[j]) {
      if j >= |s.agents| {
        assert s'.agents[j] in kids;
      }
    }
  }

  lemma {:induction false} RunChildrenOk(g: Adjacency, cfg: Config, mode: nat, vs: seq<Vertex>, run: seq<Pool>, j: nat)
    requires Simple(g) && ValidOrder(g, cfg.order) && mode <= 2 && IsRun(g, cfg, mode, vs, run) && j < |run|
    ensures forall i :: 0 <= i < |run[j].agents| ==> ChildOk(g, cfg, run[j].agents[i])
    decreases j
  {
    hide Inv, Fates, Next, Simple, ValidOrder, Later, Earlier, Crowded;
    if j > 0 {
      RunChildrenOk(g, cfg, mode, vs, run, j - 1);
      RunInv(g, cfg, mode, vs, run, j - 1);
      assert Next(g, cfg, mode, run[j - 1], run[j - 1 + 1]);
      StepChildrenOk(g, cfg, mode, vs, run[j - 1], run[j]);
    }
  }

  /** At no moment of any run is a child cut off unless the graph has a crowded clique. */
  lemma LeaksOnlyCrowded(g: Adjacency, cfg: Config, vs: seq<Vertex>, run: seq<Pool>, j: nat)
    requires Simple(g) && ValidOrder(g, cfg.order) && IsRun(g, cfg, 2, vs, run) && j < |run|
    ensures LeaksSubgraph(2, run[j]) ==> Crowded(g, cfg)
  {
    hide Inv, Fates, Next, IsRun, Simple, ValidOrder, Crowded;
    RunInv(g, cfg, 2, vs, run, j);
    RunChildrenOk(g, cfg, 2, vs, run, j);
    CutChildLeaks(run[j]);
    if SomeCutChild(run[j].agents) {
      var i :| 0 <= i < |run[j].agents| && IsCutChild(run[j].agents[i]);
      assert ChildOk(g, cfg, run[j].agents[i]);
    }
  }

  // --- exactly ---

  lemma CrowdedMeansExceeded(g: Adjacency, cfg: Config)
    requires Simple(g) && cfg.threshold <= 1
    ensures Crowded(g, cfg) ==> Exceeded(g, cfg.limit)
  {
    if Crowded(g, cfg) {
      var R :| CrowdedAt(g, cfg, R);
      var v :| v in Common(g, R);
      assert IsClique(g, R + {v}) && |R + {v}| == |R| + 1;
    }
  }

  /**
   When every child with vertices left is a task of its own, a finished run in mode 2 leaks a subgraph
   exactly if the limit is at least 2 and some clique is larger.
   */
  lemma LeaksExactly(g: Adjacency, cfg: Config, vs: seq<Vertex>, run: seq<Pool>)
    requires Simple(g) && ValidOrder(g, cfg.order) && cfg.threshold <= 1
    requires IsRun(g, cfg, 2, vs, run) && AllFinished(run[|run| - 1])
    ensures LeaksSubgraph(2, run[|run| - 1]) <==> cfg.limit >= 2 && Exceeded(g, cfg.limit)
  {
    hide IsRun, Simple, ValidOrder, AllFinished, LeaksSubgraph, IsClique;
    NonEmptyRun(g, cfg, vs, run);
    LeaksOnlyCrowded(g, cfg, vs, run, |run| - 1);
    CrowdedMeansExceeded(g, cfg);
    hide CrowdedAt;
    if cfg.limit >= 2 && Exceeded(g, cfg.limit) {
      var C :| IsClique(g, C) && |C| > cfg.limit;
      LargeCliqueLeaks(g, cfg, vs, run, C);
    }
  }

  /** For every threshold there are inputs that leak: a complete graph, in some finished run and in all of them. */
  lemma CompleteGraphLeaks(V: set<Vertex>, cfg: Config, vs: seq<Vertex>) returns (run: seq<Pool>)
    requires 2 <= cfg.limit < |V| && cfg.limit + cfg.threshold <= |V|
    requires ValidOrder(Complete(V), cfg.order) && Enumerates(vs, V)
    ensures Simple(Complete(V)) && IsRun(Complete(V), cfg, 2, vs, run) && AllFinished(run[|run| - 1])
    ensures LeaksSubgraph(2, run[|run| - 1])
  {
    var g := Complete(V);
    CompleteIsClique(V);
    assert g.Keys == V;
    hide Simple, ValidOrder, IsRun, AllFinished, LeaksSubgraph, IsClique, Complete;
    run := GuardVerdicts.SomeRunFinishes(g, cfg, 2, vs);
    LargeCliqueLeaks(g, cfg, vs, run, V);
  }
}
