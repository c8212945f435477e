/**
 What the runs of the guard protocol amount to: every run can be finished, and all graphs are there
 whenever they are needed in all runs exactly when the size limit does not end root tasks in mode 1.
 */
module GuardVerdicts {
  import opened FiniteSets
  import opened Cliques
  import opened Roots
  import opened Powers
  import opened TaskPool
  import opened GraphGuards
  import opened GuardRuns
  import PoolRuns

  // --- every run can be finished ---

  /** Steps that an agent and its descendants can still take, at most. */
  ghost function Rank(a: Agent): nat {
    match a.phase
    case Waiting => 5 * Weight(a.duty) + 4
    case Switching(_) => 5 * Weight(a.duty) + 3
    case Searching => 5 * Weight(a.duty) + 2
    case Resting(_) => 1
    case Finished(_) => 0
  }

  ghost function Ranks(agents: seq<Agent>): nat {
    if agents == [] then 0 else Ranks(agents[..|agents| - 1]) + Rank(agents[|agents| - 1])
  }

  lemma {:induction false} RanksUpdate(agents: seq<Agent>, i: nat, a': Agent)
    requires i < |agents|
    ensures Ranks(agents[i := a']) == Ranks(agents) - Rank(agents[i]) + Rank(a')
    decreases |agents|
  {
    hide Rank;
    var agents' := agents[i := a'];
    var init := agents[..|agents| - 1];
    if i == |agents| - 1 {
      assert agents'[..|agents| - 1] == init;
    } else {
      RanksUpdate(init, i, a');
      assert agents'[..|agents| - 1] == init[i := a'];
    }
  }

  lemma {:induction false} RanksConcat(agents: seq<Agent>, kids: seq<Agent>)
    ensures Ranks(agents + kids) == Ranks(agents) + Ranks(kids)
    decreases |kids|
  {
    hide Rank;
    if kids == [] {
      assert agents + kids == agents;
    } else {
      RanksConcat(agents, kids[..|kids| - 1]);
      assert (agents + kids)[..|agents + kids| - 1] == agents + kids[..|kids| - 1];
    }
  }

  lemma EnteredWeighsLess(g: Adjacency, cfg: Config, t: Task, loop: Task)
    requires Enters(g, cfg, t, loop)
    ensures Weight(loop) < Weight(t)
  {
    hide BestPivot;
    Pow2Positive(|t.P|);
  }

  /** What an iteration spawns, as agents. */
  lemma SpawnedRanks(g: Adjacency, cfg: Config, mode: nat, t: Task, e: Effect, i: nat, own: nat)
    requires Simple(g) && TaskOk(g, cfg.limit, t) && Iterates(g, cfg, t, e)
    ensures 5 * Weight(e.after) + Ranks(Spawned(mode, e.spawned, i, own)) < 5 * Weight(t)
  {
    hide TaskOk, Descends, Weight;
    var v :| IteratesOn(g, cfg, t, v, e);
    IterationAccounts(g, cfg, t, v, e);
    IteratesSpawns(g, cfg, t, e);
    var kids := Spawned(mode, e.spawned, i, own);
    if e.spawned != [] {
      assert kids[..0] == [] && e.spawned[..0] == [];
      assert Weights(e.spawned) == Weight(e.spawned[0]);
      assert Ranks(kids) == 5 * Weight(e.spawned[0]) + 4;
    }
  }

  lemma MoveRank(g: Adjacency, cfg: Config, mode: nat, n: nat, a: Agent, i: nat, quiet: bool, a': Agent,
        kids: seq<Agent>, op: Op)
    requires Simple(g) && TaskOk(g, cfg.limit, a.duty) && Moves(g, cfg, mode, n, a, i, quiet, a', kids, op)
    ensures Rank(a') + Ranks(kids) < Rank(a)
  {
    hide Enters, Iterates, TaskOk, Weight, Simple;
    if a.phase.Waiting? {
      if a.duty.P != {} && !CutsOff(cfg.limit, |a.duty.R|) {
        EnteredWeighsLess(g, cfg, a.duty, a'.duty);
      }
    } else if a.phase.Searching? && a.duty != Done {
      var e :| Iterates(g, cfg, a.duty, e) && a' == a.(duty := e.after) && kids == Spawned(mode, e.spawned, i, a.guard)
               && op == if kids != [] && mode == 2 then Inc else Keep;
      SpawnedRanks(g, cfg, mode, a.duty, e, i, a.guard);
    }
  }

  lemma RanksFall(g: Adjacency, cfg: Config, mode: nat, vs: seq<Vertex>, s: Pool, s': Pool)
    requires Simple(g) && ValidOrder(g, cfg.order) && Fates(g, cfg, vs, s.agents) && Next(g, cfg, mode, s, s')
    ensures Ranks(s'.agents) < Ranks(s.agents)
  {
    hide Moves, TaskOk, RootFate, Exceeded, Rank, Ranks, Simple, ValidOrder;
    var i: nat, kids, op :| Step(g, cfg, mode, s, s', i, kids, op);
    MoveRank(g, cfg, mode, |s.guards|, s.agents[i], i, Quiet(s.agents, i), s'.agents[i], kids, op);
    RanksUpdate(s.agents, i, s'.agents[i]);
    RanksConcat(s.agents[i := s'.agents[i]], kids);
  }

  /** Termination, and no way to get stuck: every run extends to one in which all tasks have finished. */
  lemma {:induction false} Completes(g: Adjacency, cfg: Config, mode: nat, vs: seq<Vertex>, run: seq<Pool>)
    returns (full: seq<Pool>)
    requires Simple(g) && ValidOrder(g, cfg.order) && mode <= 2 && IsRun(g, cfg, mode, vs, run)
    ensures IsRun(g, cfg, mode, vs, full) && run <= full && AllFinished(full[|full| - 1])
    decreases Ranks(run[|run| - 1].agents)
  {
    hide Inv, Fates, Next, Init, AllFinished, Ranks, Simple, ValidOrder;
    var s := run[|run| - 1];
    if AllFinished(s) {
      full := run;
    } else {
      RunInv(g, cfg, mode, vs, run, |run| - 1);
      var s' := NoDeadlock(g, cfg, mode, vs, s);
      RanksFall(g, cfg, mode, vs, s, s');
      assert (run + [s'])[..|run|] == run;
      full := Completes(g, cfg, mode, vs, run + [s']);
    }
  }

  // --- a task that needs a destroyed graph ---

  lemma FirstPool(g: Adjacency, cfg: Config, mode: nat, vs: seq<Vertex>) returns (s: Pool)
    requires Simple(g) && ValidOrder(g, cfg.order) && Enumerates(vs, g.Keys)
    ensures Init(g, cfg, mode, vs, s)
  {
    s := Pool(seq(|vs|, i requires 0 <= i < |vs| =>
      Agent(PoolRuns.RootTask(g, cfg.order, vs[i]), -1, 0, mode != 0, Waiting)), [NewGuard()]);
    hide Simple, ValidOrder, Later, Earlier;
  }

  /** Two ends of an edge and their places: the first has the second as a later neighbour. */
  lemma EdgePlaces(g: Adjacency, cfg: Config, vs: seq<Vertex>) returns (i: nat, j: nat)
    requires Simple(g) && ValidOrder(g, cfg.order) && Enumerates(vs, g.Keys) && HasEdge(g)
    ensures i < |vs| && j < |vs| && i != j && vs[i] in g && Later(g, cfg.order, vs[i]) != {}
  {
    var v := EdgeHasLaterEnd(g, cfg.order);
    var w :| w in Later(g, cfg.order, v);
    assert w in g && w != v;
    hide Simple, ValidOrder, Later;
    i :| i < |vs| && vs[i] == v;
    j :| j < |vs| && vs[j] == w;
  }

  /** The root of one end of an edge ends by the limit and takes the whole graph along; another root still needs it. */
  lemma UseAfterRelease(g: Adjacency, cfg: Config, mode: nat, vs: seq<Vertex>) returns (run: seq<Pool>, j: nat)
    requires Simple(g) && ValidOrder(g, cfg.order) && Enumerates(vs, g.Keys) && LosesMainGraph(g, cfg, mode)
    ensures IsRun(g, cfg, mode, vs, run) && j < |run[|run| - 1].agents|
    ensures !Usable(mode, run[|run| - 1].guards, run[|run| - 1].agents[j])
  {
    hide Step, Simple, ValidOrder, Later, Earlier, Usable, HasEdge, Enumerates;
    var s := FirstPool(g, cfg, mode, vs);
    var i;
    i, j := EdgePlaces(g, cfg, vs);
    var s1 := Rests(g, cfg, mode, vs, s, i);
    var s2 := GivesAway(g, cfg, mode, s1, i);
    assert Next(g, cfg, mode, s, s1) && Next(g, cfg, mode, s1, s2);
    run := [s, s1, s2];
    NotUsable(mode, s2, j);
  }

  lemma NotUsable(mode: nat, s: Pool, j: nat)
    requires j < |s.agents| && s.agents[j].phase.Waiting? && s.agents[j].guard == 0 && |s.guards| > 0
        && !s.guards[0].live
    ensures !Usable(mode, s.guards, s.agents[j])
  {
  }

  lemma Rests(g: Adjacency, cfg: Config, mode: nat, vs: seq<Vertex>, s: Pool, i: nat) returns (s': Pool)
    requires Simple(g) && ValidOrder(g, cfg.order) && Init(g, cfg, mode, vs, s) && i < |vs|
    requires CutsOff(cfg.limit, 1) && Later(g, cfg.order, vs[i]) != {}
    ensures Step(g, cfg, mode, s, s', i, [], Keep)
    ensures s' == s.(agents := s.agents[i := s.agents[i].(duty := Done, phase := Resting(true))])
  {
    hide Simple, ValidOrder, Later, Earlier;
    s' := s.(agents := s.agents[i := s.agents[i].(duty := Done, phase := Resting(true))]);
    assert s'.agents == s.agents[i := s'.agents[i]] + [];
  }

  lemma GivesAway(g: Adjacency, cfg: Config, mode: nat, s: Pool, i: nat) returns (s': Pool)
    requires mode == 1 && i < |s.agents| && s.guards == [NewGuard()] && s.agents[i].guard == 0
    requires s.agents[i].phase == Resting(true) && s.agents[i].newGraph
    requires forall k :: 0 <= k < |s.agents| ==> IsRoot(s.agents[k])
    ensures Step(g, cfg, mode, s, s', i, [], Dec)
    ensures s' == Pool(s.agents[i := s.agents[i].(phase := Finished(true))], [Guard(0, false, 1)])
  {
    s' := Pool(s.agents[i := s.agents[i].(phase := Finished(true))], [Guard(0, false, 1)]);
    assert s'.agents == s.agents[i := s'.agents[i]] + [];
  }

  /** In every run, at every moment, every graph that a task still needs exists. */
  ghost predicate AlwaysUsable(g: Adjacency, cfg: Config, mode: nat, vs: seq<Vertex>)
    requires Simple(g) && ValidOrder(g, cfg.order)
  {
    forall run: seq<Pool>, j: nat, i: nat :: IsRun(g, cfg, mode, vs, run) && j < |run| && i < |run[j].agents| ==>
      Usable(mode, run[j].guards, run[j].agents[i])
  }

  /** The condition can be checked beforehand: not mode 1, no limit of 0 or 1, or no edge. */
  lemma NoUseAfterReleaseExactly(g: Adjacency, cfg: Config, mode: nat, vs: seq<Vertex>)
    requires Simple(g) && ValidOrder(g, cfg.order) && mode <= 2 && Enumerates(vs, g.Keys)
    ensures AlwaysUsable(g, cfg, mode, vs) <==> !LosesMainGraph(g, cfg, mode)
  {
    hide Simple, ValidOrder, Usable, IsRun;
    if LosesMainGraph(g, cfg, mode) {
      var run, i := UseAfterRelease(g, cfg, mode, vs);
      RunNotEmpty(g, cfg, mode, vs, run);
      assert !Usable(mode, run[|run| - 1].guards, run[|run| - 1].agents[i]);
    } else {
      forall run: seq<Pool>, j: nat, i: nat | IsRun(g, cfg, mode, vs, run) && j < |run| && i < |run[j].agents|
        ensures Usable(mode, run[j].guards, run[j].agents[i])
      {
        NoUseAfterRelease(g, cfg, mode, vs, run, j);
      }
    }
  }

  lemma RunNotEmpty(g: Adjacency, cfg: Config, mode: nat, vs: seq<Vertex>, run: seq<Pool>)
    requires Simple(g) && ValidOrder(g, cfg.order) && IsRun(g, cfg, mode, vs, run)
    ensures run != []
  {
  }

  /** There are finished runs, and in them the whole graph is gone or kept as the condition says. */
  lemma SomeRunFinishes(g: Adjacency, cfg: Config, mode: nat, vs: seq<Vertex>) returns (run: seq<Pool>)
    requires Simple(g) && ValidOrder(g, cfg.order) && mode <= 2 && Enumerates(vs, g.Keys)
    ensures IsRun(g, cfg, mode, vs, run) && AllFinished(run[|run| - 1]) && run[|run| - 1].guards != []
    ensures run[|run| - 1].guards[0].live <==> !LosesMainGraph(g, cfg, mode)
  {
    var s := FirstPool(g, cfg, mode, vs);
    hide Simple, ValidOrder, Init, AllFinished, LosesMainGraph, Inv, Usable;
    run := Completes(g, cfg, mode, vs, [s]);
    NoUseAfterRelease(g, cfg, mode, vs, run, |run| - 1);
    InvNotEmpty(mode, run[|run| - 1]);
  }

  lemma InvNotEmpty(mode: nat, s: Pool)
    requires Inv(mode, s)
    ensures s.guards != []
  {
  }
}
