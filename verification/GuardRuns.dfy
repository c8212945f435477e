/**
 Whole runs of the guard protocol: in every interleaving no task uses a destroyed graph and every
 subgraph is destroyed exactly once, unless the size limit interferes; and exactly when it does.
 */
module GuardRuns {
  import opened FiniteSets
  import opened Cliques
  import opened Roots
  import opened TaskPool
  import opened GraphGuards
  import PoolRuns
  import CliqueBound

  // --- what the size limit does to the agents ---

  /** The root task of v ends by the size limit instead of creating its subgraph. */
  ghost predicate CutAtRoot(g: Adjacency, cfg: Config, v: Vertex)
    requires Simple(g) && ValidOrder(g, cfg.order) && v in g
  {
    CutsOff(cfg.limit, 1) && Later(g, cfg.order, v) != {}
  }

  /** Some clique is larger than the limit. */
  ghost predicate Exceeded(g: Adjacency, limit: int) {
    limit >= 0 && exists C :: IsClique(g, C) && |C| > limit
  }

  ghost predicate RootFate(g: Adjacency, cfg: Config, v: Vertex, a: Agent)
    requires Simple(g) && ValidOrder(g, cfg.order)
  {
    && v in g
    && match a.phase
       case Waiting => a.duty == PoolRuns.RootTask(g, cfg.order, v)
       case Switching(_) => !CutsOff(cfg.limit, 1)
       case Searching => !CutsOff(cfg.limit, 1)
       case Resting(cut) => cut <==> CutAtRoot(g, cfg, v)
       case Finished(cut) => cut <==> CutAtRoot(g, cfg, v)
  }

  predicate IsCut(a: Agent) {
    a.phase == Resting(true) || a.phase == Finished(true)
  }

  ghost predicate Fates(g: Adjacency, cfg: Config, vs: seq<Vertex>, agents: seq<Agent>)
    requires Simple(g) && ValidOrder(g, cfg.order)
  {
    && |agents| >= |vs|
    && (forall j :: 0 <= j < |agents| ==> TaskOk(g, cfg.limit, agents[j].duty))
    && (forall j :: 0 <= j < |agents| ==> (IsRoot(agents[j]) <==> j < |vs|))
    && (forall j :: 0 <= j < |vs| ==> RootFate(g, cfg, vs[j], agents[j]))
    && (|agents| > |vs| ==> !CutsOff(cfg.limit, 1))
    && (forall j :: 0 <= j < |agents| && IsCut(agents[j]) ==> Exceeded(g, cfg.limit))
  }

  /** A branch that is cut off holds a clique above the limit: R with any vertex of P. */
  lemma CutMeansExceeded(g: Adjacency, limit: int, t: Task)
    requires Simple(g) && t.New? && TaskOk(g, limit, t) && t.P != {} && CutsOff(limit, |t.R|)
    ensures Exceeded(g, limit)
  {
    var v :| v in t.P;
    assert v in Common(g, t.R);
    assert IsClique(g, t.R + {v}) && |t.R + {v}| == |t.R| + 1;
  }

  /** The duties stay sound tasks of the search. */
  lemma MoveDuty(g: Adjacency, cfg: Config, mode: nat, n: nat, a: Agent, i: nat, quiet: bool, a': Agent,
        kids: seq<Agent>, op: Op)
    requires Simple(g) && TaskOk(g, cfg.limit, a.duty) && Moves(g, cfg, mode, n, a, i, quiet, a', kids, op)
    ensures TaskOk(g, cfg.limit, a'.duty) && forall c :: c in kids ==> TaskOk(g, cfg.limit, c.duty) && !IsCut(c)
    ensures IsCut(a') ==> IsCut(a) || Exceeded(g, cfg.limit)
  {
    hide TaskOk, BestPivot, IteratesOn, Exceeded;
    if a.phase.Waiting? {
      hide Branch;
      if a.duty.P != {} && CutsOff(cfg.limit, |a.duty.R|) {
        CutMeansExceeded(g, cfg.limit, a.duty);
      } else if a.duty.P != {} {
        var u :| u in g && BestPivot(g, a.duty.P, a.duty.X, u) && a'.duty == Entered(g, a.duty, u);
        EnteredOk(g, cfg, a.duty, u);
      }
      DoneTaskOk(g, cfg.limit);
    } else if a.phase.Searching? && a.duty != Done {
      var e :| Iterates(g, cfg, a.duty, e) && a' == a.(duty := e.after) && kids == Spawned(mode, e.spawned, i, a.guard)
               && op == if kids != [] && mode == 2 then Inc else Keep;
      IteratedOk(g, cfg, a.duty, e);
    }
  }

  lemma DoneTaskOk(g: Adjacency, limit: int)
    ensures TaskOk(g, limit, Done)
  {
  }

  lemma EnteredOk(g: Adjacency, cfg: Config, t: Task, u: Vertex)
    requires Simple(g) && t.New? && TaskOk(g, cfg.limit, t) && !CutsOff(cfg.limit, |t.R|) && u in g
        && BestPivot(g, t.P, t.X, u)
    ensures TaskOk(g, cfg.limit, Entered(g, t, u))
  {
    hide Branch, BestPivot;
    StartIsLoop(g, cfg.limit, t.R, t.P, t.X, u);
  }

  lemma IteratedOk(g: Adjacency, cfg: Config, t: Task, e: Effect)
    requires Simple(g) && TaskOk(g, cfg.limit, t) && Iterates(g, cfg, t, e)
    ensures TaskOk(g, cfg.limit, e.after) && forall c :: c in e.spawned ==> TaskOk(g, cfg.limit, c)
  {
    hide TaskOk, Descends;
    var v :| IteratesOn(g, cfg, t, v, e);
    IterationAccounts(g, cfg, t, v, e);
  }

  lemma MoveFate(g: Adjacency, cfg: Config, mode: nat, n: nat, a: Agent, i: nat, quiet: bool, a': Agent,
        kids: seq<Agent>, op: Op, v: Vertex)
    requires Simple(g) && ValidOrder(g, cfg.order) && RootFate(g, cfg, v, a)
        && Moves(g, cfg, mode, n, a, i, quiet, a', kids, op)
    ensures RootFate(g, cfg, v, a')
  {
    hide Enters, Iterates, Simple, ValidOrder, Later, Earlier;
  }

  lemma StepFates(g: Adjacency, cfg: Config, mode: nat, vs: seq<Vertex>, s: Pool, s': Pool)
    requires Simple(g) && ValidOrder(g, cfg.order) && mode <= 2 && Inv(mode, s) && Fates(g, cfg, vs, s.agents)
        && Next(g, cfg, mode, s, s')
    ensures Fates(g, cfg, vs, s'.agents)
  {
    hide Moves, AgentOk, Lineage, Counted, GuardOk, TaskOk, RootFate, Exceeded, Simple, ValidOrder, Owes, Owed;
    var i: nat, kids, op :| Step(g, cfg, mode, s, s', i, kids, op);
    var a, a', n, quiet := s.agents[i], s'.agents[i], |s.guards|, Quiet(s.agents, i);
    MoveOk(g, cfg, mode, n, a, i, quiet, a', kids, op);
    MoveDuty(g, cfg, mode, n, a, i, quiet, a', kids, op);
    if i < |vs| {
      MoveFate(g, cfg, mode, n, a, i, quiet, a', kids, op, vs[i]);
      SpawnsUncut(g, cfg, mode, n, a, i, quiet, a', kids, op, vs[i]);
    }
  }

  lemma SpawnsUncut(g: Adjacency, cfg: Config, mode: nat, n: nat, a: Agent, i: nat, quiet: bool, a': Agent,
        kids: seq<Agent>, op: Op, v: Vertex)
    requires Simple(g) && ValidOrder(g, cfg.order) && RootFate(g, cfg, v, a)
        && Moves(g, cfg, mode, n, a, i, quiet, a', kids, op)
    ensures kids != [] ==> !CutsOff(cfg.limit, 1)
  {
    hide Enters, Iterates, Simple, ValidOrder, Later, Earlier;
  }

  /** Under a limit of 0 or 1 every task is a root, and it ends in its first execution. */
  lemma OnlyRoots(g: Adjacency, cfg: Config, vs: seq<Vertex>, agents: seq<Agent>, i: nat)
    requires Simple(g) && ValidOrder(g, cfg.order) && Fates(g, cfg, vs, agents) && i < |agents|
        && CutsOff(cfg.limit, 1)
    ensures IsRoot(agents[i]) && !agents[i].phase.Searching? && !agents[i].phase.Switching?
    ensures agents[i].phase.Waiting? ==> agents[i].duty.New? && CutsOff(cfg.limit, |agents[i].duty.R|)
  {
    hide TaskOk, Exceeded, Simple, ValidOrder, Later, Earlier, CutAtRoot;
    assert RootFate(g, cfg, vs[i], agents[i]);
  }

  lemma InitFates(g: Adjacency, cfg: Config, mode: nat, vs: seq<Vertex>, s: Pool)
    requires Simple(g) && ValidOrder(g, cfg.order) && Init(g, cfg, mode, vs, s)
    ensures Fates(g, cfg, vs, s.agents)
  {
    hide Simple, ValidOrder, Later, Earlier, Branch;
    forall j | 0 <= j < |vs| ensures TaskOk(g, cfg.limit, s.agents[j].duty) {
      RootIsBranch(g, cfg.limit, cfg.order, vs[j]);
    }
  }

  lemma {:induction false} RunInv(g: Adjacency, cfg: Config, mode: nat, vs: seq<Vertex>, run: seq<Pool>, j: nat)
    requires Simple(g) && ValidOrder(g, cfg.order) && mode <= 2 && IsRun(g, cfg, mode, vs, run) && j < |run|
    ensures Inv(mode, run[j]) && Fates(g, cfg, vs, run[j].agents)
    decreases j
  {
    hide Inv, Fates, Next, Init, Simple, ValidOrder;
    if j == 0 {
      InitInv(g, cfg, mode, vs, run[0]);
      InitFates(g, cfg, mode, vs, run[0]);
    } else {
      RunInv(g, cfg, mode, vs, run, j - 1);
      assert Next(g, cfg, mode, run[j - 1], run[j - 1 + 1]);
      StepInv(g, cfg, mode, run[j - 1], run[j]);
      StepFates(g, cfg, mode, vs, run[j - 1], run[j]);
    }
  }

  // --- no use after release ---

  /** The graphs that agent a still uses or gives back exist. */
  predicate Usable(mode: nat, guards: seq<Guard>, a: Agent) {
    match a.phase
    case Waiting => Exists(guards, a.guard)
    case Switching(next) => Exists(guards, a.guard) && Exists(guards, next)
    case Searching => Exists(guards, a.guard)
    case Resting(_) => mode == 1 && a.newGraph ==> Exists(guards, a.guard)
    case Finished(_) => true
  }

  predicate Exists(guards: seq<Guard>, x: nat) {
    x < |guards| && guards[x].live
  }

  /** A root that the size limit cut off has given back the whole graph (mode 1). */
  predicate GaveAway(mode: nat, agents: seq<Agent>) {
    mode == 1 && exists j :: 0 <= j < |agents| && IsRoot(agents[j]) && agents[j].phase == Finished(true)
  }

  lemma OwesMainGraph(n: nat, a: Agent)
    requires AgentOk(1, n, a)
    ensures Owes(1, a, 0) == if IsRoot(a) && a.phase == Finished(true) then -1 else 0
  {
  }

  lemma {:induction false} OwedMainGraph(n: nat, agents: seq<Agent>)
    requires forall j :: 0 <= j < |agents| ==> AgentOk(1, n, agents[j])
    ensures Owed(1, agents, 0) <= 0 && (Owed(1, agents, 0) < 0 <==> GaveAway(1, agents))
    decreases |agents|
  {
    hide AgentOk, Owes;
    if agents != [] {
      var init, a := agents[..|agents| - 1], agents[|agents| - 1];
      OwedMainGraph(n, init);
      OwesMainGraph(n, a);
      if GaveAway(1, init) {
        var j :| 0 <= j < |init| && IsRoot(init[j]) && init[j].phase == Finished(true);
        assert agents[j] == init[j];
      }
      if GaveAway(1, agents) {
        var j :| 0 <= j < |agents| && IsRoot(agents[j]) && agents[j].phase == Finished(true);
        assert j < |init| ==> agents[j] == init[j];
      }
    }
  }

  /** The whole graph exists exactly as long as no root has given it away. */
  lemma MainGraphLives(mode: nat, s: Pool)
    requires mode <= 2 && Inv(mode, s)
    ensures s.guards[0].live <==> !GaveAway(mode, s.agents)
  {
    hide AgentOk, Owes, Owed, Lineage;
    assert GuardOk(mode, 0, s.guards[0]);
    if mode == 1 {
      OwedMainGraph(|s.guards|, s.agents);
    }
  }

  lemma HolderKeepsAlive(mode: nat, s: Pool, j: nat, x: nat)
    requires mode <= 2 && Inv(mode, s) && j < |s.agents| && 1 <= x < |s.guards| && Owes(mode, s.agents[j], x) >= 1
    ensures s.guards[x].live
  {
    hide AgentOk, Owes, Owed, Lineage;
    OwedBounds(mode, |s.guards|, s.agents, x);
    assert GuardOk(mode, x, s.guards[x]);
  }

  /** In mode 1 the subgraph of a task is held by its root, which is not done before it. */
  lemma {:induction false} RootHolds(s: Pool, j: nat) returns (r: nat)
    requires Inv(1, s) && j < |s.agents| && !s.agents[j].phase.Finished?
    requires IsRoot(s.agents[j]) ==>
        s.agents[j].phase.Searching? || (s.agents[j].phase == Resting(false) && s.agents[j].newGraph)
    ensures r < |s.agents| && s.agents[j].guard >= 1 && Owes(1, s.agents[r], s.agents[j].guard) >= 1
    decreases j
  {
    hide Owed, Counted, GuardOk;
    var a := s.agents[j];
    assert AgentOk(1, |s.guards|, a);
    if IsRoot(a) {
      r := j;
    } else {
      assert 0 <= a.parent < j && Related(1, s.agents[a.parent], a);
      r := RootHolds(s, a.parent);
    }
  }

  lemma UsableInModeOne(s: Pool, j: nat)
    requires Inv(1, s) && j < |s.agents| && !GaveAway(1, s.agents)
    ensures Usable(1, s.guards, s.agents[j])
  {
    var a := s.agents[j];
    assert AgentOk(1, |s.guards|, a);
    MainGraphLives(1, s);
    hide Owed, Lineage, Counted, GuardOk;
    if IsRoot(a) && a.phase.Switching? {
      HolderKeepsAlive(1, s, j, a.phase.next);
    } else if a.guard >= 1 && !a.phase.Finished? && (IsRoot(a) ==> !a.phase.Resting? || a.newGraph) {
      var r := RootHolds(s, j);
      HolderKeepsAlive(1, s, r, a.guard);
    }
  }

  /** Whatever an agent still needs is alive, unless a root has given away the whole graph. */
  lemma AllUsable(mode: nat, s: Pool, j: nat)
    requires mode <= 2 && Inv(mode, s) && j < |s.agents| && !GaveAway(mode, s.agents)
    ensures AgentOk(mode, |s.guards|, s.agents[j]) && Usable(mode, s.guards, s.agents[j])
  {
    var a := s.agents[j];
    assert AgentOk(mode, |s.guards|, a);
    if mode == 1 {
      UsableInModeOne(s, j);
    } else {
      MainGraphLives(mode, s);
      hide Owed, Lineage, Counted, GuardOk;
      if a.guard >= 1 && Owes(mode, a, a.guard) >= 1 {
        HolderKeepsAlive(mode, s, j, a.guard);
      }
      if a.phase.Switching? {
        HolderKeepsAlive(mode, s, j, a.phase.next);
      }
    }
  }

  /** No step counts on a guard whose graph is gone, uses such a graph, or destroys one twice. */
  lemma StepsUseLiveGraphs(g: Adjacency, cfg: Config, mode: nat, s: Pool, s': Pool, i: nat, kids: seq<Agent>, op: Op)
    requires mode <= 2 && Inv(mode, s) && Step(g, cfg, mode, s, s', i, kids, op) && !GaveAway(mode, s.agents)
    ensures op != Keep || s.agents[i].phase.Searching? || s.agents[i].phase.Waiting? ==>
        s.guards[s.agents[i].guard].live
    ensures forall x :: 0 <= x < |s.guards| && s.guards[x].releases >= 1 ==> s'.guards[x] == s.guards[x]
  {
    var a := s.agents[i];
    AllUsable(mode, s, i);
    hide Enters, Iterates, Owed, Lineage, Counted;
    forall x | 0 <= x < |s.guards| && s.guards[x].releases >= 1 ensures s'.guards[x] == s.guards[x] {
      assert GuardOk(mode, x, s.guards[x]);
      assert op == Keep || op == Create || s.guards[a.guard].live;
    }
  }

  // --- exactly when the size limit breaks it ---

  ghost predicate HasEdge(g: Adjacency) {
    exists v :: v in g && g[v] != {}
  }

  /** A caller can tell beforehand: subgraph mode 1, a limit of 0 or 1, and a graph with an edge. */
  ghost predicate LosesMainGraph(g: Adjacency, cfg: Config, mode: nat) {
    mode == 1 && CutsOff(cfg.limit, 1) && HasEdge(g)
  }

  lemma EdgeHasLaterEnd(g: Adjacency, ord: Order) returns (v: Vertex)
    requires Simple(g) && ValidOrder(g, ord) && HasEdge(g)
    ensures v in g && Later(g, ord, v) != {}
  {
    var a :| a in g && g[a] != {};
    var b :| b in g[a];
    if Before(g, ord, a, b) {
      v := a;
      assert b in Later(g, ord, a);
    } else {
      v := b;
      assert a in Later(g, ord, b);
    }
  }

  lemma GivesAwayOnlyThen(g: Adjacency, cfg: Config, mode: nat, vs: seq<Vertex>, s: Pool)
    requires Simple(g) && ValidOrder(g, cfg.order) && mode <= 2 && Fates(g, cfg, vs, s.agents)
    ensures GaveAway(mode, s.agents) ==> LosesMainGraph(g, cfg, mode) && Exceeded(g, cfg.limit)
  {
    hide TaskOk, Exceeded;
    if GaveAway(mode, s.agents) {
      var j :| 0 <= j < |s.agents| && IsRoot(s.agents[j]) && s.agents[j].phase == Finished(true);
      assert RootFate(g, cfg, vs[j], s.agents[j]);
      assert IsCut(s.agents[j]);
      assert g[vs[j]] != {};
    }
  }

  lemma SurelyGivenAway(g: Adjacency, cfg: Config, mode: nat, vs: seq<Vertex>, s: Pool)
    requires Simple(g) && ValidOrder(g, cfg.order) && mode <= 2 && Fates(g, cfg, vs, s.agents) && Enumerates(vs, g.Keys)
    requires LosesMainGraph(g, cfg, mode) && AllFinished(s)
    ensures GaveAway(mode, s.agents)
  {
    var v := EdgeHasLaterEnd(g, cfg.order);
    hide TaskOk, Exceeded, Simple, ValidOrder, Later;
    var j: nat :| j < |vs| && vs[j] == v;
    assert RootFate(g, cfg, vs[j], s.agents[j]);
  }

  predicate AllFinished(s: Pool) {
    forall j :: 0 <= j < |s.agents| ==> s.agents[j].phase.Finished?
  }

  /**
   At every moment of every interleaving, every graph that a task still needs exists, unless the
   whole graph is lost as above; in that case it is gone at the end of every run.
   */
  lemma NoUseAfterRelease(g: Adjacency, cfg: Config, mode: nat, vs: seq<Vertex>, run: seq<Pool>, j: nat)
    requires Simple(g) && ValidOrder(g, cfg.order) && mode <= 2 && IsRun(g, cfg, mode, vs, run) && j < |run|
    ensures Inv(mode, run[j])
    ensures !LosesMainGraph(g, cfg, mode) ==>
              run[j].guards[0].live && forall i :: 0 <= i < |run[j].agents| ==>
                  Usable(mode, run[j].guards, run[j].agents[i])
    ensures AllFinished(run[j]) ==> (run[j].guards[0].live <==> !LosesMainGraph(g, cfg, mode))
  {
    RunInv(g, cfg, mode, vs, run, j);
    hide Fates, LosesMainGraph, Exceeded, GaveAway, Usable, AgentOk, Next, GuardOk, Lineage, Counted, AllFinished;
    hide Simple, ValidOrder;
    GivesAwayOnlyThen(g, cfg, mode, vs, run[j]);
    MainGraphLives(mode, run[j]);
    if !LosesMainGraph(g, cfg, mode) {
      forall i | 0 <= i < |run[j].agents| ensures Usable(mode, run[j].guards, run[j].agents[i]) {
        AllUsable(mode, run[j], i);
      }
    } else if AllFinished(run[j]) {
      SurelyGivenAway(g, cfg, mode, vs, run[j]);
    }
  }

  // --- released exactly once ---

  /** A child task on this guard was cut off by the size limit in its first execution (mode 2). */
  predicate Leaks(mode: nat, agents: seq<Agent>, x: nat) {
    mode == 2 && exists j :: 0 <= j < |agents| && !IsRoot(agents[j]) && IsCut(agents[j]) && agents[j].guard == x
  }

  lemma OwesWhenFinished(mode: nat, n: nat, a: Agent, x: nat)
    requires mode <= 2 && AgentOk(mode, n, a) && a.phase.Finished? && x >= 1
    ensures Owes(mode, a, x) == One(mode == 2 && !IsRoot(a) && IsCut(a) && a.guard == x)
  {
  }

  lemma {:induction false} OwedWhenFinished(mode: nat, n: nat, agents: seq<Agent>, x: nat)
    requires mode <= 2 && x >= 1
    requires forall j :: 0 <= j < |agents| ==> AgentOk(mode, n, agents[j]) && agents[j].phase.Finished?
    ensures Owed(mode, agents, x) >= 0 && (Owed(mode, agents, x) > 0 <==> Leaks(mode, agents, x))
    decreases |agents|
  {
    hide AgentOk, Owes, IsCut;
    if agents != [] {
      var init, a := agents[..|agents| - 1], agents[|agents| - 1];
      OwedWhenFinished(mode, n, init, x);
      OwesWhenFinished(mode, n, a, x);
      if Leaks(mode, init, x) {
        var j :| 0 <= j < |init| && !IsRoot(init[j]) && IsCut(init[j]) && init[j].guard == x;
        assert agents[j] == init[j];
      }
      if Leaks(mode, agents, x) {
        var j :| 0 <= j < |agents| && !IsRoot(agents[j]) && IsCut(agents[j]) && agents[j].guard == x;
        assert j < |init| ==> agents[j] == init[j];
      }
    }
  }

  /** At the end of a run a created subgraph has been destroyed once, except when a child on it was cut off. */
  lemma ReleasedExactlyOnce(g: Adjacency, cfg: Config, mode: nat, vs: seq<Vertex>, run: seq<Pool>, x: nat)
    requires Simple(g) && ValidOrder(g, cfg.order) && mode <= 2 && IsRun(g, cfg, mode, vs, run)
    requires AllFinished(run[|run| - 1]) && 1 <= x < |run[|run| - 1].guards|
    ensures var s := run[|run| - 1];
            if Leaks(mode, s.agents, x) then s.guards[x].live
                && s.guards[x].releases == 0 else s.guards[x] == Guard(0, false, 1)
  {
    var s := run[|run| - 1];
    RunInv(g, cfg, mode, vs, run, |run| - 1);
    hide Fates, AgentOk, Next, Lineage, Simple, ValidOrder, Owes, Owed, Leaks;
    OwedWhenFinished(mode, |s.guards|, s.agents, x);
    assert GuardOk(mode, x, s.guards[x]);
  }

  lemma LeaksMeansExceeded(g: Adjacency, cfg: Config, mode: nat, vs: seq<Vertex>, agents: seq<Agent>, x: nat)
    requires Simple(g) && ValidOrder(g, cfg.order) && Fates(g, cfg, vs, agents)
    ensures Leaks(mode, agents, x) ==> mode == 2 && Exceeded(g, cfg.limit)
  {
    hide Exceeded, Simple, ValidOrder, RootFate, TaskOk, IsCut;
    if Leaks(mode, agents, x) {
      var j :| 0 <= j < |agents| && !IsRoot(agents[j]) && IsCut(agents[j]) && agents[j].guard == x;
      assert IsCut(agents[j]);
    }
  }

  /** Outside mode 2, or with a limit that no clique exceeds, that is all of them. */
  lemma AllReleased(g: Adjacency, cfg: Config, mode: nat, vs: seq<Vertex>, run: seq<Pool>, x: nat)
    requires Simple(g) && ValidOrder(g, cfg.order) && mode <= 2 && IsRun(g, cfg, mode, vs, run)
    requires AllFinished(run[|run| - 1]) && 1 <= x < |run[|run| - 1].guards| && (mode != 2 || !Exceeded(g, cfg.limit))
    ensures run[|run| - 1].guards[x] == Guard(0, false, 1)
  {
    var s := run[|run| - 1];
    RunInv(g, cfg, mode, vs, run, |run| - 1);
    ReleasedExactlyOnce(g, cfg, mode, vs, run, x);
    hide Exceeded, Simple, ValidOrder, Inv, AllFinished, Fates, Leaks;
    LeaksMeansExceeded(g, cfg, mode, vs, s.agents, x);
  }

  /** With a limit that no clique exceeds, in particular without a limit, all modes are right. */
  lemma WithoutCutOff(g: Adjacency, cfg: Config, mode: nat, vs: seq<Vertex>, run: seq<Pool>, j: nat)
    requires Simple(g) && ValidOrder(g, cfg.order) && mode <= 2 && IsRun(g, cfg, mode, vs, run) && j < |run|
    requires !Exceeded(g, cfg.limit)
    ensures run[j].guards != [] && run[j].guards[0] == NewGuard()
    ensures AllFinished(run[j]) ==> forall x :: 1 <= x < |run[j].guards| ==> run[j].guards[x] == Guard(0, false, 1)
  {
    var s := run[j];
    RunInv(g, cfg, mode, vs, run, j);
    hide Exceeded, AgentOk, Next, Lineage, Simple, ValidOrder, Owes, Owed, RootFate, TaskOk;
    GivesAwayOnlyThen(g, cfg, mode, vs, s);
    MainGraphLives(mode, s);
    MainGraphCount(mode, s);
    if AllFinished(s) {
      forall x | 1 <= x < |s.guards| ensures s.guards[x] == Guard(0, false, 1) {
        OwedWhenFinished(mode, |s.guards|, s.agents, x);
        assert GuardOk(mode, x, s.guards[x]);
      }
    }
  }

  lemma MainGraphCount(mode: nat, s: Pool)
    requires mode <= 2 && Inv(mode, s) && s.guards[0].live
    ensures s.guards[0] == NewGuard()
  {
    hide AgentOk, Lineage, Owes, Owed;
    assert GuardOk(mode, 0, s.guards[0]);
    if mode == 1 {
      OwedMainGraph(|s.guards|, s.agents);
    }
  }

  // --- no deadlock ---

  lemma MoveExists(g: Adjacency, cfg: Config, mode: nat, n: nat, a: Agent, i: nat)
    returns (a': Agent, kids: seq<Agent>, op: Op)
    requires Simple(g) && AgentOk(mode, n, a) && TaskOk(g, cfg.limit, a.duty) && !a.phase.Finished?
    ensures Moves(g, cfg, mode, n, a, i, true, a', kids, op)
  {
    kids, op := [], Keep;
    match a.phase
    case Waiting =>
      if a.duty.P == {} {
        a', op := a.(duty := Done, newGraph := false, phase := Resting(false)),
            if mode == 2 && !IsRoot(a) then Dec else Keep;
      } else if CutsOff(cfg.limit, |a.duty.R|) {
        a' := a.(duty := Done, phase := Resting(true));
      } else {
        var d := EntryExists(g, cfg, a.duty);
        if Creates(mode, a) {
          a', op := a.(duty := d, phase := Switching(n)), Create;
        } else {
          a' := a.(duty := d, phase := Searching);
        }
      }
    case Switching(next) =>
        a', op := a.(guard := next, phase := Searching), if mode == 2 && !IsRoot(a) then Dec else Keep;
    case Searching =>
      if a.duty == Done {
        a', op := a.(phase := Resting(false)), if mode == 2 && a.newGraph then Dec else Keep;
      } else {
        var e := PoolRuns.IterationExists(g, cfg, a.duty);
        a', kids := a.(duty := e.after), Spawned(mode, e.spawned, i, a.guard);
        op := if kids != [] && mode == 2 then Inc else Keep;
      }
    case Resting(cut) => a', op := a.(phase := Finished(cut)), if mode == 1 && a.newGraph then Dec else Keep;
  }

  lemma EntryExists(g: Adjacency, cfg: Config, t: Task) returns (d: Task)
    requires t.New? && TaskOk(g, cfg.limit, t) && t.P != {} && !CutsOff(cfg.limit, |t.R|)
    ensures Enters(g, cfg, t, d)
  {
    hide Branch, BestPivot;
    CliqueBound.BranchInGraph(g, cfg.limit, t.R, t.P, t.X);
    var u := CliqueBound.PivotExists(g, t.P, t.X);
    CliqueBound.PivotInGraph(g, t.P, t.X, u);
    d := Entered(g, t, u);
  }

  /** Children come after their parents, so the last task that has not finished can always step. */
  lemma NoDeadlock(g: Adjacency, cfg: Config, mode: nat, vs: seq<Vertex>, s: Pool) returns (s': Pool)
    requires Simple(g) && ValidOrder(g, cfg.order) && mode <= 2 && Inv(mode, s) && Fates(g, cfg, vs, s.agents)
        && !AllFinished(s)
    ensures Next(g, cfg, mode, s, s')
  {
    hide TaskOk, Moves, RootFate, Counted, GuardOk, Owes, Owed, Exceeded;
    var i := LastUnfinished(s.agents);
    assert AgentOk(mode, |s.guards|, s.agents[i]);
    var a', kids, op := MoveExists(g, cfg, mode, |s.guards|, s.agents[i], i);
    forall j | 0 <= j < |s.agents| && s.agents[j].parent == i ensures s.agents[j].phase.Finished? {
      assert !IsRoot(s.agents[j]);
    }
    s' := Pool(s.agents[i := a'] + kids, Apply(op, s.guards, s.agents[i].guard));
    assert Step(g, cfg, mode, s, s', i, kids, op);
  }

  lemma {:induction false} LastUnfinished(agents: seq<Agent>) returns (i: nat)
    requires exists j :: 0 <= j < |agents| && !agents[j].phase.Finished?
    ensures i < |agents| && !agents[i].phase.Finished? && forall j :: i < j < |agents| ==> agents[j].phase.Finished?
    decreases |agents|
  {
    i := |agents| - 1;
    if agents[i].phase.Finished? {
      var init := agents[..i];
      var j :| 0 <= j < |agents| && !agents[j].phase.Finished?;
      assert init[j] == agents[j];
      i := LastUnfinished(init);
    }
  }
}
