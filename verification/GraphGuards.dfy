/**
 The reference counts of the graphs, at the grain of single lock acquisitions: which task may use
 which graph, and when a graph is destroyed. A guard owns one graph; the tasks of all workers take
 their steps in any order.
 */
module GraphGuards {
  import opened FiniteSets
  import opened Cliques
  import opened Roots
  import opened Graphs
  import opened TaskPool
  import PoolRuns

  // --- one guard ---

  /** The count, whether the graph still exists, and how often it has been destroyed. */
  datatype Guard = Guard(refCount: int, live: bool, releases: nat)

  function NewGuard(): Guard {
    Guard(1, true, 0)
  }

  function Incremented(x: Guard): Guard {
    x.(refCount := x.refCount + 1)
  }

  function Decremented(x: Guard): Guard {
    if x.refCount - 1 <= 0 then Guard(x.refCount - 1, false, x.releases + 1) else x.(refCount := x.refCount - 1)
  }

  class GraphGuard {
    var graph: Graph?
    var ref_count: int
    /** The graph that was put under this guard, and how often it has been destroyed. */
    ghost const held: Graph
    ghost var releases: nat

    ghost predicate Valid()
      reads this
    {
      graph == null || graph == held
    }

    ghost function State(): Guard
      reads this
    {
      Guard(ref_count, graph != null, releases)
    }

    constructor (g: Graph)
      ensures Valid() && State() == NewGuard() && held == g
    {
      graph, ref_count, releases, held := g, 1, 0, g;
    }

    method IncGraphRefCount()
      requires Valid() && graph != null
      modifies this`ref_count
      ensures Valid() && State() == Incremented(old(State()))
    {
      ref_count := ref_count + 1;
    }

    /** The last reference destroys the graph, which has to be there. */
    method DecGraphRefCount()
      requires Valid() && graph != null
      modifies this`graph, this`ref_count, this`releases
      ensures Valid() && State() == Decremented(old(State()))
    {
      ref_count := ref_count - 1;
      if ref_count <= 0 {
        graph := null;
        releases := releases + 1;
      }
    }
  }

  // --- the protocol ---

  /**
   Spawned; between taking a new guard and giving up the old one; working on candidates; a
   continuation that waits for its children, or has run. `cut` records an end by the size limit.
   */
  datatype Phase = Waiting | Switching(next: nat) | Searching | Resting(cut: bool) | Finished(cut: bool)

  /** A task as far as guards are concerned. The parent of a root is -1. */
  datatype Agent = Agent(duty: Task, parent: int, guard: nat, newGraph: bool, phase: Phase)

  /** Guard 0 is the one of the whole graph, held by the program itself. */
  datatype Pool = Pool(agents: seq<Agent>, guards: seq<Guard>)

  /** What a step does to the guard its agent refers to; Create makes a new one. */
  datatype Op = Keep | Inc | Dec | Create

  function Apply(op: Op, guards: seq<Guard>, own: nat): seq<Guard>
    requires own < |guards|
  {
    match op
    case Keep => guards
    case Inc => guards[own := Incremented(guards[own])]
    case Dec => guards[own := Decremented(guards[own])]
    case Create => guards + [NewGuard()]
  }

  predicate IsRoot(a: Agent) {
    a.parent == -1
  }

  predicate Creates(mode: nat, a: Agent) {
    (mode == 1 && IsRoot(a)) || (mode == 2 && a.newGraph)
  }

  function Spawned(mode: nat, ts: seq<Task>, i: nat, own: nat): seq<Agent> {
    seq(|ts|, k requires 0 <= k < |ts| => Agent(ts[k], i, own, mode == 2, Waiting))
  }

  /** One step of agent a, number i, with n guards around; `quiet` says that all its children have finished. */
  ghost predicate Moves(g: Adjacency, cfg: Config, mode: nat, n: nat, a: Agent, i: nat, quiet: bool, a': Agent,
        kids: seq<Agent>, op: Op) {
    match a.phase
    case Waiting =>
      && a.duty.New? && kids == []
      && if a.duty.P == {} then
           a' == a.(duty := Done, newGraph := false, phase := Resting(false))
               && op == if mode == 2 && !IsRoot(a) then Dec else Keep
         else if CutsOff(cfg.limit, |a.duty.R|) then
           a' == a.(duty := Done, phase := Resting(true)) && op == Keep
         else
           Enters(g, cfg, a.duty, a'.duty) &&
           if Creates(mode, a) then a' == a.(duty := a'.duty, phase := Switching(n)) && op == Create
           else a' == a.(duty := a'.duty, phase := Searching) && op == Keep
    case Switching(next) =>
      a' == a.(guard := next, phase := Searching) && kids == [] && op == if mode == 2 && !IsRoot(a) then Dec else Keep
    case Searching =>
      if a.duty == Done then
        a' == a.(phase := Resting(false)) && kids == [] && op == if mode == 2 && a.newGraph then Dec else Keep
      else
        exists e :: Iterates(g, cfg, a.duty, e) && a' == a.(duty := e.after)
            && kids == Spawned(mode, e.spawned, i, a.guard)
            && op == if kids != [] && mode == 2 then Inc else Keep
    case Resting(cut) =>
      quiet && a' == a.(phase := Finished(cut)) && kids == [] && op == if mode == 1 && a.newGraph then Dec else Keep
    case Finished(_) => false
  }

  ghost predicate Quiet(agents: seq<Agent>, i: nat) {
    forall j :: 0 <= j < |agents| && agents[j].parent == i ==> agents[j].phase.Finished?
  }

  ghost predicate Step(g: Adjacency, cfg: Config, mode: nat, s: Pool, s': Pool, i: nat, kids: seq<Agent>, op: Op) {
    && i < |s.agents| && s.agents[i].guard < |s.guards| && i < |s'.agents|
    && Moves(g, cfg, mode, |s.guards|, s.agents[i], i, Quiet(s.agents, i), s'.agents[i], kids, op)
    && s'.agents == s.agents[i := s'.agents[i]] + kids
    && s'.guards == Apply(op, s.guards, s.agents[i].guard)
  }

  ghost predicate Next(g: Adjacency, cfg: Config, mode: nat, s: Pool, s': Pool) {
    exists i, kids, op :: Step(g, cfg, mode, s, s', i, kids, op)
  }

  ghost predicate Init(g: Adjacency, cfg: Config, mode: nat, vs: seq<Vertex>, s: Pool)
    requires Simple(g) && ValidOrder(g, cfg.order)
  {
    && Enumerates(vs, g.Keys) && s.guards == [NewGuard()] && |s.agents| == |vs|
    && forall i :: 0 <= i < |vs| ==>
        s.agents[i] == Agent(PoolRuns.RootTask(g, cfg.order, vs[i]), -1, 0, mode != 0, Waiting)
  }

  ghost predicate IsRun(g: Adjacency, cfg: Config, mode: nat, vs: seq<Vertex>, run: seq<Pool>)
    requires Simple(g) && ValidOrder(g, cfg.order)
  {
    && run != [] && Init(g, cfg, mode, vs, run[0])
    && forall j :: 0 <= j < |run| - 1 ==> Next(g, cfg, mode, run[j], run[j + 1])
  }

  // --- the invariant ---

  predicate AgentOk(mode: nat, n: nat, a: Agent) {
    && a.guard < n && -1 <= a.parent
    && (mode == 0 ==> a.guard == 0 && !a.newGraph)
    && (mode == 1 && !IsRoot(a) ==> a.guard >= 1 && !a.newGraph)
    && (mode == 2 && !IsRoot(a) ==> a.guard >= 1)
    && match a.phase
       case Waiting => a.duty.New? && (IsRoot(a) ==> a.guard == 0 && (a.newGraph <==> mode != 0))
           && (!IsRoot(a) ==> (a.newGraph <==> mode == 2))
       case Switching(next) => !a.duty.New? && mode != 0 && a.newGraph && 1 <= next < n && next != a.guard
           && (IsRoot(a) ==> a.guard == 0)
       case Searching => !a.duty.New? && (mode != 0 ==> a.guard >= 1 && (IsRoot(a) || mode == 2 ==> a.newGraph))
       case Resting(cut) => a.duty == Done
           && (IsRoot(a) && mode == 1 ==> if cut then a.newGraph && a.guard == 0 else a.newGraph ==> a.guard >= 1)
       case Finished(cut) => a.duty == Done && (IsRoot(a) && cut && mode == 1 ==> a.guard == 0)
  }

  function One(b: bool): nat {
    if b then 1 else 0
  }

  /**
   The references that agent a holds on guard x. A child that the size limit cut off never gives
   back its parent's guard; a root that it cut off gives back one that was not its own (mode 1).
   */
  function Owes(mode: nat, a: Agent, x: nat): int {
    var mine := One(a.guard == x);
    if mode == 0 || (mode == 1 && !IsRoot(a)) then 0 else
    match a.phase
    case Waiting => if IsRoot(a) then 0 else mine
    case Switching(next) => (if IsRoot(a) then 0 else mine) + One(next == x)
    case Searching => mine
    case Resting(cut) => if mode == 1 then One(a.newGraph && !cut) * mine else One(cut && !IsRoot(a)) * mine
    case Finished(cut) => if mode == 1 then 0 - One(cut) * mine else One(cut && !IsRoot(a)) * mine
  }

  function Owed(mode: nat, agents: seq<Agent>, x: nat): int {
    if agents == [] then 0 else Owed(mode, agents[..|agents| - 1], x) + Owes(mode, agents[|agents| - 1], x)
  }

  /** What an operation adds to the count of guard x. */
  function Delta(op: Op, own: nat, n: nat, x: nat): int {
    match op
    case Keep => 0
    case Inc => One(own == x)
    case Dec => 0 - One(own == x)
    case Create => One(n == x)
  }

  /** A parent is done only after its child, and in mode 1 lends it its graph. */
  predicate Related(mode: nat, p: Agent, c: Agent) {
    && (p.phase.Searching? || p.phase == Resting(false) || p.phase == Finished(false))
    && (p.phase.Finished? ==> c.phase.Finished?)
    && (mode == 1 ==> p.guard == c.guard && (IsRoot(p) ==> p.newGraph))
  }

  predicate Lineage(mode: nat, agents: seq<Agent>) {
    forall j :: 0 <= j < |agents| && !IsRoot(agents[j]) ==>
      0 <= agents[j].parent < j && Related(mode, agents[agents[j].parent], agents[j])
  }

  /** The count of each guard is the number of its holders. */
  ghost predicate Counted(mode: nat, s: Pool) {
    forall x :: 0 <= x < |s.guards| ==> s.guards[x].refCount == One(x == 0) + Owed(mode, s.agents, x)
  }

  /** A created guard lives as long as its count is positive, and dies once. */
  predicate GuardOk(mode: nat, x: nat, y: Guard) {
    && (y.live <==> y.refCount > 0)
    && (x >= 1 ==> y.refCount >= 0 && y.releases == One(y.refCount == 0))
    && (x == 0 ==> y.releases == 1 - y.refCount && (mode != 1 ==> y == NewGuard()))
  }

  ghost predicate Inv(mode: nat, s: Pool) {
    && |s.guards| >= 1
    && (forall j :: 0 <= j < |s.agents| ==> AgentOk(mode, |s.guards|, s.agents[j]))
    && Lineage(mode, s.agents)
    && Counted(mode, s)
    && forall x :: 0 <= x < |s.guards| ==> GuardOk(mode, x, s.guards[x])
  }

  // --- one step keeps it ---

  lemma IteratesSpawns(g: Adjacency, cfg: Config, t: Task, e: Effect)
    requires Iterates(g, cfg, t, e)
    ensures t.Looping? && !e.after.New? && (e.spawned == [] || (|e.spawned| == 1 && e.spawned[0].New?))
  {
    hide Below;
  }

  lemma EnteredIsNotNew(g: Adjacency, cfg: Config, t: Task, loop: Task)
    requires Enters(g, cfg, t, loop)
    ensures !loop.New?
  {
    hide BestPivot;
  }

  /** What one step does locally. */
  lemma MoveOk(g: Adjacency, cfg: Config, mode: nat, n: nat, a: Agent, i: nat, quiet: bool, a': Agent,
        kids: seq<Agent>, op: Op)
    requires mode <= 2 && AgentOk(mode, n, a) && Moves(g, cfg, mode, n, a, i, quiet, a', kids, op)
    ensures AgentOk(mode, n + One(op.Create?), a') && a'.parent == a.parent
    ensures kids == [] || (|kids| == 1 && AgentOk(mode, n, kids[0]) && kids[0].parent == i
        && Related(mode, a', kids[0]))
    ensures forall x :: Delta(op, a.guard, n, x) == Owes(mode, a', x) - Owes(mode, a, x) + Owed(mode, kids, x)
    ensures op.Inc? ==> a.guard >= 1 && Owes(mode, a, a.guard) >= 1
    ensures op.Dec? ==> if a.guard >= 1 then Owes(mode, a, a.guard) >= 1 else mode == 1
  {
    hide Enters, Iterates;
    if a.phase.Waiting? {
      if a.duty.P != {} && !CutsOff(cfg.limit, |a.duty.R|) {
        EnteredIsNotNew(g, cfg, a.duty, a'.duty);
      }
    } else if a.phase.Searching? && a.duty != Done {
      var e :| Iterates(g, cfg, a.duty, e) && a' == a.(duty := e.after) && kids == Spawned(mode, e.spawned, i, a.guard)
               && op == if kids != [] && mode == 2 then Inc else Keep;
      IteratesSpawns(g, cfg, a.duty, e);
      if kids != [] {
        assert kids[..0] == [];
      }
    }
  }

  lemma {:induction false} OwedUpdate(mode: nat, agents: seq<Agent>, i: nat, a': Agent, x: nat)
    requires i < |agents|
    ensures Owed(mode, agents[i := a'], x) == Owed(mode, agents, x) - Owes(mode, agents[i], x) + Owes(mode, a', x)
    decreases |agents|
  {
    hide Owes;
    var agents' := agents[i := a'];
    var init := agents[..|agents| - 1];
    if i == |agents| - 1 {
      assert agents'[..|agents| - 1] == init;
    } else {
      OwedUpdate(mode, init, i, a', x);
      assert agents'[..|agents| - 1] == init[i := a'];
    }
  }

  lemma {:induction false} OwedConcat(mode: nat, agents: seq<Agent>, kids: seq<Agent>, x: nat)
    ensures Owed(mode, agents + kids, x) == Owed(mode, agents, x) + Owed(mode, kids, x)
    decreases |kids|
  {
    hide Owes;
    if kids == [] {
      assert agents + kids == agents;
    } else {
      OwedConcat(mode, agents, kids[..|kids| - 1], x);
      assert (agents + kids)[..|agents + kids| - 1] == agents + kids[..|kids| - 1];
    }
  }

  /** Only the whole graph can be given back too often; and nobody holds a guard that does not exist yet. */
  lemma OwesBounds(mode: nat, n: nat, a: Agent, x: nat)
    requires mode <= 2 && AgentOk(mode, n, a)
    ensures x >= 1 ==> Owes(mode, a, x) >= 0
    ensures x >= n ==> Owes(mode, a, x) == 0
  {
  }

  lemma {:induction false} OwedBounds(mode: nat, n: nat, agents: seq<Agent>, x: nat)
    requires mode <= 2 && forall j :: 0 <= j < |agents| ==> AgentOk(mode, n, agents[j])
    ensures x >= 1 ==> Owed(mode, agents, x) >= 0
    ensures x >= 1 ==> forall j :: 0 <= j < |agents| ==> Owes(mode, agents[j], x) <= Owed(mode, agents, x)
    ensures x >= n ==> Owed(mode, agents, x) == 0
    decreases |agents|
  {
    hide Owes, AgentOk;
    if agents != [] {
      var init := agents[..|agents| - 1];
      OwedBounds(mode, n, init, x);
      OwesBounds(mode, n, agents[|agents| - 1], x);
      forall j | 0 <= j < |agents| && x >= 1 ensures Owes(mode, agents[j], x) <= Owed(mode, agents, x) {
        assert j < |init| ==> agents[j] == init[j];
      }
    }
  }

  lemma StepCounted(g: Adjacency, cfg: Config, mode: nat, s: Pool, s': Pool, i: nat, kids: seq<Agent>, op: Op)
    requires mode <= 2 && Inv(mode, s) && Step(g, cfg, mode, s, s', i, kids, op)
    ensures Counted(mode, s')
  {
    hide Moves, Owes, AgentOk, Lineage, GuardOk, Owed;
    var a, a', n := s.agents[i], s'.agents[i], |s.guards|;
    MoveOk(g, cfg, mode, n, a, i, Quiet(s.agents, i), a', kids, op);
    forall x | 0 <= x < |s'.guards| ensures s'.guards[x].refCount == One(x == 0) + Owed(mode, s'.agents, x) {
      OwedUpdate(mode, s.agents, i, a', x);
      OwedConcat(mode, s.agents[i := a'], kids, x);
      assert Delta(op, a.guard, n, x) == Owes(mode, a', x) - Owes(mode, a, x) + Owed(mode, kids, x);
      if x == n {
        OwedBounds(mode, n, s.agents, x);
      }
    }
  }

  lemma StepGuards(g: Adjacency, cfg: Config, mode: nat, s: Pool, s': Pool, i: nat, kids: seq<Agent>, op: Op)
    requires mode <= 2 && Inv(mode, s) && Step(g, cfg, mode, s, s', i, kids, op)
    ensures |s'.guards| >= 1 && forall x :: 0 <= x < |s'.guards| ==> GuardOk(mode, x, s'.guards[x])
  {
    hide Moves, Owes, AgentOk, Lineage, Owed;
    var a := s.agents[i];
    MoveOk(g, cfg, mode, |s.guards|, a, i, Quiet(s.agents, i), s'.agents[i], kids, op);
    OwedBounds(mode, |s.guards|, s.agents, a.guard);
    assert a.guard >= 1 ==> s.guards[a.guard].refCount == Owed(mode, s.agents, a.guard) >= Owes(mode, a, a.guard);
    forall x | 0 <= x < |s'.guards| ensures GuardOk(mode, x, s'.guards[x]) {
      assert x < |s.guards| ==> GuardOk(mode, x, s.guards[x]);
    }
  }

  lemma StepAgents(g: Adjacency, cfg: Config, mode: nat, s: Pool, s': Pool, i: nat, kids: seq<Agent>, op: Op)
    requires mode <= 2 && Inv(mode, s) && Step(g, cfg, mode, s, s', i, kids, op)
    ensures forall j :: 0 <= j < |s'.agents| ==> AgentOk(mode, |s'.guards|, s'.agents[j])
  {
    hide Moves, Owes, Lineage, Owed, Counted, GuardOk;
    MoveOk(g, cfg, mode, |s.guards|, s.agents[i], i, Quiet(s.agents, i), s'.agents[i], kids, op);
    forall j | 0 <= j < |s'.agents| ensures AgentOk(mode, |s'.guards|, s'.agents[j]) {
      assert j < |s.agents| && j != i ==> s'.agents[j] == s.agents[j] && AgentOk(mode, |s.guards|, s.agents[j]);
    }
  }

  /** The agent that steps stays related to its parent and to its children. */
  lemma MoveRelated(g: Adjacency, cfg: Config, mode: nat, n: nat, a: Agent, i: nat, quiet: bool, a': Agent,
        kids: seq<Agent>, op: Op)
    requires mode <= 2 && AgentOk(mode, n, a) && Moves(g, cfg, mode, n, a, i, quiet, a', kids, op)
    ensures !IsRoot(a) ==> forall p :: Related(mode, p, a) ==> Related(mode, p, a')
    ensures forall c :: Related(mode, a, c) && (quiet ==> c.phase.Finished?) ==> Related(mode, a', c)
  {
    hide Enters, Iterates;
  }

  lemma StepLineage(g: Adjacency, cfg: Config, mode: nat, s: Pool, s': Pool, i: nat, kids: seq<Agent>, op: Op)
    requires mode <= 2 && Inv(mode, s) && Step(g, cfg, mode, s, s', i, kids, op)
    ensures Lineage(mode, s'.agents)
  {
    hide Moves, Owes, Owed, Counted, GuardOk, AgentOk, Related;
    var a, a' := s.agents[i], s'.agents[i];
    MoveOk(g, cfg, mode, |s.guards|, a, i, Quiet(s.agents, i), a', kids, op);
    MoveRelated(g, cfg, mode, |s.guards|, a, i, Quiet(s.agents, i), a', kids, op);
    forall j | 0 <= j < |s'.agents| && !IsRoot(s'.agents[j])
      ensures 0 <= s'.agents[j].parent < j && Related(mode, s'.agents[s'.agents[j].parent], s'.agents[j])
    {
      if j < |s.agents| {
        var p := s.agents[j].parent;
        assert s'.agents[j].parent == p && Related(mode, s.agents[p], s.agents[j]);
      }
    }
  }

  lemma StepInv(g: Adjacency, cfg: Config, mode: nat, s: Pool, s': Pool)
    requires mode <= 2 && Inv(mode, s) && Next(g, cfg, mode, s, s')
    ensures Inv(mode, s')
  {
    hide Step, Counted, Lineage, AgentOk, GuardOk;
    var i, kids, op :| Step(g, cfg, mode, s, s', i, kids, op);
    StepCounted(g, cfg, mode, s, s', i, kids, op);
    StepGuards(g, cfg, mode, s, s', i, kids, op);
    StepAgents(g, cfg, mode, s, s', i, kids, op);
    StepLineage(g, cfg, mode, s, s', i, kids, op);
  }

  lemma {:induction false} NothingOwed(mode: nat, agents: seq<Agent>, x: nat)
    requires forall j :: 0 <= j < |agents| ==> IsRoot(agents[j]) && agents[j].phase == Waiting
    ensures Owed(mode, agents, x) == 0
    decreases |agents|
  {
    if agents != [] {
      NothingOwed(mode, agents[..|agents| - 1], x);
    }
  }

  lemma InitInv(g: Adjacency, cfg: Config, mode: nat, vs: seq<Vertex>, s: Pool)
    requires Simple(g) && ValidOrder(g, cfg.order) && Init(g, cfg, mode, vs, s)
    ensures Inv(mode, s)
  {
    NothingOwed(mode, s.agents, 0);
    hide Owed, Simple, ValidOrder, Later, Earlier;
  }
}
