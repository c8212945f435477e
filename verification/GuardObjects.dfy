/**
 The guards of the protocol as objects, and what one execution of a task does to them: a few moves of
 the protocol in a row, none of them by a continuation.
 */
module GuardObjects {
  import opened TaskPool
  import opened Cliques
  import opened Roots
  import opened GraphGuards

  /** The objects, each once, are in the states `states`. */
  ghost predicate Mirror(guards: seq<GraphGuard>, states: seq<Guard>)
    reads guards
  {
    && |guards| == |states|
    && (forall x :: 0 <= x < |guards| ==> guards[x].Valid() && guards[x].State() == states[x])
    && forall x, y :: 0 <= x < y < |guards| ==> guards[x] != guards[y]
  }

  ghost function OthersOf(guards: seq<GraphGuard>, own: nat): set<GraphGuard> {
    set x | 0 <= x < |guards| && x != own :: guards[x]
  }

  /** All guards but number `own` are in the states `states`. */
  ghost predicate Others(guards: seq<GraphGuard>, states: seq<Guard>, own: nat)
    reads OthersOf(guards, own)
  {
    && |guards| == |states| && own < |guards|
    && (forall x, y :: 0 <= x < y < |guards| ==> guards[x] != guards[y])
    && forall x :: 0 <= x < |guards| && x != own ==> guards[x].Valid() && guards[x].State() == states[x]
  }

  lemma MirrorsOthers(guards: seq<GraphGuard>, states: seq<Guard>, own: nat)
    requires Mirror(guards, states) && own < |guards|
    ensures Others(guards, states, own) && |guards| == |states|
    ensures states[own] == guards[own].State() && guards[own] !in OthersOf(guards, own)
  {
  }

  /** A guard that counts its holders: its graph is there as long as somebody holds it. */
  ghost predicate Counts(mode: nat, guard: GraphGuard, agents: seq<Agent>, x: nat)
    reads guard
  {
    && guard.ref_count == One(x == 0) + Owed(mode, agents, x)
    && (guard.graph != null <==> One(x == 0) + Owed(mode, agents, x) > 0)
  }

  lemma CountsHolders(mode: nat, guards: seq<GraphGuard>, s: Pool, x: nat)
    requires mode <= 2 && Inv(mode, s) && Mirror(guards, s.guards) && x < |guards|
    ensures Counts(mode, guards[x], s.agents, x)
  {
    hide Owed, AgentOk, Lineage;
    assert guards[x].State() == s.guards[x] && GuardOk(mode, x, s.guards[x]);
  }

  // --- the moves of one execution ---

  /** An agent, the children it has spawned since its execution began, and all guards. */
  datatype Local = Local(agent: Agent, kids: seq<Agent>, guards: seq<Guard>)

  ghost predicate MovesTo(g: Adjacency, cfg: Config, mode: nat, i: nat, l: Local, l': Local, kids: seq<Agent>, op: Op) {
    && !l.agent.phase.Resting? && l.agent.guard < |l.guards|
    && Moves(g, cfg, mode, |l.guards|, l.agent, i, false, l'.agent, kids, op)
    && l'.kids == l.kids + kids && l'.guards == Apply(op, l.guards, l.agent.guard)
  }

  ghost predicate LocalStep(g: Adjacency, cfg: Config, mode: nat, i: nat, l: Local, l': Local) {
    exists kids, op :: MovesTo(g, cfg, mode, i, l, l', kids, op)
  }

  /** Some moves of agent i lead from l to l'. */
  ghost predicate Leads(g: Adjacency, cfg: Config, mode: nat, i: nat, l: Local, l': Local, path: seq<Local>) {
    && path != [] && path[0] == l && path[|path| - 1] == l'
    && forall j :: 0 <= j < |path| - 1 ==> LocalStep(g, cfg, mode, i, path[j], path[j + 1])
  }

  ghost predicate Reaches(g: Adjacency, cfg: Config, mode: nat, i: nat, l: Local, l': Local) {
    exists path :: Leads(g, cfg, mode, i, l, l', path)
  }

  lemma NoMove(g: Adjacency, cfg: Config, mode: nat, i: nat, l: Local)
    ensures Reaches(g, cfg, mode, i, l, l)
  {
    assert Leads(g, cfg, mode, i, l, l, [l]);
  }

  lemma OneMore(g: Adjacency, cfg: Config, mode: nat, i: nat, l: Local, m: Local, l': Local, kids: seq<Agent>, op: Op)
    requires Reaches(g, cfg, mode, i, l, m) && MovesTo(g, cfg, mode, i, m, l', kids, op)
    ensures Reaches(g, cfg, mode, i, l, l')
  {
    hide MovesTo;
    var path :| Leads(g, cfg, mode, i, l, m, path);
    assert LocalStep(g, cfg, mode, i, m, l');
    assert Leads(g, cfg, mode, i, l, l', path + [l']);
  }

  lemma Onwards(g: Adjacency, cfg: Config, mode: nat, i: nat, l: Local, m: Local, l': Local)
    requires Reaches(g, cfg, mode, i, l, m) && Reaches(g, cfg, mode, i, m, l')
    ensures Reaches(g, cfg, mode, i, l, l')
  {
    hide LocalStep;
    var p :| Leads(g, cfg, mode, i, l, m, p);
    var q :| Leads(g, cfg, mode, i, m, l', q);
    var path := p + q[1..];
    forall j | 0 <= j < |path| - 1 ensures LocalStep(g, cfg, mode, i, path[j], path[j + 1]) {
      if j >= |p| - 1 {
        assert path[j] == q[j - |p| + 1] && path[j + 1] == q[j - |p| + 2];
        assert LocalStep(g, cfg, mode, i, q[j - |p| + 1], q[j - |p| + 1 + 1]);
      } else {
        assert LocalStep(g, cfg, mode, i, p[j], p[j + 1]);
      }
    }
    assert Leads(g, cfg, mode, i, l, l', path);
  }

  /** A task without vertices left to add ends at once; a child in mode 2 gives back its guard. */
  lemma EndMove(g: Adjacency, cfg: Config, mode: nat, i: nat, a: Agent, guards: seq<Guard>)
    requires a.phase.Waiting? && a.duty.New? && a.duty.P == {} && a.guard < |guards|
    ensures Reaches(g, cfg, mode, i, Local(a, [], guards), Local(
      a.(duty := Done, newGraph := false, phase := Resting(false)), [],
      Apply(if mode == 2 && !IsRoot(a) then Dec else Keep, guards, a.guard)))
  {
    var op := if mode == 2 && !IsRoot(a) then Dec else Keep;
    var l := Local(a, [], guards);
    NoMove(g, cfg, mode, i, l);
    hide Reaches;
    OneMore(g, cfg, mode, i, l, l, Local(
      a.(duty := Done, newGraph := false, phase := Resting(false)), [], Apply(op, guards, a.guard)), [], op);
  }

  /** So does a task that the size limit ends, but it keeps its guard. */
  lemma CutMove(g: Adjacency, cfg: Config, mode: nat, i: nat, a: Agent, guards: seq<Guard>)
    requires a.phase.Waiting? && a.duty.New? && a.duty.P != {} && CutsOff(cfg.limit, |a.duty.R|) && a.guard < |guards|
    ensures Reaches(g, cfg, mode, i, Local(a, [], guards),
      Local(a.(duty := Done, phase := Resting(true)), [], guards))
  {
    var l := Local(a, [], guards);
    NoMove(g, cfg, mode, i, l);
    hide Reaches;
    OneMore(g, cfg, mode, i, l, l, Local(a.(duty := Done, phase := Resting(true)), [], guards), [], Keep);
  }

  /** The guard that a task works with once it has started, and all guards then. */
  function Started(mode: nat, a: Agent, d: Task, guards: seq<Guard>): Agent {
    a.(duty := d, guard := if Creates(mode, a) then |guards| else a.guard, phase := Searching)
  }

  function StartedGuards(mode: nat, a: Agent, guards: seq<Guard>): seq<Guard>
    requires a.guard < |guards|
  {
    if Creates(mode, a) then
      Apply(if mode == 2 && !IsRoot(a) then Dec else Keep, guards + [NewGuard()], a.guard)
    else guards
  }

  lemma EnterMoves(g: Adjacency, cfg: Config, mode: nat, i: nat, a: Agent, d: Task, guards: seq<Guard>)
    requires a.phase.Waiting? && Enters(g, cfg, a.duty, d) && a.guard < |guards|
    ensures Reaches(g, cfg, mode, i, Local(a, [], guards),
      Local(Started(mode, a, d, guards), [], StartedGuards(mode, a, guards)))
  {
    hide Enters;
    var l, l' := Local(a, [], guards), Local(Started(mode, a, d, guards), [], StartedGuards(mode, a, guards));
    assert a.duty.New? && a.duty.P != {} && !CutsOff(cfg.limit, |a.duty.R|) by {
      EntersFacts(g, cfg, a.duty, d);
    }
    NoMove(g, cfg, mode, i, l);
    hide Reaches;
    if Creates(mode, a) {
      var m := Local(a.(duty := d, phase := Switching(|guards|)), [], guards + [NewGuard()]);
      OneMore(g, cfg, mode, i, l, l, m, [], Create);
      OneMore(g, cfg, mode, i, l, m, l', [], if mode == 2 && !IsRoot(a) then Dec else Keep);
    } else {
      OneMore(g, cfg, mode, i, l, l, l', [], Keep);
    }
  }

  lemma EntersFacts(g: Adjacency, cfg: Config, t: Task, loop: Task)
    requires Enters(g, cfg, t, loop)
    ensures t.New? && t.P != {} && !CutsOff(cfg.limit, |t.R|)
  {
  }

  lemma IterationMove(g: Adjacency, cfg: Config, mode: nat, i: nat, a: Agent, e: Effect, guards: seq<Guard>)
    requires a.phase.Searching? && Iterates(g, cfg, a.duty, e) && a.guard < |guards|
    ensures var kids := Spawned(mode, e.spawned, i, a.guard);
            Reaches(g, cfg, mode, i, Local(a, [], guards), Local(
              a.(duty := e.after), kids, Apply(if kids != [] && mode == 2 then Inc else Keep, guards, a.guard)))
  {
    var kids := Spawned(mode, e.spawned, i, a.guard);
    var op := if kids != [] && mode == 2 then Inc else Keep;
    DoneDoesNotIterate(g, cfg, a.duty, e);
    hide Iterates;
    var l, l' := Local(a, [], guards), Local(a.(duty := e.after), kids, Apply(op, guards, a.guard));
    NoMove(g, cfg, mode, i, l);
    hide Reaches;
    assert MovesTo(g, cfg, mode, i, l, l', kids, op);
    OneMore(g, cfg, mode, i, l, l, l', kids, op);
  }

  /** The candidates are used up; in mode 2 the task gives back the guard of its own subgraph. */
  lemma FinishMove(g: Adjacency, cfg: Config, mode: nat, i: nat, a: Agent, kids: seq<Agent>, guards: seq<Guard>)
    requires a.phase.Searching? && a.duty == Done && a.guard < |guards|
    ensures Reaches(g, cfg, mode, i, Local(a, kids, guards), Local(
      a.(phase := Resting(false)), kids, Apply(if mode == 2 && a.newGraph then Dec else Keep, guards, a.guard)))
  {
    var op := if mode == 2 && a.newGraph then Dec else Keep;
    var l := Local(a, kids, guards);
    NoMove(g, cfg, mode, i, l);
    hide Reaches;
    OneMore(g, cfg, mode, i, l, l, Local(a.(phase := Resting(false)), kids, Apply(op, guards, a.guard)), [], op);
  }

  lemma ReachesParent(g: Adjacency, cfg: Config, mode: nat, i: nat, l: Local, l': Local)
    requires Reaches(g, cfg, mode, i, l, l')
    ensures l'.agent.parent == l.agent.parent
  {
    hide LocalStep;
    var path: seq<Local> :| Leads(g, cfg, mode, i, l, l', path);
    for k := 1 to |path|
      invariant path[k - 1].agent.parent == l.agent.parent
    {
      assert LocalStep(g, cfg, mode, i, path[k - 1], path[k - 1 + 1]);
      LocalStepParent(g, cfg, mode, i, path[k - 1], path[k]);
    }
  }

  lemma LocalStepParent(g: Adjacency, cfg: Config, mode: nat, i: nat, l: Local, l': Local)
    requires LocalStep(g, cfg, mode, i, l, l')
    ensures l'.agent.parent == l.agent.parent
  {
    hide Enters, Iterates;
  }

  // --- the execution within the pool ---

  /** The pool s while its agent i is as l says. */
  ghost function PoolAt(s: Pool, i: nat, l: Local): Pool
    requires i < |s.agents|
  {
    Pool(s.agents[i := l.agent] + l.kids, l.guards)
  }

  lemma StepWithin(g: Adjacency, cfg: Config, mode: nat, s: Pool, i: nat, l: Local, l': Local)
    requires i < |s.agents| && LocalStep(g, cfg, mode, i, l, l')
    ensures Next(g, cfg, mode, PoolAt(s, i, l), PoolAt(s, i, l'))
  {
    var kids, op :| MovesTo(g, cfg, mode, i, l, l', kids, op);
    hide Enters, Iterates;
    var p, p' := PoolAt(s, i, l), PoolAt(s, i, l');
    assert p'.agents == p.agents[i := p'.agents[i]] + kids;
    assert Step(g, cfg, mode, p, p', i, kids, op);
  }

  /** A run of the protocol goes on with the moves of one execution. */
  lemma RunWithin(g: Adjacency, cfg: Config, mode: nat, vs: seq<Vertex>, run: seq<Pool>, i: nat,
        l: Local, l': Local)
    returns (run': seq<Pool>)
    requires Simple(g) && ValidOrder(g, cfg.order) && IsRun(g, cfg, mode, vs, run) && i < |run[|run| - 1].agents|
    requires l == Local(run[|run| - 1].agents[i], [], run[|run| - 1].guards) && Reaches(g, cfg, mode, i, l, l')
    ensures IsRun(g, cfg, mode, vs, run') && run <= run' && run'[|run'| - 1] == PoolAt(run[|run| - 1], i, l')
  {
    hide Init, LocalStep, Simple, ValidOrder, Next;
    var s := run[|run| - 1];
    var path :| Leads(g, cfg, mode, i, l, l', path);
    assert PoolAt(s, i, l) == s;
    run' := run;
    for k := 1 to |path|
      invariant IsRun(g, cfg, mode, vs, run') && run <= run' && run'[|run'| - 1] == PoolAt(s, i, path[k - 1])
    {
      assert LocalStep(g, cfg, mode, i, path[k - 1], path[k - 1 + 1]);
      StepWithin(g, cfg, mode, s, i, path[k - 1], path[k]);
      run' := run' + [PoolAt(s, i, path[k])];
    }
  }

  /** A continuation, whose children have all finished, is one more step. */
  lemma ContinuationStep(g: Adjacency, cfg: Config, mode: nat, vs: seq<Vertex>, run: seq<Pool>, s: Pool, i: nat)
    returns (s': Pool)
    requires Simple(g) && ValidOrder(g, cfg.order) && IsRun(g, cfg, mode, vs, run) && s == run[|run| - 1]
    requires i < |s.agents| && s.agents[i].phase.Resting? && s.agents[i].guard < |s.guards| && Quiet(s.agents, i)
    ensures s'.agents == s.agents[i := s.agents[i].(phase := Finished(s.agents[i].phase.cut))]
    ensures s'.guards == Apply(if mode == 1 && s.agents[i].newGraph then Dec else Keep, s.guards, s.agents[i].guard)
    ensures IsRun(g, cfg, mode, vs, run + [s'])
  {
    hide Init, Simple, ValidOrder, Quiet;
    var a, op := s.agents[i], if mode == 1 && s.agents[i].newGraph then Dec else Keep;
    s' := Pool(s.agents[i := a.(phase := Finished(a.phase.cut))], Apply(op, s.guards, a.guard));
    assert s'.agents == s.agents[i := s'.agents[i]] + [];
    assert Step(g, cfg, mode, s, s', i, [], op);
  }
}
