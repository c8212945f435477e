/**
 Whole runs of the task pool: any schedule over any number of workers reports every maximal clique
 exactly once, in boundedly many executions and leaf calls.
 */
module PoolRuns {
  import opened Cliques
  import opened FiniteSets
  import opened Roots
  import opened LeafBound
  import opened Powers
  import opened Histograms
  import opened TaskPool
  import opened CliqueBound

  /** The tasks, the histogram of each worker, and (for the specification) the stored cliques and leaf calls so far. */
  datatype State = State(tasks: seq<Task>, locals: seq<Histogram>, log: seq<set<Vertex>>, leaves: nat)

  ghost function RootTask(g: Adjacency, ord: Order, v: Vertex): Task
    requires Simple(g) && ValidOrder(g, ord) && v in g
  {
    New({v}, Later(g, ord, v), Earlier(g, ord, v))
  }

  /** One root task per vertex, in any order of the vertices. */
  ghost function RootTasks(g: Adjacency, ord: Order, vs: seq<Vertex>): (ts: seq<Task>)
    requires Simple(g) && ValidOrder(g, ord) && forall i :: 0 <= i < |vs| ==> vs[i] in g
    ensures |ts| == |vs| && forall i :: 0 <= i < |vs| ==> ts[i] == RootTask(g, ord, vs[i])
  {
    if vs == [] then [] else RootTasks(g, ord, vs[..|vs| - 1]) + [RootTask(g, ord, vs[|vs| - 1])]
  }

  ghost predicate Init(g: Adjacency, cfg: Config, vs: seq<Vertex>, s: State)
    requires Simple(g) && ValidOrder(g, cfg.order)
  {
    && Enumerates(vs, g.Keys)
    && s.tasks == RootTasks(g, cfg.order, vs)
    && |s.locals| >= 1 && (forall w :: 0 <= w < |s.locals| ==> s.locals[w] == map[])
    && s.log == [] && s.leaves == 0
  }

  /** Worker w adds the cliques it stored to its own histogram, and lists no other size. */
  ghost predicate Records(h: Histogram, h': Histogram, log: seq<set<Vertex>>) {
    && (forall k: nat :: CountAt(h', k) == CountAt(h, k) + OfSize(log, k))
    && forall k: nat :: k in h' <==> k in h || OfSize(log, k) > 0
  }

  ghost predicate Step(g: Adjacency, cfg: Config, s: State, s': State, i: nat, w: nat, e: Effect) {
    && i < |s.tasks| && Executes(g, cfg, s.tasks[i], e)
    && s'.tasks == s.tasks[i := e.after] + e.spawned
    && w < |s.locals| && |s'.locals| == |s.locals|
    && s'.locals == s.locals[w := s'.locals[w]] && Records(s.locals[w], s'.locals[w], e.log)
    && s'.log == s.log + e.log
    && s'.leaves == s.leaves + e.leaves
  }

  ghost predicate Next(g: Adjacency, cfg: Config, s: State, s': State) {
    exists i, w, e :: Step(g, cfg, s, s', i, w, e)
  }

  ghost predicate IsRun(g: Adjacency, cfg: Config, vs: seq<Vertex>, run: seq<State>)
    requires Simple(g) && ValidOrder(g, cfg.order)
  {
    && run != [] && Init(g, cfg, vs, run[0])
    && forall j :: 0 <= j < |run| - 1 ==> Next(g, cfg, run[j], run[j + 1])
  }

  ghost predicate Quiescent(s: State) {
    forall i :: 0 <= i < |s.tasks| ==> s.tasks[i] == Done
  }

  ghost function Final(run: seq<State>): State
    requires run != []
  {
    run[|run| - 1]
  }

  /** What is stored and what is pending partition the maximal cliques; the histograms describe what is stored. */
  ghost predicate Inv(g: Adjacency, cfg: Config, s: State) {
    && (forall i :: 0 <= i < |s.tasks| ==> TaskOk(g, cfg.limit, s.tasks[i]))
    && multiset(s.log) + Targets(g, cfg.limit, s.tasks) == multiset(AllMaximal(g, cfg.limit))
    && (forall k: nat :: SumAt(s.locals, k) == OfSize(s.log, k))
    && (forall k: nat :: ListedIn(s.locals, k) <==> OfSize(s.log, k) > 0)
    && |s.log| <= s.leaves
  }

  // --- sums over the pool ---

  lemma {:induction false} SumsConcat(g: Adjacency, limit: int, a: seq<Task>, b: seq<Task>)
    ensures Targets(g, limit, a + b) == Targets(g, limit, a) + Targets(g, limit, b)
    ensures Weights(a + b) == Weights(a) + Weights(b)
    ensures Budgets(g, a + b) == Budgets(g, a) + Budgets(g, b)
    decreases |b|
  {
    hide Target, Budget, Weight;
    if b == [] {
      assert a + b == a;
    } else {
      SumsConcat(g, limit, a, b[..|b| - 1]);
      assert (a + b)[..|a + b| - 1] == a + b[..|b| - 1];
    }
  }

  lemma SumsSplit(g: Adjacency, limit: int, ts: seq<Task>, i: nat)
    requires i < |ts|
    ensures Targets(g, limit, ts) ==
        Targets(g, limit, ts[..i]) + multiset(Target(g, limit, ts[i])) + Targets(g, limit, ts[i + 1..])
    ensures Weights(ts) == Weights(ts[..i]) + Weight(ts[i]) + Weights(ts[i + 1..])
    ensures Budgets(g, ts) == Budgets(g, ts[..i]) + Budget(g, ts[i]) + Budgets(g, ts[i + 1..])
  {
    assert ts == (ts[..i] + [ts[i]]) + ts[i + 1..];
    SumsConcat(g, limit, ts[..i] + [ts[i]], ts[i + 1..]);
    SumsConcat(g, limit, ts[..i], [ts[i]]);
    SingleTask(g, limit, ts[i]);
    hide Targets, Weights, Budgets, Target, Weight, Budget;
  }

  /** Replacing one task by what its execution leaves behind. */
  lemma PoolAccounts(g: Adjacency, limit: int, ts: seq<Task>, i: nat, e: Effect)
    requires i < |ts| && Accounts(g, limit, ts[i], e)
    ensures var ts' := ts[i := e.after] + e.spawned;
            && Targets(g, limit, ts) == multiset(e.log) + Targets(g, limit, ts')
            && Weights(ts') < Weights(ts)
            && e.leaves + Budgets(g, ts') <= Budgets(g, ts)
  {
    hide Targets, Weights, Budgets, Target, Weight, Budget;
    var us := ts[i := e.after];
    SumsSplit(g, limit, ts, i);
    SumsSplit(g, limit, us, i);
    assert us[..i] == ts[..i] && us[i + 1..] == ts[i + 1..];
    SumsConcat(g, limit, us, e.spawned);
  }

  lemma {:induction false} SumAtUpdate(hs: seq<Histogram>, w: nat, h: Histogram, k: nat)
    requires w < |hs|
    ensures SumAt(hs[w := h], k) + CountAt(hs[w], k) == SumAt(hs, k) + CountAt(h, k)
    decreases |hs|
  {
    var hs' := hs[w := h];
    if w == |hs| - 1 {
      assert hs'[..|hs| - 1] == hs[..|hs| - 1];
    } else {
      SumAtUpdate(hs[..|hs| - 1], w, h, k);
      assert hs'[..|hs| - 1] == hs[..|hs| - 1][w := h];
    }
  }

  // --- the invariant ---

  lemma EnumeratesPrefix(vs: seq<Vertex>, S: set<Vertex>)
    requires Enumerates(vs, S) && vs != []
    ensures vs[|vs| - 1] in S && Enumerates(vs[..|vs| - 1], S - {vs[|vs| - 1]})
  {
    var v, rest := vs[|vs| - 1], vs[..|vs| - 1];
    forall x | x in S - {v} ensures exists i :: 0 <= i < |rest| && rest[i] == x {
      var i :| 0 <= i < |vs| && vs[i] == x;
      assert rest[i] == x;
    }
  }

  lemma {:induction false} RootTargets(g: Adjacency, limit: int, ord: Order, vs: seq<Vertex>, S: set<Vertex>)
    requires Simple(g) && ValidOrder(g, ord) && Enumerates(vs, S) && S <= g.Keys
    ensures Targets(g, limit, RootTasks(g, ord, vs)) == multiset(RootedIn(g, limit, ord, S))
    ensures forall t :: t in RootTasks(g, ord, vs) ==> TaskOk(g, limit, t)
    decreases |vs|
  {
    hide AllMaximal, Below, Branch, IsLeast, Later, Earlier, ValidOrder, RootedIn;
    if vs == [] {
      NothingRooted(g, limit, ord, S);
    } else {
      EnumeratesPrefix(vs, S);
      var v, rest, S' := vs[|vs| - 1], vs[..|vs| - 1], S - {vs[|vs| - 1]};
      RootTargets(g, limit, ord, rest, S');
      RootIsBranch(g, limit, ord, v);
      OneMoreRoot(g, limit, ord, S', v);
      assert S == S' + {v};
      DisjointUnion(RootedIn(g, limit, ord, S'), Below(g, limit, {v}, Later(g, ord, v)));
      var ts := RootTasks(g, ord, vs);
      assert ts[..|ts| - 1] == RootTasks(g, ord, rest);
    }
  }

  lemma NothingRooted(g: Adjacency, limit: int, ord: Order, S: set<Vertex>)
    requires Simple(g) && ValidOrder(g, ord) && Enumerates([], S)
    ensures RootedIn(g, limit, ord, S) == {}
  {
  }

  lemma NoneListed(hs: seq<Histogram>, k: nat)
    requires forall w :: 0 <= w < |hs| ==> hs[w] == map[]
    ensures !ListedIn(hs, k)
  {
  }

  lemma {:induction false} NoCounts(hs: seq<Histogram>, k: nat)
    requires forall w :: 0 <= w < |hs| ==> hs[w] == map[]
    ensures SumAt(hs, k) == 0 && !ListedIn(hs, k)
    decreases |hs|
  {
    hide ListedIn;
    NoneListed(hs, k);
    if hs != [] {
      NoCounts(hs[..|hs| - 1], k);
    }
  }

  lemma InitInv(g: Adjacency, cfg: Config, vs: seq<Vertex>, s: State)
    requires Simple(g) && ValidOrder(g, cfg.order) && Init(g, cfg, vs, s)
    ensures Inv(g, cfg, s)
  {
    hide AllMaximal, TaskOk, Targets, SumAt, ListedIn, RootedIn, Later, Earlier, Simple, ValidOrder;
    RootTargets(g, cfg.limit, cfg.order, vs, g.Keys);
    AllRooted(g, cfg.limit, cfg.order);
    forall k: nat ensures SumAt(s.locals, k) == 0 && !ListedIn(s.locals, k) {
      NoCounts(s.locals, k);
    }
    assert multiset(s.log) == multiset{};
  }

  lemma StepInv(g: Adjacency, cfg: Config, s: State, s': State, i: nat, w: nat, e: Effect)
    requires Simple(g) && Inv(g, cfg, s) && Step(g, cfg, s, s', i, w, e)
    ensures Inv(g, cfg, s')
    ensures Weights(s'.tasks) < Weights(s.tasks)
    ensures s'.leaves + Budgets(g, s'.tasks) <= s.leaves + Budgets(g, s.tasks)
  {
    hide AllMaximal, TaskOk, Targets, Target, Weights, Budgets, Executes;
    ExecutionAccounts(g, cfg, s.tasks[i], e);
    PoolAccounts(g, cfg.limit, s.tasks, i, e);
    assert multiset(s'.log) == multiset(s.log) + multiset(e.log);
    forall k: nat
      ensures SumAt(s'.locals, k) == OfSize(s'.log, k) && (ListedIn(s'.locals, k) <==> OfSize(s'.log, k) > 0)
    {
      OfSizeConcat(s.log, e.log, k);
      SumAtUpdate(s.locals, w, s'.locals[w], k);
      ListedUpdate(s.locals, w, s'.locals[w], e.log, k);
    }
  }

  lemma ListedUpdate(hs: seq<Histogram>, w: nat, h: Histogram, log: seq<set<Vertex>>, k: nat)
    requires w < |hs| && Records(hs[w], h, log)
    ensures ListedIn(hs[w := h], k) <==> ListedIn(hs, k) || OfSize(log, k) > 0
  {
    var hs' := hs[w := h];
    if i :| 0 <= i < |hs| && k in hs[i] {
      assert k in hs'[i];
    }
    if OfSize(log, k) > 0 {
      assert k in hs'[w];
    }
    if i :| 0 <= i < |hs'| && k in hs'[i] {
      assert i == w || k in hs[i];
    }
  }

  // --- theorems about whole runs ---

  /** The state after j executions, of any schedule. */
  lemma {:induction false} RunInv(g: Adjacency, cfg: Config, vs: seq<Vertex>, run: seq<State>, j: nat)
    requires Simple(g) && ValidOrder(g, cfg.order) && IsRun(g, cfg, vs, run) && j < |run|
    ensures Inv(g, cfg, run[j])
    ensures j + Weights(run[j].tasks) <= Weights(run[0].tasks)
    ensures run[j].leaves + Budgets(g, run[j].tasks) <= Budgets(g, run[0].tasks)
    decreases j
  {
    hide Inv, Weights, Budgets, Step;
    if j == 0 {
      InitInv(g, cfg, vs, run[0]);
    } else {
      RunInv(g, cfg, vs, run, j - 1);
      assert Next(g, cfg, run[j - 1], run[j - 1 + 1]);
      var i, w, e :| Step(g, cfg, run[j - 1], run[j], i, w, e);
      StepInv(g, cfg, run[j - 1], run[j], i, w, e);
    }
  }

  lemma {:induction false} QuiescentTargets(g: Adjacency, limit: int, ts: seq<Task>)
    requires forall i :: 0 <= i < |ts| ==> ts[i] == Done
    ensures Targets(g, limit, ts) == multiset{}
    decreases |ts|
  {
    if ts != [] {
      QuiescentTargets(g, limit, ts[..|ts| - 1]);
    }
  }

  /**
   Exactly once: a run that has come to rest has stored every maximal clique within the limit, each
   once, and its merged histogram counts them by size.
   */
  lemma ExactlyOnce(g: Adjacency, cfg: Config, vs: seq<Vertex>, run: seq<State>)
    requires Simple(g) && ValidOrder(g, cfg.order) && IsRun(g, cfg, vs, run) && Quiescent(Final(run))
    ensures var s := Final(run);
            && multiset(s.log) == multiset(AllMaximal(g, cfg.limit))
            && (forall k: nat :: SumAt(s.locals, k) == |SizeClass(AllMaximal(g, cfg.limit), k)|)
            && forall k: nat :: ListedIn(s.locals, k) <==> SizeClass(AllMaximal(g, cfg.limit), k) != {}
  {
    hide AllMaximal, TaskOk, Targets, SizeClass;
    var s := Final(run);
    RunInv(g, cfg, vs, run, |run| - 1);
    QuiescentTargets(g, cfg.limit, s.tasks);
    forall k: nat
      ensures SumAt(s.locals, k) == OfSize(s.log, k) == |SizeClass(AllMaximal(g, cfg.limit), k)|
    {
      OnceEachCounts(s.log, AllMaximal(g, cfg.limit), k);
    }
  }

  /** Safety at every moment: nothing is stored twice, and nothing but maximal cliques. */
  lemma NothingElseStored(g: Adjacency, cfg: Config, vs: seq<Vertex>, run: seq<State>, j: nat)
    requires Simple(g) && ValidOrder(g, cfg.order) && IsRun(g, cfg, vs, run) && j < |run|
    ensures multiset(run[j].log) <= multiset(AllMaximal(g, cfg.limit))
  {
    RunInv(g, cfg, vs, run, j);
  }

  /** The result does not depend on the schedule, the workers, the threshold or the vertex order. */
  lemma ConfigurationIndependent(
      g: Adjacency, cfg: Config, vs: seq<Vertex>, run: seq<State>, cfg': Config, vs': seq<Vertex>, run': seq<State>)
    requires Simple(g) && ValidOrder(g, cfg.order) && ValidOrder(g, cfg'.order) && cfg.limit == cfg'.limit
    requires IsRun(g, cfg, vs, run) && Quiescent(Final(run))
    requires IsRun(g, cfg', vs', run') && Quiescent(Final(run'))
    ensures multiset(Final(run).log) == multiset(Final(run').log)
    ensures forall k: nat :: SumAt(Final(run).locals, k) == SumAt(Final(run').locals, k)
  {
    hide AllMaximal, IsRun, Quiescent, SizeClass, SumAt;
    ExactlyOnce(g, cfg, vs, run);
    ExactlyOnce(g, cfg', vs', run');
  }

  // --- progress and termination ---

  lemma DescendExists(g: Adjacency, cfg: Config, R: set<Vertex>, P: set<Vertex>, X: set<Vertex>, after: Task)
    returns (e: Effect)
    requires Simple(g) && Branch(g, cfg.limit, R, P, X)
    ensures e.after == after && Descends(g, cfg, R, P, X, e)
  {
    hide Below, Branch, MaxLeaves;
    if |P| + |X| < cfg.threshold {
      var log, leaves := ListBranch(g, cfg.limit, R, P, X);
      e := Effect(after, [], log, leaves);
    } else {
      e := Effect(after, [New(R, P, X)], [], 0);
    }
  }

  lemma IterationExists(g: Adjacency, cfg: Config, t: Task) returns (e: Effect)
    requires Simple(g) && t.Looping? && TaskOk(g, cfg.limit, t)
    ensures Iterates(g, cfg, t, e)
  {
    hide Below, Branch, HasPivot, Descends;
    var u :| HasPivot(g, t.R, t.P, t.K, u);
    var v :| v in t.K;
    PivotSurvives(g, cfg.limit, t.R, t.P, t.K, u, v);
    BranchSteps(g, cfg.limit, t.R, t.P, t.X, v);
    e := DescendExists(g, cfg, t.R + {v}, t.P * g[v], t.X * g[v],
                       if t.K == {v} then Done else Looping(t.R, t.P - {v}, t.X + {v}, t.K - {v}));
    assert IteratesOn(g, cfg, t, v, e);
  }

  lemma ExecutionExists(g: Adjacency, cfg: Config, t: Task) returns (e: Effect)
    requires Simple(g) && t != Done && TaskOk(g, cfg.limit, t)
    ensures Executes(g, cfg, t, e)
  {
    hide Below, Branch, BestPivot, HasPivot, Descends, Iterates;
    if t.Looping? {
      e := IterationExists(g, cfg, t);
    } else if t.P == {} {
      e := Effect(Done, [], if t.X == {} then [t.R] else [], 1);
    } else if CutsOff(cfg.limit, |t.R|) {
      e := Effect(Done, [], [], 1);
    } else {
      BranchInGraph(g, cfg.limit, t.R, t.P, t.X);
      var u := PivotExists(g, t.P, t.X);
      PivotInGraph(g, t.P, t.X, u);
      StartIsLoop(g, cfg.limit, t.R, t.P, t.X, u);
      if t.P - g[u] == {} {
        e := Effect(Done, [], [], 1);
      } else {
        e := IterationExists(g, cfg, Looping(t.R, t.P, t.X, t.P - g[u]));
      }
      assert StartsAt(g, cfg, t, u, e);
    }
  }

  lemma {:induction false} RecordExists(h: Histogram, log: seq<set<Vertex>>) returns (h': Histogram)
    ensures Records(h, h', log)
    decreases |log|
  {
    h' := h;
    if log != [] {
      h' := RecordExists(h, log[..|log| - 1]);
      var size := |log[|log| - 1]|;
      h' := h'[size := CountAt(h', size) + 1];
    }
  }

  /** No deadlock: whichever pending task i and worker w the scheduler picks, it can execute. */
  lemma Progress(g: Adjacency, cfg: Config, s: State, i: nat, w: nat) returns (s': State)
    requires Simple(g) && Inv(g, cfg, s) && i < |s.tasks| && s.tasks[i] != Done && w < |s.locals|
    ensures Next(g, cfg, s, s')
  {
    hide TaskOk, AllMaximal, Targets, Executes, Records;
    var e := ExecutionExists(g, cfg, s.tasks[i]);
    var h := RecordExists(s.locals[w], e.log);
    s' := State(s.tasks[i := e.after] + e.spawned, s.locals[w := h], s.log + e.log, s.leaves + e.leaves);
    assert Step(g, cfg, s, s', i, w, e);
  }

  lemma {:induction false} WorkersStay(g: Adjacency, cfg: Config, vs: seq<Vertex>, run: seq<State>, j: nat)
    requires Simple(g) && ValidOrder(g, cfg.order) && IsRun(g, cfg, vs, run) && j < |run|
    ensures |run[j].locals| >= 1
    decreases j
  {
    hide Executes, RootTasks;
    if j > 0 {
      WorkersStay(g, cfg, vs, run, j - 1);
      assert Next(g, cfg, run[j - 1], run[j - 1 + 1]);
    }
  }

  /** Termination, and no way to get stuck: every run extends to one that has come to rest. */
  lemma {:induction false} Completes(g: Adjacency, cfg: Config, vs: seq<Vertex>, run: seq<State>)
    returns (full: seq<State>)
    requires Simple(g) && ValidOrder(g, cfg.order) && IsRun(g, cfg, vs, run)
    ensures IsRun(g, cfg, vs, full) && run <= full && Quiescent(Final(full))
    decreases Weights(Final(run).tasks)
  {
    hide Init, Step, Inv, Weights;
    var s := Final(run);
    if Quiescent(s) {
      full := run;
    } else {
      var i :| 0 <= i < |s.tasks| && s.tasks[i] != Done;
      RunInv(g, cfg, vs, run, |run| - 1);
      WorkersStay(g, cfg, vs, run, |run| - 1);
      var s' := Progress(g, cfg, s, i, 0);
      var i', w', e' :| Step(g, cfg, s, s', i', w', e');
      StepInv(g, cfg, s, s', i', w', e');
      assert (run + [s'])[..|run|] == run;
      full := Completes(g, cfg, vs, run + [s']);
    }
  }

  // --- how long a run is ---

  lemma {:induction false} RootMeasures(g: Adjacency, ord: Order, vs: seq<Vertex>, d: nat)
    requires Simple(g) && ValidOrder(g, ord) && LaterAtMost(g, ord, d)
    requires forall i :: 0 <= i < |vs| ==> vs[i] in g
    ensures Weights(RootTasks(g, ord, vs)) <= |vs| * (2 * Pow2(d) - 1)
    ensures Budgets(g, RootTasks(g, ord, vs)) <= |vs| * MaxLeaves(d)
    decreases |vs|
  {
    hide MaxLeaves, Later, ValidOrder;
    if vs != [] {
      var n, v, rest := |vs| - 1, vs[|vs| - 1], vs[..|vs| - 1];
      RootMeasures(g, ord, rest, d);
      Pow2Monotone(|Later(g, ord, v)|, d);
      MaxLeavesMonotone(|Later(g, ord, v)|, d);
      var ts := RootTasks(g, ord, vs);
      assert ts[..|ts| - 1] == RootTasks(g, ord, rest);
      assert ts[|ts| - 1] == RootTask(g, ord, v);
      Distribute(n, 2 * Pow2(d) - 1);
      Distribute(n, MaxLeaves(d));
    }
  }

  lemma Distribute(n: nat, a: nat)
    ensures (n + 1) * a == n * a + a
  {
  }

  /**
   With at most d later neighbours per vertex, any schedule stops within n * (2^(d+1) - 1)
   executions, and makes at most n * m leaf calls with m^3 <= 3^d.
   */
  lemma RunBounds(g: Adjacency, cfg: Config, vs: seq<Vertex>, run: seq<State>, d: nat)
    requires Simple(g) && ValidOrder(g, cfg.order) && IsRun(g, cfg, vs, run) && LaterAtMost(g, cfg.order, d)
    ensures |run| - 1 <= |vs| * (2 * Pow2(d) - 1)
    ensures Final(run).leaves <= |vs| * MaxLeaves(d)
    ensures Cube(MaxLeaves(d)) <= Pow3(d)
  {
    hide Inv, MaxLeaves, Later, LaterAtMost, Next;
    RunInv(g, cfg, vs, run, |run| - 1);
    RootMeasures(g, cfg.order, vs, d);
    MaxLeavesIsFloor(d, 0);
  }

  lemma LargerSquare(a: nat, d: nat)
    requires a > d
    ensures a * a >= (d + 1) * (d + 1)
  {
    assert a * a == (d + 1) * (d + 1) + (a - d - 1) * (a + d + 1);
  }

  /** In the degree order, d may be the square root of the sum of all degrees. */
  lemma DegreeOrderBounds(g: Adjacency, cfg: Config, vs: seq<Vertex>, run: seq<State>, d: nat)
    requires Simple(g) && cfg.order == ByDegree && IsRun(g, cfg, vs, run)
    requires DegreeSum(g, g.Keys) < (d + 1) * (d + 1)
    ensures |run| - 1 <= |vs| * (2 * Pow2(d) - 1)
    ensures Final(run).leaves <= |vs| * MaxLeaves(d)
  {
    hide MaxLeaves, Later, Next, DegreeSum, Simple, Init;
    forall v | v in g ensures |Later(g, cfg.order, v)| <= d {
      FewLaterByDegree(g, v);
      if |Later(g, cfg.order, v)| > d {
        LargerSquare(|Later(g, cfg.order, v)|, d);
      }
    }
    RunBounds(g, cfg, vs, run, d);
  }

  /** A graph with n vertices and such an order has at most n * m maximal cliques, m^3 <= 3^d. */
  lemma CliquesOfGraph(g: Adjacency, cfg: Config, vs: seq<Vertex>, d: nat)
    requires Simple(g) && ValidOrder(g, cfg.order) && LaterAtMost(g, cfg.order, d) && Enumerates(vs, g.Keys)
    ensures |AllMaximal(g, cfg.limit)| <= |vs| * MaxLeaves(d)
  {
    hide AllMaximal, MaxLeaves, Later, LaterAtMost, Targets, TaskOk;
    var s := State(RootTasks(g, cfg.order, vs), [map[]], [], 0);
    assert IsRun(g, cfg, vs, [s]);
    var full := Completes(g, cfg, vs, [s]);
    RunBounds(g, cfg, vs, full, d);
    ExactlyOnce(g, cfg, vs, full);
    RunInv(g, cfg, vs, full, |full| - 1);
    assert |multiset(Final(full).log)| == |multiset(AllMaximal(g, cfg.limit))|;
  }
}
