/**
 The pool of search tasks as a state machine. One step is one `execute()` of any task that is not
 done, by any worker. The two halves of `execute()` on one task are specified here as relations
 (`Executes`, `Iterates`, `Descends`); `Search.dfy` proves that the imperative task obeys them.
 */
module TaskPool {
  import opened FiniteSets
  import opened Cliques
  import opened Roots
  import opened LeafBound
  import opened Powers

  /** `--max-clq`, `--thresh` and `--ord`. */
  datatype Config = Config(limit: int, threshold: int, order: Order)

  /** A task before its first execution, between two executions, and after its last candidate. */
  datatype Task =
    | New(R: set<Vertex>, P: set<Vertex>, X: set<Vertex>)
    | Looping(R: set<Vertex>, P: set<Vertex>, X: set<Vertex>, K: set<Vertex>)
    | Done

  /** What one execution does: the task afterwards, its new child if any, the cliques it stores, and its leaf calls. */
  datatype Effect = Effect(after: Task, spawned: seq<Task>, log: seq<set<Vertex>>, leaves: nat)

  // --- one execution of one task ---

  ghost function Score(g: Adjacency, P: set<Vertex>, u: Vertex): nat {
    if u in g then |P * g[u]| else 0
  }

  /** A pivot with the most neighbours in P, hence the fewest candidates P - N(u). */
  ghost predicate BestPivot(g: Adjacency, P: set<Vertex>, X: set<Vertex>, u: Vertex) {
    && u in P + X && P + X <= g.Keys
    && forall w :: w in P + X ==> Score(g, P, w) <= Score(g, P, u)
  }

  /** The call on a child: sequential below the threshold, a child task otherwise. */
  ghost predicate Descends(g: Adjacency, cfg: Config, R: set<Vertex>, P: set<Vertex>, X: set<Vertex>, e: Effect) {
    if |P| + |X| < cfg.threshold then
      && e.spawned == []
      && multiset(e.log) == multiset(Below(g, cfg.limit, R, P))
      && |e.log| <= e.leaves <= MaxLeaves(|P|)
    else
      e.spawned == [New(R, P, X)] && e.log == [] && e.leaves == 0
  }

  /** One candidate v: descend on it, and move it from P to X. */
  ghost predicate IteratesOn(g: Adjacency, cfg: Config, t: Task, v: Vertex, e: Effect) {
    && t.Looping? && v in t.K && v in g
    && e.after == (if t.K == {v} then Done else Looping(t.R, t.P - {v}, t.X + {v}, t.K - {v}))
    && Descends(g, cfg, t.R + {v}, t.P * g[v], t.X * g[v], e)
  }

  ghost predicate Iterates(g: Adjacency, cfg: Config, t: Task, e: Effect) {
    exists v :: IteratesOn(g, cfg, t, v, e)
  }

  ghost predicate StartsAt(g: Adjacency, cfg: Config, t: Task, u: Vertex, e: Effect) {
    && t.New? && u in g && BestPivot(g, t.P, t.X, u)
    && var K := t.P - g[u];
       if K == {} then e == Effect(Done, [], [], 1) else Iterates(g, cfg, Looping(t.R, t.P, t.X, K), e)
  }

  ghost predicate Executes(g: Adjacency, cfg: Config, t: Task, e: Effect) {
    match t
    case New(R, P, X) =>
      if P == {} then e == Effect(Done, [], if X == {} then [R] else [], 1)
      else if CutsOff(cfg.limit, |R|) then e == Effect(Done, [], [], 1)
      else exists u :: StartsAt(g, cfg, t, u, e)
    case Looping(_, _, _, _) => Iterates(g, cfg, t, e)
    case Done => false
  }

  /**
   The two halves of a first execution: the pivot u leaves the candidates P - N(u), if any, and the
   first of them is iterated on.
   */
  ghost function Entered(g: Adjacency, t: Task, u: Vertex): Task
    requires t.New? && u in g
  {
    if t.P - g[u] == {} then Done else Looping(t.R, t.P, t.X, t.P - g[u])
  }

  ghost predicate Enters(g: Adjacency, cfg: Config, t: Task, loop: Task) {
    && t.New? && t.P != {} && !CutsOff(cfg.limit, |t.R|)
    && exists u :: u in g && BestPivot(g, t.P, t.X, u) && loop == Entered(g, t, u)
  }

  lemma EndExecutes(g: Adjacency, cfg: Config, d: Task)
    requires d.New? && (d.P == {} || CutsOff(cfg.limit, |d.R|))
    ensures Executes(g, cfg, d, Effect(Done, [], if d.P == {} && d.X == {} then [d.R] else [], 1))
  {
  }

  lemma EnteredOrLooping(g: Adjacency, cfg: Config, d: Task, loop: Task, e: Effect)
    requires (d.New? && Enters(g, cfg, d, loop)) || (d.Looping? && d == loop)
    requires Iterates(g, cfg, loop, e)
    ensures Executes(g, cfg, d, e)
  {
    hide BestPivot, Iterates, IteratesOn;
    if d.Looping? {
      return;
    }
    var u :| u in g && BestPivot(g, d.P, d.X, u) && loop == Entered(g, d, u);
    DoneDoesNotIterate(g, cfg, loop, e);
    assert StartsAt(g, cfg, d, u, e);
  }

  lemma DoneDoesNotIterate(g: Adjacency, cfg: Config, t: Task, e: Effect)
    requires Iterates(g, cfg, t, e)
    ensures t.Looping?
  {
  }

  // --- what a task is responsible for ---

  ghost predicate HasPivot(g: Adjacency, R: set<Vertex>, P: set<Vertex>, K: set<Vertex>, u: Vertex) {
    u in Common(g, R) && K == P - g[u]
  }

  ghost predicate TaskOk(g: Adjacency, limit: int, t: Task) {
    match t
    case New(R, P, X) => Branch(g, limit, R, P, X)
    case Looping(R, P, X, K) =>
      && Branch(g, limit, R, P, X) && K != {} && !CutsOff(limit, |R|)
      && exists u :: HasPivot(g, R, P, K, u)
    case Done => true
  }

  ghost function Target(g: Adjacency, limit: int, t: Task): Family {
    match t
    case New(R, P, X) => Below(g, limit, R, P)
    case Looping(R, P, X, K) => Below(g, limit, R, P)
    case Done => {}
  }

  /** Executions this task and its descendants can still need. */
  ghost function Weight(t: Task): nat {
    match t
    case New(_, P, _) => (Pow2Positive(|P|); 2 * Pow2(|P|) - 1)
    case Looping(_, P, _, _) => (Pow2Positive(|P|); 2 * Pow2(|P|) - 2)
    case Done => 0
  }

  /** The size of the largest candidate sub-branch. */
  ghost function Width(g: Adjacency, P: set<Vertex>, K: set<Vertex>): nat {
    if K == {} then 0 else
      var v := Widest(g, P, K);
      Score(g, P, v)
  }

  ghost function Widest(g: Adjacency, P: set<Vertex>, K: set<Vertex>): (v: Vertex)
    requires K != {}
    ensures v in K
    ensures forall w :: w in K ==> Score(g, P, w) <= Score(g, P, v)
    decreases K
  {
    var c :| c in K;
    if K == {c} then c else
      assert K - {c} != {};
      var u := Widest(g, P, K - {c});
      assert forall w :: w in K ==> w == c || w in K - {c};
      if Score(g, P, c) >= Score(g, P, u) then c else u
  }

  /** Leaf calls this task and its descendants can still make. */
  ghost function Budget(g: Adjacency, t: Task): nat {
    match t
    case New(_, P, _) => MaxLeaves(|P|)
    case Looping(_, P, _, K) => |K| * MaxLeaves(Width(g, P, K))
    case Done => 0
  }

  // --- one execution conserves responsibility, lowers the weight and stays in budget ---

  ghost predicate Accounts(g: Adjacency, limit: int, t: Task, e: Effect) {
    && TaskOk(g, limit, e.after)
    && (forall c :: c in e.spawned ==> TaskOk(g, limit, c))
    && multiset(Target(g, limit, t)) ==
        multiset(e.log) + multiset(Target(g, limit, e.after)) + Targets(g, limit, e.spawned)
    && Weight(e.after) + Weights(e.spawned) < Weight(t)
    && e.leaves + Budget(g, e.after) + Budgets(g, e.spawned) <= Budget(g, t)
    && |e.log| <= e.leaves
  }

  ghost function Targets(g: Adjacency, limit: int, ts: seq<Task>): multiset<set<Vertex>> {
    if ts == [] then multiset{} else Targets(g, limit, ts[..|ts| - 1]) + multiset(Target(g, limit, ts[|ts| - 1]))
  }

  ghost function Weights(ts: seq<Task>): nat {
    if ts == [] then 0 else Weights(ts[..|ts| - 1]) + Weight(ts[|ts| - 1])
  }

  ghost function Budgets(g: Adjacency, ts: seq<Task>): nat {
    if ts == [] then 0 else Budgets(g, ts[..|ts| - 1]) + Budget(g, ts[|ts| - 1])
  }

  lemma SingleTask(g: Adjacency, limit: int, t: Task)
    ensures Targets(g, limit, [t]) == multiset(Target(g, limit, t))
    ensures Weights([t]) == Weight(t) && Budgets(g, [t]) == Budget(g, t)
  {
    assert [t][..0] == [];
  }

  lemma DisjointUnion(A: Family, B: Family)
    requires A !! B
    ensures multiset(A + B) == multiset(A) + multiset(B)
  {
  }

  /** The candidate's child takes over its share of the responsibility. */
  lemma DescendsAccounts(g: Adjacency, cfg: Config, R: set<Vertex>, P: set<Vertex>, X: set<Vertex>, e: Effect)
    requires Simple(g) && Branch(g, cfg.limit, R, P, X) && Descends(g, cfg, R, P, X, e)
    ensures forall c :: c in e.spawned ==> TaskOk(g, cfg.limit, c)
    ensures multiset(Below(g, cfg.limit, R, P)) == multiset(e.log) + Targets(g, cfg.limit, e.spawned)
    ensures Weights(e.spawned) <= 2 * Pow2(|P|) - 1
    ensures e.leaves + Budgets(g, e.spawned) <= MaxLeaves(|P|)
    ensures |e.log| <= e.leaves
  {
    hide MaxLeaves, Below, Branch;
    Pow2Positive(|P|);
    if |P| + |X| >= cfg.threshold {
      SingleTask(g, cfg.limit, New(R, P, X));
    }
  }

  lemma ChildIsSmaller(g: Adjacency, P: set<Vertex>, v: Vertex)
    requires v in P && v in g && v !in g[v]
    ensures |P - {v}| == |P| - 1 && |P * g[v]| <= |P| - 1
  {
    SubsetSize(P * g[v], P - {v});
  }

  lemma ScoreMonotone(g: Adjacency, P: set<Vertex>, P': set<Vertex>, v: Vertex)
    requires P' <= P
    ensures Score(g, P', v) <= Score(g, P, v)
  {
    if v in g {
      SubsetSize(P' * g[v], P * g[v]);
    }
  }

  /** The candidate's own share, plus what the remaining candidates may still need. */
  lemma IterationBudget(g: Adjacency, P: set<Vertex>, K: set<Vertex>, v: Vertex)
    requires v in K
    ensures MaxLeaves(Score(g, P, v)) + |K - {v}| * MaxLeaves(Width(g, P - {v}, K - {v}))
        <= |K| * MaxLeaves(Width(g, P, K))
  {
    hide MaxLeaves, Score;
    var K' := K - {v};
    var b, b' := Width(g, P, K), Width(g, P - {v}, K');
    MaxLeavesMonotone(Score(g, P, v), b);
    assert |K'| == |K| - 1;
    if K' != {} {
      var w := Widest(g, P - {v}, K');
      ScoreMonotone(g, P, P - {v}, w);
      MaxLeavesMonotone(b', b);
      ShareBudget(|K'|, MaxLeaves(Score(g, P, v)), MaxLeaves(b'), MaxLeaves(b));
    } else {
      ShareBudget(0, MaxLeaves(Score(g, P, v)), MaxLeaves(b), MaxLeaves(b));
    }
  }

  lemma ShareBudget(k: nat, first: nat, rest: nat, each: nat)
    requires first <= each && rest <= each
    ensures first + k * rest <= (k + 1) * each
  {
    ProductMonotone(k, k, rest, each);
  }

  /** The remaining candidates stay exactly the current P minus the pivot's neighbours, whatever has moved to X. */
  lemma PivotSurvives(g: Adjacency, limit: int, R: set<Vertex>, P: set<Vertex>, K: set<Vertex>, u: Vertex, v: Vertex)
    requires Simple(g) && HasPivot(g, R, P, K, u) && v in K
    ensures HasPivot(g, R, P - {v}, K - {v}, u)
    ensures v in P && (K == {v} ==> Below(g, limit, R, P - {v}) == {})
  {
    assert K - {v} == (P - {v}) - g[u];
    if K == {v} {
      PivotExhausts(g, limit, R, P - {v}, u);
    }
  }

  lemma IterationOk(g: Adjacency, cfg: Config, t: Task, v: Vertex, e: Effect)
    requires Simple(g) && t.Looping? && TaskOk(g, cfg.limit, t) && IteratesOn(g, cfg, t, v, e)
    ensures TaskOk(g, cfg.limit, e.after)
    ensures v in t.P && v !in g[v] && Branch(g, cfg.limit, t.R + {v}, t.P * g[v], t.X * g[v])
    ensures t.K == {v} ==> Below(g, cfg.limit, t.R, t.P - {v}) == {}
  {
    hide Below, Branch, HasPivot, Descends;
    var u :| HasPivot(g, t.R, t.P, t.K, u);
    PivotSurvives(g, cfg.limit, t.R, t.P, t.K, u, v);
    BranchSteps(g, cfg.limit, t.R, t.P, t.X, v);
    if t.K != {v} {
      assert t.K - {v} != {};
    }
  }

  lemma IterationTargets(g: Adjacency, cfg: Config, t: Task, v: Vertex, e: Effect)
    requires Simple(g) && t.Looping? && TaskOk(g, cfg.limit, t) && IteratesOn(g, cfg, t, v, e)
    ensures multiset(Target(g, cfg.limit, t)) ==
        multiset(e.log) + multiset(Target(g, cfg.limit, e.after)) + Targets(g, cfg.limit, e.spawned)
  {
    hide Below, Branch, HasPivot, MaxLeaves, Descends;
    IterationOk(g, cfg, t, v, e);
    BranchSplits(g, cfg.limit, t.R, t.P, t.X, v);
    DisjointUnion(Below(g, cfg.limit, t.R + {v}, t.P * g[v]), Below(g, cfg.limit, t.R, t.P - {v}));
    DescendsAccounts(g, cfg, t.R + {v}, t.P * g[v], t.X * g[v], e);
    assert multiset(Target(g, cfg.limit, e.after)) == multiset(Below(g, cfg.limit, t.R, t.P - {v}));
  }

  lemma IterationMeasures(g: Adjacency, cfg: Config, t: Task, v: Vertex, e: Effect)
    requires Simple(g) && t.Looping? && TaskOk(g, cfg.limit, t) && IteratesOn(g, cfg, t, v, e)
    ensures Weight(e.after) + Weights(e.spawned) < Weight(t)
    ensures e.leaves + Budget(g, e.after) + Budgets(g, e.spawned) <= Budget(g, t)
    ensures (forall c :: c in e.spawned ==> TaskOk(g, cfg.limit, c)) && |e.log| <= e.leaves
  {
    hide Below, Branch, HasPivot, MaxLeaves, Descends, TaskOk;
    IterationOk(g, cfg, t, v, e);
    DescendsAccounts(g, cfg, t.R + {v}, t.P * g[v], t.X * g[v], e);
    ChildIsSmaller(g, t.P, v);
    Pow2Monotone(|t.P * g[v]|, |t.P| - 1);
    Pow2Monotone(1, |t.P|);
    assert Score(g, t.P, v) == |t.P * g[v]|;
    IterationBudget(g, t.P, t.K, v);
    if t.K != {v} {
      assert t.K - {v} != {};
    }
  }

  lemma IterationAccounts(g: Adjacency, cfg: Config, t: Task, v: Vertex, e: Effect)
    requires Simple(g) && t.Looping? && TaskOk(g, cfg.limit, t) && IteratesOn(g, cfg, t, v, e)
    ensures Accounts(g, cfg.limit, t, e)
  {
    IterationOk(g, cfg, t, v, e);
    IterationTargets(g, cfg, t, v, e);
    IterationMeasures(g, cfg, t, v, e);
    hide TaskOk, Target, Targets, Weight, Weights, Budget, Budgets;
  }

  lemma ScoreOfPivot(g: Adjacency, P: set<Vertex>, u: Vertex)
    requires u in g
    ensures |P| == |P - g[u]| + Score(g, P, u)
    ensures P - g[u] != {} ==> |P - g[u]| >= 1
  {
    assert P == (P - g[u]) + P * g[u];
  }

  /** Entering the loop: the pivot leaves at most |P| - |K| of P to each candidate. */
  lemma LoopBudget(g: Adjacency, P: set<Vertex>, X: set<Vertex>, u: Vertex)
    requires BestPivot(g, P, X, u) && P - g[u] != {}
    ensures var K := P - g[u]; |K| * MaxLeaves(Width(g, P, K)) <= MaxLeaves(|P|)
  {
    hide MaxLeaves, Score;
    var K := P - g[u];
    ScoreOfPivot(g, P, u);
    var v := Widest(g, P, K);
    assert v in P + X;
    MaxLeavesMonotone(Width(g, P, K), |P| - |K|);
    ProductMonotone(|K|, |K|, MaxLeaves(Width(g, P, K)), MaxLeaves(|P| - |K|));
    Branching(|K|, |P|);
  }

  lemma StartIsLoop(g: Adjacency, limit: int, R: set<Vertex>, P: set<Vertex>, X: set<Vertex>, u: Vertex)
    requires Simple(g) && Branch(g, limit, R, P, X) && BestPivot(g, P, X, u) && !CutsOff(limit, |R|)
    ensures P - g[u] == {} ==> Below(g, limit, R, P) == {}
    ensures P - g[u] != {} ==> TaskOk(g, limit, Looping(R, P, X, P - g[u]))
  {
    assert u in Common(g, R);
    if P - g[u] == {} {
      PivotExhausts(g, limit, R, P, u);
    } else {
      assert HasPivot(g, R, P, P - g[u], u);
    }
  }

  lemma StartAccounts(g: Adjacency, cfg: Config, t: Task, u: Vertex, e: Effect)
    requires Simple(g) && TaskOk(g, cfg.limit, t) && StartsAt(g, cfg, t, u, e)
    requires t.P != {} && !CutsOff(cfg.limit, |t.R|)
    ensures Accounts(g, cfg.limit, t, e)
  {
    hide Below, BestPivot, MaxLeaves, Branch, HasPivot, Descends, IteratesOn, Width;
    var K := t.P - g[u];
    StartIsLoop(g, cfg.limit, t.R, t.P, t.X, u);
    if K == {} {
      AtLeastOneLeaf(|t.P|);
    } else {
      var loop := Looping(t.R, t.P, t.X, K);
      var v :| IteratesOn(g, cfg, loop, v, e);
      IterationAccounts(g, cfg, loop, v, e);
      LoopBudget(g, t.P, t.X, u);
      assert Target(g, cfg.limit, t) == Target(g, cfg.limit, loop);
    }
  }

  lemma ExecutionAccounts(g: Adjacency, cfg: Config, t: Task, e: Effect)
    requires Simple(g) && TaskOk(g, cfg.limit, t) && Executes(g, cfg, t, e)
    ensures Accounts(g, cfg.limit, t, e)
  {
    hide Below, MaxLeaves, Branch, HasPivot, Descends, IteratesOn, StartsAt, Width;
    if t.Looping? {
      var v :| IteratesOn(g, cfg, t, v, e);
      IterationAccounts(g, cfg, t, v, e);
    } else if t.P == {} {
      LeafFamily(g, cfg.limit, t.R, t.X);
      AtLeastOneLeaf(0);
    } else if CutsOff(cfg.limit, |t.R|) {
      CutOffFamily(g, cfg.limit, t.R, t.P, t.X);
      AtLeastOneLeaf(|t.P|);
    } else {
      var u :| StartsAt(g, cfg, t, u, e);
      StartAccounts(g, cfg, t, u, e);
    }
  }
}
