/** The backtracking filter line search of `UnconstrLineSearch`: trial
    points `s + step * d` on the primal variables, per-stage costs and
    constraint violations summed into one filter entry, and the geometric
    reduction of the step until the filter accepts or the minimum step is
    reached. The filter's acceptance test and the evaluation of a trial point
    (which runs the robot model) are parameters of the search. */
module LineSearch {
  import opened Common

  /** The primal variables the trial moves, and the costates it leaves as
      they were in the trial buffer. */
  datatype SplitSolution = SplitSolution(
    q: seq<real>, v: seq<real>, a: seq<real>, u: seq<real>,
    lmd: seq<real>, gmm: seq<real>)

  datatype SplitDirection = SplitDirection(
    dq: seq<real>, dv: seq<real>, da: seq<real>, du: seq<real>)

  /** One (total cost, total violation) pair of the filter. */
  datatype FilterEntry = FilterEntry(cost: real, violation: real)

  /** Per-stage costs (`N + 1` of them) and violations (`N`) of a solution. */
  datatype StageCosts = StageCosts(costs: seq<real>, violations: seq<real>)

  /** `computeCostAndViolation`: the per-stage costs and violations of a
      solution, given the step size used for the barrier terms. */
  type Oracle = (seq<SplitSolution>, real) -> StageCosts

  /** `LineSearchFilter::isAccepted` on the current filter contents. */
  type Acceptance = (seq<FilterEntry>, FilterEntry) -> bool

  ghost predicate OracleFits(evaluate: Oracle, n: nat)
  {
    forall sol, barrier ::
      |evaluate(sol, barrier).costs| == n + 1 && |evaluate(sol, barrier).violations| == n
  }

  /** `x + alpha * y`, componentwise. */
  function Axpy(x: seq<real>, alpha: real, y: seq<real>): (r: seq<real>)
    requires |x| == |y|
    ensures |r| == |x|
  {
    seq(|x|, i requires 0 <= i < |x| => x[i] + alpha * y[i])
  }

  /** A zero step leaves the point where it is. */
  lemma AxpyZero(x: seq<real>, y: seq<real>)
    requires |x| == |y|
    ensures Axpy(x, 0.0, y) == x
  {
    forall i | 0 <= i < |x|
      ensures Axpy(x, 0.0, y)[i] == x[i]
    {
      calc { Axpy(x, 0.0, y)[i]; == x[i] + 0.0 * y[i]; == x[i]; }
    }
  }

  /** Two steps along the same direction add up. */
  lemma AxpyCompose(x: seq<real>, alpha: real, beta: real, y: seq<real>)
    requires |x| == |y|
    ensures Axpy(Axpy(x, alpha, y), beta, y) == Axpy(x, alpha + beta, y)
  {
    forall i | 0 <= i < |x|
      ensures Axpy(Axpy(x, alpha, y), beta, y)[i] == Axpy(x, alpha + beta, y)[i]
    {
      calc {
        Axpy(Axpy(x, alpha, y), beta, y)[i];
        == x[i] + alpha * y[i] + beta * y[i];
        == x[i] + (alpha + beta) * y[i];
      }
    }
  }

  predicate Conforms(s: SplitSolution, d: SplitDirection)
  {
    |s.q| == |d.dq| && |s.v| == |d.dv| && |s.a| == |d.da| && |s.u| == |d.du|
  }

  /** The static `computeSolutionTrial`: `q`, `v`, `a` and `u` of the trial
      buffer `base` become `s + step * d`; nothing else in it is written. */
  function SplitTrial(s: SplitSolution, d: SplitDirection, step: real, base: SplitSolution): (r: SplitSolution)
    requires Conforms(s, d)
    ensures Conforms(r, d)
    ensures r.lmd == base.lmd && r.gmm == base.gmm
  {
    base.(q := Axpy(s.q, step, d.dq), v := Axpy(s.v, step, d.dv),
          a := Axpy(s.a, step, d.da), u := Axpy(s.u, step, d.du))
  }

  /** At step zero the trial's primal variables are those of `s`. */
  lemma SplitTrialAtZero(s: SplitSolution, d: SplitDirection, base: SplitSolution)
    requires Conforms(s, d)
    ensures SplitTrial(s, d, 0.0, base) == s.(lmd := base.lmd, gmm := base.gmm)
  {
    AxpyZero(s.q, d.dq);
    AxpyZero(s.v, d.dv);
    AxpyZero(s.a, d.da);
    AxpyZero(s.u, d.du);
  }

  /** A trial overwrites everything an earlier trial in the same buffer
      wrote: only the last step size matters. */
  lemma SplitTrialOverwrites(s: SplitSolution, d: SplitDirection, first: real, second: real, base: SplitSolution)
    requires Conforms(s, d)
    ensures SplitTrial(s, d, second, SplitTrial(s, d, first, base)) == SplitTrial(s, d, second, base)
  {
  }

  predicate AllConform(s: seq<SplitSolution>, d: seq<SplitDirection>)
  {
    |s| == |d| && forall i | 0 <= i < |s| :: Conforms(s[i], d[i])
  }

  predicate SameCostates(x: seq<SplitSolution>, y: seq<SplitSolution>)
  {
    |x| == |y| && forall i | 0 <= i < |x| :: x[i].lmd == y[i].lmd && x[i].gmm == y[i].gmm
  }

  /** `computeSolutionTrial` on a whole solution: the split trial on every
      stage. */
  function TrialPoint(s: seq<SplitSolution>, d: seq<SplitDirection>, step: real, base: seq<SplitSolution>): (r: seq<SplitSolution>)
    requires AllConform(s, d) && |base| == |s|
    ensures SameCostates(r, base)
  {
    seq(|s|, i requires 0 <= i < |s| => SplitTrial(s[i], d[i], step, base[i]))
  }

  /** The trial point does not depend on what the buffer held beyond its
      costates. */
  lemma TrialPointOnlyKeepsCostates(s: seq<SplitSolution>, d: seq<SplitDirection>, step: real,
                                    base: seq<SplitSolution>, other: seq<SplitSolution>)
    requires AllConform(s, d) && |base| == |s| && SameCostates(base, other)
    ensures TrialPoint(s, d, step, base) == TrialPoint(s, d, step, other)
  {
    assert forall i | 0 <= i < |s| :: TrialPoint(s, d, step, base)[i] == TrialPoint(s, d, step, other)[i];
  }

  /** The filter entry of a solution: its summed costs and violations. */
  function Evaluation(evaluate: Oracle, sol: seq<SplitSolution>, barrier: real): FilterEntry
  {
    FilterEntry(Sum(evaluate(sol, barrier).costs), Sum(evaluate(sol, barrier).violations))
  }

  /** The filter a search starts from: the current solution's entry is added
      first when the filter is empty. */
  function InitialFilter(filter: seq<FilterEntry>, s: seq<SplitSolution>, evaluate: Oracle): (f: seq<FilterEntry>)
    ensures |f| > 0
    ensures |filter| > 0 ==> f == filter
  {
    if |filter| == 0 then [Evaluation(evaluate, s, 0.0)] else filter
  }

  /** Everything a call of `computeStepSize` holds fixed while it
      backtracks. */
  datatype Search = Search(
    s: seq<SplitSolution>, d: seq<SplitDirection>, base: seq<SplitSolution>,
    maxStep: real, rate: real, minStep: real,
    evaluate: Oracle, accepts: Acceptance, filter: seq<FilterEntry>)

  predicate ValidSearch(p: Search)
  {
    AllConform(p.s, p.d) && |p.base| == |p.s| &&
    0.0 < p.maxStep && 0.0 < p.rate < 1.0 && 0.0 < p.minStep
  }

  /** The `k`-th step size tried: `max_primal_step_size * rate^k`. */
  function Candidate(p: Search, k: nat): real
  {
    if k == 0 then p.maxStep else Candidate(p, k - 1) * p.rate
  }

  lemma {:induction false} CandidatePositive(p: Search, k: nat)
    requires ValidSearch(p)
    ensures Candidate(p, k) > 0.0
  {
    if k > 0 {
      CandidatePositive(p, k - 1);
      ProductPositive(Candidate(p, k - 1), p.rate, Candidate(p, k));
    }
  }

  /** Every reduction shortens the step. */
  lemma {:induction false} CandidatesDecrease(p: Search, j: nat, k: nat)
    requires ValidSearch(p) && j < k
    ensures Candidate(p, k) < Candidate(p, j)
  {
    var prev := Candidate(p, k - 1);
    CandidatePositive(p, k - 1);
    ProductPositive(prev, 1.0 - p.rate, prev * (1.0 - p.rate));
    assert Candidate(p, k) == prev - prev * (1.0 - p.rate);
    if j < k - 1 {
      CandidatesDecrease(p, j, k - 1);
    }
  }

  function EntryAt(p: Search, k: nat): FilterEntry
    requires ValidSearch(p)
  {
    Evaluation(p.evaluate, TrialPoint(p.s, p.d, Candidate(p, k), p.base), Candidate(p, k))
  }

  predicate AcceptedAt(p: Search, k: nat)
    requires ValidSearch(p)
  {
    p.accepts(p.filter, EntryAt(p, k))
  }

  /** Every step tried before the `k`-th was above the minimum and refused. */
  predicate RejectedBefore(p: Search, k: nat)
    requires ValidSearch(p)
  {
    forall j: nat | j < k :: Candidate(p, j) > p.minStep && !AcceptedAt(p, j)
  }

  lemma RejectedBeforeStep(p: Search, k: nat)
    requires ValidSearch(p) && RejectedBefore(p, k)
    requires Candidate(p, k) > p.minStep && !AcceptedAt(p, k)
    ensures RejectedBefore(p, k + 1)
  {
  }

  /** The step a search stops at is the first one the filter accepts. */
  lemma FirstAcceptedIsUnique(p: Search, k: nat, k': nat)
    requires ValidSearch(p)
    requires RejectedBefore(p, k) && AcceptedAt(p, k)
    requires RejectedBefore(p, k') && AcceptedAt(p, k')
    ensures k == k'
  {
  }

  /** A search that runs out of steps above the minimum has seen every one
      of them refused, so falling back to the minimum step means that no
      step above it was acceptable. */
  lemma NoAcceptanceAboveMinimum(p: Search, k: nat)
    requires ValidSearch(p)
    requires Candidate(p, k) <= p.minStep && RejectedBefore(p, k)
    ensures forall j: nat :: Candidate(p, j) > p.minStep ==> !AcceptedAt(p, j)
  {
    forall j: nat | Candidate(p, j) > p.minStep
      ensures !AcceptedAt(p, j)
    {
      if j >= k {
        if j > k {
          CandidatesDecrease(p, k, j);
        }
        assert false;
      }
    }
  }

  /** Shrinking the `k`-th candidate by the rate gives the next one. */
  lemma NextCandidate(p: Search, k: nat, step: real, next: real)
    requires ValidSearch(p) && step == Candidate(p, k) && next == step * p.rate
    ensures next == Candidate(p, k + 1)
  {
  }

  /** One backtracking step from `step` to `next` shortens `step / c` by
      at least one while the step stays above the minimum; `c` is
      `(1 - rate) * min_step_size`. */
  lemma BacktrackMeasureDrops(step: real, rate: real, minStep: real, c: real, next: real)
    requires 0.0 < rate < 1.0 && 0.0 < minStep < step
    requires c == (1.0 - rate) * minStep && next == step * rate
    ensures step / c >= 0.0
    ensures next / c <= step / c - 1.0
  {
    ProductPositive(1.0 - rate, minStep, c);
    ProductPositive(1.0 - rate, step - minStep, (1.0 - rate) * (step - minStep));
    assert (1.0 - rate) * (step - minStep) == step - next - c;
    var q := step / c;
    var q' := next / c;
    assert q * c == step;
    assert q' * c == next;
    if q < 0.0 {
      calc { step; == q * c; < 0.0 * c; == 0.0; }
    }
    if q' > q - 1.0 {
      calc { next; == q' * c; > (q - 1.0) * c; == q * c - c; == step - c; }
    }
  }

  class UnconstrLineSearch {
    var filter: seq<FilterEntry>
    var n: nat
    var nthreads: int
    var stepSizeReductionRate: real
    var minStepSize: real
    var costs: array<real>
    var violations: array<real>
    var sTrial: seq<SplitSolution>

    ghost predicate Valid()
      reads this
    {
      costs.Length == n + 1 && violations.Length == n && |sTrial| == n + 1
    }

    /** `template` is the split solution the robot model starts every stage
        of the trial buffer with. */
    constructor (n: nat, nthreads: int, stepSizeReductionRate: real, minStepSize: real, template: SplitSolution)
      ensures Valid() && fresh(costs) && fresh(violations)
      ensures this.n == n && this.nthreads == nthreads
      ensures this.stepSizeReductionRate == stepSizeReductionRate && this.minStepSize == minStepSize
      ensures filter == []
      ensures costs[..] == Zeros(n + 1) && violations[..] == Zeros(n)
      ensures sTrial == Repeat(template, n + 1)
    {
      this.filter := [];
      this.n := n;
      this.nthreads := nthreads;
      this.stepSizeReductionRate := stepSizeReductionRate;
      this.minStepSize := minStepSize;
      this.costs := new real[n + 1](i => 0.0);
      this.violations := new real[n](i => 0.0);
      this.sTrial := Repeat(template, n + 1);
    }

    method ClearFilter()
      modifies this
      ensures filter == [] && IsFilterEmpty()
      ensures n == old(n) && nthreads == old(nthreads)
      ensures stepSizeReductionRate == old(stepSizeReductionRate) && minStepSize == old(minStepSize)
      ensures costs == old(costs) && violations == old(violations) && sTrial == old(sTrial)
    {
      filter := [];
    }

    predicate IsFilterEmpty()
      reads this
    {
      |filter| == 0
    }

    method ClearCosts()
      requires Valid()
      modifies costs
      ensures costs[..] == Zeros(n + 1)
      ensures TotalCosts() == 0.0
    {
      forall i | 0 <= i < costs.Length {
        costs[i] := 0.0;
      }
      SumZero(costs[..]);
    }

    method ClearViolations()
      requires Valid()
      modifies violations
      ensures violations[..] == Zeros(n)
      ensures TotalViolations() == 0.0
    {
      forall i | 0 <= i < violations.Length {
        violations[i] := 0.0;
      }
      SumZero(violations[..]);
    }

    function TotalCosts(): real
      reads this, costs
    {
      Sum(costs[..])
    }

    function TotalViolations(): real
      reads this, violations
    {
      Sum(violations[..])
    }

    /** `computeCostAndViolation`: the per-stage arrays receive the costs and
        violations of `sol`. */
    method ComputeCostAndViolation(sol: seq<SplitSolution>, barrier: real, evaluate: Oracle)
      requires Valid() && OracleFits(evaluate, n)
      modifies costs, violations
      ensures costs[..] == evaluate(sol, barrier).costs
      ensures violations[..] == evaluate(sol, barrier).violations
      ensures FilterEntry(TotalCosts(), TotalViolations()) == Evaluation(evaluate, sol, barrier)
    {
      var result := evaluate(sol, barrier);
      forall i | 0 <= i < costs.Length {
        costs[i] := result.costs[i];
      }
      forall i | 0 <= i < violations.Length {
        violations[i] := result.violations[i];
      }
    }

    /** `computeSolutionTrial` on the whole solution, stage by stage, into
        the trial buffer. */
    method ComputeSolutionTrial(s: seq<SplitSolution>, d: seq<SplitDirection>, step: real)
      requires Valid() && AllConform(s, d) && |s| == n + 1
      modifies this
      ensures sTrial == TrialPoint(s, d, step, old(sTrial))
      ensures Valid() && filter == old(filter) && n == old(n) && nthreads == old(nthreads)
      ensures stepSizeReductionRate == old(stepSizeReductionRate) && minStepSize == old(minStepSize)
      ensures costs == old(costs) && violations == old(violations)
    {
      var i := 0;
      while i < |s|
        invariant 0 <= i <= |s| && |sTrial| == |s|
        invariant forall j | 0 <= j < i :: sTrial[j] == SplitTrial(s[j], d[j], step, old(sTrial)[j])
        invariant forall j | i <= j < |s| :: sTrial[j] == old(sTrial)[j]
        invariant filter == old(filter) && n == old(n) && nthreads == old(nthreads)
        invariant stepSizeReductionRate == old(stepSizeReductionRate) && minStepSize == old(minStepSize)
        invariant costs == old(costs) && violations == old(violations)
      {
        sTrial := sTrial[i := SplitTrial(s[i], d[i], step, sTrial[i])];
        i := i + 1;
      }
    }

    /** One pass of the backtracking loop: the trial point at `step`, its
        costs and violations, and the filter test; an accepted entry is added
        to the filter. */
    method TryStep(s: seq<SplitSolution>, d: seq<SplitDirection>, step: real,
                   evaluate: Oracle, accepts: Acceptance, ghost base: seq<SplitSolution>) returns (accepted: bool)
      requires Valid() && AllConform(s, d) && |s| == n + 1 && OracleFits(evaluate, n)
      requires SameCostates(sTrial, base)
      modifies this, costs, violations
      ensures Valid() && n == old(n) && nthreads == old(nthreads)
      ensures stepSizeReductionRate == old(stepSizeReductionRate) && minStepSize == old(minStepSize)
      ensures costs == old(costs) && violations == old(violations)
      ensures sTrial == TrialPoint(s, d, step, base)
      ensures var entry := Evaluation(evaluate, sTrial, step);
              accepted == accepts(old(filter), entry) &&
              filter == if accepted then old(filter) + [entry] else old(filter)
    {
      ghost var buffer := sTrial;
      ComputeSolutionTrial(s, d, step);
      TrialPointOnlyKeepsCostates(s, d, step, buffer, base);
      ComputeCostAndViolation(sTrial, step, evaluate);
      var totalCosts := TotalCosts();
      var totalViolations := TotalViolations();
      accepted := accepts(filter, FilterEntry(totalCosts, totalViolations));
      if accepted {
        filter := filter + [FilterEntry(totalCosts, totalViolations)];
      }
    }

    /** The `while` loop of `computeStepSize`: steps from the maximum,
        shrinking by the reduction rate, are tried while they stay above the
        minimum; the loop stops at the first one the filter accepts, which is
        the only entry it adds to the filter. `k` counts the reductions. */
    method Backtrack(s: seq<SplitSolution>, d: seq<SplitDirection>, maxPrimalStepSize: real,
                     evaluate: Oracle, accepts: Acceptance) returns (step: real, ghost k: nat)
      requires Valid() && AllConform(s, d) && |s| == n + 1 && OracleFits(evaluate, n)
      requires 0.0 < maxPrimalStepSize <= 1.0
      requires 0.0 < stepSizeReductionRate < 1.0 && 0.0 < minStepSize
      modifies this, costs, violations
      ensures Valid() && n == old(n) && nthreads == old(nthreads)
      ensures stepSizeReductionRate == old(stepSizeReductionRate) && minStepSize == old(minStepSize)
      ensures costs == old(costs) && violations == old(violations)
      ensures SameCostates(sTrial, old(sTrial))
      ensures var p := Search(s, d, old(sTrial), maxPrimalStepSize, stepSizeReductionRate, minStepSize,
                              evaluate, accepts, old(filter));
              ValidSearch(p) && step == Candidate(p, k) && RejectedBefore(p, k) &&
              (step > minStepSize ==> AcceptedAt(p, k) && filter == p.filter + [EntryAt(p, k)]) &&
              (step <= minStepSize ==> filter == p.filter)
    {
      ghost var p := Search(s, d, sTrial, maxPrimalStepSize, stepSizeReductionRate, minStepSize,
                            evaluate, accepts, filter);
      step := maxPrimalStepSize;
      k := 0;
      ghost var c := (1.0 - stepSizeReductionRate) * minStepSize;
      ProductPositive(1.0 - stepSizeReductionRate, minStepSize, c);
      while step > minStepSize
        invariant Valid() && n == old(n) && nthreads == old(nthreads)
        invariant stepSizeReductionRate == old(stepSizeReductionRate) && minStepSize == old(minStepSize)
        invariant costs == old(costs) && violations == old(violations)
        invariant SameCostates(sTrial, old(sTrial))
        invariant step == Candidate(p, k)
        invariant RejectedBefore(p, k)
        invariant filter == p.filter
        invariant c > 0.0
        decreases step / c
      {
        var accepted := TryStep(s, d, step, evaluate, accepts, p.base);
        if accepted {
          return;
        }
        RejectedBeforeStep(p, k);
        ghost var previous := step;
        step := step * stepSizeReductionRate;
        BacktrackMeasureDrops(previous, stepSizeReductionRate, minStepSize, c, step);
        NextCandidate(p, k, previous, step);
        k := k + 1;
      }
    }

    /** `computeStepSize`: an empty filter first receives the current
        solution's entry; the backtracking loop then runs, and a step that
        did not stay above the minimum is replaced by the minimum. */
    method ComputeStepSize(s: seq<SplitSolution>, d: seq<SplitDirection>, maxPrimalStepSize: real,
                           evaluate: Oracle, accepts: Acceptance) returns (step: real)
      requires Valid() && AllConform(s, d) && |s| == n + 1 && OracleFits(evaluate, n)
      requires 0.0 < maxPrimalStepSize <= 1.0
      requires 0.0 < stepSizeReductionRate < 1.0 && 0.0 < minStepSize
      modifies this, costs, violations
      ensures Valid() && n == old(n) && nthreads == old(nthreads)
      ensures stepSizeReductionRate == old(stepSizeReductionRate) && minStepSize == old(minStepSize)
      ensures costs == old(costs) && violations == old(violations)
      ensures SameCostates(sTrial, old(sTrial))
      ensures step >= minStepSize
      ensures var p := Search(s, d, old(sTrial), maxPrimalStepSize, stepSizeReductionRate, minStepSize,
                              evaluate, accepts, InitialFilter(old(filter), s, evaluate));
              ValidSearch(p) &&
              (step > minStepSize ==>
                 exists k: nat :: step == Candidate(p, k) && RejectedBefore(p, k) && AcceptedAt(p, k) &&
                                  filter == p.filter + [EntryAt(p, k)])
      ensures var p := Search(s, d, old(sTrial), maxPrimalStepSize, stepSizeReductionRate, minStepSize,
                              evaluate, accepts, InitialFilter(old(filter), s, evaluate));
              ValidSearch(p) &&
              (step == minStepSize ==>
                 filter == p.filter &&
                 exists k: nat :: Candidate(p, k) <= minStepSize && RejectedBefore(p, k))
    {
      if |filter| == 0 {
        ComputeCostAndViolation(s, 0.0, evaluate);
        filter := filter + [FilterEntry(TotalCosts(), TotalViolations())];
      }
      assert filter == InitialFilter(old(filter), s, evaluate);
      ghost var k;
      step, k := Backtrack(s, d, maxPrimalStepSize, evaluate, accepts);
      if !(step > minStepSize) {
        step := minStepSize;
      }
    }
  }
}
