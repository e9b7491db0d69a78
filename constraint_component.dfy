/** The primal-dual interior-point contract shared by every inequality
    constraint: the per-constraint data vectors, the scalar rules
    (complementary slackness, dual direction, condensing coefficient,
    fraction-to-boundary), and the `ConstraintComponentBase` object that
    holds the barrier parameter and the fraction-to-boundary parameter. */
module ConstraintComponent {
  import opened Common

  /** `ConstraintComponentData`: the row vectors of one constraint instance
      at one stage. Every vector has one entry per constraint row. */
  datatype ComponentData = ComponentData(
    slack: seq<real>,
    dual: seq<real>,
    residual: seq<real>,
    cmpl: seq<real>,
    dslack: seq<real>,
    ddual: seq<real>,
    cond: seq<real>,
    logBarrier: real)
  {
    /** Number of constraint rows. */
    function Dimc(): nat
    {
      |slack|
    }

    ghost predicate WellFormed()
    {
      && |dual| == |slack|
      && |residual| == |slack|
      && |cmpl| == |slack|
      && |dslack| == |slack|
      && |ddual| == |slack|
      && |cond| == |slack|
    }

    /** `ConstraintComponentData::copySlackAndDual`: take the slack and dual
        of `other`, keep everything else. */
    function CopySlackAndDual(other: ComponentData): (r: ComponentData)
      ensures r.slack == other.slack && r.dual == other.dual
      ensures r.(slack := slack, dual := dual) == this
    {
      this.(slack := other.slack, dual := other.dual)
    }
  }

  const DefaultBarrier: real := 0.001
  const DefaultFractionToBoundaryRule: real := 0.995

  /** The parameter ranges the constructor and the setters insist on. */
  predicate ValidBarrier(barrier: real)
  {
    barrier > 0.0
  }

  predicate ValidFractionToBoundaryRule(rate: real)
  {
    0.0 < rate < 1.0
  }

  // ---------------------------------------------------------------------
  // Scalar rules

  /** Residual of the perturbed complementarity `slack * dual = barrier`. */
  function ComplementarySlackness(barrier: real, slack: real, dual: real): real
  {
    slack * dual - barrier
  }

  /** Dual direction recovered from the slack direction. */
  function DualDirection(slack: real, dual: real, dslack: real, cmpl: real): real
    requires slack != 0.0
  {
    -(dual * dslack + cmpl) / slack
  }

  /** Coefficient used to condense the slack and the dual out of the KKT
      system. The primal residual is taken as `g(x) - slack` for the
      constraint `g(x) >= 0`, so the linearised constraint gives the slack
      direction `residual + J * dx` (see `CondensedDualDirection`). */
  function CondensingCoefficient(slack: real, dual: real, residual: real, cmpl: real): real
    requires slack != 0.0
  {
    (dual * residual + cmpl) / slack
  }

  /** Eliminating the slack direction `residual + jdx` from the dual
      direction leaves `-cond - (dual / slack) * jdx`: the condensing
      coefficient is the part of the dual direction that does not depend on
      the primal step, and `dual / slack` its part that does. */
  lemma CondensedDualDirection(slack: real, dual: real, residual: real, cmpl: real, jdx: real)
    requires slack != 0.0
    ensures DualDirection(slack, dual, residual + jdx, cmpl)
              == -CondensingCoefficient(slack, dual, residual, cmpl) - (dual / slack) * jdx
  {
    var c := CondensingCoefficient(slack, dual, residual, cmpl);
    var q := dual / slack;
    assert c * slack == dual * residual + cmpl;
    assert q * slack == dual;
    var rhs := -c - q * jdx;
    assert rhs * slack == -(dual * residual + cmpl) - dual * jdx by {
      assert rhs * slack == -(c * slack) - (q * slack) * jdx;
    }
    QuotientUnique(rhs, slack, -(dual * (residual + jdx) + cmpl));
  }

  /** The dual direction is the Newton step of the complementarity:
      linearising `(s + ds) * (z + dz) - barrier = 0` around `(s, z)` gives
      `cmpl + z * ds + s * dz = 0`, and `DualDirection` is the one `dz` that
      solves it. */
  lemma DualDirectionSolvesLinearizedComplementarity(slack: real, dual: real, dslack: real, cmpl: real, dz: real)
    requires slack != 0.0
    ensures cmpl + dual * dslack + slack * dz == 0.0 <==> dz == DualDirection(slack, dual, dslack, cmpl)
  {
    var d := DualDirection(slack, dual, dslack, cmpl);
    assert slack * d == -(dual * dslack + cmpl);
    if cmpl + dual * dslack + slack * dz == 0.0 {
      assert slack * (dz - d) == 0.0;
    }
  }

  /** The residual vanishes exactly on the central path `slack * dual == barrier`. */
  lemma ComplementarySlacknessVanishesOnCentralPath(barrier: real, slack: real, dual: real)
    ensures ComplementarySlackness(barrier, slack, dual) == 0.0 <==> slack * dual == barrier
  {
  }

  // ---------------------------------------------------------------------
  // Fraction-to-boundary rule

  /** The step at which row `(x, dx)` would reach the fraction `rate` of the
      way to zero. A zero direction gives an infinite or undefined quotient
      in floating point, which fails the `(0, 1)` test below; the value 0
      here fails it the same way. */
  function BoundaryFraction(rate: real, x: real, dx: real): real
  {
    if dx == 0.0 then 0.0 else -rate * (x / dx)
  }

  /** The rule over the first `n` rows: start at 1 and keep every row's
      fraction that lies strictly inside `(0, 1)` and is smaller. */
  function FractionToBoundaryUpTo(rate: real, vec: seq<real>, dvec: seq<real>, n: nat): (alpha: real)
    requires |vec| == |dvec| && n <= |vec|
    ensures 0.0 < alpha <= 1.0
  {
    if n == 0 then 1.0
    else
      var alpha := FractionToBoundaryUpTo(rate, vec, dvec, n - 1);
      var f := BoundaryFraction(rate, vec[n - 1], dvec[n - 1]);
      if 0.0 < f < 1.0 && f < alpha then f else alpha
  }

  function FractionToBoundary(rate: real, vec: seq<real>, dvec: seq<real>): (alpha: real)
    requires |vec| == |dvec|
  {
    FractionToBoundaryUpTo(rate, vec, dvec, |vec|)
  }

  /** After a step `alpha` the row `x + alpha * dx` keeps at least the
      fraction `1 - rate` of its value, which is positive. */
  predicate StaysInside(rate: real, x: real, dx: real, alpha: real)
  {
    x + alpha * dx >= (1.0 - rate) * x > 0.0
  }

  /** After a step `alpha` the row, moving towards zero, sits exactly on
      `(1 - rate) * x`. */
  predicate LandsOnBoundary(rate: real, x: real, dx: real, alpha: real)
  {
    dx < 0.0 && x + alpha * dx == (1.0 - rate) * x
  }

  /** After a step `beta` the row has dropped below `(1 - rate) * x`. */
  predicate Crosses(rate: real, x: real, dx: real, beta: real)
  {
    x + beta * dx < (1.0 - rate) * x
  }

  /** One row's share of the fraction-to-boundary property: any step no
      larger than 1 and no larger than the row's own fraction (when that is
      positive and below 1) keeps the row inside. */
  lemma RowStaysInside(rate: real, x: real, dx: real, alpha: real)
    requires 0.0 < rate < 1.0 && x > 0.0
    requires 0.0 < alpha <= 1.0
    requires var f := BoundaryFraction(rate, x, dx); 0.0 < f < 1.0 ==> alpha <= f
    ensures StaysInside(rate, x, dx, alpha)
  {
    ProductPositive(1.0 - rate, x, (1.0 - rate) * x);
    if dx < 0.0 {
      var f := BoundaryFraction(rate, x, dx);
      assert f * dx == -rate * x by {
        assert (x / dx) * dx == x;
      }
      assert f > 0.0 by {
        assert x / dx < 0.0;
      }
      assert alpha * dx >= f * dx;
    }
  }

  /** A row whose fraction is positive is moving towards zero, and the
      step equal to its fraction lands it on its boundary. */
  lemma RowOnBoundary(rate: real, x: real, dx: real, alpha: real)
    requires 0.0 < rate && x > 0.0
    requires alpha == BoundaryFraction(rate, x, dx) && 0.0 < alpha
    ensures LandsOnBoundary(rate, x, dx, alpha)
  {
    assert dx != 0.0;
    assert (x / dx) * dx == x;
    assert x / dx < 0.0;
  }

  /** A row on its boundary after `alpha` crosses it after any larger step. */
  lemma RowCrossesBeyond(rate: real, x: real, dx: real, alpha: real, beta: real)
    requires LandsOnBoundary(rate, x, dx, alpha) && alpha < beta
    ensures Crosses(rate, x, dx, beta)
  {
    assert beta * dx < alpha * dx;
  }

  /** The rule over `n` rows never exceeds any of those rows' own fraction
      that lies inside `(0, 1)`. */
  lemma {:induction false} FractionBelowEachRow(rate: real, vec: seq<real>, dvec: seq<real>, n: nat, i: nat)
    requires |vec| == |dvec| && i < n <= |vec|
    requires var f := BoundaryFraction(rate, vec[i], dvec[i]); 0.0 < f < 1.0
    ensures FractionToBoundaryUpTo(rate, vec, dvec, n) <= BoundaryFraction(rate, vec[i], dvec[i])
  {
    if i < n - 1 {
      FractionBelowEachRow(rate, vec, dvec, n - 1, i);
    }
  }

  /** The rule over `n` rows is either the full step or the fraction of one
      of those rows. */
  lemma {:induction false} FractionIsSomeRow(rate: real, vec: seq<real>, dvec: seq<real>, n: nat)
    requires |vec| == |dvec| && n <= |vec|
    ensures var alpha := FractionToBoundaryUpTo(rate, vec, dvec, n);
      alpha == 1.0 || exists i | 0 <= i < n :: alpha == BoundaryFraction(rate, vec[i], dvec[i])
  {
    if n > 0 {
      FractionIsSomeRow(rate, vec, dvec, n - 1);
    }
  }

  /** The whole-vector form: what `pdipm::fractionToBoundary` promises for
      strictly positive `vec` (the slack and dual of an interior point).
      Every row stays at least `(1 - rate)` of its value, hence positive,
      and the step is as large as that allows: it is the full step 1, or
      some row lands exactly on its `(1 - rate)` boundary. */
  lemma FractionToBoundarySound(rate: real, vec: seq<real>, dvec: seq<real>)
    requires 0.0 < rate < 1.0
    requires |vec| == |dvec|
    requires forall i | 0 <= i < |vec| :: vec[i] > 0.0
    ensures var alpha := FractionToBoundary(rate, vec, dvec);
      && 0.0 < alpha <= 1.0
      && (forall i | 0 <= i < |vec| :: StaysInside(rate, vec[i], dvec[i], alpha))
      && (alpha == 1.0 || exists i | 0 <= i < |vec| :: LandsOnBoundary(rate, vec[i], dvec[i], alpha))
  {
    var alpha := FractionToBoundary(rate, vec, dvec);
    forall i | 0 <= i < |vec|
      ensures StaysInside(rate, vec[i], dvec[i], alpha)
    {
      var f := BoundaryFraction(rate, vec[i], dvec[i]);
      if 0.0 < f < 1.0 {
        FractionBelowEachRow(rate, vec, dvec, |vec|, i);
      }
      RowStaysInside(rate, vec[i], dvec[i], alpha);
    }
    FractionIsSomeRow(rate, vec, dvec, |vec|);
    if alpha != 1.0 {
      var k :| 0 <= k < |vec| && alpha == BoundaryFraction(rate, vec[k], dvec[k]);
      RowOnBoundary(rate, vec[k], dvec[k], alpha);
    }
  }

  /** No larger step keeps all rows inside: any `beta` above the rule's
      value pushes some row below its `(1 - rate)` boundary. */
  lemma FractionToBoundaryIsLargest(rate: real, vec: seq<real>, dvec: seq<real>, beta: real)
    requires 0.0 < rate < 1.0
    requires |vec| == |dvec|
    requires forall i | 0 <= i < |vec| :: vec[i] > 0.0
    requires FractionToBoundary(rate, vec, dvec) < beta <= 1.0
    ensures exists i | 0 <= i < |vec| :: Crosses(rate, vec[i], dvec[i], beta)
  {
    var alpha := FractionToBoundary(rate, vec, dvec);
    FractionToBoundarySound(rate, vec, dvec);
    var k :| 0 <= k < |vec| && LandsOnBoundary(rate, vec[k], dvec[k], alpha);
    RowCrossesBeyond(rate, vec[k], dvec[k], alpha, beta);
  }

  /** `pdipm::fractionToBoundary`: the loop over the rows. */
  method ComputeFractionToBoundary(rate: real, vec: seq<real>, dvec: seq<real>) returns (alpha: real)
    requires |vec| == |dvec|
    ensures alpha == FractionToBoundary(rate, vec, dvec)
    ensures 0.0 < alpha <= 1.0
  {
    alpha := 1.0;
    for i := 0 to |vec|
      invariant alpha == FractionToBoundaryUpTo(rate, vec, dvec, i)
    {
      var f := BoundaryFraction(rate, vec[i], dvec[i]);
      if 0.0 < f < 1.0 && f < alpha {
        alpha := f;
      }
    }
  }

  // ---------------------------------------------------------------------
  // Slack and dual reset

  lemma Distribute(q: real, b: real)
    ensures (q - 1.0) * b == q * b - b
  {
  }

  lemma QuotientUnique(p: real, b: real, w: real)
    requires b != 0.0 && p * b == w
    ensures w / b == p
  {
  }

  /** Taking `b` away from a quantity lowers its count of `b`s by one. */
  lemma DivisionStep(b: real, y: real)
    requires b > 0.0
    ensures (y - b) / b == y / b - 1.0
  {
    var q := y / b;
    assert q * b == y;
    Distribute(q, b);
    QuotientUnique(q - 1.0, b, y - b);
  }

  /** Eigen's `minCoeff()`: the smallest entry of a non-empty vector. */
  function MinCoeff(v: seq<real>): (m: real)
    requires |v| > 0
    ensures forall i | 0 <= i < |v| :: m <= v[i]
    ensures exists i | 0 <= i < |v| :: v[i] == m
  {
    if |v| == 1 then v[0]
    else
      var t := MinCoeff(v[1..]);
      assert forall i | 1 <= i < |v| :: v[1..][i - 1] == v[i];
      if v[0] <= t then v[0] else t
  }

  /** `v.array() + c`: every entry moved by the same amount. */
  function Shifted(v: seq<real>, c: real): (r: seq<real>)
    ensures |r| == |v|
  {
    seq(|v|, i requires 0 <= i < |v| => v[i] + c)
  }

  /** Shifting a vector shifts its smallest entry by the same amount. */
  lemma MinCoeffShifted(v: seq<real>, c: real)
    requires |v| > 0
    ensures MinCoeff(Shifted(v, c)) == MinCoeff(v) + c
  {
    var w := Shifted(v, c);
    var m := MinCoeff(v);
    var k :| 0 <= k < |v| && v[k] == m;
    var j :| 0 <= j < |w| && w[j] == MinCoeff(w);
    assert MinCoeff(w) <= w[k];
    assert m <= v[j];
  }

  /** The vector the positivity reset ends with: while its smallest entry
      is below `barrier`, the whole vector is moved up by `barrier`. The
      result has every entry at or above the barrier, every entry moved by
      the same non-negative amount, and is the vector itself when it is
      already there. */
  function ShiftToBarrier(barrier: real, v: seq<real>): (r: seq<real>)
    requires barrier > 0.0
    ensures |r| == |v|
    ensures forall i | 0 <= i < |r| :: r[i] >= barrier && r[i] >= v[i]
    ensures forall i, j | 0 <= i < |r| && 0 <= j < |r| :: r[i] - v[i] == r[j] - v[j]
    ensures (forall i | 0 <= i < |v| :: v[i] >= barrier) ==> r == v
    decreases ShiftsLeft(barrier, v)
  {
    if |v| == 0 || MinCoeff(v) >= barrier then v
    else
      ShiftStep(barrier, v);
      ShiftToBarrier(barrier, Shifted(v, barrier))
  }

  /** The termination measure of the reset: one more than the number of
      barriers that separate the smallest entry from the barrier, and 0 once
      no entry is below it. */
  function ShiftsLeft(barrier: real, v: seq<real>): real
    requires barrier > 0.0
  {
    if |v| > 0 && MinCoeff(v) < barrier then (barrier - MinCoeff(v)) / barrier + 1.0 else 0.0
  }

  /** The loop of the reset on one vector, `while (v.minCoeff() < barrier)
      v.array() += barrier;`, with an empty vector left as it is. */
  method ShiftInPlace(barrier: real, v: seq<real>) returns (r: seq<real>)
    requires barrier > 0.0
    ensures r == ShiftToBarrier(barrier, v)
    ensures forall i | 0 <= i < |r| :: r[i] >= barrier
  {
    r := v;
    while |r| > 0 && MinCoeff(r) < barrier
      invariant ShiftToBarrier(barrier, r) == ShiftToBarrier(barrier, v)
      decreases ShiftsLeft(barrier, r)
    {
      ShiftStep(barrier, r);
      ShiftUnfold(barrier, r);
      r := Shifted(r, barrier);
    }
    ShiftDone(barrier, r);
  }

  /** One pass of the loop keeps the vector it will end with and lowers
      the loop's measure by one. */
  lemma ShiftStep(barrier: real, v: seq<real>)
    requires barrier > 0.0 && |v| > 0 && MinCoeff(v) < barrier
    ensures ShiftsLeft(barrier, Shifted(v, barrier)) + 1.0 <= ShiftsLeft(barrier, v)
    ensures 0.0 <= ShiftsLeft(barrier, Shifted(v, barrier))
  {
    var w := Shifted(v, barrier);
    MinCoeffShifted(v, barrier);
    var y := barrier - MinCoeff(v);
    QuotientPositive(y, barrier);
    if MinCoeff(w) < barrier {
      DivisionStep(barrier, y);
      assert barrier - MinCoeff(w) == y - barrier;
      QuotientPositive(y - barrier, barrier);
    }
  }

  lemma QuotientPositive(y: real, b: real)
    requires y > 0.0 && b > 0.0
    ensures y / b > 0.0
  {
    var q := y / b;
    assert q * b == y;
    if q <= 0.0 {
      NonPositiveProduct(q, b);
    }
  }

  lemma NonPositiveProduct(q: real, b: real)
    requires q <= 0.0 && b > 0.0
    ensures q * b <= 0.0
  {
  }

  /** The reset of a vector with an entry below the barrier is the reset
      of the vector moved up by the barrier. */
  lemma ShiftUnfold(barrier: real, v: seq<real>)
    requires barrier > 0.0 && |v| > 0 && MinCoeff(v) < barrier
    ensures ShiftToBarrier(barrier, Shifted(v, barrier)) == ShiftToBarrier(barrier, v)
  {
  }

  /** Once no entry is below the barrier the vector is its own result. */
  lemma ShiftDone(barrier: real, v: seq<real>)
    requires barrier > 0.0 && (|v| == 0 || MinCoeff(v) >= barrier)
    ensures ShiftToBarrier(barrier, v) == v
  {
  }

  // ---------------------------------------------------------------------
  // Log barrier

  /** `log(slack[i])` for every row, with the logarithm as a parameter. */
  function MapLog(ln: real -> real, slack: seq<real>): (r: seq<real>)
    ensures |r| == |slack| && forall i | 0 <= i < |slack| :: r[i] == ln(slack[i])
  {
    seq(|slack|, i requires 0 <= i < |slack| => ln(slack[i]))
  }

  function LogBarrierValue(ln: real -> real, barrier: real, slack: seq<real>): real
  {
    -barrier * Sum(MapLog(ln, slack))
  }

  /** The barrier of a stacked slack is the sum of its parts' barriers: a
      constraint's barrier may be evaluated row block by row block. */
  lemma LogBarrierSplits(ln: real -> real, barrier: real, a: seq<real>, b: seq<real>)
    ensures LogBarrierValue(ln, barrier, a + b) == LogBarrierValue(ln, barrier, a) + LogBarrierValue(ln, barrier, b)
  {
    assert MapLog(ln, a + b) == MapLog(ln, a) + MapLog(ln, b);
    SumAppend(MapLog(ln, a), MapLog(ln, b));
  }

  /** With `log 1 = 0`, a slack of all ones carries no barrier. */
  lemma LogBarrierVanishesAtOnes(ln: real -> real, barrier: real, slack: seq<real>)
    requires ln(1.0) == 0.0
    requires forall i | 0 <= i < |slack| :: slack[i] == 1.0
    ensures LogBarrierValue(ln, barrier, slack) == 0.0
  {
    SumZero(MapLog(ln, slack));
  }

  // ---------------------------------------------------------------------
  // The base object

  class ConstraintComponentBase {
    var barrier: real
    var fractionToBoundaryRule: real

    ghost predicate Valid()
      reads this
    {
      ValidBarrier(barrier) && ValidFractionToBoundaryRule(fractionToBoundaryRule)
    }

    /** The barrier must be positive and the fraction strictly inside (0, 1). */
    constructor (barrierParam: real := DefaultBarrier,
                 fractionToBoundaryRuleParam: real := DefaultFractionToBoundaryRule)
      requires ValidBarrier(barrierParam)
      requires ValidFractionToBoundaryRule(fractionToBoundaryRuleParam)
      ensures Valid()
      ensures barrier == barrierParam
      ensures fractionToBoundaryRule == fractionToBoundaryRuleParam
    {
      barrier := barrierParam;
      fractionToBoundaryRule := fractionToBoundaryRuleParam;
    }

    function GetBarrierParam(): real
      reads this
    {
      barrier
    }

    function GetFractionToBoundaryRule(): real
      reads this
    {
      fractionToBoundaryRule
    }

    method SetBarrierParam(barrierParam: real)
      requires Valid()
      requires ValidBarrier(barrierParam)
      modifies this
      ensures Valid()
      ensures GetBarrierParam() == barrierParam
      ensures GetFractionToBoundaryRule() == old(GetFractionToBoundaryRule())
    {
      barrier := barrierParam;
    }

    method SetFractionToBoundaryRule(fractionToBoundaryRuleParam: real)
      requires Valid()
      requires ValidFractionToBoundaryRule(fractionToBoundaryRuleParam)
      modifies this
      ensures Valid()
      ensures GetFractionToBoundaryRule() == fractionToBoundaryRuleParam
      ensures GetBarrierParam() == old(GetBarrierParam())
    {
      fractionToBoundaryRule := fractionToBoundaryRuleParam;
    }

    /** Slack and dual each end with every entry at or above the barrier;
        each is moved as a whole (see `ShiftToBarrier`), and nothing else
        changes. */
    method SetSlackAndDualPositive(data: ComponentData) returns (r: ComponentData)
      requires Valid()
      ensures r == data.(slack := ShiftToBarrier(barrier, data.slack),
                         dual := ShiftToBarrier(barrier, data.dual))
      ensures forall i | 0 <= i < |r.slack| :: r.slack[i] >= barrier
      ensures forall i | 0 <= i < |r.dual| :: r.dual[i] >= barrier
    {
      var slack := ShiftInPlace(barrier, data.slack);
      var dual := ShiftInPlace(barrier, data.dual);
      r := data.(slack := slack, dual := dual);
    }

    /** Fraction-to-boundary rule on (slack, dslack). */
    method MaxSlackStepSize(data: ComponentData) returns (alpha: real)
      requires Valid() && data.WellFormed()
      ensures alpha == FractionToBoundary(fractionToBoundaryRule, data.slack, data.dslack)
      ensures 0.0 < alpha <= 1.0
    {
      alpha := ComputeFractionToBoundary(fractionToBoundaryRule, data.slack, data.dslack);
    }

    /** Fraction-to-boundary rule on (dual, ddual). */
    method MaxDualStepSize(data: ComponentData) returns (alpha: real)
      requires Valid() && data.WellFormed()
      ensures alpha == FractionToBoundary(fractionToBoundaryRule, data.dual, data.ddual)
      ensures 0.0 < alpha <= 1.0
    {
      alpha := ComputeFractionToBoundary(fractionToBoundaryRule, data.dual, data.ddual);
    }

    /** `slack += stepSize * dslack`; nothing else changes. */
    static method UpdateSlack(data: ComponentData, stepSize: real) returns (r: ComponentData)
      requires data.WellFormed()
      ensures r == data.(slack := r.slack)
      ensures |r.slack| == |data.slack|
      ensures forall i | 0 <= i < |r.slack| :: r.slack[i] == data.slack[i] + stepSize * data.dslack[i]
    {
      var slack := data.slack;
      for i := 0 to |slack|
        invariant |slack| == |data.slack|
        invariant forall j | 0 <= j < i :: slack[j] == data.slack[j] + stepSize * data.dslack[j]
        invariant forall j | i <= j < |slack| :: slack[j] == data.slack[j]
      {
        slack := slack[i := slack[i] + stepSize * data.dslack[i]];
      }
      r := data.(slack := slack);
    }

    /** `dual += stepSize * ddual`; nothing else changes. */
    static method UpdateDual(data: ComponentData, stepSize: real) returns (r: ComponentData)
      requires data.WellFormed()
      ensures r == data.(dual := r.dual)
      ensures |r.dual| == |data.dual|
      ensures forall i | 0 <= i < |r.dual| :: r.dual[i] == data.dual[i] + stepSize * data.ddual[i]
    {
      var dual := data.dual;
      for i := 0 to |dual|
        invariant |dual| == |data.dual|
        invariant forall j | 0 <= j < i :: dual[j] == data.dual[j] + stepSize * data.ddual[j]
        invariant forall j | i <= j < |dual| :: dual[j] == data.dual[j]
      {
        dual := dual[i := dual[i] + stepSize * data.ddual[i]];
      }
      r := data.(dual := dual);
    }

    /** Complementary slackness on the rows `[start, start + size)`; the
        other rows of `cmpl`, and every other vector, are untouched. */
    method ComputeComplementarySlacknessSegment(data: ComponentData, start: nat, size: nat) returns (r: ComponentData)
      requires Valid() && data.WellFormed()
      requires start + size <= data.Dimc()
      ensures r == data.(cmpl := r.cmpl)
      ensures |r.cmpl| == |data.cmpl|
      ensures forall i | 0 <= i < |r.cmpl| ::
        r.cmpl[i] == if start <= i < start + size
                     then ComplementarySlackness(barrier, data.slack[i], data.dual[i])
                     else data.cmpl[i]
    {
      var cmpl := data.cmpl;
      for i := start to start + size
        invariant |cmpl| == |data.cmpl|
        invariant forall j | 0 <= j < |cmpl| ::
          cmpl[j] == if start <= j < i
                     then ComplementarySlackness(barrier, data.slack[j], data.dual[j])
                     else data.cmpl[j]
      {
        cmpl := cmpl[i := ComplementarySlackness(barrier, data.slack[i], data.dual[i])];
      }
      r := data.(cmpl := cmpl);
    }

    /** Complementary slackness on every row. */
    method ComputeComplementarySlackness(data: ComponentData) returns (r: ComponentData)
      requires Valid() && data.WellFormed()
      ensures r == data.(cmpl := r.cmpl)
      ensures |r.cmpl| == data.Dimc()
      ensures forall i | 0 <= i < |r.cmpl| ::
        r.cmpl[i] == data.slack[i] * data.dual[i] - barrier
    {
      r := ComputeComplementarySlacknessSegment(data, 0, data.Dimc());
    }

    /** Condensing coefficients on the rows `[start, start + size)`. */
    static method ComputeCondensingCoefficientSegment(data: ComponentData, start: nat, size: nat) returns (r: ComponentData)
      requires data.WellFormed()
      requires start + size <= data.Dimc()
      requires forall i | start <= i < start + size :: data.slack[i] != 0.0
      ensures r == data.(cond := r.cond)
      ensures |r.cond| == |data.cond|
      ensures forall i | 0 <= i < |r.cond| ::
        r.cond[i] == if start <= i < start + size
                     then CondensingCoefficient(data.slack[i], data.dual[i], data.residual[i], data.cmpl[i])
                     else data.cond[i]
    {
      var cond := data.cond;
      for i := start to start + size
        invariant |cond| == |data.cond|
        invariant forall j | 0 <= j < |cond| ::
          cond[j] == if start <= j < i
                     then CondensingCoefficient(data.slack[j], data.dual[j], data.residual[j], data.cmpl[j])
                     else data.cond[j]
      {
        cond := cond[i := CondensingCoefficient(data.slack[i], data.dual[i], data.residual[i], data.cmpl[i])];
      }
      r := data.(cond := cond);
    }

    static method ComputeCondensingCoefficient(data: ComponentData) returns (r: ComponentData)
      requires data.WellFormed()
      requires forall i | 0 <= i < data.Dimc() :: data.slack[i] != 0.0
      ensures r == data.(cond := r.cond)
      ensures |r.cond| == data.Dimc()
      ensures forall i | 0 <= i < |r.cond| ::
        r.cond[i] * data.slack[i] == data.dual[i] * data.residual[i] + data.cmpl[i]
    {
      r := ComputeCondensingCoefficientSegment(data, 0, data.Dimc());
    }

    /** Dual direction on the rows `[start, start + size)`. */
    static method ComputeDualDirectionSegment(data: ComponentData, start: nat, size: nat) returns (r: ComponentData)
      requires data.WellFormed()
      requires start + size <= data.Dimc()
      requires forall i | start <= i < start + size :: data.slack[i] != 0.0
      ensures r == data.(ddual := r.ddual)
      ensures |r.ddual| == |data.ddual|
      ensures forall i | 0 <= i < |r.ddual| ::
        r.ddual[i] == if start <= i < start + size
                      then DualDirection(data.slack[i], data.dual[i], data.dslack[i], data.cmpl[i])
                      else data.ddual[i]
    {
      var ddual := data.ddual;
      for i := start to start + size
        invariant |ddual| == |data.ddual|
        invariant forall j | 0 <= j < |ddual| ::
          ddual[j] == if start <= j < i
                      then DualDirection(data.slack[j], data.dual[j], data.dslack[j], data.cmpl[j])
                      else data.ddual[j]
      {
        ddual := ddual[i := DualDirection(data.slack[i], data.dual[i], data.dslack[i], data.cmpl[i])];
      }
      r := data.(ddual := ddual);
    }

    /** Dual direction on every row: each row satisfies the linearised
        complementarity `cmpl + dual * dslack + slack * ddual == 0`. */
    static method ComputeDualDirection(data: ComponentData) returns (r: ComponentData)
      requires data.WellFormed()
      requires forall i | 0 <= i < data.Dimc() :: data.slack[i] != 0.0
      ensures r == data.(ddual := r.ddual)
      ensures |r.ddual| == data.Dimc()
      ensures forall i | 0 <= i < |r.ddual| ::
        r.ddual[i] == -(data.dual[i] * data.dslack[i] + data.cmpl[i]) / data.slack[i]
      ensures forall i | 0 <= i < |r.ddual| ::
        data.cmpl[i] + data.dual[i] * data.dslack[i] + data.slack[i] * r.ddual[i] == 0.0
    {
      r := ComputeDualDirectionSegment(data, 0, data.Dimc());
      forall i | 0 <= i < |r.ddual|
        ensures data.cmpl[i] + data.dual[i] * data.dslack[i] + data.slack[i] * r.ddual[i] == 0.0
      {
        DualDirectionSolvesLinearizedComplementarity(data.slack[i], data.dual[i], data.dslack[i], data.cmpl[i], r.ddual[i]);
      }
    }

    /** `-barrier * sum(log(slack))`; every slack entry must be positive. */
    method LogBarrier(ln: real -> real, slack: seq<real>) returns (lb: real)
      requires forall i | 0 <= i < |slack| :: slack[i] > 0.0
      ensures lb == LogBarrierValue(ln, barrier, slack)
    {
      var sum := 0.0;
      for i := 0 to |slack|
        invariant sum == Sum(MapLog(ln, slack[..i]))
      {
        assert MapLog(ln, slack[..i + 1]) == MapLog(ln, slack[..i]) + [ln(slack[i])];
        SumAppend(MapLog(ln, slack[..i]), [ln(slack[i])]);
        assert Sum([ln(slack[i])]) == ln(slack[i]) by {
          assert [ln(slack[i])][..0] == [];
        }
        sum := sum + ln(slack[i]);
      }
      assert slack[..|slack|] == slack;
      lb := -barrier * sum;
    }
  }
}
