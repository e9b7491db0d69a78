/** `LocalContactForceCost`: a weighted quadratic penalty on the deviation of
    every active point contact's 3D force from a reference, with one set of
    references and weights for the stages and one for the impulse stages.
    Its derivatives are stacked into the gradient `lf` and the diagonal of
    the Hessian block `Qff`, three rows per active contact, in contact
    order. */
module ContactForceCost {
  import opened Common

  type Vec3 = v: seq<real> | |v| == 3 witness [0.0, 0.0, 0.0]

  const ZeroVec3: Vec3 := [0.0, 0.0, 0.0]

  /** The contact part of a (split or impulse split) solution: the force of
      every point contact and whether the contact is active. */
  datatype ContactState = ContactState(f: seq<Vec3>, active: seq<bool>)

  /** A reference and a weight per contact. */
  datatype ForceTerm = ForceTerm(weight: seq<Vec3>, ref: seq<Vec3>)

  predicate Sized(t: ForceTerm, s: ContactState, m: nat)
  {
    |t.weight| == m && |t.ref| == m && |s.f| == m && |s.active| == m
  }

  predicate NonNegativeWeights(t: ForceTerm)
  {
    forall i, k | 0 <= i < |t.weight| && 0 <= k < 3 :: t.weight[i][k] >= 0.0
  }

  /** `(w * (f - ref) * (f - ref)).sum()` for one contact. */
  function ContactCost(w: Vec3, f: Vec3, ref: Vec3): real
  {
    w[0] * (f[0] - ref[0]) * (f[0] - ref[0]) +
    w[1] * (f[1] - ref[1]) * (f[1] - ref[1]) +
    w[2] * (f[2] - ref[2]) * (f[2] - ref[2])
  }

  /** The sum the cost loops accumulate over the first `m` contacts. */
  function CostUpTo(t: ForceTerm, s: ContactState, m: nat): real
    requires m <= |s.f| && Sized(t, s, |s.f|)
  {
    if m == 0 then 0.0
    else CostUpTo(t, s, m - 1) +
         (if s.active[m - 1] then ContactCost(t.weight[m - 1], s.f[m - 1], t.ref[m - 1]) else 0.0)
  }

  function CountActive(active: seq<bool>, m: nat): (r: nat)
    requires m <= |active|
    ensures r <= m
  {
    if m == 0 then 0 else CountActive(active, m - 1) + (if active[m - 1] then 1 else 0)
  }

  lemma {:induction false} CountActiveMonotone(active: seq<bool>, m: nat, m': nat)
    requires m <= m' <= |active|
    ensures CountActive(active, m) <= CountActive(active, m')
  {
    if m < m' {
      CountActiveMonotone(active, m, m' - 1);
    }
  }

  function Deviation(f: Vec3, ref: Vec3): seq<real>
  {
    [f[0] - ref[0], f[1] - ref[1], f[2] - ref[2]]
  }

  /** `scale * w * (f - ref)`, the gradient rows of one contact. */
  function ContactGradient(scale: real, w: Vec3, f: Vec3, ref: Vec3): seq<real>
  {
    [scale * w[0] * (f[0] - ref[0]), scale * w[1] * (f[1] - ref[1]), scale * w[2] * (f[2] - ref[2])]
  }

  /** `scale * w`, the Hessian diagonal rows of one contact. */
  function ContactHessian(scale: real, w: Vec3): seq<real>
  {
    [scale * w[0], scale * w[1], scale * w[2]]
  }

  /** The rows the derivative loop adds to `lf` for the first `m` contacts:
      one segment of three per active contact, in contact order. */
  function GradientUpTo(scale: real, t: ForceTerm, s: ContactState, m: nat): (r: seq<real>)
    requires m <= |s.f| && Sized(t, s, |s.f|)
    ensures |r| == 3 * CountActive(s.active, m)
  {
    if m == 0 then []
    else GradientUpTo(scale, t, s, m - 1) +
         (if s.active[m - 1] then ContactGradient(scale, t.weight[m - 1], s.f[m - 1], t.ref[m - 1]) else [])
  }

  /** The rows the Hessian loop adds to the diagonal of `Qff`. */
  function HessianUpTo(scale: real, t: ForceTerm, s: ContactState, m: nat): (r: seq<real>)
    requires m <= |s.f| && Sized(t, s, |s.f|)
    ensures |r| == 3 * CountActive(s.active, m)
  {
    if m == 0 then []
    else HessianUpTo(scale, t, s, m - 1) +
         (if s.active[m - 1] then ContactHessian(scale, t.weight[m - 1]) else [])
  }

  /** The stacked force deviations `f - ref` of the active contacts. */
  function DeviationUpTo(t: ForceTerm, s: ContactState, m: nat): (r: seq<real>)
    requires m <= |s.f| && Sized(t, s, |s.f|)
    ensures |r| == 3 * CountActive(s.active, m)
  {
    if m == 0 then []
    else DeviationUpTo(t, s, m - 1) +
         (if s.active[m - 1] then Deviation(s.f[m - 1], t.ref[m - 1]) else [])
  }

  /** `p == w * x * x` is not negative when `w` is not. */
  lemma WeightedSquareNonNegative(w: real, x: real, p: real)
    requires w >= 0.0 && p == w * x * x
    ensures p >= 0.0
  {
    SquareVanishes(x, x * x);
    if w > 0.0 && x * x > 0.0 {
      ProductPositive(w, x * x, p);
    } else if w == 0.0 {
      calc { p; == 0.0 * x * x; == 0.0; }
    } else {
      calc { p; == w * (x * x); == w * 0.0; == 0.0; }
    }
  }

  lemma ContactCostNonNegative(w: Vec3, f: Vec3, ref: Vec3)
    requires w[0] >= 0.0 && w[1] >= 0.0 && w[2] >= 0.0
    ensures ContactCost(w, f, ref) >= 0.0
  {
    var e0 := w[0] * (f[0] - ref[0]) * (f[0] - ref[0]);
    var e1 := w[1] * (f[1] - ref[1]) * (f[1] - ref[1]);
    var e2 := w[2] * (f[2] - ref[2]) * (f[2] - ref[2]);
    WeightedSquareNonNegative(w[0], f[0] - ref[0], e0);
    WeightedSquareNonNegative(w[1], f[1] - ref[1], e1);
    WeightedSquareNonNegative(w[2], f[2] - ref[2], e2);
    assert ContactCost(w, f, ref) == e0 + e1 + e2;
  }

  /** With non-negative weights the accumulated cost is not negative. */
  lemma {:induction false} CostNonNegative(t: ForceTerm, s: ContactState, m: nat)
    requires m <= |s.f| && Sized(t, s, |s.f|) && NonNegativeWeights(t)
    ensures CostUpTo(t, s, m) >= 0.0
  {
    if m > 0 {
      CostNonNegative(t, s, m - 1);
      if s.active[m - 1] {
        ContactCostNonNegative(t.weight[m - 1], s.f[m - 1], t.ref[m - 1]);
      }
    }
  }

  /** Two solutions whose active contacts and forces on them agree. */
  predicate SameActiveForces(s: ContactState, s': ContactState, m: nat)
    requires m <= |s.f| && m <= |s'.f| && m <= |s.active| && m <= |s'.active|
  {
    forall i | 0 <= i < m :: s.active[i] == s'.active[i] && (s.active[i] ==> s.f[i] == s'.f[i])
  }

  /** Inactive contacts contribute nothing: the cost and the derivatives see
      only the forces of the active contacts. */
  lemma {:induction false} OnlyActiveContactsCount(scale: real, t: ForceTerm, s: ContactState, s': ContactState, m: nat)
    requires m <= |s.f| && Sized(t, s, |s.f|) && Sized(t, s', |s'.f|) && |s.f| == |s'.f|
    requires SameActiveForces(s, s', m)
    ensures CostUpTo(t, s, m) == CostUpTo(t, s', m)
    ensures GradientUpTo(scale, t, s, m) == GradientUpTo(scale, t, s', m)
    ensures HessianUpTo(scale, t, s, m) == HessianUpTo(scale, t, s', m)
  {
    if m > 0 {
      OnlyActiveContactsCount(scale, t, s, s', m - 1);
    }
  }

  /** Forces on their references cost nothing and have a zero gradient. */
  lemma {:induction false} CostVanishesAtReference(scale: real, t: ForceTerm, s: ContactState, m: nat)
    requires m <= |s.f| && Sized(t, s, |s.f|)
    requires forall i | 0 <= i < m :: s.active[i] ==> s.f[i] == t.ref[i]
    ensures CostUpTo(t, s, m) == 0.0
    ensures forall j | 0 <= j < |GradientUpTo(scale, t, s, m)| :: GradientUpTo(scale, t, s, m)[j] == 0.0
  {
    if m > 0 {
      CostVanishesAtReference(scale, t, s, m - 1);
      if s.active[m - 1] {
        var w, f := t.weight[m - 1], s.f[m - 1];
        calc {
          ContactCost(w, f, t.ref[m - 1]);
          == w[0] * 0.0 * 0.0 + w[1] * 0.0 * 0.0 + w[2] * 0.0 * 0.0;
          == 0.0;
        }
        assert ContactGradient(scale, w, f, t.ref[m - 1]) == [scale * w[0] * 0.0, scale * w[1] * 0.0, scale * w[2] * 0.0];
      }
    }
  }

  /** Row `j` of `g` is row `j` of `h` times row `j` of `dv`. */
  predicate RowProducts(g: seq<real>, h: seq<real>, dv: seq<real>)
  {
    |g| == |h| == |dv| && forall j | 0 <= j < |g| :: g[j] == h[j] * dv[j]
  }

  /** The gradient is the Hessian diagonal times the force deviation, row
      by row: the cost is quadratic in the forces. */
  lemma {:induction false} GradientIsHessianTimesDeviation(scale: real, t: ForceTerm, s: ContactState, m: nat)
    requires m <= |s.f| && Sized(t, s, |s.f|)
    ensures RowProducts(GradientUpTo(scale, t, s, m), HessianUpTo(scale, t, s, m), DeviationUpTo(t, s, m))
  {
    if m > 0 {
      GradientIsHessianTimesDeviation(scale, t, s, m - 1);
      if s.active[m - 1] {
        ContactRowProducts(scale, t.weight[m - 1], s.f[m - 1], t.ref[m - 1]);
        StackedProduct(GradientUpTo(scale, t, s, m - 1), HessianUpTo(scale, t, s, m - 1), DeviationUpTo(t, s, m - 1),
                       ContactGradient(scale, t.weight[m - 1], s.f[m - 1], t.ref[m - 1]),
                       ContactHessian(scale, t.weight[m - 1]), Deviation(s.f[m - 1], t.ref[m - 1]));
      } else {
        assert GradientUpTo(scale, t, s, m) == GradientUpTo(scale, t, s, m - 1);
        assert HessianUpTo(scale, t, s, m) == HessianUpTo(scale, t, s, m - 1);
        assert DeviationUpTo(t, s, m) == DeviationUpTo(t, s, m - 1);
      }
    }
  }

  lemma ContactRowProducts(scale: real, w: Vec3, f: Vec3, ref: Vec3)
    ensures RowProducts(ContactGradient(scale, w, f, ref), ContactHessian(scale, w), Deviation(f, ref))
  {
    var g, h, dv := ContactGradient(scale, w, f, ref), ContactHessian(scale, w), Deviation(f, ref);
    assert g[0] == h[0] * dv[0] && g[1] == h[1] * dv[1] && g[2] == h[2] * dv[2];
  }

  /** Row-by-row products survive stacking another segment. */
  lemma StackedProduct(g: seq<real>, h: seq<real>, dv: seq<real>, g': seq<real>, h': seq<real>, dv': seq<real>)
    requires RowProducts(g, h, dv) && RowProducts(g', h', dv')
    ensures RowProducts(g + g', h + h', dv + dv')
  {
    forall j | 0 <= j < |g + g'|
      ensures (g + g')[j] == (h + h')[j] * (dv + dv')[j]
    {
      if j < |g| {
        assert (g + g')[j] == g[j] && (h + h')[j] == h[j] && (dv + dv')[j] == dv[j];
      } else {
        assert (g + g')[j] == g'[j - |g|] && (h + h')[j] == h'[j - |g|] && (dv + dv')[j] == dv'[j - |g|];
      }
    }
  }

  /** What the Hessian loop adds at row `r`, column `c` of `Qff`: the
      stacked rows on the diagonal, nothing elsewhere. */
  function DiagonalAddition(h: seq<real>, r: int, c: int): real
  {
    if r == c && 0 <= r < |h| then h[r] else 0.0
  }

  /** What the derivative loop adds at entry `j` of `lf`: the stacked
      rows, nothing past them. */
  function SegmentAddition(g: seq<real>, j: int): real
  {
    if 0 <= j < |g| then g[j] else 0.0
  }

  /** `lf.segment<3>(start) += segment`. */
  method AddToSegment(lf: array<real>, start: nat, segment: seq<real>)
    requires |segment| == 3 && start + 3 <= lf.Length
    modifies lf
    ensures forall j | 0 <= j < lf.Length ::
              lf[j] == old(lf[j]) + (if start <= j < start + 3 then segment[j - start] else 0.0)
  {
    forall k | 0 <= k < 3 {
      lf[start + k] := lf[start + k] + segment[k];
    }
  }

  /** `Qff.diagonal().segment<3>(start) += segment`, with the additions
      already made to rows before `start` carried along. */
  method AddToDiagonal(qff: array2<real>, start: nat, segment: seq<real>)
    requires |segment| == 3 && start + 3 <= qff.Length0 == qff.Length1
    modifies qff
    ensures forall r, c | 0 <= r < qff.Length0 && 0 <= c < qff.Length1 ::
              qff[r, c] == old(qff[r, c]) + (if r == c && start <= r < start + 3 then segment[r - start] else 0.0)
  {
    forall k | 0 <= k < 3 {
      qff[start + k, start + k] := qff[start + k, start + k] + segment[k];
    }
  }

  class LocalContactForceCost {
    var maxPointContacts: nat
    var maxDimf: nat
    var fRef: seq<Vec3>
    var fWeight: seq<Vec3>
    var fiRef: seq<Vec3>
    var fiWeight: seq<Vec3>

    ghost predicate Valid()
      reads this
    {
      |fRef| == maxPointContacts && |fWeight| == maxPointContacts &&
      |fiRef| == maxPointContacts && |fiWeight| == maxPointContacts
    }

    function StageTerm(): ForceTerm
      reads this
    {
      ForceTerm(fWeight, fRef)
    }

    function ImpulseTerm(): ForceTerm
      reads this
    {
      ForceTerm(fiWeight, fiRef)
    }

    /** The robot's `maxPointContacts()` and `max_dimf()` are the
        parameters; every reference and weight starts at zero. */
    constructor (maxPointContacts: nat, maxDimf: nat)
      ensures Valid()
      ensures this.maxPointContacts == maxPointContacts && this.maxDimf == maxDimf
      ensures fRef == Repeat(ZeroVec3, maxPointContacts) && fWeight == Repeat(ZeroVec3, maxPointContacts)
      ensures fiRef == Repeat(ZeroVec3, maxPointContacts) && fiWeight == Repeat(ZeroVec3, maxPointContacts)
    {
      this.maxPointContacts := maxPointContacts;
      this.maxDimf := maxDimf;
      this.fRef := Repeat(ZeroVec3, maxPointContacts);
      this.fWeight := Repeat(ZeroVec3, maxPointContacts);
      this.fiRef := Repeat(ZeroVec3, maxPointContacts);
      this.fiWeight := Repeat(ZeroVec3, maxPointContacts);
    }

    /** The default constructor: no contacts. */
    constructor Default()
      ensures Valid() && maxPointContacts == 0 && maxDimf == 0
      ensures fRef == [] && fWeight == [] && fiRef == [] && fiWeight == []
    {
      maxPointContacts := 0;
      maxDimf := 0;
      fRef := [];
      fWeight := [];
      fiRef := [];
      fiWeight := [];
    }

    /** `set_f_ref`; a vector of the wrong length is refused (the original
        ends the process) and nothing changes. */
    method SetFRef(fRef: seq<Vec3>) returns (outcome: Outcome<string>)
      requires Valid()
      modifies this
      ensures Valid() && maxPointContacts == old(maxPointContacts) && maxDimf == old(maxDimf)
      ensures fWeight == old(fWeight) && fiRef == old(fiRef) && fiWeight == old(fiWeight)
      ensures outcome.Fail? <==> |fRef| != maxPointContacts
      ensures this.fRef == if outcome.Pass? then fRef else old(this.fRef)
    {
      if |fRef| != maxPointContacts {
        return Fail("invalid size: f_ref.size() must be max_point_contacts");
      }
      this.fRef := fRef;
      return Pass;
    }

    /** `set_f_weight`, refused on a size mismatch like `SetFRef`. */
    method SetFWeight(fWeight: seq<Vec3>) returns (outcome: Outcome<string>)
      requires Valid()
      modifies this
      ensures Valid() && maxPointContacts == old(maxPointContacts) && maxDimf == old(maxDimf)
      ensures fRef == old(fRef) && fiRef == old(fiRef) && fiWeight == old(fiWeight)
      ensures outcome.Fail? <==> |fWeight| != maxPointContacts
      ensures this.fWeight == if outcome.Pass? then fWeight else old(this.fWeight)
    {
      if |fWeight| != maxPointContacts {
        return Fail("invalid size: f_weight.size() must be max_point_contacts");
      }
      this.fWeight := fWeight;
      return Pass;
    }

    /** `set_fi_ref`, refused on a size mismatch like `SetFRef`. */
    method SetFiRef(fiRef: seq<Vec3>) returns (outcome: Outcome<string>)
      requires Valid()
      modifies this
      ensures Valid() && maxPointContacts == old(maxPointContacts) && maxDimf == old(maxDimf)
      ensures fRef == old(fRef) && fWeight == old(fWeight) && fiWeight == old(fiWeight)
      ensures outcome.Fail? <==> |fiRef| != maxPointContacts
      ensures this.fiRef == if outcome.Pass? then fiRef else old(this.fiRef)
    {
      if |fiRef| != maxPointContacts {
        return Fail("invalid size: f_ref.size() must be max_point_contacts");
      }
      this.fiRef := fiRef;
      return Pass;
    }

    /** `set_fi_weight`, refused on a size mismatch like `SetFRef`. */
    method SetFiWeight(fiWeight: seq<Vec3>) returns (outcome: Outcome<string>)
      requires Valid()
      modifies this
      ensures Valid() && maxPointContacts == old(maxPointContacts) && maxDimf == old(maxDimf)
      ensures fRef == old(fRef) && fWeight == old(fWeight) && fiRef == old(fiRef)
      ensures outcome.Fail? <==> |fiWeight| != maxPointContacts
      ensures this.fiWeight == if outcome.Pass? then fiWeight else old(this.fiWeight)
    {
      if |fiWeight| != maxPointContacts {
        return Fail("invalid size: f_weight.size() must be max_point_contacts");
      }
      this.fiWeight := fiWeight;
      return Pass;
    }

    /** The cost needs no kinematics of the robot. */
    predicate UseKinematics()
    {
      false
    }

    /** The accumulation loop shared by `evalStageCost` and
        `evalImpulseCost`: the weighted squared deviations of the active
        contacts. */
    method AccumulateCost(t: ForceTerm, s: ContactState) returns (l: real)
      requires Sized(t, s, maxPointContacts)
      ensures l == CostUpTo(t, s, maxPointContacts)
    {
      l := 0.0;
      var i := 0;
      while i < maxPointContacts
        invariant 0 <= i <= maxPointContacts
        invariant l == CostUpTo(t, s, i)
      {
        if s.active[i] {
          l := l + ContactCost(t.weight[i], s.f[i], t.ref[i]);
        }
        i := i + 1;
      }
    }

    /** `evalStageCost`: half of `dt` times the accumulated sum, not negative
        for non-negative weights and time step. */
    method EvalStageCost(dt: real, s: ContactState) returns (cost: real)
      requires Valid() && |s.f| == maxPointContacts && |s.active| == maxPointContacts
      ensures cost == 0.5 * dt * CostUpTo(StageTerm(), s, maxPointContacts)
      ensures NonNegativeWeights(StageTerm()) && dt >= 0.0 ==> cost >= 0.0
    {
      var l := AccumulateCost(StageTerm(), s);
      cost := 0.5 * dt * l;
      if NonNegativeWeights(StageTerm()) && dt >= 0.0 {
        CostNonNegative(StageTerm(), s, maxPointContacts);
        if dt > 0.0 && l > 0.0 {
          ProductPositive(0.5 * dt, l, cost);
        } else if dt == 0.0 {
          calc { cost; == 0.5 * 0.0 * l; == 0.0; }
        } else {
          calc { cost; == 0.5 * dt * 0.0; == 0.0; }
        }
      }
    }

    /** `evalImpulseCost`: half the accumulated sum, with no time step. */
    method EvalImpulseCost(s: ContactState) returns (cost: real)
      requires Valid() && |s.f| == maxPointContacts && |s.active| == maxPointContacts
      ensures cost == 0.5 * CostUpTo(ImpulseTerm(), s, maxPointContacts)
      ensures NonNegativeWeights(ImpulseTerm()) ==> cost >= 0.0
    {
      var l := AccumulateCost(ImpulseTerm(), s);
      cost := 0.5 * l;
      if NonNegativeWeights(ImpulseTerm()) {
        CostNonNegative(ImpulseTerm(), s, maxPointContacts);
      }
    }

    /** The derivative loop: the `j`-th active contact adds
        `scale * w * (f - ref)` to `lf[3j .. 3j + 3)`; the other entries
        of `lf` keep their values. */
    method AddGradient(scale: real, t: ForceTerm, s: ContactState, lf: array<real>)
      requires Sized(t, s, maxPointContacts)
      requires 3 * CountActive(s.active, maxPointContacts) <= lf.Length
      modifies lf
      ensures var g := GradientUpTo(scale, t, s, maxPointContacts);
              forall j | 0 <= j < lf.Length :: lf[j] == old(lf[j]) + SegmentAddition(g, j)
    {
      var dimfStack := 0;
      var i := 0;
      while i < maxPointContacts
        invariant 0 <= i <= maxPointContacts
        invariant dimfStack == 3 * CountActive(s.active, i) && dimfStack <= lf.Length
        invariant forall j | 0 <= j < lf.Length ::
                    lf[j] == old(lf[j]) + SegmentAddition(GradientUpTo(scale, t, s, i), j)
      {
        CountActiveMonotone(s.active, i + 1, maxPointContacts);
        if s.active[i] {
          ghost var before := GradientUpTo(scale, t, s, i);
          var segment := ContactGradient(scale, t.weight[i], s.f[i], t.ref[i]);
          AddToSegment(lf, dimfStack, segment);
          assert GradientUpTo(scale, t, s, i + 1) == before + segment;
          dimfStack := dimfStack + 3;
        }
        i := i + 1;
      }
    }

    /** The Hessian loop: the `j`-th active contact adds `scale * w` to the
        diagonal of `Qff` at rows `3j .. 3j + 3`; nothing else in `Qff`
        changes. */
    method AddHessian(scale: real, t: ForceTerm, s: ContactState, qff: array2<real>)
      requires Sized(t, s, maxPointContacts)
      requires 3 * CountActive(s.active, maxPointContacts) <= qff.Length0 == qff.Length1
      modifies qff
      ensures var h := HessianUpTo(scale, t, s, maxPointContacts);
              forall r, c | 0 <= r < qff.Length0 && 0 <= c < qff.Length1 ::
                qff[r, c] == old(qff[r, c]) + DiagonalAddition(h, r, c)
    {
      var dimfStack := 0;
      var i := 0;
      while i < maxPointContacts
        invariant 0 <= i <= maxPointContacts
        invariant dimfStack == 3 * CountActive(s.active, i) && dimfStack <= qff.Length0
        invariant forall r, c | 0 <= r < qff.Length0 && 0 <= c < qff.Length1 ::
                    qff[r, c] == old(qff[r, c]) + DiagonalAddition(HessianUpTo(scale, t, s, i), r, c)
      {
        CountActiveMonotone(s.active, i + 1, maxPointContacts);
        if s.active[i] {
          ghost var before := HessianUpTo(scale, t, s, i);
          var segment := ContactHessian(scale, t.weight[i]);
          AddToDiagonal(qff, dimfStack, segment);
          assert HessianUpTo(scale, t, s, i + 1) == before + segment;
          dimfStack := dimfStack + 3;
        }
        i := i + 1;
      }
    }

    /** `evalStageCostDerivatives`: the stage gradient, scaled by `dt`. */
    method EvalStageCostDerivatives(dt: real, s: ContactState, lf: array<real>)
      requires Valid() && |s.f| == maxPointContacts && |s.active| == maxPointContacts
      requires 3 * CountActive(s.active, maxPointContacts) <= lf.Length
      modifies lf
      ensures var g := GradientUpTo(dt, StageTerm(), s, maxPointContacts);
              forall j | 0 <= j < lf.Length ::
                lf[j] == old(lf[j]) + SegmentAddition(g, j)
    {
      AddGradient(dt, StageTerm(), s, lf);
    }

    /** `evalStageCostHessian`: the stage Hessian diagonal, scaled by `dt`. */
    method EvalStageCostHessian(dt: real, s: ContactState, qff: array2<real>)
      requires Valid() && |s.f| == maxPointContacts && |s.active| == maxPointContacts
      requires 3 * CountActive(s.active, maxPointContacts) <= qff.Length0 == qff.Length1
      modifies qff
      ensures var h := HessianUpTo(dt, StageTerm(), s, maxPointContacts);
              forall r, c | 0 <= r < qff.Length0 && 0 <= c < qff.Length1 ::
                qff[r, c] == old(qff[r, c]) + DiagonalAddition(h, r, c)
    {
      AddHessian(dt, StageTerm(), s, qff);
    }

    /** `evalImpulseCostDerivatives`: the impulse gradient, with no time
        step (a scale of one). */
    method EvalImpulseCostDerivatives(s: ContactState, lf: array<real>)
      requires Valid() && |s.f| == maxPointContacts && |s.active| == maxPointContacts
      requires 3 * CountActive(s.active, maxPointContacts) <= lf.Length
      modifies lf
      ensures var g := GradientUpTo(1.0, ImpulseTerm(), s, maxPointContacts);
              forall j | 0 <= j < lf.Length ::
                lf[j] == old(lf[j]) + SegmentAddition(g, j)
    {
      AddGradient(1.0, ImpulseTerm(), s, lf);
    }

    /** `evalImpulseCostHessian`: the impulse Hessian diagonal, with no time
        step. */
    method EvalImpulseCostHessian(s: ContactState, qff: array2<real>)
      requires Valid() && |s.f| == maxPointContacts && |s.active| == maxPointContacts
      requires 3 * CountActive(s.active, maxPointContacts) <= qff.Length0 == qff.Length1
      modifies qff
      ensures var h := HessianUpTo(1.0, ImpulseTerm(), s, maxPointContacts);
              forall r, c | 0 <= r < qff.Length0 && 0 <= c < qff.Length1 ::
                qff[r, c] == old(qff[r, c]) + DiagonalAddition(h, r, c)
    {
      AddHessian(1.0, ImpulseTerm(), s, qff);
    }

    /** `evalTerminalCost`: the terminal stage carries no contact force
        cost. */
    function EvalTerminalCost(s: ContactState): (cost: real)
      ensures cost == 0.0
    {
      0.0
    }

    /** `evalTerminalCostDerivatives` does nothing. */
    method EvalTerminalCostDerivatives(s: ContactState, lf: array<real>)
      modifies lf
      ensures lf[..] == old(lf[..])
    {
    }

    /** `evalTerminalCostHessian` does nothing. */
    method EvalTerminalCostHessian(s: ContactState, qff: array2<real>)
      modifies qff
      ensures forall r, c | 0 <= r < qff.Length0 && 0 <= c < qff.Length1 :: qff[r, c] == old(qff[r, c])
    {
    }
  }
}
