/** The stage bookkeeping of `DirectMultipleShooting`: how one flat loop
    index enumerates the regular stages, the terminal stage, the impulse and
    auxiliary stages of each impulse event, the lift stages, and (in the KKT
    error only) the switching constraints; which successor direction every
    stage expands its dual with; how the KKT error and the total cost are
    assembled from the per-stage values.

    The per-stage computations themselves (`SplitOCP::KKTError`,
    `stageCost`, `expandDual`, ...) belong to other files; here they are
    inputs (`StageValues`) or are recorded as calls (`ExpandDualCall`,
    `StageUpdate`). */
module MultipleShooting {
  import opened Common

  /** One stage of the hybrid grid, with its index inside its own family. */
  datatype Stage =
    | Regular(index: nat)
    | Terminal
    | Impulse(index: nat)
    | Aux(index: nat)
    | Lift(index: nat)
    | Switching(index: nat)

  /** `N`, `N_impulse` and `N_lift` of the current time discretization. */
  datatype GridSize = GridSize(n: nat, nImpulse: nat, nLift: nat)

  /** Length of the loops of `initConstraints` and `integrateSolution`. */
  function NumStages(g: GridSize): nat
  {
    g.n + 1 + 2 * g.nImpulse + g.nLift
  }

  /** Length of the loop of `KKTError`: one more slot per impulse for its
      switching constraint. */
  function NumKKTEntries(g: GridSize): nat
  {
    NumStages(g) + g.nImpulse
  }

  predicate ValidStage(g: GridSize, s: Stage)
  {
    match s
    case Regular(i) => i < g.n
    case Terminal => true
    case Impulse(k) => k < g.nImpulse
    case Aux(k) => k < g.nImpulse
    case Lift(k) => k < g.nLift
    case Switching(k) => k < g.nImpulse
  }

  /** The if-else chain at the head of the three parallel loops. */
  function StageOf(g: GridSize, i: nat): (s: Stage)
    requires i < NumKKTEntries(g)
    ensures ValidStage(g, s)
    ensures s.Switching? <==> i >= NumStages(g)
  {
    if i < g.n then Regular(i)
    else if i == g.n then Terminal
    else if i < g.n + 1 + g.nImpulse then Impulse(i - (g.n + 1))
    else if i < g.n + 1 + 2 * g.nImpulse then Aux(i - (g.n + 1 + g.nImpulse))
    else if i < NumStages(g) then Lift(i - (g.n + 1 + 2 * g.nImpulse))
    else Switching(i - NumStages(g))
  }

  /** The loop index at which a stage is handled. */
  function FlatIndex(g: GridSize, s: Stage): (i: nat)
    requires ValidStage(g, s)
    ensures i < NumKKTEntries(g)
  {
    match s
    case Regular(k) => k
    case Terminal => g.n
    case Impulse(k) => g.n + 1 + k
    case Aux(k) => g.n + 1 + g.nImpulse + k
    case Lift(k) => g.n + 1 + 2 * g.nImpulse + k
    case Switching(k) => NumStages(g) + k
  }

  /** The decoding is a bijection between the loop range and the stages of
      the grid: every stage is visited, and visited exactly once. */
  lemma LayoutIsBijection(g: GridSize, i: nat, s: Stage)
    ensures i < NumKKTEntries(g) ==> FlatIndex(g, StageOf(g, i)) == i
    ensures ValidStage(g, s) ==> StageOf(g, FlatIndex(g, s)) == s
  {
  }

  /** The time discretization as the dispatch reads it: for every impulse
      and lift event the time stage just before it and whether its
      switching time is optimised (STO). */
  datatype Discretization = Discretization(
    grid: GridSize,
    timeStageBeforeImpulse: seq<nat>,
    isSTOEnabledImpulse: seq<bool>,
    timeStageBeforeLift: seq<nat>,
    isSTOEnabledLift: seq<bool>)

  /** What the discretization guarantees: one entry per event, events in
      time order inside the horizon, at most one event per interval. */
  predicate WellFormed(d: Discretization)
  {
    && |d.timeStageBeforeImpulse| == d.grid.nImpulse
    && |d.isSTOEnabledImpulse| == d.grid.nImpulse
    && |d.timeStageBeforeLift| == d.grid.nLift
    && |d.isSTOEnabledLift| == d.grid.nLift
    && (forall k | 0 <= k < d.grid.nImpulse :: d.timeStageBeforeImpulse[k] < d.grid.n)
    && (forall k | 0 <= k < d.grid.nLift :: d.timeStageBeforeLift[k] < d.grid.n)
    && StrictlyIncreasing(d.timeStageBeforeImpulse)
    && StrictlyIncreasing(d.timeStageBeforeLift)
    && (forall j, k | 0 <= j < d.grid.nImpulse && 0 <= k < d.grid.nLift ::
          d.timeStageBeforeImpulse[j] != d.timeStageBeforeLift[k])
  }

  /** The stage whose direction is `d[j]`: a regular stage, or the terminal
      stage for `j == N`. */
  function TimeStage(g: GridSize, j: nat): (s: Stage)
    requires j <= g.n
    ensures ValidStage(g, s) && !s.Switching?
  {
    if j < g.n then Regular(j) else Terminal
  }

  /** The successor direction and STO flag a stage passes to `expandDual`
      (`None` where the call takes no such argument). */
  datatype ExpandDualCall = ExpandDualCall(next: Option<Stage>, sto: Option<bool>)

  /** An `updatePrimal(primal_step_size)` / `updateDual(dual_step_size)`
      pair made by `stage` on its own direction and solution. */
  datatype StageUpdate = StageUpdate(stage: Stage, primalStepSize: real, dualStepSize: real)

  /** The successor dispatch of `integrateSolution`. */
  function ExpandDualOf(d: Discretization, s: Stage): ExpandDualCall
    requires WellFormed(d) && ValidStage(d.grid, s) && !s.Switching?
  {
    match s
    case Regular(i) =>
      (match FindIndex(d.timeStageBeforeImpulse, i)
       case Some(k) => ExpandDualCall(Some(Impulse(k)), Some(d.isSTOEnabledImpulse[k]))
       case None =>
         (match FindIndex(d.timeStageBeforeLift, i)
          case Some(k) => ExpandDualCall(Some(Lift(k)), Some(d.isSTOEnabledLift[k]))
          case None => ExpandDualCall(Some(TimeStage(d.grid, i + 1)), Some(false))))
    case Terminal => ExpandDualCall(None, None)
    case Impulse(k) => ExpandDualCall(Some(Aux(k)), None)
    case Aux(k) =>
      ExpandDualCall(Some(TimeStage(d.grid, d.timeStageBeforeImpulse[k] + 1)),
                     Some(d.isSTOEnabledImpulse[k]))
    case Lift(k) =>
      ExpandDualCall(Some(TimeStage(d.grid, d.timeStageBeforeLift[k] + 1)),
                     Some(d.isSTOEnabledLift[k]))
  }

  /** Position of a stage on the time axis: interval `i` holds regular
      stage `i`, then its impulse stage, then the auxiliary or lift stage
      that ends the interval. */
  function TimePosition(d: Discretization, s: Stage): nat
    requires WellFormed(d) && ValidStage(d.grid, s) && !s.Switching?
  {
    match s
    case Regular(i) => 3 * i
    case Terminal => 3 * d.grid.n
    case Impulse(k) => 3 * d.timeStageBeforeImpulse[k] + 1
    case Aux(k) => 3 * d.timeStageBeforeImpulse[k] + 2
    case Lift(k) => 3 * d.timeStageBeforeLift[k] + 2
  }

  /** Every stage but the terminal one expands its dual with the direction
      of a stage of the grid that lies strictly later in time. */
  lemma SuccessorIsLater(d: Discretization, s: Stage)
    requires WellFormed(d) && ValidStage(d.grid, s) && !s.Switching?
    ensures ExpandDualOf(d, s).next.None? <==> s == Terminal
    ensures ExpandDualOf(d, s).next.Some? ==>
              var t := ExpandDualOf(d, s).next.value;
              ValidStage(d.grid, t) && !t.Switching? &&
              TimePosition(d, t) > TimePosition(d, s)
  {
    match s
    case Regular(i) => RegularSuccessorIsLater(d, i);
    case Terminal =>
    case Impulse(k) =>
    case Aux(k) => EventSuccessorIsLater(d, d.timeStageBeforeImpulse[k]);
    case Lift(k) => EventSuccessorIsLater(d, d.timeStageBeforeLift[k]);
  }

  lemma RegularSuccessorIsLater(d: Discretization, i: nat)
    requires WellFormed(d) && i < d.grid.n
    ensures ExpandDualOf(d, Regular(i)).next.Some?
    ensures var t := ExpandDualOf(d, Regular(i)).next.value;
              ValidStage(d.grid, t) && !t.Switching? && TimePosition(d, t) > 3 * i
  {
    var impulse := FindIndex(d.timeStageBeforeImpulse, i);
    var lift := FindIndex(d.timeStageBeforeLift, i);
    if impulse.Some? {
      assert d.timeStageBeforeImpulse[impulse.value] == i;
    } else if lift.Some? {
      assert d.timeStageBeforeLift[lift.value] == i;
    }
  }

  /** The time stage after an event interval lies past the interval. */
  lemma EventSuccessorIsLater(d: Discretization, before: nat)
    requires WellFormed(d) && before < d.grid.n
    ensures TimePosition(d, TimeStage(d.grid, before + 1)) > 3 * before + 2
  {
  }

  /** The stage before impulse `k` looks ahead to the impulse stage with the
      impulse's STO flag; the impulse stage to its auxiliary stage; the
      auxiliary stage to the time stage after the impulse. */
  lemma ImpulseEventChain(d: Discretization, k: nat)
    requires WellFormed(d) && k < d.grid.nImpulse
    ensures ExpandDualOf(d, Regular(d.timeStageBeforeImpulse[k]))
              == ExpandDualCall(Some(Impulse(k)), Some(d.isSTOEnabledImpulse[k]))
    ensures ExpandDualOf(d, Impulse(k)) == ExpandDualCall(Some(Aux(k)), None)
    ensures ExpandDualOf(d, Aux(k))
              == ExpandDualCall(Some(TimeStage(d.grid, d.timeStageBeforeImpulse[k] + 1)),
                                Some(d.isSTOEnabledImpulse[k]))
  {
    FindIndexOfEntry(d.timeStageBeforeImpulse, k);
  }

  /** The stage before lift `k` looks ahead to the lift stage with the
      lift's STO flag; the lift stage to the time stage after the lift. */
  lemma LiftEventChain(d: Discretization, k: nat)
    requires WellFormed(d) && k < d.grid.nLift
    ensures ExpandDualOf(d, Regular(d.timeStageBeforeLift[k]))
              == ExpandDualCall(Some(Lift(k)), Some(d.isSTOEnabledLift[k]))
    ensures ExpandDualOf(d, Lift(k))
              == ExpandDualCall(Some(TimeStage(d.grid, d.timeStageBeforeLift[k] + 1)),
                                Some(d.isSTOEnabledLift[k]))
  {
    FindIndexOfEntry(d.timeStageBeforeLift, k);
  }

  /** A regular stage followed by no event looks ahead to `d[i+1]` and
      never with STO. */
  lemma PlainStageChain(d: Discretization, i: nat)
    requires WellFormed(d) && i < d.grid.n
    requires forall k | 0 <= k < d.grid.nImpulse :: d.timeStageBeforeImpulse[k] != i
    requires forall k | 0 <= k < d.grid.nLift :: d.timeStageBeforeLift[k] != i
    ensures ExpandDualOf(d, Regular(i)) == ExpandDualCall(Some(TimeStage(d.grid, i + 1)), Some(false))
  {
  }

  /** The time stage `initConstraints` hands to each stage (`None` for the
      impulse stages, whose call takes none). */
  function InitTimeStage(g: GridSize, s: Stage): Option<nat>
  {
    match s
    case Regular(i) => Some(i)
    case Terminal => Some(g.n)
    case Impulse(_) => None
    case Aux(_) => Some(0)
    case Lift(_) => Some(0)
    case Switching(_) => None
  }

  /** Per-stage values in the layout of `OCP`: a stage cost or KKT error per
      regular, impulse, auxiliary and lift stage, one for the terminal stage,
      and one per switching constraint. */
  datatype StageValues = StageValues(
    regular: seq<real>,
    terminal: real,
    impulse: seq<real>,
    aux: seq<real>,
    lift: seq<real>,
    switching: seq<real>)

  predicate FitsStages(g: GridSize, v: StageValues)
  {
    |v.regular| == g.n && |v.impulse| == g.nImpulse && |v.aux| == g.nImpulse
    && |v.lift| == g.nLift
  }

  predicate FitsAll(g: GridSize, v: StageValues)
  {
    FitsStages(g, v) && |v.switching| == g.nImpulse
  }

  function ValueAt(g: GridSize, v: StageValues, s: Stage): real
    requires FitsStages(g, v) && ValidStage(g, s)
    requires s.Switching? ==> s.index < |v.switching|
  {
    match s
    case Regular(i) => v.regular[i]
    case Terminal => v.terminal
    case Impulse(k) => v.impulse[k]
    case Aux(k) => v.aux[k]
    case Lift(k) => v.lift[k]
    case Switching(k) => v.switching[k]
  }

  /** The values of the first `count` loop indices, in loop order. */
  function Flat(g: GridSize, v: StageValues, count: nat): (r: seq<real>)
    requires FitsStages(g, v)
    requires count <= NumStages(g) || (FitsAll(g, v) && count <= NumKKTEntries(g))
    ensures |r| == count
  {
    seq(count, i requires 0 <= i < count => ValueAt(g, v, StageOf(g, i)))
  }

  /** Loop order is family order: regular, terminal, impulse, aux, lift,
      switching. */
  lemma FlatIsConcatenation(g: GridSize, v: StageValues)
    requires FitsAll(g, v)
    ensures Flat(g, v, NumStages(g)) == v.regular + [v.terminal] + v.impulse + v.aux + v.lift
    ensures Flat(g, v, NumKKTEntries(g))
              == v.regular + [v.terminal] + v.impulse + v.aux + v.lift + v.switching
  {
    var stages := v.regular + [v.terminal] + v.impulse + v.aux + v.lift;
    var all := stages + v.switching;
    forall i | 0 <= i < NumKKTEntries(g)
      ensures Flat(g, v, NumKKTEntries(g))[i] == all[i]
    {
      if i >= NumStages(g) {
        assert all[i] == v.switching[i - NumStages(g)];
      }
    }
    assert Flat(g, v, NumStages(g)) == Flat(g, v, NumKKTEntries(g))[..NumStages(g)];
    assert all[..NumStages(g)] == stages;
  }

  /** The sum over the loop range, family by family. */
  lemma FlatSum(g: GridSize, v: StageValues)
    requires FitsAll(g, v)
    ensures Sum(Flat(g, v, NumStages(g)))
              == Sum(v.regular) + v.terminal + Sum(v.impulse) + Sum(v.aux) + Sum(v.lift)
    ensures Sum(Flat(g, v, NumKKTEntries(g)))
              == Sum(v.regular) + v.terminal + Sum(v.impulse) + Sum(v.aux) + Sum(v.lift)
                 + Sum(v.switching)
  {
    FlatIsConcatenation(g, v);
    var a := v.regular + [v.terminal];
    SumAppend(v.regular, [v.terminal]);
    assert Sum([v.terminal]) == v.terminal by {
      assert [v.terminal][..0] == [];
    }
    SumAppend(a, v.impulse);
    SumAppend(a + v.impulse, v.aux);
    SumAppend(a + v.impulse + v.aux, v.lift);
    SumAppend(a + v.impulse + v.aux + v.lift, v.switching);
  }

  /** The `kkt_residual[i].h` values of the time stages (indices `0..N`)
      and the `h` of every auxiliary and lift stage. */
  datatype Hamiltonians = Hamiltonians(h: seq<real>, auxH: seq<real>, liftH: seq<real>)

  predicate FitsHamiltonians(d: Discretization, r: Hamiltonians)
  {
    |r.h| == d.grid.n + 1 && |r.auxH| == d.grid.nImpulse && |r.liftH| == d.grid.nLift
  }

  /** Mismatch of the Hamiltonian across impulse `k`: the two intervals
      around the event against the auxiliary stage (only one interval when
      the impulse follows stage 0). */
  function ImpulseHDiff(d: Discretization, r: Hamiltonians, k: nat): real
    requires WellFormed(d) && FitsHamiltonians(d, r) && k < d.grid.nImpulse
  {
    var tb := d.timeStageBeforeImpulse[k];
    if tb >= 1 then r.h[tb - 1] + r.h[tb] - r.auxH[k] else r.h[tb] - r.auxH[k]
  }

  function LiftHDiff(d: Discretization, r: Hamiltonians, k: nat): real
    requires WellFormed(d) && FitsHamiltonians(d, r) && k < d.grid.nLift
  {
    r.h[d.timeStageBeforeLift[k]] - r.liftH[k]
  }

  /** The auxiliary entry of impulse `k`: its stage error, plus the squared
      Hamiltonian mismatch when the impulse time is optimised. */
  function AuxEntry(d: Discretization, e: StageValues, r: Hamiltonians, k: nat): real
    requires WellFormed(d) && FitsAll(d.grid, e) && FitsHamiltonians(d, r) && k < d.grid.nImpulse
  {
    e.aux[k] + (if d.isSTOEnabledImpulse[k] then ImpulseHDiff(d, r, k) * ImpulseHDiff(d, r, k) else 0.0)
  }

  /** The lift entry of lift `k`, built the same way. */
  function LiftEntry(d: Discretization, e: StageValues, r: Hamiltonians, k: nat): real
    requires WellFormed(d) && FitsAll(d.grid, e) && FitsHamiltonians(d, r) && k < d.grid.nLift
  {
    e.lift[k] + (if d.isSTOEnabledLift[k] then LiftHDiff(d, r, k) * LiftHDiff(d, r, k) else 0.0)
  }

  /** The per-stage errors with the squared mismatches of the STO-enabled
      events added to their auxiliary and lift entries. */
  function WithSTOTerms(d: Discretization, e: StageValues, r: Hamiltonians): (w: StageValues)
    requires WellFormed(d) && FitsAll(d.grid, e) && FitsHamiltonians(d, r)
    ensures FitsAll(d.grid, w)
  {
    e.(aux := seq(d.grid.nImpulse, k requires 0 <= k < d.grid.nImpulse => AuxEntry(d, e, r, k)),
       lift := seq(d.grid.nLift, k requires 0 <= k < d.grid.nLift => LiftEntry(d, e, r, k)))
  }

  /** An auxiliary entry vanishes exactly when the stage error does and, for
      an STO-enabled impulse, the Hamiltonian mismatch does. */
  lemma AuxEntriesVanish(d: Discretization, e: StageValues, r: Hamiltonians)
    requires WellFormed(d) && FitsAll(d.grid, e) && FitsHamiltonians(d, r)
    requires NonNegative(e.aux)
    ensures NonNegative(WithSTOTerms(d, e, r).aux)
    ensures AllZero(WithSTOTerms(d, e, r).aux) <==>
              (AllZero(e.aux) &&
               forall k | 0 <= k < d.grid.nImpulse ::
                 d.isSTOEnabledImpulse[k] ==> ImpulseHDiff(d, r, k) == 0.0)
  {
    var w := WithSTOTerms(d, e, r).aux;
    forall k | 0 <= k < d.grid.nImpulse
      ensures w[k] >= 0.0
      ensures w[k] == 0.0 <==>
                e.aux[k] == 0.0 && (d.isSTOEnabledImpulse[k] ==> ImpulseHDiff(d, r, k) == 0.0)
    {
      var hd := ImpulseHDiff(d, r, k);
      SquareVanishes(hd, hd * hd);
      PenalisedVanishes(e.aux[k], d.isSTOEnabledImpulse[k], hd * hd);
    }
  }

  /** The lift counterpart of `AuxEntriesVanish`. */
  lemma LiftEntriesVanish(d: Discretization, e: StageValues, r: Hamiltonians)
    requires WellFormed(d) && FitsAll(d.grid, e) && FitsHamiltonians(d, r)
    requires NonNegative(e.lift)
    ensures NonNegative(WithSTOTerms(d, e, r).lift)
    ensures AllZero(WithSTOTerms(d, e, r).lift) <==>
              (AllZero(e.lift) &&
               forall k | 0 <= k < d.grid.nLift ::
                 d.isSTOEnabledLift[k] ==> LiftHDiff(d, r, k) == 0.0)
  {
    var w := WithSTOTerms(d, e, r).lift;
    forall k | 0 <= k < d.grid.nLift
      ensures w[k] >= 0.0
      ensures w[k] == 0.0 <==>
                e.lift[k] == 0.0 && (d.isSTOEnabledLift[k] ==> LiftHDiff(d, r, k) == 0.0)
    {
      var hd := LiftHDiff(d, r, k);
      SquareVanishes(hd, hd * hd);
      PenalisedVanishes(e.lift[k], d.isSTOEnabledLift[k], hd * hd);
    }
  }

  /** The first `N_all` entries of `kkt_error_` after `KKTError`. */
  function KKTEntries(d: Discretization, e: StageValues, r: Hamiltonians): (r': seq<real>)
    requires WellFormed(d) && FitsAll(d.grid, e) && FitsHamiltonians(d, r)
    ensures |r'| == NumKKTEntries(d.grid)
  {
    Flat(d.grid, WithSTOTerms(d, e, r), NumKKTEntries(d.grid))
  }

  predicate AllNonNegative(v: StageValues)
  {
    NonNegative(v.regular) && v.terminal >= 0.0 && NonNegative(v.impulse)
    && NonNegative(v.aux) && NonNegative(v.lift) && NonNegative(v.switching)
  }

  predicate AllVanish(v: StageValues)
  {
    AllZero(v.regular) && v.terminal == 0.0 && AllZero(v.impulse)
    && AllZero(v.aux) && AllZero(v.lift) && AllZero(v.switching)
  }

  /** With non-negative per-stage errors the squared KKT error is
      non-negative, and it vanishes exactly when every stage error vanishes
      and the Hamiltonian is continuous across every STO-enabled event. */
  lemma KKTErrorVanishes(d: Discretization, e: StageValues, r: Hamiltonians)
    requires WellFormed(d) && FitsAll(d.grid, e) && FitsHamiltonians(d, r)
    requires AllNonNegative(e)
    ensures Sum(KKTEntries(d, e, r)) >= 0.0
    ensures Sum(KKTEntries(d, e, r)) == 0.0 <==>
              && AllVanish(e)
              && (forall k | 0 <= k < d.grid.nImpulse ::
                    d.isSTOEnabledImpulse[k] ==> ImpulseHDiff(d, r, k) == 0.0)
              && (forall k | 0 <= k < d.grid.nLift ::
                    d.isSTOEnabledLift[k] ==> LiftHDiff(d, r, k) == 0.0)
  {
    var w := WithSTOTerms(d, e, r);
    FlatIsConcatenation(d.grid, w);
    AuxEntriesVanish(d, e, r);
    LiftEntriesVanish(d, e, r);
    var a := w.regular + [w.terminal];
    var parts := a + w.impulse + w.aux + w.lift + w.switching;
    assert NonNegative(parts) by {
      NonNegativeAppend(w.regular, [w.terminal]);
      NonNegativeAppend(a, w.impulse);
      NonNegativeAppend(a + w.impulse, w.aux);
      NonNegativeAppend(a + w.impulse + w.aux, w.lift);
      NonNegativeAppend(a + w.impulse + w.aux + w.lift, w.switching);
    }
    SumZeroIff(parts);
    AllZeroAppend(a + w.impulse + w.aux + w.lift, w.switching);
    AllZeroAppend(a + w.impulse + w.aux, w.lift);
    AllZeroAppend(a + w.impulse, w.aux);
    AllZeroAppend(a, w.impulse);
    AllZeroAppend(w.regular, [w.terminal]);
    assert [w.terminal][0] == w.terminal;
  }

  /** `kkt_error_` is sized for `max_num_impulse` events of each kind, so the
      writes of `KKTError` stay inside it while the grid keeps to that bound. */
  lemma KKTEntriesFit(g: GridSize, maxNumImpulse: nat)
    requires g.nImpulse <= maxNumImpulse && g.nLift <= maxNumImpulse
    ensures NumKKTEntries(g) <= g.n + 1 + 4 * maxNumImpulse
  {
  }

  /** The constructor's argument checks. */
  predicate ValidConfiguration(maxNumImpulse: int, nthreads: int)
  {
    maxNumImpulse >= 0 && nthreads > 0
  }

  /** `v.head(m).sum()` over an array, in index order. */
  method SumPrefix(a: array<real>, m: nat) returns (total: real)
    requires m <= a.Length
    ensures total == Sum(a[..m])
  {
    total := 0.0;
    var j := 0;
    while j < m
      invariant 0 <= j <= m
      invariant total == Sum(a[..m][..j])
    {
      SumPrefixStep(a[..m], j);
      total := total + a[j];
      j := j + 1;
    }
    assert a[..m][..m] == a[..m];
  }

  class DirectMultipleShooting {
    var maxNumImpulse: int
    var nthreads: int
    var kktError: array<real>

    /** `kkt_error_` has the size the constructor gives it for a horizon of
        `n` stages: one slot per regular and terminal stage and four per
        admissible impulse. */
    predicate Valid(n: nat)
      reads this
    {
      maxNumImpulse >= 0 && kktError.Length == n + 1 + 4 * maxNumImpulse
    }

    /** Rejected (the process exits) unless `ValidConfiguration` holds. */
    constructor (n: nat, maxNumImpulse: int, nthreads: int)
      requires ValidConfiguration(maxNumImpulse, nthreads)
      ensures this.maxNumImpulse == maxNumImpulse && this.nthreads == nthreads
      ensures fresh(kktError) && kktError[..] == Zeros(n + 1 + 4 * maxNumImpulse)
      ensures Valid(n)
    {
      this.maxNumImpulse := maxNumImpulse;
      this.nthreads := nthreads;
      kktError := new real[n + 1 + 4 * maxNumImpulse](_ => 0.0);
    }

    constructor Default()
      ensures maxNumImpulse == 0 && nthreads == 0 && kktError.Length == 0
    {
      maxNumImpulse := 0;
      nthreads := 0;
      kktError := new real[0];
    }

    /** The time stage each stage's constraints are initialised with, in
        loop order. */
    method InitConstraints(g: GridSize) returns (calls: seq<Option<nat>>)
      ensures |calls| == NumStages(g)
      ensures forall i | 0 <= i < NumStages(g) :: calls[i] == InitTimeStage(g, StageOf(g, i))
    {
      calls := [];
      var i := 0;
      while i < NumStages(g)
        invariant 0 <= i <= NumStages(g) && |calls| == i
        invariant forall j | 0 <= j < i :: calls[j] == InitTimeStage(g, StageOf(g, j))
      {
        var call: Option<nat>;
        if i < g.n {
          call := Some(i);
        } else if i == g.n {
          call := Some(g.n);
        } else if i < g.n + 1 + g.nImpulse {
          call := None;
        } else if i < g.n + 1 + 2 * g.nImpulse {
          call := Some(0);
        } else {
          call := Some(0);
        }
        calls := calls + [call];
        i := i + 1;
      }
    }

    /** The `expandDual` call of the stage handled at loop index `i`. */
    method ExpandDualCallAt(d: Discretization, i: nat) returns (call: ExpandDualCall)
      requires WellFormed(d) && i < NumStages(d.grid)
      ensures call == ExpandDualOf(d, StageOf(d.grid, i))
    {
      var g := d.grid;
      if i < g.n {
        var impulseIndex := FindIndex(d.timeStageBeforeImpulse, i);
        var liftIndex := FindIndex(d.timeStageBeforeLift, i);
        if impulseIndex.Some? {
          var k := impulseIndex.value;
          call := ExpandDualCall(Some(Impulse(k)), Some(d.isSTOEnabledImpulse[k]));
        } else if liftIndex.Some? {
          var k := liftIndex.value;
          call := ExpandDualCall(Some(Lift(k)), Some(d.isSTOEnabledLift[k]));
        } else {
          call := ExpandDualCall(Some(TimeStage(g, i + 1)), Some(false));
        }
      } else if i == g.n {
        call := ExpandDualCall(None, None);
      } else if i < g.n + 1 + g.nImpulse {
        call := ExpandDualCall(Some(Aux(i - (g.n + 1))), None);
      } else if i < g.n + 1 + 2 * g.nImpulse {
        var k := i - (g.n + 1 + g.nImpulse);
        call := ExpandDualCall(Some(TimeStage(g, d.timeStageBeforeImpulse[k] + 1)),
                               Some(d.isSTOEnabledImpulse[k]));
      } else {
        var k := i - (g.n + 1 + 2 * g.nImpulse);
        call := ExpandDualCall(Some(TimeStage(g, d.timeStageBeforeLift[k] + 1)),
                               Some(d.isSTOEnabledLift[k]));
      }
    }

    /** The calls of `integrateSolution`, in loop order: the `expandDual`
        call of each stage, and the `updatePrimal`/`updateDual` pair that
        follows it, which every stage makes on its own direction and
        solution with the two step sizes of the iteration. Every stage of
        the grid is updated, and updated exactly once. */
    method IntegrateSolution(d: Discretization, primalStepSize: real, dualStepSize: real)
      returns (calls: seq<ExpandDualCall>, updates: seq<StageUpdate>)
      requires WellFormed(d)
      ensures |calls| == NumStages(d.grid) && |updates| == NumStages(d.grid)
      ensures forall i | 0 <= i < NumStages(d.grid) ::
                calls[i] == ExpandDualOf(d, StageOf(d.grid, i))
      ensures forall i | 0 <= i < NumStages(d.grid) ::
                updates[i] == StageUpdate(StageOf(d.grid, i), primalStepSize, dualStepSize)
      ensures forall s | ValidStage(d.grid, s) && !s.Switching? ::
                FlatIndex(d.grid, s) < |updates| && updates[FlatIndex(d.grid, s)].stage == s
      ensures forall i, j | 0 <= i < j < |updates| :: updates[i].stage != updates[j].stage
    {
      var g := d.grid;
      calls := [];
      updates := [];
      var i := 0;
      while i < NumStages(g)
        invariant 0 <= i <= NumStages(g) && |calls| == i && |updates| == i
        invariant forall j | 0 <= j < i :: calls[j] == ExpandDualOf(d, StageOf(g, j))
        invariant forall j | 0 <= j < i :: updates[j] == StageUpdate(StageOf(g, j), primalStepSize, dualStepSize)
      {
        var call := ExpandDualCallAt(d, i);
        calls := calls + [call];
        updates := updates + [StageUpdate(StageOf(g, i), primalStepSize, dualStepSize)];
        i := i + 1;
      }
      forall s | ValidStage(g, s) && !s.Switching?
        ensures FlatIndex(g, s) < |updates| && updates[FlatIndex(g, s)].stage == s
      {
        LayoutIsBijection(g, 0, s);
      }
      forall i, j | 0 <= i < j < |updates|
        ensures updates[i].stage != updates[j].stage
      {
        LayoutIsBijection(g, i, StageOf(g, j));
      }
    }

    /** The auxiliary stage of impulse `k`: its error, plus the squared
        mismatch between the Hamiltonians around the impulse and the
        auxiliary Hamiltonian when the impulse time is optimised. */
    method AuxKKTEntry(d: Discretization, e: StageValues, r: Hamiltonians, k: nat) returns (entry: real)
      requires WellFormed(d) && FitsAll(d.grid, e) && FitsHamiltonians(d, r) && k < d.grid.nImpulse
      ensures entry == AuxEntry(d, e, r, k)
    {
      entry := e.aux[k];
      if d.isSTOEnabledImpulse[k] {
        var tb := d.timeStageBeforeImpulse[k];
        var hdiff;
        if tb >= 1 {
          hdiff := r.h[tb - 1] + r.h[tb] - r.auxH[k];
        } else {
          hdiff := r.h[tb] - r.auxH[k];
        }
        assert hdiff == ImpulseHDiff(d, r, k);
        entry := entry + hdiff * hdiff;
      }
    }

    /** The lift stage of lift `k`, built the same way. */
    method LiftKKTEntry(d: Discretization, e: StageValues, r: Hamiltonians, k: nat) returns (entry: real)
      requires WellFormed(d) && FitsAll(d.grid, e) && FitsHamiltonians(d, r) && k < d.grid.nLift
      ensures entry == LiftEntry(d, e, r, k)
    {
      entry := e.lift[k];
      if d.isSTOEnabledLift[k] {
        var hdiff := r.h[d.timeStageBeforeLift[k]] - r.liftH[k];
        entry := entry + hdiff * hdiff;
      }
    }

    /** The body of the `KKTError` loop for index `i`: the per-stage error,
        with the squared Hamiltonian mismatch added for STO-enabled events. */
    method KKTEntryAt(d: Discretization, e: StageValues, r: Hamiltonians, i: nat) returns (entry: real)
      requires WellFormed(d) && FitsAll(d.grid, e) && FitsHamiltonians(d, r)
      requires i < NumKKTEntries(d.grid)
      ensures entry == KKTEntries(d, e, r)[i]
    {
      var g := d.grid;
      ghost var w := WithSTOTerms(d, e, r);
      if i < g.n {
        entry := e.regular[i];
        assert StageOf(g, i) == Regular(i);
      } else if i == g.n {
        entry := e.terminal;
        assert StageOf(g, i) == Terminal;
      } else if i < g.n + 1 + g.nImpulse {
        entry := e.impulse[i - (g.n + 1)];
        assert StageOf(g, i) == Impulse(i - (g.n + 1));
      } else if i < g.n + 1 + 2 * g.nImpulse {
        var k := i - (g.n + 1 + g.nImpulse);
        assert StageOf(g, i) == Aux(k) && w.aux[k] == AuxEntry(d, e, r, k);
        entry := AuxKKTEntry(d, e, r, k);
      } else if i < NumStages(g) {
        var k := i - (g.n + 1 + 2 * g.nImpulse);
        assert StageOf(g, i) == Lift(k) && w.lift[k] == LiftEntry(d, e, r, k);
        entry := LiftKKTEntry(d, e, r, k);
      } else {
        entry := e.switching[i - NumStages(g)];
        assert StageOf(g, i) == Switching(i - NumStages(g));
      }
    }

    /** Fills `kkt_error_` stage by stage and returns the sum of its first
        `N_all` entries (the square of the value the solver reports). */
    method KKTError(d: Discretization, e: StageValues, r: Hamiltonians) returns (squaredError: real)
      requires WellFormed(d) && FitsAll(d.grid, e) && FitsHamiltonians(d, r)
      requires Valid(d.grid.n)
      requires d.grid.nImpulse <= maxNumImpulse && d.grid.nLift <= maxNumImpulse
      modifies kktError
      ensures kktError[..NumKKTEntries(d.grid)] == KKTEntries(d, e, r)
      ensures kktError[NumKKTEntries(d.grid)..] == old(kktError[NumKKTEntries(d.grid)..])
      ensures squaredError == Sum(KKTEntries(d, e, r))
    {
      KKTEntriesFit(d.grid, maxNumImpulse);
      FillKKTError(d, e, r);
      squaredError := SumPrefix(kktError, NumKKTEntries(d.grid));
    }

    /** The loop of `computeKKTError` that fills `kkt_error_`, one entry
        per stage in loop order. */
    method FillKKTError(d: Discretization, e: StageValues, r: Hamiltonians)
      requires WellFormed(d) && FitsAll(d.grid, e) && FitsHamiltonians(d, r)
      requires NumKKTEntries(d.grid) <= kktError.Length
      modifies kktError
      ensures kktError[..NumKKTEntries(d.grid)] == KKTEntries(d, e, r)
      ensures kktError[NumKKTEntries(d.grid)..] == old(kktError[NumKKTEntries(d.grid)..])
    {
      var nAll := NumKKTEntries(d.grid);
      ghost var target := KKTEntries(d, e, r);
      var i := 0;
      while i < nAll
        invariant 0 <= i <= nAll
        invariant forall j | 0 <= j < i :: kktError[j] == target[j]
        invariant kktError[nAll..] == old(kktError[nAll..])
      {
        var entry := KKTEntryAt(d, e, r, i);
        kktError[i] := entry;
        i := i + 1;
      }
      assert kktError[..nAll] == target;
    }

    /** Sum of the stage costs: regular stages, the terminal stage, each
        impulse stage with its auxiliary stage, then the lift stages. */
    method TotalCost(g: GridSize, c: StageValues) returns (total: real)
      requires FitsStages(g, c)
      ensures total == Sum(c.regular) + c.terminal + Sum(c.impulse) + Sum(c.aux) + Sum(c.lift)
    {
      total := 0.0;
      var i := 0;
      while i < g.n
        invariant 0 <= i <= g.n && total == Sum(c.regular[..i])
      {
        SumPrefixStep(c.regular, i);
        total := total + c.regular[i];
        i := i + 1;
      }
      assert c.regular[..g.n] == c.regular;
      total := total + c.terminal;
      ghost var base := total;
      i := 0;
      while i < g.nImpulse
        invariant 0 <= i <= g.nImpulse
        invariant total == base + Sum(c.impulse[..i]) + Sum(c.aux[..i])
      {
        SumPrefixStep(c.impulse, i);
        SumPrefixStep(c.aux, i);
        total := total + c.impulse[i];
        total := total + c.aux[i];
        i := i + 1;
      }
      assert c.impulse[..g.nImpulse] == c.impulse && c.aux[..g.nImpulse] == c.aux;
      base := total;
      i := 0;
      while i < g.nLift
        invariant 0 <= i <= g.nLift && total == base + Sum(c.lift[..i])
      {
        SumPrefixStep(c.lift, i);
        total := total + c.lift[i];
        i := i + 1;
      }
      assert c.lift[..g.nLift] == c.lift;
    }
  }

  /** The cost loop, which interleaves impulse and auxiliary stages, adds up
      exactly the stages the layout enumerates, each once. */
  lemma TotalCostCoversEveryStage(g: GridSize, c: StageValues)
    requires FitsStages(g, c)
    ensures Sum(Flat(g, c, NumStages(g)))
              == Sum(c.regular) + c.terminal + Sum(c.impulse) + Sum(c.aux) + Sum(c.lift)
  {
    var full := c.(switching := Zeros(g.nImpulse));
    FlatSum(g, full);
    assert Flat(g, c, NumStages(g)) == Flat(g, full, NumStages(g));
  }
}
