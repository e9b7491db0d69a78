# robotoc bookkeeping core in Dafny

This project models the bookkeeping and scalar-rule layer of the robotoc
optimal-control solver over mathematical reals:

- **Constraints** (`constraints_data.dfy`): `ConstraintsData`. A time-stage
  index selects which constraint levels are valid (position, velocity,
  acceleration, impulse). The KKT error, the log barrier, both feasibility
  measures and the slack/dual copy then run over the valid levels only.
- **ConstraintComponent** (`constraint_component.dfy`): the primal-dual
  interior-point rules of `ConstraintComponentBase`. These are
  complementary slackness, the dual direction, condensing coefficients, the
  fraction-to-boundary step, the slack/dual positivity reset, slack and dual
  updates, the log barrier, and the barrier and fraction parameters.
- **MultipleShooting** (`multiple_shooting.dfy`): the stage layout of
  `DirectMultipleShooting`. One loop index decodes to a regular, terminal,
  impulse, auxiliary, lift or switching stage. On top of that layout the
  module models the successor each stage passes to `expandDual`, the
  assembly of the KKT error (with the squared Hamiltonian mismatch of
  switching-time-optimised events), and the total cost.
- **LineSearch** (`line_search.dfy`): the backtracking filter line search of
  `UnconstrLineSearch`. The trial point is `s + step * d` on `q`, `v`, `a`
  and `u`; the step shrinks geometrically until the filter accepts, and it
  is clamped to the minimum step.
- **ContactForceCost** (`contact_force_cost.dfy`): `LocalContactForceCost`.
  A weighted quadratic penalty sits on the forces of the active contacts.
  Its gradient and Hessian diagonal are written at offset
  `3 * (number of earlier active contacts)`, and its setters check sizes.
- **ImpulseSolution** (`impulse_solution.dfy`): `ImpulseSplitSolution`.
  Per-contact 6-vectors `f` and `mu` are stacked to and from `f_stack()` and
  `mu_stack()` according to the impulse status. The module also covers
  `dimi()`, the activity queries, `copyPrimal`/`copyDual` and the
  Lagrange-multiplier norm.
- **Common** (`common.dfy`): sums, the L-infinity norm and index lookup,
  shared by the modules above.

Eigen vectors are `seq<real>`; buffers that the source writes in place are
`array`s. The robot model, the per-stage `SplitOCP` computations, the
filter's acceptance test, `log` and the cost/violation evaluation are
parameters of the operations that use them.

## Model

| member | source | states |
|---|---|---|
| Constraints.LevelsAt | include/robotoc/constraints/constraints_data.hxx:30-55 | The validity table: impulse is valid exactly when none of the other three levels is; position implies velocity implies acceleration; some level is always valid |
| Constraints.LevelsAtThresholds | include/robotoc/constraints/constraints_data.hxx:31-54 | Position is valid iff the stage is at least 2, velocity iff at least 1, acceleration iff at least 0, and impulse iff at most -1 |
| Constraints.LevelsAtMonotone | include/robotoc/constraints/constraints_data.hxx:31-48 | Among regular stages, a level valid at stage s stays valid at every later stage, and the impulse level is never valid |
| Constraints.ConstraintsData.Default | include/robotoc/constraints/constraints_data.hxx:18-23 | The default constructor leaves all four levels invalid |
| Constraints.ConstraintsData.constructor | include/robotoc/constraints/constraints_data.hxx:9-15 | The `int` constructor ends with exactly the validity `setTimeStage` gives |
| Constraints.ConstraintsData.SetTimeStage | include/robotoc/constraints/constraints_data.hxx:30-55 | The validity flags become the table's row for the stage; the level data is untouched |
| Constraints.CopyLevel | include/robotoc/constraints/constraints_data.hxx:80-83 | Every entry takes the slack and dual of the matching entry of `other`; every other field of each entry is kept |
| Constraints.ConstraintsData.CopySlackAndDual | include/robotoc/constraints/constraints_data.hxx:78-103 | Each valid level is copied entry by entry from `other`; invalid levels and the validity flags are unchanged |
| Constraints.AccumulateLevel | include/robotoc/constraints/constraints_data.hxx:109-111 | The range-for over one level adds exactly the sum of the per-component values to the accumulator |
| Constraints.AccumulateValidLevels | include/robotoc/constraints/constraints_data.hxx:107-128 | The four guarded loops compute the fold over the valid levels |
| Constraints.ConstraintsData.KKTError | include/robotoc/constraints/constraints_data.hxx:106-129 | The KKT error is the sum of the component errors over the valid levels |
| Constraints.ConstraintsData.LogBarrier | include/robotoc/constraints/constraints_data.hxx:132-155 | The log barrier is the sum of the components' `log_barrier` over the valid levels |
| Constraints.ConstraintsData.PrimalFeasibility | include/robotoc/constraints/constraints_data.hxx:164-188 | The sum of the norms of the primal residuals over the valid levels |
| Constraints.ConstraintsData.DualFeasibility | include/robotoc/constraints/constraints_data.hxx:191-215 | The sum of the norms of the complementarity residuals over the valid levels |
| Constraints.ConstraintsData.ConstraintViolation | include/robotoc/constraints/constraints_data.hxx:158-161 | The constraint violation is the primal feasibility measure |
| Constraints.ValidLevelSumIgnoresInvalid | include/robotoc/constraints/constraints_data.hxx:106-155 | Two stages that agree on their valid levels have equal aggregates, whatever their invalid levels hold |
| Constraints.ValidLevelSumNoLevel | include/robotoc/constraints/constraints_data.hxx:106-129 | With no valid level (the default-constructed data) every aggregate is 0 |
| Constraints.ValidLevelSumNonNegative | include/robotoc/constraints/constraints_data.hxx:106-129 | A non-negative per-component measure gives a non-negative aggregate |
| Constraints.ValidLevelSumAtImpulseStage | include/robotoc/constraints/constraints_data.hxx:49-54 | At an impulse stage only the impulse data counts; at a regular stage the impulse data never counts |
| Constraints.FeasibilityNonNegative | include/robotoc/constraints/constraints_data.hxx:164-215 | With a genuine norm, both feasibility measures are non-negative |
| Constraints.KKTErrorAfterSetTimeStage | include/robotoc/constraints/constraints_data.hxx:30-55 | After `setTimeStage`, the KKT error is non-negative; at an impulse stage it is the impulse level's sum, and at stage 0 the acceleration level's sum |
| ConstraintComponent.ComponentData.CopySlackAndDual | include/robotoc/constraints/constraints_data.hxx:82 | Slack and dual are taken from `other`; every other field is kept |
| ConstraintComponent.ConstraintComponentBase.constructor | include/robotoc/constraints/constraint_component_base.hpp:44-45 | A positive barrier and a fraction strictly inside (0, 1) are stored; the defaults are 1.0e-3 and 0.995 |
| ConstraintComponent.ConstraintComponentBase.SetBarrierParam | include/robotoc/constraints/constraint_component_base.hpp:220 | The getter then returns the value set; the fraction is kept and the parameter contract still holds |
| ConstraintComponent.ConstraintComponentBase.SetFractionToBoundaryRule | include/robotoc/constraints/constraint_component_base.hpp:227-228 | The getter then returns the value set; the barrier is kept and the parameter contract still holds |
| ConstraintComponent.ConstraintComponentBase.SetSlackAndDualPositive | include/robotoc/constraints/constraint_component_base.hpp:168-172 | Every slack and dual entry ends at or above the barrier, as the declaration and the test at test/constraints/pdipm_test.cpp:31-37 require; each vector is moved as a whole by `ShiftToBarrier` (a modelling choice, see "Left out"), and no other field changes |
| ConstraintComponent.ShiftInPlace | test/constraints/pdipm_test.cpp:31-37 | The loop "while the smallest entry is below the barrier, add the barrier to the whole vector" ends with the vector `ShiftToBarrier` specifies, every entry at or above the barrier |
| ConstraintComponent.ShiftToBarrier | test/constraints/pdipm_test.cpp:35-36 | The reset vector has every entry at or above the barrier and at or above its old value; every entry is moved by the same amount; a vector already at or above the barrier is kept |
| ConstraintComponent.MinCoeff | test/constraints/pdipm_test.cpp:35-36 | `minCoeff()` is a lower bound of every entry and is one of the entries |
| ConstraintComponent.ComputeFractionToBoundary | include/robotoc/constraints/constraint_component_base.hpp:174-188 | The row loop returns the fraction-to-boundary step, a value in (0, 1] |
| ConstraintComponent.FractionToBoundaryUpTo | include/robotoc/constraints/constraint_component_base.hpp:174-188 | The rule over any prefix of the rows lies in (0, 1] |
| ConstraintComponent.FractionBelowEachRow | include/robotoc/constraints/constraint_component_base.hpp:174-188 | The step never exceeds any row's own fraction that lies inside (0, 1) |
| ConstraintComponent.FractionIsSomeRow | include/robotoc/constraints/constraint_component_base.hpp:174-188 | The step is either 1 or one row's fraction |
| ConstraintComponent.RowStaysInside | test/constraints/pdipm_test.cpp:52-60 | A positive row moved by a step within its fraction keeps at least `(1 - rate)` of its value |
| ConstraintComponent.RowOnBoundary | test/constraints/pdipm_test.cpp:52-60 | A row moved by exactly its positive fraction lands on its `(1 - rate)` boundary |
| ConstraintComponent.RowCrossesBeyond | test/constraints/pdipm_test.cpp:52-60 | A row on its boundary after one step crosses it after any larger step |
| ConstraintComponent.FractionToBoundarySound | test/constraints/pdipm_test.cpp:52-60 | For a positive vector, the step is in (0, 1] and every row stays at least `(1 - rate)` of its value, hence `vec + step * dvec >= 0`; the step is 1 or some row lands on its boundary |
| ConstraintComponent.FractionToBoundaryIsLargest | test/constraints/pdipm_test.cpp:52-60 | Any larger step up to 1 pushes some row past its boundary |
| ConstraintComponent.ConstraintComponentBase.MaxSlackStepSize | include/robotoc/constraints/constraint_component_base.hpp:180 | The step on `(slack, dslack)` equals the generic rule on those vectors, in (0, 1] |
| ConstraintComponent.ConstraintComponentBase.MaxDualStepSize | include/robotoc/constraints/constraint_component_base.hpp:188 | The step on `(dual, ddual)` equals the generic rule on those vectors, in (0, 1] |
| ConstraintComponent.ConstraintComponentBase.UpdateSlack | include/robotoc/constraints/constraint_component_base.hpp:195 | `slack[i]` becomes `slack[i] + step * dslack[i]` for every row, and no other field changes |
| ConstraintComponent.ConstraintComponentBase.UpdateDual | include/robotoc/constraints/constraint_component_base.hpp:202 | `dual[i]` becomes `dual[i] + step * ddual[i]` for every row, and no other field changes |
| ConstraintComponent.ComplementarySlacknessVanishesOnCentralPath | include/robotoc/constraints/constraint_component_base.hpp:276-277 | The residual is zero exactly on the central path `slack * dual == barrier` |
| ConstraintComponent.ConstraintComponentBase.ComputeComplementarySlacknessSegment | include/robotoc/constraints/constraint_component_base.hpp:254-256 | Only rows `[start, start + size)` of `cmpl` are rewritten to `slack * dual - barrier`; the other rows and the other fields are untouched |
| ConstraintComponent.ConstraintComponentBase.ComputeComplementarySlackness | include/robotoc/constraints/constraint_component_base.hpp:245 | Every row of `cmpl` becomes `slack[i] * dual[i] - barrier`, and no other field changes |
| ConstraintComponent.ConstraintComponentBase.ComputeCondensingCoefficientSegment | include/robotoc/constraints/constraint_component_base.hpp:285-292 | Only rows `[start, start + size)` of `cond` are rewritten, each to `CondensingCoefficient` of its row (the part of the dual direction that `CondensedDualDirection` shows is independent of the primal step), and every other field is untouched |
| ConstraintComponent.ConstraintComponentBase.ComputeCondensingCoefficient | include/robotoc/constraints/constraint_component_base.hpp:280-283 | Every row of `cond` becomes `CondensingCoefficient` of its row, and no other field changes; the formula is the one `CondensedDualDirection` derives under the residual convention stated in "Left out" |
| ConstraintComponent.CondensedDualDirection | include/robotoc/constraints/constraint_component_base.hpp:280-292 | With the primal residual `g(x) - slack`, substituting the slack direction `residual + J*dx` into the dual direction gives `-cond - (dual/slack) * J*dx`: the condensing coefficient is the dual direction's constant part |
| ConstraintComponent.DualDirectionSolvesLinearizedComplementarity | include/robotoc/constraints/constraint_component_base.hpp:355-356 | The dual direction is the one value solving the linearised complementarity `cmpl + dual * dslack + slack * ddual == 0` |
| ConstraintComponent.ConstraintComponentBase.ComputeDualDirectionSegment | include/robotoc/constraints/constraint_component_base.hpp:332-333 | Only rows `[start, start + size)` of `ddual` are rewritten, and every other field is untouched |
| ConstraintComponent.ConstraintComponentBase.ComputeDualDirection | include/robotoc/constraints/constraint_component_base.hpp:323 | Every row of `ddual` is `-(dual * dslack + cmpl) / slack`, and so solves the linearised complementarity |
| ConstraintComponent.ConstraintComponentBase.LogBarrier | include/robotoc/constraints/constraint_component_base.hpp:363-364 | The loop returns `-barrier * sum(log(slack))` |
| ConstraintComponent.MapLog | include/robotoc/constraints/constraint_component_base.hpp:363-364 | The vector of logs has one entry per slack, entry `i` being `log(slack[i])` |
| ConstraintComponent.LogBarrierSplits | include/robotoc/constraints/constraint_component_base.hpp:363-364 | The barrier of a stacked slack is the sum of the barriers of its parts |
| ConstraintComponent.LogBarrierVanishesAtOnes | test/constraints/pdipm_test.cpp:99-103 | With `log 1 = 0`, an all-ones slack carries no barrier |
| MultipleShooting.StageOf | src/ocp/direct_multiple_shooting.cpp:52-73 | The if-else chain decodes every loop index to a stage of the grid; only the indices past `N+1+2*N_impulse+N_lift` are switching stages |
| MultipleShooting.FlatIndex | src/ocp/direct_multiple_shooting.cpp:114-158 | Every stage of the grid has a loop index inside the `KKTError` range |
| MultipleShooting.LayoutIsBijection | src/ocp/direct_multiple_shooting.cpp:50-73 | Decoding and encoding are inverse: every stage is visited, and exactly once |
| MultipleShooting.TimeStage | src/ocp/direct_multiple_shooting.cpp:211-214 | `d[j]` belongs to a regular stage, or to the terminal stage for `j == N` |
| MultipleShooting.DirectMultipleShooting.constructor | src/ocp/direct_multiple_shooting.cpp:10-29 | Accepted only with `max_num_impulse >= 0` and `nthreads > 0`; `kkt_error_` is `N+1+4*max_num_impulse` zeros |
| MultipleShooting.DirectMultipleShooting.Default | src/ocp/direct_multiple_shooting.cpp:32-36 | The default object has no impulses, zero threads and an empty `kkt_error_` |
| MultipleShooting.DirectMultipleShooting.InitConstraints | src/ocp/direct_multiple_shooting.cpp:43-75 | In loop order, each stage receives its own index (regular), `N` (terminal), no index (impulse) or 0 (aux, lift) |
| MultipleShooting.DirectMultipleShooting.ExpandDualCallAt | src/ocp/direct_multiple_shooting.cpp:200-259 | The branch for loop index `i` makes the `expandDual` call that the dispatch specifies for stage `i` |
| MultipleShooting.DirectMultipleShooting.IntegrateSolution | src/ocp/direct_multiple_shooting.cpp:189-261 | The `expandDual` calls, in loop order, are those the dispatch specifies; every stage then makes one `updatePrimal(primal_step_size)`/`updateDual(dual_step_size)` pair on its own direction and solution, and every stage of the grid is updated exactly once |
| MultipleShooting.SuccessorIsLater | src/ocp/direct_multiple_shooting.cpp:200-259 | Only the terminal stage has no successor; every other stage's successor is a stage of the grid strictly later in time |
| MultipleShooting.RegularSuccessorIsLater | src/ocp/direct_multiple_shooting.cpp:200-214 | A regular stage's successor is a stage of the grid after it |
| MultipleShooting.EventSuccessorIsLater | src/ocp/direct_multiple_shooting.cpp:238-254 | The time stage after an event interval lies past that interval |
| MultipleShooting.ImpulseEventChain | src/ocp/direct_multiple_shooting.cpp:201-205 | The stage before impulse `k` uses `d.impulse[k]` with the impulse's STO flag; the impulse stage uses the aux stage; the aux stage uses the time stage after the impulse with its STO flag |
| MultipleShooting.LiftEventChain | src/ocp/direct_multiple_shooting.cpp:206-210 | The stage before lift `k` uses `d.lift[k]` with the lift's STO flag; the lift stage uses the time stage after the lift |
| MultipleShooting.PlainStageChain | src/ocp/direct_multiple_shooting.cpp:211-214 | A regular stage followed by no event uses `d[i+1]` with `sto = false` |
| MultipleShooting.Flat | src/ocp/direct_multiple_shooting.cpp:103-158 | The per-index values of the loop have one entry per index |
| MultipleShooting.FlatIsConcatenation | src/ocp/direct_multiple_shooting.cpp:103-158 | Loop order is family order: regular, terminal, impulse, aux, lift, switching |
| MultipleShooting.FlatSum | src/ocp/direct_multiple_shooting.cpp:103-160 | The sum over the loop range is the sum of each family's sum |
| MultipleShooting.WithSTOTerms | src/ocp/direct_multiple_shooting.cpp:121-154 | Adding the squared mismatches keeps one value per stage |
| MultipleShooting.AuxEntriesVanish | src/ocp/direct_multiple_shooting.cpp:128-140 | Aux entries stay non-negative and vanish exactly when the stage errors vanish and, for STO-enabled impulses, the Hamiltonian mismatch vanishes |
| MultipleShooting.LiftEntriesVanish | src/ocp/direct_multiple_shooting.cpp:149-153 | Lift entries stay non-negative and vanish exactly when the stage errors vanish and, for STO-enabled lifts, the mismatch `h[tb] - lift.h` vanishes |
| MultipleShooting.DirectMultipleShooting.AuxKKTEntry | src/ocp/direct_multiple_shooting.cpp:121-141 | The aux entry is the stage error plus `hdiff^2` when STO is enabled, where `hdiff` uses two intervals when `tb >= 1` and one otherwise |
| MultipleShooting.DirectMultipleShooting.LiftKKTEntry | src/ocp/direct_multiple_shooting.cpp:142-154 | The lift entry is the stage error plus `(h[tb] - lift.h)^2` when STO is enabled |
| MultipleShooting.DirectMultipleShooting.KKTEntryAt | src/ocp/direct_multiple_shooting.cpp:105-158 | The loop body for index `i` computes entry `i` of the KKT error vector |
| MultipleShooting.KKTEntries | src/ocp/direct_multiple_shooting.cpp:103 | The KKT error vector has `N+1+3*N_impulse+N_lift` entries |
| MultipleShooting.DirectMultipleShooting.FillKKTError | src/ocp/direct_multiple_shooting.cpp:104-159 | The first `N_all` entries of `kkt_error_` become the stage errors in loop order, and the rest of the buffer is untouched |
| MultipleShooting.SumPrefix | src/ocp/direct_multiple_shooting.cpp:160 | The result is the sum of the first `m` entries (`head(N_all).sum()`) |
| MultipleShooting.DirectMultipleShooting.KKTError | src/ocp/direct_multiple_shooting.cpp:98-161 | On an object sized by its constructor (`Valid`) for a grid with at most `max_num_impulse` impulses and lifts, `kkt_error_` is filled in loop order, and the result is the sum of its first `N_all` entries (the square of the reported error) |
| MultipleShooting.KKTErrorVanishes | src/ocp/direct_multiple_shooting.cpp:98-161 | With non-negative stage errors, the squared error is non-negative. It is zero exactly when every stage error is zero and the Hamiltonian is continuous across every STO-enabled event |
| MultipleShooting.KKTEntriesFit | src/ocp/direct_multiple_shooting.cpp:15 | With at most `max_num_impulse` impulses and lifts, the loop's writes stay inside `kkt_error_` |
| MultipleShooting.DirectMultipleShooting.TotalCost | src/ocp/direct_multiple_shooting.cpp:164-178 | The total is the regular costs, plus the terminal cost, plus the impulse and aux costs, plus the lift costs |
| MultipleShooting.TotalCostCoversEveryStage | src/ocp/direct_multiple_shooting.cpp:164-178 | The interleaved impulse/aux loop adds exactly the stages the layout enumerates, each once |
| LineSearch.Axpy | include/robotoc/line_search/unconstr_line_search.hpp:164-167 | `x + step * y` has the length of `x` |
| LineSearch.AxpyZero | include/robotoc/line_search/unconstr_line_search.hpp:164-167 | A zero step leaves the point where it is |
| LineSearch.AxpyCompose | include/robotoc/line_search/unconstr_line_search.hpp:164-167 | Two steps along one direction add up |
| LineSearch.SplitTrial | include/robotoc/line_search/unconstr_line_search.hpp:160-168 | The trial of one stage keeps the shapes and the trial buffer's costates |
| LineSearch.SplitTrialAtZero | include/robotoc/line_search/unconstr_line_search.hpp:160-168 | At step zero, the trial's `q`, `v`, `a` and `u` are those of `s` |
| LineSearch.SplitTrialOverwrites | include/robotoc/line_search/unconstr_line_search.hpp:160-168 | A second trial in the same buffer erases every trace of the first |
| LineSearch.TrialPoint | include/robotoc/line_search/unconstr_line_search.hpp:157-158 | The whole-solution trial keeps the buffer's costates |
| LineSearch.TrialPointOnlyKeepsCostates | include/robotoc/line_search/unconstr_line_search.hpp:160-168 | The trial depends on the buffer only through the fields it does not write |
| LineSearch.InitialFilter | include/robotoc/line_search/unconstr_line_search.hpp:104-108 | The filter the loop starts from is never empty, and a non-empty filter is left as it was |
| LineSearch.CandidatePositive | include/robotoc/line_search/unconstr_line_search.hpp:109-119 | Every step size tried is positive |
| LineSearch.CandidatesDecrease | include/robotoc/line_search/unconstr_line_search.hpp:109-119 | Each reduction strictly shortens the step |
| LineSearch.RejectedBeforeStep | include/robotoc/line_search/unconstr_line_search.hpp:110-119 | A refused step above the minimum extends the run of refused steps |
| LineSearch.FirstAcceptedIsUnique | include/robotoc/line_search/unconstr_line_search.hpp:115-118 | The loop stops at the first accepted step; there is only one such step |
| LineSearch.NoAcceptanceAboveMinimum | include/robotoc/line_search/unconstr_line_search.hpp:110-126 | A search that falls to the minimum had no acceptable step above it |
| LineSearch.NextCandidate | include/robotoc/line_search/unconstr_line_search.hpp:119 | Multiplying the `k`-th step by the rate gives the `(k+1)`-th |
| LineSearch.BacktrackMeasureDrops | include/robotoc/line_search/unconstr_line_search.hpp:110-119 | Each reduction lowers a non-negative measure by at least one, so the loop terminates |
| LineSearch.UnconstrLineSearch.constructor | include/robotoc/line_search/unconstr_line_search.hpp:38-53 | An empty filter, `N+1` zero costs, `N` zero violations, and `N+1` copies of the robot's split solution as trial buffer |
| LineSearch.UnconstrLineSearch.ClearFilter | include/robotoc/line_search/unconstr_line_search.hpp:132-137 | The filter is empty afterwards, and nothing else changes |
| LineSearch.UnconstrLineSearch.ClearCosts | include/robotoc/line_search/unconstr_line_search.hpp:170-172 | The costs become zeros, and `totalCosts()` is 0 |
| LineSearch.UnconstrLineSearch.ClearViolations | include/robotoc/line_search/unconstr_line_search.hpp:174-176 | The violations become zeros, and `totalViolations()` is 0 |
| LineSearch.UnconstrLineSearch.ComputeCostAndViolation | include/robotoc/line_search/unconstr_line_search.hpp:147-150 | The per-stage arrays receive the oracle's values, so `totalCosts()` and `totalViolations()` are their sums |
| LineSearch.UnconstrLineSearch.ComputeSolutionTrial | include/robotoc/line_search/unconstr_line_search.hpp:157-168 | Every stage of the trial buffer becomes `s + step * d` on `q`, `v`, `a` and `u`, keeping the buffer's other fields |
| LineSearch.UnconstrLineSearch.TryStep | include/robotoc/line_search/unconstr_line_search.hpp:111-118 | One loop pass: the trial point, its filter entry and the acceptance test; the filter grows by that entry exactly when it is accepted |
| LineSearch.UnconstrLineSearch.Backtrack | include/robotoc/line_search/unconstr_line_search.hpp:109-120 | The loop ends at the first accepted step, having added only that step's entry, or at a step not above the minimum with the filter unchanged |
| LineSearch.UnconstrLineSearch.ComputeStepSize | include/robotoc/line_search/unconstr_line_search.hpp:96-127 | The result is at least the minimum. Above the minimum, it is the first accepted `max * rate^k` and the filter gained only its entry. At the minimum, no step above it was accepted and the filter is the initial one |
| ContactForceCost.CountActive | src/cost/local_contact_force_cost.cpp:125-131 | The number of active contacts among the first `m` is at most `m` |
| ContactForceCost.CountActiveMonotone | src/cost/local_contact_force_cost.cpp:125-131 | The `dimf_stack` offset only grows along the loop |
| ContactForceCost.GradientUpTo | src/cost/local_contact_force_cost.cpp:122-133 | The stacked gradient holds three rows per active contact |
| ContactForceCost.HessianUpTo | src/cost/local_contact_force_cost.cpp:136-147 | The stacked Hessian diagonal holds three rows per active contact |
| ContactForceCost.DeviationUpTo | src/cost/local_contact_force_cost.cpp:114-115 | The stacked deviations `f - ref` hold three rows per active contact |
| ContactForceCost.WeightedSquareNonNegative | src/cost/local_contact_force_cost.cpp:114-115 | A non-negative weight times a square is non-negative |
| ContactForceCost.ContactCostNonNegative | src/cost/local_contact_force_cost.cpp:114-115 | One contact's weighted squared deviation is non-negative under non-negative weights |
| ContactForceCost.CostNonNegative | src/cost/local_contact_force_cost.cpp:108-119 | The accumulated cost is non-negative under non-negative weights |
| ContactForceCost.OnlyActiveContactsCount | src/cost/local_contact_force_cost.cpp:112-116 | Two solutions with the same active contacts and the same forces on them have equal cost, gradient and Hessian |
| ContactForceCost.CostVanishesAtReference | src/cost/local_contact_force_cost.cpp:108-133 | Active forces on their references give zero cost and a zero gradient |
| ContactForceCost.GradientIsHessianTimesDeviation | src/cost/local_contact_force_cost.cpp:122-147 | Row by row, the gradient is the Hessian diagonal times the force deviation |
| ContactForceCost.ContactRowProducts | src/cost/local_contact_force_cost.cpp:128-129 | The same identity holds for the three rows of one contact |
| ContactForceCost.StackedProduct | src/cost/local_contact_force_cost.cpp:125-131 | The row-wise identity survives stacking another contact's rows |
| ContactForceCost.AddToSegment | src/cost/local_contact_force_cost.cpp:128-129 | Only `lf[start..start+3)` changes, and it grows by the segment |
| ContactForceCost.AddToDiagonal | src/cost/local_contact_force_cost.cpp:142-143 | Only the three diagonal entries from `start` change, and they grow by the segment |
| ContactForceCost.LocalContactForceCost.constructor | src/cost/local_contact_force_cost.cpp:9-17 | One zero reference and one zero weight per contact, for stage and impulse |
| ContactForceCost.LocalContactForceCost.Default | src/cost/local_contact_force_cost.cpp:20-28 | No contacts, with all four lists empty |
| ContactForceCost.LocalContactForceCost.SetFRef | src/cost/local_contact_force_cost.cpp:35-49 | Refused iff the length differs from `max_point_contacts`; otherwise exactly `f_ref` is replaced |
| ContactForceCost.LocalContactForceCost.SetFWeight | src/cost/local_contact_force_cost.cpp:52-66 | Refused iff the length differs; otherwise exactly `f_weight` is replaced |
| ContactForceCost.LocalContactForceCost.SetFiRef | src/cost/local_contact_force_cost.cpp:69-83 | Refused iff the length differs; otherwise exactly `fi_ref` is replaced |
| ContactForceCost.LocalContactForceCost.SetFiWeight | src/cost/local_contact_force_cost.cpp:86-100 | Refused iff the length differs; otherwise exactly `fi_weight` is replaced |
| ContactForceCost.LocalContactForceCost.AccumulateCost | src/cost/local_contact_force_cost.cpp:111-117 | The loop adds the weighted squared deviations of the active contacts |
| ContactForceCost.LocalContactForceCost.EvalStageCost | src/cost/local_contact_force_cost.cpp:108-119 | `0.5 * dt` times the active contacts' sum, non-negative when weights and `dt` are |
| ContactForceCost.LocalContactForceCost.EvalImpulseCost | src/cost/local_contact_force_cost.cpp:172-183 | Half the impulse-active contacts' sum with the impulse terms, non-negative under non-negative weights |
| ContactForceCost.LocalContactForceCost.AddGradient | src/cost/local_contact_force_cost.cpp:125-132 | The `j`-th active contact adds `scale * w * (f - ref)` to `lf[3j..3j+3)`; entries past the stack are unchanged |
| ContactForceCost.LocalContactForceCost.AddHessian | src/cost/local_contact_force_cost.cpp:139-146 | The `j`-th active contact adds `scale * w` to the diagonal at `3j..3j+3`; off-diagonal entries and the rest of the diagonal are unchanged |
| ContactForceCost.LocalContactForceCost.EvalStageCostDerivatives | src/cost/local_contact_force_cost.cpp:122-133 | The stage gradient scaled by `dt` is added to the head of `lf` |
| ContactForceCost.LocalContactForceCost.EvalStageCostHessian | src/cost/local_contact_force_cost.cpp:136-147 | The stage weights scaled by `dt` are added to the head of the `Qff` diagonal |
| ContactForceCost.LocalContactForceCost.EvalImpulseCostDerivatives | src/cost/local_contact_force_cost.cpp:186-198 | The impulse gradient, with no time step, is added to the head of `lf` |
| ContactForceCost.LocalContactForceCost.EvalImpulseCostHessian | src/cost/local_contact_force_cost.cpp:201-212 | The impulse weights, with no time step, are added to the head of the `Qff` diagonal |
| ContactForceCost.LocalContactForceCost.EvalTerminalCost | src/cost/local_contact_force_cost.cpp:150-155 | The terminal cost is 0 |
| ContactForceCost.LocalContactForceCost.EvalTerminalCostDerivatives | src/cost/local_contact_force_cost.cpp:158-162 | `lf` is left unchanged |
| ContactForceCost.LocalContactForceCost.EvalTerminalCostHessian | src/cost/local_contact_force_cost.cpp:165-169 | `Qff` is left unchanged |
| ImpulseSolution.ContactDim | include/robotoc/impulse/impulse_split_solution.hpp:61-65 | A contact stacks 3 or 6 entries |
| ImpulseSolution.StackDim | include/robotoc/impulse/impulse_split_solution.hpp:167-172 | The stacked dimension of `m` contacts is at most `6m` |
| ImpulseSolution.StackDimMonotone | include/robotoc/impulse/impulse_split_solution.hpp:167-172 | The stacked dimension grows with the number of contacts considered |
| ImpulseSolution.StackDimZeroIff | include/robotoc/impulse/impulse_split_solution.hpp:167-172 | The stacked dimension is 0 exactly when no contact is active |
| ImpulseSolution.Stacked | include/robotoc/impulse/impulse_split_solution.hpp:96-110 | The stack is `dimi()` long |
| ImpulseSolution.Unstacked | include/robotoc/impulse/impulse_split_solution.hpp:112-115 | Unstacking gives back one vector per contact |
| ImpulseSolution.UnstackAfterStack | include/robotoc/impulse/impulse_split_solution.hpp:107-115 | `set_f_vector` after `set_f_stack` leaves every contact vector unchanged, including when `dimi() == 0` |
| ImpulseSolution.StackAfterUnstack | include/robotoc/impulse/impulse_split_solution.hpp:107-115 | `set_f_stack` after `set_f_vector` gives back the stack it read |
| ImpulseSolution.PrefixStacking | include/robotoc/impulse/impulse_split_solution.hpp:96-110 | The stack of fewer contacts is a prefix of the stack of more |
| ImpulseSolution.UnstackedPrefix | include/robotoc/impulse/impulse_split_solution.hpp:112-115 | Unstacking a prefix only reads the prefix's part of the stack |
| ImpulseSolution.StackedPrefixOnly | include/robotoc/impulse/impulse_split_solution.hpp:96-110 | The stack of the first `m` contacts does not depend on later contacts |
| ImpulseSolution.UnstackKeepsInactive | include/robotoc/impulse/impulse_split_solution.hpp:112-115 | Unstacking leaves inactive contacts' vectors and active contacts' tails as they were |
| ImpulseSolution.WriteSegment | include/robotoc/impulse/impulse_split_solution.hpp:107-110 | One contact's head is copied into the buffer at its offset, and the rest of the buffer is untouched |
| ImpulseSolution.StackInto | include/robotoc/impulse/impulse_split_solution.hpp:107-110 | The buffer's head becomes the stack of the active heads, and its tail is untouched |
| ImpulseSolution.UnstackFrom | include/robotoc/impulse/impulse_split_solution.hpp:112-115 | The loop reads every active contact's head back from the stack |
| ImpulseSolution.ImpulseSplitSolution.constructor | include/robotoc/impulse/impulse_split_solution.hpp:29 | All vectors are zero, all contacts are inactive and `dimi()` is 0 |
| ImpulseSolution.ImpulseSplitSolution.SetImpulseStatus | include/robotoc/impulse/impulse_split_solution.hpp:61-65 | The contact types and activity are adopted, and `dimi()` becomes their stacked dimension; no vector changes |
| ImpulseSolution.ImpulseSplitSolution.SetImpulseStatusFrom | include/robotoc/impulse/impulse_split_solution.hpp:67-71 | The activity pattern and `dimi()` become the other's; no vector changes |
| ImpulseSolution.ImpulseSplitSolution.SetFStack | include/robotoc/impulse/impulse_split_solution.hpp:107-110 | `f_stack()` becomes the stack of the active forces |
| ImpulseSolution.ImpulseSplitSolution.SetFVector | include/robotoc/impulse/impulse_split_solution.hpp:112-115 | The active forces are read back from `f_stack()`, and no other field changes |
| ImpulseSolution.ImpulseSplitSolution.SetMuStack | include/robotoc/impulse/impulse_split_solution.hpp:157-160 | `mu_stack()` becomes the stack of the active multipliers |
| ImpulseSolution.ImpulseSplitSolution.SetMuVector | include/robotoc/impulse/impulse_split_solution.hpp:162-165 | The active multipliers are read back from `mu_stack()`, and no other field changes |
| ImpulseSolution.StackThenUnstack | include/robotoc/impulse/impulse_split_solution.hpp:107-115 | `set_f_stack` followed by `set_f_vector` leaves `f` as it was |
| ImpulseSolution.ImpulseSplitSolution.Dimi | include/robotoc/impulse/impulse_split_solution.hpp:167-172 | `dimi()` is the stacked dimension of the active contacts, and 0 exactly when none is active |
| ImpulseSolution.ImpulseSplitSolution.IsImpulseActiveAt | include/robotoc/impulse/impulse_split_solution.hpp:174-185 | `isImpulseActive(i)` is element `i` of `isImpulseActive()` |
| ImpulseSolution.ImpulseSplitSolution.CopyPrimal | include/robotoc/impulse/impulse_split_solution.hpp:196-200 | The other's status, `q`, `v`, `dv` and `f` are adopted and `f` is restacked; multipliers and their stack are unchanged |
| ImpulseSolution.ImpulseSplitSolution.CopyDual | include/robotoc/impulse/impulse_split_solution.hpp:202-206 | The other's status, `lmd`, `gmm`, `beta` and `mu` are adopted and `mu` is restacked; primal variables and their stack are unchanged |
| ImpulseSolution.ImpulseSplitSolution.LagrangeMultiplierLinfNorm | include/robotoc/impulse/impulse_split_solution.hpp:208-212 | The norm is non-negative, bounds every entry of `lmd`, `gmm`, `beta` and `mu_stack()`, and is attained by one of them unless it is 0 |
| Common.LInfNorm | include/robotoc/impulse/impulse_split_solution.hpp:208-212 | The L-infinity norm is non-negative, bounds every entry, and is attained unless it is 0 |
| Common.FindIndex | src/ocp/direct_multiple_shooting.cpp:201-210 | The lookup "which event follows stage `i`" finds the first match, or reports that none exists |
| Common.FindIndexOfEntry | src/ocp/direct_multiple_shooting.cpp:201-210 | In a strictly increasing table, every entry is found at its own place |

## Left out

- The bodies of `constraint_component_base.hxx`, `pdipm.hxx`, `constraint_component_data.hxx` and `impulse_split_solution.hxx` are not part of this model. Their behaviour follows the declarations, the documented contracts and the `pdipm` test: `ConstraintComponentData::copySlackAndDual` takes the other's slack and dual, `KKTError()` and `primalFeasibility<p>`/`dualFeasibility<p>` are the per-component values the constraints data sums (parameters here); the positivity reset ends with every entry at or above the barrier; the fraction-to-boundary rule keeps the smallest row fraction in (0, 1); `copyPrimal`/`copyDual` adopt the other's impulse status and restack; the multiplier norm takes `mu_stack()` only when `dimi() > 0`.
- ConstraintComponent.FractionToBoundarySound: stated for strictly positive `vec` (an interior point). With a zero entry and a negative direction, the row's fraction is 0 and is skipped, so that row can go negative.
- ConstraintComponent.ConstraintComponentBase.SetSlackAndDualPositive: only "every entry at or above the barrier" is read from the source (the declaration and the test's `minCoeff() >= barrier` check). Moving the whole vector by the barrier while its smallest entry is below it (`ShiftToBarrier`, `ShiftInPlace`) is a modelling choice; an entry-by-entry reset would satisfy the same source text. An empty vector is left as it is.
- ConstraintComponent.CondensingCoefficient: the body of `computeCondensingCoeffcient` (in `constraint_component_base.hxx`) is not part of this model; the formula `(dual * residual + cmpl) / slack` is the condensing coefficient for the residual convention `residual = g(x) - slack` (slack direction `residual + J*dx`), proved in `CondensedDualDirection`; under the opposite convention `residual = slack - g(x)` the sign of `cmpl` flips.
- MultipleShooting.WellFormed: assumes what the time discretization (not part of this model) guarantees: `timeStageAfterImpulse(k)` and `timeStageAfterLift(k)` are the stage before the event plus one; the impulse and lift tables are strictly increasing; no impulse and lift share an interval; every event lies inside the horizon. The successor lemmas and the dispatch rest on these.
- ConstraintComponent.ConstraintComponentBase.SetSlackAndDualPositive: modelled on a `ComponentData` value returned to the caller, not on a reference updated in place. The same holds for the other `ConstraintComponentData` operations.
- The constructor argument checks throw and exit. They are preconditions (`ValidBarrier`, `ValidFractionToBoundaryRule`, `ValidConfiguration`). The size checks of the `LocalContactForceCost` setters are a `Fail` outcome instead.
- MultipleShooting.DirectMultipleShooting.KKTError: returns the sum before the square root; `sqrt` is left out because reals have no square root here.
- `log` in the log barrier and the `p`-norm in the feasibility measures are function parameters.
- The OpenMP parallel loops are sequential loops, since each index touches only its own stage. The per-thread `Robot` selection is left out.
- The per-stage computations (`SplitOCP::KKTError`, `stageCost`, `terminalCost`, `initConstraints`) are inputs. The calls `expandDual` and `updatePrimal`/`updateDual` are recorded (`ExpandDualCall`, `StageUpdate`), so what an update does to a stage's solution is not modelled.
- `computeInitialStateDirection` only forwards to stage 0's split OCP, whose body is not part of this model.
- Configuration integration on the Lie group (`ImpulseSplitSolution::integrate`) calls into the robot model and is left out.
- `LineSearchFilter` (acceptance, augment) and `computeCostAndViolation` are a predicate and an oracle passed to the search.
- The `Solution`-level `computeSolutionTrial` is modelled stage by stage with the split-stage rule. The fields `T_`, `dt_` and `kkt_residual_` of the line search are not used by the modelled operations.
- LineSearch.UnconstrLineSearch.ComputeStepSize: requires `0 < rate < 1` and `min_step_size > 0`. The source does not check these, but without them the loop need not terminate.
- The contact force cost models 3-vectors per point contact; `max_dimf_` is stored but not used, as in the source.
- ImpulseSolution.ImpulseSplitSolution: the stack buffers hold `6 * max_num_contacts` entries, the most the stack can use. The robot's floating-base initialisation of `q` is left out; `q` starts at zero.
- `isApprox`, `setRandom`, `Random` and `disp` are test and printing helpers and are left out.
- The `is*LevelValid` getters of `ConstraintsData` and `getBarrierParam`/`getFractionToBoundaryRule` are plain field reads and have no row of their own. Their values are stated by the setters' contracts.
