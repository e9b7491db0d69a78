/** `ConstraintsData`: the constraint data of one stage, split by kinematics
    level. A time-stage index decides which levels are valid, and every
    aggregate (KKT error, log barrier, feasibility, copying slack and dual)
    runs over the valid levels only. */
module Constraints {
  import opened Common
  import opened ConstraintComponent

  /** Which of the four constraint levels are valid. */
  datatype LevelValidity = LevelValidity(position: bool, velocity: bool, acceleration: bool, impulse: bool)

  /** The per-level data lists of one stage. */
  datatype LevelData = LevelData(
    position: seq<ComponentData>,
    velocity: seq<ComponentData>,
    acceleration: seq<ComponentData>,
    impulse: seq<ComponentData>)

  const NoLevelValid := LevelValidity(false, false, false, false)

  /** The validity table of `setTimeStage`. The impulse level is valid exactly
      when none of the other three is, and the three regular levels are
      nested: a valid position level implies a valid velocity level, which
      implies a valid acceleration level. */
  function LevelsAt(timeStage: int): (r: LevelValidity)
    ensures r.impulse <==> !(r.position || r.velocity || r.acceleration)
    ensures r.position ==> r.velocity
    ensures r.velocity ==> r.acceleration
    ensures r != NoLevelValid
  {
    if timeStage >= 2 then LevelValidity(true, true, true, false)
    else if timeStage == 1 then LevelValidity(false, true, true, false)
    else if timeStage == 0 then LevelValidity(false, false, true, false)
    else LevelValidity(false, false, false, true)
  }

  /** A level becomes valid once the stage is far enough from the initial
      time: acceleration from stage 0, velocity from 1, position from 2, and
      only impulse stages (negative index) validate the impulse level. */
  lemma LevelsAtThresholds(timeStage: int)
    ensures LevelsAt(timeStage).position <==> timeStage >= 2
    ensures LevelsAt(timeStage).velocity <==> timeStage >= 1
    ensures LevelsAt(timeStage).acceleration <==> timeStage >= 0
    ensures LevelsAt(timeStage).impulse <==> timeStage <= -1
  {
  }

  /** Validity only grows with the time stage among regular stages. */
  lemma LevelsAtMonotone(s: int, t: int)
    requires 0 <= s <= t
    ensures LevelsAt(s).position ==> LevelsAt(t).position
    ensures LevelsAt(s).velocity ==> LevelsAt(t).velocity
    ensures LevelsAt(s).acceleration ==> LevelsAt(t).acceleration
    ensures !LevelsAt(t).impulse
  {
  }

  /** `f` applied to every component of a level. */
  function MapComponents(list: seq<ComponentData>, f: ComponentData -> real): (r: seq<real>)
    ensures |r| == |list| && forall i | 0 <= i < |list| :: r[i] == f(list[i])
  {
    seq(|list|, i requires 0 <= i < |list| => f(list[i]))
  }

  /** Sum of `f` over the components of one level. */
  function LevelSum(list: seq<ComponentData>, f: ComponentData -> real): real
  {
    Sum(MapComponents(list, f))
  }

  /** The fold shared by `KKTError`, `logBarrier` and the feasibility
      measures: sum `f` over the components of the valid levels, in the
      order position, velocity, acceleration, impulse. */
  function ValidLevelSum(valid: LevelValidity, data: LevelData, f: ComponentData -> real): real
  {
    (if valid.position then LevelSum(data.position, f) else 0.0)
    + (if valid.velocity then LevelSum(data.velocity, f) else 0.0)
    + (if valid.acceleration then LevelSum(data.acceleration, f) else 0.0)
    + (if valid.impulse then LevelSum(data.impulse, f) else 0.0)
  }

  /** The fold ignores the data of invalid levels: two stages that agree on
      their valid levels have the same aggregate. */
  lemma ValidLevelSumIgnoresInvalid(valid: LevelValidity, a: LevelData, b: LevelData, f: ComponentData -> real)
    requires valid.position ==> a.position == b.position
    requires valid.velocity ==> a.velocity == b.velocity
    requires valid.acceleration ==> a.acceleration == b.acceleration
    requires valid.impulse ==> a.impulse == b.impulse
    ensures ValidLevelSum(valid, a, f) == ValidLevelSum(valid, b, f)
  {
  }

  /** With no level valid the aggregate is 0, whatever the data. */
  lemma ValidLevelSumNoLevel(data: LevelData, f: ComponentData -> real)
    ensures ValidLevelSum(NoLevelValid, data, f) == 0.0
  {
  }

  /** A non-negative per-component measure gives a non-negative aggregate. */
  lemma ValidLevelSumNonNegative(valid: LevelValidity, data: LevelData, f: ComponentData -> real)
    requires forall c :: f(c) >= 0.0
    ensures ValidLevelSum(valid, data, f) >= 0.0
  {
    SumNonNegative(MapComponents(data.position, f));
    SumNonNegative(MapComponents(data.velocity, f));
    SumNonNegative(MapComponents(data.acceleration, f));
    SumNonNegative(MapComponents(data.impulse, f));
  }

  /** At an impulse stage only the impulse data counts; at a regular stage
      the impulse data never counts. */
  lemma ValidLevelSumAtImpulseStage(timeStage: int, data: LevelData, f: ComponentData -> real)
    ensures timeStage <= -1 ==> ValidLevelSum(LevelsAt(timeStage), data, f) == LevelSum(data.impulse, f)
    ensures timeStage >= 0 ==>
      ValidLevelSum(LevelsAt(timeStage), data, f) == ValidLevelSum(LevelsAt(timeStage), data.(impulse := []), f)
  {
    assert MapComponents([], f) == [];
  }

  /** Copy slack and dual entry by entry from `src`. */
  function CopiedLevel(dst: seq<ComponentData>, src: seq<ComponentData>): (r: seq<ComponentData>)
    requires |src| >= |dst|
    ensures |r| == |dst|
  {
    seq(|dst|, i requires 0 <= i < |dst| => dst[i].CopySlackAndDual(src[i]))
  }

  /** The loop of `copySlackAndDual` over one level. */
  method CopyLevel(dst: seq<ComponentData>, src: seq<ComponentData>) returns (r: seq<ComponentData>)
    requires |src| >= |dst|
    ensures r == CopiedLevel(dst, src)
    ensures forall i | 0 <= i < |r| :: r[i].slack == src[i].slack && r[i].dual == src[i].dual
    ensures forall i | 0 <= i < |r| :: r[i].(slack := dst[i].slack, dual := dst[i].dual) == dst[i]
  {
    r := dst;
    for i := 0 to |dst|
      invariant |r| == |dst|
      invariant forall j | 0 <= j < i :: r[j] == dst[j].CopySlackAndDual(src[j])
      invariant forall j | i <= j < |dst| :: r[j] == dst[j]
    {
      r := r[i := r[i].CopySlackAndDual(src[i])];
    }
  }

  /** The range-for loop over one level, adding `f` of each component. */
  method AccumulateLevel(acc: real, list: seq<ComponentData>, f: ComponentData -> real) returns (r: real)
    ensures r == acc + LevelSum(list, f)
  {
    ghost var terms := MapComponents(list, f);
    r := acc;
    for i := 0 to |list|
      invariant r == acc + Sum(terms[..i])
    {
      SumPrefixStep(terms, i);
      r := r + f(list[i]);
    }
    assert terms[..|list|] == terms;
  }

  /** The four guarded loops shared by the aggregates of `ConstraintsData`. */
  method AccumulateValidLevels(valid: LevelValidity, data: LevelData, f: ComponentData -> real) returns (r: real)
    ensures r == ValidLevelSum(valid, data, f)
  {
    r := 0.0;
    if valid.position {
      r := AccumulateLevel(r, data.position, f);
    }
    if valid.velocity {
      r := AccumulateLevel(r, data.velocity, f);
    }
    if valid.acceleration {
      r := AccumulateLevel(r, data.acceleration, f);
    }
    if valid.impulse {
      r := AccumulateLevel(r, data.impulse, f);
    }
  }

  class ConstraintsData {
    var isPositionLevelValid: bool
    var isVelocityLevelValid: bool
    var isAccelerationLevelValid: bool
    var isImpulseLevelValid: bool
    var positionLevelData: seq<ComponentData>
    var velocityLevelData: seq<ComponentData>
    var accelerationLevelData: seq<ComponentData>
    var impulseLevelData: seq<ComponentData>

    function Levels(): LevelValidity
      reads this
    {
      LevelValidity(isPositionLevelValid, isVelocityLevelValid, isAccelerationLevelValid, isImpulseLevelValid)
    }

    function Data(): LevelData
      reads this
    {
      LevelData(positionLevelData, velocityLevelData, accelerationLevelData, impulseLevelData)
    }

    /** The default constructor: no level is valid. */
    constructor Default()
      ensures Levels() == NoLevelValid
      ensures Data() == LevelData([], [], [], [])
    {
      isPositionLevelValid, isVelocityLevelValid := false, false;
      isAccelerationLevelValid, isImpulseLevelValid := false, false;
      positionLevelData, velocityLevelData := [], [];
      accelerationLevelData, impulseLevelData := [], [];
    }

    /** Starts with no level valid and then applies `setTimeStage`. */
    constructor (timeStage: int)
      ensures Levels() == LevelsAt(timeStage)
      ensures Data() == LevelData([], [], [], [])
    {
      isPositionLevelValid, isVelocityLevelValid := false, false;
      isAccelerationLevelValid, isImpulseLevelValid := false, false;
      positionLevelData, velocityLevelData := [], [];
      accelerationLevelData, impulseLevelData := [], [];
      new;
      SetTimeStage(timeStage);
    }

    method SetTimeStage(timeStage: int)
      modifies this
      ensures Levels() == LevelsAt(timeStage)
      ensures Data() == old(Data())
    {
      if timeStage >= 2 {
        isPositionLevelValid, isVelocityLevelValid := true, true;
        isAccelerationLevelValid, isImpulseLevelValid := true, false;
      } else if timeStage == 1 {
        isPositionLevelValid, isVelocityLevelValid := false, true;
        isAccelerationLevelValid, isImpulseLevelValid := true, false;
      } else if timeStage == 0 {
        isPositionLevelValid, isVelocityLevelValid := false, false;
        isAccelerationLevelValid, isImpulseLevelValid := true, false;
      } else if timeStage <= -1 {
        isPositionLevelValid, isVelocityLevelValid := false, false;
        isAccelerationLevelValid, isImpulseLevelValid := false, true;
      }
    }

    function IsPositionLevelValid(): bool
      reads this
    {
      isPositionLevelValid
    }

    function IsVelocityLevelValid(): bool
      reads this
    {
      isVelocityLevelValid
    }

    function IsAccelerationLevelValid(): bool
      reads this
    {
      isAccelerationLevelValid
    }

    function IsImpulseLevelValid(): bool
      reads this
    {
      isImpulseLevelValid
    }

    /** For each valid level, entry `i` takes the slack and dual of entry
        `i` of `other`; the levels that are not valid are left as they are. */
    method CopySlackAndDual(other: ConstraintsData)
      requires isPositionLevelValid ==> |other.positionLevelData| >= |positionLevelData|
      requires isVelocityLevelValid ==> |other.velocityLevelData| >= |velocityLevelData|
      requires isAccelerationLevelValid ==> |other.accelerationLevelData| >= |accelerationLevelData|
      requires isImpulseLevelValid ==> |other.impulseLevelData| >= |impulseLevelData|
      modifies this
      ensures Levels() == old(Levels())
      ensures positionLevelData == if isPositionLevelValid
        then CopiedLevel(old(positionLevelData), old(other.positionLevelData)) else old(positionLevelData)
      ensures velocityLevelData == if isVelocityLevelValid
        then CopiedLevel(old(velocityLevelData), old(other.velocityLevelData)) else old(velocityLevelData)
      ensures accelerationLevelData == if isAccelerationLevelValid
        then CopiedLevel(old(accelerationLevelData), old(other.accelerationLevelData)) else old(accelerationLevelData)
      ensures impulseLevelData == if isImpulseLevelValid
        then CopiedLevel(old(impulseLevelData), old(other.impulseLevelData)) else old(impulseLevelData)
    {
      var src := other.Data();
      if isPositionLevelValid {
        positionLevelData := CopyLevel(positionLevelData, src.position);
      }
      if isVelocityLevelValid {
        velocityLevelData := CopyLevel(velocityLevelData, src.velocity);
      }
      if isAccelerationLevelValid {
        accelerationLevelData := CopyLevel(accelerationLevelData, src.acceleration);
      }
      if isImpulseLevelValid {
        impulseLevelData := CopyLevel(impulseLevelData, src.impulse);
      }
    }

    /** Sum of the components' KKT errors over the valid levels. The
        per-component error is supplied by the caller. */
    method KKTError(componentError: ComponentData -> real) returns (err: real)
      ensures err == ValidLevelSum(Levels(), Data(), componentError)
    {
      err := AccumulateValidLevels(Levels(), Data(), componentError);
    }

    /** Sum of the components' `log_barrier` over the valid levels. */
    method LogBarrier() returns (lb: real)
      ensures lb == ValidLevelSum(Levels(), Data(), (c: ComponentData) => c.logBarrier)
    {
      lb := AccumulateValidLevels(Levels(), Data(), (c: ComponentData) => c.logBarrier);
    }

    /** Sum of the `p`-norms of the primal residuals over the valid levels;
        `norm` stands for the `p`-norm. */
    method PrimalFeasibility(norm: seq<real> -> real) returns (vio: real)
      ensures vio == ValidLevelSum(Levels(), Data(), (c: ComponentData) => norm(c.residual))
    {
      vio := AccumulateValidLevels(Levels(), Data(), (c: ComponentData) => norm(c.residual));
    }

    /** Sum of the `p`-norms of the complementarity residuals over the
        valid levels. */
    method DualFeasibility(norm: seq<real> -> real) returns (vio: real)
      ensures vio == ValidLevelSum(Levels(), Data(), (c: ComponentData) => norm(c.cmpl))
    {
      vio := AccumulateValidLevels(Levels(), Data(), (c: ComponentData) => norm(c.cmpl));
    }

    /** The constraint violation is the primal feasibility measure. */
    method ConstraintViolation(norm: seq<real> -> real) returns (vio: real)
      ensures vio == ValidLevelSum(Levels(), Data(), (c: ComponentData) => norm(c.residual))
    {
      vio := PrimalFeasibility(norm);
    }
  }

  /** With a genuine norm (never negative) both feasibility measures are
      non-negative, at every stage. */
  lemma FeasibilityNonNegative(valid: LevelValidity, data: LevelData, norm: seq<real> -> real)
    requires forall v :: norm(v) >= 0.0
    ensures ValidLevelSum(valid, data, (c: ComponentData) => norm(c.residual)) >= 0.0
    ensures ValidLevelSum(valid, data, (c: ComponentData) => norm(c.cmpl)) >= 0.0
  {
    var primal := (c: ComponentData) => norm(c.residual);
    var dual := (c: ComponentData) => norm(c.cmpl);
    forall c: ComponentData
      ensures primal(c) >= 0.0 && dual(c) >= 0.0
    {
      assert norm(c.residual) >= 0.0 && norm(c.cmpl) >= 0.0;
    }
    ValidLevelSumNonNegative(valid, data, primal);
    ValidLevelSumNonNegative(valid, data, dual);
  }

  /** After `setTimeStage`, the KKT error of a stage counts exactly the
      levels the table validates, and 0 for a stage with no valid level. */
  lemma KKTErrorAfterSetTimeStage(timeStage: int, data: LevelData, componentError: ComponentData -> real)
    requires forall c :: componentError(c) >= 0.0
    ensures ValidLevelSum(LevelsAt(timeStage), data, componentError) >= 0.0
    ensures timeStage <= -1 ==> ValidLevelSum(LevelsAt(timeStage), data, componentError) == LevelSum(data.impulse, componentError)
    ensures timeStage == 0 ==> ValidLevelSum(LevelsAt(timeStage), data, componentError) == LevelSum(data.acceleration, componentError)
  {
    ValidLevelSumNonNegative(LevelsAt(timeStage), data, componentError);
  }
}
