/** The flying-trot foot-step planner of the MPC layer: a small state record
    holding the gait pattern and the reference trajectories (CoM positions,
    yaw-projected base orientations and foot positions) it plans for the
    next steps of a trot with a flight phase between the stances.

    Robot kinematics (foot positions, CoM, the yaw-projected orientation of
    the base) enter as parameters; cosine and sine are function-typed
    parameters; the Raibert heuristic's step-length rule is a function
    parameter as well. */
module FootStepPlanner {
  import opened Outcomes

  // ---------------------------------------------------------------------
  // Three-dimensional vectors and matrices

  datatype V3 = V3(x: real, y: real, z: real)

  function Add(a: V3, b: V3): V3
  {
    V3(a.x + b.x, a.y + b.y, a.z + b.z)
  }

  function Sub(a: V3, b: V3): V3
  {
    V3(a.x - b.x, a.y - b.y, a.z - b.z)
  }

  function Scale(s: real, a: V3): V3
  {
    V3(s * a.x, s * a.y, s * a.z)
  }

  const Zero3 := V3(0.0, 0.0, 0.0)

  function Dot3(a: V3, b: V3): real
  {
    a.x * b.x + a.y * b.y + a.z * b.z
  }

  /** A 3x3 matrix stored by rows. */
  datatype M3 = M3(r0: V3, r1: V3, r2: V3)

  function MatVec(m: M3, v: V3): V3
  {
    V3(Dot3(m.r0, v), Dot3(m.r1, v), Dot3(m.r2, v))
  }

  function Transpose(m: M3): M3
  {
    M3(V3(m.r0.x, m.r1.x, m.r2.x),
       V3(m.r0.y, m.r1.y, m.r2.y),
       V3(m.r0.z, m.r1.z, m.r2.z))
  }

  function MatMul(a: M3, b: M3): M3
  {
    var bt := Transpose(b);
    M3(MatVec(bt, a.r0), MatVec(bt, a.r1), MatVec(bt, a.r2))
  }

  const Identity3 := M3(V3(1.0, 0.0, 0.0), V3(0.0, 1.0, 0.0), V3(0.0, 0.0, 1.0))

  /** The rotation about the vertical axis with the given cosine and sine. */
  function YawRotation(c: real, s: real): M3
  {
    M3(V3(c, -s, 0.0), V3(s, c, 0.0), V3(0.0, 0.0, 1.0))
  }

  /** Applying a product is applying its factors in turn. */
  lemma MatVecOfProduct(a: M3, b: M3, v: V3)
    ensures MatVec(MatMul(a, b), v) == MatVec(a, MatVec(b, v))
  {
  }

  lemma MatVecIdentity(v: V3)
    ensures MatVec(Identity3, v) == v
  {
  }

  /** A yaw rotation built from a point of the unit circle is orthonormal,
      keeps the vertical axis, and composing two of them adds the angles
      (the addition formulas, stated on cosines and sines). */
  lemma YawRotationProperties(c: real, s: real, c2: real, s2: real)
    requires c * c + s * s == 1.0
    ensures MatMul(YawRotation(c, s), Transpose(YawRotation(c, s))) == Identity3
    ensures MatMul(Transpose(YawRotation(c, s)), YawRotation(c, s)) == Identity3
    ensures forall z: real {:trigger V3(0.0, 0.0, z)} :: MatVec(YawRotation(c, s), V3(0.0, 0.0, z)) == V3(0.0, 0.0, z)
    ensures MatMul(YawRotation(c2, s2), YawRotation(c, s))
         == YawRotation(c2 * c - s2 * s, s2 * c + c2 * s)
  {
  }

  // ---------------------------------------------------------------------
  // Planner state

  /** The Raibert heuristic's parameters: the gait period and the
      feedback gain. */
  datatype RaibertHeuristic = RaibertHeuristic(period: real, gain: real)

  datatype PlannerError =
    | NotQuadruped
    | FlyingTimeNotPositive
    | StanceTimeNotPositive
    | GainNotPositive

  /** `comToContactLocal` holds the offsets from the CoM to feet 0..3 (LF,
      LH, RF, RH) in the yaw-projected base frame; `comRef`, `rRef` and
      `contactPositionRef` are the planned references, one entry per step. */
  datatype Planner = Planner(
    enableRaibertHeuristic: bool,
    raibert: RaibertHeuristic,
    currentStep: int,
    contactPositionRef: seq<seq<V3>>,
    comRef: seq<V3>,
    rRef: seq<M3>,
    comToContactLocal: seq<V3>,
    vComCmd: V3,
    stepLength: V3,
    rYaw: M3,
    yawRateCmd: real)

  /** The planner of a robot with `maxNumPointContacts` point contacts; a
      robot with fewer than four is not a quadruped and is refused. */
  function Create(maxNumPointContacts: int): (r: Result<Planner, PlannerError>)
    ensures r.Err? <==> maxNumPointContacts < 4
    ensures r.Err? ==> r.error == NotQuadruped
    ensures r.Ok? ==> !r.value.enableRaibertHeuristic && r.value.currentStep == 0
    ensures r.Ok? ==> r.value.comRef == [] && r.value.rRef == [] && r.value.contactPositionRef == []
    ensures r.Ok? ==> r.value.rYaw == Identity3 && r.value.stepLength == Zero3
                      && r.value.vComCmd == Zero3 && r.value.yawRateCmd == 0.0
  {
    if maxNumPointContacts < 4 then Err(NotQuadruped)
    else Ok(Planner(false, RaibertHeuristic(0.0, 0.0), 0, [], [], [], [],
                    Zero3, Zero3, Identity3, 0.0))
  }

  /** The fixed gait pattern: a constant step length and a yaw turn per
      step; the Raibert heuristic is switched off. */
  function SetGaitPattern(p: Planner, stepLength: V3, stepYaw: real,
                          cos: real -> real, sin: real -> real): (r: Planner)
    ensures !r.enableRaibertHeuristic
    ensures r.stepLength == stepLength
    ensures r.rYaw == YawRotation(cos(stepYaw), sin(stepYaw))
    ensures r.(stepLength := p.stepLength, rYaw := p.rYaw, enableRaibertHeuristic := p.enableRaibertHeuristic) == p
  {
    p.(stepLength := stepLength, rYaw := YawRotation(cos(stepYaw), sin(stepYaw)),
       enableRaibertHeuristic := false)
  }

  /** The velocity-command gait pattern planned with the Raibert heuristic.
      The flying time, stance time and gain must be positive, and are
      checked in that order. The yaw turned per step is the commanded yaw
      rate times the flying time. */
  function SetRaibertGaitPattern(p: Planner, vComCmd: V3, yawRateCmd: real,
                                 flyingTime: real, stanceTime: real, gain: real,
                                 cos: real -> real, sin: real -> real): (r: Result<Planner, PlannerError>)
    ensures r.Ok? <==> flyingTime > 0.0 && stanceTime > 0.0 && gain > 0.0
    ensures r.Err? ==> r.error == (if flyingTime <= 0.0 then FlyingTimeNotPositive
                                   else if stanceTime <= 0.0 then StanceTimeNotPositive
                                   else GainNotPositive)
    ensures r.Ok? ==> r.value.enableRaibertHeuristic
    ensures r.Ok? ==> r.value.raibert == RaibertHeuristic(2.0 * stanceTime, gain)
    ensures r.Ok? ==> r.value.vComCmd == vComCmd && r.value.yawRateCmd == yawRateCmd
    ensures r.Ok? ==> r.value.rYaw == YawRotation(cos(yawRateCmd * flyingTime), sin(yawRateCmd * flyingTime))
    ensures r.Ok? ==> r.value.stepLength == p.stepLength && r.value.currentStep == p.currentStep
                      && r.value.comRef == p.comRef && r.value.rRef == p.rRef
                      && r.value.contactPositionRef == p.contactPositionRef
                      && r.value.comToContactLocal == p.comToContactLocal
  {
    if flyingTime <= 0.0 then Err(FlyingTimeNotPositive)
    else if stanceTime <= 0.0 then Err(StanceTimeNotPositive)
    else if gain <= 0.0 then Err(GainNotPositive)
    else
      var yawCmd := yawRateCmd * flyingTime;
      Ok(p.(raibert := RaibertHeuristic(2.0 * stanceTime, gain), vComCmd := vComCmd,
            rYaw := YawRotation(cos(yawCmd), sin(yawCmd)), yawRateCmd := yawRateCmd,
            enableRaibertHeuristic := true))
  }

  /** Initialises the planner at a configuration, given through what the
      kinematics computes from it: the yaw-projected base orientation `r0`,
      the positions of the four feet and the CoM. */
  function Init(p: Planner, r0: M3, feet: seq<V3>, com: V3): (r: Planner)
    requires |feet| >= 4
    ensures |r.comToContactLocal| == 4
    ensures r.comRef == [com] && r.rRef == [r0] && r.contactPositionRef == []
    ensures r.currentStep == 0
    ensures r.(comToContactLocal := p.comToContactLocal, comRef := p.comRef, rRef := p.rRef,
               contactPositionRef := p.contactPositionRef, currentStep := p.currentStep) == p
  {
    var local := seq(4, i requires 0 <= i < 4 => MatVec(Transpose(r0), Sub(feet[i], com)));
    p.(comToContactLocal := local, contactPositionRef := [], comRef := [com], rRef := [r0],
       currentStep := 0)
  }

  /** When the orientation is a rotation, the local offsets stored by `Init`
      put each foot back where it was: CoM plus rotated offset. */
  lemma InitOffsetsReconstructFeet(p: Planner, r0: M3, feet: seq<V3>, com: V3)
    requires |feet| >= 4
    requires MatMul(r0, Transpose(r0)) == Identity3
    ensures forall i :: 0 <= i < 4 ==>
      Add(com, MatVec(r0, Init(p, r0, feet, com).comToContactLocal[i])) == feet[i]
  {
    var local := Init(p, r0, feet, com).comToContactLocal;
    forall i | 0 <= i < 4
      ensures Add(com, MatVec(r0, local[i])) == feet[i]
    {
      var d := Sub(feet[i], com);
      MatVecOfProduct(r0, Transpose(r0), d);
      MatVecIdentity(d);
    }
  }

  // ---------------------------------------------------------------------
  // The gait's step counter

  predicate AllFeetInContact(active: seq<bool>)
    requires |active| >= 4
  {
    active[0] && active[1] && active[2] && active[3]
  }

  /** Diagonal stance on LF and RH (feet 0 and 3). */
  predicate DiagonalStance03(active: seq<bool>)
    requires |active| >= 4
  {
    !AllFeetInContact(active) && active[0] && active[3]
  }

  /** Diagonal stance on LH and RF (feet 1 and 2). */
  predicate DiagonalStance12(active: seq<bool>)
    requires |active| >= 4
  {
    !AllFeetInContact(active) && !DiagonalStance03(active) && active[1] && active[2]
  }

  predicate Flying(active: seq<bool>)
    requires |active| >= 4
  {
    !AllFeetInContact(active) && !DiagonalStance03(active) && !DiagonalStance12(active)
  }

  /** The step counter after `plan` sees the contact status `active`. The
      counter is never negative, where truncating and Euclidean remainders
      agree. */
  function NextStep(currentStep: nat, active: seq<bool>): (r: nat)
    requires |active| >= 4
    ensures r == 0 || r == currentStep || r == currentStep + 1
  {
    if AllFeetInContact(active) then 0
    else if active[0] && active[3] then (if currentStep % 4 != 1 then currentStep + 1 else currentStep)
    else if active[1] && active[2] then (if currentStep % 4 != 3 then currentStep + 1 else currentStep)
    else (if currentStep % 2 != 0 then currentStep + 1 else currentStep)
  }

  /** Outside the four-feet stance the counter grows by at most one; the
      residues 1 and 3 mod 4 are the fixed points of the two diagonal
      stances and even counters those of flight, and every other counter
      moves on by one. */
  lemma NextStepRules(currentStep: nat, active: seq<bool>)
    requires |active| >= 4
    ensures AllFeetInContact(active) ==> NextStep(currentStep, active) == 0
    ensures !AllFeetInContact(active) ==>
      currentStep <= NextStep(currentStep, active) <= currentStep + 1
    ensures DiagonalStance03(active) ==>
      (NextStep(currentStep, active) == currentStep <==> currentStep % 4 == 1)
    ensures DiagonalStance12(active) ==>
      (NextStep(currentStep, active) == currentStep <==> currentStep % 4 == 3)
    ensures Flying(active) ==>
      (NextStep(currentStep, active) == currentStep <==> currentStep % 2 == 0)
    ensures Flying(active) ==> NextStep(currentStep, active) % 2 == 0
  {
  }

  /** One trot cycle from a counter that is a multiple of four: stance on
      feet 0 and 3, flight, stance on feet 1 and 2, flight. Each phase moves
      the counter on by one, and the cycle ends on the next multiple of
      four; seeing the same phase again leaves the counter where it is. */
  lemma {:induction false} TrotCycle(n: nat, s03: seq<bool>, fly: seq<bool>, s12: seq<bool>)
    requires n % 4 == 0
    requires |s03| >= 4 && |fly| >= 4 && |s12| >= 4
    requires DiagonalStance03(s03) && Flying(fly) && DiagonalStance12(s12)
    ensures NextStep(n, s03) == n + 1
    ensures NextStep(n + 1, s03) == n + 1
    ensures NextStep(n + 1, fly) == n + 2
    ensures NextStep(n + 2, fly) == n + 2
    ensures NextStep(n + 2, s12) == n + 3
    ensures NextStep(n + 3, s12) == n + 3
    ensures NextStep(n + 3, fly) == n + 4 && (n + 4) % 4 == 0
  {
    NextStepRules(n, s03);
    NextStepRules(n + 1, s03);
    NextStepRules(n + 1, fly);
    NextStepRules(n + 2, fly);
    NextStepRules(n + 2, s12);
    NextStepRules(n + 3, s12);
    NextStepRules(n + 3, fly);
  }

  // ---------------------------------------------------------------------
  // Estimating the CoM from the feet in contact

  /** The CoM a stance foot implies: its position minus its rotated
      offset. */
  function ImpliedCom(feet: seq<V3>, r: M3, local: seq<V3>, i: nat): V3
    requires i < |feet| && i < |local|
  {
    Sub(feet[i], MatVec(r, local[i]))
  }

  /** The mean of the CoM positions the four feet imply. */
  function FourFootCom(feet: seq<V3>, r: M3, local: seq<V3>): V3
    requires |feet| >= 4 && |local| == 4
  {
    Scale(0.25, Add(Add(ImpliedCom(feet, r, local, 0), ImpliedCom(feet, r, local, 1)),
                    Add(ImpliedCom(feet, r, local, 2), ImpliedCom(feet, r, local, 3))))
  }

  /** The mean of the CoM positions two stance feet imply. */
  function TwoFootCom(feet: seq<V3>, r: M3, local: seq<V3>, i: nat, j: nat): V3
    requires i < |feet| && j < |feet| && |local| == 4 && i < 4 && j < 4
  {
    Scale(0.5, Add(ImpliedCom(feet, r, local, i), ImpliedCom(feet, r, local, j)))
  }

  /** The estimates are exact: when every foot sits at the CoM `c` plus its
      rotated offset, all three estimates give back `c`. */
  lemma ComEstimatesAreExact(feet: seq<V3>, r: M3, local: seq<V3>, c: V3)
    requires |feet| >= 4 && |local| == 4
    requires forall i :: 0 <= i < 4 ==> feet[i] == Add(c, MatVec(r, local[i]))
    ensures FourFootCom(feet, r, local) == c
    ensures TwoFootCom(feet, r, local, 0, 3) == c
    ensures TwoFootCom(feet, r, local, 1, 2) == c
  {
    assert forall i :: 0 <= i < 4 ==> ImpliedCom(feet, r, local, i) == c;
  }

  // ---------------------------------------------------------------------
  // Planning

  /** One entry of the references: CoM, orientation and foot positions. */
  datatype Stage = Stage(com: V3, r: M3, feet: seq<V3>)

  /** The feet a planning step moves: none at step 0 and at odd steps, feet
      1 and 2 at steps 2 mod 4, feet 0 and 3 at positive multiples of 4. */
  function MovedFeet(step: nat): set<nat>
  {
    if step == 0 || step % 2 == 1 then {}
    else if step % 4 == 2 then {1, 2}
    else {0, 3}
  }

  /** Whether a planning step turns the base by the yaw step. */
  predicate Turns(step: nat)
  {
    step > 0 && step % 2 == 0
  }

  /** The fraction of the step length the CoM advances at a turning step:
      a quarter on the first step out of a standstill with a fixed gait
      pattern, a half otherwise. */
  function ComAdvance(enableRaibert: bool, current: nat, step: nat): real
  {
    if current == 0 && step == 2 && !enableRaibert then 0.25 else 0.5
  }

  /** The stage reached by turning the base by the yaw step, advancing the
      CoM by `advance` times the turned step length, and putting feet `i`
      and `j` at their offsets from the new CoM. */
  function TurnAndMove(p: Planner, advance: real, s: Stage, i: nat, j: nat): (r: Stage)
    requires |s.feet| >= 4 && |p.comToContactLocal| == 4 && i < 4 && j < 4
    ensures |r.feet| == |s.feet|
    ensures r.r == MatMul(p.rYaw, s.r)
    ensures r.com == Add(s.com, Scale(advance, MatVec(r.r, p.stepLength)))
    ensures forall k :: 0 <= k < |s.feet| ==>
      r.feet[k] == (if k == i || k == j then Add(r.com, MatVec(r.r, p.comToContactLocal[k])) else s.feet[k])
  {
    var r := MatMul(p.rYaw, s.r);
    var com := Add(s.com, Scale(advance, MatVec(r, p.stepLength)));
    var local := p.comToContactLocal;
    Stage(com, r, s.feet[i := Add(com, MatVec(r, local[i]))][j := Add(com, MatVec(r, local[j]))])
  }

  /** The stage a planning step produces from the previous one, by the
      cases of the planning loop. */
  function PlanStep(p: Planner, current: nat, step: nat, s: Stage): (r: Stage)
    requires |s.feet| >= 4 && |p.comToContactLocal| == 4
    ensures |r.feet| == |s.feet|
  {
    if step == 0 then s
    else if current == 0 && step == 1 then s
    else if current == 0 && step == 2 then
      TurnAndMove(p, if p.enableRaibertHeuristic then 0.5 else 0.25, s, 1, 2)
    else if step % 4 == 1 then s
    else if step % 4 == 2 then TurnAndMove(p, 0.5, s, 1, 2)
    else if step % 4 == 3 then s
    else TurnAndMove(p, 0.5, s, 0, 3)
  }

  /** What a planning step does, by the step's parity: odd steps and step 0
      keep the stage; other steps turn by the yaw step, advance the CoM and
      place exactly the feet `MovedFeet` names. */
  lemma PlanStepEffect(p: Planner, current: nat, step: nat, s: Stage)
    requires |s.feet| >= 4 && |p.comToContactLocal| == 4
    ensures var r := PlanStep(p, current, step, s);
      && r.r == (if Turns(step) then MatMul(p.rYaw, s.r) else s.r)
      && r.com == (if Turns(step)
                   then Add(s.com, Scale(ComAdvance(p.enableRaibertHeuristic, current, step),
                                         MatVec(r.r, p.stepLength)))
                   else s.com)
      && forall i :: 0 <= i < |s.feet| ==>
           r.feet[i] == (if i in MovedFeet(step) then Add(r.com, MatVec(r.r, p.comToContactLocal[i]))
                         else s.feet[i])
  {
    var m := step % 4;
    if step == 0 || m == 1 || m == 3 {
      assert !Turns(step) && MovedFeet(step) == {};
      assert PlanStep(p, current, step, s) == s;
    } else if m == 2 {
      assert Turns(step) && MovedFeet(step) == {1, 2};
      PlanStepMoves(p, current, step, s);
    } else {
      assert Turns(step) && MovedFeet(step) == {0, 3};
      PlanStepMoves(p, current, step, s);
    }
  }

  /** A turning step is a turn-and-move of feet 1 and 2 or of feet 0 and 3. */
  lemma PlanStepMoves(p: Planner, current: nat, step: nat, s: Stage)
    requires |s.feet| >= 4 && |p.comToContactLocal| == 4 && Turns(step)
    ensures PlanStep(p, current, step, s)
            == TurnAndMove(p, ComAdvance(p.enableRaibertHeuristic, current, step), s,
                           if step % 4 == 2 then 1 else 0, if step % 4 == 2 then 2 else 3)
  {
    if step % 4 == 0 {
      assert !(current == 0 && step == 2);
    }
  }

  /** The first stage of the plan: the current CoM and orientation, and the
      feet, estimated from the contact status. In four-foot stance the CoM
      is the four feet's estimate; in a diagonal stance the stance pair's
      estimate, the orientation having turned when the counter moved on,
      and the swing feet are placed half a step back; in flight everything
      is taken from the previous plan. */
  function FirstStage(p: Planner, feet: seq<V3>, active: seq<bool>): (r: Stage)
    requires p.currentStep >= 0 && |p.comRef| > 0 && |p.rRef| > 0
    requires |p.comToContactLocal| == 4 && |feet| >= 4 && |active| >= 4
    requires Flying(active) ==> |p.contactPositionRef| > 0 && |p.contactPositionRef[0]| >= 4
    ensures |r.feet| == |feet|
    ensures forall i :: 4 <= i < |feet| ==> r.feet[i] == feet[i]
    ensures AllFeetInContact(active) ==>
      r.r == p.rRef[0] && r.feet == feet && r.com == FourFootCom(feet, r.r, p.comToContactLocal)
    ensures DiagonalStance03(active) || DiagonalStance12(active) ==>
      r.r == (if NextStep(p.currentStep, active) != p.currentStep then MatMul(p.rYaw, p.rRef[0])
              else p.rRef[0])
    ensures DiagonalStance03(active) ==>
      r.com == TwoFootCom(feet, r.r, p.comToContactLocal, 0, 3)
      && r.feet[0] == feet[0] && r.feet[3] == feet[3]
      && r.feet[1] == Add(r.com, MatVec(r.r, Sub(p.comToContactLocal[1], Scale(0.5, p.stepLength))))
      && r.feet[2] == Add(r.com, MatVec(r.r, Sub(p.comToContactLocal[2], Scale(0.5, p.stepLength))))
    ensures DiagonalStance12(active) ==>
      r.com == TwoFootCom(feet, r.r, p.comToContactLocal, 1, 2)
      && r.feet[1] == feet[1] && r.feet[2] == feet[2]
      && r.feet[0] == Add(r.com, MatVec(r.r, Sub(p.comToContactLocal[0], Scale(0.5, p.stepLength))))
      && r.feet[3] == Add(r.com, MatVec(r.r, Sub(p.comToContactLocal[3], Scale(0.5, p.stepLength))))
    ensures Flying(active) ==>
      r.com == p.comRef[0] && r.r == p.rRef[0]
      && forall i :: 0 <= i < 4 ==> r.feet[i] == p.contactPositionRef[0][i]
  {
    var local := p.comToContactLocal;
    var r0 := p.rRef[0];
    if AllFeetInContact(active) then
      Stage(FourFootCom(feet, r0, local), r0, feet)
    else if active[0] && active[3] then
      var r := if p.currentStep % 4 != 1 then MatMul(p.rYaw, r0) else r0;
      var com := TwoFootCom(feet, r, local, 0, 3);
      Stage(com, r, feet[1 := Add(com, MatVec(r, Sub(local[1], Scale(0.5, p.stepLength))))]
                        [2 := Add(com, MatVec(r, Sub(local[2], Scale(0.5, p.stepLength))))])
    else if active[1] && active[2] then
      var r := if p.currentStep % 4 != 3 then MatMul(p.rYaw, r0) else r0;
      var com := TwoFootCom(feet, r, local, 1, 2);
      Stage(com, r, feet[0 := Add(com, MatVec(r, Sub(local[0], Scale(0.5, p.stepLength))))]
                        [3 := Add(com, MatVec(r, Sub(local[3], Scale(0.5, p.stepLength))))])
    else
      var prev := p.contactPositionRef[0];
      Stage(p.comRef[0], r0, seq(|feet|, i requires 0 <= i < |feet| => if i < 4 then prev[i] else feet[i]))
  }

  /** The references a plan consists of: `planningSteps + 3` stages, the
      first one `first`, each of the next `planningSteps + 1` the planning
      step (counted from `current`) applied to the one before, and the last
      a repetition of the one before it. */
  ghost predicate PlannedFrom(q: Planner, current: nat, first: Stage, planningSteps: nat,
                              comRef: seq<V3>, rRef: seq<M3>, posRef: seq<seq<V3>>)
    requires |first.feet| >= 4 && |q.comToContactLocal| == 4
  {
    && |comRef| == |rRef| == |posRef| == planningSteps + 3
    && (forall k :: 0 <= k < |posRef| ==> |posRef[k]| == |first.feet|)
    && Stage(comRef[0], rRef[0], posRef[0]) == first
    && (forall k :: 1 <= k <= planningSteps + 1 ==>
          Stage(comRef[k], rRef[k], posRef[k])
          == PlanStep(q, current, current + k - 1, Stage(comRef[k - 1], rRef[k - 1], posRef[k - 1])))
    && comRef[planningSteps + 2] == comRef[planningSteps + 1]
    && rRef[planningSteps + 2] == rRef[planningSteps + 1]
    && posRef[planningSteps + 2] == posRef[planningSteps + 1]
  }

  /** The planning loop: from the first stage, one stage per planning step
      from the counter `current` on, then the last stage once more. */
  method PlanStages(q: Planner, current: nat, first: Stage, planningSteps: nat)
    returns (comRef: seq<V3>, rRef: seq<M3>, posRef: seq<seq<V3>>)
    requires |first.feet| >= 4 && |q.comToContactLocal| == 4
    ensures PlannedFrom(q, current, first, planningSteps, comRef, rRef, posRef)
  {
    var stages := [first];
    var step := current;
    while step <= planningSteps + current
      invariant current <= step <= planningSteps + current + 1
      invariant |stages| == step - current + 1
      invariant stages[0] == first
      invariant forall k :: 0 <= k < |stages| ==> |stages[k].feet| == |first.feet|
      invariant forall k :: 1 <= k < |stages| ==>
        stages[k] == PlanStep(q, current, current + k - 1, stages[k - 1])
    {
      stages := stages + [PlanStep(q, current, step, stages[|stages| - 1])];
      step := step + 1;
    }
    stages := stages + [stages[|stages| - 1]];
    comRef := seq(|stages|, k requires 0 <= k < |stages| => stages[k].com);
    rRef := seq(|stages|, k requires 0 <= k < |stages| => stages[k].r);
    posRef := seq(|stages|, k requires 0 <= k < |stages| => stages[k].feet);
    assert forall k :: 0 <= k < |stages| ==> Stage(comRef[k], rRef[k], posRef[k]) == stages[k];
  }

  /** `plan`: moves the step counter on, then fills the references with
      `planningSteps + 3` stages: the first stage, one stage per planning
      step from the counter on, and the last stage repeated. The Raibert
      heuristic, when enabled, replaces the step length by what
      `planStepLength` makes of the base velocity in the orientation's
      frame, the commanded velocity and the commanded yaw rate. */
  method Plan(p: Planner, feet: seq<V3>, active: seq<bool>, baseVelocity: V3,
              planningSteps: int, planStepLength: (RaibertHeuristic, V3, V3, real) -> V3)
    returns (r: Planner, ok: bool)
    requires planningSteps >= 0
    requires p.currentStep >= 0 && |p.comRef| > 0 && |p.rRef| > 0
    requires |p.comToContactLocal| == 4 && |feet| >= 4 && |active| >= 4
    requires Flying(active) ==> |p.contactPositionRef| > 0 && |p.contactPositionRef[0]| >= 4
    ensures ok
    ensures r.currentStep == NextStep(p.currentStep, active)
    ensures r.stepLength == (if p.enableRaibertHeuristic
                             then planStepLength(p.raibert, MatVec(Transpose(p.rRef[0]), baseVelocity),
                                                 p.vComCmd, p.yawRateCmd)
                             else p.stepLength)
    ensures r.(currentStep := p.currentStep, stepLength := p.stepLength, comRef := p.comRef,
               rRef := p.rRef, contactPositionRef := p.contactPositionRef) == p
    ensures |r.comRef| == |r.rRef| == |r.contactPositionRef| == planningSteps + 3
    ensures PlannedFrom(p.(stepLength := r.stepLength), r.currentStep,
                        FirstStage(p.(stepLength := r.stepLength), feet, active), planningSteps,
                        r.comRef, r.rRef, r.contactPositionRef)
  {
    var stepLength := if p.enableRaibertHeuristic
                      then planStepLength(p.raibert, MatVec(Transpose(p.rRef[0]), baseVelocity),
                                          p.vComCmd, p.yawRateCmd)
                      else p.stepLength;
    var q := p.(stepLength := stepLength);
    var current := NextStep(p.currentStep, active);
    var first := FirstStage(q, feet, active);
    var comRef, rRef, posRef := PlanStages(q, current, first, planningSteps);
    r := q.(currentStep := current, comRef := comRef, rRef := rRef, contactPositionRef := posRef);
    ok := true;
  }
}
