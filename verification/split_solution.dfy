/** The solution of one stage of the optimal control problem: primal
    variables (configuration, velocity, acceleration, impulse velocity
    change, torques, contact forces) and dual variables (costates,
    multipliers). Contact forces and their multipliers live in storage of
    the robot's maximal contact dimension, of which the first `dimf`
    entries (the "stack") belong to the active contacts; likewise the
    switching-constraint multiplier `xi` with `dimi`. */
module SplitSolutions {
  import opened LinearAlgebra

  /** The robot as far as a stage solution needs it. The configuration
      integrator (the retraction on the configuration manifold, which is
      quaternion arithmetic on a floating base) is left abstract:
      `integrateConfiguration(q, dq, step)` is the configuration reached
      from `q` along `dq` scaled by `step`. */
  datatype Robot = Robot(
    dimq: nat, dimv: nat, dimu: nat, dimPassive: nat,
    maxNumContacts: nat, maxDimf: nat, hasFloatingBase: bool,
    integrateConfiguration: (Vec, Vec, real) -> Vec)

  datatype SplitSolution = SplitSolution(
    q: Vec, v: Vec, a: Vec, dv: Vec, u: Vec,
    lmd: Vec, gmm: Vec, beta: Vec, nuPassive: Vec,
    fStorage: Vec, muStorage: Vec, xiStorage: Vec,
    hasFloatingBase: bool,
    hasActiveContacts: bool, isContactActive: seq<bool>, dimf: nat,
    hasActiveImpulse: bool, dimi: nat)

  /** A Newton direction for one stage, with its stacked contact parts
      already cut to the active dimensions. */
  datatype SplitDirection = SplitDirection(
    dq: Vec, dv: Vec, da: Vec, ddv: Vec, du: Vec,
    dlmd: Vec, dgmm: Vec, dbeta: Vec, dnuPassive: Vec,
    df: Vec, dmu: Vec, dxi: Vec)

  /** The active dimensions fit in their storage. */
  ghost predicate StacksFit(s: SplitSolution)
  {
    s.dimf <= |s.fStorage| && s.dimf <= |s.muStorage| && s.dimi <= |s.xiStorage|
  }

  function FStack(s: SplitSolution): Vec
    requires s.dimf <= |s.fStorage|
  {
    s.fStorage[..s.dimf]
  }

  function MuStack(s: SplitSolution): Vec
    requires s.dimf <= |s.muStorage|
  {
    s.muStorage[..s.dimf]
  }

  function XiStack(s: SplitSolution): Vec
    requires s.dimi <= |s.xiStorage|
  {
    s.xiStorage[..s.dimi]
  }

  /** Overwrites the leading entries of a storage vector. */
  function SetHead(storage: Vec, head: Vec): (r: Vec)
    requires |head| <= |storage|
    ensures |r| == |storage| && r[..|head|] == head && r[|head|..] == storage[|head|..]
  {
    head + storage[|head|..]
  }

  /** The constructor from a robot: every vector zero and sized by the
      robot, no active contact or impulse, except that the quaternion's
      real part `q[6]` of a floating base is 1 (the identity orientation). */
  function Create(robot: Robot): (s: SplitSolution)
    requires robot.hasFloatingBase ==> robot.dimq > 6
    ensures |s.q| == robot.dimq
    ensures forall i :: 0 <= i < robot.dimq ==>
      s.q[i] == (if robot.hasFloatingBase && i == 6 then 1.0 else 0.0)
    ensures s.v == Zeros(robot.dimv) && s.a == Zeros(robot.dimv) && s.dv == Zeros(robot.dimv)
    ensures s.u == Zeros(robot.dimu) && s.nuPassive == Zeros(robot.dimPassive)
    ensures s.lmd == Zeros(robot.dimv) && s.gmm == Zeros(robot.dimv) && s.beta == Zeros(robot.dimv)
    ensures |s.fStorage| == robot.maxDimf && |s.muStorage| == robot.maxDimf && |s.xiStorage| == robot.maxDimf
    ensures StacksFit(s) && FStack(s) == [] && MuStack(s) == [] && XiStack(s) == []
    ensures !s.hasActiveContacts && !s.hasActiveImpulse
    ensures |s.isContactActive| == robot.maxNumContacts
    ensures forall i :: 0 <= i < robot.maxNumContacts ==> !s.isContactActive[i]
    ensures s.hasFloatingBase == robot.hasFloatingBase
  {
    var q0 := Zeros(robot.dimq);
    SplitSolution(
      if robot.hasFloatingBase then q0[6 := 1.0] else q0,
      Zeros(robot.dimv), Zeros(robot.dimv), Zeros(robot.dimv), Zeros(robot.dimu),
      Zeros(robot.dimv), Zeros(robot.dimv), Zeros(robot.dimv), Zeros(robot.dimPassive),
      Zeros(robot.maxDimf), Zeros(robot.maxDimf), Zeros(robot.maxDimf),
      robot.hasFloatingBase, false, seq(robot.maxNumContacts, _ => false), 0, false, 0)
  }

  /** The default constructor: every vector empty, nothing active. */
  function Default(): (s: SplitSolution)
    ensures |s.q| == 0 && |s.v| == 0 && |s.a| == 0 && |s.dv| == 0 && |s.u| == 0
    ensures |s.lmd| == 0 && |s.gmm| == 0 && |s.beta| == 0 && |s.nuPassive| == 0
    ensures |s.fStorage| == 0 && |s.muStorage| == 0 && |s.xiStorage| == 0
    ensures s.dimf == 0 && s.dimi == 0 && |FStack(s)| == 0 && |MuStack(s)| == 0 && |XiStack(s)| == 0
    ensures StacksFit(s) && !s.hasFloatingBase && !s.hasActiveContacts && !s.hasActiveImpulse
    ensures |s.isContactActive| == 0
  {
    SplitSolution([], [], [], [], [], [], [], [], [], [], [], [], false, false, [], 0, false, 0)
  }

  /** The sizes `integrate` relies on: Eigen's `+=` needs equal lengths, and
      the stacked force and multiplier directions must match the active
      contact dimension (the source asserts the latter). */
  ghost predicate Conforms(s: SplitSolution, d: SplitDirection, impulse: bool)
  {
    StacksFit(s)
    && |s.v| == |d.dv| && |s.lmd| == |d.dlmd| && |s.gmm| == |d.dgmm| && |s.beta| == |d.dbeta|
    && (!impulse ==> |s.a| == |d.da| && |s.u| == |d.du|)
    && (impulse ==> |s.dv| == |d.ddv|)
    && (s.hasFloatingBase && !impulse ==> |s.nuPassive| == |d.dnuPassive|)
    && |FStack(s)| == |d.df| && |MuStack(s)| == |d.dmu|
    && (s.hasActiveImpulse && !impulse ==> |XiStack(s)| == |d.dxi|)
  }

  /** `integrate`: one Newton update of the whole stage solution with step
      size `stepSize`. On an impulse stage the acceleration and torques are
      zeroed and the impulse velocity change is updated; on a regular stage
      it is the other way round. */
  function Integrate(robot: Robot, s: SplitSolution, stepSize: real, d: SplitDirection, impulse: bool): (r: SplitSolution)
    requires Conforms(s, d, impulse)
    ensures StacksFit(r)
    ensures r.q == robot.integrateConfiguration(s.q, d.dq, stepSize)
    ensures r.v == Axpy(s.v, stepSize, d.dv)
    ensures !impulse ==> r.a == Axpy(s.a, stepSize, d.da) && r.u == Axpy(s.u, stepSize, d.du)
    ensures !impulse ==> r.dv == Zeros(|s.dv|)
    ensures impulse ==> r.a == Zeros(|s.a|) && r.u == Zeros(|s.u|)
    ensures impulse ==> r.dv == Axpy(s.dv, stepSize, d.ddv)
    ensures r.lmd == Axpy(s.lmd, stepSize, d.dlmd) && r.gmm == Axpy(s.gmm, stepSize, d.dgmm)
    ensures r.beta == Axpy(s.beta, stepSize, d.dbeta)
    ensures r.nuPassive == (if s.hasFloatingBase && !impulse then Axpy(s.nuPassive, stepSize, d.dnuPassive) else s.nuPassive)
    ensures s.hasActiveContacts ==> FStack(r) == Axpy(FStack(s), stepSize, d.df)
    ensures s.hasActiveContacts ==> MuStack(r) == Axpy(MuStack(s), stepSize, d.dmu)
    ensures !s.hasActiveContacts ==> r.fStorage == s.fStorage && r.muStorage == s.muStorage
    ensures s.hasActiveImpulse && !impulse ==> XiStack(r) == Axpy(XiStack(s), stepSize, d.dxi)
    ensures !(s.hasActiveImpulse && !impulse) ==> r.xiStorage == s.xiStorage
    ensures r.fStorage[s.dimf..] == s.fStorage[s.dimf..] && r.muStorage[s.dimf..] == s.muStorage[s.dimf..]
    ensures r.xiStorage[s.dimi..] == s.xiStorage[s.dimi..]
    ensures r.hasActiveContacts == s.hasActiveContacts && r.isContactActive == s.isContactActive
    ensures r.dimf == s.dimf && r.hasActiveImpulse == s.hasActiveImpulse && r.dimi == s.dimi
    ensures r.hasFloatingBase == s.hasFloatingBase
  {
    s.(q := robot.integrateConfiguration(s.q, d.dq, stepSize),
       v := Axpy(s.v, stepSize, d.dv),
       a := if !impulse then Axpy(s.a, stepSize, d.da) else Zeros(|s.a|),
       dv := if !impulse then Zeros(|s.dv|) else Axpy(s.dv, stepSize, d.ddv),
       u := if !impulse then Axpy(s.u, stepSize, d.du) else Zeros(|s.u|),
       lmd := Axpy(s.lmd, stepSize, d.dlmd),
       gmm := Axpy(s.gmm, stepSize, d.dgmm),
       beta := Axpy(s.beta, stepSize, d.dbeta),
       nuPassive := if s.hasFloatingBase && !impulse then Axpy(s.nuPassive, stepSize, d.dnuPassive) else s.nuPassive,
       fStorage := if s.hasActiveContacts then SetHead(s.fStorage, Axpy(FStack(s), stepSize, d.df)) else s.fStorage,
       muStorage := if s.hasActiveContacts then SetHead(s.muStorage, Axpy(MuStack(s), stepSize, d.dmu)) else s.muStorage,
       xiStorage := if s.hasActiveImpulse && !impulse then SetHead(s.xiStorage, Axpy(XiStack(s), stepSize, d.dxi))
                    else s.xiStorage)
  }

  /** `setContactStatus(other)`: adopt another solution's contact status. */
  function WithContactStatusOf(s: SplitSolution, other: SplitSolution): SplitSolution
  {
    s.(hasActiveContacts := other.hasActiveContacts, isContactActive := other.isContactActive, dimf := other.dimf)
  }

  /** `copyPrimal`: take over the other solution's contact status and primal
      variables; the active forces are copied contact by contact and
      restacked, which leaves the other's force stack in place. */
  function CopyPrimal(s: SplitSolution, other: SplitSolution): (r: SplitSolution)
    requires other.dimf <= |other.fStorage| && other.dimf <= |s.fStorage|
    ensures r.hasActiveContacts == other.hasActiveContacts && r.isContactActive == other.isContactActive
    ensures r.dimf == other.dimf && r.dimf <= |r.fStorage| && |r.fStorage| == |s.fStorage|
    ensures r.q == other.q && r.v == other.v && r.a == other.a && r.dv == other.dv && r.u == other.u
    ensures FStack(r) == FStack(other) && r.fStorage[r.dimf..] == s.fStorage[r.dimf..]
    ensures r.lmd == s.lmd && r.gmm == s.gmm && r.beta == s.beta && r.nuPassive == s.nuPassive
    ensures r.muStorage == s.muStorage && r.xiStorage == s.xiStorage
    ensures r.hasActiveImpulse == s.hasActiveImpulse && r.dimi == s.dimi && r.hasFloatingBase == s.hasFloatingBase
  {
    WithContactStatusOf(s, other).(q := other.q, v := other.v, a := other.a, dv := other.dv, u := other.u,
                                   fStorage := SetHead(s.fStorage, FStack(other)))
  }

  /** `copyDual`: take over the other solution's contact status, its
      switching-constraint dimension and its dual variables. The passive
      joint multiplier is copied only when this solution has a floating
      base; `xi` only when the (copied) impulse status is active. */
  function CopyDual(s: SplitSolution, other: SplitSolution): (r: SplitSolution)
    requires other.dimf <= |other.muStorage| && other.dimf <= |s.muStorage|
    requires other.hasActiveImpulse ==> other.dimi <= |other.xiStorage| && other.dimi <= |s.xiStorage|
    ensures r.hasActiveContacts == other.hasActiveContacts && r.isContactActive == other.isContactActive
    ensures r.dimf == other.dimf && r.hasActiveImpulse == other.hasActiveImpulse && r.dimi == other.dimi
    ensures r.lmd == other.lmd && r.gmm == other.gmm && r.beta == other.beta
    ensures r.nuPassive == (if s.hasFloatingBase then other.nuPassive else s.nuPassive)
    ensures r.dimf <= |r.muStorage| && MuStack(r) == MuStack(other) && r.muStorage[r.dimf..] == s.muStorage[r.dimf..]
    ensures r.hasActiveImpulse ==> r.dimi <= |r.xiStorage| && XiStack(r) == XiStack(other)
    ensures r.hasActiveImpulse ==> r.xiStorage[r.dimi..] == s.xiStorage[r.dimi..]
    ensures !r.hasActiveImpulse ==> r.xiStorage == s.xiStorage
    ensures r.q == s.q && r.v == s.v && r.a == s.a && r.dv == s.dv && r.u == s.u && r.fStorage == s.fStorage
    ensures r.hasFloatingBase == s.hasFloatingBase
  {
    WithContactStatusOf(s, other).(
      hasActiveImpulse := other.hasActiveImpulse, dimi := other.dimi,
      lmd := other.lmd, gmm := other.gmm, beta := other.beta,
      nuPassive := if s.hasFloatingBase then other.nuPassive else s.nuPassive,
      muStorage := SetHead(s.muStorage, MuStack(other)),
      xiStorage := if other.hasActiveImpulse then SetHead(s.xiStorage, XiStack(other)) else s.xiStorage)
  }

  /** `lagrangeMultiplierLinfNorm`: the largest absolute value over all
      Lagrange multipliers; the passive, contact and switching parts take
      part only when present. */
  function LagrangeMultiplierLinfNorm(s: SplitSolution): (r: real)
    requires StacksFit(s)
    ensures r >= 0.0
    ensures forall i :: 0 <= i < |s.lmd| ==> Abs(s.lmd[i]) <= r
    ensures forall i :: 0 <= i < |s.gmm| ==> Abs(s.gmm[i]) <= r
    ensures forall i :: 0 <= i < |s.beta| ==> Abs(s.beta[i]) <= r
    ensures s.hasFloatingBase ==> forall i :: 0 <= i < |s.nuPassive| ==> Abs(s.nuPassive[i]) <= r
    ensures forall i :: 0 <= i < s.dimf ==> Abs(s.muStorage[i]) <= r
    ensures forall i :: 0 <= i < s.dimi ==> Abs(s.xiStorage[i]) <= r
    ensures r == 0.0 || (exists i :: 0 <= i < |s.lmd| && r == Abs(s.lmd[i]))
         || (exists i :: 0 <= i < |s.gmm| && r == Abs(s.gmm[i]))
         || (exists i :: 0 <= i < |s.beta| && r == Abs(s.beta[i]))
         || (s.hasFloatingBase && exists i :: 0 <= i < |s.nuPassive| && r == Abs(s.nuPassive[i]))
         || (exists i :: 0 <= i < s.dimf && r == Abs(s.muStorage[i]))
         || (exists i :: 0 <= i < s.dimi && r == Abs(s.xiStorage[i]))
  {
    var lmdLinf := InfNorm(s.lmd);
    var gmmLinf := InfNorm(s.gmm);
    var betaLinf := InfNorm(s.beta);
    var nuLinf := if s.hasFloatingBase then InfNorm(s.nuPassive) else 0.0;
    var muLinf := if s.dimf > 0 then InfNorm(MuStack(s)) else 0.0;
    var xiLinf := if s.dimi > 0 then InfNorm(XiStack(s)) else 0.0;
    assert forall i :: 0 <= i < s.dimf ==> s.muStorage[i] == MuStack(s)[i];
    assert forall i :: 0 <= i < s.dimi ==> s.xiStorage[i] == XiStack(s)[i];
    Max(Max(Max(lmdLinf, gmmLinf), Max(betaLinf, nuLinf)), Max(muLinf, xiLinf))
  }

  /** `isApprox`, with exact reals. Which parts are compared depends on this
      solution's flags: the passive multiplier only with a floating base,
      the force and multiplier stacks and the contact pattern only with
      active contacts, `xi` only with an active impulse. */
  ghost predicate IsApprox(s: SplitSolution, other: SplitSolution)
  {
    s.q == other.q && s.v == other.v && s.a == other.a && s.dv == other.dv && s.u == other.u
    && s.lmd == other.lmd && s.gmm == other.gmm && s.beta == other.beta
    && (s.hasFloatingBase ==> s.nuPassive == other.nuPassive)
    && (s.hasActiveContacts ==>
          s.dimf <= |s.fStorage| && other.dimf <= |other.fStorage| && FStack(s) == FStack(other)
          && s.dimf <= |s.muStorage| && other.dimf <= |other.muStorage| && MuStack(s) == MuStack(other)
          && s.isContactActive == other.isContactActive)
    && (s.hasActiveImpulse ==>
          s.dimi <= |s.xiStorage| && other.dimi <= |other.xiStorage| && XiStack(s) == XiStack(other))
  }

  /** `isApprox` is reflexive, and it ignores what the first solution's
      flags switch off: the passive multiplier without a floating base, the
      force and multiplier stacks and the contact pattern without active
      contacts, and `xi` without an active impulse. */
  lemma IsApproxIgnoresInactiveParts(s: SplitSolution, other: SplitSolution)
    requires StacksFit(s)
    ensures IsApprox(s, s)
    ensures !s.hasFloatingBase ==> IsApprox(s, s.(nuPassive := other.nuPassive))
    ensures !s.hasActiveContacts ==>
      IsApprox(s, s.(fStorage := other.fStorage, muStorage := other.muStorage,
                     isContactActive := other.isContactActive, dimf := other.dimf))
    ensures !s.hasActiveImpulse ==> IsApprox(s, s.(xiStorage := other.xiStorage, dimi := other.dimi))
    ensures IsApprox(s, other) ==> s.q == other.q && s.v == other.v && s.u == other.u && s.lmd == other.lmd
  {
  }

  /** Copying the primal and then the dual part of a solution into a
      solution with the same kind of base reproduces it, in both directions
      of `isApprox`, whatever the target held before. */
  lemma CopyPrimalThenDualReproduces(s: SplitSolution, other: SplitSolution)
    requires StacksFit(other) && other.dimf <= |s.fStorage| && other.dimf <= |s.muStorage|
    requires other.dimi <= |s.xiStorage|
    requires s.hasFloatingBase == other.hasFloatingBase
    ensures var r := CopyDual(CopyPrimal(s, other), other);
            IsApprox(r, other) && IsApprox(other, r)
  {
  }

  /** A regular-stage update followed by another along the same direction
      agrees, on the velocity and the costates, with one update by the
      summed step. */
  lemma IntegrateTwiceVelocityAndCostates(robot: Robot, s: SplitSolution, alpha: real, beta: real, d: SplitDirection)
    requires Conforms(s, d, false)
    ensures Conforms(Integrate(robot, s, alpha, d, false), d, false)
    ensures var once := Integrate(robot, s, alpha + beta, d, false);
            var twice := Integrate(robot, Integrate(robot, s, alpha, d, false), beta, d, false);
            twice.v == once.v && twice.lmd == once.lmd && twice.gmm == once.gmm && twice.beta == once.beta
            && twice.a == once.a && twice.u == once.u
  {
    AxpyTwice(s.v, alpha, beta, d.dv);
    AxpyTwice(s.lmd, alpha, beta, d.dlmd);
    AxpyTwice(s.gmm, alpha, beta, d.dgmm);
    AxpyTwice(s.beta, alpha, beta, d.dbeta);
    AxpyTwice(s.a, alpha, beta, d.da);
    AxpyTwice(s.u, alpha, beta, d.du);
  }
}
