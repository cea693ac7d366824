/** The trial point of the filter line search: the stage solution moved
    along the Newton direction by a step size, written into a separate
    trial solution. Only the primal quantities the cost and constraint
    evaluation needs are written. */
module LineSearch {
  import opened LinearAlgebra
  import opened SplitSolutions

  /** The sizes the Eigen expressions of `computeSolutionTrial` need. */
  ghost predicate TrialConforms(s: SplitSolution, d: SplitDirection, sTrial: SplitSolution, impulse: bool)
  {
    |s.v| == |d.dv|
    && (!impulse ==> |s.a| == |d.da| && |s.u| == |d.du|)
    && (impulse ==> |s.dv| == |d.ddv|)
    && (s.hasActiveContacts ==> s.dimf <= |s.fStorage| && s.dimf <= |sTrial.fStorage| && |d.df| == s.dimf)
  }

  /** `computeSolutionTrial`: the trial solution takes the contact status of
      `s` and the primal point `s + stepSize * d` (configuration through the
      robot's integrator; accelerations and torques on a regular stage, the
      impulse velocity change on an impulse stage, the force stack when
      contacts are active). Everything else of the trial keeps its value. */
  function ComputeSolutionTrial(robot: Robot, s: SplitSolution, d: SplitDirection, stepSize: real,
                                sTrial: SplitSolution, impulse: bool := false): (r: SplitSolution)
    requires TrialConforms(s, d, sTrial, impulse)
    ensures r.hasActiveContacts == s.hasActiveContacts && r.isContactActive == s.isContactActive && r.dimf == s.dimf
    ensures r.q == robot.integrateConfiguration(s.q, d.dq, stepSize)
    ensures r.v == Axpy(s.v, stepSize, d.dv)
    ensures !impulse ==> r.a == Axpy(s.a, stepSize, d.da) && r.u == Axpy(s.u, stepSize, d.du) && r.dv == sTrial.dv
    ensures impulse ==> r.dv == Axpy(s.dv, stepSize, d.ddv) && r.a == sTrial.a && r.u == sTrial.u
    ensures s.hasActiveContacts ==> r.dimf <= |r.fStorage| && FStack(r) == Axpy(FStack(s), stepSize, d.df)
    ensures s.hasActiveContacts ==> r.fStorage[r.dimf..] == sTrial.fStorage[r.dimf..]
    ensures !s.hasActiveContacts ==> r.fStorage == sTrial.fStorage
    ensures r.lmd == sTrial.lmd && r.gmm == sTrial.gmm && r.beta == sTrial.beta && r.nuPassive == sTrial.nuPassive
    ensures r.muStorage == sTrial.muStorage && r.xiStorage == sTrial.xiStorage
    ensures r.hasActiveImpulse == sTrial.hasActiveImpulse && r.dimi == sTrial.dimi
  {
    var t := WithContactStatusOf(sTrial, s).(
      q := robot.integrateConfiguration(s.q, d.dq, stepSize),
      v := Axpy(s.v, stepSize, d.dv));
    var t2 := if !impulse then t.(a := Axpy(s.a, stepSize, d.da), u := Axpy(s.u, stepSize, d.du))
              else t.(dv := Axpy(s.dv, stepSize, d.ddv));
    if s.hasActiveContacts then t2.(fStorage := SetHead(sTrial.fStorage, Axpy(FStack(s), stepSize, d.df)))
    else t2
  }

  /** On a regular stage the trial point is the primal part of what
      `integrate` would make of `s` with the same step. */
  lemma TrialAgreesWithIntegrate(robot: Robot, s: SplitSolution, d: SplitDirection, stepSize: real, sTrial: SplitSolution)
    requires Conforms(s, d, false) && TrialConforms(s, d, sTrial, false)
    ensures var r := ComputeSolutionTrial(robot, s, d, stepSize, sTrial);
            var i := Integrate(robot, s, stepSize, d, false);
            r.q == i.q && r.v == i.v && r.a == i.a && r.u == i.u
            && (s.hasActiveContacts ==> FStack(r) == FStack(i))
  {
  }

  /** On an impulse stage the trial point agrees with `integrate` on the
      configuration, the velocity and the impulse velocity change. */
  lemma ImpulseTrialAgreesWithIntegrate(robot: Robot, s: SplitSolution, d: SplitDirection, stepSize: real, sTrial: SplitSolution)
    requires Conforms(s, d, true) && TrialConforms(s, d, sTrial, true)
    ensures var r := ComputeSolutionTrial(robot, s, d, stepSize, sTrial, true);
            var i := Integrate(robot, s, stepSize, d, true);
            r.q == i.q && r.v == i.v && r.dv == i.dv
            && (s.hasActiveContacts ==> FStack(r) == FStack(i))
  {
  }

  /** A zero step reproduces the primal point of `s` (apart from the
      configuration, which goes through the integrator). */
  lemma ZeroStepTrialIsCurrentPoint(robot: Robot, s: SplitSolution, d: SplitDirection, sTrial: SplitSolution)
    requires TrialConforms(s, d, sTrial, false)
    ensures var r := ComputeSolutionTrial(robot, s, d, 0.0, sTrial);
            r.v == s.v && r.a == s.a && r.u == s.u && (s.hasActiveContacts ==> FStack(r) == FStack(s))
  {
  }
}
