# Discrete bookkeeping and block algebra of a Riccati-recursion optimal-control solver

This project models the parts of a legged-robot optimal-control solver
(direct multiple shooting solved by a Riccati recursion, with an
interior-point treatment of inequality constraints and an MPC layer on top)
that are discrete bookkeeping or exact block algebra, and proves what they
promise. Every quantity is an exact `real`; matrices are sequences of rows.

| file | module | what it models |
|---|---|---|
| `outcomes.dfy` | `Outcomes` | `Result<T, E>`: a value or the error a throwing call raises |
| `linear_algebra.dfy` | `LinearAlgebra` | vectors, square matrices, scaled addition, infinity norm, products |
| `contact_sequence.dfy` | `ContactSequences` | `ContactSequence`: contact phases alternating with impulse and lift events, over the class's parallel deques |
| `constraint_component.dfy` | `ConstraintComponents` | `ConstraintComponentBase`: barrier parameter, fraction-to-boundary rule, slack and dual updates |
| `impulse_friction_cone.dfy` | `ImpulseFrictionCone` | the inner-pyramid friction-cone residual and the per-contact storage layout |
| `split_solution.dfy` | `SplitSolutions` | `SplitSolution`: construction, `integrate`, `copyPrimal`, `copyDual`, `lagrangeMultiplierLinfNorm`, `isApprox` |
| `line_search.dfy` | `LineSearch` | `LineSearch::computeSolutionTrial` and how it relates to `integrate` |
| `lqr_policy.dfy` | `LqrPolicies` | `LQRPolicy`: gain and feedforward sizing, the `Kq`/`Kv` halves, `isApprox` |
| `hybrid_container.dfy` | `HybridContainers` | `hybrid_container` and `OCP`: slot counts and indexing |
| `riccati_factorizer.dfy` | `RiccatiFactorizer` | the three `factorize` overloads, for fixed and floating base |
| `foot_step_planner.dfy` | `FootStepPlanner` | `FlyingTrotFootStepPlanner`: gait patterns, `init`, the step counter and `plan` |

Modelling choices:

- **State as values.** A thrown `std::out_of_range` is an `Err` of a
  `Result`. A failed setter leaves the object as it was, because the source
  throws before it assigns. An `assert` of the source is a `requires`.
- **Contact sequence.** Only the class header is available. Its state is
  modelled as the private deques, and the class invariant `Valid` ties them
  together:
  - there is one more phase than there are events;
  - the per-kind index deques list exactly the flat positions of their kind, in order;
  - per-kind times equal the flat times at those positions;
  - every recorded event is the transition between the phases around it;
  - each kind stays within `maxNumEachEvents`, and `maxNumEvents` is twice that.

  Every operation is proved to keep `Valid`.
- **Planner.** The planner is a state record. Kinematics is passed in as
  values: foot positions, CoM and the yaw-projected base orientation.
  Cosine, sine and the Raibert heuristic's `planStepLength` are passed in
  as functions.
- **Friction cone.** `std::sqrt(2)` is a positive parameter.
- **Robot.** The configuration integrator is a function-typed field of the
  robot.

## Model

| member | source | states |
|---|---|---|
| ConstraintComponents.Create | include/robotoc/constraints/constraint_component_base.hxx:12-28 | construction succeeds iff the barrier is positive and the rule lies strictly between 0 and 1; otherwise it fails with the first violated check, in source order; on success the getters return exactly the arguments |
| ConstraintComponents.SetBarrierParam | include/robotoc/constraints/constraint_component_base.hxx:67-73 | succeeds iff the new barrier is positive; sets only the barrier, keeps the rule, and keeps the parameters valid |
| ConstraintComponents.SetFractionToBoundaryRule | include/robotoc/constraints/constraint_component_base.hxx:76-87 | succeeds iff 0 < rule < 1; a rule <= 0 fails with the positivity error, a rule >= 1 with the upper-bound error; sets only the rule and keeps validity |
| ConstraintComponents.SettersPreserveValidity | include/robotoc/constraints/constraint_component_base.hxx:67-87 | any sequence of setter calls after a valid construction, each throwing call leaving the state unchanged, ends in valid parameters |
| ConstraintComponents.UpdateSlack | include/robotoc/constraints/constraint_component_base.hxx:43-47 | for a positive step, slack grows componentwise by step times dslack; dual, dslack and ddual are unchanged |
| ConstraintComponents.UpdateDual | include/robotoc/constraints/constraint_component_base.hxx:50-54 | for a positive step, dual grows componentwise by step times ddual; slack, dslack and ddual are unchanged |
| ConstraintComponents.UpdateSlackTwice | include/robotoc/constraints/constraint_component_base.hxx:43-47 | the direction is not consumed, so slack updates by alpha and then beta equal one update by alpha + beta |
| ConstraintComponents.UpdateDualTwice | include/robotoc/constraints/constraint_component_base.hxx:50-54 | dual updates by alpha and then beta equal one update by alpha + beta |
| ConstraintComponents.UpdatesCommute | include/robotoc/constraints/constraint_component_base.hxx:43-54 | the slack and dual updates commute |
| ImpulseFrictionCone.FrictionConeResidual | include/robotoc/constraints/impulse_friction_cone.hpp:107-123 | five entries; res[0] = -f2; res[1] - res[2] = 2 f0; res[3] - res[4] = 2 f1; the two pairs have the same sum |
| ImpulseFrictionCone.ResidualWithSlope | include/robotoc/constraints/impulse_friction_cone.hpp:114-122 | with c = mu / sqrt2, each tangential residual is ±f0 or ±f1 minus c f2 |
| ImpulseFrictionCone.MirrorSwapsResiduals | include/robotoc/constraints/impulse_friction_cone.hpp:114-122 | negating f0 swaps res[1] and res[2]; negating f1 swaps res[3] and res[4]; nothing else changes |
| ImpulseFrictionCone.ResidualIsLinear | include/robotoc/constraints/impulse_friction_cone.hpp:114-122 | the residual of a scaled force is the same scale times the residual of f |
| ImpulseFrictionCone.InnerPyramid | include/robotoc/constraints/impulse_friction_cone.hpp:114-122 | all five residuals are non-positive iff f2 >= 0 and both \|f0\| and \|f1\| are at most (mu / sqrt2) f2 |
| ImpulseFrictionCone.InnerPyramidInsideCone | include/robotoc/constraints/impulse_friction_cone.hpp:114-122 | with sqrt2 squared equal to 2, a feasible force lies inside the exact Coulomb cone f0² + f1² <= (mu f2)² |
| ImpulseFrictionCone.VectorIndex | include/robotoc/constraints/impulse_friction_cone.hpp:133-141 | fW of contact i is r[i], the residual is r[M+i], and both lie inside the 2M vector slots |
| ImpulseFrictionCone.MatrixIndex | include/robotoc/constraints/impulse_friction_cone.hpp:143-161 | dg_dq, dg_df, dfW_dq and r_dg_df of contact i are J[i], J[M+i], J[2M+i] and J[3M+i], all inside the 4M matrix slots |
| ImpulseFrictionCone.VectorSlotsDoNotAlias | include/robotoc/constraints/impulse_friction_cone.hpp:133-141 | two vector accessors share a slot only when they are the same accessor for the same contact |
| ImpulseFrictionCone.MatrixSlotsDoNotAlias | include/robotoc/constraints/impulse_friction_cone.hpp:143-161 | two matrix accessors share a slot only when they are the same accessor for the same contact |
| SplitSolutions.Create | src/core/split_solution.cpp:7-33 | every vector is zero and sized by the robot, except q[6] = 1 on a floating base; no contact or impulse is active; the stacks are empty |
| SplitSolutions.Default | src/core/split_solution.cpp:36-59 | every vector (q, v, a, dv, u, lmd, gmm, beta, nu_passive and the f, mu and xi storage) is empty; dimf = dimi = 0, so all three stacks are empty; no floating base; nothing is active |
| SplitSolutions.Integrate | src/core/split_solution.cpp:62-94 | q goes through the integrator; v, lmd, gmm and beta always take step × direction; regular stage: a and u are updated and dv is zeroed; impulse stage: a and u are zeroed and dv is updated; nu_passive moves only on a floating base off impulse; the f and mu stacks move only with active contacts, xi only with an active impulse off impulse; storage beyond the stacks and the contact status are unchanged |
| SplitSolutions.CopyPrimal | src/core/split_solution.cpp:97-108 | takes other's contact status, q, v, a, dv, u and force stack; dual variables, the multiplier storage and the impulse status are kept |
| SplitSolutions.CopyDual | src/core/split_solution.cpp:111-127 | takes other's contact status, switching dimension, lmd, gmm, beta and mu stack; nu_passive only on a floating base; xi only with an active impulse; the primal variables are kept |
| SplitSolutions.LagrangeMultiplierLinfNorm | src/core/split_solution.cpp:130-138 | non-negative; at least the absolute value of every entry of lmd, gmm, beta, nu_passive (floating base), the mu stack and the xi stack; and equal to 0 or to one of those entries' absolute values |
| SplitSolutions.IsApprox | src/core/split_solution.cpp:141-203 | the comparisons of isApprox, each gated by the first solution's flags as in the source; IsApproxIgnoresInactiveParts and CopyPrimalThenDualReproduces state its properties |
| SplitSolutions.IsApproxIgnoresInactiveParts | src/core/split_solution.cpp:141-203 | isApprox is reflexive; it compares q, v, u and lmd always, and ignores nu_passive without a floating base, the f and mu stacks and the contact pattern without active contacts, and xi without an active impulse |
| SplitSolutions.CopyPrimalThenDualReproduces | src/core/split_solution.cpp:97-127 | copyPrimal then copyDual from a solution with the same kind of base gives a solution isApprox-equal to it, in both directions |
| SplitSolutions.IntegrateTwiceVelocityAndCostates | src/core/split_solution.cpp:62-80 | two regular-stage updates by alpha and beta agree with one by alpha + beta on v, a, u, lmd, gmm and beta |
| LineSearch.ComputeSolutionTrial | include/robotoc/line_search/line_search.hpp:122-141 | the trial takes s's contact status; q is the integrator's result; v = s.v + step·dv; regular: a, u updated and dv untouched; impulse: dv updated and a, u untouched; the f stack is updated only with active contacts; no dual field is written |
| LineSearch.TrialAgreesWithIntegrate | include/robotoc/line_search/line_search.hpp:122-141 | on a regular stage the trial's q, v, a, u and force stack equal those of integrate applied to s |
| LineSearch.ImpulseTrialAgreesWithIntegrate | include/robotoc/line_search/line_search.hpp:122-141 | on an impulse stage the trial's q, v, dv and force stack equal those of integrate applied to s |
| LineSearch.ZeroStepTrialIsCurrentPoint | include/robotoc/line_search/line_search.hpp:129-140 | a zero step reproduces s's v, a, u and force stack |
| LqrPolicies.Create | include/idocp/riccati/lqr_policy.hpp:25-30 | K is a zero dimu × 2·dimv matrix, k a zero vector of length dimu, and the dimensions are recorded |
| LqrPolicies.Default | include/idocp/riccati/lqr_policy.hpp:35-40 | empty K and k, both dimensions 0 |
| LqrPolicies.Kq | include/idocp/riccati/lqr_policy.hpp:84-86 | a dimu × dimv matrix whose entries are those of K's top-left corner |
| LqrPolicies.Kv | include/idocp/riccati/lqr_policy.hpp:93-95 | a dimu × dimv matrix whose entries are those of K's top-right corner (the last dimv columns) |
| LqrPolicies.GainHalves | include/idocp/riccati/lqr_policy.hpp:84-95 | for a dimu × 2·dimv gain, Kq is columns [0, dimv) and Kv columns [dimv, 2·dimv); each row of K is its Kq row followed by its Kv row |
| LqrPolicies.FreshGainBlocksAreZero | include/idocp/riccati/lqr_policy.hpp:25-95 | both blocks of a freshly constructed policy are zero |
| LqrPolicies.IsApprox | include/idocp/riccati/lqr_policy.hpp:102-106 | K and k agree (exact reals stand in for Eigen's tolerance); IsApproxIsEquivalence states its properties |
| LqrPolicies.IsApproxIsEquivalence | include/idocp/riccati/lqr_policy.hpp:102-106 | isApprox (LqrPolicies.IsApprox: K and k agree) is reflexive, symmetric and transitive, and ignores the recorded dimensions |
| HybridContainers.Create | include/idocp/hybrid/hybrid_container.hpp:56-74 | N+1 regular slots and N_impulse aux, lift and impulse slots, each a copy of the element |
| HybridContainers.CreateRegular | include/idocp/hybrid/hybrid_container.hpp:80-97 | N+1 regular slots; no aux, lift or impulse slots |
| HybridContainers.Default | include/idocp/hybrid/hybrid_container.hpp:102-107 | all four sequences empty |
| HybridContainers.At | include/idocp/hybrid/hybrid_container.hpp:142-144 | reads regular slot i for 0 <= i < \|data\|; Put's contract is stated through it |
| HybridContainers.Put | include/idocp/hybrid/hybrid_container.hpp:133-146 | for 0 <= i < \|data\|, writing slot i changes only that regular slot; aux, lift and impulse are untouched |
| HybridContainers.CreateOCP | include/idocp/hybrid/hybrid_container.hpp:159-184 | N regular stages (not N+1), N_impulse of each event kind, and the terminal stage |
| HybridContainers.CreateRegularOCP | include/idocp/hybrid/hybrid_container.hpp:190-212 | N regular stages, no event stages, and the terminal stage |
| HybridContainers.OCPAt | include/idocp/hybrid/hybrid_container.hpp:258-260 | reads regular stage i for 0 <= i < \|data\|; OCPPut's contract is stated through it |
| HybridContainers.OCPPut | include/idocp/hybrid/hybrid_container.hpp:249-262 | writing stage i changes only that regular stage; event and terminal stages are untouched |
| HybridContainers.OCPMatchesContainer | include/idocp/hybrid/hybrid_container.hpp:56-165 | an OCP's regular stages plus its terminal stage match the regular slots of a container for the same horizon, and the event slot counts agree |
| RiccatiFactorizer.FactorizeState | test/ocp/riccati_matrix_factorizer_test.cpp:51-57 | the eight-matrix factorize: the four updated state blocks are n × n for both kinds of base; FixedBaseStateEntries gives the fixed-base entries and FloatingBaseWithIdentityIsFixedBase ties the floating-base branch to them |
| RiccatiFactorizer.FactorizeCross | test/ocp/riccati_matrix_factorizer_test.cpp:74-80 | the four-matrix factorize: the updated Qqa and Qva are n × n for both kinds of base; FixedBaseCrossEntries gives the fixed-base entries and FloatingBaseWithIdentityIsFixedBaseCross ties the floating-base branch to them |
| RiccatiFactorizer.FixedBaseStateEntries | test/ocp/riccati_matrix_factorizer_test.cpp:51-57 | fixed base: Qqq' = Qqq + Pqq; Qqv' = Qqv + dt Pqq + Pqv; Qvq' = Qvq + dt Pqq + Pvq; Qvv' = Qvv + dt² Pqq + dt (Pqv + Pvq) + Pvv, entry by entry |
| RiccatiFactorizer.FixedBaseCrossEntries | test/ocp/riccati_matrix_factorizer_test.cpp:74-80 | fixed base: Qqa' = Qqa + dt Pqv and Qva' = Qva + dt² Pqv + dt Pvv |
| RiccatiFactorizer.FactorizeAcceleration | test/ocp/riccati_matrix_factorizer_test.cpp:88-91 | Qaa' - Qaa = dt² Pvv, entry by entry |
| RiccatiFactorizer.FloatingBaseWithIdentityIsFixedBase | test/ocp/riccati_matrix_factorizer_test.cpp:119-136 | the floating-base state formulas with both integration sensitivities equal to the identity give exactly the fixed-base result |
| RiccatiFactorizer.FloatingBaseWithIdentityIsFixedBaseCross | test/ocp/riccati_matrix_factorizer_test.cpp:150-158 | the same for the state/acceleration cross blocks |
| RiccatiFactorizer.FixedBasePreservesSymmetry | test/ocp/riccati_matrix_factorizer_test.cpp:51-56 | if P and Q are symmetric (Pvq = Pqvᵀ, Qvq = Qqvᵀ), the fixed-base result is symmetric too |
| ContactSequences.Create | include/robotoc/hybrid/contact_sequence.hpp:22-28 | rejects a negative capacity; otherwise a valid sequence with one phase (the default status), no events, per-kind capacity as given (0 when omitted) and total capacity twice that |
| ContactSequences.InitContactSequence | include/robotoc/hybrid/contact_sequence.hpp:60-65 | a valid sequence with exactly one phase of the given status and no events; the capacities are kept |
| ContactSequences.CountersAgree | include/robotoc/hybrid/contact_sequence.hpp:159-170 | numDiscreteEvents = numImpulseEvents + numLiftEvents; numContactPhases = numDiscreteEvents + 1; maxNumEvents = 2 · maxNumEachEvents; the events fit in that capacity |
| ContactSequences.ContactStatusAt | include/robotoc/hybrid/contact_sequence.hpp:172-177 | the status of phase p is the pre-status of event p's transition and the post-status of event p - 1's; the last phase's status is the one the next push starts from |
| ContactSequences.EventType | include/robotoc/hybrid/contact_sequence.hpp:198-204 | for an index below numDiscreteEvents: Impulse iff the index is a recorded impulse position, Lift iff it is a recorded lift position, in agreement with the transition between the phases around it |
| ContactSequences.ImpulseStatus | include/robotoc/hybrid/contact_sequence.hpp:179-184 | the k-th impulse's status is the set of contacts that become active between the phases around its flat position |
| ContactSequences.ImpulseTime | include/robotoc/hybrid/contact_sequence.hpp:186-190 | the k-th impulse time is the flat event time at that impulse's position |
| ContactSequences.LiftTime | include/robotoc/hybrid/contact_sequence.hpp:192-196 | the k-th lift time is the flat event time at that lift's position |
| ContactSequences.PushBack | include/robotoc/hybrid/contact_sequence.hpp:67-76 | succeeds iff the event starts from the last phase, changes some contact, fits its kind's capacity and comes after the last event; mismatch and no-event errors as named; on success it stays valid, appends exactly one phase and one event time, and the new event has the event's type |
| ContactSequences.PushBackPerKind | include/robotoc/hybrid/contact_sequence.hpp:67-76 | a successful push increments exactly the count of its kind; the new entry carries the event's time, STO flag (default false) and, for an impulse, impulse status; earlier times and flags are kept |
| ContactSequences.PushBackStatus | include/robotoc/hybrid/contact_sequence.hpp:78-87 | pushing a status pushes the transition from the last phase to it; on success the last phase is that status |
| ContactSequences.PopBack | include/robotoc/hybrid/contact_sequence.hpp:89-93 | stays valid; removes the last event and the phase after it, decrements the count of that event's kind and keeps the other kind; every remaining event keeps its time and STO flag; no-op without events |
| ContactSequences.PopFront | include/robotoc/hybrid/contact_sequence.hpp:95-99 | stays valid; removes the first event and the phase before it, decrements the count of that event's kind, and moves the remaining events one position forward, each with its time and STO flag; no-op without events |
| ContactSequences.IsSTOEnabledImpulse | include/robotoc/hybrid/contact_sequence.hpp:117-122 | the STO flag of the k-th impulse: PushBackPerKind proves it is the flag given to the push_back that created the event, and PopBackKeepsSTOFlags / PopFrontKeepsSTOFlags that pops keep it |
| ContactSequences.IsSTOEnabledLift | include/robotoc/hybrid/contact_sequence.hpp:124-129 | the STO flag of the k-th lift, characterised by the same three lemmas |
| ContactSequences.PopBackKeepsSTOFlags | include/robotoc/hybrid/contact_sequence.hpp:89-93 | after pop_back, isSTOEnabledImpulse(k) and isSTOEnabledLift(k) (ContactSequences.IsSTOEnabledImpulse, IsSTOEnabledLift) return what they returned before, for every remaining index |
| ContactSequences.PopFrontKeepsSTOFlags | include/robotoc/hybrid/contact_sequence.hpp:95-99 | after pop_front, the kind that lost its first event reports at index k the flag it reported at k + 1, the other kind at k |
| ContactSequences.PushBackThenPopBack | include/robotoc/hybrid/contact_sequence.hpp:67-93 | pop_back undoes a successful push_back exactly |
| ContactSequences.SetImpulseTime | include/robotoc/hybrid/contact_sequence.hpp:101-107 | for 0 <= k < numImpulseEvents: impulseTime(k) becomes t, and the flat event at that position moves with it; every other time, status, index and STO flag is unchanged |
| ContactSequences.SetLiftTime | include/robotoc/hybrid/contact_sequence.hpp:109-115 | for 0 <= k < numLiftEvents: liftTime(k) becomes t, and the flat event at that position moves with it; every other time, status, index and STO flag is unchanged |
| ContactSequences.InitAndPushKeepTimesIncreasing | include/robotoc/hybrid/contact_sequence.hpp:60-76 | initialisation and a successful push keep the flat event times strictly increasing |
| ContactSequences.PopsKeepTimesIncreasing | include/robotoc/hybrid/contact_sequence.hpp:89-99 | popping at either end keeps the flat event times strictly increasing |
| ContactSequences.LiftThenImpulseScenario | include/robotoc/hybrid/contact_sequence.hpp:60-87 | from four active contacts, a lift at 0.5 and then an impulse at 1.2 are both accepted; the result has three phases, one event of each kind, and the lift first |
| FootStepPlanner.Create | src/mpc/flying_trot_foot_step_planner.cpp:11-40 | refused iff the robot has fewer than 4 point contacts; otherwise step 0, empty references, identity yaw step, zero step length and commands, heuristic off |
| FootStepPlanner.SetGaitPattern | src/mpc/flying_trot_foot_step_planner.cpp:51-58 | sets the step length and the yaw rotation of step_yaw; disables the heuristic; nothing else changes |
| FootStepPlanner.SetRaibertGaitPattern | src/mpc/flying_trot_foot_step_planner.cpp:61-87 | succeeds iff the flying time, stance time and gain are all positive, and reports the first failing one in that order; on success it enables the heuristic with period 2·stance time and the gain, stores the commands, yaws by yaw rate × flying time, and keeps the step length, counter and references |
| FootStepPlanner.YawRotationProperties | src/mpc/flying_trot_foot_step_planner.cpp:54-56 | a yaw matrix built from a point of the unit circle is orthonormal, fixes the vertical axis, and composes by the angle-addition formulas |
| FootStepPlanner.Init | src/mpc/flying_trot_foot_step_planner.cpp:90-104 | stores the four feet offsets from the CoM in the base frame; one CoM and one orientation reference; empty foot references; counter 0; the gait pattern is untouched |
| FootStepPlanner.InitOffsetsReconstructFeet | src/mpc/flying_trot_foot_step_planner.cpp:90-97 | for a rotation, CoM plus the rotated stored offset gives back each foot |
| FootStepPlanner.NextStep | src/mpc/flying_trot_foot_step_planner.cpp:125-166 | the new counter is 0, the old counter, or the old counter plus one |
| FootStepPlanner.NextStepRules | src/mpc/flying_trot_foot_step_planner.cpp:125-166 | four feet in contact reset the counter to 0; otherwise it grows by at most one; in stance on feet 0 and 3 it stays iff ≡ 1 mod 4, in stance on feet 1 and 2 iff ≡ 3 mod 4, and in flight iff even; after flight it is even |
| FootStepPlanner.TrotCycle | src/mpc/flying_trot_foot_step_planner.cpp:135-166 | from a multiple of 4, the phases stance 0-3, flight, stance 1-2, flight each advance the counter by one, repeating a phase keeps it, and the cycle ends on the next multiple of 4 |
| FootStepPlanner.ComEstimatesAreExact | src/mpc/flying_trot_foot_step_planner.cpp:128-161 | when every foot is at CoM plus its rotated offset, the four-foot and both two-foot CoM estimates give back the CoM |
| FootStepPlanner.TurnAndMove | src/mpc/flying_trot_foot_step_planner.cpp:184-212 | the orientation is pre-multiplied by the yaw step; the CoM advances by the given fraction of the rotated step length; exactly feet i and j are placed at the new CoM plus their rotated offsets |
| FootStepPlanner.PlanStepEffect | src/mpc/flying_trot_foot_step_planner.cpp:177-213 | step 0 and odd steps change nothing; other steps turn and advance the CoM (a quarter step only on the first step out of four-foot stance with a fixed pattern); exactly feet 1, 2 move at steps ≡ 2 mod 4 and exactly feet 0, 3 at positive multiples of 4 |
| FootStepPlanner.PlanStepMoves | src/mpc/flying_trot_foot_step_planner.cpp:184-212 | a turning step is a turn-and-move of feet 1, 2 (≡ 2 mod 4) or of feet 0, 3 (≡ 0 mod 4) |
| FootStepPlanner.FirstStage | src/mpc/flying_trot_foot_step_planner.cpp:123-170 | four-foot stance: the current feet and the four-foot CoM estimate; diagonal stance: the orientation turned iff the counter moved, the stance pair's CoM estimate, and the swing feet half a step back; flight: CoM, orientation and feet of the previous plan's first stage |
| FootStepPlanner.PlanStages | src/mpc/flying_trot_foot_step_planner.cpp:171-220 | planning_steps + 3 entries in each reference: the first stage, then one stage per step from the counter on, each that step applied to the previous one, then the last stage repeated |
| FootStepPlanner.Plan | src/mpc/flying_trot_foot_step_planner.cpp:107-222 | returns true; moves the counter by the step rule; with the heuristic, the step length is planned from the base velocity in the current orientation's frame; all three references hold planning_steps + 3 entries built from the first stage; nothing else changes |

## Left out

- The contact sequence's `.hxx` is not part of this model. The header only says that `push_back` appends the event and the phase after it; the rejection rules below, and the order in which they are checked, are a modelling choice:
  - rejection when the event does not start from the last phase, changes no contact, overflows its kind's capacity, or does not come after the last event;
  - checks applied in that order.
- `isEventTimeConsistent`, `setContactPoints`, the class's default constructor, `disp` and `operator<<` of the contact sequence: the rule and the contact points are not visible, and printing is I/O.
- ContactSequences.PopBack: on a sequence with no events it leaves the sequence unchanged. The header does not say what happens then.
- ContactSequences.PopFront: on a sequence with no events it leaves the sequence unchanged, for the same reason.
- ContactSequences.SetImpulseTime: does not re-check the order of event times. The header demands only the index bound. `PushBack` keeps the times increasing, and `InitAndPushKeepTimesIncreasing` and `PopsKeepTimesIncreasing` show that the other operations preserve this.
- ContactSequences.SetLiftTime: the same as `SetImpulseTime`.
- Events beyond the horizon are not modelled. Whether `push_back` silently drops them is not visible.
- `ConstraintComponentBase`:
  - the fraction-to-boundary step sizes, `setSlackAndDualPositive`, complementarity, condensing and the log barrier are delegated to routines that are not visible;
  - `maxSlackStepSize` and `maxDualStepSize` are left out for the same reason.
- ImpulseFrictionCone: the constructor, `setFrictionCoefficient`, `isFeasible`, `setSlack`, `evalConstraint`, `evalDerivatives`, `condenseSlackAndDual` and `expandSlackAndDual` are declarations only. Their bodies are not visible.
- SplitSolutions:
  - the per-contact 6-d force and multiplier vectors (`f`, `mu`, `set_f_vector` and similar) are not modelled; only the stacks are;
  - `contact_types_` and `max_num_contacts_` are not modelled;
  - `setRandom` and printing are left out.
- SplitSolutions.IsApprox and LqrPolicies.IsApprox: Eigen's relative tolerance becomes exact equality of reals.
- SplitSolutions.IsApprox: the per-contact loop over `f[i]` and `mu[i]` is left out. Comparing the stacks and the contact pattern stands in for it.
- RiccatiFactorizer: the factorizer class, `computeIntegrationSensitivities` and `dIntegrateConfiguration` are not visible. The sensitivities are inputs.
  - The floating-base formulas are stated through the identity reduction lemmas, not entry by entry.
  - `factorize` leaves P unchanged because it is a pure function of P.
- LqrPolicies: `Kq` and `Kv` on a gain of other shapes are only sized. They are characterised for the documented shape.
- FootStepPlanner:
  - the `contactPlacement` references are never filled by `plan`, so they are left out;
  - the getters (`contactPosition`, `com`, `R`) are plain reads of the references;
  - `disp` and `operator<<` are printing;
  - the default constructor leaves the robot unset and is left out.
- FootStepPlanner.Create and FootStepPlanner.SetRaibertGaitPattern: the source prints the message and calls `exit(EXIT_FAILURE)`; this is modelled as `Err`.
- FootStepPlanner.Plan:
  - the counter is non-negative as a state invariant; `Create` and `Init` set it to 0 and the step rule only grows it or resets it;
  - the flight case requires a previous plan, because it reads the first foot reference, which `init` leaves empty;
  - `updateFrameKinematics`, `framePosition`, `CoM`, the quaternion-to-matrix conversion and its yaw projection are inputs;
  - `planStepLength` of the Raibert heuristic is a function parameter, because its body is not visible;
  - the planned orientation is used as given.
- `hybrid_container` and `OCP`: element construction (`Type()`, `Type(robot)`, `SplitOCP(robot, cost, constraints)`) is the element value passed in.
- Python bindings, example drivers, the parallel-stage solver and `split_parnmpc` are out of scope.
