/** The interior-point parameters every inequality-constraint component
    carries (the barrier parameter and the fraction-to-boundary rule), their
    validation, and the linear slack and dual updates applied after a
    primal-dual Newton step. */
module ConstraintComponents {
  import opened LinearAlgebra
  import opened Outcomes

  /** Why a parameter was rejected; each maps to one `std::out_of_range`. */
  datatype ParamError = BarrierNotPositive | RuleNotPositive | RuleNotLessThanOne

  datatype ConstraintComponentBase = ConstraintComponentBase(barrier: real, fractionToBoundaryRule: real)

  /** The interior-point invariant every accepted parameter set satisfies. */
  predicate ValidParams(c: ConstraintComponentBase)
  {
    c.barrier > 0.0 && 0.0 < c.fractionToBoundaryRule < 1.0
  }

  /** The constructor: checks the barrier first, then the rule's lower and
      upper bounds. */
  function Create(barrierParam: real, fractionToBoundaryRule: real): (r: Result<ConstraintComponentBase, ParamError>)
    ensures r.Ok? <==> barrierParam > 0.0 && 0.0 < fractionToBoundaryRule < 1.0
    ensures r.Ok? ==> ValidParams(r.value)
    ensures r.Ok? ==> (GetBarrierParam(r.value) == barrierParam
                    && GetFractionToBoundaryRule(r.value) == fractionToBoundaryRule)
    ensures barrierParam <= 0.0 ==> r == Err(BarrierNotPositive)
    ensures barrierParam > 0.0 && fractionToBoundaryRule <= 0.0 ==> r == Err(RuleNotPositive)
    ensures barrierParam > 0.0 && fractionToBoundaryRule >= 1.0 ==> r == Err(RuleNotLessThanOne)
  {
    if barrierParam <= 0.0 then Err(BarrierNotPositive)
    else if fractionToBoundaryRule <= 0.0 then Err(RuleNotPositive)
    else if fractionToBoundaryRule >= 1.0 then Err(RuleNotLessThanOne)
    else Ok(ConstraintComponentBase(barrierParam, fractionToBoundaryRule))
  }

  function GetBarrierParam(c: ConstraintComponentBase): real
  {
    c.barrier
  }

  function GetFractionToBoundaryRule(c: ConstraintComponentBase): real
  {
    c.fractionToBoundaryRule
  }

  /** On rejection the caller keeps `c`, since the setter throws before
      assigning. */
  function SetBarrierParam(c: ConstraintComponentBase, barrierParam: real): (r: Result<ConstraintComponentBase, ParamError>)
    ensures r.Ok? <==> barrierParam > 0.0
    ensures r.Err? ==> r.error == BarrierNotPositive
    ensures r.Ok? ==> (GetBarrierParam(r.value) == barrierParam
                    && GetFractionToBoundaryRule(r.value) == GetFractionToBoundaryRule(c))
    ensures r.Ok? && ValidParams(c) ==> ValidParams(r.value)
  {
    if barrierParam <= 0.0 then Err(BarrierNotPositive)
    else Ok(c.(barrier := barrierParam))
  }

  function SetFractionToBoundaryRule(c: ConstraintComponentBase, rule: real): (r: Result<ConstraintComponentBase, ParamError>)
    ensures r.Ok? <==> 0.0 < rule < 1.0
    ensures rule <= 0.0 ==> r == Err(RuleNotPositive)
    ensures rule >= 1.0 ==> r == Err(RuleNotLessThanOne)
    ensures r.Ok? ==> (GetFractionToBoundaryRule(r.value) == rule
                    && GetBarrierParam(r.value) == GetBarrierParam(c))
    ensures r.Ok? && ValidParams(c) ==> ValidParams(r.value)
  {
    if rule <= 0.0 then Err(RuleNotPositive)
    else if rule >= 1.0 then Err(RuleNotLessThanOne)
    else Ok(c.(fractionToBoundaryRule := rule))
  }

  /** The state a setter leaves behind: the new value, or the old one when
      the setter threw. */
  function Committed(c: ConstraintComponentBase, r: Result<ConstraintComponentBase, ParamError>): ConstraintComponentBase
  {
    if r.Ok? then r.value else c
  }

  /** Whatever sequence of setter calls follows a successful construction,
      the parameters stay valid. */
  lemma {:induction false} SettersPreserveValidity(c: ConstraintComponentBase, barriers: seq<real>, rules: seq<real>)
    requires ValidParams(c)
    requires |barriers| == |rules|
    ensures ValidParams(ApplySetters(c, barriers, rules))
    decreases |barriers|
  {
    if |barriers| > 0 {
      var c1 := Committed(c, SetBarrierParam(c, barriers[0]));
      var c2 := Committed(c1, SetFractionToBoundaryRule(c1, rules[0]));
      SettersPreserveValidity(c2, barriers[1..], rules[1..]);
    }
  }

  /** Calls `setBarrierParam(barriers[k])` then `setFractionToBoundaryRule(rules[k])`
      for each `k`, keeping the old value whenever a call throws. */
  function ApplySetters(c: ConstraintComponentBase, barriers: seq<real>, rules: seq<real>): ConstraintComponentBase
    requires |barriers| == |rules|
    decreases |barriers|
  {
    if |barriers| == 0 then c
    else
      var c1 := Committed(c, SetBarrierParam(c, barriers[0]));
      var c2 := Committed(c1, SetFractionToBoundaryRule(c1, rules[0]));
      ApplySetters(c2, barriers[1..], rules[1..])
  }

  // ---------------------------------------------------------------------
  // Slack and dual updates

  /** The per-component interior-point data: slack and dual vectors with
      their Newton directions. */
  datatype ConstraintComponentData = ConstraintComponentData(slack: Vec, dual: Vec, dslack: Vec, ddual: Vec)

  ghost predicate DataSized(d: ConstraintComponentData)
  {
    |d.slack| == |d.dslack| && |d.dual| == |d.ddual|
  }

  /** `slack += stepSize * dslack`; the source asserts a positive step. */
  function UpdateSlack(d: ConstraintComponentData, stepSize: real): (r: ConstraintComponentData)
    requires stepSize > 0.0
    requires DataSized(d)
    ensures DataSized(r)
    ensures |r.slack| == |d.slack|
    ensures forall i :: 0 <= i < |d.slack| ==> r.slack[i] - d.slack[i] == stepSize * d.dslack[i]
    ensures r.dual == d.dual && r.dslack == d.dslack && r.ddual == d.ddual
  {
    d.(slack := Axpy(d.slack, stepSize, d.dslack))
  }

  /** `dual += stepSize * ddual`; the source asserts a positive step. */
  function UpdateDual(d: ConstraintComponentData, stepSize: real): (r: ConstraintComponentData)
    requires stepSize > 0.0
    requires DataSized(d)
    ensures DataSized(r)
    ensures |r.dual| == |d.dual|
    ensures forall i :: 0 <= i < |d.dual| ==> r.dual[i] - d.dual[i] == stepSize * d.ddual[i]
    ensures r.slack == d.slack && r.dslack == d.dslack && r.ddual == d.ddual
  {
    d.(dual := Axpy(d.dual, stepSize, d.ddual))
  }

  /** Since the direction is not consumed, two slack updates add their steps. */
  lemma UpdateSlackTwice(d: ConstraintComponentData, alpha: real, beta: real)
    requires alpha > 0.0 && beta > 0.0 && DataSized(d)
    ensures UpdateSlack(UpdateSlack(d, alpha), beta) == UpdateSlack(d, alpha + beta)
  {
    AxpyTwice(d.slack, alpha, beta, d.dslack);
  }

  lemma UpdateDualTwice(d: ConstraintComponentData, alpha: real, beta: real)
    requires alpha > 0.0 && beta > 0.0 && DataSized(d)
    ensures UpdateDual(UpdateDual(d, alpha), beta) == UpdateDual(d, alpha + beta)
  {
    AxpyTwice(d.dual, alpha, beta, d.ddual);
  }

  /** The slack and dual updates touch disjoint fields, so they commute. */
  lemma UpdatesCommute(d: ConstraintComponentData, alpha: real, beta: real)
    requires alpha > 0.0 && beta > 0.0 && DataSized(d)
    ensures UpdateDual(UpdateSlack(d, alpha), beta) == UpdateSlack(UpdateDual(d, beta), alpha)
  {
  }
}
