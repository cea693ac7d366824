/** The inner-pyramid approximation of the Coulomb friction cone used for
    impulse forces, and where the component keeps its per-contact work data
    inside the shared constraint-component arrays. */
module ImpulseFrictionCone {
  import opened LinearAlgebra

  /** `frictionConeResidual`: five half-spaces whose intersection is the
      inner pyramid of the cone of friction coefficient `mu`. `sqrt2` is the
      value the source obtains from `std::sqrt(2)`; every property below holds
      for any positive value of it. */
  function FrictionConeResidual(mu: real, f: Vec, sqrt2: real): (res: Vec)
    requires mu > 0.0 && |f| == 3 && sqrt2 > 0.0
    ensures |res| == 5
    ensures res[0] == -f[2]
    ensures res[1] - res[2] == 2.0 * f[0] && res[3] - res[4] == 2.0 * f[1]
    ensures res[1] + res[2] == res[3] + res[4]
  {
    [- f[2],
     f[0] - mu * f[2] / sqrt2,
     - f[0] - mu * f[2] / sqrt2,
     f[1] - mu * f[2] / sqrt2,
     - f[1] - mu * f[2] / sqrt2]
  }

  /** The residual in terms of the pyramid's half-width slope `c = mu / sqrt2`. */
  lemma ResidualWithSlope(mu: real, f: Vec, sqrt2: real)
    requires mu > 0.0 && |f| == 3 && sqrt2 > 0.0
    ensures var res, c := FrictionConeResidual(mu, f, sqrt2), mu / sqrt2;
      && res[1] == f[0] - c * f[2]
      && res[2] == - f[0] - c * f[2]
      && res[3] == f[1] - c * f[2]
      && res[4] == - f[1] - c * f[2]
  {
    var c := mu / sqrt2;
    assert mu * f[2] / sqrt2 == c * f[2];
  }

  /** Mirroring the tangential x-force swaps the two x half-spaces; likewise
      for y. */
  lemma MirrorSwapsResiduals(mu: real, f: Vec, sqrt2: real)
    requires mu > 0.0 && |f| == 3 && sqrt2 > 0.0
    ensures var res := FrictionConeResidual(mu, f, sqrt2);
            var rx := FrictionConeResidual(mu, [-f[0], f[1], f[2]], sqrt2);
            var ry := FrictionConeResidual(mu, [f[0], -f[1], f[2]], sqrt2);
            rx == [res[0], res[2], res[1], res[3], res[4]] && ry == [res[0], res[1], res[2], res[4], res[3]]
  {
    var fx, fy := [-f[0], f[1], f[2]], [f[0], -f[1], f[2]];
    var res := FrictionConeResidual(mu, f, sqrt2);
    var rx, ry := FrictionConeResidual(mu, fx, sqrt2), FrictionConeResidual(mu, fy, sqrt2);
    assert rx[1] == res[2] && rx[2] == res[1];
    assert ry[3] == res[4] && ry[4] == res[3];
  }

  function ScaleVec(s: real, v: Vec): (r: Vec)
    ensures |r| == |v| && forall i :: 0 <= i < |v| ==> r[i] == s * v[i]
  {
    seq(|v|, i requires 0 <= i < |v| => s * v[i])
  }

  /** The residual is a linear map of the force. */
  lemma ResidualIsLinear(mu: real, f: Vec, sqrt2: real, scale: real)
    requires mu > 0.0 && |f| == 3 && sqrt2 > 0.0
    ensures FrictionConeResidual(mu, ScaleVec(scale, f), sqrt2)
         == ScaleVec(scale, FrictionConeResidual(mu, f, sqrt2))
  {
    var g := ScaleVec(scale, f);
    var c := mu / sqrt2;
    ResidualWithSlope(mu, f, sqrt2);
    ResidualWithSlope(mu, g, sqrt2);
    var lhs := FrictionConeResidual(mu, g, sqrt2);
    var rhs := ScaleVec(scale, FrictionConeResidual(mu, f, sqrt2));
    var cf := c * f[2];
    assert c * g[2] == scale * cf;
    assert lhs[1] == scale * f[0] - scale * cf == scale * (f[0] - cf) == rhs[1];
    assert lhs[2] == - (scale * f[0]) - scale * cf == scale * (- f[0] - cf) == rhs[2];
    assert lhs[3] == scale * f[1] - scale * cf == scale * (f[1] - cf) == rhs[3];
    assert lhs[4] == - (scale * f[1]) - scale * cf == scale * (- f[1] - cf) == rhs[4];
    assert lhs[0] == rhs[0];
  }

  /** Feasibility of all five half-spaces is exactly the inner pyramid:
      a non-negative normal force bounding both tangential components by
      `mu / sqrt2` times itself. */
  lemma InnerPyramid(mu: real, f: Vec, sqrt2: real)
    requires mu > 0.0 && |f| == 3 && sqrt2 > 0.0
    ensures var res, c := FrictionConeResidual(mu, f, sqrt2), mu / sqrt2;
      (forall k :: 0 <= k < 5 ==> res[k] <= 0.0)
      <==> (f[2] >= 0.0 && Abs(f[0]) <= c * f[2] && Abs(f[1]) <= c * f[2])
  {
    ResidualWithSlope(mu, f, sqrt2);
  }

  /** With the exact square root of two the pyramid lies inside the true
      friction cone `f0^2 + f1^2 <= (mu f2)^2`. */
  lemma InnerPyramidInsideCone(mu: real, f: Vec, sqrt2: real)
    requires mu > 0.0 && |f| == 3 && sqrt2 > 0.0 && sqrt2 * sqrt2 == 2.0
    requires forall k :: 0 <= k < 5 ==> FrictionConeResidual(mu, f, sqrt2)[k] <= 0.0
    ensures f[0] * f[0] + f[1] * f[1] <= (mu * f[2]) * (mu * f[2])
  {
    InnerPyramid(mu, f, sqrt2);
    var b := mu / sqrt2 * f[2];
    SquareBound(f[0], b);
    SquareBound(f[1], b);
    assert b * b == mu * mu * f[2] * f[2] / (sqrt2 * sqrt2);
  }

  lemma SquareBound(x: real, b: real)
    requires Abs(x) <= b
    ensures x * x <= b * b
  {
    var a := Abs(x);
    assert x * x == a * a;
    assert a * a <= a * b <= b * b;
  }

  // ---------------------------------------------------------------------
  // Index layout inside `ConstraintComponentData` (M = max point contacts)

  /** The vector slots kept per contact in `data.r`. */
  datatype VectorSlot = WorldForce | ConeResidual
  /** The matrix slots kept per contact in `data.J`. */
  datatype MatrixSlot = DgDq | DgDf | DfWDq | RDgDf

  /** `fW` is `r[i]`, `r` is `r[M+i]`. */
  function VectorIndex(slot: VectorSlot, maxPointContacts: nat, contact: nat): (k: nat)
    requires contact < maxPointContacts
    ensures k < 2 * maxPointContacts
  {
    match slot
    case WorldForce => contact
    case ConeResidual => maxPointContacts + contact
  }

  /** `dg_dq`, `dg_df`, `dfW_dq`, `r_dg_df` are `J[i]`, `J[M+i]`, `J[2M+i]`, `J[3M+i]`. */
  function MatrixIndex(slot: MatrixSlot, maxPointContacts: nat, contact: nat): (k: nat)
    requires contact < maxPointContacts
    ensures k < 4 * maxPointContacts
  {
    match slot
    case DgDq => contact
    case DgDf => maxPointContacts + contact
    case DfWDq => 2 * maxPointContacts + contact
    case RDgDf => 3 * maxPointContacts + contact
  }

  function VectorBlock(slot: VectorSlot): nat
  {
    match slot
    case WorldForce => 0
    case ConeResidual => 1
  }

  function MatrixBlock(slot: MatrixSlot): nat
  {
    match slot
    case DgDq => 0
    case DgDf => 1
    case DfWDq => 2
    case RDgDf => 3
  }

  /** Distinct (slot, contact) pairs never share storage. */
  lemma VectorSlotsDoNotAlias(s1: VectorSlot, s2: VectorSlot, m: nat, i: nat, j: nat)
    requires i < m && j < m
    requires VectorIndex(s1, m, i) == VectorIndex(s2, m, j)
    ensures s1 == s2 && i == j
  {
    assert VectorIndex(s1, m, i) == VectorBlock(s1) * m + i;
    assert VectorIndex(s2, m, j) == VectorBlock(s2) * m + j;
  }

  lemma MatrixSlotsDoNotAlias(s1: MatrixSlot, s2: MatrixSlot, m: nat, i: nat, j: nat)
    requires i < m && j < m
    requires MatrixIndex(s1, m, i) == MatrixIndex(s2, m, j)
    ensures s1 == s2 && i == j
  {
    assert MatrixIndex(s1, m, i) == MatrixBlock(s1) * m + i;
    assert MatrixIndex(s2, m, j) == MatrixBlock(s2) * m + j;
  }
}
