/** The block algebra of the Riccati matrix factorizer: folding the
    next-stage value-function Hessian blocks `P` into the stage KKT blocks
    `Q`, for a fixed-base robot and for a floating-base robot whose
    configuration is integrated through the sensitivity matrices
    `dintegrate_dq` and `dintegrate_dv`. All blocks are `dimv x dimv`. */
module RiccatiFactorizer {
  import opened LinearAlgebra

  /** The four state blocks of a quadratic model. */
  datatype StateBlocks = StateBlocks(qq: Mat, qv: Mat, vq: Mat, vv: Mat)

  ghost predicate WellSized(b: StateBlocks, n: nat)
  {
    IsSquare(b.qq, n) && IsSquare(b.qv, n) && IsSquare(b.vq, n) && IsSquare(b.vv, n)
  }

  /** How the configuration is integrated: additively (fixed base) or on the
      manifold with the given sensitivities of the integrated configuration
      with respect to the configuration and to the velocity. */
  datatype Integration = FixedBase | FloatingBase(dIntegrateDq: Mat, dIntegrateDv: Mat)

  ghost predicate IntegrationSized(g: Integration, n: nat)
  {
    g.FloatingBase? ==> IsSquare(g.dIntegrateDq, n) && IsSquare(g.dIntegrateDv, n)
  }

  /** `a^T * b * c`, evaluated left to right as Eigen does. */
  function Sandwich(a: Mat, b: Mat, c: Mat, n: nat): (r: Mat)
    requires IsSquare(a, n) && IsSquare(b, n) && IsSquare(c, n)
    ensures IsSquare(r, n)
  {
    MatMul(MatMul(Transpose(a, n), b, n), c, n)
  }

  /** The state-block factorization (the eight-matrix `factorize`). */
  function FactorizeState(g: Integration, dt: real, P: StateBlocks, Q: StateBlocks, n: nat): (r: StateBlocks)
    requires WellSized(P, n) && WellSized(Q, n) && IntegrationSized(g, n)
    ensures WellSized(r, n)
  {
    match g
    case FixedBase => FixedBaseState(dt, P, Q, n)
    case FloatingBase(Fq, Fv) => FloatingBaseState(Fq, Fv, dt, P, Q, n)
  }

  function FixedBaseState(dt: real, P: StateBlocks, Q: StateBlocks, n: nat): (r: StateBlocks)
    requires WellSized(P, n) && WellSized(Q, n)
    ensures WellSized(r, n)
  {
    StateBlocks(
      MatAdd(Q.qq, P.qq, n),
      MatAdd(MatAdd(Q.qv, MatScale(dt, P.qq, n), n), P.qv, n),
      MatAdd(MatAdd(Q.vq, MatScale(dt, P.qq, n), n), P.vq, n),
      FixedBaseVv(dt, P, Q, n))
  }

  function FixedBaseVv(dt: real, P: StateBlocks, Q: StateBlocks, n: nat): (r: Mat)
    requires WellSized(P, n) && WellSized(Q, n)
    ensures IsSquare(r, n)
  {
    MatAdd(MatAdd(MatAdd(Q.vv, MatScale(dt * dt, P.qq, n), n),
                  MatScale(dt, MatAdd(P.qv, P.vq, n), n), n), P.vv, n)
  }

  function FloatingBaseState(Fq: Mat, Fv: Mat, dt: real, P: StateBlocks, Q: StateBlocks, n: nat): (r: StateBlocks)
    requires WellSized(P, n) && WellSized(Q, n) && IsSquare(Fq, n) && IsSquare(Fv, n)
    ensures WellSized(r, n)
  {
    StateBlocks(
      MatAdd(Q.qq, Sandwich(Fq, P.qq, Fq, n), n),
      MatAdd(MatAdd(Q.qv, MatScale(dt, Sandwich(Fq, P.qq, Fv, n), n), n),
             MatMul(Transpose(Fq, n), P.qv, n), n),
      MatAdd(MatAdd(Q.vq, MatScale(dt, Sandwich(Fv, P.qq, Fq, n), n), n),
             MatMul(P.vq, Fq, n), n),
      FloatingBaseVv(Fv, dt, P, Q, n))
  }

  function FloatingBaseVv(Fv: Mat, dt: real, P: StateBlocks, Q: StateBlocks, n: nat): (r: Mat)
    requires WellSized(P, n) && WellSized(Q, n) && IsSquare(Fv, n)
    ensures IsSquare(r, n)
  {
    MatAdd(MatAdd(MatAdd(MatAdd(Q.vv, MatScale(dt * dt, Sandwich(Fv, P.qq, Fv, n), n), n),
                         MatScale(dt, MatMul(P.vq, Fv, n), n), n),
                  MatScale(dt, MatMul(Transpose(Fv, n), P.qv, n), n), n), P.vv, n)
  }

  /** The state/acceleration cross blocks (the four-matrix `factorize`):
      returns the updated `(Qqa, Qva)`. */
  function FactorizeCross(g: Integration, dt: real, Pqv: Mat, Pvv: Mat, Qqa: Mat, Qva: Mat, n: nat): (r: (Mat, Mat))
    requires IsSquare(Pqv, n) && IsSquare(Pvv, n) && IsSquare(Qqa, n) && IsSquare(Qva, n)
    requires IntegrationSized(g, n)
    ensures IsSquare(r.0, n) && IsSquare(r.1, n)
  {
    match g
    case FixedBase =>
      (MatAdd(Qqa, MatScale(dt, Pqv, n), n),
       MatAdd(MatAdd(Qva, MatScale(dt * dt, Pqv, n), n), MatScale(dt, Pvv, n), n))
    case FloatingBase(Fq, Fv) =>
      (MatAdd(Qqa, MatScale(dt, MatMul(Transpose(Fq, n), Pqv, n), n), n),
       MatAdd(MatAdd(Qva, MatScale(dt * dt, MatMul(Transpose(Fv, n), Pqv, n), n), n),
              MatScale(dt, Pvv, n), n))
  }

  /** The acceleration block (the two-matrix `factorize`): the same for both
      kinds of base. */
  function FactorizeAcceleration(dt: real, Pvv: Mat, Qaa: Mat, n: nat): (r: Mat)
    requires IsSquare(Pvv, n) && IsSquare(Qaa, n)
    ensures IsSquare(r, n)
    ensures forall i, j :: 0 <= i < n && 0 <= j < n ==> r[i][j] - Qaa[i][j] == dt * dt * Pvv[i][j]
  {
    MatAdd(Qaa, MatScale(dt * dt, Pvv, n), n)
  }

  /** The fixed-base reference equalities, entry by entry. */
  lemma FixedBaseStateEntries(dt: real, P: StateBlocks, Q: StateBlocks, n: nat, i: nat, j: nat)
    requires WellSized(P, n) && WellSized(Q, n) && i < n && j < n
    ensures var r := FactorizeState(FixedBase, dt, P, Q, n);
      && r.qq[i][j] == Q.qq[i][j] + P.qq[i][j]
      && r.qv[i][j] == Q.qv[i][j] + dt * P.qq[i][j] + P.qv[i][j]
      && r.vq[i][j] == Q.vq[i][j] + dt * P.qq[i][j] + P.vq[i][j]
      && r.vv[i][j] == Q.vv[i][j] + dt * dt * P.qq[i][j] + dt * (P.qv[i][j] + P.vq[i][j]) + P.vv[i][j]
  {
  }

  /** With both integration sensitivities equal to the identity, the
      floating-base formulas are exactly the fixed-base ones. */
  lemma FloatingBaseWithIdentityIsFixedBase(dt: real, P: StateBlocks, Q: StateBlocks, n: nat)
    requires WellSized(P, n) && WellSized(Q, n)
    ensures FactorizeState(FloatingBase(Identity(n), Identity(n)), dt, P, Q, n)
         == FactorizeState(FixedBase, dt, P, Q, n)
  {
    var I := Identity(n);
    TransposeIdentity(n);
    MatMulIdentityLeft(P.qq, n);
    MatMulIdentityRight(P.qq, n);
    MatMulIdentityLeft(P.qv, n);
    MatMulIdentityRight(P.vq, n);
    assert Sandwich(I, P.qq, I, n) == P.qq;
    IdentityVv(dt, P, Q, n);
  }

  lemma IdentityVv(dt: real, P: StateBlocks, Q: StateBlocks, n: nat)
    requires WellSized(P, n) && WellSized(Q, n)
    requires Sandwich(Identity(n), P.qq, Identity(n), n) == P.qq
    requires MatMul(P.vq, Identity(n), n) == P.vq
    requires MatMul(Transpose(Identity(n), n), P.qv, n) == P.qv
    ensures FloatingBaseVv(Identity(n), dt, P, Q, n) == FixedBaseVv(dt, P, Q, n)
  {
    var a1 := MatAdd(Q.vv, MatScale(dt * dt, P.qq, n), n);
    assert FloatingBaseVv(Identity(n), dt, P, Q, n)
        == MatAdd(MatAdd(MatAdd(a1, MatScale(dt, P.vq, n), n), MatScale(dt, P.qv, n), n), P.vv, n);
    RegroupScaledSum(a1, P.vq, P.qv, dt, n);
  }

  /** `a + s*x + s*y == a + s*(y + x)`, as matrices. */
  lemma RegroupScaledSum(a: Mat, x: Mat, y: Mat, s: real, n: nat)
    requires IsSquare(a, n) && IsSquare(x, n) && IsSquare(y, n)
    ensures MatAdd(MatAdd(a, MatScale(s, x, n), n), MatScale(s, y, n), n)
         == MatAdd(a, MatScale(s, MatAdd(y, x, n), n), n)
  {
    var sx, sy, sum := MatScale(s, x, n), MatScale(s, y, n), MatScale(s, MatAdd(y, x, n), n);
    var lhs := MatAdd(MatAdd(a, sx, n), sy, n);
    var rhs := MatAdd(a, sum, n);
    forall i, j | 0 <= i < n && 0 <= j < n
      ensures lhs[i][j] == rhs[i][j]
    {
      assert sum[i][j] == s * (y[i][j] + x[i][j]);
    }
    SquareExt(lhs, rhs, n);
  }

  lemma FloatingBaseWithIdentityIsFixedBaseCross(dt: real, Pqv: Mat, Pvv: Mat, Qqa: Mat, Qva: Mat, n: nat)
    requires IsSquare(Pqv, n) && IsSquare(Pvv, n) && IsSquare(Qqa, n) && IsSquare(Qva, n)
    ensures FactorizeCross(FloatingBase(Identity(n), Identity(n)), dt, Pqv, Pvv, Qqa, Qva, n)
         == FactorizeCross(FixedBase, dt, Pqv, Pvv, Qqa, Qva, n)
  {
    TransposeIdentity(n);
    MatMulIdentityLeft(Pqv, n);
  }

  /** The fixed-base cross-block reference equalities, entry by entry. */
  lemma FixedBaseCrossEntries(dt: real, Pqv: Mat, Pvv: Mat, Qqa: Mat, Qva: Mat, n: nat, i: nat, j: nat)
    requires IsSquare(Pqv, n) && IsSquare(Pvv, n) && IsSquare(Qqa, n) && IsSquare(Qva, n)
    requires i < n && j < n
    ensures var r := FactorizeCross(FixedBase, dt, Pqv, Pvv, Qqa, Qva, n);
      && r.0[i][j] == Qqa[i][j] + dt * Pqv[i][j]
      && r.1[i][j] == Qva[i][j] + dt * dt * Pqv[i][j] + dt * Pvv[i][j]
  {
  }

  /** For a symmetric value function (`Pqq`, `Pvv` symmetric, `Pvq = Pqv^T`)
      and a symmetric stage Hessian, the fixed-base factorization keeps the
      combined state Hessian symmetric. */
  lemma FixedBasePreservesSymmetry(dt: real, P: StateBlocks, Q: StateBlocks, n: nat)
    requires WellSized(P, n) && WellSized(Q, n)
    requires Symmetric(P.qq, n) && Symmetric(P.vv, n) && P.vq == Transpose(P.qv, n)
    requires Symmetric(Q.qq, n) && Symmetric(Q.vv, n) && Q.vq == Transpose(Q.qv, n)
    ensures var r := FactorizeState(FixedBase, dt, P, Q, n);
      Symmetric(r.qq, n) && Symmetric(r.vv, n) && r.vq == Transpose(r.qv, n)
  {
    var r := FactorizeState(FixedBase, dt, P, Q, n);
    forall i, j | 0 <= i < n && 0 <= j < n
      ensures r.vq[i][j] == r.qv[j][i]
    {
      SymmetricEntry(dt, P, Q, n, i, j);
    }
    SquareExt(r.vq, Transpose(r.qv, n), n);
    forall i, j | 0 <= i < n && 0 <= j < n
      ensures r.qq[i][j] == r.qq[j][i] && r.vv[i][j] == r.vv[j][i]
    {
      SymmetricEntry(dt, P, Q, n, i, j);
    }
  }

  lemma SymmetricEntry(dt: real, P: StateBlocks, Q: StateBlocks, n: nat, i: nat, j: nat)
    requires WellSized(P, n) && WellSized(Q, n) && i < n && j < n
    requires Symmetric(P.qq, n) && Symmetric(P.vv, n) && P.vq == Transpose(P.qv, n)
    requires Symmetric(Q.qq, n) && Symmetric(Q.vv, n) && Q.vq == Transpose(Q.qv, n)
    ensures var r := FactorizeState(FixedBase, dt, P, Q, n);
      && r.vq[i][j] == r.qv[j][i]
      && r.qq[i][j] == r.qq[j][i]
      && r.vv[i][j] == r.vv[j][i]
  {
    FixedBaseStateEntries(dt, P, Q, n, i, j);
    FixedBaseStateEntries(dt, P, Q, n, j, i);
    assert P.vq[i][j] == P.qv[j][i] && P.vq[j][i] == P.qv[i][j];
    assert Q.vq[i][j] == Q.qv[j][i];
    assert P.qq[i][j] == P.qq[j][i] && P.vv[i][j] == P.vv[j][i] && Q.vv[i][j] == Q.vv[j][i];
  }
}
