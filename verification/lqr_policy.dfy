/** The per-stage LQR policy produced by the backward Riccati pass: the
    state-feedback gain `K` (dimu x 2 dimv, acting on the stacked
    configuration and velocity deviation) and the feedforward term `k`. */
module LqrPolicies {
  import opened LinearAlgebra

  datatype LQRPolicy = LQRPolicy(K: Mat, k: Vec, dimv: nat, dimu: nat)

  ghost predicate IsMatrix(m: Mat, rows: nat, cols: nat)
  {
    |m| == rows && forall i :: 0 <= i < rows ==> |m[i]| == cols
  }

  /** The column count of a matrix stored as rows (0 when it has no rows). */
  function Cols(m: Mat): nat
  {
    if |m| == 0 then 0 else |m[0]|
  }

  function ZeroMatrix(rows: nat, cols: nat): (m: Mat)
    ensures IsMatrix(m, rows, cols)
    ensures forall i, j :: 0 <= i < rows && 0 <= j < cols ==> m[i][j] == 0.0
  {
    seq(rows, _ => Zeros(cols))
  }

  /** The constructor from a robot: zero gain and zero feedforward sized by
      the robot's velocity and control dimensions. */
  function Create(dimv: nat, dimu: nat): (p: LQRPolicy)
    ensures IsMatrix(p.K, dimu, 2 * dimv) && |p.k| == dimu
    ensures forall i, j :: 0 <= i < dimu && 0 <= j < 2 * dimv ==> p.K[i][j] == 0.0
    ensures forall i :: 0 <= i < dimu ==> p.k[i] == 0.0
    ensures p.dimv == dimv && p.dimu == dimu
  {
    LQRPolicy(ZeroMatrix(dimu, 2 * dimv), Zeros(dimu), dimv, dimu)
  }

  /** The default constructor: empty gain and feedforward, zero dimensions. */
  function Default(): (p: LQRPolicy)
    ensures |p.K| == 0 && |p.k| == 0 && p.dimv == 0 && p.dimu == 0
  {
    LQRPolicy([], [], 0, 0)
  }

  /** What Eigen's corner blocks of size dimu x dimv demand of `K`: a
      rectangular matrix with at least that many rows and columns. With rows
      stored as sequences a matrix without rows carries no column count, so
      the column bound only applies when there are rows. */
  ghost predicate CornersFit(p: LQRPolicy)
  {
    IsMatrix(p.K, |p.K|, Cols(p.K)) && p.dimu <= |p.K| && (|p.K| > 0 ==> p.dimv <= Cols(p.K))
  }

  /** `Kq()`: the top-left dimu x dimv corner of `K`. */
  function Kq(p: LQRPolicy): (m: Mat)
    requires CornersFit(p)
    ensures IsMatrix(m, p.dimu, p.dimv)
    ensures forall i, j :: 0 <= i < p.dimu && 0 <= j < p.dimv ==> m[i][j] == p.K[i][j]
  {
    seq(p.dimu, i requires 0 <= i < p.dimu => p.K[i][..p.dimv])
  }

  /** `Kv()`: the top-right dimu x dimv corner of `K`. */
  function Kv(p: LQRPolicy): (m: Mat)
    requires CornersFit(p)
    ensures IsMatrix(m, p.dimu, p.dimv)
    ensures forall i, j :: 0 <= i < p.dimu && 0 <= j < p.dimv ==> m[i][j] == p.K[i][Cols(p.K) - p.dimv + j]
  {
    var cols := Cols(p.K);
    seq(p.dimu, i requires 0 <= i < p.dimu => p.K[i][cols - p.dimv..])
  }

  /** For a gain of the documented size, `Kq` is columns [0, dimv) and `Kv`
      columns [dimv, 2 dimv) of `K`: the two halves partition every row. */
  lemma GainHalves(p: LQRPolicy)
    requires IsMatrix(p.K, p.dimu, 2 * p.dimv)
    ensures CornersFit(p)
    ensures forall i, j :: 0 <= i < p.dimu && 0 <= j < p.dimv ==>
      Kq(p)[i][j] == p.K[i][j] && Kv(p)[i][j] == p.K[i][p.dimv + j]
    ensures forall i :: 0 <= i < p.dimu ==> Kq(p)[i] + Kv(p)[i] == p.K[i]
  {
    if p.dimu > 0 {
      assert Cols(p.K) == 2 * p.dimv;
    }
    forall i | 0 <= i < p.dimu
      ensures Kq(p)[i] + Kv(p)[i] == p.K[i]
    {
      assert Kv(p)[i] == p.K[i][p.dimv..];
    }
  }

  /** A freshly constructed policy has all-zero feedback blocks. */
  lemma FreshGainBlocksAreZero(dimv: nat, dimu: nat)
    ensures var p := Create(dimv, dimu);
      CornersFit(p)
      && (forall i, j :: 0 <= i < dimu && 0 <= j < dimv ==> Kq(p)[i][j] == 0.0 && Kv(p)[i][j] == 0.0)
  {
    GainHalves(Create(dimv, dimu));
  }

  /** `isApprox`, with exact reals: both the gain and the feedforward agree
      (the recorded dimensions are not compared). */
  predicate IsApprox(p: LQRPolicy, other: LQRPolicy)
  {
    p.K == other.K && p.k == other.k
  }

  /** `isApprox` is an equivalence relation that identifies policies
      differing only in their recorded dimensions. */
  lemma IsApproxIsEquivalence(p: LQRPolicy, p2: LQRPolicy, p3: LQRPolicy)
    ensures IsApprox(p, p)
    ensures IsApprox(p, p2) <==> IsApprox(p2, p)
    ensures IsApprox(p, p2) && IsApprox(p2, p3) ==> IsApprox(p, p3)
    ensures IsApprox(p, p.(dimv := p2.dimv, dimu := p2.dimu))
  {
  }
}
