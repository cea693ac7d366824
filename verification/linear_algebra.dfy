/** Exact dense linear algebra over `real`: the vector and square-matrix
    operations the solver's update rules and Riccati block algebra are
    written in. Vectors are `seq<real>`, matrices are sequences of rows. */
module LinearAlgebra {

  type Vec = seq<real>
  type Mat = seq<seq<real>>

  function Abs(x: real): (r: real)
    ensures r >= 0.0 && (r == x || r == -x)
  {
    if x < 0.0 then -x else x
  }

  function Max(a: real, b: real): (r: real)
    ensures r >= a && r >= b && (r == a || r == b)
  {
    if a < b then b else a
  }

  /** The zero vector of length `n`. */
  function Zeros(n: nat): (z: Vec)
    ensures |z| == n
    ensures forall i :: 0 <= i < n ==> z[i] == 0.0
  {
    seq(n, _ => 0.0)
  }

  /** `x + alpha * d`, the scaled addition Eigen writes as `x += alpha * d`. */
  function Axpy(x: Vec, alpha: real, d: Vec): (r: Vec)
    requires |x| == |d|
    ensures |r| == |x|
    ensures forall i :: 0 <= i < |x| ==> r[i] == x[i] + alpha * d[i]
  {
    seq(|x|, i requires 0 <= i < |x| => x[i] + alpha * d[i])
  }

  /** Two scaled additions along the same direction are one addition with
      the summed step. */
  lemma AxpyTwice(x: Vec, alpha: real, beta: real, d: Vec)
    requires |x| == |d|
    ensures Axpy(Axpy(x, alpha, d), beta, d) == Axpy(x, alpha + beta, d)
  {
    var lhs := Axpy(Axpy(x, alpha, d), beta, d);
    var rhs := Axpy(x, alpha + beta, d);
    forall i | 0 <= i < |x|
      ensures lhs[i] == rhs[i]
    {
      calc {
        lhs[i];
        (x[i] + alpha * d[i]) + beta * d[i];
        x[i] + (alpha + beta) * d[i];
        rhs[i];
      }
    }
  }

  /** The infinity norm: the largest absolute entry, 0 for the empty vector
      (Eigen's `lpNorm<Infinity>` convention). */
  function InfNorm(v: Vec): (r: real)
    ensures r >= 0.0
    ensures forall i :: 0 <= i < |v| ==> Abs(v[i]) <= r
    ensures |v| == 0 ==> r == 0.0
    ensures |v| > 0 ==> exists i :: 0 <= i < |v| && r == Abs(v[i])
  {
    if |v| == 0 then 0.0
    else
      var init := InfNorm(v[..|v| - 1]);
      assert forall i :: 0 <= i < |v| - 1 ==> v[i] == v[..|v| - 1][i];
      Max(init, Abs(v[|v| - 1]))
  }

  // ---------------------------------------------------------------------
  // Square matrices

  ghost predicate IsSquare(m: Mat, n: nat)
  {
    |m| == n && forall i :: 0 <= i < n ==> |m[i]| == n
  }

  ghost predicate Symmetric(m: Mat, n: nat)
    requires IsSquare(m, n)
  {
    forall i, j :: 0 <= i < n && 0 <= j < n ==> m[i][j] == m[j][i]
  }

  function MatAdd(a: Mat, b: Mat, n: nat): (c: Mat)
    requires IsSquare(a, n) && IsSquare(b, n)
    ensures IsSquare(c, n)
    ensures forall i, j :: 0 <= i < n && 0 <= j < n ==> c[i][j] == a[i][j] + b[i][j]
  {
    seq(n, i requires 0 <= i < n => seq(n, j requires 0 <= j < n => a[i][j] + b[i][j]))
  }

  function MatScale(s: real, a: Mat, n: nat): (c: Mat)
    requires IsSquare(a, n)
    ensures IsSquare(c, n)
    ensures forall i, j :: 0 <= i < n && 0 <= j < n ==> c[i][j] == s * a[i][j]
  {
    seq(n, i requires 0 <= i < n => seq(n, j requires 0 <= j < n => s * a[i][j]))
  }

  function Transpose(a: Mat, n: nat): (c: Mat)
    requires IsSquare(a, n)
    ensures IsSquare(c, n)
    ensures forall i, j :: 0 <= i < n && 0 <= j < n ==> c[i][j] == a[j][i]
  {
    seq(n, i requires 0 <= i < n => seq(n, j requires 0 <= j < n => a[j][i]))
  }

  function Identity(n: nat): (c: Mat)
    ensures IsSquare(c, n)
    ensures forall i, j :: 0 <= i < n && 0 <= j < n ==> c[i][j] == (if i == j then 1.0 else 0.0)
  {
    seq(n, i requires 0 <= i < n => Unit(n, i))
  }

  /** The `i`-th standard basis vector of length `n`. */
  function Unit(n: nat, i: nat): (e: Vec)
    ensures |e| == n
    ensures forall k :: 0 <= k < n ==> e[k] == (if k == i then 1.0 else 0.0)
  {
    seq(n, k => if k == i then 1.0 else 0.0)
  }

  function Dot(x: Vec, y: Vec): real
    requires |x| == |y|
  {
    if |x| == 0 then 0.0
    else Dot(x[..|x| - 1], y[..|y| - 1]) + x[|x| - 1] * y[|y| - 1]
  }

  function Column(m: Mat, j: nat, n: nat): (c: Vec)
    requires IsSquare(m, n) && j < n
    ensures |c| == n
    ensures forall i :: 0 <= i < n ==> c[i] == m[i][j]
  {
    seq(n, i requires 0 <= i < n => m[i][j])
  }

  function MatMul(a: Mat, b: Mat, n: nat): (c: Mat)
    requires IsSquare(a, n) && IsSquare(b, n)
    ensures IsSquare(c, n)
    ensures forall i, j :: 0 <= i < n && 0 <= j < n ==> c[i][j] == Dot(a[i], Column(b, j, n))
  {
    seq(n, i requires 0 <= i < n =>
      seq(n, j requires 0 <= j < n => Dot(a[i], Column(b, j, n))))
  }

  /** Dotting with a standard basis vector picks one entry, on either side. */
  lemma {:induction false} DotUnitRight(x: Vec, j: nat)
    requires j < |x|
    ensures Dot(x, Unit(|x|, j)) == x[j]
  {
    DotUnitRightPrefix(x, j, |x|);
  }

  lemma {:induction false} DotUnitRightPrefix(x: Vec, j: nat, n: nat)
    requires j < n == |x|
    ensures Dot(x, Unit(n, j)) == x[j]
  {
    var e := Unit(n, j);
    if j == n - 1 {
      DotZeroRight(x[..n - 1], e[..n - 1]);
    } else {
      assert e[..n - 1] == Unit(n - 1, j);
      DotUnitRightPrefix(x[..n - 1], j, n - 1);
    }
  }

  lemma {:induction false} DotZeroRight(x: Vec, y: Vec)
    requires |x| == |y|
    requires forall k :: 0 <= k < |y| ==> y[k] == 0.0
    ensures Dot(x, y) == 0.0
  {
    if |x| > 0 {
      DotZeroRight(x[..|x| - 1], y[..|y| - 1]);
    }
  }

  lemma {:induction false} DotCommutes(x: Vec, y: Vec)
    requires |x| == |y|
    ensures Dot(x, y) == Dot(y, x)
  {
    if |x| > 0 {
      DotCommutes(x[..|x| - 1], y[..|y| - 1]);
    }
  }

  /** Square matrices are equal when their entries are. */
  lemma SquareExt(a: Mat, b: Mat, n: nat)
    requires IsSquare(a, n) && IsSquare(b, n)
    requires forall i, j :: 0 <= i < n && 0 <= j < n ==> a[i][j] == b[i][j]
    ensures a == b
  {
    forall i | 0 <= i < n
      ensures a[i] == b[i]
    {
      assert forall j :: 0 <= j < n ==> a[i][j] == b[i][j];
    }
  }

  lemma MatMulIdentityRight(a: Mat, n: nat)
    requires IsSquare(a, n)
    ensures MatMul(a, Identity(n), n) == a
  {
    var c := MatMul(a, Identity(n), n);
    forall i, j | 0 <= i < n && 0 <= j < n
      ensures c[i][j] == a[i][j]
    {
      assert Column(Identity(n), j, n) == Unit(n, j);
      DotUnitRight(a[i], j);
    }
    SquareExt(c, a, n);
  }

  lemma MatMulIdentityLeft(a: Mat, n: nat)
    requires IsSquare(a, n)
    ensures MatMul(Identity(n), a, n) == a
  {
    var c := MatMul(Identity(n), a, n);
    forall i, j | 0 <= i < n && 0 <= j < n
      ensures c[i][j] == a[i][j]
    {
      var col := Column(a, j, n);
      assert Identity(n)[i] == Unit(n, i);
      DotCommutes(Unit(n, i), col);
      DotUnitRight(col, i);
    }
    SquareExt(c, a, n);
  }

  lemma TransposeIdentity(n: nat)
    ensures Transpose(Identity(n), n) == Identity(n)
  {
    SquareExt(Transpose(Identity(n), n), Identity(n), n);
  }
}
