/**
 Eigenvalues by cyclic Jacobi rotation, and greedy clustering (scripts/diversity.py).

 The rotation works in place on an array, as the script does. The square root is a
 parameter with its defining property, and arithmetic is over the reals.
 */
module Jacobi {
  import opened Matrices

  ghost predicate IsSqrt(sqrt: real -> real) {
    forall x: real :: x >= 0.0 ==> sqrt(x) >= 0.0 && sqrt(x) * sqrt(x) == x
  }

  function Abs(x: real): real {
    if x < 0.0 then -x else x
  }

  // ---- the angle ------------------------------------------------------------------------

  /** `t` solves `t*t + 2*theta*t - 1 == 0`. */
  lemma TangentSolves(theta: real, r: real, t: real)
    requires r > 0.0 && r * r == theta * theta + 1.0
    requires t == (if theta >= 0.0 then 1.0 else -1.0) / (Abs(theta) + r)
    ensures t * t + 2.0 * (theta * t) == 1.0
  {
    var sign := if theta >= 0.0 then 1.0 else -1.0;
    var d := Abs(theta) + r;
    assert t * d == sign;
    if theta >= 0.0 {
      assert t * r == 1.0 - t * theta;
      TangentSquares(theta, r, t, 1.0);
    } else {
      assert t * r == -1.0 + t * theta;
      TangentSquares(theta, r, t, -1.0);
    }
  }

  lemma TangentSquares(theta: real, r: real, t: real, sign: real)
    requires (sign == 1.0 || sign == -1.0) && t * r == sign * (1.0 - t * theta) && r * r == theta * theta + 1.0
    ensures t * t + 2.0 * (theta * t) == 1.0
  {
    var u := t * theta;
    calc {
      u * u + t * t;
      (t * t) * (theta * theta + 1.0);
      (t * t) * (r * r);
      (t * r) * (t * r);
      (1.0 - u) * (1.0 - u);
      1.0 - 2.0 * u + u * u;
    }
  }

  lemma CosineOf(t: real, w: real, c: real, s: real)
    requires w > 0.0 && w * w == t * t + 1.0 && c == 1.0 / w && s == t * c
    ensures c * c + s * s == 1.0
  {
    assert c * w == 1.0;
    calc {
      c * c + s * s;
      (c * c) * (1.0 + t * t);
      (c * c) * (w * w);
      (c * w) * (c * w);
      1.0;
    }
  }

  /** The angle the script computes is a rotation, and it zeroes the entry it is computed for. */
  lemma AngleZeroes(x: real, y: real, z: real, theta: real, r: real, t: real, w: real, c: real, s: real)
    requires z != 0.0 && theta == (y - x) / (2.0 * z)
    requires r > 0.0 && r * r == theta * theta + 1.0
    requires t == (if theta >= 0.0 then 1.0 else -1.0) / (Abs(theta) + r)
    requires w > 0.0 && w * w == t * t + 1.0 && c == 1.0 / w && s == t * c
    ensures c * c + s * s == 1.0
    ensures c * (s * x + c * z) - s * (s * z + c * y) == 0.0
  {
    CosineOf(t, w, c, s);
    TangentSolves(theta, r, t);
    assert theta * (2.0 * z) == y - x;
    var cc := c * c;
    calc {
      c * (s * x + c * z) - s * (s * z + c * y);
      cc * (z - (t * t) * z - t * (y - x));
      cc * (z - (t * t) * z - t * (theta * (2.0 * z)));
      (cc * z) * (1.0 - (t * t + 2.0 * (theta * t)));
      0.0;
    }
  }

  // ---- one rotation in place ---------------------------------------------------------------

  ghost predicate Holds(a: array2<real>, n: nat, m: Mat)
    reads a
  {
    a.Length0 == n && a.Length1 == n && forall i: nat, j: nat :: i < n && j < n ==> a[i, j] == m(i, j)
  }

  method RotateColumns(a: array2<real>, n: nat, p: nat, q: nat, c: real, s: real, ghost m: Mat)
    requires Holds(a, n, m) && p < q < n
    modifies a
    ensures Holds(a, n, RotCols(m, p, q, c, s))
  {
    ghost var b := RotCols(m, p, q, c, s);
    for k := 0 to n
      invariant forall i: nat, j: nat :: i < n && j < n ==> a[i, j] == if i < k then b(i, j) else m(i, j)
    {
      var akp, akq := a[k, p], a[k, q];
      a[k, p] := c * akp - s * akq;
      a[k, q] := s * akp + c * akq;
    }
  }

  method RotateRows(a: array2<real>, n: nat, p: nat, q: nat, c: real, s: real, ghost m: Mat)
    requires Holds(a, n, m) && p < q < n
    modifies a
    ensures Holds(a, n, RotRows(m, p, q, c, s))
  {
    ghost var b := RotRows(m, p, q, c, s);
    for k := 0 to n
      invariant forall i: nat, j: nat :: i < n && j < n ==> a[i, j] == if j < k then b(i, j) else m(i, j)
    {
      var apk, aqk := a[p, k], a[q, k];
      a[p, k] := c * apk - s * aqk;
      a[q, k] := s * apk + c * aqk;
    }
  }

  method OffMass(a: array2<real>, n: nat, ghost m: Mat) returns (off: real)
    requires Holds(a, n, m)
    ensures off == Off(n, m)
  {
    off := 0.0;
    for i := 0 to n
      invariant off == Sum(i, OffMasses(n, m))
    {
      var row := 0.0;
      for j := 0 to n
        invariant row == Sum(j, OffRow(m, i))
      {
        if i != j {
          row := row + a[i, j] * a[i, j];
        }
      }
      off := off + row;
    }
  }

  // ---- what every rotation keeps -------------------------------------------------------------

  /** `m` is `m0` in the orthonormal basis `v`. */
  ghost predicate Conjugate(n: nat, m0: Mat, v: Mat, m: Mat) {
    && Symmetric(n, m) && Isometry(n, v) && Similar(n, m0, v, m)
    && Trace(n, m) == Trace(n, m0) && Frobenius(n, m) == Frobenius(n, m0)
  }

  /** One rotation: everything above is kept, the chosen entry is zero, and the off-diagonal
      mass is lower by exactly twice its square. */
  lemma RotationStep(n: nat, m0: Mat, v: Mat, m: Mat, p: nat, q: nat, c: real, s: real)
    requires Conjugate(n, m0, v, m) && p < q < n && c * c + s * s == 1.0
    requires c * (s * m(p, p) + c * m(p, q)) - s * (s * m(p, q) + c * m(q, q)) == 0.0
    ensures var m' := Rotated(m, p, q, c, s);
            && Conjugate(n, m0, RotCols(v, p, q, c, s), m')
            && m'(p, q) == 0.0 && m'(q, p) == 0.0
            && Off(n, m') == Off(n, m) - 2.0 * (m(p, q) * m(p, q))
  {
    assert m(p, q) == m(q, p);
    RotatedBlock(m, p, q, c, s);
    RotationKeepsSymmetry(n, m, p, q, c, s);
    RotationKeepsTrace(n, m, p, q, c, s);
    RotationKeepsFrobenius(n, m, p, q, c, s);
    RotationLowersOff(n, m, p, q, c, s);
    RotKeepsIsometry(n, v, p, q, c, s);
    RotKeepsSimilarity(n, m0, v, m, p, q, c, s);
  }

  ghost predicate AllSmall(n: nat, m: Mat, tol: real) {
    forall i: nat, j: nat :: i < n && j < n && i != j ==> Abs(m(i, j)) < tol
  }

  lemma SmallByMass(n: nat, m: Mat, tol: real)
    requires tol > 0.0 && Off(n, m) < tol * tol
    ensures AllSmall(n, m, tol)
  {
    OffIsNonNegative(n, m);
    forall i: nat, j: nat | i < n && j < n && i != j ensures Abs(m(i, j)) < tol {
      var x := Abs(m(i, j));
      assert x * x == m(i, j) * m(i, j);
      assert x >= tol ==> x * x >= tol * tol;
    }
  }

  lemma SquareBelow(x: real, tol: real)
    requires Abs(x) < tol
    ensures x * x <= tol * tol
  {
    var y := Abs(x);
    assert x * x == y * y && y * y <= y * tol && y * tol <= tol * tol;
  }

  lemma {:induction false} SmallMass(n: nat, w: Vec, tol: real)
    requires forall k: nat :: k < n ==> Abs(w(k)) < tol
    ensures Mass(n, w) <= n as real * (tol * tol)
  {
    if n == 0 {
    } else {
      SmallMass(n - 1, w, tol);
      SquareBelow(w(n - 1), tol);
      var bound := tol * tol;
      assert n as real * bound == (n - 1) as real * bound + bound;
    }
  }

  lemma SmallColumn(n: nat, m: Mat, tol: real, j: nat)
    requires AllSmall(n, m, tol) && j < n && tol > 0.0
    ensures Mass(n, OffCol(m, j)) <= n as real * (tol * tol)
  {
    SmallMass(n, OffCol(m, j), tol);
  }

  // ---- sweeps --------------------------------------------------------------------------------

  /** `count` rotations, each worth at least `2 * tol * tol`, were taken from the mass of `m0`. */
  ghost predicate Paid(n: nat, m0: Mat, m: Mat, tol: real, count: nat) {
    Off(n, m) + count as real * (2.0 * (tol * tol)) <= Off(n, m0)
  }

  lemma NothingPaid(n: nat, m: Mat, tol: real)
    ensures Paid(n, m, m, tol, 0)
  {}

  lemma PayOne(n: nat, m0: Mat, m: Mat, m': Mat, tol: real, count: nat, z: real)
    requires Paid(n, m0, m, tol, count) && tol > 0.0 && Abs(z) >= tol
    requires Off(n, m') == Off(n, m) - 2.0 * (z * z)
    ensures Paid(n, m0, m', tol, count + 1)
  {
    var x := Abs(z);
    assert x * x == z * z && x * x >= tol * tol;
    assert (count + 1) as real * (2.0 * (tol * tol)) == count as real * (2.0 * (tol * tol)) + 2.0 * (tol * tol);
  }

  lemma PayTwice(n: nat, m0: Mat, m1: Mat, m2: Mat, tol: real, first: nat, second: nat)
    requires Paid(n, m0, m1, tol, first) && Paid(n, m1, m2, tol, second)
    ensures Paid(n, m0, m2, tol, first + second)
  {
    var unit := 2.0 * (tol * tol);
    assert (first + second) as real * unit == first as real * unit + second as real * unit;
  }

  /** One step of a sweep: skip a small entry, rotate any other away. */
  method Step(a: array2<real>, n: nat, p: nat, q: nat, tol: real, sqrt: real -> real,
              ghost m0: Mat, ghost v: Mat, ghost m: Mat)
    returns (rotated: bool, ghost v': Mat, ghost m': Mat)
    requires Holds(a, n, m) && Conjugate(n, m0, v, m) && p < q < n && tol > 0.0 && IsSqrt(sqrt)
    modifies a
    ensures Holds(a, n, m') && Conjugate(n, m0, v', m')
    ensures rotated <==> Abs(m(p, q)) >= tol
    ensures !rotated ==> m' == m && v' == v
    ensures rotated ==> m'(p, q) == 0.0 && Off(n, m') == Off(n, m) - 2.0 * (m(p, q) * m(p, q))
  {
    if Abs(a[p, q]) < tol {
      return false, v, m;
    }
    var theta := (a[q, q] - a[p, p]) / (2.0 * a[p, q]);
    SquaresAreNonNegative(theta);
    var r := sqrt(theta * theta + 1.0);
    assert r > 0.0;
    var t := (if theta >= 0.0 then 1.0 else -1.0) / (Abs(theta) + r);
    SquaresAreNonNegative(t);
    var w := sqrt(t * t + 1.0);
    assert w > 0.0;
    var c := 1.0 / w;
    var s := t * c;
    AngleZeroes(m(p, p), m(q, q), m(p, q), theta, r, t, w, c, s);
    RotationStep(n, m0, v, m, p, q, c, s);
    RotateColumns(a, n, p, q, c, s, m);
    RotateRows(a, n, p, q, c, s, RotCols(m, p, q, c, s));
    return true, RotCols(v, p, q, c, s), Rotated(m, p, q, c, s);
  }

  /** Every entry above the diagonal in the first `p` rows is small. */
  ghost predicate SmallAbove(n: nat, m: Mat, tol: real, p: nat) {
    forall i: nat, j: nat :: i < j < n && i < p ==> Abs(m(i, j)) < tol
  }

  /** Row `p` of a sweep. */
  method SweepRow(a: array2<real>, n: nat, p: nat, tol: real, sqrt: real -> real, ghost m0: Mat, ghost v: Mat,
                  ghost m: Mat)
    returns (ghost v': Mat, ghost m': Mat, ghost count: nat)
    requires Holds(a, n, m) && Conjugate(n, m0, v, m) && p < n && tol > 0.0 && IsSqrt(sqrt)
    modifies a
    ensures Holds(a, n, m') && Conjugate(n, m0, v', m') && Paid(n, m, m', tol, count)
    ensures count == 0 ==> m' == m && forall j: nat :: p < j < n ==> Abs(m(p, j)) < tol
    ensures AllSmall(n, m, tol) ==> count == 0
  {
    hide Conjugate, Paid, IsSqrt, Off;
    v', m', count := v, m, 0;
    NothingPaid(n, m, tol);
    var q := p + 1;
    while q < n
      invariant p + 1 <= q <= n
      invariant Holds(a, n, m') && Conjugate(n, m0, v', m') && Paid(n, m, m', tol, count)
      invariant count == 0 ==> m' == m && forall j: nat :: p < j < q ==> Abs(m(p, j)) < tol
      invariant AllSmall(n, m, tol) ==> count == 0
    {
      var rotated;
      ghost var was := m';
      rotated, v', m' := Step(a, n, p, q, tol, sqrt, m0, v', m');
      if rotated {
        PayOne(n, m, was, m', tol, count, was(p, q));
        count := count + 1;
      }
      q := q + 1;
    }
  }

  method Sweep(a: array2<real>, n: nat, tol: real, sqrt: real -> real, ghost m0: Mat, ghost v: Mat, ghost m: Mat)
    returns (ghost v': Mat, ghost m': Mat, ghost count: nat)
    requires Holds(a, n, m) && Conjugate(n, m0, v, m) && tol > 0.0 && IsSqrt(sqrt)
    modifies a
    ensures Holds(a, n, m') && Conjugate(n, m0, v', m') && Paid(n, m, m', tol, count)
    ensures count == 0 ==> AllSmall(n, m', tol)
    ensures AllSmall(n, m, tol) ==> count == 0 && m' == m
  {
    hide Conjugate, Paid, IsSqrt, Off;
    v', m', count := v, m, 0;
    NothingPaid(n, m, tol);
    var p := 0;
    while p + 1 < n
      invariant n > 0 ==> p < n
      invariant Holds(a, n, m') && Conjugate(n, m0, v', m') && Paid(n, m, m', tol, count)
      invariant count == 0 ==> m' == m && SmallAbove(n, m, tol, p)
      invariant AllSmall(n, m, tol) ==> count == 0
    {
      ghost var more, was := 0, m';
      v', m', more := SweepRow(a, n, p, tol, sqrt, m0, v', m');
      PayTwice(n, m, was, m', tol, count, more);
      count := count + more;
      p := p + 1;
    }
    if count == 0 {
      ConjugateIsSymmetric(n, m0, v, m);
      SmallOnBothSides(n, m, tol);
    }
  }

  lemma ConjugateIsSymmetric(n: nat, m0: Mat, v: Mat, m: Mat)
    requires Conjugate(n, m0, v, m)
    ensures Symmetric(n, m)
  {}

  lemma SmallOnBothSides(n: nat, m: Mat, tol: real)
    requires Symmetric(n, m) && SmallAbove(n, m, tol, n)
    ensures AllSmall(n, m, tol)
  {
    forall i: nat, j: nat | i < n && j < n && i != j ensures Abs(m(i, j)) < tol {
      assert m(i, j) == m(j, i);
    }
  }

  // ---- the eigenvalues -------------------------------------------------------------------------

  ghost predicate Square(mat: seq<seq<real>>) {
    forall i :: 0 <= i < |mat| ==> |mat[i]| == |mat|
  }

  function MatOf(mat: seq<seq<real>>): Mat
    requires forall i :: 0 <= i < |mat| ==> |mat[i]| == |mat|
  {
    (i: nat, j: nat) => if i < |mat| && j < |mat| then mat[i][j] else 0.0
  }

  function VecOf(values: seq<real>): Vec {
    (i: nat) => if i < |values| then values[i] else 0.0
  }

  method Copy(mat: seq<seq<real>>) returns (a: array2<real>)
    requires Square(mat)
    ensures fresh(a) && Holds(a, |mat|, MatOf(mat))
  {
    a := new real[|mat|, |mat|]((i, j) requires 0 <= i < |mat| && 0 <= j < |mat| => mat[i][j]);
  }

  method Diagonal(a: array2<real>, n: nat, ghost m: Mat) returns (values: seq<real>)
    requires Holds(a, n, m)
    ensures |values| == n && forall j: nat :: j < n ==> values[j] == m(j, j)
  {
    values := [];
    for i := 0 to n
      invariant |values| == i && forall j: nat :: j < i ==> values[j] == m(j, j)
    {
      values := values + [a[i, i]];
    }
  }

  /** `jacobi_eigenvalues`. The values sum to the trace; their squares fall short of the sum of
      all squares by exactly the off-diagonal mass left; and column `j` of an orthonormal
      `basis` is an eigenvector for `values[j]` up to that mass. With enough sweeps for the
      mass there was, every entry left off the diagonal is below `tol`. */
  method JacobiEigenvalues(mat: seq<seq<real>>, iters: nat, tol: real, sqrt: real -> real)
    returns (values: seq<real>, ghost basis: Mat, ghost final: Mat)
    requires Square(mat) && Symmetric(|mat|, MatOf(mat)) && tol > 0.0 && IsSqrt(sqrt)
    ensures |values| == |mat|
    ensures var n, m0 := |mat|, MatOf(mat);
            && Conjugate(n, m0, basis, final)
            && (forall j: nat :: j < n ==> values[j] == final(j, j))
            && Sum(n, VecOf(values)) == Trace(n, m0)
            && Mass(n, VecOf(values)) + Off(n, final) == Frobenius(n, m0)
            && Off(n, final) <= Off(n, m0)
    ensures var n, m0 := |mat|, MatOf(mat);
            forall j: nat :: j < n ==>
              && Mass(n, Col(basis, j)) == 1.0
              && Residual(n, m0, Col(basis, j), values[j]) <= Off(n, final)
    ensures var n, m0 := |mat|, MatOf(mat);
            Off(n, m0) < iters as real * (2.0 * (tol * tol)) ==>
              forall j: nat :: j < n ==> Residual(n, m0, Col(basis, j), values[j]) <= n as real * (tol * tol)
  {
    hide Conjugate, Paid, IsSqrt, Off, Residual, AllSmall, Symmetric, Trace, Frobenius, Mass;
    var n := |mat|;
    ghost var m0 := MatOf(mat);
    var a := Copy(mat);
    basis, final := Identity(), m0;
    StartsConjugate(n, m0);
    NothingPaid(n, m0, tol);
    ghost var count: nat := 0;
    var it := 0;
    while it < iters
      invariant it <= iters
      invariant Holds(a, n, final) && Conjugate(n, m0, basis, final) && Paid(n, m0, final, tol, count)
      invariant AllSmall(n, final, tol) || count >= it
    {
      var off := OffMass(a, n, final);
      if sqrt(off) < tol {
        SmallByRoot(n, final, tol, sqrt);
        break;
      }
      ghost var more: nat, was := 0, final;
      basis, final, more := Sweep(a, n, tol, sqrt, m0, basis, final);
      PayTwice(n, m0, was, final, tol, count, more);
      count := count + more;
      it := it + 1;
    }
    values := Diagonal(a, n, final);
    Spectrum(n, m0, basis, final, values);
    MassShrinks(n, m0, final, tol, count);
    SharpSpectrum(n, m0, basis, final, values, tol, count, iters);
  }

  lemma StartsConjugate(n: nat, m0: Mat)
    requires Symmetric(n, m0)
    ensures Conjugate(n, m0, Identity(), m0)
  {
    IdentityIsIsometry(n);
    IdentityIsSimilar(n, m0);
  }

  lemma BelowBySquare(x: real, r: real, tol: real)
    requires 0.0 <= r < tol && r * r == x
    ensures x < tol * tol
  {
    PositiveProduct(tol - r, tol + r);
    assert (tol - r) * (tol + r) == tol * tol - r * r;
  }

  lemma PositiveProduct(x: real, y: real)
    requires x > 0.0 && y > 0.0
    ensures x * y > 0.0
  {}

  lemma SmallByRoot(n: nat, m: Mat, tol: real, sqrt: real -> real)
    requires IsSqrt(sqrt) && sqrt(Off(n, m)) < tol
    ensures AllSmall(n, m, tol)
  {
    OffIsNonNegative(n, m);
    var r := sqrt(Off(n, m));
    BelowBySquare(Off(n, m), r, tol);
    SmallByMass(n, m, tol);
  }

  lemma SharpSpectrum(n: nat, m0: Mat, v: Mat, m: Mat, values: seq<real>, tol: real, count: nat, iters: nat)
    requires Conjugate(n, m0, v, m) && Paid(n, m0, m, tol, count) && tol > 0.0
    requires |values| == n && forall j: nat :: j < n ==> values[j] == m(j, j)
    requires AllSmall(n, m, tol) || count >= iters
    ensures Off(n, m0) < iters as real * (2.0 * (tol * tol)) ==>
              forall j: nat :: j < n ==> Residual(n, m0, Col(v, j), values[j]) <= n as real * (tol * tol)
  {
    if Off(n, m0) < iters as real * (2.0 * (tol * tol)) {
      EnoughSweeps(n, m0, m, tol, count, iters);
      forall j: nat | j < n ensures Residual(n, m0, Col(v, j), values[j]) <= n as real * (tol * tol) {
        DiagonalIsNearlyEigen(n, m0, v, m, j);
        SmallColumn(n, m, tol, j);
      }
    }
  }

  lemma MassShrinks(n: nat, m0: Mat, m: Mat, tol: real, count: nat)
    requires Paid(n, m0, m, tol, count)
    ensures Off(n, m) <= Off(n, m0)
  {
    SquaresAreNonNegative(tol);
    assert count as real * (2.0 * (tol * tol)) >= 0.0;
  }

  /** The mass pays for fewer rotations than there were sweeps, so some sweep made none. */
  lemma EnoughSweeps(n: nat, m0: Mat, m: Mat, tol: real, count: nat, iters: nat)
    requires Paid(n, m0, m, tol, count) && Off(n, m0) < iters as real * (2.0 * (tol * tol))
    requires AllSmall(n, m, tol) || count >= iters
    ensures AllSmall(n, m, tol)
  {
    OffIsNonNegative(n, m);
    SquaresAreNonNegative(tol);
    if count >= iters {
      assert count as real * (2.0 * (tol * tol)) >= iters as real * (2.0 * (tol * tol));
    }
  }

  lemma Spectrum(n: nat, m0: Mat, v: Mat, m: Mat, values: seq<real>)
    requires Conjugate(n, m0, v, m) && |values| == n && forall j: nat :: j < n ==> values[j] == m(j, j)
    ensures Sum(n, VecOf(values)) == Trace(n, m0)
    ensures Mass(n, VecOf(values)) + Off(n, m) == Frobenius(n, m0)
    ensures forall j: nat :: j < n ==>
              && Mass(n, Col(v, j)) == 1.0
              && Residual(n, m0, Col(v, j), values[j]) <= Off(n, m)
  {
    SumSame(n, VecOf(values), Diag(m));
    SumSame(n, Times(VecOf(values), VecOf(values)), Times(Diag(m), Diag(m)));
    FrobeniusSplits(n, m);
    forall j: nat | j < n
      ensures Mass(n, Col(v, j)) == 1.0 && Residual(n, m0, Col(v, j), values[j]) <= Off(n, m)
    {
      ColumnHasLengthOne(n, v, j);
      DiagonalIsNearlyEigen(n, m0, v, m, j);
      ColumnMassIsBounded(n, m, j);
    }
  }

  // ---- greedy clusters ----------------------------------------------------------------------------

  /** Item `i` opens a cluster exactly when no earlier opener is similar to it. */
  predicate Leads(sims: seq<seq<real>>, tau: real, i: nat)
    requires i < |sims| && forall r :: 0 <= r < |sims| ==> |sims[r]| == |sims|
  {
    forall l: nat :: l < i && Leads(sims, tau, l) ==> sims[l][i] < tau
  }

  function Leaders(sims: seq<seq<real>>, tau: real, n: nat): nat
    requires n <= |sims| && forall r :: 0 <= r < |sims| ==> |sims[r]| == |sims|
  {
    if n == 0 then 0 else Leaders(sims, tau, n - 1) + if Leads(sims, tau, n - 1) then 1 else 0
  }

  ghost function LeaderSet(sims: seq<seq<real>>, tau: real, n: nat): set<nat>
    requires n <= |sims| && Square(sims)
  {
    set i: nat | i < n && Leads(sims, tau, i)
  }

  lemma {:induction false} LeadersAreCounted(sims: seq<seq<real>>, tau: real, n: nat)
    requires n <= |sims| && Square(sims)
    ensures Leaders(sims, tau, n) == |LeaderSet(sims, tau, n)|
  {
    hide Leads;
    if n == 0 {
    } else {
      LeadersAreCounted(sims, tau, n - 1);
      var before := LeaderSet(sims, tau, n - 1);
      assert LeaderSet(sims, tau, n) == if Leads(sims, tau, n - 1) then before + {n - 1} else before;
    }
  }

  /** Some opener among the first `i` items is similar to `x`. */
  ghost predicate Taken(sims: seq<seq<real>>, tau: real, i: nat, x: nat)
    requires i <= |sims| && x < |sims| && Square(sims)
  {
    exists l: nat :: l < i && Leads(sims, tau, l) && sims[l][x] >= tau
  }

  lemma TakenByOneMore(sims: seq<seq<real>>, tau: real, i: nat, x: nat)
    requires i < |sims| && x < |sims| && Square(sims)
    ensures Taken(sims, tau, i + 1, x) <==> Taken(sims, tau, i, x) || (Leads(sims, tau, i) && sims[i][x] >= tau)
    ensures Leads(sims, tau, i) <==> !Taken(sims, tau, i, i)
  {}

  /** `greedy_clusters`. */
  method GreedyClusters(sims: seq<seq<real>>, tau: real) returns (k: nat)
    requires Square(sims)
    ensures k == |LeaderSet(sims, tau, |sims|)|
    ensures k <= |sims| && (sims != [] ==> k >= 1)
  {
    hide Taken, Leads;
    var n := |sims|;
    var seen := new bool[n](_ => false);
    k := 0;
    NobodyTaken(sims, tau);
    for i := 0 to n
      invariant k == Leaders(sims, tau, i) && k <= i && (i > 0 ==> k >= 1)
      invariant forall j: nat :: i <= j < n ==> seen[j] == Taken(sims, tau, i, j)
    {
      TakenByOneMore(sims, tau, i, i);
      FirstLeads(sims, tau);
      if seen[i] {
        forall j: nat | i < j < n ensures Taken(sims, tau, i + 1, j) == Taken(sims, tau, i, j) {
          TakenByOneMore(sims, tau, i, j);
        }
        continue;
      }
      k := k + 1;
      seen[i] := true;
      for j := i + 1 to n
        invariant forall x: nat :: j <= x < n ==> seen[x] == Taken(sims, tau, i, x)
        invariant forall x: nat :: i < x < j ==> seen[x] == Taken(sims, tau, i + 1, x)
      {
        TakenByOneMore(sims, tau, i, j);
        if !seen[j] && sims[i][j] >= tau {
          seen[j] := true;
        }
      }
    }
    LeadersAreCounted(sims, tau, n);
  }

  lemma NobodyTaken(sims: seq<seq<real>>, tau: real)
    requires Square(sims)
    ensures forall x: nat :: x < |sims| ==> !Taken(sims, tau, 0, x)
  {}

  lemma FirstLeads(sims: seq<seq<real>>, tau: real)
    requires Square(sims) && sims != []
    ensures Leads(sims, tau, 0) && !Taken(sims, tau, 0, 0)
  {}

  /** No other choice of openers separates and covers in this order. */
  lemma {:induction false} LeadersAreTheOnlyChoice(sims: seq<seq<real>>, tau: real, chosen: set<nat>, i: nat)
    requires Square(sims) && i < |sims|
    requires forall x: nat :: x < |sims| ==>
             (x in chosen <==> forall l: nat :: l < x && l in chosen ==> sims[l][x] < tau)
    ensures i in chosen <==> Leads(sims, tau, i)
    decreases i
  {
    forall l: nat | l < i ensures l in chosen <==> Leads(sims, tau, l) {
      LeadersAreTheOnlyChoice(sims, tau, chosen, l);
    }
  }

  /** So every such choice is the set of openers whose number `GreedyClusters` returns. */
  lemma OnlyOneChoice(sims: seq<seq<real>>, tau: real, chosen: set<nat>)
    requires Square(sims) && forall x: nat :: x in chosen ==> x < |sims|
    requires forall x: nat :: x < |sims| ==>
             (x in chosen <==> forall l: nat :: l < x && l in chosen ==> sims[l][x] < tau)
    ensures chosen == LeaderSet(sims, tau, |sims|)
  {
    forall i: nat | i < |sims| ensures i in chosen <==> i in LeaderSet(sims, tau, |sims|) {
      LeadersAreTheOnlyChoice(sims, tau, chosen, i);
    }
  }
}
