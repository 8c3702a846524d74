/**
 Finite sums, plane rotations and orthogonal similarity over the reals: the algebra behind
 one Jacobi rotation. A matrix is a function of two indices, of which the first `n` matter.
 */
module Matrices {
  type Vec = nat -> real
  type Mat = (nat, nat) -> real

  function Sum(n: nat, f: Vec): real {
    if n == 0 then 0.0 else Sum(n - 1, f) + f(n - 1)
  }

  lemma {:induction false} SumSame(n: nat, f: Vec, g: Vec)
    requires forall k: nat :: k < n ==> f(k) == g(k)
    ensures Sum(n, f) == Sum(n, g)
  {
    if n == 0 {
    } else {
      SumSame(n - 1, f, g);
    }
  }

  lemma {:induction false} SumLinear(n: nat, x: real, f: Vec, y: real, g: Vec, h: Vec)
    requires forall k: nat :: k < n ==> h(k) == x * f(k) + y * g(k)
    ensures Sum(n, h) == x * Sum(n, f) + y * Sum(n, g)
  {
    if n == 0 {
    } else {
      SumLinear(n - 1, x, f, y, g, h);
      assert h(n - 1) == x * f(n - 1) + y * g(n - 1);
    }
  }

  /** Only the terms at `p` and `q` differ. */
  lemma {:induction false} SumTwoDiffer(n: nat, f: Vec, g: Vec, p: nat, q: nat)
    requires p != q
    requires forall k: nat :: k < n && k != p && k != q ==> f(k) == g(k)
    ensures Sum(n, g) - Sum(n, f) == (if p < n then g(p) - f(p) else 0.0) + (if q < n then g(q) - f(q) else 0.0)
  {
    if n == 0 {
    } else {
      SumTwoDiffer(n - 1, f, g, p, q);
    }
  }

  lemma {:induction false} SumNonNegative(n: nat, f: Vec)
    requires forall k: nat :: k < n ==> f(k) >= 0.0
    ensures Sum(n, f) >= 0.0
    ensures forall k: nat :: k < n ==> f(k) <= Sum(n, f)
  {
    if n == 0 {
    } else {
      SumNonNegative(n - 1, f);
    }
  }

  lemma {:induction false} SumPick(n: nat, f: Vec, p: nat)
    requires forall k: nat :: k < n && k != p ==> f(k) == 0.0
    ensures Sum(n, f) == if p < n then f(p) else 0.0
  {
    if n == 0 {
    } else {
      SumPick(n - 1, f, p);
    }
  }

  function Times(f: Vec, g: Vec): Vec {
    (k: nat) => f(k) * g(k)
  }

  /** The squared length of a vector. */
  function Mass(n: nat, f: Vec): real {
    Sum(n, Times(f, f))
  }

  function Row(m: Mat, i: nat): Vec {
    (j: nat) => m(i, j)
  }

  function Col(m: Mat, j: nat): Vec {
    (i: nat) => m(i, j)
  }

  function Diag(m: Mat): Vec {
    (i: nat) => m(i, i)
  }

  function Trace(n: nat, m: Mat): real {
    Sum(n, Diag(m))
  }

  function RowMasses(n: nat, m: Mat): Vec {
    (i: nat) => Mass(n, Row(m, i))
  }

  /** The sum of the squares of all entries. */
  function Frobenius(n: nat, m: Mat): real {
    Sum(n, RowMasses(n, m))
  }

  function OffRow(m: Mat, i: nat): Vec {
    (j: nat) => if i == j then 0.0 else m(i, j) * m(i, j)
  }

  function OffMasses(n: nat, m: Mat): Vec {
    (i: nat) => Sum(n, OffRow(m, i))
  }

  /** The sum of the squares of the entries off the diagonal. */
  function Off(n: nat, m: Mat): real {
    Sum(n, OffMasses(n, m))
  }

  ghost predicate Symmetric(n: nat, m: Mat) {
    forall i: nat, j: nat :: i < n && j < n ==> m(i, j) == m(j, i)
  }

  ghost predicate SameMat(n: nat, a: Mat, b: Mat) {
    forall i: nat, j: nat :: i < n && j < n ==> a(i, j) == b(i, j)
  }

  lemma SquaresAreNonNegative(x: real)
    ensures x * x >= 0.0
  {}

  lemma MassIsNonNegative(n: nat, f: Vec)
    ensures Mass(n, f) >= 0.0
  {
    forall k: nat | k < n ensures Times(f, f)(k) >= 0.0 {
      SquaresAreNonNegative(f(k));
    }
    SumNonNegative(n, Times(f, f));
  }

  /** Everything is on the diagonal or off it. */
  lemma FrobeniusSplits(n: nat, m: Mat)
    ensures Frobenius(n, m) == Off(n, m) + Mass(n, Diag(m))
  {
    var diagSq := Times(Diag(m), Diag(m));
    forall i: nat | i < n ensures RowMasses(n, m)(i) == 1.0 * OffMasses(n, m)(i) + 1.0 * diagSq(i) {
      SumTwoDiffer(n, OffRow(m, i), Times(Row(m, i), Row(m, i)), i, n);
    }
    SumLinear(n, 1.0, OffMasses(n, m), 1.0, diagSq, RowMasses(n, m));
  }

  lemma OffIsNonNegative(n: nat, m: Mat)
    ensures Off(n, m) >= 0.0
    ensures forall i: nat, j: nat :: i < n && j < n && i != j ==> m(i, j) * m(i, j) <= Off(n, m)
    ensures forall i: nat :: i < n ==> OffMasses(n, m)(i) <= Off(n, m)
  {
    forall i: nat | i < n
      ensures OffMasses(n, m)(i) >= 0.0
      ensures forall j: nat :: j < n ==> OffRow(m, i)(j) <= OffMasses(n, m)(i)
    {
      forall j: nat | j < n ensures OffRow(m, i)(j) >= 0.0 {
        SquaresAreNonNegative(m(i, j));
      }
      SumNonNegative(n, OffRow(m, i));
    }
    SumNonNegative(n, OffMasses(n, m));
    forall i: nat, j: nat | i < n && j < n && i != j ensures m(i, j) * m(i, j) <= Off(n, m) {
      assert OffRow(m, i)(j) <= OffMasses(n, m)(i) <= Off(n, m);
    }
  }

  lemma TimesSame(n: nat, f: Vec, g: Vec, f': Vec, g': Vec)
    requires forall k: nat :: k < n ==> f(k) == f'(k)
    requires forall k: nat :: k < n ==> g(k) == g'(k)
    ensures Sum(n, Times(f, g)) == Sum(n, Times(f', g'))
  {
    SumSame(n, Times(f, g), Times(f', g'));
  }

  // ---- rotations -------------------------------------------------------------------------

  function Rot(f: Vec, p: nat, q: nat, c: real, s: real): Vec {
    (k: nat) => if k == p then c * f(p) - s * f(q) else if k == q then s * f(p) + c * f(q) else f(k)
  }

  /** Every row rotated: what the column loop does. */
  function RotCols(m: Mat, p: nat, q: nat, c: real, s: real): Mat {
    (i: nat, j: nat) =>
      if j == p then c * m(i, p) - s * m(i, q) else if j == q then s * m(i, p) + c * m(i, q) else m(i, j)
  }

  /** Every column rotated: what the row loop does. */
  function RotRows(m: Mat, p: nat, q: nat, c: real, s: real): Mat {
    (i: nat, j: nat) =>
      if i == p then c * m(p, j) - s * m(q, j) else if i == q then s * m(p, j) + c * m(q, j) else m(i, j)
  }

  function Rotated(m: Mat, p: nat, q: nat, c: real, s: real): Mat {
    RotRows(RotCols(m, p, q, c, s), p, q, c, s)
  }

  ghost predicate IsPlane(n: nat, p: nat, q: nat, c: real, s: real) {
    p < n && q < n && p != q && c * c + s * s == 1.0
  }

  lemma RotatedPair(c: real, s: real, x: real, y: real, u: real, w: real)
    requires c * c + s * s == 1.0
    ensures (c * x - s * y) * (c * u - s * w) + (s * x + c * y) * (s * u + c * w) == x * u + y * w
  {
    calc {
      (c * x - s * y) * (c * u - s * w) + (s * x + c * y) * (s * u + c * w);
      (c * c + s * s) * (x * u) + (c * c + s * s) * (y * w);
      x * u + y * w;
    }
  }

  lemma RotatedTo(c: real, s: real, x: real, y: real, u: real, w: real, x': real, y': real, u': real, w': real)
    requires c * c + s * s == 1.0
    requires x' == c * x - s * y && y' == s * x + c * y && u' == c * u - s * w && w' == s * u + c * w
    ensures x' * u' + y' * w' == x * u + y * w
  {
    RotatedPair(c, s, x, y, u, w);
  }

  lemma RotatedTerms(f: Vec, g: Vec, p: nat, q: nat, c: real, s: real)
    requires p != q && c * c + s * s == 1.0
    ensures var r := Times(Rot(f, p, q, c, s), Rot(g, p, q, c, s));
            && r(p) + r(q) == Times(f, g)(p) + Times(f, g)(q)
            && forall k: nat :: k != p && k != q ==> r(k) == Times(f, g)(k)
  {
    var f', g' := Rot(f, p, q, c, s), Rot(g, p, q, c, s);
    RotatedTo(c, s, f(p), f(q), g(p), g(q), f'(p), f'(q), g'(p), g'(q));
  }

  /** A rotation keeps inner products. */
  lemma RotKeepsDot(n: nat, f: Vec, g: Vec, p: nat, q: nat, c: real, s: real)
    requires IsPlane(n, p, q, c, s)
    ensures Sum(n, Times(Rot(f, p, q, c, s), Rot(g, p, q, c, s))) == Sum(n, Times(f, g))
  {
    hide Times, Rot;
    RotatedTerms(f, g, p, q, c, s);
    SumTwoDiffer(n, Times(f, g), Times(Rot(f, p, q, c, s), Rot(g, p, q, c, s)), p, q);
  }

  lemma RotColsKeepsFrobenius(n: nat, m: Mat, p: nat, q: nat, c: real, s: real)
    requires IsPlane(n, p, q, c, s)
    ensures Frobenius(n, RotCols(m, p, q, c, s)) == Frobenius(n, m)
  {
    var m' := RotCols(m, p, q, c, s);
    forall i: nat | i < n ensures RowMasses(n, m')(i) == RowMasses(n, m)(i) {
      var r := Rot(Row(m, i), p, q, c, s);
      SumSame(n, Times(Row(m', i), Row(m', i)), Times(r, r));
      RotKeepsDot(n, Row(m, i), Row(m, i), p, q, c, s);
    }
    SumSame(n, RowMasses(n, m'), RowMasses(n, m));
  }

  lemma {:induction false} TwoRotatedRows(n: nat, u: Vec, w: Vec, u': Vec, w': Vec, c: real, s: real)
    requires c * c + s * s == 1.0
    requires forall k: nat :: k < n ==> u'(k) == c * u(k) - s * w(k) && w'(k) == s * u(k) + c * w(k)
    ensures Mass(n, u') + Mass(n, w') == Mass(n, u) + Mass(n, w)
  {
    if n == 0 {
    } else {
      TwoRotatedRows(n - 1, u, w, u', w', c, s);
      RotatedPair(c, s, u(n - 1), w(n - 1), u(n - 1), w(n - 1));
    }
  }

  lemma RotRowsKeepsFrobenius(n: nat, m: Mat, p: nat, q: nat, c: real, s: real)
    requires IsPlane(n, p, q, c, s)
    ensures Frobenius(n, RotRows(m, p, q, c, s)) == Frobenius(n, m)
  {
    var m' := RotRows(m, p, q, c, s);
    TwoRotatedRows(n, Row(m, p), Row(m, q), Row(m', p), Row(m', q), c, s);
    forall i: nat | i < n && i != p && i != q ensures RowMasses(n, m)(i) == RowMasses(n, m')(i) {
      SumSame(n, Times(Row(m', i), Row(m', i)), Times(Row(m, i), Row(m, i)));
    }
    SumTwoDiffer(n, RowMasses(n, m), RowMasses(n, m'), p, q);
  }

  lemma RotationKeepsFrobenius(n: nat, m: Mat, p: nat, q: nat, c: real, s: real)
    requires IsPlane(n, p, q, c, s)
    ensures Frobenius(n, Rotated(m, p, q, c, s)) == Frobenius(n, m)
  {
    RotColsKeepsFrobenius(n, m, p, q, c, s);
    RotRowsKeepsFrobenius(n, RotCols(m, p, q, c, s), p, q, c, s);
  }

  lemma RotatedOutside(n: nat, m: Mat, p: nat, q: nat, c: real, s: real, i: nat, j: nat)
    requires IsPlane(n, p, q, c, s) && Symmetric(n, m) && i < n && j < n && i != p && i != q
    ensures Rotated(m, p, q, c, s)(i, j) == Rotated(m, p, q, c, s)(j, i)
  {
    assert m(i, j) == m(j, i) && m(i, p) == m(p, i) && m(i, q) == m(q, i);
  }

  lemma RotatedInside(m: Mat, p: nat, q: nat, c: real, s: real)
    requires p != q && m(p, q) == m(q, p)
    ensures Rotated(m, p, q, c, s)(p, q) == Rotated(m, p, q, c, s)(q, p)
  {
    var x, y, z := m(p, p), m(q, q), m(p, q);
    calc {
      c * (s * x + c * z) - s * (s * z + c * y);
      s * (c * x - s * z) + c * (c * z - s * y);
    }
  }

  lemma RotationKeepsSymmetry(n: nat, m: Mat, p: nat, q: nat, c: real, s: real)
    requires IsPlane(n, p, q, c, s) && Symmetric(n, m)
    ensures Symmetric(n, Rotated(m, p, q, c, s))
  {
    hide Rotated;
    var m' := Rotated(m, p, q, c, s);
    forall i: nat, j: nat | i < n && j < n ensures m'(i, j) == m'(j, i) {
      if i != p && i != q {
        RotatedOutside(n, m, p, q, c, s, i, j);
      } else if j != p && j != q {
        RotatedOutside(n, m, p, q, c, s, j, i);
      } else if i != j {
        RotatedInside(m, p, q, c, s);
      }
    }
  }

  /** The two rotated diagonal entries and the one the rotation is about. */
  lemma RotatedBlock(m: Mat, p: nat, q: nat, c: real, s: real)
    requires p != q && m(p, q) == m(q, p)
    ensures var m' := Rotated(m, p, q, c, s);
            var x, y, z := m(p, p), m(q, q), m(p, q);
            && m'(p, p) == c * (c * x - s * z) - s * (c * z - s * y)
            && m'(q, q) == s * (s * x + c * z) + c * (s * z + c * y)
            && m'(p, q) == c * (s * x + c * z) - s * (s * z + c * y)
  {}

  lemma RotationKeepsTrace(n: nat, m: Mat, p: nat, q: nat, c: real, s: real)
    requires IsPlane(n, p, q, c, s) && m(p, q) == m(q, p)
    ensures Trace(n, Rotated(m, p, q, c, s)) == Trace(n, m)
  {
    var m' := Rotated(m, p, q, c, s);
    var x, y, z := m(p, p), m(q, q), m(p, q);
    RotatedBlock(m, p, q, c, s);
    calc {
      m'(p, p) + m'(q, q);
      (c * c + s * s) * x + (c * c + s * s) * y;
      x + y;
    }
    SumTwoDiffer(n, Diag(m), Diag(m'), p, q);
  }

  lemma OffEntryTwice(c: real, s: real, x: real, y: real, z: real)
    ensures c * (s * x + c * z) - s * (s * z + c * y) == s * (c * x - s * z) + c * (c * z - s * y)
  {
    calc {
      c * (s * x + c * z) - s * (s * z + c * y);
      (c * s) * x + (c * c) * z - (s * s) * z - (c * s) * y;
      s * (c * x - s * z) + c * (c * z - s * y);
    }
  }

  /** The block `[x z; z y]` turned to `[u1 w1; u2 w2]` and then to `[a d; d b]`. */
  lemma TurnedTwice(c: real, s: real, x: real, y: real, z: real, u1: real, u2: real, w1: real, w2: real,
                    a: real, b: real, d: real)
    requires c * c + s * s == 1.0
    requires u1 == c * x - s * z && u2 == s * x + c * z
    requires w1 == c * z - s * y && w2 == s * z + c * y
    requires a == c * u1 - s * w1 && d == s * u1 + c * w1
    requires d == c * u2 - s * w2 && b == s * u2 + c * w2
    ensures a * a + b * b + 2.0 * (d * d) == x * x + y * y + 2.0 * (z * z)
  {
    RotatedTo(c, s, u1, w1, u1, w1, a, d, a, d);
    RotatedTo(c, s, u2, w2, u2, w2, d, b, d, b);
    RotatedTo(c, s, x, z, x, z, u1, u2, u1, u2);
    RotatedTo(c, s, z, y, z, y, w1, w2, w1, w2);
  }

  /** For a symmetric block turned until the entry off its diagonal is zero, the diagonal gains
      what that entry had. */
  lemma BlockMassOf(c: real, s: real, x: real, y: real, z: real, a: real, b: real)
    requires c * c + s * s == 1.0 && c * (s * x + c * z) - s * (s * z + c * y) == 0.0
    requires a == c * (c * x - s * z) - s * (c * z - s * y)
    requires b == s * (s * x + c * z) + c * (s * z + c * y)
    ensures a * a + b * b == x * x + y * y + 2.0 * (z * z)
  {
    OffEntryTwice(c, s, x, y, z);
    TurnedTwice(c, s, x, y, z, c * x - s * z, s * x + c * z, c * z - s * y, s * z + c * y, a, b, 0.0);
  }

  lemma DiagonalBlock(m: Mat, p: nat, q: nat, c: real, s: real)
    requires p != q && c * c + s * s == 1.0 && m(p, q) == m(q, p)
    requires Rotated(m, p, q, c, s)(p, q) == 0.0
    ensures var a, b := Rotated(m, p, q, c, s)(p, p), Rotated(m, p, q, c, s)(q, q);
            a * a + b * b == m(p, p) * m(p, p) + m(q, q) * m(q, q) + 2.0 * (m(p, q) * m(p, q))
  {
    hide Rotated;
    RotatedBlock(m, p, q, c, s);
    var m' := Rotated(m, p, q, c, s);
    BlockMassOf(c, s, m(p, p), m(q, q), m(p, q), m'(p, p), m'(q, q));
  }

  lemma TimesTwoDiffer(d: Vec, d': Vec, p: nat, q: nat)
    requires forall k: nat :: k != p && k != q ==> d'(k) == d(k)
    ensures forall k: nat :: k != p && k != q ==> Times(d, d)(k) == Times(d', d')(k)
    ensures Times(d, d)(p) == d(p) * d(p) && Times(d, d)(q) == d(q) * d(q)
    ensures Times(d', d')(p) == d'(p) * d'(p) && Times(d', d')(q) == d'(q) * d'(q)
  {}

  lemma MassTwoDiffer(n: nat, d: Vec, d': Vec, p: nat, q: nat)
    requires p < n && q < n && p != q && forall k: nat :: k != p && k != q ==> d'(k) == d(k)
    ensures Mass(n, d') == Mass(n, d) + (d'(p) * d'(p) + d'(q) * d'(q)) - (d(p) * d(p) + d(q) * d(q))
  {
    hide Times;
    TimesTwoDiffer(d, d', p, q);
    SumTwoDiffer(n, Times(d, d), Times(d', d'), p, q);
  }

  lemma DiagonalElsewhere(m: Mat, p: nat, q: nat, c: real, s: real)
    ensures forall k: nat :: k != p && k != q ==> Diag(Rotated(m, p, q, c, s))(k) == Diag(m)(k)
  {}

  lemma DiagonalGains(n: nat, m: Mat, p: nat, q: nat, c: real, s: real)
    requires IsPlane(n, p, q, c, s) && m(p, q) == m(q, p)
    requires Rotated(m, p, q, c, s)(p, q) == 0.0
    ensures Mass(n, Diag(Rotated(m, p, q, c, s))) == Mass(n, Diag(m)) + 2.0 * (m(p, q) * m(p, q))
  {
    hide Rotated, Mass;
    DiagonalElsewhere(m, p, q, c, s);
    MassTwoDiffer(n, Diag(m), Diag(Rotated(m, p, q, c, s)), p, q);
    DiagonalBlock(m, p, q, c, s);
  }

  /** The rotation that zeroes `m(p, q)` lowers the off-diagonal mass by twice its square. */
  lemma RotationLowersOff(n: nat, m: Mat, p: nat, q: nat, c: real, s: real)
    requires IsPlane(n, p, q, c, s) && m(p, q) == m(q, p)
    requires Rotated(m, p, q, c, s)(p, q) == 0.0
    ensures Off(n, Rotated(m, p, q, c, s)) == Off(n, m) - 2.0 * (m(p, q) * m(p, q))
  {
    hide Rotated, Off, Frobenius, Mass;
    RotationKeepsFrobenius(n, m, p, q, c, s);
    FrobeniusSplits(n, m);
    FrobeniusSplits(n, Rotated(m, p, q, c, s));
    DiagonalGains(n, m, p, q, c, s);
  }

  // ---- orthogonal similarity ------------------------------------------------------------------

  function Product(n: nat, a: Mat, b: Mat): Mat {
    (i: nat, j: nat) => Sum(n, Times(Row(a, i), Col(b, j)))
  }

  function Apply(n: nat, v: Mat, w: Vec): Vec {
    (i: nat) => Sum(n, Times(Row(v, i), w))
  }

  /** `v` keeps the length of every vector: its columns are orthonormal. */
  ghost predicate Isometry(n: nat, v: Mat) {
    forall w: Vec :: Mass(n, Apply(n, v, w)) == Mass(n, w)
  }

  /** `m v == v a`: with `v` an isometry, `a` is `m` seen in another orthonormal basis. */
  ghost predicate Similar(n: nat, m: Mat, v: Mat, a: Mat) {
    SameMat(n, Product(n, m, v), Product(n, v, a))
  }

  function Identity(): Mat {
    (i: nat, j: nat) => if i == j then 1.0 else 0.0
  }

  lemma IdentityIsSimilar(n: nat, m: Mat)
    ensures Similar(n, m, Identity(), m)
  {
    forall i: nat, j: nat | i < n && j < n ensures Product(n, m, Identity())(i, j) == Product(n, Identity(), m)(i, j) {
      SumPick(n, Times(Row(m, i), Col(Identity(), j)), j);
      SumPick(n, Times(Row(Identity(), i), Col(m, j)), i);
    }
  }

  lemma IdentityIsIsometry(n: nat)
    ensures Isometry(n, Identity())
  {
    forall w: Vec ensures Mass(n, Apply(n, Identity(), w)) == Mass(n, w) {
      forall i: nat | i < n ensures Apply(n, Identity(), w)(i) == w(i) {
        SumPick(n, Times(Row(Identity(), i), w), i);
      }
      SumSame(n, Times(Apply(n, Identity(), w), Apply(n, Identity(), w)), Times(w, w));
    }
  }

  /** Applying the rotated matrix is applying the old one to the vector turned back. */
  lemma ApplyRotated(n: nat, v: Mat, w: Vec, p: nat, q: nat, c: real, s: real, i: nat)
    requires IsPlane(n, p, q, c, s)
    ensures Apply(n, RotCols(v, p, q, c, s), w)(i) == Apply(n, v, Rot(w, p, q, c, -s))(i)
  {
    var u := Rot(w, p, q, c, -s);
    RotTurnsBack(w, p, q, c, s);
    RotKeepsDot(n, Row(v, i), u, p, q, c, s);
    TimesSame(n, Row(RotCols(v, p, q, c, s), i), w, Rot(Row(v, i), p, q, c, s), Rot(u, p, q, c, s));
  }

  lemma RotKeepsLength(n: nat, v: Mat, w: Vec, p: nat, q: nat, c: real, s: real)
    requires IsPlane(n, p, q, c, s) && Isometry(n, v)
    ensures Mass(n, Apply(n, RotCols(v, p, q, c, s), w)) == Mass(n, w)
  {
    var u := Rot(w, p, q, c, -s);
    var x, y := Apply(n, RotCols(v, p, q, c, s), w), Apply(n, v, u);
    forall i: nat | i < n ensures x(i) == y(i) {
      ApplyRotated(n, v, w, p, q, c, s, i);
    }
    SumSame(n, Times(x, x), Times(y, y));
    RotKeepsDot(n, w, w, p, q, c, -s);
    assert Mass(n, y) == Mass(n, u);
  }

  lemma RotKeepsIsometry(n: nat, v: Mat, p: nat, q: nat, c: real, s: real)
    requires IsPlane(n, p, q, c, s) && Isometry(n, v)
    ensures Isometry(n, RotCols(v, p, q, c, s))
  {
    forall w: Vec ensures Mass(n, Apply(n, RotCols(v, p, q, c, s), w)) == Mass(n, w) {
      RotKeepsLength(n, v, w, p, q, c, s);
    }
  }

  lemma RotTurnsBack(w: Vec, p: nat, q: nat, c: real, s: real)
    requires p != q && c * c + s * s == 1.0
    ensures forall k: nat :: Rot(Rot(w, p, q, c, -s), p, q, c, s)(k) == w(k)
  {
    var x, y := w(p), w(q);
    calc {
      c * (c * x - (-s) * y) - s * ((-s) * x + c * y);
      (c * c + s * s) * x;
      x;
    }
    calc {
      s * (c * x - (-s) * y) + c * ((-s) * x + c * y);
      (c * c + s * s) * y;
      y;
    }
  }

  /** The product with a combination of two columns is that combination of the products. */
  lemma ProductOfCombination(n: nat, f: Vec, x: real, g: Vec, y: real, h: Vec, w: Vec)
    requires forall k: nat :: k < n ==> w(k) == x * g(k) + y * h(k)
    ensures Sum(n, Times(f, w)) == x * Sum(n, Times(f, g)) + y * Sum(n, Times(f, h))
  {
    forall k: nat | k < n ensures Times(f, w)(k) == x * Times(f, g)(k) + y * Times(f, h)(k) {
      calc {
        f(k) * (x * g(k) + y * h(k));
        x * (f(k) * g(k)) + y * (f(k) * h(k));
      }
    }
    SumLinear(n, x, Times(f, g), y, Times(f, h), Times(f, w));
  }

  /** Rotating the columns of the right factor rotates the columns of the product. */
  lemma ProductRotates(n: nat, a: Mat, b: Mat, p: nat, q: nat, c: real, s: real, i: nat, j: nat)
    requires p != q
    ensures Product(n, a, RotCols(b, p, q, c, s))(i, j) == RotCols(Product(n, a, b), p, q, c, s)(i, j)
  {
    var f, w := Row(a, i), Col(RotCols(b, p, q, c, s), j);
    if j == p {
      ProductOfCombination(n, f, c, Col(b, p), -s, Col(b, q), w);
    } else if j == q {
      ProductOfCombination(n, f, s, Col(b, p), c, Col(b, q), w);
    } else {
      TimesSame(n, f, w, f, Col(b, j));
    }
  }

  /** A rotation between two factors cancels. */
  lemma RotCancels(n: nat, v: Mat, b: Mat, p: nat, q: nat, c: real, s: real, i: nat, j: nat)
    requires IsPlane(n, p, q, c, s)
    ensures Product(n, RotCols(v, p, q, c, s), RotRows(b, p, q, c, s))(i, j) == Product(n, v, b)(i, j)
  {
    var v', a' := RotCols(v, p, q, c, s), RotRows(b, p, q, c, s);
    RotKeepsDot(n, Row(v, i), Col(b, j), p, q, c, s);
    TimesSame(n, Row(v', i), Col(a', j), Rot(Row(v, i), p, q, c, s), Rot(Col(b, j), p, q, c, s));
  }

  lemma RotColsOfSame(n: nat, a: Mat, b: Mat, p: nat, q: nat, c: real, s: real)
    requires SameMat(n, a, b) && p < n && q < n
    ensures SameMat(n, RotCols(a, p, q, c, s), RotCols(b, p, q, c, s))
  {}

  lemma RotKeepsSimilarity(n: nat, m: Mat, v: Mat, a: Mat, p: nat, q: nat, c: real, s: real)
    requires IsPlane(n, p, q, c, s) && Similar(n, m, v, a)
    ensures Similar(n, m, RotCols(v, p, q, c, s), Rotated(a, p, q, c, s))
  {
    hide Product, RotCols, RotRows;
    var v', b := RotCols(v, p, q, c, s), RotCols(a, p, q, c, s);
    var a' := Rotated(a, p, q, c, s);
    RotColsOfSame(n, Product(n, m, v), Product(n, v, a), p, q, c, s);
    forall i: nat, j: nat | i < n && j < n ensures Product(n, m, v')(i, j) == Product(n, v', a')(i, j) {
      ProductRotates(n, m, v, p, q, c, s, i, j);
      ProductRotates(n, v, a, p, q, c, s, i, j);
      RotCancels(n, v, b, p, q, c, s, i, j);
    }
  }

  function Scaled(x: real, f: Vec): Vec {
    (k: nat) => x * f(k)
  }

  function Minus(f: Vec, g: Vec): Vec {
    (k: nat) => f(k) - g(k)
  }

  /** How far `v`'s length-one direction is from an eigenvector for `x`: `|m v - x v|` squared. */
  function Residual(n: nat, m: Mat, v: Vec, x: real): real {
    Mass(n, Minus(Apply(n, m, v), Scaled(x, v)))
  }

  function Unit(j: nat): Vec {
    (k: nat) => if k == j then 1.0 else 0.0
  }

  function OffCol(a: Mat, j: nat): Vec {
    (k: nat) => if k == j then 0.0 else a(k, j)
  }

  lemma ColumnHasLengthOne(n: nat, v: Mat, j: nat)
    requires Isometry(n, v) && j < n
    ensures Mass(n, Col(v, j)) == 1.0
  {
    var e := Unit(j);
    SumPick(n, Times(e, e), j);
    forall i: nat | i < n ensures Apply(n, v, e)(i) == Col(v, j)(i) {
      SumPick(n, Times(Row(v, i), e), j);
    }
    SumSame(n, Times(Apply(n, v, e), Apply(n, v, e)), Times(Col(v, j), Col(v, j)));
  }

  /** Each diagonal entry is an approximate eigenvalue: column `j` of the basis misses being an
      eigenvector for `a(j, j)` by exactly the off-diagonal mass of column `j`. */
  lemma DiagonalIsNearlyEigen(n: nat, m: Mat, v: Mat, a: Mat, j: nat)
    requires Isometry(n, v) && Similar(n, m, v, a) && j < n
    ensures Residual(n, m, Col(v, j), a(j, j)) == Mass(n, OffCol(a, j))
  {
    var w := OffCol(a, j);
    var x := a(j, j);
    var r := Minus(Apply(n, m, Col(v, j)), Scaled(x, Col(v, j)));
    forall i: nat | i < n ensures r(i) == Apply(n, v, w)(i) {
      assert Product(n, m, v)(i, j) == Product(n, v, a)(i, j);
      SumTwoDiffer(n, Times(Row(v, i), Col(a, j)), Times(Row(v, i), w), j, n);
    }
    SumSame(n, Times(r, r), Times(Apply(n, v, w), Apply(n, v, w)));
  }

  lemma ColumnMassIsBounded(n: nat, a: Mat, j: nat)
    requires Symmetric(n, a) && j < n
    ensures 0.0 <= Mass(n, OffCol(a, j)) <= Off(n, a)
  {
    forall k: nat | k < n ensures Times(OffCol(a, j), OffCol(a, j))(k) == OffRow(a, j)(k) {
      assert a(k, j) == a(j, k);
    }
    SumSame(n, Times(OffCol(a, j), OffCol(a, j)), OffRow(a, j));
    OffIsNonNegative(n, a);
    assert OffMasses(n, a)(j) <= Off(n, a);
    MassIsNonNegative(n, OffCol(a, j));
  }
}
