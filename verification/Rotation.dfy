/** The rotation conversions of mavlink_conversions.h, over the reals. */
module Rotation {

  /** A [w, x, y, z] quaternion. */
  type Quaternion = q: seq<real> | |q| == 4 witness [1.0, 0.0, 0.0, 0.0]

  function Norm2(q: Quaternion): real {
    Norm2OfParts(q[0], q[1], q[2], q[3])
  }

  function Negated(q: Quaternion): Quaternion {
    [-q[0], -q[1], -q[2], -q[3]]
  }

  /** A 3x3 matrix, row by row. */
  datatype Matrix = Matrix(m00: real, m01: real, m02: real, m10: real, m11: real, m12: real, m20: real, m21: real,
      m22: real)
  {
    function At(i: nat, j: nat): real
      requires i < 3 && j < 3
    {
      if i == 0 then if j == 0 then m00 else if j == 1 then m01 else m02
      else if i == 1 then if j == 0 then m10 else if j == 1 then m11 else m12
      else if j == 0 then m20 else if j == 1 then m21 else m22
    }

    function Trace(): real {
      m00 + m11 + m22
    }

    /** The inner product of two rows. */
    function RowProduct(i: nat, j: nat): real
      requires i < 3 && j < 3
    {
      Dot(At(i, 0), At(i, 1), At(i, 2), At(j, 0), At(j, 1), At(j, 2))
    }

    function Determinant(): real {
      m00 * Minor(m11, m12, m21, m22) - m01 * Minor(m10, m12, m20, m22) + m02 * Minor(m10, m11, m20, m21)
    }
  }

  function Dot(x: real, y: real, z: real, x': real, y': real, z': real): real {
    x * x' + y * y' + z * z'
  }

  function Minor(x: real, y: real, x': real, y': real): real {
    x * y' - y * x'
  }

  function Times(x: real, y: real): real {
    x * y
  }

  ghost function View(a: array2<real>): Matrix
    requires a.Length0 == 3 && a.Length1 == 3
    reads a
  {
    Matrix(a[0, 0], a[0, 1], a[0, 2], a[1, 0], a[1, 1], a[1, 2], a[2, 0], a[2, 1], a[2, 2])
  }

  // ----- quaternion to matrix -----

  function DcmOf(q: Quaternion): Matrix {
    DcmOfParts(q[0], q[1], q[2], q[3])
  }

  function DcmOfParts(a: real, b: real, c: real, d: real): Matrix {
    Matrix(a * a + b * b - c * c - d * d, 2.0 * (b * c - a * d), 2.0 * (a * c + b * d),
           2.0 * (b * c + a * d), a * a - b * b + c * c - d * d, 2.0 * (c * d - a * b),
           2.0 * (b * d - a * c), 2.0 * (a * b + c * d), a * a - b * b - c * c + d * d)
  }

  /** `mavlink_quaternion_to_dcm` */
  method QuaternionToDcm(quaternion: array<real>, dcm: array2<real>)
    requires quaternion.Length == 4 && dcm.Length0 == 3 && dcm.Length1 == 3
    modifies dcm
    ensures View(dcm) == DcmOf(quaternion[..])
  {
    var m := DcmEntries(quaternion[0], quaternion[1], quaternion[2], quaternion[3]);
    Fill(dcm, m);
  }

  method DcmEntries(a: real, b: real, c: real, d: real) returns (m: Matrix)
    ensures m == DcmOfParts(a, b, c, d)
  {
    var aSq, bSq, cSq, dSq := a * a, b * b, c * c, d * d;
    m := Matrix(aSq + bSq - cSq - dSq, 2.0 * (b * c - a * d), 2.0 * (a * c + b * d),
                2.0 * (b * c + a * d), aSq - bSq + cSq - dSq, 2.0 * (c * d - a * b),
                2.0 * (b * d - a * c), 2.0 * (a * b + c * d), aSq - bSq - cSq + dSq);
  }

  method Fill(dcm: array2<real>, m: Matrix)
    requires dcm.Length0 == 3 && dcm.Length1 == 3
    modifies dcm
    ensures View(dcm) == m
  {
    dcm[0, 0] := m.m00;
    dcm[0, 1] := m.m01;
    dcm[0, 2] := m.m02;
    dcm[1, 0] := m.m10;
    dcm[1, 1] := m.m11;
    dcm[1, 2] := m.m12;
    dcm[2, 0] := m.m20;
    dcm[2, 1] := m.m21;
    dcm[2, 2] := m.m22;
  }

  function Norm2OfParts(a: real, b: real, c: real, d: real): real {
    a * a + b * b + c * c + d * d
  }

  // The first row of the matrix; cycling b, c, d gives the other two, cycled.
  predicate FirstRow(a: real, b: real, c: real, d: real, x: real, y: real, z: real) {
    x == a * a + b * b - c * c - d * d && y == 2.0 * (b * c - a * d) && z == 2.0 * (a * c + b * d)
  }

  lemma Rows(a: real, b: real, c: real, d: real)
    ensures var m := DcmOfParts(a, b, c, d);
      && FirstRow(a, b, c, d, m.m00, m.m01, m.m02)
      && FirstRow(a, c, d, b, m.m11, m.m12, m.m10)
      && FirstRow(a, d, b, c, m.m22, m.m20, m.m21)
    ensures Norm2OfParts(a, b, c, d) == Norm2OfParts(a, c, d, b) == Norm2OfParts(a, d, b, c)
  {
  }

  lemma RowLength(a: real, b: real, c: real, d: real, x: real, y: real, z: real, n: real)
    requires FirstRow(a, b, c, d, x, y, z) && n == Norm2OfParts(a, b, c, d)
    ensures Dot(x, y, z, x, y, z) == n * n
  {
  }

  lemma RowMix(a: real, b: real, c: real, d: real, x: real, y: real, z: real, x': real, y': real, z': real)
    requires FirstRow(a, b, c, d, x, y, z) && FirstRow(a, c, d, b, y', z', x')
    ensures Dot(x, y, z, x', y', z') == 0.0
  {
  }

  lemma DotCommutes(x: real, y: real, z: real, x': real, y': real, z': real)
    ensures Dot(x, y, z, x', y', z') == Dot(x', y', z', x, y, z)
    ensures Dot(x, y, z, x', y', z') == Dot(y, z, x, y', z', x') == Dot(z, x, y, z', x', y')
  {
  }

  /** The rows are orthogonal and of length |q|^2: R R^T = |q|^4 I. */
  lemma RowsAreOrthogonal(q: Quaternion, i: nat, j: nat)
    requires i < 3 && j < 3
    ensures DcmOf(q).RowProduct(i, j) == if i == j then Norm2(q) * Norm2(q) else 0.0
  {
    hide DcmOfParts, Norm2OfParts, FirstRow, Dot;
    var a, b, c, d, m, n := q[0], q[1], q[2], q[3], DcmOf(q), Norm2(q);
    Rows(a, b, c, d);
    DotCommutes(m.At(i, 0), m.At(i, 1), m.At(i, 2), m.At(j, 0), m.At(j, 1), m.At(j, 2));
    DotCommutes(m.At(j, 0), m.At(j, 1), m.At(j, 2), m.At(i, 0), m.At(i, 1), m.At(i, 2));
    if i == j {
      RowLength(a, b, c, d, m.m00, m.m01, m.m02, n);
      RowLength(a, c, d, b, m.m11, m.m12, m.m10, n);
      RowLength(a, d, b, c, m.m22, m.m20, m.m21, n);
    } else {
      RowMix(a, b, c, d, m.m00, m.m01, m.m02, m.m10, m.m11, m.m12);
      RowMix(a, c, d, b, m.m11, m.m12, m.m10, m.m21, m.m22, m.m20);
      RowMix(a, d, b, c, m.m22, m.m20, m.m21, m.m02, m.m00, m.m01);
    }
  }

  lemma CrossX(a: real, b: real, c: real, d: real, y: real, z: real, y': real, z': real, x'': real, n: real)
    requires y == 2.0 * (b * c - a * d) && z == 2.0 * (a * c + b * d)
    requires y' == a * a - b * b + c * c - d * d && z' == 2.0 * (c * d - a * b)
    requires x'' == 2.0 * (b * d - a * c) && n == Norm2OfParts(a, b, c, d)
    ensures Minor(y, z, y', z') == Times(n, x'')
  {
  }

  lemma CrossY(a: real, b: real, c: real, d: real, x: real, z: real, x': real, z': real, y'': real, n: real)
    requires x == a * a + b * b - c * c - d * d && z == 2.0 * (a * c + b * d)
    requires x' == 2.0 * (b * c + a * d) && z' == 2.0 * (c * d - a * b)
    requires y'' == 2.0 * (a * b + c * d) && n == Norm2OfParts(a, b, c, d)
    ensures Minor(x, z, x', z') == Times(n, -y'')
  {
  }

  lemma CrossZ(a: real, b: real, c: real, d: real, x: real, y: real, x': real, y': real, z'': real, n: real)
    requires x == a * a + b * b - c * c - d * d && y == 2.0 * (b * c - a * d)
    requires x' == 2.0 * (b * c + a * d) && y' == a * a - b * b + c * c - d * d
    requires z'' == a * a - b * b - c * c + d * d && n == Norm2OfParts(a, b, c, d)
    ensures Minor(x, y, x', y') == Times(n, z'')
  {
  }

  // The cross product of the first two rows is |q|^2 times the third.
  lemma RowCross(a: real, b: real, c: real, d: real)
    ensures var m, n := DcmOfParts(a, b, c, d), Norm2OfParts(a, b, c, d);
      && Minor(m.m01, m.m02, m.m11, m.m12) == Times(n, m.m20)
      && Minor(m.m00, m.m02, m.m10, m.m12) == Times(n, -m.m21)
      && Minor(m.m00, m.m01, m.m10, m.m11) == Times(n, m.m22)
  {
    hide Minor, Norm2OfParts, Times;
    var m, n := DcmOfParts(a, b, c, d), Norm2OfParts(a, b, c, d);
    CrossX(a, b, c, d, m.m01, m.m02, m.m11, m.m12, m.m20, n);
    CrossY(a, b, c, d, m.m00, m.m02, m.m10, m.m12, m.m21, n);
    CrossZ(a, b, c, d, m.m00, m.m01, m.m10, m.m11, m.m22, n);
  }

  // The determinant by its last row.
  lemma Expansion(m: Matrix)
    ensures m.Determinant() == Times(m.m20, Minor(m.m01, m.m02, m.m11, m.m12))
      - Times(m.m21, Minor(m.m00, m.m02, m.m10, m.m12)) + Times(m.m22, Minor(m.m00, m.m01, m.m10, m.m11))
  {
    var x, y, z, x', y', z', x'', y'', z'' := m.m00, m.m01, m.m02, m.m10, m.m11, m.m12, m.m20, m.m21, m.m22;
    assert x * (y' * z'' - z' * y'') - y * (x' * z'' - z' * x'') + z * (x' * y'' - y' * x'')
        == x'' * (y * z' - z * y') - y'' * (x * z' - z * x') + z'' * (x * y' - y * x');
  }

  lemma Factor(n: real, x: real, y: real, z: real)
    ensures Times(x, Times(n, x)) - Times(y, Times(n, -y)) + Times(z, Times(n, z)) == n * Dot(x, y, z, x, y, z)
  {
    assert x * (n * x) - y * (n * -y) + z * (n * z) == n * (x * x + y * y + z * z);
  }

  /** det R = |q|^6, so a unit quaternion gives a rotation and no reflection. */
  lemma DeterminantIsCube(q: Quaternion)
    ensures DcmOf(q).Determinant() == Norm2(q) * (Norm2(q) * Norm2(q))
  {
    hide DcmOfParts, Norm2OfParts, FirstRow, Minor, Times, Matrix.Determinant, Dot;
    var m := DcmOf(q);
    RowCross(q[0], q[1], q[2], q[3]);
    Expansion(m);
    Factor(Norm2(q), m.m20, m.m21, m.m22);
    RowsAreOrthogonal(q, 2, 2);
  }

  function Dot4(p0: real, p1: real, p2: real, p3: real, q0: real, q1: real, q2: real, q3: real): real {
    p0 * q0 + p1 * q1 + p2 * q2 + p3 * q3
  }

  /** The Hamilton product. */
  function Hamilton(p: Quaternion, q: Quaternion): Quaternion {
    [Dot4(p[0], p[1], p[2], p[3], q[0], -q[1], -q[2], -q[3]),
     Dot4(p[0], p[1], p[2], p[3], q[1], q[0], q[3], -q[2]),
     Dot4(p[0], p[1], p[2], p[3], q[2], -q[3], q[0], q[1]),
     Dot4(p[0], p[1], p[2], p[3], q[3], q[2], -q[1], q[0])]
  }

  lemma Dot4Cycles(p0: real, p1: real, p2: real, p3: real, q0: real, q1: real, q2: real, q3: real)
    ensures Dot4(p0, p1, p2, p3, q0, q1, q2, q3) == Dot4(p0, p2, p3, p1, q0, q2, q3, q1)
    ensures Dot4(p0, p1, p2, p3, q0, q1, q2, q3) == Dot4(p0, p3, p1, p2, q0, q3, q1, q2)
  {
  }

  // One coordinate of the conjugation by a, b, c, d; cycling gives the others.
  lemma Conjugation(a: real, b: real, c: real, d: real, x: real, y: real, z: real, r: real, s: real, t: real, u: real)
    requires r == -b * x - c * y - d * z && s == a * x + c * z - d * y
    requires t == a * y - b * z + d * x && u == a * z + b * y - c * x
    ensures r * a + s * b + t * c + u * d == 0.0
    ensures -r * b + s * a - t * d + u * c ==
      (a * a + b * b - c * c - d * d) * x + 2.0 * (b * c - a * d) * y + 2.0 * (a * c + b * d) * z
  {
  }

  lemma DotOf(x'': real, y'': real, z'': real, x': real, y': real, z': real, x: real, y: real, z: real)
    requires x' == x'' && y' == y'' && z' == z''
    ensures x'' * x + y'' * y + z'' * z == Dot(x', y', z', x, y, z)
  {
  }

  predicate LeftProduct(a: real, b: real, c: real, d: real, x: real, y: real, z: real, r: real, s: real, t: real,
      u: real) {
    && r == Dot4(a, b, c, d, 0.0, -x, -y, -z) && s == Dot4(a, b, c, d, x, 0.0, z, -y)
    && t == Dot4(a, b, c, d, y, -z, 0.0, x) && u == Dot4(a, b, c, d, z, y, -x, 0.0)
  }

  lemma LeftProductCycles(a: real, b: real, c: real, d: real, x: real, y: real, z: real, r: real, s: real, t: real,
      u: real)
    requires LeftProduct(a, b, c, d, x, y, z, r, s, t, u)
    ensures LeftProduct(a, c, d, b, y, z, x, r, t, u, s) && LeftProduct(a, d, b, c, z, x, y, r, u, s, t)
  {
  }

  lemma LeftProductParts(a: real, b: real, c: real, d: real, x: real, y: real, z: real, r: real, s: real, t: real,
      u: real)
    requires LeftProduct(a, b, c, d, x, y, z, r, s, t, u)
    ensures r == -b * x - c * y - d * z && s == a * x + c * z - d * y
    ensures t == a * y - b * z + d * x && u == a * z + b * y - c * x
  {
  }

  lemma RightProductParts(a: real, b: real, c: real, d: real, r: real, s: real, t: real, u: real)
    ensures Dot4(r, s, t, u, a, b, c, d) == r * a + s * b + t * c + u * d
    ensures Dot4(r, s, t, u, -b, a, -d, c) == -r * b + s * a - t * d + u * c
  {
  }

  lemma RotatedCoordinate(a: real, b: real, c: real, d: real, x: real, y: real, z: real,
                          r: real, s: real, t: real, u: real, x': real, y': real, z': real)
    requires LeftProduct(a, b, c, d, x, y, z, r, s, t, u) && FirstRow(a, b, c, d, x', y', z')
    ensures Dot4(r, s, t, u, a, b, c, d) == 0.0
    ensures Dot4(r, s, t, u, -b, a, -d, c) == Dot(x', y', z', x, y, z)
  {
    hide Dot, Dot4, LeftProduct;
    LeftProductParts(a, b, c, d, x, y, z, r, s, t, u);
    RightProductParts(a, b, c, d, r, s, t, u);
    Conjugation(a, b, c, d, x, y, z, r, s, t, u);
    DotOf(a * a + b * b - c * c - d * d, 2.0 * (b * c - a * d), 2.0 * (a * c + b * d), x', y', z', x, y, z);
  }

  lemma Rotated(a: real, b: real, c: real, d: real, x: real, y: real, z: real,
                r: real, s: real, t: real, u: real, m: Matrix)
    requires LeftProduct(a, b, c, d, x, y, z, r, s, t, u) && m == DcmOfParts(a, b, c, d)
    ensures Dot4(r, s, t, u, a, b, c, d) == 0.0
    ensures Dot4(r, s, t, u, -b, a, -d, c) == Dot(m.m00, m.m01, m.m02, x, y, z)
    ensures Dot4(r, s, t, u, -c, d, a, -b) == Dot(m.m10, m.m11, m.m12, x, y, z)
    ensures Dot4(r, s, t, u, -d, -c, b, a) == Dot(m.m20, m.m21, m.m22, x, y, z)
  {
    hide DcmOfParts, FirstRow, LeftProduct, Dot, Dot4, Norm2OfParts;
    Rows(a, b, c, d);
    LeftProductCycles(a, b, c, d, x, y, z, r, s, t, u);
    RotatedCoordinate(a, b, c, d, x, y, z, r, s, t, u, m.m00, m.m01, m.m02);
    RotatedCoordinate(a, c, d, b, y, z, x, r, t, u, s, m.m11, m.m12, m.m10);
    RotatedCoordinate(a, d, b, c, z, x, y, r, u, s, t, m.m22, m.m20, m.m21);
    DotCommutes(m.m10, m.m11, m.m12, x, y, z);
    DotCommutes(m.m20, m.m21, m.m22, x, y, z);
    Dot4Cycles(r, s, t, u, -c, d, a, -b);
    Dot4Cycles(r, s, t, u, -d, -c, b, a);
  }

  /** The matrix is the rotation of the quaternion: applied to (x, y, z) it gives q (0, x, y, z) q*. */
  lemma DcmRotates(q: Quaternion, x: real, y: real, z: real)
    ensures Hamilton(Hamilton(q, [0.0, x, y, z]), [q[0], -q[1], -q[2], -q[3]]) ==
      var m := DcmOf(q);
      [0.0, Dot(m.m00, m.m01, m.m02, x, y, z), Dot(m.m10, m.m11, m.m12, x, y, z), Dot(m.m20, m.m21, m.m22, x, y, z)]
  {
    hide DcmOfParts, Dot, Dot4;
    var p := Hamilton(q, [0.0, x, y, z]);
    Rotated(q[0], q[1], q[2], q[3], x, y, z, p[0], p[1], p[2], p[3], DcmOf(q));
  }

  // ----- matrix to quaternion -----

  /** The square root of the idealised `sqrtf`. */
  ghost predicate IsSqrt(sqrt: real -> real) {
    forall x :: x >= 0.0 ==> sqrt(x) >= 0.0 && sqrt(x) * sqrt(x) == x
  }

  /** The index of the first greatest diagonal element. */
  function MaxDiagonal(m: Matrix): (i: nat)
    ensures i < 3 && m.At(i, i) >= m.m00 && m.At(i, i) >= m.m11 && m.At(i, i) >= m.m22
    ensures forall j :: 0 <= j < i ==> m.At(j, j) < m.At(i, i)
  {
    var i := if m.m11 > m.m00 then 1 else 0;
    if m.m22 > m.At(i, i) then 2 else i
  }

  /** What the square root is taken of in the second branch. */
  function Radicand(m: Matrix): real {
    var i := MaxDiagonal(m);
    m.At(i, i) - m.At((i + 1) % 3, (i + 1) % 3) - m.At((i + 2) % 3, (i + 2) % 3) + 1.0
  }

  /** Whatever the matrix, neither branch divides by zero: both radicands are at least one. */
  lemma RadicandsAreSafe(m: Matrix)
    ensures m.Trace() > 0.0 ==> m.Trace() + 1.0 > 1.0
    ensures m.Trace() <= 0.0 ==> Radicand(m) >= 1.0
  {
    var i := MaxDiagonal(m);
    assert Radicand(m) == 2.0 * m.At(i, i) - m.Trace() + 1.0;
  }

  predicate IsRoot(s: real, x: real) {
    s > 0.0 && s * s == x
  }

  lemma ZeroOrPositive(r: real)
    requires r >= 0.0
    ensures r > 0.0 || r * r == 0.0
  {
    if r == 0.0 {
      assert r * r == r * 0.0;
    }
  }

  lemma RootIsPositive(sqrt: real -> real, x: real)
    requires IsSqrt(sqrt) && x >= 1.0
    ensures sqrt(x) > 0.0 && IsRoot(sqrt(x), x)
  {
    ZeroOrPositive(sqrt(x));
  }

  /** x times the reciprocal of twice s. */
  function Halved(x: real, s: real): real
    requires s != 0.0
  {
    x * (0.5 / s)
  }

  lemma HalvedIs(x: real, root: real, s: real)
    requires root != 0.0 && s == 0.5 / root
    ensures x * s == Halved(x, root)
  {
  }

  function ByTrace(m: Matrix, s: real): Quaternion
    requires s != 0.0
  {
    [s * 0.5, Halved(m.m21 - m.m12, s), Halved(m.m02 - m.m20, s), Halved(m.m10 - m.m01, s)]
  }

  function ByDiagonal(m: Matrix, i: nat, s: real): Quaternion
    requires s != 0.0 && i < 3
  {
    var j, k := (i + 1) % 3, (i + 2) % 3;
    [0.0, 0.0, 0.0, 0.0][i + 1 := s * 0.5][j + 1 := Halved(m.At(i, j) + m.At(j, i), s)]
      [k + 1 := Halved(m.At(k, i) + m.At(i, k), s)][0 := Halved(m.At(k, j) - m.At(j, k), s)]
  }

  ghost function QuaternionOf(m: Matrix, sqrt: real -> real): Quaternion
    requires IsSqrt(sqrt)
  {
    RadicandsAreSafe(m);
    if m.Trace() > 0.0 then
      RootIsPositive(sqrt, m.Trace() + 1.0);
      ByTrace(m, sqrt(m.Trace() + 1.0))
    else
      RootIsPositive(sqrt, Radicand(m));
      ByDiagonal(m, MaxDiagonal(m), sqrt(Radicand(m)))
  }

  /** `mavlink_dcm_to_quaternion` */
  method DcmToQuaternion(dcm: array2<real>, quaternion: array<real>, sqrt: real -> real)
    requires dcm.Length0 == 3 && dcm.Length1 == 3 && quaternion.Length == 4 && IsSqrt(sqrt)
    modifies quaternion
    ensures quaternion[..] == QuaternionOf(View(dcm), sqrt)
    ensures forall p: Quaternion :: Norm2(p) == 1.0 && DcmOf(p) == View(dcm) ==>
      quaternion[..] == p || quaternion[..] == Negated(p)
  {
    hide Norm2OfParts, DcmOfParts, ByTrace, ByDiagonal;
    ghost var m := View(dcm);
    RadicandsAreSafe(m);
    var tr := dcm[0, 0] + dcm[1, 1] + dcm[2, 2];
    if tr > 0.0 {
      RootIsPositive(sqrt, m.Trace() + 1.0);
      FillByTrace(dcm, quaternion, sqrt(tr + 1.0));
    } else {
      var dcm_i := 0;
      for i := 1 to 3
        invariant dcm_i == (if i == 1 then 0 else if i == 2 then (if m.m11 > m.m00 then 1 else 0) else MaxDiagonal(m))
      {
        if dcm[i, i] > dcm[dcm_i, dcm_i] {
          dcm_i := i;
        }
      }
      var dcm_j := (dcm_i + 1) % 3;
      var dcm_k := (dcm_i + 2) % 3;
      RootIsPositive(sqrt, Radicand(m));
      var s := sqrt((dcm[dcm_i, dcm_i] - dcm[dcm_j, dcm_j] - dcm[dcm_k, dcm_k]) + 1.0);
      FillByDiagonal(dcm, quaternion, dcm_i, dcm_j, dcm_k, s);
    }
    RoundTrips(m, sqrt);
  }

  lemma SameParts(p: Quaternion, q: Quaternion)
    requires p[0] == q[0] && p[1] == q[1] && p[2] == q[2] && p[3] == q[3]
    ensures p == q
  {
  }

  /** The first branch, once the square root is taken: its value and then its halved reciprocal share a variable. */
  method FillByTrace(dcm: array2<real>, quaternion: array<real>, root: real)
    requires dcm.Length0 == 3 && dcm.Length1 == 3 && quaternion.Length == 4 && root != 0.0
    modifies quaternion
    ensures quaternion[..] == ByTrace(View(dcm), root)
  {
    hide Halved;
    var s := root;
    quaternion[0] := s * 0.5;
    s := 0.5 / s;
    quaternion[1] := (dcm[2, 1] - dcm[1, 2]) * s;
    quaternion[2] := (dcm[0, 2] - dcm[2, 0]) * s;
    quaternion[3] := (dcm[1, 0] - dcm[0, 1]) * s;
    HalvedIs(dcm[2, 1] - dcm[1, 2], root, s);
    HalvedIs(dcm[0, 2] - dcm[2, 0], root, s);
    HalvedIs(dcm[1, 0] - dcm[0, 1], root, s);
    SameParts(quaternion[..], ByTrace(View(dcm), root));
  }

  /** The second branch, once the square root is taken; the indices of the writes are computed. */
  method FillByDiagonal(dcm: array2<real>, quaternion: array<real>, dcm_i: nat, dcm_j: nat, dcm_k: nat, root: real)
    requires dcm.Length0 == 3 && dcm.Length1 == 3 && quaternion.Length == 4 && root != 0.0
    requires dcm_i < 3 && dcm_j == (dcm_i + 1) % 3 && dcm_k == (dcm_i + 2) % 3
    modifies quaternion
    ensures quaternion[..] == ByDiagonal(View(dcm), dcm_i, root)
  {
    hide Halved;
    var s := root;
    quaternion[dcm_i + 1] := s * 0.5;
    s := 0.5 / s;
    quaternion[dcm_j + 1] := (dcm[dcm_i, dcm_j] + dcm[dcm_j, dcm_i]) * s;
    quaternion[dcm_k + 1] := (dcm[dcm_k, dcm_i] + dcm[dcm_i, dcm_k]) * s;
    quaternion[0] := (dcm[dcm_k, dcm_j] - dcm[dcm_j, dcm_k]) * s;
    HalvedIs(dcm[dcm_i, dcm_j] + dcm[dcm_j, dcm_i], root, s);
    HalvedIs(dcm[dcm_k, dcm_i] + dcm[dcm_i, dcm_k], root, s);
    HalvedIs(dcm[dcm_k, dcm_j] - dcm[dcm_j, dcm_k], root, s);
    SameParts(quaternion[..], ByDiagonal(View(dcm), dcm_i, root));
  }

  lemma EitherSign(s: real, t: real)
    requires IsRoot(s, Quad(t, t))
    ensures s == 2.0 * t || s == -2.0 * t
  {
    var u, v := s - 2.0 * t, s + 2.0 * t;
    assert u * v == s * s - 4.0 * t * t;
    ZeroProduct(u, v);
  }

  lemma ZeroProduct(u: real, v: real)
    requires u * v == 0.0
    ensures u == 0.0 || v == 0.0
  {
  }

  lemma Rearrange(t: real, u: real, r: real)
    ensures (4.0 * t * u) * r == 4.0 * u * (t * r)
  {
  }

  // From s = 2t or s = -2t, the other components come out with the sign of t.
  lemma Quotient(s: real, t: real, u: real)
    requires s > 0.0 && (s == 2.0 * t || s == -2.0 * t)
    ensures s * 0.5 == (if s == 2.0 * t then t else -t)
    ensures Halved(Quad(t, u), s) == if s == 2.0 * t then u else -u
  {
    var r := 0.5 / s;
    assert r * s == 0.5;
    Rearrange(t, u, r);
    if s == 2.0 * t {
      assert t * r == 0.25;
    } else {
      assert t * r == -0.25;
    }
  }

  // What the second branch finds when b is the component of the greatest diagonal element.
  function Quad(t: real, u: real): real {
    4.0 * t * u
  }

  predicate Entries(a: real, b: real, c: real, d: real, x: real, y: real, z: real,
                    x': real, y': real, z': real, x'': real, y'': real, z'': real) {
    && x - y' - z'' + 1.0 == Quad(b, b)
    && y + x' == Quad(b, c)
    && x'' + z == Quad(b, d)
    && y'' - z' == Quad(b, a)
    && x + y' + z'' + 1.0 == Quad(a, a)
    && y'' - z' == Quad(a, b)
  }

  lemma EntriesOf(a: real, b: real, c: real, d: real, x: real, y: real, z: real,
                  x': real, y': real, z': real, x'': real, y'': real, z'': real)
    requires Norm2OfParts(a, b, c, d) == 1.0
    requires FirstRow(a, b, c, d, x, y, z) && FirstRow(a, c, d, b, y', z', x') && FirstRow(a, d, b, c, z'', x'', y'')
    ensures Entries(a, b, c, d, x, y, z, x', y', z', x'', y'', z'')
  {
  }

  lemma AllEntries(q: Quaternion)
    requires Norm2(q) == 1.0
    ensures var m := DcmOf(q);
      && Entries(q[0], q[1], q[2], q[3], m.m00, m.m01, m.m02, m.m10, m.m11, m.m12, m.m20, m.m21, m.m22)
      && Entries(q[0], q[2], q[3], q[1], m.m11, m.m12, m.m10, m.m21, m.m22, m.m20, m.m01, m.m02, m.m00)
      && Entries(q[0], q[3], q[1], q[2], m.m22, m.m20, m.m21, m.m02, m.m00, m.m01, m.m12, m.m10, m.m11)
  {
    hide FirstRow, DcmOfParts, Entries, Norm2OfParts, Quad;
    var a, b, c, d, m := q[0], q[1], q[2], q[3], DcmOf(q);
    Rows(a, b, c, d);
    EntriesOf(a, b, c, d, m.m00, m.m01, m.m02, m.m10, m.m11, m.m12, m.m20, m.m21, m.m22);
    EntriesOf(a, c, d, b, m.m11, m.m12, m.m10, m.m21, m.m22, m.m20, m.m01, m.m02, m.m00);
    EntriesOf(a, d, b, c, m.m22, m.m20, m.m21, m.m02, m.m00, m.m01, m.m12, m.m10, m.m11);
  }

  /** Rotation round trip: a unit quaternion comes back from its matrix up to sign, in every branch. */
  lemma RoundTrip(q: Quaternion, sqrt: real -> real)
    requires Norm2(q) == 1.0 && IsSqrt(sqrt)
    ensures QuaternionOf(DcmOf(q), sqrt) == q || QuaternionOf(DcmOf(q), sqrt) == Negated(q)
  {
    hide DcmOfParts, Halved, Norm2OfParts, Entries;
    var m := DcmOf(q);
    AllEntries(q);
    if m.Trace() > 0.0 {
      RoundTripByTrace(q, m, sqrt);
    } else {
      RoundTripByDiagonal(q, m, sqrt, MaxDiagonal(m));
    }
  }

  /** The component that is taken from the square root: w, or that of the greatest diagonal element. */
  function Pivot(m: Matrix): (p: nat)
    ensures p < 4
  {
    if m.Trace() > 0.0 then 0 else MaxDiagonal(m) + 1
  }

  /** For every matrix that component of the result is positive. */
  lemma PivotIsPositive(m: Matrix, sqrt: real -> real)
    requires IsSqrt(sqrt)
    ensures QuaternionOf(m, sqrt)[Pivot(m)] > 0.0
  {
    hide Halved, IsRoot;
    RadicandsAreSafe(m);
    if m.Trace() > 0.0 {
      RootIsPositive(sqrt, m.Trace() + 1.0);
    } else {
      RootIsPositive(sqrt, Radicand(m));
    }
  }

  /** So the sign of the round trip is decided: of q and -q it is the one whose component there is positive. */
  lemma RoundTripExactly(q: Quaternion, sqrt: real -> real)
    requires Norm2(q) == 1.0 && IsSqrt(sqrt)
    ensures var p := Pivot(DcmOf(q));
      q[p] != 0.0 && QuaternionOf(DcmOf(q), sqrt) == if q[p] > 0.0 then q else Negated(q)
  {
    hide DcmOf, QuaternionOf, Norm2, Pivot;
    RoundTrip(q, sqrt);
    PivotIsPositive(DcmOf(q), sqrt);
  }

  lemma RoundTrips(m: Matrix, sqrt: real -> real)
    requires IsSqrt(sqrt)
    ensures forall p: Quaternion :: Norm2(p) == 1.0 && DcmOf(p) == m ==>
      QuaternionOf(m, sqrt) == p || QuaternionOf(m, sqrt) == Negated(p)
  {
    hide *;
    forall p: Quaternion | Norm2(p) == 1.0 && DcmOf(p) == m
      ensures QuaternionOf(m, sqrt) == p || QuaternionOf(m, sqrt) == Negated(p)
    {
      RoundTrip(p, sqrt);
    }
  }

  lemma RoundTripByTrace(q: Quaternion, m: Matrix, sqrt: real -> real)
    requires IsSqrt(sqrt) && m.Trace() > 0.0
    requires Entries(q[0], q[1], q[2], q[3], m.m00, m.m01, m.m02, m.m10, m.m11, m.m12, m.m20, m.m21, m.m22)
    requires Entries(q[0], q[2], q[3], q[1], m.m11, m.m12, m.m10, m.m21, m.m22, m.m20, m.m01, m.m02, m.m00)
    requires Entries(q[0], q[3], q[1], q[2], m.m22, m.m20, m.m21, m.m02, m.m00, m.m01, m.m12, m.m10, m.m11)
    ensures QuaternionOf(m, sqrt) == q || QuaternionOf(m, sqrt) == Negated(q)
  {
    hide Halved, Quad, IsRoot;
    RootIsPositive(sqrt, m.Trace() + 1.0);
    BySign(sqrt(m.Trace() + 1.0), q[0], q[1], q[2], q[3]);
  }

  lemma RoundTripByDiagonal(q: Quaternion, m: Matrix, sqrt: real -> real, i: nat)
    requires IsSqrt(sqrt) && m.Trace() <= 0.0 && i == MaxDiagonal(m)
    requires Entries(q[0], q[1], q[2], q[3], m.m00, m.m01, m.m02, m.m10, m.m11, m.m12, m.m20, m.m21, m.m22)
    requires Entries(q[0], q[2], q[3], q[1], m.m11, m.m12, m.m10, m.m21, m.m22, m.m20, m.m01, m.m02, m.m00)
    requires Entries(q[0], q[3], q[1], q[2], m.m22, m.m20, m.m21, m.m02, m.m00, m.m01, m.m12, m.m10, m.m11)
    ensures QuaternionOf(m, sqrt) == q || QuaternionOf(m, sqrt) == Negated(q)
  {
    hide Halved, Quad, IsRoot;
    RadicandsAreSafe(m);
    RootIsPositive(sqrt, Radicand(m));
    BySign(sqrt(Radicand(m)), q[i + 1], q[(i + 1) % 3 + 1], q[(i + 2) % 3 + 1], q[0]);
  }

  lemma BySign(s: real, t: real, u: real, v: real, w: real)
    requires s > 0.0 && IsRoot(s, Quad(t, t))
    ensures
      || (s * 0.5 == t && Halved(Quad(t, u), s) == u && Halved(Quad(t, v), s) == v && Halved(Quad(t, w), s) == w)
      || (s * 0.5 == -t && Halved(Quad(t, u), s) == -u && Halved(Quad(t, v), s) == -v && Halved(Quad(t, w), s) == -w)
  {
    hide Halved, Quad;
    EitherSign(s, t);
    Quotient(s, t, u);
    Quotient(s, t, v);
    Quotient(s, t, w);
  }

  // ----- Euler angles -----

  // The cosine and sine of twice an angle.
  function CosTwice(c: real, s: real): real {
    c * c - s * s
  }

  function SinTwice(c: real, s: real): real {
    2.0 * s * c
  }

  function Unit(c: real, s: real): real {
    c * c + s * s
  }

  /** What is used of `cosf` and `sinf` at an angle and at its half. */
  ghost predicate TrigAt(cos: real -> real, sin: real -> real, angle: real) {
    var c, s := cos(angle / 2.0), sin(angle / 2.0);
    Unit(c, s) == 1.0 && cos(angle) == CosTwice(c, s) && sin(angle) == SinTwice(c, s)
  }

  function QuaternionOfEuler(c1: real, s1: real, c2: real, s2: real, c3: real, s3: real): Quaternion {
    [c1 * c2 * c3 + s1 * s2 * s3, s1 * c2 * c3 - c1 * s2 * s3,
     c1 * s2 * c3 + s1 * c2 * s3, c1 * c2 * s3 - s1 * s2 * c3]
  }

  /** The quaternion is yaw about z, then pitch about y, then roll about x, each by its half angle. */
  lemma EulerIsComposition(c1: real, s1: real, c2: real, s2: real, c3: real, s3: real)
    ensures QuaternionOfEuler(c1, s1, c2, s2, c3, s3) ==
      Hamilton(Hamilton([c3, 0.0, 0.0, s3], [c2, 0.0, s2, 0.0]), [c1, s1, 0.0, 0.0])
  {
    SameParts(QuaternionOfEuler(c1, s1, c2, s2, c3, s3),
              Hamilton(Hamilton([c3, 0.0, 0.0, s3], [c2, 0.0, s2, 0.0]), [c1, s1, 0.0, 0.0]));
  }

  function DcmOfEuler(cphi: real, sphi: real, cthe: real, sthe: real, cpsi: real, spsi: real): Matrix {
    Matrix(cthe * cpsi, -cphi * spsi + sphi * sthe * cpsi, sphi * spsi + cphi * sthe * cpsi,
           cthe * spsi, cphi * cpsi + sphi * sthe * spsi, -sphi * cpsi + cphi * sthe * spsi,
           -sthe, sphi * cthe, cphi * cthe)
  }

  /** `mavlink_euler_to_quaternion` */
  method EulerToQuaternion(roll: real, pitch: real, yaw: real, quaternion: array<real>, cos: real -> real,
      sin: real -> real)
    requires quaternion.Length == 4
    modifies quaternion
    ensures quaternion[..] == QuaternionOfEuler(cos(roll / 2.0), sin(roll / 2.0), cos(pitch / 2.0), sin(pitch / 2.0),
                                                cos(yaw / 2.0), sin(yaw / 2.0))
    ensures TrigAt(cos, sin, roll) && TrigAt(cos, sin, pitch) && TrigAt(cos, sin, yaw) ==>
      Norm2(quaternion[..]) == 1.0
      && DcmOf(quaternion[..]) == DcmOfEuler(cos(roll), sin(roll), cos(pitch), sin(pitch), cos(yaw), sin(yaw))
  {
    hide DcmOfParts, DcmOfEuler, Norm2, Norm2OfParts, TrigAt;
    FromHalfAngles(cos(roll / 2.0), sin(roll / 2.0), cos(pitch / 2.0), sin(pitch / 2.0), cos(yaw / 2.0),
        sin(yaw / 2.0), quaternion);
    EulerAnglesAgree(roll, pitch, yaw, cos, sin);
  }

  method FromHalfAngles(cosPhi_2: real, sinPhi_2: real, cosTheta_2: real, sinTheta_2: real, cosPsi_2: real,
      sinPsi_2: real,
                        quaternion: array<real>)
    requires quaternion.Length == 4
    modifies quaternion
    ensures quaternion[..] == QuaternionOfEuler(cosPhi_2, sinPhi_2, cosTheta_2, sinTheta_2, cosPsi_2, sinPsi_2)
  {
    quaternion[0] := cosPhi_2 * cosTheta_2 * cosPsi_2 + sinPhi_2 * sinTheta_2 * sinPsi_2;
    quaternion[1] := sinPhi_2 * cosTheta_2 * cosPsi_2 - cosPhi_2 * sinTheta_2 * sinPsi_2;
    quaternion[2] := cosPhi_2 * sinTheta_2 * cosPsi_2 + sinPhi_2 * cosTheta_2 * sinPsi_2;
    quaternion[3] := cosPhi_2 * cosTheta_2 * sinPsi_2 - sinPhi_2 * sinTheta_2 * cosPsi_2;
    assert quaternion[..] == [quaternion[0], quaternion[1], quaternion[2], quaternion[3]];
  }

  lemma EulerAnglesAgree(roll: real, pitch: real, yaw: real, cos: real -> real, sin: real -> real)
    ensures var q := QuaternionOfEuler(cos(roll / 2.0), sin(roll / 2.0), cos(pitch / 2.0), sin(pitch / 2.0),
                                       cos(yaw / 2.0), sin(yaw / 2.0));
      TrigAt(cos, sin, roll) && TrigAt(cos, sin, pitch) && TrigAt(cos, sin, yaw) ==>
        Norm2(q) == 1.0 && DcmOf(q) == DcmOfEuler(cos(roll), sin(roll), cos(pitch), sin(pitch), cos(yaw), sin(yaw))
  {
    hide DcmOf, DcmOfEuler, Norm2, QuaternionOfEuler, Unit, CosTwice, SinTwice;
    if TrigAt(cos, sin, roll) && TrigAt(cos, sin, pitch) && TrigAt(cos, sin, yaw) {
      EulerPathsAgree(cos(roll / 2.0), sin(roll / 2.0), cos(pitch / 2.0), sin(pitch / 2.0), cos(yaw / 2.0),
          sin(yaw / 2.0));
    }
  }

  /** `mavlink_euler_to_dcm` */
  method EulerToDcm(roll: real, pitch: real, yaw: real, dcm: array2<real>, cos: real -> real, sin: real -> real)
    requires dcm.Length0 == 3 && dcm.Length1 == 3
    modifies dcm
    ensures View(dcm) == DcmOfEuler(cos(roll), sin(roll), cos(pitch), sin(pitch), cos(yaw), sin(yaw))
  {
    var m := EulerEntries(cos(roll), sin(roll), cos(pitch), sin(pitch), cos(yaw), sin(yaw));
    Fill(dcm, m);
  }

  method EulerEntries(cosPhi: real, sinPhi: real, cosThe: real, sinThe: real, cosPsi: real,
      sinPsi: real) returns (m: Matrix)
    ensures m == DcmOfEuler(cosPhi, sinPhi, cosThe, sinThe, cosPsi, sinPsi)
  {
    m := Matrix(cosThe * cosPsi, -cosPhi * sinPsi + sinPhi * sinThe * cosPsi, sinPhi * sinPsi
        + cosPhi * sinThe * cosPsi,
                cosThe * sinPsi, cosPhi * cosPsi + sinPhi * sinThe * sinPsi, -sinPhi * cosPsi
                    + cosPhi * sinThe * sinPsi,
                -sinThe, sinPhi * cosThe, cosPhi * cosThe);
  }

  // One identity per entry of the matrix of the quaternion of the three half angles.

  lemma Names(c: real, s: real)
    ensures Unit(c, s) == c * c + s * s && CosTwice(c, s) == c * c - s * s && SinTwice(c, s) == 2.0 * s * c
  {
  }

  // A product of three, each factor by another name.
  lemma Product(x: real, y: real, z: real, x': real, y': real, z': real)
    requires x == x' && y == y' && z == z'
    ensures x * (y * z) == x' * (y' * z')
  {
  }

  lemma EulerNorm(c1: real, s1: real, c2: real, s2: real, c3: real, s3: real)
    requires Unit(c1, s1) == 1.0 && Unit(c2, s2) == 1.0 && Unit(c3, s3) == 1.0
    ensures (c1 * c2 * c3 + s1 * s2 * s3) * (c1 * c2 * c3 + s1 * s2 * s3)
        + (s1 * c2 * c3 - c1 * s2 * s3) * (s1 * c2 * c3 - c1 * s2 * s3)
        + (c1 * s2 * c3 + s1 * c2 * s3) * (c1 * s2 * c3 + s1 * c2 * s3)
        + (c1 * c2 * s3 - s1 * s2 * c3) * (c1 * c2 * s3 - s1 * s2 * c3)
         == 1.0
  {
    hide Unit, CosTwice, SinTwice;
    assert (c1 * c2 * c3 + s1 * s2 * s3) * (c1 * c2 * c3 + s1 * s2 * s3)
        + (s1 * c2 * c3 - c1 * s2 * s3) * (s1 * c2 * c3 - c1 * s2 * s3)
        + (c1 * s2 * c3 + s1 * c2 * s3) * (c1 * s2 * c3 + s1 * c2 * s3)
        + (c1 * c2 * s3 - s1 * s2 * c3) * (c1 * c2 * s3 - s1 * s2 * c3)
        == (c1 * c1 + s1 * s1) * ((c2 * c2 + s2 * s2) * (c3 * c3 + s3 * s3));
    Names(c1, s1);
    Names(c2, s2);
    Names(c3, s3);
    Product(1.0, 1.0, 1.0, c1 * c1 + s1 * s1, c2 * c2 + s2 * s2, c3 * c3 + s3 * s3);
  }

  lemma EulerXX(c1: real, s1: real, c2: real, s2: real, c3: real, s3: real)
    requires Unit(c1, s1) == 1.0
    ensures (c1 * c2 * c3 + s1 * s2 * s3) * (c1 * c2 * c3 + s1 * s2 * s3)
        + (s1 * c2 * c3 - c1 * s2 * s3) * (s1 * c2 * c3 - c1 * s2 * s3)
        - (c1 * s2 * c3 + s1 * c2 * s3) * (c1 * s2 * c3 + s1 * c2 * s3)
        - (c1 * c2 * s3 - s1 * s2 * c3) * (c1 * c2 * s3 - s1 * s2 * c3)
         == CosTwice(c2, s2) * CosTwice(c3, s3)
  {
    hide Unit, CosTwice, SinTwice;
    assert (c1 * c2 * c3 + s1 * s2 * s3) * (c1 * c2 * c3 + s1 * s2 * s3)
        + (s1 * c2 * c3 - c1 * s2 * s3) * (s1 * c2 * c3 - c1 * s2 * s3)
        - (c1 * s2 * c3 + s1 * c2 * s3) * (c1 * s2 * c3 + s1 * c2 * s3)
        - (c1 * c2 * s3 - s1 * s2 * c3) * (c1 * c2 * s3 - s1 * s2 * c3)
        == (c1 * c1 + s1 * s1) * ((c2 * c2 - s2 * s2) * (c3 * c3 - s3 * s3));
    Names(c1, s1);
    Names(c2, s2);
    Names(c3, s3);
    Product(1.0, CosTwice(c2, s2), CosTwice(c3, s3), c1 * c1 + s1 * s1, c2 * c2 - s2 * s2, c3 * c3 - s3 * s3);
  }

  lemma EulerXY(c1: real, s1: real, c2: real, s2: real, c3: real, s3: real)
    requires Unit(c2, s2) == 1.0
    ensures 2.0 * ((s1 * c2 * c3 - c1 * s2 * s3) * (c1 * s2 * c3 + s1 * c2 * s3)
        - (c1 * c2 * c3 + s1 * s2 * s3) * (c1 * c2 * s3 - s1 * s2 * c3))
         == -CosTwice(c1, s1) * SinTwice(c3, s3) + SinTwice(c1, s1) * SinTwice(c2, s2) * CosTwice(c3, s3)
  {
    hide Unit, CosTwice, SinTwice;
    assert 2.0 * ((s1 * c2 * c3 - c1 * s2 * s3) * (c1 * s2 * c3 + s1 * c2 * s3)
        - (c1 * c2 * c3 + s1 * s2 * s3) * (c1 * c2 * s3 - s1 * s2 * c3))
        == (c2 * c2 + s2 * s2) * ((-(c1 * c1 - s1 * s1)) * (2.0 * s3 * c3))
            + (2.0 * s1 * c1) * ((2.0 * s2 * c2) * (c3 * c3 - s3 * s3));
    Names(c1, s1);
    Names(c2, s2);
    Names(c3, s3);
    Product(1.0, -CosTwice(c1, s1), SinTwice(c3, s3), c2 * c2 + s2 * s2, -(c1 * c1 - s1 * s1), 2.0 * s3 * c3);
    Product(SinTwice(c1, s1), SinTwice(c2, s2), CosTwice(c3, s3), 2.0 * s1 * c1, 2.0 * s2 * c2, c3 * c3 - s3 * s3);
  }

  lemma EulerXZ(c1: real, s1: real, c2: real, s2: real, c3: real, s3: real)
    requires Unit(c2, s2) == 1.0
    ensures 2.0 * ((c1 * c2 * c3 + s1 * s2 * s3) * (c1 * s2 * c3 + s1 * c2 * s3)
        + (s1 * c2 * c3 - c1 * s2 * s3) * (c1 * c2 * s3 - s1 * s2 * c3))
         == SinTwice(c1, s1) * SinTwice(c3, s3) + CosTwice(c1, s1) * SinTwice(c2, s2) * CosTwice(c3, s3)
  {
    hide Unit, CosTwice, SinTwice;
    assert 2.0 * ((c1 * c2 * c3 + s1 * s2 * s3) * (c1 * s2 * c3 + s1 * c2 * s3)
        + (s1 * c2 * c3 - c1 * s2 * s3) * (c1 * c2 * s3 - s1 * s2 * c3))
        == (c2 * c2 + s2 * s2) * ((2.0 * s1 * c1) * (2.0 * s3 * c3))
            + (c1 * c1 - s1 * s1) * ((2.0 * s2 * c2) * (c3 * c3 - s3 * s3));
    Names(c1, s1);
    Names(c2, s2);
    Names(c3, s3);
    Product(1.0, SinTwice(c1, s1), SinTwice(c3, s3), c2 * c2 + s2 * s2, 2.0 * s1 * c1, 2.0 * s3 * c3);
    Product(CosTwice(c1, s1), SinTwice(c2, s2), CosTwice(c3, s3), c1 * c1 - s1 * s1, 2.0 * s2 * c2, c3 * c3 - s3 * s3);
  }

  lemma EulerYX(c1: real, s1: real, c2: real, s2: real, c3: real, s3: real)
    requires Unit(c1, s1) == 1.0
    ensures 2.0 * ((s1 * c2 * c3 - c1 * s2 * s3) * (c1 * s2 * c3 + s1 * c2 * s3)
        + (c1 * c2 * c3 + s1 * s2 * s3) * (c1 * c2 * s3 - s1 * s2 * c3))
         == CosTwice(c2, s2) * SinTwice(c3, s3)
  {
    hide Unit, CosTwice, SinTwice;
    assert 2.0 * ((s1 * c2 * c3 - c1 * s2 * s3) * (c1 * s2 * c3 + s1 * c2 * s3)
        + (c1 * c2 * c3 + s1 * s2 * s3) * (c1 * c2 * s3 - s1 * s2 * c3))
        == (c1 * c1 + s1 * s1) * ((c2 * c2 - s2 * s2) * (2.0 * s3 * c3));
    Names(c1, s1);
    Names(c2, s2);
    Names(c3, s3);
    Product(1.0, CosTwice(c2, s2), SinTwice(c3, s3), c1 * c1 + s1 * s1, c2 * c2 - s2 * s2, 2.0 * s3 * c3);
  }

  lemma EulerYY(c1: real, s1: real, c2: real, s2: real, c3: real, s3: real)
    requires Unit(c2, s2) == 1.0
    ensures (c1 * c2 * c3 + s1 * s2 * s3) * (c1 * c2 * c3 + s1 * s2 * s3)
        - (s1 * c2 * c3 - c1 * s2 * s3) * (s1 * c2 * c3 - c1 * s2 * s3)
        + (c1 * s2 * c3 + s1 * c2 * s3) * (c1 * s2 * c3 + s1 * c2 * s3)
        - (c1 * c2 * s3 - s1 * s2 * c3) * (c1 * c2 * s3 - s1 * s2 * c3)
         == CosTwice(c1, s1) * CosTwice(c3, s3) + SinTwice(c1, s1) * SinTwice(c2, s2) * SinTwice(c3, s3)
  {
    hide Unit, CosTwice, SinTwice;
    assert (c1 * c2 * c3 + s1 * s2 * s3) * (c1 * c2 * c3 + s1 * s2 * s3)
        - (s1 * c2 * c3 - c1 * s2 * s3) * (s1 * c2 * c3 - c1 * s2 * s3)
        + (c1 * s2 * c3 + s1 * c2 * s3) * (c1 * s2 * c3 + s1 * c2 * s3)
        - (c1 * c2 * s3 - s1 * s2 * c3) * (c1 * c2 * s3 - s1 * s2 * c3)
        == (c2 * c2 + s2 * s2) * ((c1 * c1 - s1 * s1) * (c3 * c3 - s3 * s3))
            + (2.0 * s1 * c1) * ((2.0 * s2 * c2) * (2.0 * s3 * c3));
    Names(c1, s1);
    Names(c2, s2);
    Names(c3, s3);
    Product(1.0, CosTwice(c1, s1), CosTwice(c3, s3), c2 * c2 + s2 * s2, c1 * c1 - s1 * s1, c3 * c3 - s3 * s3);
    Product(SinTwice(c1, s1), SinTwice(c2, s2), SinTwice(c3, s3), 2.0 * s1 * c1, 2.0 * s2 * c2, 2.0 * s3 * c3);
  }

  lemma EulerYZ(c1: real, s1: real, c2: real, s2: real, c3: real, s3: real)
    requires Unit(c2, s2) == 1.0
    ensures 2.0 * ((c1 * s2 * c3 + s1 * c2 * s3) * (c1 * c2 * s3 - s1 * s2 * c3)
        - (c1 * c2 * c3 + s1 * s2 * s3) * (s1 * c2 * c3 - c1 * s2 * s3))
         == -SinTwice(c1, s1) * CosTwice(c3, s3) + CosTwice(c1, s1) * SinTwice(c2, s2) * SinTwice(c3, s3)
  {
    hide Unit, CosTwice, SinTwice;
    assert 2.0 * ((c1 * s2 * c3 + s1 * c2 * s3) * (c1 * c2 * s3 - s1 * s2 * c3)
        - (c1 * c2 * c3 + s1 * s2 * s3) * (s1 * c2 * c3 - c1 * s2 * s3))
        == (c2 * c2 + s2 * s2) * ((-(2.0 * s1 * c1)) * (c3 * c3 - s3 * s3))
            + (c1 * c1 - s1 * s1) * ((2.0 * s2 * c2) * (2.0 * s3 * c3));
    Names(c1, s1);
    Names(c2, s2);
    Names(c3, s3);
    Product(1.0, -SinTwice(c1, s1), CosTwice(c3, s3), c2 * c2 + s2 * s2, -(2.0 * s1 * c1), c3 * c3 - s3 * s3);
    Product(CosTwice(c1, s1), SinTwice(c2, s2), SinTwice(c3, s3), c1 * c1 - s1 * s1, 2.0 * s2 * c2, 2.0 * s3 * c3);
  }

  lemma EulerZX(c1: real, s1: real, c2: real, s2: real, c3: real, s3: real)
    requires Unit(c1, s1) == 1.0 && Unit(c3, s3) == 1.0
    ensures 2.0 * ((s1 * c2 * c3 - c1 * s2 * s3) * (c1 * c2 * s3 - s1 * s2 * c3)
        - (c1 * c2 * c3 + s1 * s2 * s3) * (c1 * s2 * c3 + s1 * c2 * s3))
         == -SinTwice(c2, s2)
  {
    hide Unit, CosTwice, SinTwice;
    assert 2.0 * ((s1 * c2 * c3 - c1 * s2 * s3) * (c1 * c2 * s3 - s1 * s2 * c3)
        - (c1 * c2 * c3 + s1 * s2 * s3) * (c1 * s2 * c3 + s1 * c2 * s3))
        == (c1 * c1 + s1 * s1) * ((c3 * c3 + s3 * s3) * (-(2.0 * s2 * c2)));
    Names(c1, s1);
    Names(c2, s2);
    Names(c3, s3);
    Product(1.0, 1.0, -SinTwice(c2, s2), c1 * c1 + s1 * s1, c3 * c3 + s3 * s3, -(2.0 * s2 * c2));
  }

  lemma EulerZY(c1: real, s1: real, c2: real, s2: real, c3: real, s3: real)
    requires Unit(c3, s3) == 1.0
    ensures 2.0 * ((c1 * c2 * c3 + s1 * s2 * s3) * (s1 * c2 * c3 - c1 * s2 * s3)
        + (c1 * s2 * c3 + s1 * c2 * s3) * (c1 * c2 * s3 - s1 * s2 * c3))
         == SinTwice(c1, s1) * CosTwice(c2, s2)
  {
    hide Unit, CosTwice, SinTwice;
    assert 2.0 * ((c1 * c2 * c3 + s1 * s2 * s3) * (s1 * c2 * c3 - c1 * s2 * s3)
        + (c1 * s2 * c3 + s1 * c2 * s3) * (c1 * c2 * s3 - s1 * s2 * c3))
        == (c3 * c3 + s3 * s3) * ((2.0 * s1 * c1) * (c2 * c2 - s2 * s2));
    Names(c1, s1);
    Names(c2, s2);
    Names(c3, s3);
    Product(1.0, SinTwice(c1, s1), CosTwice(c2, s2), c3 * c3 + s3 * s3, 2.0 * s1 * c1, c2 * c2 - s2 * s2);
  }

  lemma EulerZZ(c1: real, s1: real, c2: real, s2: real, c3: real, s3: real)
    requires Unit(c3, s3) == 1.0
    ensures (c1 * c2 * c3 + s1 * s2 * s3) * (c1 * c2 * c3 + s1 * s2 * s3)
        - (s1 * c2 * c3 - c1 * s2 * s3) * (s1 * c2 * c3 - c1 * s2 * s3)
        - (c1 * s2 * c3 + s1 * c2 * s3) * (c1 * s2 * c3 + s1 * c2 * s3)
        + (c1 * c2 * s3 - s1 * s2 * c3) * (c1 * c2 * s3 - s1 * s2 * c3)
         == CosTwice(c1, s1) * CosTwice(c2, s2)
  {
    hide Unit, CosTwice, SinTwice;
    assert (c1 * c2 * c3 + s1 * s2 * s3) * (c1 * c2 * c3 + s1 * s2 * s3)
        - (s1 * c2 * c3 - c1 * s2 * s3) * (s1 * c2 * c3 - c1 * s2 * s3)
        - (c1 * s2 * c3 + s1 * c2 * s3) * (c1 * s2 * c3 + s1 * c2 * s3)
        + (c1 * c2 * s3 - s1 * s2 * c3) * (c1 * c2 * s3 - s1 * s2 * c3)
        == (c3 * c3 + s3 * s3) * ((c1 * c1 - s1 * s1) * (c2 * c2 - s2 * s2));
    Names(c1, s1);
    Names(c2, s2);
    Names(c3, s3);
    Product(1.0, CosTwice(c1, s1), CosTwice(c2, s2), c3 * c3 + s3 * s3, c1 * c1 - s1 * s1, c2 * c2 - s2 * s2);
  }

  lemma EulerUnit(c1: real, s1: real, c2: real, s2: real, c3: real, s3: real)
    requires Unit(c1, s1) == 1.0 && Unit(c2, s2) == 1.0 && Unit(c3, s3) == 1.0
    ensures Norm2OfParts(c1 * c2 * c3 + s1 * s2 * s3, s1 * c2 * c3 - c1 * s2 * s3, c1 * s2 * c3 + s1 * c2 * s3,
        c1 * c2 * s3 - s1 * s2 * c3) == 1.0
  {
    hide CosTwice, SinTwice, Unit;
    EulerNorm(c1, s1, c2, s2, c3, s3);
  }

  lemma EulerFirstRow(c1: real, s1: real, c2: real, s2: real, c3: real, s3: real)
    requires Unit(c1, s1) == 1.0 && Unit(c2, s2) == 1.0 && Unit(c3, s3) == 1.0
    ensures var m, e := DcmOfParts(c1 * c2 * c3 + s1 * s2 * s3, s1 * c2 * c3 - c1 * s2 * s3, c1 * s2 * c3
        + s1 * c2 * s3, c1 * c2 * s3 - s1 * s2 * c3),
        DcmOfEuler(CosTwice(c1, s1), SinTwice(c1, s1), CosTwice(c2, s2), SinTwice(c2, s2), CosTwice(c3, s3),
            SinTwice(c3, s3));
      m.m00 == e.m00 && m.m01 == e.m01 && m.m02 == e.m02
  {
    hide CosTwice, SinTwice, Unit;
    EulerXX(c1, s1, c2, s2, c3, s3);
    EulerXY(c1, s1, c2, s2, c3, s3);
    EulerXZ(c1, s1, c2, s2, c3, s3);
  }

  lemma EulerSecondRow(c1: real, s1: real, c2: real, s2: real, c3: real, s3: real)
    requires Unit(c1, s1) == 1.0 && Unit(c2, s2) == 1.0 && Unit(c3, s3) == 1.0
    ensures var m, e := DcmOfParts(c1 * c2 * c3 + s1 * s2 * s3, s1 * c2 * c3 - c1 * s2 * s3, c1 * s2 * c3
        + s1 * c2 * s3, c1 * c2 * s3 - s1 * s2 * c3),
        DcmOfEuler(CosTwice(c1, s1), SinTwice(c1, s1), CosTwice(c2, s2), SinTwice(c2, s2), CosTwice(c3, s3),
            SinTwice(c3, s3));
      m.m10 == e.m10 && m.m11 == e.m11 && m.m12 == e.m12
  {
    hide CosTwice, SinTwice, Unit;
    EulerYX(c1, s1, c2, s2, c3, s3);
    EulerYY(c1, s1, c2, s2, c3, s3);
    EulerYZ(c1, s1, c2, s2, c3, s3);
  }

  lemma EulerThirdRow(c1: real, s1: real, c2: real, s2: real, c3: real, s3: real)
    requires Unit(c1, s1) == 1.0 && Unit(c2, s2) == 1.0 && Unit(c3, s3) == 1.0
    ensures var m, e := DcmOfParts(c1 * c2 * c3 + s1 * s2 * s3, s1 * c2 * c3 - c1 * s2 * s3, c1 * s2 * c3
        + s1 * c2 * s3, c1 * c2 * s3 - s1 * s2 * c3),
        DcmOfEuler(CosTwice(c1, s1), SinTwice(c1, s1), CosTwice(c2, s2), SinTwice(c2, s2), CosTwice(c3, s3),
            SinTwice(c3, s3));
      m.m20 == e.m20 && m.m21 == e.m21 && m.m22 == e.m22
  {
    hide CosTwice, SinTwice, Unit;
    EulerZX(c1, s1, c2, s2, c3, s3);
    EulerZY(c1, s1, c2, s2, c3, s3);
    EulerZZ(c1, s1, c2, s2, c3, s3);
  }

  /** The two ways from Euler angles to a matrix agree in all nine entries. */
  lemma EulerPathsAgree(c1: real, s1: real, c2: real, s2: real, c3: real, s3: real)
    requires Unit(c1, s1) == 1.0 && Unit(c2, s2) == 1.0 && Unit(c3, s3) == 1.0
    ensures Norm2(QuaternionOfEuler(c1, s1, c2, s2, c3, s3)) == 1.0
    ensures DcmOf(QuaternionOfEuler(c1, s1, c2, s2, c3, s3)) ==
      DcmOfEuler(CosTwice(c1, s1), SinTwice(c1, s1), CosTwice(c2, s2), SinTwice(c2, s2), CosTwice(c3, s3),
          SinTwice(c3, s3))
  {
    hide DcmOfParts, DcmOfEuler, Norm2OfParts, Unit, CosTwice, SinTwice;
    EulerUnit(c1, s1, c2, s2, c3, s3);
    EulerFirstRow(c1, s1, c2, s2, c3, s3);
    EulerSecondRow(c1, s1, c2, s2, c3, s3);
    EulerThirdRow(c1, s1, c2, s2, c3, s3);
  }
}
