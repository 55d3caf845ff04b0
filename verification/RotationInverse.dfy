/** Every rotation matrix comes back from its quaternion: the converse of the round trip in Rotation. */
module RotationInverse {
  import opened Rotation

  /** R R^T = I and det R = 1. */
  ghost predicate IsRotation(m: Matrix) {
    && (forall i, j :: 0 <= i < 3 && 0 <= j < 3 ==> m.RowProduct(i, j) == if i == j then 1.0 else 0.0)
    && m.Determinant() == 1.0
  }

  // ----- a rotation matrix is its own cofactor matrix -----

  predicate OrthonormalRows(x: real, y: real, z: real, x': real, y': real, z': real, x'': real, y'': real, z'': real) {
    && x * x + y * y + z * z == 1.0
    && x' * x' + y' * y' + z' * z' == 1.0
    && x'' * x'' + y'' * y'' + z'' * z'' == 1.0
    && x * x' + y * y' + z * z' == 0.0
    && x' * x'' + y' * y'' + z' * z'' == 0.0
    && x'' * x + y'' * y + z'' * z == 0.0
  }

  predicate OrthonormalColumns(x: real, y: real, z: real, x': real, y': real, z': real, x'': real, y'': real,
      z'': real) {
    && x * x + x' * x' + x'' * x'' == 1.0
    && y * y + y' * y' + y'' * y'' == 1.0
    && z * z + z' * z' + z'' * z'' == 1.0
    && x * y + x' * y' + x'' * y'' == 0.0
    && y * z + y' * z' + y'' * z'' == 0.0
    && z * x + z' * x' + z'' * x'' == 0.0
  }

  predicate OwnCofactors(x: real, y: real, z: real, x': real, y': real, z': real, x'': real, y'': real, z'': real) {
    && x == y' * z'' - z' * y''
    && y == z' * x'' - x' * z''
    && z == x' * y'' - y' * x''
    && x' == y'' * z - z'' * y
    && y' == z'' * x - x'' * z
    && z' == x'' * y - y'' * x
    && x'' == y * z' - z * y'
    && y'' == z * x' - x * z'
    && z'' == x * y' - y * x'
  }

  // The determinant by its first row.
  function Det(x: real, y: real, z: real, x': real, y': real, z': real, x'': real, y'': real, z'': real): real {
    x * (y' * z'' - z' * y'') + y * (z' * x'' - x' * z'') + z * (x' * y'' - y' * x'')
  }

  lemma DetCycles(x: real, y: real, z: real, x': real, y': real, z': real, x'': real, y'': real, z'': real)
    ensures Det(x, y, z, x', y', z', x'', y'', z'') == Det(x', y', z', x'', y'', z'', x, y, z)
        == Det(x'', y'', z'', x, y, z, x', y', z')
  {
  }

  lemma Lagrange(x: real, y: real, z: real, x': real, y': real, z': real, u: real, v: real, w: real)
    requires u == y * z' - z * y' && v == z * x' - x * z' && w == x * y' - y * x'
    ensures u * u + v * v + w * w == Dot(x, y, z, x, y, z) * Dot(x', y', z', x', y', z')
                                     - Dot(x, y, z, x', y', z') * Dot(x, y, z, x', y', z')
  {
  }

  lemma SquareIsNotNegative(x: real)
    ensures x * x >= 0.0
    ensures x * x == 0.0 ==> x == 0.0
  {
    if x * x == 0.0 {
      ZeroProduct(x, x);
    }
  }

  // Two vectors of length one whose inner product is one are the same.
  lemma SameDirection(u: real, v: real, w: real, x: real, y: real, z: real)
    requires u * u + v * v + w * w == 1.0 && x * x + y * y + z * z == 1.0 && u * x + v * y + w * z == 1.0
    ensures u == x && v == y && w == z
  {
    var d, e, f := u - x, v - y, w - z;
    assert d * d + e * e + f * f == 0.0;
    SquareIsNotNegative(d);
    SquareIsNotNegative(e);
    SquareIsNotNegative(f);
  }

  // The cross product of two rows is the third.
  lemma CrossIsThird(x: real, y: real, z: real, x': real, y': real, z': real, x'': real, y'': real, z'': real)
    requires Dot(x, y, z, x, y, z) == 1.0 && Dot(x', y', z', x', y', z') == 1.0 && Dot(x, y, z, x', y', z') == 0.0
    requires Dot(x'', y'', z'', x'', y'', z'') == 1.0 && Det(x'', y'', z'', x, y, z, x', y', z') == 1.0
    ensures y * z' - z * y' == x'' && z * x' - x * z' == y'' && x * y' - y * x' == z''
  {
    var u, v, w := y * z' - z * y', z * x' - x * z', x * y' - y * x';
    Lagrange(x, y, z, x', y', z', u, v, w);
    SameDirection(u, v, w, x'', y'', z'');
  }

  lemma CofactorsOf(x: real, y: real, z: real, x': real, y': real, z': real, x'': real, y'': real, z'': real)
    requires OrthonormalRows(x, y, z, x', y', z', x'', y'', z'') && Det(x, y, z, x', y', z', x'', y'', z'') == 1.0
    ensures OwnCofactors(x, y, z, x', y', z', x'', y'', z'')
  {
    hide Det;
    DetCycles(x, y, z, x', y', z', x'', y'', z'');
    CrossIsThird(x, y, z, x', y', z', x'', y'', z'');
    CrossIsThird(x', y', z', x'', y'', z'', x, y, z);
    CrossIsThird(x'', y'', z'', x, y, z, x', y', z');
  }

  lemma Expand(a: real, b: real, c: real, p: real, q: real, r: real, p': real, q': real, r': real)
    requires p == p' && q == q' && r == r'
    ensures a * p + b * q + c * r == a * p' + b * q' + c * r'
  {
  }

  lemma ColumnsOf(x: real, y: real, z: real, x': real, y': real, z': real, x'': real, y'': real, z'': real)
    requires OwnCofactors(x, y, z, x', y', z', x'', y'', z'') && Det(x, y, z, x', y', z', x'', y'', z'') == 1.0
    ensures OrthonormalColumns(x, y, z, x', y', z', x'', y'', z'')
  {
    Expand(x, x', x'', x, x', x'', y' * z'' - z' * y'', y'' * z - z'' * y, y * z' - z * y');
    Expand(y, y', y'', x, x', x'', y' * z'' - z' * y'', y'' * z - z'' * y, y * z' - z * y');
    Expand(y, y', y'', y, y', y'', z' * x'' - x' * z'', z'' * x - x'' * z, z * x' - x * z');
    Expand(z, z', z'', y, y', y'', z' * x'' - x' * z'', z'' * x - x'' * z, z * x' - x * z');
    Expand(z, z', z'', z, z', z'', x' * y'' - y' * x'', x'' * y - y'' * x, x * y' - y * x');
    Expand(x, x', x'', z, z', z'', x' * y'' - y' * x'', x'' * y - y'' * x, x * y' - y * x');
  }

  // ----- the quaternion's products, as the matrix has them -----

  /** Four times the products of the components of the quaternion: with 0 for w and 1, 2, 3 for x, y, z. */
  datatype Table = Table(k00: real, k11: real, k22: real, k33: real, k01: real, k02: real, k03: real,
                         k12: real, k13: real, k23: real)

  function TableOf(m: Matrix): Table {
    Table(1.0 + m.m00 + m.m11 + m.m22, 1.0 + m.m00 - m.m11 - m.m22, 1.0 - m.m00 + m.m11 - m.m22, 1.0 - m.m00 - m.m11
        + m.m22,
          m.m21 - m.m12, m.m02 - m.m20, m.m10 - m.m01, m.m01 + m.m10, m.m02 + m.m20, m.m12 + m.m21)
  }

  predicate Regular(x: real, y: real, z: real, x': real, y': real, z': real, x'': real, y'': real, z'': real) {
    OrthonormalRows(x, y, z, x', y', z', x'', y'', z'') && OrthonormalColumns(x, y, z, x', y', z', x'', y'', z'')
        && OwnCofactors(x, y, z, x', y', z', x'', y'', z'')
  }

  lemma Pivot00(x: real, y: real, z: real, x': real, y': real, z': real, x'': real, y'': real, z'': real)
    requires Regular(x, y, z, x', y', z', x'', y'', z'')
    ensures Times(1.0 + x + y' + z'', 1.0 + x - y' - z'') == Times(y'' - z', y'' - z') == Times(y'' - z', y'' - z')
    ensures Times(1.0 + x - y' - z'', 1.0 + x + y' + z'') == Times(y'' - z', y'' - z')
  {
  }

  lemma Pivot01(x: real, y: real, z: real, x': real, y': real, z': real, x'': real, y'': real, z'': real)
    requires Regular(x, y, z, x', y', z', x'', y'', z'')
    ensures Times(1.0 + x + y' + z'', y + x') == Times(y'' - z', z - x'') == Times(z - x'', y'' - z')
    ensures Times(y + x', 1.0 + x + y' + z'') == Times(y'' - z', z - x'')
  {
  }

  lemma Pivot10(x: real, y: real, z: real, x': real, y': real, z': real, x'': real, y'': real, z'': real)
    requires Regular(x, y, z, x', y', z', x'', y'', z'')
    ensures Times(1.0 + x - y' - z'', 1.0 - x + y' - z'') == Times(y + x', y + x') == Times(y + x', y + x')
    ensures Times(1.0 - x + y' - z'', 1.0 + x - y' - z'') == Times(y + x', y + x')
  {
  }

  lemma Pivot11(x: real, y: real, z: real, x': real, y': real, z': real, x'': real, y'': real, z'': real)
    requires Regular(x, y, z, x', y', z', x'', y'', z'')
    ensures Times(1.0 + x - y' - z'', z - x'') == Times(y'' - z', y + x') == Times(y + x', y'' - z')
    ensures Times(z - x'', 1.0 + x - y' - z'') == Times(y'' - z', y + x')
  {
  }

  lemma Pivot12(x: real, y: real, z: real, x': real, y': real, z': real, x'': real, y'': real, z'': real)
    requires Regular(x, y, z, x', y', z', x'', y'', z'')
    ensures Times(1.0 + x - y' - z'', x' - y) == Times(y'' - z', z + x'') == Times(z + x'', y'' - z')
    ensures Times(x' - y, 1.0 + x - y' - z'') == Times(y'' - z', z + x'')
  {
  }

  lemma Pivot13(x: real, y: real, z: real, x': real, y': real, z': real, x'': real, y'': real, z'': real)
    requires Regular(x, y, z, x', y', z', x'', y'', z'')
    ensures Times(1.0 + x - y' - z'', z' + y'') == Times(y + x', z + x'') == Times(z + x'', y + x')
    ensures Times(z' + y'', 1.0 + x - y' - z'') == Times(y + x', z + x'')
  {
  }

  /** The table is of rank one: whatever the pivot, its row gives all other entries. */
  predicate RankOne(t: Table) {
    && Times(t.k00, t.k11) == Times(t.k01, t.k01)
    && Times(t.k00, t.k12) == Times(t.k01, t.k02)
    && Times(t.k00, t.k13) == Times(t.k01, t.k03)
    && Times(t.k00, t.k22) == Times(t.k02, t.k02)
    && Times(t.k00, t.k23) == Times(t.k02, t.k03)
    && Times(t.k00, t.k33) == Times(t.k03, t.k03)
    && Times(t.k11, t.k00) == Times(t.k01, t.k01)
    && Times(t.k11, t.k02) == Times(t.k01, t.k12)
    && Times(t.k11, t.k03) == Times(t.k01, t.k13)
    && Times(t.k11, t.k22) == Times(t.k12, t.k12)
    && Times(t.k11, t.k23) == Times(t.k12, t.k13)
    && Times(t.k11, t.k33) == Times(t.k13, t.k13)
    && Times(t.k22, t.k00) == Times(t.k02, t.k02)
    && Times(t.k22, t.k01) == Times(t.k02, t.k12)
    && Times(t.k22, t.k03) == Times(t.k02, t.k23)
    && Times(t.k22, t.k11) == Times(t.k12, t.k12)
    && Times(t.k22, t.k13) == Times(t.k12, t.k23)
    && Times(t.k22, t.k33) == Times(t.k23, t.k23)
    && Times(t.k33, t.k00) == Times(t.k03, t.k03)
    && Times(t.k33, t.k01) == Times(t.k03, t.k13)
    && Times(t.k33, t.k02) == Times(t.k03, t.k23)
    && Times(t.k33, t.k11) == Times(t.k13, t.k13)
    && Times(t.k33, t.k12) == Times(t.k13, t.k23)
    && Times(t.k33, t.k22) == Times(t.k23, t.k23)
  }

  lemma RegularCycles(x: real, y: real, z: real, x': real, y': real, z': real, x'': real, y'': real, z'': real)
    requires Regular(x, y, z, x', y', z', x'', y'', z'')
    ensures Regular(y', z', x', y'', z'', x'', y, z, x) && Regular(z'', x'', y'', z, x, y, z', x', y')
  {
  }

  lemma TableIsRankOne(m: Matrix)
    requires Regular(m.m00, m.m01, m.m02, m.m10, m.m11, m.m12, m.m20, m.m21, m.m22)
    ensures RankOne(TableOf(m))
  {
    hide Regular, Times;
    RegularCycles(m.m00, m.m01, m.m02, m.m10, m.m11, m.m12, m.m20, m.m21, m.m22);
    Pivot00(m.m00, m.m01, m.m02, m.m10, m.m11, m.m12, m.m20, m.m21, m.m22);
    Pivot00(m.m11, m.m12, m.m10, m.m21, m.m22, m.m20, m.m01, m.m02, m.m00);
    Pivot00(m.m22, m.m20, m.m21, m.m02, m.m00, m.m01, m.m12, m.m10, m.m11);
    Pivot01(m.m00, m.m01, m.m02, m.m10, m.m11, m.m12, m.m20, m.m21, m.m22);
    Pivot01(m.m11, m.m12, m.m10, m.m21, m.m22, m.m20, m.m01, m.m02, m.m00);
    Pivot01(m.m22, m.m20, m.m21, m.m02, m.m00, m.m01, m.m12, m.m10, m.m11);
    Pivot10(m.m00, m.m01, m.m02, m.m10, m.m11, m.m12, m.m20, m.m21, m.m22);
    Pivot10(m.m11, m.m12, m.m10, m.m21, m.m22, m.m20, m.m01, m.m02, m.m00);
    Pivot10(m.m22, m.m20, m.m21, m.m02, m.m00, m.m01, m.m12, m.m10, m.m11);
    Pivot11(m.m00, m.m01, m.m02, m.m10, m.m11, m.m12, m.m20, m.m21, m.m22);
    Pivot11(m.m11, m.m12, m.m10, m.m21, m.m22, m.m20, m.m01, m.m02, m.m00);
    Pivot11(m.m22, m.m20, m.m21, m.m02, m.m00, m.m01, m.m12, m.m10, m.m11);
    Pivot12(m.m00, m.m01, m.m02, m.m10, m.m11, m.m12, m.m20, m.m21, m.m22);
    Pivot12(m.m11, m.m12, m.m10, m.m21, m.m22, m.m20, m.m01, m.m02, m.m00);
    Pivot12(m.m22, m.m20, m.m21, m.m02, m.m00, m.m01, m.m12, m.m10, m.m11);
    Pivot13(m.m00, m.m01, m.m02, m.m10, m.m11, m.m12, m.m20, m.m21, m.m22);
    Pivot13(m.m11, m.m12, m.m10, m.m21, m.m22, m.m20, m.m01, m.m02, m.m00);
    Pivot13(m.m22, m.m20, m.m21, m.m02, m.m00, m.m01, m.m12, m.m10, m.m11);
  }

  lemma RotationIsRegular(m: Matrix)
    requires IsRotation(m)
    ensures Regular(m.m00, m.m01, m.m02, m.m10, m.m11, m.m12, m.m20, m.m21, m.m22)
  {
    hide OwnCofactors, OrthonormalColumns;
    RowsAreOrthonormal(m);
    DeterminantIsDet(m);
    CofactorsOf(m.m00, m.m01, m.m02, m.m10, m.m11, m.m12, m.m20, m.m21, m.m22);
    ColumnsOf(m.m00, m.m01, m.m02, m.m10, m.m11, m.m12, m.m20, m.m21, m.m22);
  }

  lemma RowsAreOrthonormal(m: Matrix)
    requires IsRotation(m)
    ensures OrthonormalRows(m.m00, m.m01, m.m02, m.m10, m.m11, m.m12, m.m20, m.m21, m.m22)
  {
    hide Matrix.Determinant;
    assert m.RowProduct(0, 0) == 1.0 && m.RowProduct(1, 1) == 1.0 && m.RowProduct(2, 2) == 1.0;
    assert m.RowProduct(0, 1) == 0.0 && m.RowProduct(1, 2) == 0.0 && m.RowProduct(2, 0) == 0.0;
  }

  lemma DeterminantIsDet(m: Matrix)
    ensures m.Determinant() == Det(m.m00, m.m01, m.m02, m.m10, m.m11, m.m12, m.m20, m.m21, m.m22)
  {
  }

  // ----- the quaternion -----

  /** Components whose products are a quarter of the table's entries. */
  predicate Spells(t: Table, a: real, b: real, c: real, d: real) {
    && Times(a, a) == t.k00 / 4.0 && Times(b, b) == t.k11 / 4.0 && Times(c, c) == t.k22 / 4.0 && Times(d, d)
        == t.k33 / 4.0
    && Times(a, b) == t.k01 / 4.0 && Times(a, c) == t.k02 / 4.0 && Times(a, d) == t.k03 / 4.0
    && Times(b, c) == t.k12 / 4.0 && Times(b, d) == t.k13 / 4.0 && Times(c, d) == t.k23 / 4.0
  }

  lemma SpelledMatrix(m: Matrix, a: real, b: real, c: real, d: real)
    requires Spells(TableOf(m), a, b, c, d)
    ensures DcmOfParts(a, b, c, d) == m && Norm2OfParts(a, b, c, d) == 1.0
  {
  }

  // What the pivot's row gives, for its component and two others.
  lemma FromPivot(s: real, kpp: real, ki: real, kj: real, kij: real)
    requires s > 0.0 && IsRoot(s, kpp) && Times(kpp, kij) == Times(ki, kj)
    ensures Times(s * 0.5, s * 0.5) == kpp / 4.0
    ensures Times(s * 0.5, Halved(ki, s)) == ki / 4.0 && Times(Halved(ki, s), s * 0.5) == ki / 4.0
    ensures Times(Halved(ki, s), Halved(kj, s)) == kij / 4.0
  {
    var r := 0.5 / s;
    assert r * s == 0.5;
    PivotItself(s, r, kpp, ki);
    PivotOthers(s, r, kpp, ki, kj, kij);
  }

  lemma PivotItself(s: real, r: real, kpp: real, k: real)
    requires r * s == 0.5 && s * s == kpp
    ensures (s * 0.5) * (s * 0.5) == kpp / 4.0 && (s * 0.5) * (k * r) == k / 4.0
  {
    assert (s * 0.5) * (k * r) == 0.5 * k * (r * s);
  }

  lemma PivotOthers(s: real, r: real, kpp: real, ki: real, kj: real, kij: real)
    requires r * s == 0.5 && s * s == kpp && kpp * kij == ki * kj
    ensures (ki * r) * (kj * r) == kij / 4.0
  {
    assert (ki * r) * (kj * r) == (ki * kj) * (r * r);
    assert (kpp * kij) * (r * r) == (s * s * kij) * (r * r);
    assert (s * s * kij) * (r * r) == kij * ((r * s) * (r * s));
  }

  lemma Spelled0(t: Table, s: real)
    requires RankOne(t) && s > 0.0 && IsRoot(s, t.k00)
    ensures Spells(t, s * 0.5, Halved(t.k01, s), Halved(t.k02, s), Halved(t.k03, s))
  {
    hide Halved, IsRoot, Times;
    FromPivot(s, t.k00, t.k01, t.k01, t.k11);
    FromPivot(s, t.k00, t.k01, t.k02, t.k12);
    FromPivot(s, t.k00, t.k01, t.k03, t.k13);
    FromPivot(s, t.k00, t.k02, t.k02, t.k22);
    FromPivot(s, t.k00, t.k02, t.k03, t.k23);
    FromPivot(s, t.k00, t.k03, t.k03, t.k33);
  }

  lemma Spelled1(t: Table, s: real)
    requires RankOne(t) && s > 0.0 && IsRoot(s, t.k11)
    ensures Spells(t, Halved(t.k01, s), s * 0.5, Halved(t.k12, s), Halved(t.k13, s))
  {
    hide Halved, IsRoot, Times;
    FromPivot(s, t.k11, t.k01, t.k01, t.k00);
    FromPivot(s, t.k11, t.k01, t.k12, t.k02);
    FromPivot(s, t.k11, t.k01, t.k13, t.k03);
    FromPivot(s, t.k11, t.k12, t.k12, t.k22);
    FromPivot(s, t.k11, t.k12, t.k13, t.k23);
    FromPivot(s, t.k11, t.k13, t.k13, t.k33);
  }

  lemma Spelled2(t: Table, s: real)
    requires RankOne(t) && s > 0.0 && IsRoot(s, t.k22)
    ensures Spells(t, Halved(t.k02, s), Halved(t.k12, s), s * 0.5, Halved(t.k23, s))
  {
    hide Halved, IsRoot, Times;
    FromPivot(s, t.k22, t.k02, t.k02, t.k00);
    FromPivot(s, t.k22, t.k02, t.k12, t.k01);
    FromPivot(s, t.k22, t.k02, t.k23, t.k03);
    FromPivot(s, t.k22, t.k12, t.k12, t.k11);
    FromPivot(s, t.k22, t.k12, t.k23, t.k13);
    FromPivot(s, t.k22, t.k23, t.k23, t.k33);
  }

  lemma Spelled3(t: Table, s: real)
    requires RankOne(t) && s > 0.0 && IsRoot(s, t.k33)
    ensures Spells(t, Halved(t.k03, s), Halved(t.k13, s), Halved(t.k23, s), s * 0.5)
  {
    hide Halved, IsRoot, Times;
    FromPivot(s, t.k33, t.k03, t.k03, t.k00);
    FromPivot(s, t.k33, t.k03, t.k13, t.k01);
    FromPivot(s, t.k33, t.k03, t.k23, t.k02);
    FromPivot(s, t.k33, t.k13, t.k13, t.k11);
    FromPivot(s, t.k33, t.k13, t.k23, t.k12);
    FromPivot(s, t.k33, t.k23, t.k23, t.k22);
  }

  lemma SpelledByTrace(m: Matrix, sqrt: real -> real)
    requires IsSqrt(sqrt) && RankOne(TableOf(m)) && m.Trace() > 0.0
    ensures var q := QuaternionOf(m, sqrt); Spells(TableOf(m), q[0], q[1], q[2], q[3])
  {
    hide Halved, IsRoot, RankOne, Spells;
    RootIsPositive(sqrt, m.Trace() + 1.0);
    Spelled0(TableOf(m), sqrt(m.Trace() + 1.0));
  }

  lemma SpelledByDiagonal(m: Matrix, sqrt: real -> real)
    requires IsSqrt(sqrt) && RankOne(TableOf(m)) && m.Trace() <= 0.0
    ensures var q := QuaternionOf(m, sqrt); Spells(TableOf(m), q[0], q[1], q[2], q[3])
  {
    hide Halved, IsRoot, RankOne, Spells;
    RadicandsAreSafe(m);
    RootIsPositive(sqrt, Radicand(m));
    var s := sqrt(Radicand(m));
    match MaxDiagonal(m) {
      case 0 => Spelled1(TableOf(m), s);
      case 1 => Spelled2(TableOf(m), s);
      case _ => Spelled3(TableOf(m), s);
    }
  }

  /** For every rotation matrix, through each branch: the quaternion is of length one, and its matrix is the one given. */
  lemma MatrixComesBack(m: Matrix, sqrt: real -> real)
    requires IsRotation(m) && IsSqrt(sqrt)
    ensures Norm2(QuaternionOf(m, sqrt)) == 1.0 && DcmOf(QuaternionOf(m, sqrt)) == m
  {
    hide IsRotation, Regular, RankOne, Spells, DcmOfParts, Norm2OfParts, QuaternionOf, TableOf;
    RotationIsRegular(m);
    TableIsRankOne(m);
    if m.Trace() > 0.0 {
      SpelledByTrace(m, sqrt);
    } else {
      SpelledByDiagonal(m, sqrt);
    }
    var q := QuaternionOf(m, sqrt);
    SpelledMatrix(m, q[0], q[1], q[2], q[3]);
  }

  /** The matrices that `mavlink_quaternion_to_dcm` makes of unit quaternions are the rotations, all of them and no others. */
  lemma RotationsExactly(m: Matrix, sqrt: real -> real)
    requires IsSqrt(sqrt)
    ensures IsRotation(m) <==> exists q: Quaternion :: Norm2(q) == 1.0 && DcmOf(q) == m
  {
    hide DcmOf, Norm2, QuaternionOf, Matrix.RowProduct, Matrix.Determinant;
    if IsRotation(m) {
      MatrixComesBack(m, sqrt);
    }
    if exists q: Quaternion :: Norm2(q) == 1.0 && DcmOf(q) == m {
      var q: Quaternion :| Norm2(q) == 1.0 && DcmOf(q) == m;
      DeterminantIsCube(q);
      forall i, j | 0 <= i < 3 && 0 <= j < 3
        ensures m.RowProduct(i, j) == if i == j then 1.0 else 0.0
      {
        RowsAreOrthogonal(q, i, j);
      }
    }
  }
}
