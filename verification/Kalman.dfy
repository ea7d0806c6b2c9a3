/** The Kalman covariance recursion of kalmanFilter.cpp. */
module Kalman {
  // ---- matrices ----------------------------------------------------------------------------

  type Vector = int -> real
  type Matrix = (int, int) -> real

  function Dot(a: Matrix, b: Matrix, i: int, j: int, n: nat): real {
    if n == 0 then 0.0 else Dot(a, b, i, j, n - 1) + a(i, n - 1) * b(n - 1, j)
  }

  /** The product over an inner dimension n. */
  function Mul(a: Matrix, b: Matrix, n: nat): Matrix { (i, j) => Dot(a, b, i, j, n) }

  function Transpose(a: Matrix): Matrix { (i, j) => a(j, i) }

  function Plus(a: Matrix, b: Matrix): Matrix { (i, j) => a(i, j) + b(i, j) }

  function Minus(a: Matrix, b: Matrix): Matrix { (i, j) => a(i, j) - b(i, j) }

  /** The diagonal matrix of the squares of a vector. */
  function Squares(d: Vector): Matrix { (i, j) => if i == j then d(i) * d(i) else 0.0 }

  lemma ZeroTimes(x: real, y: real)
    requires x == 0.0 || y == 0.0
    ensures x * y == 0.0
  {
  }

  lemma Product(x: real, y: real)
    requires x > 0.0
    ensures x * y > 0.0 <==> y > 0.0
    ensures x * y == 0.0 <==> y == 0.0
  {
  }

  lemma Square(x: real)
    ensures x * x >= 0.0
    ensures x * x == 0.0 <==> x == 0.0
  {
    if x > 0.0 {
      Product(x, x);
    } else if x < 0.0 {
      Product(-x, -x);
      assert (-x) * (-x) == x * x;
    }
  }

  /** A product with at most two terms that are not zero. */
  lemma {:induction false} DotOfTwo(a: Matrix, b: Matrix, i: int, j: int, p: nat, q: nat, n: nat)
    requires p < q && forall k :: 0 <= k < n && k != p && k != q ==> a(i, k) == 0.0 || b(k, j) == 0.0
    ensures Dot(a, b, i, j, n)
         == (if p < n then a(i, p) * b(p, j) else 0.0) + (if q < n then a(i, q) * b(q, j) else 0.0)
  {
    if n > 0 {
      DotOfTwo(a, b, i, j, p, q, n - 1);
      if n - 1 != p && n - 1 != q {
        assert a(i, n - 1) == 0.0 || b(n - 1, j) == 0.0;
        ZeroTimes(a(i, n - 1), b(n - 1, j));
      }
    }
  }

  // ---- the filter ----------------------------------------------------------------------------

  const POSITION := 1.0 / 20.0
  const VELOCITY := 1.0 / 160.0

  /** `_motion_mat`: the identity, and a step of one for each velocity. */
  function Motion(): Matrix { (i, j) => if j == i || (0 <= i < 4 && j == i + 4) then 1.0 else 0.0 }

  /** `_update_mat`: the positions. */
  function Positions(): Matrix { (i, j) => if i == j then 1.0 else 0.0 }

  /** Standard deviations: a multiple of the height, but constant for the aspect ratio. */
  function Deviation(scale: real, constant: real, height: real, i: int): real {
    if i == 2 then constant else scale * height
  }

  function InitiateStd(height: real): Vector {
    i => if i < 4 then Deviation(2.0 * POSITION, 0.01, height, i)
         else Deviation(10.0 * VELOCITY, 0.00001, height, i - 4)
  }

  function PredictStd(height: real): Vector {
    i => if i < 4 then Deviation(POSITION, 0.01, height, i) else Deviation(VELOCITY, 0.00001, height, i - 4)
  }

  function ProjectStd(height: real): Vector { i => Deviation(POSITION, 0.1, height, i) }

  datatype State = State(mean: Vector, covariance: Matrix)

  /** Positions as measured, velocities zero. */
  function AtRest(z: Vector): Vector { i => if i < 4 then z(i) else 0.0 }

  function Initiate(z: Vector): State {
    State(AtRest(z), Squares(InitiateStd(z(3))))
  }

  /** Means are kept as rows; products with them go through a column. */
  function Column(v: Vector): Matrix { (i, j) => v(i) }

  function Apply(a: Matrix, v: Vector): Vector { i => Dot(a, Column(v), i, 0, 8) }

  function Predict(s: State): State {
    State(Apply(Motion(), s.mean),
          Plus(Mul(Mul(Motion(), s.covariance, 8), Transpose(Motion()), 8), Squares(PredictStd(s.mean(3)))))
  }

  /** `project`: the distribution of the measurement. */
  function Project(s: State): State {
    State(Apply(Positions(), s.mean),
          Plus(Mul(Mul(Positions(), s.covariance, 8), Transpose(Positions()), 8), Squares(ProjectStd(s.mean(3)))))
  }

  /** What the Cholesky solve in `update` has to find: projected covariance times x is b. */
  ghost predicate Solves(s: State, projected: State, x: Matrix) {
    forall i, j :: 0 <= i < 4 && 0 <= j < 8 ==>
      Mul(projected.covariance, x, 4)(i, j) == Transpose(Mul(s.covariance, Transpose(Positions()), 8))(i, j)
  }

  function Innovation(z: Vector, mean: Vector): Matrix { (i, j) => z(j) - mean(j) }

  /** The correction in `update` for a measurement z, with the solution x of its linear system. */
  function Correct(s: State, projected: State, z: Vector, x: Matrix): State {
    var gain := Transpose(x);
    State(i => s.mean(i) + Mul(Innovation(z, projected.mean), Transpose(gain), 4)(0, i),
          Minus(s.covariance, Mul(Mul(gain, projected.covariance, 4), Transpose(gain), 4)))
  }

  function Update(s: State, z: Vector, x: Matrix): State { Correct(s, Project(s), z, x) }

  // ---- one axis ------------------------------------------------------------------------------

  /** A two-state filter: position and velocity, their variances p and q and covariance c. */
  datatype Axis = Axis(x: real, v: real, p: real, c: real, q: real)

  function PredictAxis(a: Axis, position: real, velocity: real): Axis {
    Axis(a.x + a.v, a.v, a.p + 2.0 * a.c + a.q + position * position, a.c + a.q, a.q + velocity * velocity)
  }

  function UpdateAxis(a: Axis, z: real, noise: real): Axis {
    var s := a.p + noise * noise;
    if s == 0.0 then a
    else
      var k, l := a.p / s, a.c / s;
      Axis(a.x + k * (z - a.x), a.v + l * (z - a.x), a.p - k * a.p, a.c - k * a.c, a.q - l * a.c)
  }

  ghost predicate Positive(a: Axis) {
    a.p > 0.0 && a.p * a.q - a.c * a.c > 0.0
  }

  /** That is positive definiteness of the 2-by-2 covariance. */
  lemma PositiveIsDefinite(a: Axis)
    ensures Positive(a) <==> forall x, y :: x != 0.0 || y != 0.0 ==> Form(a, x, y) > 0.0
  {
    if Positive(a) {
      forall x, y | x != 0.0 || y != 0.0 ensures Form(a, x, y) > 0.0 {
        FormPositive(a, x, y);
      }
    }
    if forall x, y :: x != 0.0 || y != 0.0 ==> Form(a, x, y) > 0.0 {
      assert Form(a, 1.0, 0.0) > 0.0;
      assert Form(a, -a.c, a.p) > 0.0;
      FormAtCorner(a);
    }
  }

  function Form(a: Axis, x: real, y: real): real {
    a.p * x * x + 2.0 * a.c * x * y + a.q * y * y
  }

  lemma FormAtCorner(a: Axis)
    ensures Form(a, 1.0, 0.0) == a.p
    ensures Form(a, -a.c, a.p) == a.p * (a.p * a.q - a.c * a.c)
  {
  }

  lemma FormSquared(a: Axis, x: real, y: real)
    ensures a.p * Form(a, x, y) == (a.p * x + a.c * y) * (a.p * x + a.c * y) + (a.p * a.q - a.c * a.c) * (y * y)
  {
  }

  lemma FormPositive(a: Axis, x: real, y: real)
    requires Positive(a) && (x != 0.0 || y != 0.0)
    ensures Form(a, x, y) > 0.0
  {
    var d, w := a.p * a.q - a.c * a.c, a.p * x + a.c * y;
    FormSquared(a, x, y);
    SquarePlus(w, d, y);
    if y == 0.0 {
      Product(a.p, x);
      Product(a.p, -x);
    }
    Product(a.p, Form(a, x, y));
  }

  lemma SquarePlus(w: real, d: real, y: real)
    requires d > 0.0
    ensures w != 0.0 || y != 0.0 ==> w * w + d * (y * y) > 0.0
  {
    Square(w);
    Square(y);
    Product(d, y * y);
  }

  lemma PredictKeepsPositive(a: Axis, position: real, velocity: real)
    requires Positive(a)
    ensures Positive(PredictAxis(a, position, velocity))
  {
    var u, v := position * position, velocity * velocity;
    var sum, d := a.p + 2.0 * a.c + a.q, a.p * a.q - a.c * a.c;
    FormPositive(a, 1.0, 1.0);
    assert sum > 0.0;
    FormPositive(a, 0.0, 1.0);
    assert a.q > 0.0;
    assert sum * a.q - (a.c + a.q) * (a.c + a.q) == d;
    assert (sum + u) * (a.q + v) == sum * a.q + sum * v + u * a.q + u * v;
    assert sum * v >= 0.0 && u * a.q >= 0.0 && u * v >= 0.0;
  }

  /** An update keeps the covariance positive definite exactly when the measurement has noise. */
  lemma UpdatePositiveIff(a: Axis, z: real, noise: real)
    requires Positive(a)
    ensures Positive(UpdateAxis(a, z, noise)) <==> noise != 0.0
  {
    var u := noise * noise;
    var s := a.p + u;
    var k, l := a.p / s, a.c / s;
    UpdatePositive(a.p, a.c, a.q, u, s, k, l);
    Square(noise);
  }

  lemma UpdatePositive(p: real, c: real, q: real, u: real, s: real, k: real, l: real)
    requires p > 0.0 && p * q - c * c > 0.0 && u >= 0.0 && s == p + u && k * s == p && l * s == c
    ensures p - k * p > 0.0 && (p - k * p) * (q - l * c) - (c - k * c) * (c - k * c) > 0.0 <==> u > 0.0
  {
    var b, e := p - k * p, (p - k * p) * (q - l * c) - (c - k * c) * (c - k * c);
    assert s * b == p * u by {
      assert s * b == s * p - (k * s) * p;
    }
    UpdateDeterminant(p, c, q, u, s, k, l);
    Product(s, b);
    Product(s, e);
    Product(p, u);
    Product(p * q - c * c, u);
  }

  lemma UpdateDeterminant(p: real, c: real, q: real, u: real, s: real, k: real, l: real)
    requires s == p + u && k * s == p && l * s == c && s > 0.0
    ensures s * ((p - k * p) * (q - l * c) - (c - k * c) * (c - k * c)) == u * (p * q - c * c)
  {
    var m := 1.0 - k;
    assert s * m == u;
    assert p * l == k * c by {
      assert (p * l) * s == p * (l * s) == p * c;
      assert (k * c) * s == c * (k * s) == c * p;
    }
    assert p - k * p == p * m && c - k * c == c * m;
    assert (p * m) * (q - l * c) - (c * m) * (c * m) == m * (p * q - p * l * c - c * c * m);
    assert p * l * c == k * c * c;
    assert p * q - p * l * c - c * c * m == p * q - c * c;
    assert s * (m * (p * q - c * c)) == (s * m) * (p * q - c * c);
  }

  // ---- the matrices, entry by entry ----------------------------------------------------------

  lemma MotionLeft(b: Matrix, i: int, j: int)
    requires 0 <= i < 8
    ensures Dot(Motion(), b, i, j, 8) == b(i, j) + if i < 4 then b(i + 4, j) else 0.0
  {
    DotOfTwo(Motion(), b, i, j, i, i + 4, 8);
  }

  lemma MotionRight(a: Matrix, i: int, j: int)
    requires 0 <= j < 8
    ensures Dot(a, Transpose(Motion()), i, j, 8) == a(i, j) + if j < 4 then a(i, j + 4) else 0.0
  {
    DotOfTwo(a, Transpose(Motion()), i, j, j, j + 4, 8);
  }

  lemma PositionsLeft(b: Matrix, i: int, j: int)
    requires 0 <= i < 8
    ensures Dot(Positions(), b, i, j, 8) == b(i, j)
  {
    DotOfTwo(Positions(), b, i, j, i, 8, 8);
  }

  lemma PositionsRight(a: Matrix, i: int, j: int)
    requires 0 <= j < 8
    ensures Dot(a, Transpose(Positions()), i, j, 8) == a(i, j)
  {
    DotOfTwo(a, Transpose(Positions()), i, j, j, 8, 8);
  }

  /** The filter of one of the four coordinates inside the eight-state filter. */
  function AxisOf(s: State, i: int): Axis {
    Axis(s.mean(i), s.mean(i + 4), s.covariance(i, i), s.covariance(i, i + 4), s.covariance(i + 4, i + 4))
  }

  /** Symmetric, and zero outside the four (i, i + 4) blocks. */
  ghost predicate Blocks(m: Matrix) {
    forall i, j :: 0 <= i < 8 && 0 <= j < 8 ==> m(i, j) == m(j, i) && (i % 4 != j % 4 ==> m(i, j) == 0.0)
  }

  /** And positive definite on each block. */
  ghost predicate Sound(s: State) {
    Blocks(s.covariance) && forall i :: 0 <= i < 4 ==> Positive(AxisOf(s, i))
  }

  lemma DeviationVanishes(scale: real, constant: real, height: real, i: int)
    requires scale > 0.0 && constant > 0.0
    ensures Deviation(scale, constant, height, i) == 0.0 <==> i != 2 && height == 0.0
  {
    Product(scale, height);
  }

  /** A first measurement starts a sound filter exactly when its height is not zero. */
  lemma InitiateSoundIff(z: Vector)
    ensures Sound(Initiate(z)) <==> z(3) != 0.0
  {
    var s, std := Initiate(z), InitiateStd(z(3));
    forall i | 0 <= i < 4 ensures Positive(AxisOf(s, i)) <==> i == 2 || z(3) != 0.0 {
      DeviationVanishes(2.0 * POSITION, 0.01, z(3), i);
      DeviationVanishes(10.0 * VELOCITY, 0.00001, z(3), i);
      assert std(i) == Deviation(2.0 * POSITION, 0.01, z(3), i);
      assert std(i + 4) == Deviation(10.0 * VELOCITY, 0.00001, z(3), i);
      DiagonalPositive(z(i), std(i), std(i + 4));
      assert AtRest(z)(i + 4) == 0.0;
      assert AxisOf(s, i) == Axis(z(i), 0.0, std(i) * std(i), 0.0, std(i + 4) * std(i + 4));
    }
    if z(3) == 0.0 { assert !Positive(AxisOf(s, 0)); }
  }

  lemma DiagonalPositive(x: real, d: real, e: real)
    ensures Positive(Axis(x, 0.0, d * d, 0.0, e * e)) <==> d != 0.0 && e != 0.0
  {
    Square(d);
    Square(e);
    if d != 0.0 { Product(d * d, e * e); }
  }

  function Moved(m: Matrix, i: int, j: int): real {
    m(i, j) + (if i < 4 then m(i + 4, j) else 0.0) + (if j < 4 then m(i, j + 4) else 0.0)
    + if i < 4 && j < 4 then m(i + 4, j + 4) else 0.0
  }

  function MovedMean(v: Vector, i: int): real { v(i) + if i < 4 then v(i + 4) else 0.0 }

  lemma MotionBoth(m: Matrix, i: int, j: int)
    requires 0 <= i < 8 && 0 <= j < 8
    ensures Dot(Mul(Motion(), m, 8), Transpose(Motion()), i, j, 8) == Moved(m, i, j)
  {
    MotionRight(Mul(Motion(), m, 8), i, j);
    MotionLeft(m, i, j);
    if j < 4 { MotionLeft(m, i, j + 4); }
  }

  /** t is s moved one step, with the given noise. */
  ghost predicate Predicts(s: State, noise: Vector, t: State) {
    (forall i, j :: 0 <= i < 8 && 0 <= j < 8 ==>
       t.covariance(i, j) == Moved(s.covariance, i, j) + if i == j then noise(i) * noise(i) else 0.0)
    && forall i :: 0 <= i < 8 ==> t.mean(i) == MovedMean(s.mean, i)
  }

  lemma PlusSquares(a: Matrix, noise: Vector, i: int, j: int)
    ensures Plus(a, Squares(noise))(i, j) == a(i, j) + if i == j then noise(i) * noise(i) else 0.0
  {
  }

  lemma PredictMean(s: State, i: int)
    requires 0 <= i < 8
    ensures Predict(s).mean(i) == MovedMean(s.mean, i)
  {
    MotionLeft(Column(s.mean), i, 0);
    assert Predict(s).mean(i) == Apply(Motion(), s.mean)(i);
  }

  lemma PredictPredicts(s: State)
    ensures Predicts(s, PredictStd(s.mean(3)), Predict(s))
  {
    forall i, j | 0 <= i < 8 && 0 <= j < 8
      ensures Mul(Mul(Motion(), s.covariance, 8), Transpose(Motion()), 8)(i, j) == Moved(s.covariance, i, j)
    {
      MotionBoth(s.covariance, i, j);
    }
    forall i | 0 <= i < 8 ensures Predict(s).mean(i) == MovedMean(s.mean, i) {
      PredictMean(s, i);
    }
    AddNoise(s, Mul(Mul(Motion(), s.covariance, 8), Transpose(Motion()), 8), PredictStd(s.mean(3)), Predict(s));
  }

  lemma AddNoise(s: State, m: Matrix, noise: Vector, t: State)
    requires t.covariance == Plus(m, Squares(noise))
    requires forall i, j :: 0 <= i < 8 && 0 <= j < 8 ==> m(i, j) == Moved(s.covariance, i, j)
    requires forall i :: 0 <= i < 8 ==> t.mean(i) == MovedMean(s.mean, i)
    ensures Predicts(s, noise, t)
  {
    forall i, j | 0 <= i < 8 && 0 <= j < 8
      ensures t.covariance(i, j) == Moved(s.covariance, i, j) + if i == j then noise(i) * noise(i) else 0.0
    {
      PlusSquares(m, noise, i, j);
      assert m(i, j) == Moved(s.covariance, i, j);
    }
  }

  /** A prediction acts on each coordinate as its own two-state filter. */
  lemma PredictByAxis(s: State, noise: Vector, t: State, i: int)
    requires 0 <= i < 4 && Blocks(s.covariance) && Predicts(s, noise, t)
    ensures AxisOf(t, i) == PredictAxis(AxisOf(s, i), noise(i), noise(i + 4))
  {
    var m := s.covariance;
    assert m(i, i + 4) == m(i + 4, i);
    assert t.mean(i) == MovedMean(s.mean, i) && t.mean(i + 4) == MovedMean(s.mean, i + 4);
    assert t.covariance(i, i) == Moved(m, i, i) + noise(i) * noise(i);
    assert t.covariance(i, i + 4) == Moved(m, i, i + 4);
    assert t.covariance(i + 4, i + 4) == Moved(m, i + 4, i + 4) + noise(i + 4) * noise(i + 4);
  }

  lemma PredictKeepsBlocks(s: State, noise: Vector, t: State)
    requires Blocks(s.covariance) && Predicts(s, noise, t)
    ensures Blocks(t.covariance)
  {
    forall i, j | 0 <= i < 8 && 0 <= j < 8
      ensures Moved(s.covariance, i, j) == Moved(s.covariance, j, i)
      ensures i % 4 != j % 4 ==> Moved(s.covariance, i, j) == 0.0
    {
    }
  }

  /** A prediction keeps the filter sound, whatever the height. */
  lemma PredictKeepsSound(s: State)
    requires Sound(s)
    ensures Sound(Predict(s))
  {
    PredictPredicts(s);
    PredictSound(s, PredictStd(s.mean(3)), Predict(s));
  }

  lemma PredictSound(s: State, noise: Vector, t: State)
    requires Sound(s) && Predicts(s, noise, t)
    ensures Sound(t)
  {
    PredictKeepsBlocks(s, noise, t);
    forall i | 0 <= i < 4 ensures Positive(AxisOf(t, i)) {
      PredictByAxis(s, noise, t, i);
      PredictKeepsPositive(AxisOf(s, i), noise(i), noise(i + 4));
    }
  }

  // ---- project and update ----------------------------------------------------------------------

  /** t is the measurement's distribution in state s, with the given noise. */
  ghost predicate Projects(s: State, noise: Vector, t: State) {
    (forall i, j :: 0 <= i < 4 && 0 <= j < 4 ==>
       t.covariance(i, j) == s.covariance(i, j) + if i == j then noise(i) * noise(i) else 0.0)
    && forall i :: 0 <= i < 4 ==> t.mean(i) == s.mean(i)
  }

  lemma ProjectProjects(s: State)
    ensures Projects(s, ProjectStd(s.mean(3)), Project(s))
  {
    var m := Mul(Mul(Positions(), s.covariance, 8), Transpose(Positions()), 8);
    forall i, j | 0 <= i < 4 && 0 <= j < 4 ensures m(i, j) == s.covariance(i, j) {
      PositionsBoth(s.covariance, i, j);
    }
    forall i | 0 <= i < 4 ensures Project(s).mean(i) == s.mean(i) {
      PositionsLeft(Column(s.mean), i, 0);
      assert Project(s).mean(i) == Apply(Positions(), s.mean)(i);
    }
    AddProjectNoise(s, m, ProjectStd(s.mean(3)), Project(s));
  }

  lemma PositionsBoth(m: Matrix, i: int, j: int)
    requires 0 <= i < 8 && 0 <= j < 8
    ensures Dot(Mul(Positions(), m, 8), Transpose(Positions()), i, j, 8) == m(i, j)
  {
    PositionsRight(Mul(Positions(), m, 8), i, j);
    PositionsLeft(m, i, j);
  }

  lemma AddProjectNoise(s: State, m: Matrix, noise: Vector, t: State)
    requires t.covariance == Plus(m, Squares(noise))
    requires forall i, j :: 0 <= i < 4 && 0 <= j < 4 ==> m(i, j) == s.covariance(i, j)
    requires forall i :: 0 <= i < 4 ==> t.mean(i) == s.mean(i)
    ensures Projects(s, noise, t)
  {
    forall i, j | 0 <= i < 4 && 0 <= j < 4
      ensures t.covariance(i, j) == s.covariance(i, j) + if i == j then noise(i) * noise(i) else 0.0
    {
      PlusSquares(m, noise, i, j);
    }
  }

  /** Diagonal, with a positive diagonal. */
  ghost predicate Diagonal(m: Matrix) {
    forall i, j :: 0 <= i < 4 && 0 <= j < 4 ==> if i == j then m(i, j) > 0.0 else m(i, j) == 0.0
  }

  /** The projected covariance of a sound filter is diagonal and positive. */
  lemma ProjectDiagonal(s: State)
    requires Sound(s)
    ensures Diagonal(Project(s).covariance)
  {
    ProjectProjects(s);
    ProjectsDiagonal(s, ProjectStd(s.mean(3)), Project(s));
  }

  lemma ProjectsDiagonal(s: State, noise: Vector, t: State)
    requires Sound(s) && Projects(s, noise, t)
    ensures Diagonal(t.covariance)
  {
    forall i, j | 0 <= i < 4 && 0 <= j < 4
      ensures if i == j then t.covariance(i, j) > 0.0 else t.covariance(i, j) == 0.0
    {
      Square(noise(i));
      assert Positive(AxisOf(s, i));
    }
  }

  /** The solution of the linear system: each row over its own variance. */
  function Share(s: State, t: State, i: int, j: int): real {
    var v := t.covariance(i, i);
    if v == 0.0 then 0.0 else s.covariance(j, i) / v
  }

  ghost predicate Shares(s: State, t: State, x: Matrix) {
    forall i, j :: 0 <= i < 4 && 0 <= j < 8 ==> x(i, j) == Share(s, t, i, j)
  }

  /** The linear system of `update` has exactly one solution. */
  lemma SolvesIff(s: State, t: State, x: Matrix)
    requires Diagonal(t.covariance)
    ensures Solves(s, t, x) <==> Shares(s, t, x)
  {
    forall i, j | 0 <= i < 4 && 0 <= j < 8
      ensures Mul(t.covariance, x, 4)(i, j) == Transpose(Mul(s.covariance, Transpose(Positions()), 8))(i, j)
              <==> x(i, j) == Share(s, t, i, j)
    {
      RowSolves(s, t, x, i, j);
    }
  }

  lemma RowSolves(s: State, t: State, x: Matrix, i: int, j: int)
    requires Diagonal(t.covariance) && 0 <= i < 4 && 0 <= j < 8
    ensures Mul(t.covariance, x, 4)(i, j) == Transpose(Mul(s.covariance, Transpose(Positions()), 8))(i, j)
            <==> x(i, j) == Share(s, t, i, j)
  {
    var m := t.covariance;
    DotOfTwo(m, x, i, j, i, 4, 4);
    PositionsRight(s.covariance, j, i);
    Quotient(m(i, i), x(i, j), s.covariance(j, i));
  }

  lemma Quotient(v: real, x: real, y: real)
    requires v > 0.0
    ensures v * x == y <==> x == y / v
  {
  }

  function Triple(x: real, y: real, z: real): real { x * y * z }

  lemma SandwichEntry(gain: Matrix, m: Matrix, i: int, j: int, a: int)
    requires Diagonal(m) && 0 <= a < 4 && forall k :: 0 <= k < 4 && k != a ==> gain(i, k) == 0.0
    ensures Mul(Mul(gain, m, 4), Transpose(gain), 4)(i, j) == Triple(gain(i, a), m(a, a), gain(j, a))
  {
    var left := Mul(gain, m, 4);
    forall k | 0 <= k < 4 ensures left(i, k) == gain(i, k) * m(k, k) {
      DotOfTwo(gain, m, i, k, k, 4, 4);
    }
    forall k | 0 <= k < 4 && k != a ensures left(i, k) == 0.0 { ZeroTimes(gain(i, k), m(k, k)); }
    DotOfTwo(left, Transpose(gain), i, j, a, 4, 4);
  }

  lemma GainOutside(s: State, t: State, x: Matrix, i: int)
    requires Blocks(s.covariance) && Diagonal(t.covariance) && Shares(s, t, x) && 0 <= i < 8
    ensures forall k :: 0 <= k < 4 && k != i % 4 ==> x(k, i) == 0.0
  {
    forall k | 0 <= k < 4 && k != i % 4 ensures x(k, i) == 0.0 {
      assert x(k, i) == Share(s, t, k, i);
      assert s.covariance(i, k) == 0.0;
    }
  }

  function Loss(m: Matrix, x: Matrix, i: int, j: int): real { Triple(x(i % 4, i), m(i % 4, i % 4), x(i % 4, j)) }

  lemma MinusEntry(a: Matrix, b: Matrix, i: int, j: int)
    ensures Minus(a, b)(i, j) == a(i, j) - b(i, j)
  {
  }

  lemma CorrectCovariance(s: State, t: State, z: Vector, x: Matrix, i: int, j: int)
    requires Blocks(s.covariance) && Diagonal(t.covariance) && Shares(s, t, x) && 0 <= i < 8 && 0 <= j < 8
    ensures Correct(s, t, z, x).covariance(i, j) == s.covariance(i, j) - Loss(t.covariance, x, i, j)
  {
    var gain := Transpose(x);
    GainOutside(s, t, x, i);
    SandwichEntry(gain, t.covariance, i, j, i % 4);
    assert gain(i, i % 4) == x(i % 4, i) && gain(j, i % 4) == x(i % 4, j);
    MinusEntry(s.covariance, Mul(Mul(gain, t.covariance, 4), Transpose(gain), 4), i, j);
  }

  lemma CorrectMean(s: State, t: State, z: Vector, x: Matrix, i: int)
    requires Blocks(s.covariance) && Diagonal(t.covariance) && Shares(s, t, x) && 0 <= i < 8
    ensures Correct(s, t, z, x).mean(i) == s.mean(i) + (z(i % 4) - t.mean(i % 4)) * x(i % 4, i)
  {
    GainOutside(s, t, x, i);
    DotOfTwo(Innovation(z, t.mean), Transpose(Transpose(x)), 0, i, i % 4, 4, 4);
  }

  /** u is s corrected, entry by entry. */
  ghost predicate Corrects(s: State, t: State, z: Vector, x: Matrix, u: State) {
    (forall i, j :: 0 <= i < 8 && 0 <= j < 8 ==> u.covariance(i, j) == s.covariance(i, j) - Loss(t.covariance, x, i, j))
    && forall i :: 0 <= i < 8 ==> u.mean(i) == s.mean(i) + (z(i % 4) - t.mean(i % 4)) * x(i % 4, i)
  }

  lemma CorrectCorrects(s: State, t: State, z: Vector, x: Matrix)
    requires Blocks(s.covariance) && Diagonal(t.covariance) && Shares(s, t, x)
    ensures Corrects(s, t, z, x, Correct(s, t, z, x))
  {
    var u := Correct(s, t, z, x);
    forall i, j | 0 <= i < 8 && 0 <= j < 8
      ensures u.covariance(i, j) == s.covariance(i, j) - Loss(t.covariance, x, i, j)
    {
      CorrectCovariance(s, t, z, x, i, j);
    }
    forall i | 0 <= i < 8 ensures u.mean(i) == s.mean(i) + (z(i % 4) - t.mean(i % 4)) * x(i % 4, i) {
      CorrectMean(s, t, z, x, i);
    }
  }

  // What an update with gains k and l makes of one axis, in three parts.

  ghost predicate MeanPart(a: Axis, b: Axis, z: real, k: real, l: real) {
    b.x == a.x + (z - a.x) * k && b.v == a.v + (z - a.x) * l
  }

  ghost predicate CovariancePart(a: Axis, b: Axis, v: real, k: real, l: real) {
    b.p == a.p - Triple(k, v, k) && b.c == a.c - Triple(k, v, l) && b.q == a.q - Triple(l, v, l)
  }

  ghost predicate GainPart(a: Axis, noise: real, v: real, k: real, l: real) {
    v == a.p + noise * noise && v > 0.0 && k == a.p / v && l == a.c / v
  }

  lemma CorrectedMean(s: State, noise: Vector, t: State, z: Vector, x: Matrix, u: State, i: int)
    requires 0 <= i < 4 && Corrects(s, t, z, x, u) && Projects(s, noise, t)
    ensures MeanPart(AxisOf(s, i), AxisOf(u, i), z(i), x(i, i), x(i, i + 4))
  {
    assert (i + 4) % 4 == i % 4 == i;
  }

  lemma CorrectedCovariance(s: State, t: State, z: Vector, x: Matrix, u: State, i: int)
    requires 0 <= i < 4 && Corrects(s, t, z, x, u)
    ensures CovariancePart(AxisOf(s, i), AxisOf(u, i), t.covariance(i, i), x(i, i), x(i, i + 4))
  {
    assert (i + 4) % 4 == i % 4 == i;
    assert u.covariance(i, i) == s.covariance(i, i) - Loss(t.covariance, x, i, i);
    assert u.covariance(i, i + 4) == s.covariance(i, i + 4) - Loss(t.covariance, x, i, i + 4);
    assert u.covariance(i + 4, i + 4) == s.covariance(i + 4, i + 4) - Loss(t.covariance, x, i + 4, i + 4);
  }

  lemma OwnShares(s: State, noise: Vector, t: State, x: Matrix, i: int)
    requires 0 <= i < 4 && Blocks(s.covariance) && Diagonal(t.covariance) && Shares(s, t, x) && Projects(s, noise, t)
    ensures GainPart(AxisOf(s, i), noise(i), t.covariance(i, i), x(i, i), x(i, i + 4))
  {
    assert x(i, i) == Share(s, t, i, i) && x(i, i + 4) == Share(s, t, i, i + 4);
    assert s.covariance(i + 4, i) == s.covariance(i, i + 4);
  }

  lemma UpdateAxisBy(a: Axis, z: real, noise: real, v: real, k: real, l: real, b: Axis)
    requires MeanPart(a, b, z, k, l) && CovariancePart(a, b, v, k, l) && GainPart(a, noise, v, k, l)
    ensures b == UpdateAxis(a, z, noise)
  {
    Gains(v, k, a.p, l, a.c);
  }

  /** An update acts on each coordinate as its own two-state filter. */
  lemma CorrectByAxis(s: State, noise: Vector, t: State, z: Vector, x: Matrix, u: State, i: int)
    requires 0 <= i < 4 && Sound(s) && Projects(s, noise, t) && Shares(s, t, x) && Corrects(s, t, z, x, u)
    ensures AxisOf(u, i) == UpdateAxis(AxisOf(s, i), z(i), noise(i))
  {
    ProjectsDiagonal(s, noise, t);
    OwnShares(s, noise, t, x, i);
    CorrectedMean(s, noise, t, z, x, u, i);
    CorrectedCovariance(s, t, z, x, u, i);
    UpdateAxisBy(AxisOf(s, i), z(i), noise(i), t.covariance(i, i), x(i, i), x(i, i + 4), AxisOf(u, i));
  }

  lemma Gains(v: real, k: real, p: real, l: real, c: real)
    requires v > 0.0 && k == p / v && l == c / v
    ensures k * v * k == k * p && k * v * l == k * c && l * v * l == l * c
  {
    assert k * v == p && l * v == c;
  }

  lemma CorrectKeepsBlocks(s: State, t: State, z: Vector, x: Matrix, u: State)
    requires Blocks(s.covariance) && Diagonal(t.covariance) && Shares(s, t, x) && Corrects(s, t, z, x, u)
    ensures Blocks(u.covariance)
  {
    forall i, j | 0 <= i < 8 && 0 <= j < 8
      ensures Loss(t.covariance, x, i, j) == Loss(t.covariance, x, j, i)
      ensures i % 4 != j % 4 ==> Loss(t.covariance, x, i, j) == 0.0
    {
      LossBlocks(s, t, x, i, j);
      LossBlocks(s, t, x, j, i);
    }
  }

  lemma LossBlocks(s: State, t: State, x: Matrix, i: int, j: int)
    requires Blocks(s.covariance) && Diagonal(t.covariance) && Shares(s, t, x) && 0 <= i < 8 && 0 <= j < 8
    ensures i % 4 == j % 4 ==> Loss(t.covariance, x, i, j) == Loss(t.covariance, x, j, i)
    ensures i % 4 != j % 4 ==> Loss(t.covariance, x, i, j) == 0.0
  {
    GainOutside(s, t, x, j);
    var a, b, c := x(i % 4, i), t.covariance(i % 4, i % 4), x(i % 4, j);
    if i % 4 == j % 4 {
      assert a * b * c == c * b * a;
    } else {
      ZeroTimes(a * b, c);
    }
  }

  /** An update keeps the filter sound exactly when the estimated height is not zero. */
  lemma UpdateSoundIff(s: State, z: Vector, x: Matrix)
    requires Sound(s) && Solves(s, Project(s), x)
    ensures Sound(Update(s, z, x)) <==> s.mean(3) != 0.0
  {
    var noise, t, u := ProjectStd(s.mean(3)), Project(s), Update(s, z, x);
    ProjectProjects(s);
    ProjectsDiagonal(s, noise, t);
    SolvesIff(s, t, x);
    CorrectCorrects(s, t, z, x);
    CorrectKeepsBlocks(s, t, z, x, u);
    forall i | 0 <= i < 4 ensures Positive(AxisOf(u, i)) <==> i == 2 || s.mean(3) != 0.0 {
      CorrectByAxis(s, noise, t, z, x, u, i);
      UpdatePositiveIff(AxisOf(s, i), z(i), noise(i));
      DeviationVanishes(POSITION, 0.1, s.mean(3), i);
    }
    if s.mean(3) == 0.0 { assert !Positive(AxisOf(u, 0)); }
  }

  // ---- whole runs ------------------------------------------------------------------------------

  datatype Op = Predicting(tracked: bool) | Updating(z: Vector, x: Matrix)

  /** A track that is not Tracked loses the velocity of its height before it is predicted. */
  function Rest(s: State): State {
    s.(mean := i => if i == 7 then 0.0 else s.mean(i))
  }

  /** `multi_predict` of one track. */
  function PredictTrack(s: State, tracked: bool): State {
    Predict(if tracked then s else Rest(s))
  }

  lemma RestKeepsSound(s: State)
    requires Sound(s)
    ensures Sound(Rest(s)) && Axes(Rest(s)) == RestAxes(Axes(s)) && Rest(s).mean(3) == s.mean(3)
  {
    forall i | 0 <= i < 4 ensures Positive(AxisOf(Rest(s), i)) && Axes(Rest(s))[i] == RestAxes(Axes(s))[i] {
      assert Positive(AxisOf(s, i));
    }
  }

  /** The filter's next state; an update comes with the solution of its linear system. */
  function Next(s: State, op: Op): State {
    match op
    case Predicting(tracked) => PredictTrack(s, tracked)
    case Updating(z, x) => Update(s, z, x)
  }

  function After(s: State, ops: seq<Op>): State {
    if ops == [] then s else Next(After(s, ops[..|ops| - 1]), ops[|ops| - 1])
  }

  /** Every update solved its system and met a height that is not zero. */
  ghost predicate WellUsed(s: State, ops: seq<Op>) {
    ops != [] ==>
      var last, t := ops[|ops| - 1], After(s, ops[..|ops| - 1]);
      WellUsed(s, ops[..|ops| - 1])
      && (last.Updating? ==> Solves(t, Project(t), last.x) && t.mean(3) != 0.0)
  }

  /** From a measurement of nonzero height, every well-used run stays sound. */
  lemma {:induction false} RunSound(z0: Vector, ops: seq<Op>)
    requires z0(3) != 0.0 && WellUsed(Initiate(z0), ops)
    ensures Sound(After(Initiate(z0), ops))
  {
    if ops == [] {
      InitiateSoundIff(z0);
    } else {
      RunSound(z0, ops[..|ops| - 1]);
      var s := After(Initiate(z0), ops[..|ops| - 1]);
      match ops[|ops| - 1]
      case Predicting(tracked) =>
        RestKeepsSound(s);
        PredictKeepsSound(if tracked then s else Rest(s));
      case Updating(z, x) => UpdateSoundIff(s, z, x);
    }
  }

  // ---- four independent filters ------------------------------------------------------------------

  function Axes(s: State): (r: seq<Axis>)
    ensures |r| == 4 && forall i :: 0 <= i < 4 ==> r[i] == AxisOf(s, i)
  {
    seq(4, i => AxisOf(s, i))
  }

  /** Only the height filter is affected. */
  function RestAxes(a: seq<Axis>): (r: seq<Axis>)
    requires |a| == 4
    ensures |r| == 4
  {
    a[3 := a[3].(v := 0.0)]
  }

  function PredictAxes(a: seq<Axis>): (r: seq<Axis>)
    requires |a| == 4
    ensures |r| == 4
  {
    seq(4, i requires 0 <= i < 4 => PredictAxis(a[i], PredictStd(a[3].x)(i), PredictStd(a[3].x)(i + 4)))
  }

  /** One step of four two-state filters; they share the noise that the estimated height sets. */
  function NextAxes(a: seq<Axis>, op: Op): (r: seq<Axis>)
    requires |a| == 4
    ensures |r| == 4
  {
    var h := a[3].x;
    match op
    case Predicting(tracked) => PredictAxes(if tracked then a else RestAxes(a))
    case Updating(z, _) => seq(4, i requires 0 <= i < 4 => UpdateAxis(a[i], z(i), ProjectStd(h)(i)))
  }

  function AxesAfter(a: seq<Axis>, ops: seq<Op>): (r: seq<Axis>)
    requires |a| == 4
    ensures |r| == 4
  {
    if ops == [] then a else NextAxes(AxesAfter(a, ops[..|ops| - 1]), ops[|ops| - 1])
  }

  /** One step of the eight-state filter is one step of each of the four. */
  lemma NextByAxes(s: State, op: Op)
    requires Sound(s) && (op.Updating? ==> Solves(s, Project(s), op.x))
    ensures Axes(Next(s, op)) == NextAxes(Axes(s), op)
  {
    forall i | 0 <= i < 4 ensures Axes(Next(s, op))[i] == NextAxes(Axes(s), op)[i] {
      match op
      case Predicting(tracked) =>
        RestKeepsSound(s);
        var t := if tracked then s else Rest(s);
        PredictPredicts(t);
        PredictByAxis(t, PredictStd(t.mean(3)), Predict(t), i);
      case Updating(z, x) =>
        ProjectProjects(s);
        ProjectsDiagonal(s, ProjectStd(s.mean(3)), Project(s));
        SolvesIff(s, Project(s), x);
        CorrectCorrects(s, Project(s), z, x);
        CorrectByAxis(s, ProjectStd(s.mean(3)), Project(s), z, x, Update(s, z, x), i);
    }
  }

  /** A well-used run of the eight-state filter is the run of the four. */
  lemma {:induction false} RunByAxes(z0: Vector, ops: seq<Op>)
    requires z0(3) != 0.0 && WellUsed(Initiate(z0), ops)
    ensures Axes(After(Initiate(z0), ops)) == AxesAfter(Axes(Initiate(z0)), ops)
  {
    if ops != [] {
      var earlier := ops[..|ops| - 1];
      RunByAxes(z0, earlier);
      RunSound(z0, earlier);
      NextByAxes(After(Initiate(z0), earlier), ops[|ops| - 1]);
    }
  }

  // ---- the first correction, in numbers ------------------------------------------------------------

  function Sq(x: real): real { x * x }

  lemma RatioIs(p: real, s: real, k: real)
    requires s > 0.0 && p == k * s
    ensures p / s == k
  {
  }

  /** What one prediction and one correction by z leave of a coordinate started at z0 that scales with
      the height: it moves 105/121 of the way, its velocity is 25/121 of the difference, and its
      variances are fixed fractions of the squared height hh. */
  ghost predicate LengthCorrected(b: Axis, z0: real, z: real, hh: real) {
    b.x == z0 + 105.0 / 121.0 * (z - z0) && b.v == 25.0 / 121.0 * (z - z0)
    && b.p == 21.0 / 9680.0 * hh && b.c == 1.0 / 1936.0 * hh && b.q == 9721.0 / 3097600.0 * hh
  }

  /** And of the aspect ratio, whose noise does not scale: it moves by less than a fiftieth. */
  ghost predicate AspectCorrected(b: Axis, z0: real, z: real) {
    b.x == z0 + 2000001.0 / 102000001.0 * (z - z0) && b.v == 1.0 / 102000001.0 * (z - z0)
    && b.q == 0.0000000002 - 0.0000000001 / 102000001.0
  }

  /** An update with gains k and l. */
  lemma UpdateBy(a: Axis, z: real, noise: real, r: real, k: real, l: real)
    requires r == noise * noise && a.p + r > 0.0 && a.p == k * (a.p + r) && a.c == l * (a.p + r)
    ensures UpdateAxis(a, z, noise)
         == Axis(a.x + k * (z - a.x), a.v + l * (z - a.x), a.p - k * a.p, a.c - k * a.c, a.q - l * a.c)
  {
    RatioIs(a.p, a.p + r, k);
    RatioIs(a.c, a.p + r, l);
  }

  lemma PredictBy(a: Axis, position: real, velocity: real, pp: real, vv: real)
    requires pp == position * position && vv == velocity * velocity
    ensures PredictAxis(a, position, velocity) == Axis(a.x + a.v, a.v, a.p + 2.0 * a.c + a.q + pp, a.c + a.q, a.q + vv)
  {
  }

  lemma FirstOfLength(h: real, hh: real, z0: real, z: real, a: Axis)
    requires hh == Sq(h) && hh > 0.0 && a == Axis(z0, 0.0, hh / 100.0, 0.0, hh / 256.0)
    ensures LengthCorrected(UpdateAxis(PredictAxis(a, h / 20.0, h / 160.0), z, h / 20.0), z0, z, hh)
  {
    Fraction(h, 20.0);
    Fraction(h, 160.0);
    PredictBy(a, h / 20.0, h / 160.0, hh / 400.0, hh / 25600.0);
    var m := PredictAxis(a, h / 20.0, h / 160.0);
    assert m == Axis(z0, 0.0, 21.0 / 1280.0 * hh, hh / 256.0, 101.0 / 25600.0 * hh);
    UpdateBy(m, z, h / 20.0, hh / 400.0, 105.0 / 121.0, 25.0 / 121.0);
  }

  lemma Fraction(h: real, n: real)
    requires n > 0.0
    ensures (h / n) * (h / n) == h * h / (n * n)
  {
    var x := h / n;
    assert x * n == h;
    var k, s := x * x, n * n;
    Square(n);
    assert k * s == (x * n) * (x * n);
    RatioIs(h * h, s, k);
  }

  lemma FirstOfAspect(z0: real, z: real, a: Axis)
    requires a == Axis(z0, 0.0, 0.0001, 0.0, 0.0000000001)
    ensures AspectCorrected(UpdateAxis(PredictAxis(a, 0.01, 0.00001), z, 0.1), z0, z)
  {
    PredictBy(a, 0.01, 0.00001, 0.0001, 0.0000000001);
    var m := PredictAxis(a, 0.01, 0.00001);
    UpdateBy(m, z, 0.1, 0.01, 2000001.0 / 102000001.0, 1.0 / 102000001.0);
  }

  lemma NoiseOf(h: real, i: int)
    requires 0 <= i < 4
    ensures i != 2 ==> InitiateStd(h)(i) == h / 10.0 && PredictStd(h)(i) == h / 20.0 && ProjectStd(h)(i) == h / 20.0
    ensures i != 2 ==> InitiateStd(h)(i + 4) == h / 16.0 && PredictStd(h)(i + 4) == h / 160.0
    ensures i == 2 ==> InitiateStd(h)(i) == PredictStd(h)(i) == 0.01 && ProjectStd(h)(i) == 0.1
    ensures i == 2 ==> InitiateStd(h)(i + 4) == PredictStd(h)(i + 4) == 0.00001
  {
    var j := i + 4;
    assert j - 4 == i;
    assert InitiateStd(h)(j) == Deviation(10.0 * VELOCITY, 0.00001, h, i);
    assert PredictStd(h)(j) == Deviation(VELOCITY, 0.00001, h, i);
    assert InitiateStd(h)(i) == Deviation(2.0 * POSITION, 0.01, h, i);
    assert PredictStd(h)(i) == Deviation(POSITION, 0.01, h, i);
    assert ProjectStd(h)(i) == Deviation(POSITION, 0.1, h, i);
  }

  /** What the first two steps leave of one coordinate. */
  ghost predicate FirstCorrected(b: Axis, z0: real, z: real, hh: real, i: int) {
    if i == 2 then AspectCorrected(b, z0, z) else LengthCorrected(b, z0, z, hh)
  }

  /** The first prediction and correction of a track, whatever its size. */
  lemma FirstCorrection(z0: Vector, hh: real, z: Vector, x: Matrix, tracked: bool, s: State, i: int)
    requires hh == Sq(z0(3)) && hh > 0.0 && 0 <= i < 4
    requires WellUsed(Initiate(z0), [Predicting(tracked), Updating(z, x)])
    requires s == After(Initiate(z0), [Predicting(tracked), Updating(z, x)])
    ensures FirstCorrected(AxisOf(s, i), z0(i), z(i), hh, i)
  {
    AfterAxis(z0, hh, [Predicting(tracked), Updating(z, x)], s, i);
    TwoSteps(Axes(Initiate(z0)), Predicting(tracked), Updating(z, x));
    FirstAxes(z0, hh, z, x, tracked, NextAxes(NextAxes(Axes(Initiate(z0)), Predicting(tracked)), Updating(z, x)), i);
  }

  lemma AfterAxis(z0: Vector, hh: real, ops: seq<Op>, s: State, i: int)
    requires hh == Sq(z0(3)) && hh > 0.0 && WellUsed(Initiate(z0), ops) && s == After(Initiate(z0), ops)
    requires 0 <= i < 4
    ensures AxisOf(s, i) == AxesAfter(Axes(Initiate(z0)), ops)[i]
  {
    Square(z0(3));
    RunByAxes(z0, ops);
    assert Axes(s)[i] == AxisOf(s, i);
  }

  lemma TwoSteps(a: seq<Axis>, first: Op, second: Op)
    requires |a| == 4
    ensures AxesAfter(a, [first, second]) == NextAxes(NextAxes(a, first), second)
  {
    StepAfter(a, [], first);
    StepAfter(a, [first], second);
    assert [] + [first] == [first] && [first] + [second] == [first, second];
  }

  lemma StepAfter(a: seq<Axis>, ops: seq<Op>, op: Op)
    requires |a| == 4
    ensures AxesAfter(a, ops + [op]) == NextAxes(AxesAfter(a, ops), op)
  {
    assert (ops + [op])[..|ops|] == ops;
  }

  lemma PredictedAt(a: seq<Axis>, i: int)
    requires |a| == 4 && 0 <= i < 4
    ensures PredictAxes(a)[i] == PredictAxis(a[i], PredictStd(a[3].x)(i), PredictStd(a[3].x)(i + 4))
  {
  }

  lemma FirstAxes(z0: Vector, hh: real, z: Vector, x: Matrix, tracked: bool, b: seq<Axis>, i: int)
    requires hh == Sq(z0(3)) && hh > 0.0 && 0 <= i < 4
    requires b == NextAxes(NextAxes(Axes(Initiate(z0)), Predicting(tracked)), Updating(z, x))
    ensures FirstCorrected(b[i], z0(i), z(i), hh, i)
  {
    FirstStart(z0, hh, 3);
    FirstStart(z0, hh, i);
    var a := Axes(Initiate(z0));
    OneCycle(a, z, x, tracked, b, i);
    FirstOf(a[3].x, hh, z0(i), z(i), a[i], b[i], i);
  }

  /** A prediction and an update of one coordinate of four whose height has no velocity. */
  lemma OneCycle(a: seq<Axis>, z: Vector, x: Matrix, tracked: bool, b: seq<Axis>, i: int)
    requires |a| == 4 && a[3].v == 0.0 && 0 <= i < 4
    requires b == NextAxes(NextAxes(a, Predicting(tracked)), Updating(z, x))
    ensures b[i] == UpdateAxis(PredictAxis(a[i], PredictStd(a[3].x)(i), PredictStd(a[3].x)(i + 4)), z(i),
                               ProjectStd(a[3].x)(i))
  {
    assert a[3].(v := 0.0) == a[3];
    assert RestAxes(a) == a;
    var m := PredictAxes(a);
    PredictedAt(a, 3);
    PredictedAt(a, i);
    assert m[3].x == a[3].x;
    assert b[i] == UpdateAxis(m[i], z(i), ProjectStd(m[3].x)(i));
  }

  /** One coordinate of a new track: at rest where it was measured, a tenth of the height off and with
      a velocity off by a sixteenth; the aspect ratio is known better. */
  function FirstAxis(z0: real, hh: real, i: int): Axis {
    if i == 2 then Axis(z0, 0.0, 0.0001, 0.0, 0.0000000001) else Axis(z0, 0.0, hh / 100.0, 0.0, hh / 256.0)
  }

  lemma FirstOf(h: real, hh: real, z0: real, z: real, a: Axis, b: Axis, i: int)
    requires hh == Sq(h) && hh > 0.0 && 0 <= i < 4 && a == FirstAxis(z0, hh, i)
    requires b == UpdateAxis(PredictAxis(a, PredictStd(h)(i), PredictStd(h)(i + 4)), z, ProjectStd(h)(i))
    ensures FirstCorrected(b, z0, z, hh, i)
  {
    NoiseOf(h, i);
    if i == 2 { FirstOfAspect(z0, z, a); } else { FirstOfLength(h, hh, z0, z, a); }
  }

  lemma FirstStart(z0: Vector, hh: real, i: int)
    requires 0 <= i < 4 && hh == Sq(z0(3))
    ensures Axes(Initiate(z0))[i]
         == FirstAxis(z0(i), hh, i)
  {
    NoiseOf(z0(3), i);
    Fraction(z0(3), 10.0);
    Fraction(z0(3), 16.0);
    var std := InitiateStd(z0(3));
    assert AtRest(z0)(i + 4) == 0.0;
    assert AxisOf(Initiate(z0), i) == Axis(z0(i), 0.0, std(i) * std(i), 0.0, std(i + 4) * std(i + 4));
  }

  /** While a track is not Tracked its height stays what it was, however long it is predicted:
      lost tracks never drift to the height at which an update breaks the filter. */
  lemma {:induction false} HeightWaits(s: State, ops: seq<Op>)
    requires Sound(s) && forall k :: 0 <= k < |ops| ==> ops[k] == Predicting(false)
    ensures Sound(After(s, ops)) && After(s, ops).mean(3) == s.mean(3)
  {
    if ops != [] {
      var t := After(s, ops[..|ops| - 1]);
      HeightWaits(s, ops[..|ops| - 1]);
      RestKeepsSound(t);
      PredictKeepsSound(Rest(t));
      PredictPredicts(Rest(t));
      PredictByAxis(Rest(t), PredictStd(t.mean(3)), Predict(Rest(t)), 3);
    }
  }

  // ---- in place -------------------------------------------------------------------------------------

  /** The mean and covariance that a track keeps and the filter overwrites. */
  class Estimate {
    var mean: Vector
    var covariance: Matrix

    function Value(): State
      reads this
    {
      State(mean, covariance)
    }

    constructor (z: Vector)
      ensures Value() == Initiate(z) && (Sound(Value()) <==> z(3) != 0.0)
    {
      mean, covariance := Initiate(z).mean, Initiate(z).covariance;
      new;
      InitiateSoundIff(z);
    }

    method PredictInPlace(tracked: bool)
      requires Sound(Value())
      modifies this
      ensures Sound(Value()) && Value() == old(Next(Value(), Predicting(tracked)))
      ensures Axes(Value()) == old(NextAxes(Axes(Value()), Predicting(tracked)))
    {
      RestKeepsSound(Value());
      PredictKeepsSound(if tracked then Value() else Rest(Value()));
      NextByAxes(Value(), Predicting(tracked));
      var t := PredictTrack(Value(), tracked);
      mean, covariance := t.mean, t.covariance;
    }

    method UpdateInPlace(z: Vector, x: Matrix)
      requires Sound(Value()) && Solves(Value(), Project(Value()), x)
      modifies this
      ensures Value() == old(Next(Value(), Updating(z, x)))
      ensures Axes(Value()) == old(NextAxes(Axes(Value()), Updating(z, x)))
      ensures Sound(Value()) <==> old(mean)(3) != 0.0
    {
      UpdateSoundIff(Value(), z, x);
      NextByAxes(Value(), Updating(z, x));
      var t := Update(Value(), z, x);
      mean, covariance := t.mean, t.covariance;
    }
  }
}
