/** Munkres::solve: the step loop, its invariants, and why it stops at an optimal assignment. */
module MunkresSolver {
  import opened Assignment
  import opened MunkresState
  import opened Munkres

  ghost predicate NonNegative(m: Matrix, n: nat) {
    HasShape(m, n, n) && forall i, j :: 0 <= i < n && 0 <= j < n ==> m[i][j] >= 0.0
  }

  function LineAt(m: Matrix, overColumns: bool, i: int, j: int, n: nat): real
    requires HasShape(m, n, n) && 0 <= i < n && 0 <= j < n
  {
    if overColumns then m[j][i] else m[i][j]
  }

  /** The least entry of a line; the scan stops early at zero. */
  method LineMinimum(m: Matrix, overColumns: bool, i: nat, n: nat) returns (min: real)
    requires NonNegative(m, n) && i < n
    ensures min >= 0.0 && forall j :: 0 <= j < n ==> min <= LineAt(m, overColumns, i, j, n)
    ensures exists j :: 0 <= j < n && min == LineAt(m, overColumns, i, j, n)
  {
    min := LineAt(m, overColumns, i, 0, n);
    var j := 1;
    while j < n && min > 0.0
      invariant 1 <= j <= n && min >= 0.0
      invariant forall k :: 0 <= k < j ==> min <= LineAt(m, overColumns, i, k, n)
      invariant exists k :: 0 <= k < j && min == LineAt(m, overColumns, i, k, n)
    {
      var x := LineAt(m, overColumns, i, j, n);
      min := if min < x then min else x;
      j := j + 1;
    }
    assert forall k :: 0 <= k < n ==> LineAt(m, overColumns, i, k, n) >= 0.0;
  }

  /** `minimize_along_direction`: every line loses its minimum. */
  method MinimizeAlong(m0: Matrix, overColumns: bool, n: nat) returns (m: Matrix, ghost w: seq<real>)
    requires NonNegative(m0, n)
    ensures NonNegative(m, n) && |w| == n
    ensures forall i, j {:trigger m[i][j]} :: 0 <= i < n && 0 <= j < n ==>
              m[i][j] == m0[i][j] - if overColumns then w[j] else w[i]
  {
    m, w := m0, seq(n, _ => 0.0);
    for i := 0 to n
      invariant NonNegative(m, n) && |w| == n && forall k :: i <= k < n ==> w[k] == 0.0
      invariant forall a, b {:trigger m[a][b]} :: 0 <= a < n && 0 <= b < n ==>
                  m[a][b] == m0[a][b] - if overColumns then w[b] else w[a]
    {
      var min := LineMinimum(m, overColumns, i, n);
      if min > 0.0 {
        ghost var m1 := m;
        m := SubtractFromLine(m, overColumns, i, min, n);
        forall a, b | 0 <= a < n && 0 <= b < n ensures m[a][b] >= 0.0 {
          assert min <= LineAt(m1, overColumns, i, if overColumns then a else b, n);
          assert m1[a][b] >= 0.0;
        }
        w := w[i := min];
      }
    }
  }

  method SubtractFromLine(m0: Matrix, overColumns: bool, i: nat, x: real, n: nat) returns (m: Matrix)
    requires HasShape(m0, n, n) && i < n
    ensures HasShape(m, n, n)
    ensures forall a, b {:trigger m[a][b]} :: 0 <= a < n && 0 <= b < n ==>
              m[a][b] == m0[a][b] - if (if overColumns then b else a) == i then x else 0.0
  {
    m := m0;
    for j := 0 to n
      invariant HasShape(m, n, n)
      invariant forall a, b {:trigger m[a][b]} :: 0 <= a < n && 0 <= b < n ==>
                  m[a][b] == m0[a][b] - if (if overColumns then b == i && a < j else a == i && b < j) then x else 0.0
    {
      if overColumns { m := SetAt(m, j, i, m[j][i] - x); } else { m := SetAt(m, i, j, m[i][j] - x); }
    }
  }

  // ---- the states between the steps ---------------------------------------------

  /** Everything the solver holds, real and ghost. */
  datatype Machine = Machine(m: Matrix, mask: seq<seq<Mark>>, rowMask: seq<bool>, colMask: seq<bool>,
                             saveRow: nat, saveCol: nat, a: Matrix, u: seq<real>, v: seq<real>,
                             star: seq<int>, prime: seq<int>, rank: seq<nat>, clock: nat)

  ghost predicate Common(s: Machine, n: nat) {
    Reduces(s.a, s.m, s.u, s.v, n) && Marks(s.mask, s.star, s.prime, n) && Stars(s.m, s.star, n)
    && CoverShape(s.rowMask, s.colMask, n) && |s.rank| == n
  }

  /** Before step 2: stars only. */
  ghost predicate At2(s: Machine, n: nat) {
    Common(s, n) && (forall i :: 0 <= i < n ==> !s.rowMask[i] && !s.colMask[i] && s.prime[i] == -1)
  }

  /** Before step 3: the stars are covered but do not yet cover everything. */
  ghost predicate At3(s: Machine, n: nat) {
    Common(s, n) && |Starred(s.star)| < n && Covers(s.star, s.rowMask, s.colMask, n)
    && Primes(s.m, s.star, s.prime, s.rank, s.rowMask, s.colMask, s.clock, n)
    && forall i :: 0 <= i < n && s.prime[i] >= 0 ==> s.rowMask[i]
  }

  /** Before step 4: an uncovered primed zero in a row without a star. */
  ghost predicate At4(s: Machine, n: nat) {
    Common(s, n) && |Starred(s.star)| < n && Descending(s.star, s.prime, s.rank, n)
    && s.saveRow < n && s.saveCol < n && s.prime[s.saveRow] == s.saveCol && s.star[s.saveRow] == -1
    && forall i :: 0 <= i < n && s.prime[i] >= 0 ==> s.m[i][s.prime[i]] == 0.0
  }

  ghost predicate UncoveredZero(s: Machine, n: nat)
    requires HasShape(s.m, n, n) && CoverShape(s.rowMask, s.colMask, n)
  {
    exists i, j :: 0 <= i < n && 0 <= j < n && !s.rowMask[i] && !s.colMask[j] && s.m[i][j] == 0.0
  }

  /** Before step 5: no uncovered zero is left. */
  ghost predicate At5(s: Machine, n: nat) {
    At3(s, n) && !UncoveredZero(s, n)
  }

  // ---- the five steps on machine states --------------------------------------------

  lemma EnterStep3(s: Machine, colMask: seq<bool>, n: nat)
    requires At2(s, n) && |colMask| == n && |Starred(s.star)| < n
    requires forall j :: 0 <= j < n ==> (colMask[j] <==> j in s.star)
    ensures At3(s.(colMask := colMask), n)
  {
  }

  /** Priming the zero at (i, j) in a row whose star sits in column k covers the row and
      uncovers that column. */
  lemma PrimeAndCover(s: Machine, n: nat, i: nat, j: nat)
    requires At3(s, n) && i < n && j < n && !s.rowMask[i] && !s.colMask[j] && s.m[i][j] == 0.0 && s.star[i] >= 0
    ensures At3(s.(mask := SetAt(s.mask, i, j, Prime), prime := s.prime[i := j], rank := s.rank[i := s.clock],
                   clock := s.clock + 1, saveRow := i, saveCol := j, rowMask := s.rowMask[i := true],
                   colMask := s.colMask[s.star[i] := false]), n)
    ensures |CoveredRows(s.rowMask[i := true])| == |CoveredRows(s.rowMask)| + 1
  {
    MarkPrime(s.mask, s.star, s.prime, n, i, j);
    assert CoveredRows(s.rowMask[i := true]) == CoveredRows(s.rowMask) + {i};
    PrimedRow(s, n, i, j);
  }

  lemma PrimedRow(s: Machine, n: nat, i: nat, j: nat)
    requires At3(s, n) && i < n && j < n && !s.rowMask[i] && !s.colMask[j] && s.m[i][j] == 0.0 && s.star[i] >= 0
    ensures var rm, cm := s.rowMask[i := true], s.colMask[s.star[i] := false];
            Covers(s.star, rm, cm, n)
            && Primes(s.m, s.star, s.prime[i := j], s.rank[i := s.clock], rm, cm, s.clock + 1, n)
  {
  }

  /** Priming a zero in a row without a star starts an augmentation. */
  lemma PrimeAndAugment(s: Machine, n: nat, i: nat, j: nat)
    requires At3(s, n) && i < n && j < n && !s.rowMask[i] && !s.colMask[j] && s.m[i][j] == 0.0 && s.star[i] == -1
    ensures At4(s.(mask := SetAt(s.mask, i, j, Prime), prime := s.prime[i := j], rank := s.rank[i := s.clock],
                   clock := s.clock + 1, saveRow := i, saveCol := j), n)
  {
    MarkPrime(s.mask, s.star, s.prime, n, i, j);
  }

  /** Step 4 flips the walk and clears primes and covers: one more star. */
  lemma FlipMachine(s: Machine, n: nat, mask1: seq<seq<Mark>>, mask: seq<seq<Mark>>, path: seq<(nat, nat)>, p: seq<int>)
    returns (s': Machine)
    requires At4(s, n) && MaskShape(mask1, n) && MaskShape(mask, n)
    requires Walk(s.star, s.prime, s.rank, p, n) && p[0] == s.saveRow && s.prime[p[|p| - 1]] !in s.star
    requires WalkCells(s.star, s.prime, p, path, n)
    requires forall i: nat, j: nat :: i < n && j < n ==>
               mask1[i][j] == if (i, j) in path then Toggle(s.mask[i][j]) else s.mask[i][j]
    requires forall i, j :: 0 <= i < n && 0 <= j < n ==>
               mask[i][j] == if mask1[i][j] == Prime then Normal else mask1[i][j]
    ensures s' == s.(mask := mask, star := s'.star, prime := seq(n, _ => -1),
                     rowMask := seq(n, _ => false), colMask := seq(n, _ => false))
    ensures At2(s', n) && |Starred(s'.star)| == |Starred(s.star)| + 1
  {
    var star' := seq(n, i requires 0 <= i < n => if i in p then s.prime[i] else s.star[i]);
    FlipKeepsStars(s.m, s.star, star', s.prime, s.rank, p, n);
    FlippedMarks(s.mask, mask1, mask, path, s.star, star', s.prime, s.rank, p, n);
    s' := s.(mask := mask, star := star', prime := seq(n, _ => -1),
             rowMask := seq(n, _ => false), colMask := seq(n, _ => false));
  }

  /** The prices after step 5. */
  ghost function Raise(w: seq<real>, mask: seq<bool>, h: real, whenCovered: bool): (r: seq<real>)
    requires |w| == |mask|
    ensures |r| == |w|
    ensures forall i :: 0 <= i < |w| ==>
              r[i] == if mask[i] == whenCovered then (if whenCovered then w[i] - h else w[i] + h) else w[i]
  {
    seq(|w|, i requires 0 <= i < |w| =>
          if mask[i] == whenCovered then (if whenCovered then w[i] - h else w[i] + h) else w[i])
  }

  /** m' is m after step 5 with amount h. */
  ghost predicate Shifted(m: Matrix, m': Matrix, rowMask: seq<bool>, colMask: seq<bool>, h: real, n: nat) {
    HasShape(m, n, n) && HasShape(m', n, n) && CoverShape(rowMask, colMask, n)
    && forall i, j {:trigger m'[i][j]} :: 0 <= i < n && 0 <= j < n ==>
         m'[i][j] == m[i][j] + (if rowMask[i] then h else 0.0) - (if colMask[j] then 0.0 else h)
  }

  lemma ShiftMachine(s: Machine, n: nat, m': Matrix, h: real)
    requires At5(s, n) && Shifted(s.m, m', s.rowMask, s.colMask, h, n) && h > 0.0
    requires forall i, j :: 0 <= i < n && 0 <= j < n && !s.rowMask[i] && !s.colMask[j] && s.m[i][j] != 0.0 ==>
               h <= s.m[i][j]
    ensures At3(s.(m := m', u := Raise(s.u, s.rowMask, h, true), v := Raise(s.v, s.colMask, h, false)), n)
  {
    ShiftReduces(s, n, m', h);
    ShiftKeepsZeros(s, n, m', h);
  }

  /** Stars and primes sit where one cover meets one opening: their zeros stay. */
  lemma ShiftKeepsZeros(s: Machine, n: nat, m': Matrix, h: real)
    requires At3(s, n) && Shifted(s.m, m', s.rowMask, s.colMask, h, n)
    ensures Stars(m', s.star, n)
    ensures Primes(m', s.star, s.prime, s.rank, s.rowMask, s.colMask, s.clock, n)
  {
    forall i | 0 <= i < n && s.star[i] >= 0 ensures m'[i][s.star[i]] == 0.0 {
      assert s.m[i][s.star[i]] == 0.0;
    }
    forall i | 0 <= i < n && s.prime[i] >= 0 ensures m'[i][s.prime[i]] == 0.0 {
      assert s.m[i][s.prime[i]] == 0.0;
    }
  }

  lemma ShiftReduces(s: Machine, n: nat, m': Matrix, h: real)
    requires At5(s, n) && Shifted(s.m, m', s.rowMask, s.colMask, h, n) && h > 0.0
    requires forall i, j :: 0 <= i < n && 0 <= j < n && !s.rowMask[i] && !s.colMask[j] && s.m[i][j] != 0.0 ==>
               h <= s.m[i][j]
    ensures Reduces(s.a, m', Raise(s.u, s.rowMask, h, true), Raise(s.v, s.colMask, h, false), n)
  {
    var u, v := Raise(s.u, s.rowMask, h, true), Raise(s.v, s.colMask, h, false);
    forall i, j | 0 <= i < n && 0 <= j < n ensures m'[i][j] == s.a[i][j] - u[i] - v[j] && m'[i][j] >= 0.0 {
      assert s.m[i][j] == s.a[i][j] - s.u[i] - s.v[j] && s.m[i][j] >= 0.0;
      if !s.rowMask[i] && !s.colMask[j] { assert s.m[i][j] != 0.0; }
    }
  }

  // ---- termination of the step-3 / step-5 alternation --------------------------------

  /** A cell whose row and column hold no star; it is never covered. */
  ghost predicate Bare(star: seq<int>, n: nat, r: int, c: int) {
    |star| == n && 0 <= r < n && 0 <= c < n && star[r] < 0 && c !in star
  }

  ghost function BareRow(star: seq<int>, n: nat): (r: int)
    requires exists r, c :: Bare(star, n, r, c)
    ensures exists c :: Bare(star, n, r, c)
  {
    var r, c :| Bare(star, n, r, c); r
  }

  ghost function BareColumn(star: seq<int>, n: nat): (c: int)
    requires exists r, c :: Bare(star, n, r, c)
    ensures Bare(star, n, BareRow(star, n), c)
  {
    var c :| Bare(star, n, BareRow(star, n), c); c
  }

  lemma BareExists(s: Machine, n: nat)
    requires At3(s, n)
    ensures exists r, c :: Bare(s.star, n, r, c)
  {
    var r := UnstarredRow(s.star, n);
    var c := UnstarredColumn(s.star, n);
    assert Bare(s.star, n, r, c);
  }

  ghost function Rounds(x: real): nat
    requires x >= 0.0
  {
    (x / STEP_CAP).Floor
  }

  lemma OneRoundLess(x: real)
    requires x >= STEP_CAP
    ensures Rounds(x - STEP_CAP) == Rounds(x) - 1
  {
    assert (x - STEP_CAP) / STEP_CAP == x / STEP_CAP - 1.0;
  }

  /** The entry of the bare cell. */
  ghost function BareEntry(s: Machine, n: nat): (x: real)
    requires At3(s, n)
    ensures x >= 0.0
  {
    BareExists(s, n);
    var r, c := BareRow(s.star, n), BareColumn(s.star, n);
    Cell(s.a, s.m, s.u, s.v, n, r, c);
    s.m[r][c]
  }

  /** How many more times step 5 can run before a zero is uncovered: its amount is capped, so
      a large gap takes several rounds. */
  ghost function Gap(s: Machine, n: nat): nat
    requires At3(s, n)
  {
    if UncoveredZero(s, n) then 0 else 1 + Rounds(BareEntry(s, n))
  }

  lemma BareEntryShifts(s: Machine, s': Machine, n: nat, h: real)
    requires At3(s, n) && At3(s', n) && s'.star == s.star && Shifted(s.m, s'.m, s.rowMask, s.colMask, h, n)
    ensures BareEntry(s', n) == BareEntry(s, n) - h
  {
    BareExists(s, n);
    var r, c := BareRow(s.star, n), BareColumn(s.star, n);
    assert !s.rowMask[r] && !s.colMask[c];
    assert s'.m[r][c] == s.m[r][c] - h;
  }

  lemma GapShrinks(s: Machine, s': Machine, n: nat, h: real)
    requires At5(s, n) && At3(s', n) && s'.star == s.star && s'.rowMask == s.rowMask && s'.colMask == s.colMask
    requires Shifted(s.m, s'.m, s.rowMask, s.colMask, h, n)
    requires h == STEP_CAP
             || exists i, j :: 0 <= i < n && 0 <= j < n && !s.rowMask[i] && !s.colMask[j] && s.m[i][j] == h && h != 0.0
    ensures Gap(s', n) < Gap(s, n)
  {
    if h == STEP_CAP {
      BareEntryShifts(s, s', n, h);
      OneRoundLess(BareEntry(s, n));
    } else {
      var i, j :| 0 <= i < n && 0 <= j < n && !s.rowMask[i] && !s.colMask[j] && s.m[i][j] == h && h != 0.0;
      assert s'.m[i][j] == 0.0;
    }
  }

  /** What the machine may be doing when `step` is next. */
  ghost predicate Ready(s: Machine, n: nat, step: int) {
    Common(s, n)
    && (step == 0 || step == 2 || step == 3 || step == 4 || step == 5)
    && (step == 0 ==> |Starred(s.star)| >= n)
    && (step == 2 ==> At2(s, n))
    && (step == 3 ==> At3(s, n))
    && (step == 4 ==> At4(s, n))
    && (step == 5 ==> At5(s, n))
  }

  /** Both reductions, in the order the shape asks for. */
  method ReduceBoth(m: Matrix, n: nat, columnsFirst: bool) returns (m2: Matrix, ghost u: seq<real>, ghost v: seq<real>)
    requires NonNegative(m, n)
    ensures Reduces(m, m2, u, v, n)
  {
    var m1;
    ghost var w1, w2;
    m1, w1 := MinimizeAlong(m, columnsFirst, n);
    m2, w2 := MinimizeAlong(m1, !columnsFirst, n);
    u, v := if columnsFirst then w2 else w1, if columnsFirst then w1 else w2;
    forall i, j | 0 <= i < n && 0 <= j < n ensures m2[i][j] == m[i][j] - u[i] - v[j] && m2[i][j] >= 0.0 {
      assert m2[i][j] == m1[i][j] - if !columnsFirst then w2[j] else w2[i];
      assert m1[i][j] == m[i][j] - if columnsFirst then w1[j] else w1[i];
    }
  }

  /** The column of a row's star. */
  method StarOfRow(mask: seq<seq<Mark>>, row: nat, n: nat, ghost star: seq<int>,
                   ghost prime: seq<int>) returns (col: int)
    requires Marks(mask, star, prime, n) && row < n
    ensures col == star[row]
  {
    col := FindInRow(mask, row, Star, n);
    if star[row] >= 0 { assert mask[row][star[row]] == Star; }
  }

  /** `step3` on values: prime an uncovered zero, then cover its row or augment. */
  method PrimeStep(m: Matrix, mask0: seq<seq<Mark>>, rowMask0: seq<bool>, colMask0: seq<bool>, n: nat, ghost s: Machine)
    returns (step: int, row: nat, col: nat, mask: seq<seq<Mark>>, rowMask: seq<bool>, colMask: seq<bool>,
             ghost s': Machine)
    requires Ready(s, n, 3) && s.m == m && s.mask == mask0 && s.rowMask == rowMask0 && s.colMask == colMask0
    ensures s'.m == m && s'.a == s.a && s'.star == s.star
    ensures s'.mask == mask && s'.rowMask == rowMask && s'.colMask == colMask
    ensures if step == 5 then s' == s else s'.saveRow == row && s'.saveCol == col
    ensures step >= 3 && Ready(s', n, step)
    ensures step == 3 ==> |CoveredRows(rowMask)| == |CoveredRows(rowMask0)| + 1
  {
    step, mask, rowMask, colMask, s' := 5, mask0, rowMask0, colMask0, s;
    var found;
    found, row, col := FindUncoveredZero(m, rowMask, colMask, n);
    if !found { return; }
    var starCol := StarOfRow(mask, row, n, s.star, s.prime);
    mask := SetAt(mask, row, col, Prime);
    if starCol >= 0 {
      PrimeAndCover(s, n, row, col);
      rowMask := rowMask[row := true];
      colMask := colMask[starCol := false];
      step := 3;
    } else {
      PrimeAndAugment(s, n, row, col);
      step := 4;
    }
    s' := s.(mask := mask, prime := s.prime[row := col], rank := s.rank[row := s.clock],
             clock := s.clock + 1, saveRow := row, saveCol := col, rowMask := rowMask, colMask := colMask);
  }

  /** `step4` on values: find the path, flip it, clear primes and covers. */
  method FlipStep(mask0: seq<seq<Mark>>, saveRow: nat, saveCol: nat, n: nat, ghost s: Machine)
    returns (mask: seq<seq<Mark>>, rowMask: seq<bool>, colMask: seq<bool>, ghost s': Machine)
    requires Ready(s, n, 4) && s.mask == mask0 && s.saveRow == saveRow && s.saveCol == saveCol
    ensures s'.m == s.m && s'.a == s.a && s'.saveRow == saveRow && s'.saveCol == saveCol
    ensures s'.mask == mask && s'.rowMask == rowMask && s'.colMask == colMask
    ensures Ready(s', n, 2) && |Starred(s'.star)| == |Starred(s.star)| + 1
  {
    var path;
    ghost var p;
    path, p := FindPath(mask0, saveRow, saveCol, n, s.star, s.prime, s.rank);
    forall k | 0 <= k < |path| ensures path[k].0 < n && path[k].1 < n {
      assert (path[k].0, path[k].1) in path;
    }
    var mask1 := FlipPath(mask0, path, n);
    mask := ErasePrimes(mask1, n);
    rowMask, colMask := seq(n, _ => false), seq(n, _ => false);
    s' := FlipMachine(s, n, mask1, mask, path, p);
  }

  /** `step5` on values: the prices of covered rows and uncovered columns move by the least
      uncovered entry, capped. */
  method ShiftStep(m: Matrix, rowMask: seq<bool>, colMask: seq<bool>, n: nat, ghost s: Machine)
    returns (m': Matrix, ghost s': Machine)
    requires Ready(s, n, 5) && s.m == m && s.rowMask == rowMask && s.colMask == colMask
    ensures s' == s.(m := m', u := s'.u, v := s'.v)
    ensures Ready(s', n, 3) && GapOf(s', n, 3) < GapOf(s, n, 5)
  {
    var h := SmallestUncovered(m, rowMask, colMask, n);
    assert h > 0.0 by {
      if h != STEP_CAP {
        var i, j :| 0 <= i < n && 0 <= j < n && !rowMask[i] && !colMask[j] && m[i][j] == h && h != 0.0;
        Cell(s.a, m, s.u, s.v, n, i, j);
      }
    }
    var m1 := AddToRows(m, rowMask, h, n);
    m' := SubtractFromColumns(m1, colMask, h, n);
    assert Shifted(m, m', rowMask, colMask, h, n);
    s' := s.(m := m', u := Raise(s.u, rowMask, h, true), v := Raise(s.v, colMask, h, false));
    ShiftMachine(s, n, m', h);
    GapShrinks(s, s', n, h);
  }

  /** The fields of the solver. The ghost field says what the mask means and which prices
      have been subtracted so far. */
  class Solver {
    var n: nat
    var matrix: Matrix
    var mask: seq<seq<Mark>>
    var rowMask: seq<bool>
    var colMask: seq<bool>
    var saveRow: nat
    var saveCol: nat
    ghost var s: Machine

    ghost predicate Tied()
      reads this
    {
      s.m == matrix && s.mask == mask && s.rowMask == rowMask && s.colMask == colMask
      && s.saveRow == saveRow && s.saveCol == saveCol
    }

    constructor ()
    {
      n, saveRow, saveCol, matrix, mask, rowMask, colMask := 0, 0, 0, [], [], [], [];
    }

    /** The set-up of `solve`: a fresh mask and covers, then both reductions, then `step1`. */
    method Start(m: Matrix, size: nat, columnsFirst: bool)
      requires NonNegative(m, size)
      modifies this
      ensures n == size && Tied() && s.a == m && Ready(s, n, 2)
    {
      n := size;
      ghost var u, v, star;
      matrix, u, v := ReduceBoth(m, size, columnsFirst);
      mask := seq(size, _ => seq(size, _ => Normal));
      rowMask, colMask := seq(size, _ => false), seq(size, _ => false);
      mask, star := StarGreedily(matrix, mask, size);
      s := Machine(matrix, mask, rowMask, colMask, saveRow, saveCol, m, u, v,
                   star, seq(size, _ => -1), seq(size, _ => 0), 0);
    }

    method Step2() returns (step: int)
      requires Tied() && Ready(s, n, 2)
      modifies this
      ensures Tied() && n == old(n) && s == old(s).(colMask := colMask)
      ensures (step == 0 || step == 3) && Ready(s, n, step)
    {
      var coverCount;
      colMask, coverCount := CoverStars(mask, colMask, n, s.star, s.prime);
      step := 0;
      if coverCount < n {
        EnterStep3(s, colMask, n);
        step := 3;
      }
      s := s.(colMask := colMask);
    }

    method Step3() returns (step: int)
      requires Tied() && Ready(s, n, 3)
      modifies this
      ensures Tied() && n == old(n) && s.a == old(s.a) && s.star == old(s.star)
      ensures step >= 3 && Ready(s, n, step)
      ensures step == 3 ==> |CoveredRows(s.rowMask)| == old(|CoveredRows(s.rowMask)|) + 1
      ensures step == 5 ==> s == old(s)
    {
      var row, col;
      step, row, col, mask, rowMask, colMask, s := PrimeStep(matrix, mask, rowMask, colMask, n, s);
      if step != 5 {
        saveRow, saveCol := row, col;
      }
    }

    method Step4() returns (step: int)
      requires Tied() && Ready(s, n, 4)
      modifies this
      ensures step == 2 && Tied() && Ready(s, n, 2) && n == old(n) && s.a == old(s.a)
      ensures |Starred(s.star)| == old(|Starred(s.star)|) + 1
    {
      mask, rowMask, colMask, s := FlipStep(mask, saveRow, saveCol, n, s);
      step := 2;
    }

    method Step5() returns (step: int)
      requires Tied() && Ready(s, n, 5)
      modifies this
      ensures step == 3 && Tied() && Ready(s, n, 3) && n == old(n) && s.a == old(s.a) && s.star == old(s.star)
      ensures s.rowMask == old(s.rowMask) && GapOf(s, n, 3) < GapOf(old(s), n, 5)
    {
      matrix, s := ShiftStep(matrix, rowMask, colMask, n, s);
      step := 3;
    }

    /** The switch of `solve`. Every step makes progress: it adds a star, or with the same stars
        moves on to a later phase, covers a row, or brings an uncovered zero closer. */
    method Dispatch(step: int) returns (next: int)
      requires Tied() && Ready(s, n, step) && step != 0
      modifies this
      ensures Tied() && n == old(n) && s.a == old(s.a) && Ready(s, n, next)
      ensures Progress(old(s), step, s, next, n)
    {
      match step {
        case 2 => next := Step2();
        case 3 => next := Step3();
        case 4 => next := Step4();
        case _ => next := Step5();
      }
    }

    /** The step loop of `solve`, after step 1. It stops with every row starred. */
    method RunSteps()
      requires Tied() && Ready(s, n, 2)
      modifies this
      ensures Tied() && n == old(n) && s.a == old(s.a) && Ready(s, n, 0)
    {
      var step := 2;
      while step != 0
        invariant Tied() && n == old(n) && s.a == old(s.a) && Ready(s, n, step)
        decreases Budget(s, n), Phase(step), Uncovered(s, n), GapOf(s, n, step), step == 3
      {
        BudgetBounds(s, n, step);
        step := Dispatch(step);
        BudgetBounds(s, n, step);
      }
    }
  }

  ghost predicate Progress(s: Machine, step: int, s': Machine, next: int, n: nat) {
    Budget(s', n) < Budget(s, n)
    || (Budget(s', n) == Budget(s, n)
        && (Phase(next) < Phase(step)
            || (Phase(next) == Phase(step)
                && (Uncovered(s', n) < Uncovered(s, n)
                    || (Uncovered(s', n) == Uncovered(s, n)
                        && (GapOf(s', n, next) < GapOf(s, n, step)
                            || (GapOf(s', n, next) == GapOf(s, n, step) && step == 3 && next != 3)))))))
  }

  ghost function GapOf(s: Machine, n: nat, step: int): nat {
    if (step == 3 || step == 5) && Ready(s, n, step) then Gap(s, n) else 0
  }

  ghost function Budget(s: Machine, n: nat): int {
    n - |Starred(s.star)|
  }

  ghost function Uncovered(s: Machine, n: nat): int {
    n - |CoveredRows(s.rowMask)|
  }

  lemma BudgetBounds(s: Machine, n: nat, step: int)
    requires Ready(s, n, step)
    ensures 0 <= Budget(s, n) && 0 <= Uncovered(s, n)
  {
    SubsetOfUpto(Starred(s.star), n);
    SubsetOfUpto(CoveredRows(s.rowMask), n);
  }

  /** The order of the steps within one value of the star count. */
  function Phase(step: int): nat {
    if step == 2 then 3 else if step == 3 || step == 5 then 2 else if step == 4 then 1 else 0
  }
}
