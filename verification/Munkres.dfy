/** The solver of munkres.h: a five-step machine over a matrix, a mask and two covers. */
module Munkres {
  import opened Assignment
  import opened MunkresState

  ghost predicate CoverShape(rowMask: seq<bool>, colMask: seq<bool>, n: nat) {
    |rowMask| == n && |colMask| == n
  }

  /** Sets one cell. */
  function SetAt<T>(mask: seq<seq<T>>, i: nat, j: nat, k: T): (r: seq<seq<T>>)
    requires i < |mask| && j < |mask[i]|
    ensures |r| == |mask| && forall a :: 0 <= a < |r| ==> |r[a]| == |mask[a]|
    ensures forall a, b :: 0 <= a < |r| && 0 <= b < |r[a]| ==> r[a][b] == if a == i && b == j then k else mask[a][b]
  {
    mask[i := mask[i][j := k]]
  }

  lemma MarkStar(mask: seq<seq<Mark>>, star: seq<int>, prime: seq<int>, n: nat, i: nat, j: nat)
    requires Marks(mask, star, prime, n) && i < n && j < n && star[i] == -1 && prime[i] == -1
    ensures Marks(SetAt(mask, i, j, Star), star[i := j], prime, n)
  {
  }

  lemma MarkPrime(mask: seq<seq<Mark>>, star: seq<int>, prime: seq<int>, n: nat, i: nat, j: nat)
    requires Marks(mask, star, prime, n) && i < n && j < n && star[i] != j && prime[i] == -1
    ensures Marks(SetAt(mask, i, j, Prime), star, prime[i := j], n)
  {
  }

  /** find_uncovered_in_matrix, for the item 0. */
  method FindUncoveredZero(m: Matrix, rowMask: seq<bool>, colMask: seq<bool>, n: nat)
    returns (found: bool, row: nat, col: nat)
    requires HasShape(m, n, n) && CoverShape(rowMask, colMask, n)
    ensures found ==> row < n && col < n && !rowMask[row] && !colMask[col] && m[row][col] == 0.0
    ensures !found ==> forall i, j :: 0 <= i < n && 0 <= j < n && !rowMask[i] && !colMask[j] ==> m[i][j] != 0.0
  {
    found, row, col := false, 0, 0;
    for i := 0 to n
      invariant forall a, b :: 0 <= a < i && 0 <= b < n && !rowMask[a] && !colMask[b] ==> m[a][b] != 0.0
    {
      if !rowMask[i] {
        for j := 0 to n
          invariant forall b :: 0 <= b < j && !colMask[b] ==> m[i][b] != 0.0
        {
          if !colMask[j] && m[i][j] == 0.0 {
            return true, i, j;
          }
        }
      }
    }
  }

  /** The column of the mark k in a row, or -1. */
  method FindInRow(mask: seq<seq<Mark>>, row: nat, k: Mark, n: nat) returns (col: int)
    requires MaskShape(mask, n) && row < n
    ensures -1 <= col < n && (col >= 0 ==> mask[row][col] == k)
    ensures col == -1 ==> forall j :: 0 <= j < n ==> mask[row][j] != k
  {
    for j := 0 to n
      invariant forall b :: 0 <= b < j ==> mask[row][b] != k
    {
      if mask[row][j] == k { return j; }
    }
    return -1;
  }

  method FindStarInColumn(mask: seq<seq<Mark>>, col: nat, bound: nat, n: nat) returns (row: int)
    requires MaskShape(mask, n) && col < n && bound <= n
    ensures -1 <= row < bound && (row >= 0 ==> mask[row][col] == Star)
    ensures row == -1 ==> forall i :: 0 <= i < bound ==> mask[i][col] != Star
  {
    for i := 0 to bound
      invariant forall b :: 0 <= b < i ==> mask[b][col] != Star
    {
      if mask[i][col] == Star { return i; }
    }
    return -1;
  }

  // ---- step 1 ---------------------------------------------------------------------

  /** Stars chosen for the rows below k only, greedily: each takes its first zero in a
      column without a star above it, if there is one. */
  ghost predicate Starring(m: Matrix, mask: seq<seq<Mark>>, star: seq<int>, k: nat, n: nat) {
    Stars(m, star, n) && Marks(mask, star, seq(n, _ => -1), n) && (forall i :: k <= i < n ==> star[i] == -1)
    && forall i :: 0 <= i < k && i < n ==> FirstChoice(m, star, i, n)
  }

  /** Every zero of row i before its star, or in the whole row if it has none, is taken. */
  ghost predicate FirstChoice(m: Matrix, star: seq<int>, i: int, n: nat)
    requires HasShape(m, n, n) && |star| == n && 0 <= i < n
  {
    forall j :: 0 <= j < n && (star[i] == -1 || j < star[i]) && m[i][j] == 0.0 ==> StarAbove(star, i, j)
  }

  lemma ChoicesKept(m: Matrix, star0: seq<int>, row: nat, star: seq<int>, n: nat)
    requires HasShape(m, n, n) && |star0| == n && row < n && |star| == n && star == star0[row := star[row]]
    requires forall i :: 0 <= i < row ==> FirstChoice(m, star0, i, n)
    requires forall i :: row <= i < n ==> star0[i] == -1
    requires forall j :: 0 <= j < n && (star[row] == -1 || j < star[row]) && m[row][j] == 0.0 ==> j in star0
    ensures forall i :: 0 <= i <= row ==> FirstChoice(m, star, i, n)
  {
    forall i, j | 0 <= i <= row && 0 <= j < n && (star[i] == -1 || j < star[i]) && m[i][j] == 0.0
      ensures StarAbove(star, i, j)
    {
      if i < row { assert FirstChoice(m, star0, i, n) && StarAbove(star0, i, j); }
      var a :| 0 <= a < n && star0[a] == j && a < i;
      assert star[a] == j;
    }
  }

  /** Column j is taken by a row above i. */
  ghost predicate StarAbove(star: seq<int>, i: int, j: int) {
    exists a :: 0 <= a < i && a < |star| && star[a] == j
  }

  method StarRow(m: Matrix, mask0: seq<seq<Mark>>, row: nat, n: nat, ghost star0: seq<int>)
    returns (mask: seq<seq<Mark>>, ghost star: seq<int>)
    requires row < n && Starring(m, mask0, star0, row, n)
    ensures Starring(m, mask, star, row + 1, n) && star == star0[row := star[row]]
    ensures star[row] == -1 ==> forall j :: 0 <= j < n && m[row][j] == 0.0 ==> j in star0
  {
    mask, star := mask0, star0;
    for col := 0 to n
      invariant forall j :: 0 <= j < col && m[row][j] == 0.0 ==> j in star0
    {
      if m[row][col] == 0.0 {
        var above := FindStarInColumn(mask0, col, row, n);
        if above == -1 {
          forall i | 0 <= i < n ensures star0[i] != col { if i < row { assert mask0[i][col] != Star; } }
          MarkStar(mask0, star0, seq(n, _ => -1), n, row, col);
          ChoicesKept(m, star0, row, star0[row := col], n);
          mask, star := SetAt(mask0, row, col, Star), star0[row := col];
          return;
        }
        assert star0[above] == col;
      }
    }
    ChoicesKept(m, star0, row, star0, n);
  }

  /** The loops of `step1`. */
  method StarGreedily(m: Matrix, mask0: seq<seq<Mark>>, n: nat) returns (mask: seq<seq<Mark>>, ghost star: seq<int>)
    requires HasShape(m, n, n) && MaskShape(mask0, n)
    requires forall i, j :: 0 <= i < n && 0 <= j < n ==> mask0[i][j] == Normal
    ensures Starring(m, mask, star, n, n)
    ensures forall i, j :: 0 <= i < n && 0 <= j < n && mask[i][j] == Star ==>
              m[i][j] == 0.0 && forall k :: 0 <= k < n && k != j ==> mask[i][k] != Star
  {
    mask, star := mask0, seq(n, _ => -1);
    for row := 0 to n
      invariant Starring(m, mask, star, row, n)
    {
      mask, star := StarRow(m, mask, row, n, star);
    }
  }

  // ---- step 2 ---------------------------------------------------------------------

  ghost function StarredBelow(star: seq<int>, k: nat): set<int>
    requires k <= |star|
  {
    set i | 0 <= i < k && star[i] >= 0
  }

  method CoverRow(mask: seq<seq<Mark>>, colMask0: seq<bool>, row: nat, n: nat, ghost star: seq<int>,
                  ghost prime: seq<int>)
    returns (colMask: seq<bool>, stars: nat)
    requires Marks(mask, star, prime, n) && |colMask0| == n && row < n
    ensures |colMask| == n && forall j :: 0 <= j < n ==> (colMask[j] <==> colMask0[j] || star[row] == j)
    ensures stars == if star[row] >= 0 then 1 else 0
  {
    colMask, stars := colMask0, 0;
    for col := 0 to n
      invariant |colMask| == n
      invariant forall j :: 0 <= j < n ==> (colMask[j] <==> colMask0[j] || (j < col && star[row] == j))
      invariant stars == if 0 <= star[row] < col then 1 else 0
    {
      if mask[row][col] == Star {
        colMask := colMask[col := true];
        stars := stars + 1;
      }
    }
  }

  lemma CountStep(star: seq<int>, row: nat)
    requires row < |star|
    ensures |StarredBelow(star, row + 1)| == |StarredBelow(star, row)| + if star[row] >= 0 then 1 else 0
    ensures forall j :: j in star[..row + 1] <==> j in star[..row] || star[row] == j
  {
    assert star[..row + 1] == star[..row] + [star[row]];
    var s := StarredBelow(star, row);
    assert StarredBelow(star, row + 1) == if star[row] >= 0 then s + {row} else s;
  }

  /** The cover loops of `step2`: covers the starred columns and counts the stars. */
  method CoverStars(mask: seq<seq<Mark>>, colMask0: seq<bool>, n: nat, ghost star: seq<int>, ghost prime: seq<int>)
    returns (colMask: seq<bool>, coverCount: nat)
    requires Marks(mask, star, prime, n) && |colMask0| == n && forall j :: 0 <= j < n ==> !colMask0[j]
    ensures |colMask| == n && forall j :: 0 <= j < n ==> (colMask[j] <==> j in star)
    ensures coverCount == |Starred(star)|
  {
    colMask, coverCount := colMask0, 0;
    for row := 0 to n
      invariant |colMask| == n && forall j :: 0 <= j < n ==> (colMask[j] <==> j in star[..row])
      invariant coverCount == |StarredBelow(star, row)|
    {
      var stars;
      colMask, stars := CoverRow(mask, colMask, row, n, star, prime);
      coverCount := coverCount + stars;
      CountStep(star, row);
    }
    assert star[..n] == star;
    assert StarredBelow(star, n) == Starred(star);
  }

  // ---- step 4 ---------------------------------------------------------------------

  /** The cells of an alternating walk: the primes of its rows and, between them, the stars. */
  ghost predicate WalkCells(star: seq<int>, prime: seq<int>, p: seq<int>, cells: seq<(nat, nat)>, n: nat) {
    |star| == n && |prime| == n && |p| > 0 && InRange(p, n)
    && forall i: nat, j: nat :: (i, j) in cells <==>
         i < n && ((i in p && prime[i] == j) || (i in p[1..] && star[i] == j))
  }

  /** The path so far: a walk p, its cells without repetition, and the column reached. */
  ghost predicate Tracing(star: seq<int>, prime: seq<int>, rank: seq<nat>, p: seq<int>,
                          path: seq<(nat, nat)>, col: int, n: nat) {
    Walk(star, prime, rank, p, n) && WalkCells(star, prime, p, path, n) && col == prime[p[|p| - 1]]
    && forall a, b :: 0 <= a < b < |path| ==> path[a] != path[b]
  }

  /** The walk continues through the star of its last column and the prime of that row. */
  lemma ExtendWalk(star: seq<int>, prime: seq<int>, rank: seq<nat>, p: seq<int>,
                   path: seq<(nat, nat)>, n: nat, k: nat)
    requires |star| == n && k < n && Tracing(star, prime, rank, p, path, star[k], n)
    requires prime[k] >= 0 && star[k] != prime[k] && rank[k] < rank[p[|p| - 1]]
    ensures star[k] >= 0 && (k, star[k] as nat) !in path && (k, prime[k] as nat) !in path + [(k, star[k] as nat)]
    ensures Tracing(star, prime, rank, p + [k], path + [(k, star[k] as nat)] + [(k, prime[k] as nat)], prime[k], n)
  {
    assert k !in p by {
      forall t | 0 <= t < |p| ensures p[t] != k { assert t < |p| - 1 ==> rank[p[|p| - 1]] < rank[p[t]]; }
    }
    assert k !in p[1..];
    assert (p + [k])[1..] == p[1..] + [k];
    ExtendCells(star, prime, p, path, n, k);
  }

  lemma ExtendCells(star: seq<int>, prime: seq<int>, p: seq<int>, path: seq<(nat, nat)>, n: nat, k: nat)
    requires WalkCells(star, prime, p, path, n) && k < n && prime[k] >= 0 && star[k] >= 0
    ensures WalkCells(star, prime, p + [k], path + [(k, star[k] as nat)] + [(k, prime[k] as nat)], n)
  {
    assert (p + [k])[1..] == p[1..] + [k];
  }

  /** What the path of step 4 needs of the marks: primes lead to rows primed earlier. */
  ghost predicate Descending(star: seq<int>, prime: seq<int>, rank: seq<nat>, n: nat) {
    |star| == n && |prime| == n && |rank| == n
    && (forall i :: 0 <= i < n ==> -1 <= star[i] < n && -1 <= prime[i] < n)
    && forall i, k :: 0 <= i < n && 0 <= k < n && prime[i] >= 0 && star[k] == prime[i] ==>
         prime[k] >= 0 && rank[k] < rank[i]
  }

  /** One turn of the path loop of `step4`. */
  method ExtendPath(mask: seq<seq<Mark>>, path0: seq<(nat, nat)>, col0: nat, n: nat,
                    ghost star: seq<int>, ghost prime: seq<int>, ghost rank: seq<nat>, ghost p0: seq<int>)
    returns (madePair: bool, path: seq<(nat, nat)>, col: nat, ghost p: seq<int>)
    requires Marks(mask, star, prime, n) && Descending(star, prime, rank, n) && col0 < n
    requires Tracing(star, prime, rank, p0, path0, col0, n)
    ensures col < n && Tracing(star, prime, rank, p, path, col, n) && p[0] == p0[0]
    ensures if madePair then rank[p[|p| - 1]] < rank[p0[|p0| - 1]] else p == p0 && col !in star
  {
    madePair, path, col, p := false, path0, col0, p0;
    var row := FindStarInColumn(mask, col, n, n);
    if row >= 0 {
      assert star[row] == col == prime[p0[|p0| - 1]];
      var next := FindInRow(mask, row, Prime, n);
      assert mask[row][prime[row]] == Prime && next == prime[row];
      ExtendWalk(star, prime, rank, p0, path0, n, row);
      if (row, col) !in path {
        path := path + [(row, col)];
        if next >= 0 && (row, next) !in path {
          madePair := true;
          path := path + [(row, next)];
          p := p + [row];
          col := next;
        }
      }
    } else {
      assert forall i :: 0 <= i < n ==> mask[i][col] != Star && star[i] != col;
    }
  }

  /** `step4`, the path: from the primed zero, the star of its column, the prime of that row,
      and so on until a column without a star. */
  method FindPath(mask: seq<seq<Mark>>, saveRow: nat, saveCol: nat, n: nat,
                  ghost star: seq<int>, ghost prime: seq<int>, ghost rank: seq<nat>)
    returns (path: seq<(nat, nat)>, ghost p: seq<int>)
    requires Marks(mask, star, prime, n) && Descending(star, prime, rank, n)
    requires saveRow < n && saveCol < n && prime[saveRow] == saveCol
    ensures Walk(star, prime, rank, p, n) && p[0] == saveRow && prime[p[|p| - 1]] !in star
    ensures WalkCells(star, prime, p, path, n)
    ensures forall a, b :: 0 <= a < b < |path| ==> path[a] != path[b]
  {
    path := [(saveRow, saveCol)];
    p := [saveRow];
    var col := saveCol;
    var madePair := true;
    while madePair
      invariant col < n && Tracing(star, prime, rank, p, path, col, n) && p[0] == saveRow
      invariant !madePair ==> col !in star
      decreases rank[p[|p| - 1]], madePair
    {
      madePair, path, col, p := ExtendPath(mask, path, col, n, star, prime, rank, p);
    }
  }

  function Toggle(k: Mark): Mark {
    match k case Star => Normal case Prime => Star case Normal => Normal
  }

  /** `step4`, the flip: stars of the path become normal and primes become stars. */
  method FlipPath(mask0: seq<seq<Mark>>, path: seq<(nat, nat)>, n: nat) returns (mask: seq<seq<Mark>>)
    requires MaskShape(mask0, n) && forall k :: 0 <= k < |path| ==> path[k].0 < n && path[k].1 < n
    requires forall a, b :: 0 <= a < b < |path| ==> path[a] != path[b]
    ensures MaskShape(mask, n)
    ensures forall i: nat, j: nat :: i < n && j < n ==>
              mask[i][j] == if (i, j) in path then Toggle(mask0[i][j]) else mask0[i][j]
  {
    mask := mask0;
    for k := 0 to |path|
      invariant MaskShape(mask, n)
      invariant forall i: nat, j: nat :: i < n && j < n ==>
                  mask[i][j] == if (i, j) in path[..k] then Toggle(mask0[i][j]) else mask0[i][j]
    {
      var (i, j) := path[k];
      assert path[..k + 1] == path[..k] + [path[k]] && path[k] !in path[..k];
      if mask[i][j] == Star {
        mask := SetAt(mask, i, j, Normal);
      } else if mask[i][j] == Prime {
        mask := SetAt(mask, i, j, Star);
      }
    }
    assert path[..|path|] == path;
  }

  /** `step4`, the clean-up: no primes are left. */
  method ErasePrimes(mask0: seq<seq<Mark>>, n: nat) returns (mask: seq<seq<Mark>>)
    requires MaskShape(mask0, n)
    ensures MaskShape(mask, n)
    ensures forall i, j :: 0 <= i < n && 0 <= j < n ==>
              mask[i][j] == if mask0[i][j] == Prime then Normal else mask0[i][j]
  {
    mask := mask0;
    for i := 0 to n
      invariant MaskShape(mask, n)
      invariant forall a, b :: 0 <= a < n && 0 <= b < n ==>
                  mask[a][b] == if a < i && mask0[a][b] == Prime then Normal else mask0[a][b]
    {
      for j := 0 to n
        invariant MaskShape(mask, n)
        invariant forall a, b :: 0 <= a < n && 0 <= b < n ==>
                    mask[a][b] == if (a < i || (a == i && b < j)) && mask0[a][b] == Prime then Normal else mask0[a][b]
      {
        if mask[i][j] == Prime { mask := SetAt(mask, i, j, Normal); }
      }
    }
  }

  /** The flipped mask holds exactly the flipped stars. */
  lemma FlippedMarks(mask0: seq<seq<Mark>>, mask1: seq<seq<Mark>>, mask: seq<seq<Mark>>, path: seq<(nat, nat)>,
                     star: seq<int>, star': seq<int>, prime: seq<int>, rank: seq<nat>, p: seq<int>, n: nat)
    requires Marks(mask0, star, prime, n) && MaskShape(mask1, n) && MaskShape(mask, n)
    requires Walk(star, prime, rank, p, n) && WalkCells(star, prime, p, path, n) && star[p[0]] == -1
    requires Flipped(star, star', prime, p, n)
    requires forall i: nat, j: nat :: i < n && j < n ==>
               mask1[i][j] == if (i, j) in path then Toggle(mask0[i][j]) else mask0[i][j]
    requires forall i, j :: 0 <= i < n && 0 <= j < n ==>
               mask[i][j] == if mask1[i][j] == Prime then Normal else mask1[i][j]
    ensures Marks(mask, star', seq(n, _ => -1), n)
  {
    forall i: nat, j: nat | i < n && j < n
      ensures (mask[i][j] == Star <==> star'[i] == j) && mask[i][j] != Prime
    {
      assert i in p ==> i == p[0] || i in p[1..] by { assert p == [p[0]] + p[1..]; }
      assert i in p[1..] ==> i in p;
      assert (i, j) in path <==> (i in p && prime[i] == j) || (i in p[1..] && star[i] == j);
    }
  }

  // ---- step 5 ---------------------------------------------------------------------

  /** The least uncovered non-zero entry, capped. */
  method SmallestUncovered(m: Matrix, rowMask: seq<bool>, colMask: seq<bool>, n: nat) returns (h: real)
    requires HasShape(m, n, n) && CoverShape(rowMask, colMask, n)
    ensures h <= 100000.0
    ensures forall i, j :: 0 <= i < n && 0 <= j < n && !rowMask[i] && !colMask[j] && m[i][j] != 0.0 ==> h <= m[i][j]
    ensures h == 100000.0
            || exists i, j :: 0 <= i < n && 0 <= j < n && !rowMask[i] && !colMask[j] && m[i][j] == h && h != 0.0
  {
    h := STEP_CAP;
    for i := 0 to n
      invariant h <= STEP_CAP
      invariant forall a, b :: 0 <= a < i && 0 <= b < n && !rowMask[a] && !colMask[b] && m[a][b] != 0.0 ==> h <= m[a][b]
      invariant h == STEP_CAP
                || exists a, b :: 0 <= a < n && 0 <= b < n && !rowMask[a] && !colMask[b] && m[a][b] == h && h != 0.0
    {
      if !rowMask[i] {
        for j := 0 to n
          invariant h <= STEP_CAP
          invariant forall a, b :: 0 <= a < i && 0 <= b < n && !rowMask[a] && !colMask[b] && m[a][b] != 0.0 ==>
                      h <= m[a][b]
          invariant forall b :: 0 <= b < j && !colMask[b] && m[i][b] != 0.0 ==> h <= m[i][b]
          invariant h == STEP_CAP
                    || exists a, b :: 0 <= a < n && 0 <= b < n && !rowMask[a] && !colMask[b] && m[a][b] == h && h != 0.0
        {
          if !colMask[j] && h > m[i][j] && m[i][j] != 0.0 { h := m[i][j]; }
        }
      }
    }
  }

  /** x is added to the covered rows. */
  method AddToRows(m0: Matrix, rowMask: seq<bool>, x: real, n: nat) returns (m: Matrix)
    requires HasShape(m0, n, n) && |rowMask| == n
    ensures HasShape(m, n, n)
    ensures forall i, j :: 0 <= i < n && 0 <= j < n ==> m[i][j] == if rowMask[i] then m0[i][j] + x else m0[i][j]
  {
    m := m0;
    for i := 0 to n
      invariant HasShape(m, n, n)
      invariant forall a, b :: 0 <= a < n && 0 <= b < n ==>
                  m[a][b] == if a < i && rowMask[a] then m0[a][b] + x else m0[a][b]
    {
      if rowMask[i] {
        for j := 0 to n
          invariant HasShape(m, n, n)
          invariant forall a, b :: 0 <= a < n && 0 <= b < n ==>
                      m[a][b] == if (a < i && rowMask[a]) || (a == i && b < j) then m0[a][b] + x else m0[a][b]
        {
          m := SetAt(m, i, j, m[i][j] + x);
        }
      }
    }
  }

  method SubtractFromColumn(m0: Matrix, j: nat, x: real, n: nat) returns (m: Matrix)
    requires HasShape(m0, n, n) && j < n
    ensures HasShape(m, n, n)
    ensures forall a, b :: 0 <= a < n && 0 <= b < n ==> m[a][b] == if b == j then m0[a][b] - x else m0[a][b]
  {
    m := m0;
    for i := 0 to n
      invariant HasShape(m, n, n)
      invariant forall a, b :: 0 <= a < n && 0 <= b < n ==>
                  m[a][b] == if b == j && a < i then m0[a][b] - x else m0[a][b]
    {
      m := SetAt(m, i, j, m[i][j] - x);
    }
  }

  /** x is subtracted from the columns that are not covered. */
  method SubtractFromColumns(m0: Matrix, colMask: seq<bool>, x: real, n: nat) returns (m: Matrix)
    requires HasShape(m0, n, n) && |colMask| == n
    ensures HasShape(m, n, n)
    ensures forall i, j {:trigger m[i][j]} :: 0 <= i < n && 0 <= j < n ==>
              m[i][j] == if colMask[j] then m0[i][j] else m0[i][j] - x
  {
    m := m0;
    for j := 0 to n
      invariant HasShape(m, n, n)
      invariant forall a, b {:trigger m[a][b]} :: 0 <= a < n && 0 <= b < n ==>
                  m[a][b] == if b < j && !colMask[b] then m0[a][b] - x else m0[a][b]
    {
      if !colMask[j] {
        m := SubtractFromColumn(m, j, x, n);
      }
    }
  }
}
