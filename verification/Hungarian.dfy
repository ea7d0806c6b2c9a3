/** Munkres on a rectangular matrix, and the pair list HungarianOper::Solve reads off it. */
module Hungarian {
  import opened Assignment
  import opened PartialMatching
  import opened MunkresState
  import opened MunkresSolver

  /** The square matrix handed to the steps: the costs, padded with one value. */
  ghost predicate Padded(a: Matrix, c: Matrix, pad: real, rows: nat, cols: nat, n: nat) {
    n == (if rows > cols then rows else cols) && HasShape(c, rows, cols) && HasShape(a, n, n)
    && forall i, j {:trigger a[i][j]} :: 0 <= i < n && 0 <= j < n ==>
         a[i][j] == if i < rows && j < cols then c[i][j] else pad
  }

  /** A matching that uses up the shorter side. */
  ghost predicate Full(sol: seq<int>, rows: nat, cols: nat) {
    Matching(sol, rows, cols)
    && (rows <= cols ==> forall i :: 0 <= i < rows ==> sol[i] >= 0)
    && (cols <= rows ==> forall j :: 0 <= j < cols ==> j in sol)
  }

  ghost function Total(c: Matrix, sol: seq<int>, rows: nat): real
    requires rows <= |c| && rows <= |sol| && forall i :: 0 <= i < rows ==> sol[i] < |c[i]|
  {
    ExcessUpTo(c, sol, 0.0, rows)
  }

  ghost predicate CheapestFull(c: Matrix, sol: seq<int>, rows: nat, cols: nat)
    requires HasShape(c, rows, cols)
  {
    Full(sol, rows, cols) && forall z :: Full(z, rows, cols) ==> Total(c, sol, rows) <= Total(c, z, rows)
  }

  /** pad at the indices from real_ on. */
  ghost function Tail(pad: real, real_: nat, n: nat): (w: seq<real>)
    ensures |w| == n && forall i :: 0 <= i < n ==> w[i] == if i < real_ then 0.0 else pad
  {
    seq(n, i => if i < real_ then 0.0 else pad)
  }

  lemma {:induction false} PaddedCostUpTo(a: Matrix, c: Matrix, pad: real, rows: nat, cols: nat, n: nat, z: seq<int>,
                                          k: nat)
    requires Padded(a, c, pad, rows, cols, n) && IsPermutation(z, n) && k <= n
    ensures var s := Cut(z, rows, cols);
            (forall i :: 0 <= i < rows ==> s[i] < cols)
            && CostUpTo(a, z, k) == SumUpTo(Tail(pad, rows, n), k) + SumAlong(Tail(pad, cols, n), z, k)
                                    + ExcessUpTo(c, s, 0.0, if k <= rows then k else rows)
  {
    if k > 0 {
      PaddedCostUpTo(a, c, pad, rows, cols, n, z, k - 1);
      assert a[k - 1][z[k - 1]] == if k - 1 < rows && z[k - 1] < cols then c[k - 1][z[k - 1]] else pad;
    }
  }

  lemma PermutationCutsToFull(z: seq<int>, rows: nat, cols: nat, n: nat)
    requires n == (if rows > cols then rows else cols) && IsPermutation(z, n)
    ensures Full(Cut(z, rows, cols), rows, cols)
  {
    if cols <= rows {
      forall j | 0 <= j < cols ensures j in Cut(z, rows, cols) {
        Surjective(z, n, j);
        var i :| 0 <= i < n && z[i] == j;
        assert Cut(z, rows, cols)[i] == j;
      }
    }
  }

  lemma PaddedCost(a: Matrix, c: Matrix, pad: real, rows: nat, cols: nat, n: nat, z: seq<int>)
    requires Padded(a, c, pad, rows, cols, n) && IsPermutation(z, n)
    ensures Full(Cut(z, rows, cols), rows, cols)
    ensures Cost(a, z, n) == SumUpTo(Tail(pad, rows, n), n) + SumUpTo(Tail(pad, cols, n), n)
                             + Total(c, Cut(z, rows, cols), rows)
  {
    PermutationCutsToFull(z, rows, cols, n);
    PaddedCostUpTo(a, c, pad, rows, cols, n, z, n);
    PermutedSum(Tail(pad, cols, n), z);
  }

  // ---- every full matching is the cut of a permutation ----------------------------

  ghost function Open(z: seq<int>): set<int> {
    set i | 0 <= i < |z| && z[i] < 0
  }

  /** Filling the open entries of an injective list with unused values gives a permutation. */
  lemma FillUp(z: seq<int>, n: nat) returns (p: seq<int>)
    requires Matching(z, n, n)
    ensures IsPermutation(p, n) && forall i :: 0 <= i < n && z[i] >= 0 ==> p[i] == z[i]
    ensures forall i :: 0 <= i < n && z[i] < 0 ==> p[i] !in z
    decreases Open(z)
  {
    if i :| 0 <= i < n && z[i] < 0 {
      assert i in Open(z);
      UnusedValue(z, n, i);
      var v :| 0 <= v < n && v !in z;
      var z' := z[i := v];
      forall k | k in Open(z') ensures k in Open(z) && k != i {}
      p := FillUp(z', n);
      forall k | 0 <= k < n && z[k] < 0 ensures p[k] !in z {
        if k == i {
          assert p[k] == v;
        } else {
          forall m | 0 <= m < n ensures z[m] != p[k] { if m != i { assert z'[m] == z[m] && z'[m] in z'; } }
        }
      }
    } else {
      p := z;
    }
  }

  lemma UnusedValue(z: seq<int>, n: nat, i: int)
    requires Matching(z, n, n) && 0 <= i < n && z[i] < 0
    ensures exists v :: 0 <= v < n && v !in z
  {
    SubsetOfUpto(Starred(z), n);
    assert i !in Starred(z);
    var v := UnstarredColumn(z, n);
  }

  lemma FullExtends(sol: seq<int>, rows: nat, cols: nat, n: nat) returns (p: seq<int>)
    requires Full(sol, rows, cols) && n == (if rows > cols then rows else cols)
    ensures IsPermutation(p, n) && Cut(p, rows, cols) == sol
  {
    var z := sol + seq(n - rows, _ => -1);
    p := FillUp(z, n);
    forall i | 0 <= i < rows ensures (if p[i] < cols then p[i] else -1) == sol[i] {
      assert z[i] == sol[i];
      if sol[i] < 0 {
        assert p[i] !in z;
        assert forall k :: 0 <= k < rows ==> z[k] == sol[k] && z[k] in z;
        assert p[i] !in sol;
      }
    }
  }

  /** An optimal assignment of the padded square, cut back, is a cheapest full matching of the
      original rectangle. */
  lemma OptimalCutsToCheapest(a: Matrix, c: Matrix, pad: real, rows: nat, cols: nat, n: nat, x: seq<int>)
    requires Padded(a, c, pad, rows, cols, n) && Optimal(a, x, n)
    ensures CheapestFull(c, Cut(x, rows, cols), rows, cols)
  {
    PaddedCost(a, c, pad, rows, cols, n, x);
    forall z | Full(z, rows, cols) ensures Total(c, Cut(x, rows, cols), rows) <= Total(c, z, rows) {
      var p := FullExtends(z, rows, cols, n);
      PaddedCost(a, c, pad, rows, cols, n, p);
    }
  }

  // ---- the solver ------------------------------------------------------------------

  /** `mmax`. */
  method Largest(c: Matrix, rows: nat, cols: nat) returns (max: real)
    requires HasShape(c, rows, cols) && rows >= 1 && cols >= 1
    ensures exists i, j :: 0 <= i < rows && 0 <= j < cols && max == c[i][j]
    ensures forall i, j :: 0 <= i < rows && 0 <= j < cols ==> c[i][j] <= max
  {
    max := c[0][0];
    for i := 0 to rows
      invariant exists a, b :: 0 <= a < rows && 0 <= b < cols && max == c[a][b]
      invariant forall a, b :: 0 <= a < i && 0 <= b < cols ==> c[a][b] <= max
    {
      for j := 0 to cols
        invariant exists a, b :: 0 <= a < rows && 0 <= b < cols && max == c[a][b]
        invariant forall a, b :: 0 <= a < i && 0 <= b < cols ==> c[a][b] <= max
        invariant forall b :: 0 <= b < j ==> c[i][b] <= max
      {
        if max < c[i][j] { max := c[i][j]; }
      }
    }
  }

  /** `resize` to a square with a default value. */
  method Square(c: Matrix, rows: nat, cols: nat, pad: real, n: nat) returns (a: Matrix)
    requires HasShape(c, rows, cols) && n == (if rows > cols then rows else cols)
    ensures Padded(a, c, pad, rows, cols, n)
  {
    a := [];
    for i := 0 to n
      invariant |a| == i && forall k :: 0 <= k < i ==> |a[k]| == n
      invariant forall k, j {:trigger a[k][j]} :: 0 <= k < i && 0 <= j < n ==>
                  a[k][j] == if k < rows && j < cols then c[k][j] else pad
    {
      var row := [];
      for j := 0 to n
        invariant |row| == j
        invariant forall b {:trigger row[b]} :: 0 <= b < j ==> row[b] == if i < rows && b < cols then c[i][b] else pad
      {
        row := row + [if i < rows && j < cols then c[i][j] else pad];
      }
      a := a + [row];
    }
  }

  /** The answer matrix: 0 at the matched cells, -1 elsewhere. */
  ghost predicate Answers(r: Matrix, sol: seq<int>, rows: nat, cols: nat) {
    HasShape(r, rows, cols) && |sol| == rows
    && forall i, j {:trigger r[i][j]} :: 0 <= i < rows && 0 <= j < cols ==> r[i][j] == if sol[i] == j then 0.0 else -1.0
  }

  method ReadStars(mask: seq<seq<Mark>>, rows: nat, cols: nat, n: nat, ghost star: seq<int>, ghost prime: seq<int>)
    returns (r: Matrix)
    requires Marks(mask, star, prime, n) && rows <= n && cols <= n
    ensures Answers(r, Cut(star, rows, cols), rows, cols)
  {
    r := [];
    for i := 0 to rows
      invariant |r| == i && forall k :: 0 <= k < i ==> |r[k]| == cols
      invariant forall k, j {:trigger r[k][j]} :: 0 <= k < i && 0 <= j < cols ==>
                  r[k][j] == if star[k] == j then 0.0 else -1.0
    {
      var row := [];
      for j := 0 to cols
        invariant |row| == j
        invariant forall b {:trigger row[b]} :: 0 <= b < j ==> row[b] == if star[i] == b then 0.0 else -1.0
      {
        row := row + [if mask[i][j] == Star then 0.0 else -1.0];
      }
      r := r + [row];
    }
  }

  /** The answer marks the cells of a cheapest full matching with 0 and all others with -1. */
  ghost predicate MarksCheapest(c: Matrix, r: Matrix, rows: nat, cols: nat) {
    HasShape(c, rows, cols) && exists sol :: CheapestFull(c, sol, rows, cols) && Answers(r, sol, rows, cols)
  }

  /** `Munkres::solve`, for every non-negative matrix of any shape: it terminates, and the
      zeros of the answer are a cheapest full matching. */
  method Solve(c: Matrix, rows: nat, cols: nat) returns (r: Matrix, ghost sol: seq<int>)
    requires rows >= 1 && cols >= 1 && HasShape(c, rows, cols)
    requires forall i, j :: 0 <= i < rows && 0 <= j < cols ==> c[i][j] >= 0.0
    ensures CheapestFull(c, sol, rows, cols) && Answers(r, sol, rows, cols)
    ensures MarksCheapest(c, r, rows, cols)
  {
    var n := if rows > cols then rows else cols;
    var pad := Largest(c, rows, cols);
    var a := Square(c, rows, cols, pad, n);
    PadNonNegative(a, c, pad, rows, cols, n);
    var m := new Solver();
    m.Start(a, n, rows >= cols);
    m.RunSteps();
    ghost var s := m.s;
    AllStarred(s.a, s.m, s.star, s.u, s.v, n);
    OptimalCutsToCheapest(a, c, pad, rows, cols, n, s.star);
    sol := Cut(s.star, rows, cols);
    r := ReadStars(m.mask, rows, cols, n, s.star, s.prime);
  }

  lemma PadNonNegative(a: Matrix, c: Matrix, pad: real, rows: nat, cols: nat, n: nat)
    requires Padded(a, c, pad, rows, cols, n)
    requires forall i, j :: 0 <= i < rows && 0 <= j < cols ==> c[i][j] >= 0.0
    requires exists i, j :: 0 <= i < rows && 0 <= j < cols && pad == c[i][j]
    ensures NonNegative(a, n)
  {
    forall i, j | 0 <= i < n && 0 <= j < n ensures a[i][j] >= 0.0 {
      assert a[i][j] == if i < rows && j < cols then c[i][j] else pad;
    }
  }

  /** `HungarianOper::Solve`: the zero cells in row-major order, one per matched row. */
  method SolvePairs(c: Matrix, rows: nat, cols: nat) returns (pairs: seq<(int, int)>, ghost sol: seq<int>)
    requires rows >= 1 && cols >= 1 && HasShape(c, rows, cols)
    requires forall i, j :: 0 <= i < rows && 0 <= j < cols ==> c[i][j] >= 0.0
    ensures CheapestFull(c, sol, rows, cols)
    ensures forall i, j :: (i, j) in pairs <==> 0 <= i < rows && sol[i] == j && j >= 0
    ensures forall a, b :: 0 <= a < b < |pairs| ==> pairs[a].0 < pairs[b].0
  {
    var r;
    r, sol := Solve(c, rows, cols);
    pairs := [];
    for i := 0 to rows
      invariant forall a, b :: (a, b) in pairs <==> 0 <= a < i && sol[a] == b && b >= 0
      invariant forall a, b :: 0 <= a < b < |pairs| ==> pairs[a].0 < pairs[b].0
      invariant forall a :: 0 <= a < |pairs| ==> pairs[a].0 < i
    {
      pairs := ZerosOfRow(r, i, rows, cols, pairs, sol);
    }
  }

  method ZerosOfRow(r: Matrix, i: nat, rows: nat, cols: nat, pairs0: seq<(int, int)>, ghost sol: seq<int>)
    returns (pairs: seq<(int, int)>)
    requires Answers(r, sol, rows, cols) && i < rows && -1 <= sol[i] < cols
    ensures pairs == if sol[i] >= 0 then pairs0 + [(i, sol[i])] else pairs0
  {
    pairs := pairs0;
    for j := 0 to cols
      invariant pairs == if 0 <= sol[i] < j then pairs0 + [(i, sol[i])] else pairs0
    {
      if r[i][j].Floor == 0 { pairs := pairs + [(i, j)]; }
    }
  }

  /** How many cells are matched: the length of the shorter side. */
  lemma FullSize(sol: seq<int>, rows: nat, cols: nat)
    requires Full(sol, rows, cols)
    ensures |Starred(sol)| == if rows < cols then rows else cols
  {
    SubsetOfUpto(Starred(sol), rows);
    if rows <= cols {
      assert Starred(sol) == Upto(rows);
    } else {
      FullColumns(sol, rows, cols, cols);
      assert StarredBelowColumn(sol, cols) == Starred(sol);
    }
  }

  ghost function StarredBelowColumn(sol: seq<int>, k: nat): set<int> {
    set i | 0 <= i < |sol| && 0 <= sol[i] < k
  }

  lemma {:induction false} FullColumns(sol: seq<int>, rows: nat, cols: nat, k: nat)
    requires Matching(sol, rows, cols) && k <= cols && forall j :: 0 <= j < cols ==> j in sol
    ensures |StarredBelowColumn(sol, k)| == k
  {
    if k == 0 {
      assert StarredBelowColumn(sol, 0) == {};
    } else {
      FullColumns(sol, rows, cols, k - 1);
      assert k - 1 in sol;
      var i :| 0 <= i < rows && sol[i] == k - 1;
      OneMoreColumn(sol, rows, cols, k, i);
    }
  }

  lemma OneMoreColumn(sol: seq<int>, rows: nat, cols: nat, k: nat, i: int)
    requires Matching(sol, rows, cols) && 0 < k <= cols && 0 <= i < rows && sol[i] == k - 1
    ensures |StarredBelowColumn(sol, k)| == |StarredBelowColumn(sol, k - 1)| + 1
  {
    var a, b := StarredBelowColumn(sol, k - 1), StarredBelowColumn(sol, k);
    forall x | x in b ensures x in a + {i} {
      if sol[x] == k - 1 { assert x == i; }
    }
    assert i !in a && b == a + {i};
  }
}
