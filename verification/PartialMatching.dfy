/** Thresholded partial matching, and why the enlarged square matrix of BYTETracker::lapjv
    solves it. */
module PartialMatching {
  import opened Assignment

  /** sol[i] is the column of row i, or -1; no column is used twice. */
  ghost predicate Matching(sol: seq<int>, rows: nat, cols: nat) {
    |sol| == rows
    && (forall i :: 0 <= i < rows ==> -1 <= sol[i] < cols)
    && (forall i, k :: 0 <= i < k < rows && sol[i] >= 0 ==> sol[i] != sol[k])
  }

  /** Each of rowsol and colsol lists the other's partners, -1 meaning none. */
  ghost predicate Mutual(rowsol: seq<int>, colsol: seq<int>) {
    (forall i :: 0 <= i < |rowsol| ==> -1 <= rowsol[i] < |colsol|)
    && (forall j :: 0 <= j < |colsol| ==> -1 <= colsol[j] < |rowsol|)
    && (forall i, j :: 0 <= i < |rowsol| && 0 <= j < |colsol| ==> (rowsol[i] == j <==> colsol[j] == i))
  }

  /** The total of cost - limit over the matched pairs among the first k rows. */
  ghost function ExcessUpTo(c: Matrix, sol: seq<int>, limit: real, k: nat): real
    requires k <= |c| && k <= |sol|
    requires forall i :: 0 <= i < k ==> sol[i] < |c[i]|
  {
    if k == 0 then 0.0
    else ExcessUpTo(c, sol, limit, k - 1) + (if sol[k - 1] >= 0 then c[k - 1][sol[k - 1]] - limit else 0.0)
  }

  ghost predicate Minimal(c: Matrix, sol: seq<int>, limit: real, rows: nat, cols: nat)
    requires HasShape(c, rows, cols)
  {
    Matching(sol, rows, cols)
    && forall z :: Matching(z, rows, cols) ==> ExcessUpTo(c, sol, limit, rows) <= ExcessUpTo(c, z, limit, rows)
  }

  // ---- what minimality means for single pairs -------------------------------

  lemma {:induction false} ExcessUpdate(c: Matrix, sol: seq<int>, limit: real, rows: nat, cols: nat, r: nat, j: int,
                                        k: nat)
    requires HasShape(c, rows, cols) && Matching(sol, rows, cols) && k <= rows && r < rows && -1 <= j < cols
    ensures ExcessUpTo(c, sol[r := j], limit, k) - ExcessUpTo(c, sol, limit, k)
         == if k <= r then 0.0
            else (if j >= 0 then c[r][j] - limit else 0.0) - (if sol[r] >= 0 then c[r][sol[r]] - limit else 0.0)
  {
    if k > 0 { ExcessUpdate(c, sol, limit, rows, cols, r, j, k - 1); }
  }

  /** No reported match costs more than the limit. */
  lemma MatchesWithinLimit(c: Matrix, sol: seq<int>, limit: real, rows: nat, cols: nat, i: nat)
    requires HasShape(c, rows, cols) && Minimal(c, sol, limit, rows, cols) && i < rows && sol[i] >= 0
    ensures c[i][sol[i]] <= limit
  {
    ExcessUpdate(c, sol, limit, rows, cols, i, -1, rows);
    assert Matching(sol[i := -1], rows, cols);
  }

  /** No row and column left unmatched cost less than the limit. */
  lemma UnmatchedBeyondLimit(c: Matrix, sol: seq<int>, limit: real, rows: nat, cols: nat, i: nat, j: nat)
    requires HasShape(c, rows, cols) && Minimal(c, sol, limit, rows, cols)
    requires i < rows && j < cols && sol[i] == -1 && j !in sol
    ensures c[i][j] >= limit
  {
    ExcessUpdate(c, sol, limit, rows, cols, i, j, rows);
    assert Matching(sol[i := j], rows, cols);
  }

  // ---- the enlarged matrix ----------------------------------------------------

  /** The (rows + cols)-square matrix: costs in the top left corner, zeros in the bottom
      right one, and the padding value elsewhere. */
  ghost predicate Extends(e: Matrix, c: Matrix, pad: real, rows: nat, cols: nat) {
    HasShape(c, rows, cols) && HasShape(e, rows + cols, rows + cols)
    && forall i, j :: 0 <= i < rows + cols && 0 <= j < rows + cols ==>
         e[i][j] == if i < rows && j < cols then c[i][j] else if i >= rows && j >= cols then 0.0 else pad
  }

  /** A permutation of the enlarged square cut back to the original rows and columns. */
  ghost function Cut(z: seq<int>, rows: nat, cols: nat): (s: seq<int>)
    requires rows <= |z|
    ensures |s| == rows && forall i :: 0 <= i < rows ==> s[i] == if z[i] < cols then z[i] else -1
  {
    seq(rows, i requires 0 <= i < rows => if z[i] < cols then z[i] else -1)
  }

  lemma CutIsMatching(z: seq<int>, rows: nat, cols: nat)
    requires IsPermutation(z, rows + cols)
    ensures Matching(Cut(z, rows, cols), rows, cols)
  {
  }

  /** What a real row or column pays for padding; cells pay it once per real line. */
  ghost function Share(pad: real, real_: nat, n: nat): (w: seq<real>)
    ensures |w| == n && forall i :: 0 <= i < n ==> w[i] == if i < real_ then pad else 0.0
  {
    seq(n, i => if i < real_ then pad else 0.0)
  }

  lemma {:induction false} CutCostUpTo(e: Matrix, c: Matrix, pad: real, rows: nat, cols: nat, z: seq<int>, k: nat)
    requires Extends(e, c, pad, rows, cols) && IsPermutation(z, rows + cols) && k <= rows + cols
    ensures var n := rows + cols; var s := Cut(z, rows, cols);
            (forall i :: 0 <= i < rows ==> s[i] < cols)
            && CostUpTo(e, z, k) == SumUpTo(Share(pad, rows, n), k) + SumAlong(Share(pad, cols, n), z, k)
                                    + ExcessUpTo(c, s, 2.0 * pad, if k <= rows then k else rows)
  {
    if k > 0 { CutCostUpTo(e, c, pad, rows, cols, z, k - 1); }
  }

  /** The cost of a permutation is a constant plus the excess of its cut over a limit of
      twice the padding. */
  lemma CutCost(e: Matrix, c: Matrix, pad: real, rows: nat, cols: nat, z: seq<int>)
    requires Extends(e, c, pad, rows, cols) && IsPermutation(z, rows + cols)
    ensures Matching(Cut(z, rows, cols), rows, cols)
    ensures var n := rows + cols;
            Cost(e, z, n) == SumUpTo(Share(pad, rows, n), n) + SumUpTo(Share(pad, cols, n), n)
                             + ExcessUpTo(c, Cut(z, rows, cols), 2.0 * pad, rows)
  {
    var n := rows + cols;
    CutIsMatching(z, rows, cols);
    CutCostUpTo(e, c, pad, rows, cols, z, n);
    PermutedSum(Share(pad, cols, n), z);
  }

  /** The row matched to column j, or -1. */
  ghost function Holder(sol: seq<int>, j: int): (i: int)
    ensures -1 <= i < |sol|
    ensures if j in sol then i >= 0 && sol[i] == j else i == -1
  {
    if j in sol then var i :| 0 <= i < |sol| && sol[i] == j; i else -1
  }

  /** A matching completed to a permutation: an unmatched row i takes the dummy column of row
      i, and the dummy row of column j takes j, or the dummy column of the row matched to j. */
  ghost function Spot(sol: seq<int>, rows: nat, cols: nat, k: int): int
    requires |sol| == rows && 0 <= k < rows + cols
  {
    if k < rows then (if sol[k] >= 0 then sol[k] else cols + k)
    else if k - rows in sol then cols + Holder(sol, k - rows) else k - rows
  }

  ghost function Completion(sol: seq<int>, rows: nat, cols: nat): (z: seq<int>)
    requires |sol| == rows
    ensures |z| == rows + cols && forall k :: 0 <= k < rows + cols ==> z[k] == Spot(sol, rows, cols, k)
  {
    seq(rows + cols, k requires 0 <= k < rows + cols => Spot(sol, rows, cols, k))
  }

  lemma SpotsDiffer(sol: seq<int>, rows: nat, cols: nat, a: int, b: int)
    requires Matching(sol, rows, cols) && 0 <= a < b < rows + cols
    ensures Spot(sol, rows, cols, a) != Spot(sol, rows, cols, b)
  {
    if a < rows <= b && b - rows !in sol && sol[a] >= 0 { assert sol[a] in sol; }
  }

  lemma CompletionIsPermutation(sol: seq<int>, rows: nat, cols: nat)
    requires Matching(sol, rows, cols)
    ensures IsPermutation(Completion(sol, rows, cols), rows + cols)
    ensures Cut(Completion(sol, rows, cols), rows, cols) == sol
  {
    var z := Completion(sol, rows, cols);
    forall a, b | 0 <= a < b < rows + cols ensures z[a] != z[b] { SpotsDiffer(sol, rows, cols, a, b); }
  }

  /** The reduction preserves meaning: cutting back an optimal permutation of the enlarged
      matrix gives a partial matching of least total excess over all partial matchings. */
  lemma OptimalCutsToMinimal(e: Matrix, c: Matrix, pad: real, rows: nat, cols: nat, x: seq<int>)
    requires Extends(e, c, pad, rows, cols) && Optimal(e, x, rows + cols)
    ensures Minimal(c, Cut(x, rows, cols), 2.0 * pad, rows, cols)
  {
    CutCost(e, c, pad, rows, cols, x);
    forall z | Matching(z, rows, cols)
      ensures ExcessUpTo(c, Cut(x, rows, cols), 2.0 * pad, rows) <= ExcessUpTo(c, z, 2.0 * pad, rows)
    {
      CompletionIsPermutation(z, rows, cols);
      CutCost(e, c, pad, rows, cols, Completion(z, rows, cols));
    }
  }

  /** Cutting both halves of an inverse pair leaves mutual partners. */
  lemma CutsAreMutual(x: seq<int>, y: seq<int>, rows: nat, cols: nat)
    requires Inverse(x, y, rows + cols)
    ensures Mutual(Cut(x, rows, cols), Cut(y, cols, rows))
  {
  }
}
