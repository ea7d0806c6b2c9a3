/** BYTETracker::lapjv and BYTETracker::linear_assignment: the matcher of all three rounds. */
module ByteAssignment {
  import opened Assignment
  import opened Lapjv
  import opened LapjvSolver
  import opened PartialMatching

  /** The largest cost, at least -1. */
  method MaxCost(c: Matrix, rows: nat, cols: nat) returns (m: real)
    requires HasShape(c, rows, cols)
    ensures m >= -1.0 && forall i, j :: 0 <= i < rows && 0 <= j < cols ==> c[i][j] <= m
    ensures m == -1.0 || exists i, j :: 0 <= i < rows && 0 <= j < cols && m == c[i][j]
  {
    m := -1.0;
    for i := 0 to rows
      invariant m >= -1.0 && forall a, b :: 0 <= a < i && 0 <= b < cols ==> c[a][b] <= m
      invariant m == -1.0 || exists a, b :: 0 <= a < rows && 0 <= b < cols && m == c[a][b]
    {
      for j := 0 to cols
        invariant m >= -1.0 && forall a, b :: 0 <= a < i && 0 <= b < cols ==> c[a][b] <= m
        invariant forall b :: 0 <= b < j ==> c[i][b] <= m
        invariant m == -1.0 || exists a, b :: 0 <= a < rows && 0 <= b < cols && m == c[a][b]
      {
        if c[i][j] > m { m := c[i][j]; }
      }
    }
  }

  /** Fills the enlarged matrix: padding everywhere, then the zero corner, then the costs. */
  method FillExtended(c: Matrix, pad: real, rows: nat, cols: nat, e: array2<real>)
    requires HasShape(c, rows, cols) && e.Length0 == rows + cols && e.Length1 == rows + cols
    modifies e
    ensures forall i, j :: 0 <= i < rows + cols && 0 <= j < rows + cols ==>
              e[i, j] == if i < rows && j < cols then c[i][j] else if i >= rows && j >= cols then 0.0 else pad
  {
    var n := rows + cols;
    for i := 0 to n
      invariant forall a, b :: 0 <= a < i && 0 <= b < n ==> e[a, b] == pad
    {
      for j := 0 to n
        invariant forall a, b :: 0 <= a < i && 0 <= b < n ==> e[a, b] == pad
        invariant forall b :: 0 <= b < j ==> e[i, b] == pad
      {
        e[i, j] := pad;
      }
    }
    for i := rows to n
      invariant forall a, b :: 0 <= a < n && 0 <= b < n ==> e[a, b] == if rows <= a < i && b >= cols then 0.0 else pad
    {
      for j := cols to n
        invariant forall a, b :: 0 <= a < n && 0 <= b < n ==>
          e[a, b] == if (rows <= a < i && b >= cols) || (a == i && cols <= b < j) then 0.0 else pad
      {
        e[i, j] := 0.0;
      }
    }
    for i := 0 to rows
      invariant forall a, b :: 0 <= a < n && 0 <= b < n ==>
        e[a, b] == if a < i && b < cols then c[a][b] else if a >= rows && b >= cols then 0.0 else pad
    {
      for j := 0 to cols
        invariant forall a, b :: 0 <= a < n && 0 <= b < n ==>
          e[a, b] == if (a < i && b < cols) || (a == i && b < j) then c[a][b]
                     else if a >= rows && b >= cols then 0.0 else pad
      {
        e[i, j] := c[i][j];
      }
    }
  }

  /** The row pointers handed to the solver. */
  method Rows(e: array2<real>, n: nat) returns (m: Matrix)
    requires e.Length0 == n && e.Length1 == n
    ensures HasShape(m, n, n) && forall i, j :: 0 <= i < n && 0 <= j < n ==> m[i][j] == e[i, j]
  {
    m := [];
    for i := 0 to n
      invariant |m| == i && forall a :: 0 <= a < i ==> |m[a]| == n && forall j :: 0 <= j < n ==> m[a][j] == e[a, j]
    {
      var row := [];
      for j := 0 to n
        invariant |row| == j && forall b :: 0 <= b < j ==> row[b] == e[i, b]
      {
        row := row + [e[i, j]];
      }
      m := m + [row];
    }
  }

  /** Drops the dummy partners and keeps the first `keep` entries. */
  method CutBack(x: array<int>, keep: nat, bound: nat) returns (s: seq<int>)
    requires keep <= x.Length
    modifies x
    ensures s == Cut(old(x[..]), keep, bound)
  {
    ghost var x0 := x[..];
    for i := 0 to x.Length
      invariant forall k :: 0 <= k < i ==> x[k] == if x0[k] >= bound then -1 else x0[k]
      invariant forall k :: i <= k < x.Length ==> x[k] == x0[k]
    {
      if x[i] >= bound { x[i] := -1; }
    }
    s := x[..keep];
  }

  /** Sums cost over the matched rows. */
  method MatchedCost(c: Matrix, sol: seq<int>, rows: nat, cols: nat) returns (opt: real)
    requires HasShape(c, rows, cols) && |sol| == rows && forall i :: 0 <= i < rows ==> sol[i] < cols
    ensures opt == ExcessUpTo(c, sol, 0.0, rows)
  {
    opt := 0.0;
    for i := 0 to rows
      invariant opt == ExcessUpTo(c, sol, 0.0, i)
    {
      if sol[i] >= 0 { opt := opt + c[i][sol[i]]; }
    }
  }

  datatype Limit = Unlimited | AtMost(limit: real)

  /** Twice the padding of the enlarged matrix: the threshold a match must not exceed. */
  ghost predicate IsThreshold(c: Matrix, rows: nat, cols: nat, costLimit: Limit, t: real)
    requires HasShape(c, rows, cols)
  {
    match costLimit
    case AtMost(l) => t == l
    case Unlimited =>
      (forall i, j :: 0 <= i < rows && 0 <= j < cols ==> 2.0 * c[i][j] + 2.0 <= t)
      && exists i, j :: 0 <= i < rows && 0 <= j < cols && 2.0 * c[i][j] + 2.0 == t
  }

  /** Costs and padding stay below the solver's LARGE. */
  ghost predicate Usable(c: Matrix, rows: nat, cols: nat, costLimit: Limit)
    requires HasShape(c, rows, cols)
  {
    (forall i, j :: 0 <= i < rows && 0 <= j < cols ==> 0.0 <= c[i][j] < LARGE)
    && match costLimit
       case AtMost(l) => 0.0 <= l < 2.0 * LARGE
       case Unlimited => forall i, j :: 0 <= i < rows && 0 <= j < cols ==> c[i][j] < LARGE - 1.0
  }

  /** `BYTETracker::lapjv`. With an enlarged matrix the answer is a minimal thresholded
      matching. Without one the solver's answer is never copied out: rowsol and colsol keep
      their zero fill, as the source does. `ok` is false where the source exits. */
  method SolveThresholded(c: Matrix, rows: nat, cols: nat, extendCost: bool, costLimit: Limit, returnCost: bool)
    returns (ok: bool, rowsol: seq<int>, colsol: seq<int>, opt: real, ghost t: real)
    requires rows >= 1 && cols >= 1 && HasShape(c, rows, cols)
    requires Usable(c, rows, cols, costLimit)
    ensures ok <==> rows == cols || extendCost
    ensures ok ==> |rowsol| == rows && |colsol| == cols && (forall i :: 0 <= i < rows ==> rowsol[i] < cols)
                   && opt == if returnCost then ExcessUpTo(c, rowsol, 0.0, rows) else 0.0
    ensures ok && (extendCost || costLimit.AtMost?) ==>
              IsThreshold(c, rows, cols, costLimit, t) && Minimal(c, rowsol, t, rows, cols) && Mutual(rowsol, colsol)
    ensures ok && !extendCost && costLimit.Unlimited? ==>
              (forall i :: 0 <= i < rows ==> rowsol[i] == 0) && forall j :: 0 <= j < cols ==> colsol[j] == 0
  {
    rowsol, colsol, opt, t := seq(rows, _ => 0), seq(cols, _ => 0), 0.0, 0.0;
    if rows != cols && !extendCost {
      return false, rowsol, colsol, opt, t;
    }
    ok := true;
    if extendCost || costLimit.AtMost? {
      rowsol, colsol, t := SolveExtended(c, rows, cols, costLimit);
    } else {
      var x, y := new int[rows], new int[rows];
      var ret := LapjvInternal(rows, c, x, y);
    }
    if returnCost { opt := MatchedCost(c, rowsol, rows, cols); }
  }

  method ExtendedCosts(c: Matrix, pad: real, rows: nat, cols: nat) returns (costs: Matrix)
    requires HasShape(c, rows, cols)
    ensures Extends(costs, c, pad, rows, cols)
  {
    var n := rows + cols;
    var e := new real[n, n];
    FillExtended(c, pad, rows, cols, e);
    costs := Rows(e, n);
  }

  lemma ExtendedInRange(e: Matrix, c: Matrix, pad: real, rows: nat, cols: nat)
    requires Extends(e, c, pad, rows, cols) && 0.0 <= pad < LARGE
    requires forall i, j :: 0 <= i < rows && 0 <= j < cols ==> 0.0 <= c[i][j] < LARGE
    ensures Costs(e, rows + cols)
  {
  }

  /** The padding value: half the limit, or one more than the largest cost. */
  method Padding(c: Matrix, rows: nat, cols: nat, costLimit: Limit) returns (pad: real)
    requires rows >= 1 && cols >= 1 && HasShape(c, rows, cols)
    requires Usable(c, rows, cols, costLimit)
    ensures 0.0 <= pad < LARGE && IsThreshold(c, rows, cols, costLimit, 2.0 * pad)
  {
    if costLimit.AtMost? {
      pad := costLimit.limit / 2.0;
    } else {
      var m := MaxCost(c, rows, cols);
      pad := m + 1.0;
      assert c[0][0] <= m;
      ghost var i, j :| 0 <= i < rows && 0 <= j < cols && m == c[i][j];
      assert 2.0 * c[i][j] + 2.0 == 2.0 * pad;
    }
  }

  method SolveExtended(c: Matrix, rows: nat, cols: nat, costLimit: Limit)
    returns (rowsol: seq<int>, colsol: seq<int>, ghost t: real)
    requires rows >= 1 && cols >= 1 && HasShape(c, rows, cols)
    requires Usable(c, rows, cols, costLimit)
    ensures |rowsol| == rows && |colsol| == cols && Mutual(rowsol, colsol)
    ensures IsThreshold(c, rows, cols, costLimit, t) && Minimal(c, rowsol, t, rows, cols)
  {
    var pad := Padding(c, rows, cols, costLimit);
    t := 2.0 * pad;
    var costs := ExtendedCosts(c, pad, rows, cols);
    rowsol, colsol := SolveSquare(costs, c, pad, rows, cols);
  }

  method SolveSquare(costs: Matrix, ghost c: Matrix, ghost pad: real, rows: nat, cols: nat)
    returns (rowsol: seq<int>, colsol: seq<int>)
    requires rows >= 1 && cols >= 1 && Extends(costs, c, pad, rows, cols) && 0.0 <= pad < LARGE
    requires forall i, j :: 0 <= i < rows && 0 <= j < cols ==> 0.0 <= c[i][j] < LARGE
    ensures |rowsol| == rows && |colsol| == cols && Mutual(rowsol, colsol)
    ensures Minimal(c, rowsol, 2.0 * pad, rows, cols)
  {
    var n := rows + cols;
    ExtendedInRange(costs, c, pad, rows, cols);
    var x, y := new int[n], new int[n];
    var ret := LapjvInternal(n, costs, x, y);
    OptimalCutsToMinimal(costs, c, pad, rows, cols, x[..]);
    CutsAreMutual(x[..], y[..], rows, cols);
    rowsol := CutBack(x, rows, cols);
    colsol := CutBack(y, cols, rows);
  }

  /** The zero fill left by the square mode is an optimal assignment only of a 1-by-1 matrix. */
  lemma ZeroFillIsOptimalOnlyForOne(c: Matrix, n: nat, sol: seq<int>)
    requires n >= 1 && HasShape(c, n, n) && |sol| == n && forall i :: 0 <= i < n ==> sol[i] == 0
    ensures Optimal(c, sol, n) <==> n == 1
  {
    if n == 1 {
      forall z | IsPermutation(z, 1) ensures Cost(c, sol, 1) <= Cost(c, z, 1) { assert z == sol; }
    } else {
      assert sol[0] == sol[1];
    }
  }

  // ---- linear_assignment --------------------------------------------------------

  ghost predicate Increasing(s: seq<int>) {
    forall a, b :: 0 <= a < b < |s| ==> s[a] < s[b]
  }

  /** The three output lists read off a matching, each in increasing order. */
  ghost predicate Reports(sol: seq<int>, rows: nat, cols: nat, matches: seq<(int, int)>, ua: seq<int>, ub: seq<int>)
    requires |sol| == rows
  {
    (forall a, b :: 0 <= a < b < |matches| ==> matches[a].0 < matches[b].0)
    && (forall i, j :: (i, j) in matches <==> 0 <= i < rows && sol[i] == j && j >= 0)
    && Increasing(ua) && (forall i :: i in ua <==> 0 <= i < rows && sol[i] < 0)
    && Increasing(ub) && (forall j :: j in ub <==> 0 <= j < cols && j !in sol)
  }

  /** The three lists are read off sol, which is minimal for the costs, if there are any. */
  ghost predicate Assigns(c: Matrix, sol: seq<int>, thresh: real, rows: nat, cols: nat,
                          matches: seq<(int, int)>, ua: seq<int>, ub: seq<int>) {
    Matching(sol, rows, cols) && Reports(sol, rows, cols, matches, ua, ub)
    && (|c| > 0 ==> HasShape(c, rows, cols) && Minimal(c, sol, thresh, rows, cols))
  }

  /** `BYTETracker::linear_assignment`, called with a matrix of its full shape or, when a side
      is empty, with no matrix and the two sizes. */
  method LinearAssignment(c: Matrix, rows: nat, cols: nat, thresh: real)
    returns (matches: seq<(int, int)>, ua: seq<int>, ub: seq<int>, ghost sol: seq<int>)
    requires if rows == 0 || cols == 0 then |c| == 0 else HasShape(c, rows, cols)
    requires |c| > 0 ==> Usable(c, rows, cols, AtMost(thresh))
    ensures Assigns(c, sol, thresh, rows, cols, matches, ua, ub)
    ensures exists s :: Assigns(c, s, thresh, rows, cols, matches, ua, ub)
  {
    matches, ua, ub := [], [], [];
    if |c| == 0 {
      ua := Count(rows);
      ub := Count(cols);
      sol := seq(rows, _ => -1);
      assert Assigns(c, sol, thresh, rows, cols, matches, ua, ub);
      return;
    }
    var ok, rowsol, colsol, opt;
    ghost var t;
    ok, rowsol, colsol, opt, t := SolveThresholded(c, rows, cols, true, AtMost(thresh), true);
    sol := rowsol;
    matches, ua := ReadRows(rowsol, rows);
    ub := ReadColumns(rowsol, colsol, cols);
    assert Assigns(c, sol, thresh, rows, cols, matches, ua, ub);
  }

  /** 0, 1, ..., n - 1. */
  method Count(n: nat) returns (s: seq<int>)
    ensures Increasing(s) && forall k :: k in s <==> 0 <= k < n
  {
    s := [];
    for i := 0 to n
      invariant |s| == i && forall k :: 0 <= k < i ==> s[k] == k
    {
      s := s + [i];
    }
    forall k | 0 <= k < n ensures k in s { assert s[k] == k; }
  }

  method ReadRows(rowsol: seq<int>, rows: nat) returns (matches: seq<(int, int)>, ua: seq<int>)
    requires |rowsol| == rows
    ensures forall a, b :: 0 <= a < b < |matches| ==> matches[a].0 < matches[b].0
    ensures forall i, j :: (i, j) in matches <==> 0 <= i < rows && rowsol[i] == j && j >= 0
    ensures Increasing(ua) && forall i :: i in ua <==> 0 <= i < rows && rowsol[i] < 0
  {
    matches, ua := [], [];
    for i := 0 to rows
      invariant forall a, b :: 0 <= a < b < |matches| ==> matches[a].0 < matches[b].0
      invariant forall a :: 0 <= a < |matches| ==> matches[a].0 < i
      invariant forall a, b :: (a, b) in matches <==> 0 <= a < i && rowsol[a] == b && b >= 0
      invariant Increasing(ua) && forall k :: k in ua <==> 0 <= k < i && rowsol[k] < 0
    {
      if rowsol[i] >= 0 {
        matches := matches + [(i, rowsol[i])];
      } else {
        assert forall a :: 0 <= a < |ua| ==> ua[a] in ua;
        ua := ua + [i];
      }
    }
  }

  method ReadColumns(ghost rowsol: seq<int>, colsol: seq<int>, cols: nat) returns (ub: seq<int>)
    requires |colsol| == cols && Mutual(rowsol, colsol)
    ensures Increasing(ub) && forall j :: j in ub <==> 0 <= j < cols && j !in rowsol
  {
    ub := [];
    for j := 0 to cols
      invariant Increasing(ub) && forall k :: k in ub <==> 0 <= k < j && colsol[k] < 0
    {
      if colsol[j] < 0 {
        assert forall a :: 0 <= a < |ub| ==> ub[a] in ub;
        ub := ub + [j];
      }
    }
    forall j | 0 <= j < cols ensures colsol[j] < 0 <==> j !in rowsol {
      if colsol[j] >= 0 { assert rowsol[colsol[j]] == j; }
    }
  }
}
