/** The Jonker-Volgenant solver: column reduction with reduction transfer, two passes of
    augmenting row reduction, then one shortest augmenting path per row still free. */
module Lapjv {
  import opened Assignment

  const LARGE: real := 1000000.0

  ghost predicate Costs(c: Matrix, n: nat) {
    HasShape(c, n, n)
    && forall i, j :: 0 <= i < n && 0 <= j < n ==> 0.0 <= c[i][j] < LARGE
  }

  /** The invariant of the whole solver, for the rows outside `free`: x and y are inverse
      there and each such row sits at its cheapest column. Nothing is said about x[i] for a
      free row i: row reduction leaves the column a displaced row used to have. */
  ghost predicate Partial(c: Matrix, n: nat, x: seq<int>, y: seq<int>, v: seq<real>, free: set<int>) {
    HasShape(c, n, n) && |x| == n && |y| == n && |v| == n
    && (forall i :: 0 <= i < n && i !in free ==> 0 <= x[i] < n && y[x[i]] == i && AtMinimum(c, v, i, x[i]))
    && (forall j :: 0 <= j < n ==> -1 <= y[j] < n)
    && (forall j :: 0 <= j < n && y[j] >= 0 ==> y[j] !in free && x[y[j]] == j)
    && (forall i :: i in free ==> 0 <= i < n)
  }

  /** Column `argmin[j]` is a row where column j is cheapest. */
  ghost predicate ColumnMinima(c: Matrix, n: nat, argmin: seq<int>) {
    HasShape(c, n, n) && |argmin| == n && InRange(argmin, n)
    && forall i, j :: 0 <= i < n && 0 <= j < n ==> c[argmin[j]][j] <= c[i][j]
  }

  /** Prices never exceed column minima; a column nobody holds is still priced at its
      minimum, and the row that attains it attains the minimum of another column as well. */
  ghost predicate Priced(c: Matrix, n: nat, y: seq<int>, v: seq<real>, argmin: seq<int>, twin: seq<int>) {
    ColumnMinima(c, n, argmin) && |y| == n && |v| == n && |twin| == n
    && (forall i, j :: 0 <= i < n && 0 <= j < n ==> v[j] <= c[i][j])
    && (forall j :: 0 <= j < n && y[j] < 0 ==>
          v[j] == c[argmin[j]][j] && 0 <= twin[j] < n && twin[j] != j && argmin[twin[j]] == argmin[j])
  }

  /** s lists the rows of `free`, each once. */
  ghost predicate Lists(s: seq<int>, free: set<int>) {
    Injective(s) && forall i :: i in free <==> i in s
  }

  lemma ListInsert(a: seq<int>, b: seq<int>, free: set<int>, i: int)
    requires Lists(a + b, free) && i !in free
    ensures Lists(a + [i] + b, free + {i})
  {
    var s, t := a + b, a + [i] + b;
    forall k | 0 <= k < |t| && k != |a| ensures t[k] == s[if k < |a| then k else k - 1] && t[k] in free {}
    forall k | 0 <= k < |s| ensures s[k] == t[if k < |a| then k else k + 1] {}
  }

  lemma ListAppend(s: seq<int>, free: set<int>, i: int)
    requires Lists(s, free) && i !in free
    ensures Lists(s + [i], free + {i})
  {
  }

  lemma ListRemove(a: seq<int>, b: seq<int>, free: set<int>, i: int)
    requires Lists(a + [i] + b, free)
    ensures i in free && Lists(a + b, free - {i})
  {
    var s, t := a + b, a + [i] + b;
    assert t[|a|] == i;
    forall k | 0 <= k < |s| ensures s[k] == t[if k < |a| then k else k + 1] && s[k] != i {}
    forall k | 0 <= k < |t| && k != |a| ensures t[k] == s[if k < |a| then k else k - 1] {}
  }

  /** While a row is free, so is a column. */
  lemma FreeColumn(c: Matrix, n: nat, x: seq<int>, y: seq<int>, v: seq<real>, free: set<int>, r: int)
    returns (u: int)
    requires Partial(c, n, x, y, v, free) && r in free
    ensures 0 <= u < n && y[u] < 0
  {
    if forall j :: 0 <= j < n ==> y[j] >= 0 {
      forall i, j | 0 <= i < j < n ensures y[i] != y[j] { assert x[y[i]] == i; }
      Surjective(y, n, r);
      assert false;
    }
    u :| 0 <= u < n && y[u] < 0;
  }

  /** With two free rows, a second column is free. */
  lemma SecondFreeColumn(c: Matrix, n: nat, x: seq<int>, y: seq<int>, v: seq<real>, free: set<int>,
                         r: int, p: int, u: int)
    returns (w: int)
    requires Partial(c, n, x, y, v, free) && r in free && p in free && r != p
    requires 0 <= u < n && y[u] < 0
    ensures 0 <= w < n && w != u && y[w] < 0
  {
    var y' := y[u := r];
    if forall j :: 0 <= j < n ==> y'[j] >= 0 {
      forall i, j | 0 <= i < j < n ensures y'[i] != y'[j] {
        assert y'[i] >= 0 && y'[j] >= 0;
        assert i != u ==> y[i] == y'[i] && x[y[i]] == i && y[i] !in free;
        assert j != u ==> y[j] == y'[j] && x[y[j]] == j && y[j] !in free;
      }
      Surjective(y', n, p);
      assert false;
    }
    w :| 0 <= w < n && y'[w] < 0;
  }

  /** Why the LARGE cap of the row scan is harmless: two columns always stay below it. */
  lemma TwoCheapColumns(c: Matrix, n: nat, x: seq<int>, y: seq<int>, v: seq<real>, free: set<int>,
                        argmin: seq<int>, twin: seq<int>, r: int)
    returns (a: int, b: int)
    requires Costs(c, n) && Partial(c, n, x, y, v, free) && Priced(c, n, y, v, argmin, twin) && r in free
    ensures 0 <= a < n && 0 <= b < n && a != b
    ensures Reduced(c, v, r, a) < LARGE && Reduced(c, v, r, b) < LARGE
  {
    a := FreeColumn(c, n, x, y, v, free, r);
    var p := argmin[a];
    if p !in free {
      b := x[p];
      assert Reduced(c, v, p, b) <= Reduced(c, v, p, a);
    } else if p != r {
      b := SecondFreeColumn(c, n, x, y, v, free, r, p, a);
    } else {
      b := twin[a];
      if y[b] >= 0 {
        var g := y[b];
        assert x[g] == b;
        assert Reduced(c, v, g, b) <= Reduced(c, v, g, a);
        assert c[r][b] <= c[g][b];
      }
    }
  }

  // ---- column reduction and reduction transfer -----------------------------

  /** After i rows: the default column state, or the minimum of every column so far. */
  ghost predicate Scanned(c: Matrix, n: nat, y: seq<int>, v: seq<real>, i: nat) {
    HasShape(c, n, n) && |y| == n && |v| == n && InRange(y, n)
    && forall j :: 0 <= j < n ==> ScannedColumn(c, n, y[j], v[j], i, j)
  }

  ghost predicate ScannedColumn(c: Matrix, n: nat, r: int, m: real, i: nat, j: int)
    requires HasShape(c, n, n) && 0 <= j < n && 0 <= r < n
  {
    (if i == 0 then m == LARGE else m == c[r][j]) && forall k :: 0 <= k < i && k < n ==> m <= c[k][j]
  }

  method ScanRow(n: nat, c: Matrix, i: nat, y: array<int>, v: array<real>)
    requires Costs(c, n) && i < n && y.Length == n && v.Length == n && Scanned(c, n, y[..], v[..], i)
    modifies y, v
    ensures Scanned(c, n, y[..], v[..], i + 1)
  {
    for j := 0 to n
      invariant forall k :: 0 <= k < n ==> 0 <= y[k] < n
      invariant forall k :: 0 <= k < j ==> ScannedColumn(c, n, y[k], v[k], i + 1, k)
      invariant forall k :: j <= k < n ==> ScannedColumn(c, n, y[k], v[k], i, k)
    {
      assert ScannedColumn(c, n, y[j], v[j], i, j);
      if c[i][j] < v[j] {
        v[j], y[j] := c[i][j], i;
      }
    }
  }

  /** The scan for column minima. */
  method ScanColumns(n: nat, c: Matrix, x: array<int>, y: array<int>, v: array<real>)
    requires n >= 1 && Costs(c, n) && x.Length == n && y.Length == n && v.Length == n && x != y
    modifies x, y, v
    ensures forall i :: 0 <= i < n ==> x[i] == -1
    ensures ColumnMinima(c, n, y[..])
    ensures forall j :: 0 <= j < n ==> v[j] == c[y[j]][j]
  {
    for i := 0 to n
      invariant forall k :: 0 <= k < i ==> x[k] == -1 && v[k] == LARGE && y[k] == 0
    {
      x[i], v[i], y[i] := -1, LARGE, 0;
    }
    for i := 0 to n
      invariant forall k :: 0 <= k < n ==> x[k] == -1
      invariant Scanned(c, n, y[..], v[..], i)
    {
      ScanRow(n, c, i, y, v);
    }
    assert forall j :: 0 <= j < n ==> ScannedColumn(c, n, y[..][j], v[..][j], n, j);
  }

  /** Columns claim their cheapest row from the last column down; a column whose row is
      already taken stays free and shares that row with its `twin`. */
  method ClaimRows(n: nat, c: Matrix, x: array<int>, y: array<int>, unique: array<bool>)
    returns (ghost twin: seq<int>)
    requires n >= 1 && x.Length == n && y.Length == n && unique.Length == n && x != y
    requires forall i :: 0 <= i < n ==> x[i] == -1 && unique[i]
    requires InRange(y[..], n)
    modifies x, y, unique
    ensures forall i :: 0 <= i < n ==> x[i] == -1 || (0 <= x[i] < n && y[x[i]] == i)
    ensures forall j :: 0 <= j < n ==> (y[j] == old(y[j]) && x[y[j]] == j) || y[j] == -1
    ensures |twin| == n
    ensures forall j :: 0 <= j < n && y[j] < 0 ==>
              0 <= twin[j] < n && twin[j] != j && old(y[..])[twin[j]] == old(y[..])[j]
  {
    ghost var y0 := y[..];
    twin := seq(n, i => 0);
    var j := n;
    while j > 0
      invariant 0 <= j <= n && |twin| == n && |y0| == n
      invariant forall i :: 0 <= i < n ==> x[i] == -1 || (j <= x[i] < n && y[x[i]] == i && y0[x[i]] == i)
      invariant forall k :: 0 <= k < j ==> y[k] == y0[k]
      invariant forall k :: j <= k < n ==> (y[k] == y0[k] && x[y0[k]] == k) || y[k] == -1
      invariant forall k :: j <= k < n && y[k] < 0 ==> 0 <= twin[k] < n && twin[k] != k && y0[twin[k]] == y0[k]
    {
      j := j - 1;
      var i := y[j];
      assert i == y0[j];
      if x[i] < 0 {
        x[i] := j;
      } else {
        unique[i] := false;
        y[j] := -1;
        twin := twin[j := x[i]];
      }
    }
  }

  /** The least reduced cost of row i outside column j, capped at LARGE. */
  method Slack(n: nat, c: Matrix, v: array<real>, i: int, j: int) returns (min: real)
    requires HasShape(c, n, n) && v.Length == n && 0 <= i < n
    ensures forall k :: 0 <= k < n && k != j ==> min <= Reduced(c, v[..], i, k)
    ensures min == LARGE || exists k :: 0 <= k < n && k != j && min == Reduced(c, v[..], i, k)
  {
    min := LARGE;
    for j2 := 0 to n
      invariant forall k :: 0 <= k < j2 && k != j ==> min <= Reduced(c, v[..], i, k)
      invariant min == LARGE || exists k :: 0 <= k < j2 && k != j && min == Reduced(c, v[..], i, k)
    {
      if j2 != j {
        var r := c[i][j2] - v[j2];
        assert r == Reduced(c, v[..], i, j2);
        if r < min { min := r; }
      }
    }
  }

  /** After the claims: x and y point at each other, and a held column is at its minimum row. */
  ghost predicate Claimed(n: nat, x: seq<int>, y: seq<int>, argmin: seq<int>) {
    |x| == n && |y| == n && |argmin| == n
    && (forall i :: 0 <= i < n ==> x[i] == -1 || (0 <= x[i] < n && y[x[i]] == i))
    && (forall j :: 0 <= j < n ==> y[j] == -1 || (0 <= y[j] < n && y[j] == argmin[j] && x[y[j]] == j))
  }

  /** During the transfer: claimed rows are at their minimum, and the columns of the rows
      from k on are still priced at their minima. */
  ghost predicate Transferring(c: Matrix, n: nat, x: seq<int>, y: seq<int>, v: seq<real>,
                               argmin: seq<int>, twin: seq<int>, k: nat) {
    Claimed(n, x, y, argmin) && Priced(c, n, y, v, argmin, twin)
    && (forall i :: 0 <= i < n && x[i] >= 0 ==> AtMinimum(c, v, i, x[i]))
    && (forall i :: k <= i < n && x[i] >= 0 ==> v[x[i]] == c[i][x[i]])
  }

  lemma TransferStarts(c: Matrix, n: nat, x: seq<int>, y: seq<int>, v: seq<real>,
                       argmin: seq<int>, twin: seq<int>)
    requires Claimed(n, x, y, argmin) && Priced(c, n, y, v, argmin, twin)
    requires forall j :: 0 <= j < n ==> v[j] == c[argmin[j]][j]
    ensures Transferring(c, n, x, y, v, argmin, twin, 0)
  {
    forall i | 0 <= i < n && x[i] >= 0 ensures AtMinimum(c, v, i, x[i]) {
      assert v[x[i]] == c[i][x[i]];
      forall k | 0 <= k < n ensures Reduced(c, v, i, x[i]) <= Reduced(c, v, i, k) {
        assert v[k] <= c[i][k];
      }
    }
  }

  /** Lowering the price of row i's own column by no more than i's slack keeps every
      claimed row at its minimum. */
  lemma TransferStep(c: Matrix, n: nat, x: seq<int>, y: seq<int>, v: seq<real>, v': seq<real>,
                     argmin: seq<int>, twin: seq<int>, i: nat, min: real)
    requires Transferring(c, n, x, y, v, argmin, twin, i) && 0 <= i < n && x[i] >= 0
    requires min == LARGE || exists k :: 0 <= k < n && k != x[i] && min == Reduced(c, v, i, k)
    requires forall k :: 0 <= k < n && k != x[i] ==> min <= Reduced(c, v, i, k)
    requires v' == v[x[i] := v[x[i]] - min]
    ensures Transferring(c, n, x, y, v', argmin, twin, i + 1)
  {
    assert min >= 0.0 by {
      if min != LARGE {
        var k :| 0 <= k < n && k != x[i] && min == Reduced(c, v, i, k);
        assert v[k] <= c[i][k];
      }
    }
    forall k | 0 <= k < n && x[k] >= 0 ensures AtMinimum(c, v', k, x[k]) {
      forall q | 0 <= q < n ensures Reduced(c, v', k, x[k]) <= Reduced(c, v', k, q) {
        assert Reduced(c, v, k, x[k]) <= Reduced(c, v, k, q);
        assert k == i && q != x[i] ==> min <= Reduced(c, v, i, q);
        assert k != i ==> x[k] != x[i];
      }
    }
  }

  lemma TransferDone(c: Matrix, n: nat, x: seq<int>, y: seq<int>, v: seq<real>,
                     argmin: seq<int>, twin: seq<int>, free: set<int>)
    requires Transferring(c, n, x, y, v, argmin, twin, n)
    requires forall k :: k in free <==> 0 <= k < n && x[k] == -1
    ensures Partial(c, n, x, y, v, free)
  {
  }

  method TransferRow(n: nat, c: Matrix, i: nat, j: int, v: array<real>,
                     ghost xs: seq<int>, ghost ys: seq<int>, ghost argmin: seq<int>, ghost twin: seq<int>)
    requires v.Length == n && Transferring(c, n, xs, ys, v[..], argmin, twin, i)
    requires i < n && 0 <= j == xs[i]
    modifies v
    ensures Transferring(c, n, xs, ys, v[..], argmin, twin, i + 1)
  {
    var min := Slack(n, c, v, i, j);
    ghost var v0 := v[..];
    v[j] := v[j] - min;
    TransferStep(c, n, xs, ys, v0, v[..], argmin, twin, i, min);
  }

  /** Reduction transfer: the rows that were claimed exactly once pay their slack into the
      price of their column; unclaimed rows are listed as free. */
  method TransferReduction(n: nat, c: Matrix, freeRows: array<int>, x: array<int>, v: array<real>,
                           unique: array<bool>, ghost ys: seq<int>, ghost argmin: seq<int>, ghost twin: seq<int>)
    returns (nFree: nat, ghost free: set<int>)
    requires Costs(c, n) && freeRows.Length == n && x.Length == n && v.Length == n
    requires unique.Length == n && freeRows != x
    requires Transferring(c, n, x[..], ys, v[..], argmin, twin, 0)
    modifies freeRows, v
    ensures nFree <= n && Lists(freeRows[..nFree], free)
    ensures Partial(c, n, x[..], ys, v[..], free)
    ensures Priced(c, n, ys, v[..], argmin, twin)
  {
    nFree := 0;
    free := {};
    ghost var xs := x[..];
    for i := 0 to n
      invariant nFree <= i && x[..] == xs
      invariant forall k :: k in free <==> 0 <= k < i && xs[k] == -1
      invariant Lists(freeRows[..nFree], free)
      invariant Transferring(c, n, xs, ys, v[..], argmin, twin, i)
    {
      if x[i] < 0 {
        freeRows[nFree] := i;
        ListAppend(freeRows[..nFree], free, i);
        assert freeRows[..nFree + 1] == freeRows[..nFree] + [i];
        nFree := nFree + 1;
        free := free + {i};
      } else if unique[i] {
        TransferRow(n, c, i, x[i], v, xs, ys, argmin, twin);
      }
    }
    TransferDone(c, n, xs, ys, v[..], argmin, twin, free);
  }

  /** `_ccrrt_dense`. */
  method ColumnReduction(n: nat, c: Matrix, freeRows: array<int>, x: array<int>, y: array<int>, v: array<real>)
    returns (nFree: nat, ghost free: set<int>, ghost argmin: seq<int>, ghost twin: seq<int>)
    requires n >= 1 && Costs(c, n)
    requires freeRows.Length == n && x.Length == n && y.Length == n && v.Length == n
    requires freeRows != x && freeRows != y && x != y
    modifies freeRows, x, y, v
    ensures nFree <= n && Lists(freeRows[..nFree], free)
    ensures Partial(c, n, x[..], y[..], v[..], free)
    ensures Priced(c, n, y[..], v[..], argmin, twin)
  {
    ScanColumns(n, c, x, y, v);
    argmin := y[..];
    var unique := new bool[n](_ => true);
    twin := ClaimRows(n, c, x, y, unique);
    TransferStarts(c, n, x[..], y[..], v[..], argmin, twin);
    nFree, free := TransferReduction(n, c, freeRows, x, v, unique, y[..], argmin, twin);
  }

  // ---- augmenting row reduction ---------------------------------------------

  /** The cheapest and second cheapest reduced cost of a row. The second minimum starts at
      LARGE, so the answer is right when two columns (a and b) lie below LARGE. */
  method SmallestTwo(n: nat, c: Matrix, i: int, v: array<real>, ghost a: int, ghost b: int)
    returns (j1: int, v1: real, j2: int, v2: real)
    requires HasShape(c, n, n) && v.Length == n && 0 <= i < n
    requires 0 <= a < n && 0 <= b < n && a != b
    requires Reduced(c, v[..], i, a) < LARGE && Reduced(c, v[..], i, b) < LARGE
    ensures 0 <= j1 < n && 0 <= j2 < n && j1 != j2
    ensures v1 == Reduced(c, v[..], i, j1) && v2 == Reduced(c, v[..], i, j2) && v1 <= v2
    ensures forall k :: 0 <= k < n && k != j1 ==> v2 <= Reduced(c, v[..], i, k)
  {
    ghost var w := v[..];
    j1, v1, j2, v2 := 0, c[i][0] - v[0], -1, LARGE;
    for j := 1 to n
      invariant 0 <= j1 < j && v1 == Reduced(c, w, i, j1)
      invariant j2 == -1 ==> v2 == LARGE && j1 == 0
      invariant j2 != -1 ==> 0 <= j2 < j && j2 != j1 && v2 == Reduced(c, w, i, j2) && v1 <= v2 && v1 < LARGE
      invariant forall k :: 0 <= k < j && k != j1 ==> v2 <= Reduced(c, w, i, k) || LARGE <= Reduced(c, w, i, k)
    {
      var r := c[i][j] - v[j];
      assert r == Reduced(c, w, i, j);
      if r < v2 {
        if r >= v1 {
          v2, j2 := r, j;
        } else {
          v2, v1, j2, j1 := v1, r, j1, j;
        }
      }
    }
    assert v2 <= Reduced(c, w, i, a) || v2 <= Reduced(c, w, i, b);
  }

  /** The free rows once f has a column and i0, if it is a row, has lost it. */
  ghost function Displace(free: set<int>, f: int, i0: int): set<int> {
    if i0 >= 0 then free - {f} + {i0} else free - {f}
  }

  /** Row f takes column j, whose price may fall to p; the row that held j, if any, is freed. */
  lemma TakeColumn(c: Matrix, n: nat, x: seq<int>, y: seq<int>, v: seq<real>, free: set<int>,
                   argmin: seq<int>, twin: seq<int>, f: int, j: int, p: real)
    requires Partial(c, n, x, y, v, free) && Priced(c, n, y, v, argmin, twin)
    requires f in free && 0 <= j < n && p <= v[j]
    requires AtMinimum(c, v[j := p], f, j)
    ensures y[j] !in free
    ensures Partial(c, n, x[f := j], y[j := f], v[j := p], Displace(free, f, y[j]))
    ensures Priced(c, n, y[j := f], v[j := p], argmin, twin)
  {
    var x', y', v' := x[f := j], y[j := f], v[j := p];
    var free' := Displace(free, f, y[j]);
    assert forall i :: 0 <= i < n && i !in free ==> 0 <= x[i] < n && y[x[i]] == i;
    assert forall i :: 0 <= i < n && i !in free' && i != f ==> i !in free && x[i] != j;
    forall i | 0 <= i < n && i !in free' ensures AtMinimum(c, v', i, x'[i]) {
      if i != f {
        forall k | 0 <= k < n ensures Reduced(c, v', i, x[i]) <= Reduced(c, v', i, k) {
          assert Reduced(c, v, i, x[i]) <= Reduced(c, v, i, k);
        }
      }
    }
  }

  /** One row of `_carr_dense`: it takes its cheapest column j1, lowering the price of j1 to
      the level of the second cheapest j2, or takes j2 on a tie when j1 is held. Without
      `mayLower` the row takes j1 and no price moves. The result is the row that lost its
      column (negative if none) and whether it must be retried at once. */
  method ReduceRow(n: nat, c: Matrix, f: int, mayLower: bool, x: array<int>, y: array<int>, v: array<real>,
                   ghost free: set<int>, ghost argmin: seq<int>, ghost twin: seq<int>)
    returns (i0: int, retry: bool)
    requires Costs(c, n) && x.Length == n && y.Length == n && v.Length == n && x != y && f in free
    requires Partial(c, n, x[..], y[..], v[..], free) && Priced(c, n, y[..], v[..], argmin, twin)
    modifies x, y, v
    ensures -1 <= i0 < n && i0 !in free && (retry ==> mayLower)
    ensures Partial(c, n, x[..], y[..], v[..], Displace(free, f, i0))
    ensures Priced(c, n, y[..], v[..], argmin, twin)
  {
    ghost var a, b := TwoCheapColumns(c, n, x[..], y[..], v[..], free, argmin, twin, f);
    var j1, v1, j2, v2 := SmallestTwo(n, c, f, v, a, b);
    ghost var x0, y0, w0 := x[..], y[..], v[..];
    i0 := y[j1];
    var v1New := v[j1] - (v2 - v1);
    var v1Lowers := v1New < v[j1];
    retry := mayLower && v1Lowers;
    if mayLower {
      if v1Lowers {
        v[j1] := v1New;
      } else if i0 >= 0 && j2 >= 0 {
        j1, i0 := j2, y[j2];
      }
    }
    assert v[..] == w0[j1 := v[j1]];
    assert forall k :: 0 <= k < n && k != j1 ==> Reduced(c, v[..], f, k) == Reduced(c, w0, f, k);
    assert AtMinimum(c, v[..], f, j1);
    TakeColumn(c, n, x0, y0, w0, free, argmin, twin, f, j1, v[j1]);
    x[f] := j1;
    y[j1] := f;
    assert x[..] == x0[f := j1] && y[..] == y0[j1 := f];
  }

  /** The free-row array during a pass: rows parked for the next pass in front, rows still
      to be processed from `current` on, and together exactly the free rows. */
  ghost predicate Queued(rows: seq<int>, newFree: int, current: int, nFree: int, free: set<int>) {
    0 <= newFree <= current <= nFree <= |rows| && Lists(rows[..newFree] + rows[current..nFree], free)
  }

  lemma Pop(rows: seq<int>, newFree: int, current: int, nFree: int, free: set<int>)
    requires Queued(rows, newFree, current, nFree, free) && current < nFree
    ensures rows[current] in free
    ensures Queued(rows, newFree, current + 1, nFree, free - {rows[current]})
  {
    assert rows[..newFree] + rows[current..nFree]
        == rows[..newFree] + [rows[current]] + rows[current + 1..nFree];
    ListRemove(rows[..newFree], rows[current + 1..nFree], free, rows[current]);
  }

  lemma PutBack(rows: seq<int>, newFree: int, current: int, nFree: int, free: set<int>, i0: int)
    requires Queued(rows, newFree, current, nFree, free) && newFree < current && i0 !in free
    ensures Queued(rows[current - 1 := i0], newFree, current - 1, nFree, free + {i0})
  {
    var rows' := rows[current - 1 := i0];
    ListInsert(rows[..newFree], rows[current..nFree], free, i0);
    assert rows'[..newFree] + rows'[current - 1..nFree] == rows[..newFree] + [i0] + rows[current..nFree];
  }

  lemma Park(rows: seq<int>, newFree: int, current: int, nFree: int, free: set<int>, i0: int)
    requires Queued(rows, newFree, current, nFree, free) && newFree < current && i0 !in free
    ensures Queued(rows[newFree := i0], newFree + 1, current, nFree, free + {i0})
  {
    var rows' := rows[newFree := i0];
    ListInsert(rows[..newFree], rows[current..nFree], free, i0);
    assert rows'[..newFree + 1] + rows'[current..nFree] == rows[..newFree] + [i0] + rows[current..nFree];
  }

  /** What the pass does with a displaced row i0: put it back in front, or park it. */
  method Requeue(freeRows: array<int>, newFree: nat, current: nat, nFree: nat, i0: int, retry: bool,
                 ghost free: set<int>)
    returns (newFree': nat, current': nat)
    requires Queued(freeRows[..], newFree, current, nFree, free) && newFree < current && i0 !in free
    modifies freeRows
    ensures current' == (if i0 >= 0 && retry then current - 1 else current)
    ensures Queued(freeRows[..], newFree', current', nFree, if i0 >= 0 then free + {i0} else free)
  {
    newFree', current' := newFree, current;
    ghost var rows := freeRows[..];
    if i0 >= 0 {
      if retry {
        current' := current - 1;
        PutBack(rows, newFree, current, nFree, free, i0);
        freeRows[current'] := i0;
        assert freeRows[..] == rows[current' := i0];
      } else {
        Park(rows, newFree, current, nFree, free, i0);
        freeRows[newFree] := i0;
        newFree' := newFree + 1;
        assert freeRows[..] == rows[newFree := i0];
      }
    }
  }

  /** One round of the pass: take the row at `current`, reduce it, requeue a displaced row. */
  method ReduceNext(n: nat, c: Matrix, nFree: nat, freeRows: array<int>, newFree: nat, current: nat, mayLower: bool,
                    x: array<int>, y: array<int>, v: array<real>,
                    ghost free: set<int>, ghost argmin: seq<int>, ghost twin: seq<int>)
    returns (newFree': nat, current': nat, ghost free': set<int>)
    requires Costs(c, n) && current < nFree <= n
    requires freeRows.Length == n && x.Length == n && y.Length == n && v.Length == n
    requires freeRows != x && freeRows != y && x != y
    requires Queued(freeRows[..], newFree, current, nFree, free)
    requires Partial(c, n, x[..], y[..], v[..], free) && Priced(c, n, y[..], v[..], argmin, twin)
    modifies freeRows, x, y, v
    ensures Queued(freeRows[..], newFree', current', nFree, free')
    ensures Partial(c, n, x[..], y[..], v[..], free') && Priced(c, n, y[..], v[..], argmin, twin)
    ensures current' == current + 1 || (mayLower && current' == current)
  {
    var f := freeRows[current];
    Pop(freeRows[..], newFree, current, nFree, free);
    var i0, retry := ReduceRow(n, c, f, mayLower, x, y, v, free, argmin, twin);
    newFree', current' := Requeue(freeRows, newFree, current + 1, nFree, i0, retry, free - {f});
    free' := Displace(free, f, i0);
  }

  /** `_carr_dense`. The pass over the free rows terminates although a displaced row may be
      put back in front: it is put back only while rr_cnt < current * n. A row that is not
      put back is parked in the prefix [0, newFree), which never reaches the entries from
      `current` on. */
  method AugmentingRowReduction(n: nat, c: Matrix, nFree: nat, freeRows: array<int>,
                                x: array<int>, y: array<int>, v: array<real>,
                                ghost free0: set<int>, ghost argmin: seq<int>, ghost twin: seq<int>)
    returns (newFree: nat, ghost free: set<int>)
    requires Costs(c, n) && nFree <= n
    requires freeRows.Length == n && x.Length == n && y.Length == n && v.Length == n
    requires freeRows != x && freeRows != y && x != y
    requires Lists(freeRows[..nFree], free0)
    requires Partial(c, n, x[..], y[..], v[..], free0) && Priced(c, n, y[..], v[..], argmin, twin)
    modifies freeRows, x, y, v
    ensures newFree <= nFree && Lists(freeRows[..newFree], free)
    ensures Partial(c, n, x[..], y[..], v[..], free) && Priced(c, n, y[..], v[..], argmin, twin)
  {
    var current, rrCnt := 0, 0;
    ghost var limit := nFree * n;
    newFree := 0;
    free := free0;
    assert freeRows[..][..0] + freeRows[..][0..nFree] == freeRows[..nFree];
    while current < nFree
      invariant newFree <= current <= nFree
      invariant Queued(freeRows[..], newFree, current, nFree, free)
      invariant Partial(c, n, x[..], y[..], v[..], free) && Priced(c, n, y[..], v[..], argmin, twin)
      decreases nFree - current, limit - rrCnt
    {
      rrCnt := rrCnt + 1;
      Scaled(current + 1, nFree, n);
      newFree, current, free := ReduceNext(n, c, nFree, freeRows, newFree, current, rrCnt < (current + 1) * n,
                                           x, y, v, free, argmin, twin);
    }
    assert freeRows[..][..newFree] + freeRows[..][nFree..nFree] == freeRows[..newFree];
  }

  lemma Scaled(a: nat, b: nat, n: nat)
    requires a <= b
    ensures a * n <= b * n
  {
  }
}
