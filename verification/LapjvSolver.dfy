/** Augmentation along the paths found by the search, and the whole solver. */
module LapjvSolver {
  import opened Assignment
  import opened Lapjv
  import opened ShortestPath

  /** Mid-augmentation: a partial assignment except that column j is a hole. Its old holder
      has moved on, so y[j] may be stale. Rows still on the path have not been touched. */
  ghost predicate Hole(c: Matrix, n: nat, x: seq<int>, y: seq<int>, v: seq<real>, free: set<int>,
                       x0: seq<int>, rank: seq<int>, j: int) {
    HasShape(c, n, n) && |x| == n && |x0| == n && |y| == n && |v| == n && |rank| == n && 0 <= j < n
    && (forall i :: i in free ==> 0 <= i < n)
    && (forall i :: 0 <= i < n && i !in free ==>
          0 <= x[i] < n && x[i] != j && y[x[i]] == i && AtMinimum(c, v, i, x[i]))
    && (forall k :: 0 <= k < n ==> -1 <= y[k] < n)
    && (forall k :: 0 <= k < n && k != j && y[k] >= 0 ==> y[k] !in free && x[y[k]] == k)
    && (forall i :: 0 <= i < n && i !in free && x[i] != x0[i] ==> 0 <= x0[i] < n && rank[j] <= rank[x0[i]])
  }

  /** Handing the hole to its predecessor row moves it strictly down the tree. */
  lemma ShiftHole(c: Matrix, n: nat, x: seq<int>, y: seq<int>, v: seq<real>, free: set<int>,
                  x0: seq<int>, s: int, pred: seq<int>, rank: seq<int>, tree: set<int>, j: int)
    requires Hole(c, n, x, y, v, free, x0, rank, j) && s in free
    requires Tree(c, n, s, x0, v, free, pred, rank, tree) && j in tree && pred[j] != s
    ensures var i := pred[j];
            x[i] == x0[i] && x[i] in tree && rank[x[i]] < rank[j]
            && Hole(c, n, x[i := j], y[j := i], v, free, x0, rank, x[i])
  {
  }

  /** Handing the hole to row s ends the augmentation. */
  lemma CloseHole(c: Matrix, n: nat, x: seq<int>, y: seq<int>, v: seq<real>, free: set<int>,
                  x0: seq<int>, s: int, pred: seq<int>, rank: seq<int>, tree: set<int>, j: int)
    requires Hole(c, n, x, y, v, free, x0, rank, j) && s in free
    requires Tree(c, n, s, x0, v, free, pred, rank, tree) && j in tree && pred[j] == s
    ensures Partial(c, n, x[s := j], y[j := s], v, free - {s})
  {
  }

  /** How many columns the predecessor walk from column j visits before it meets row s. */
  ghost function Hops(c: Matrix, n: nat, s: int, x: seq<int>, v: seq<real>, free: set<int>,
                      pred: seq<int>, rank: seq<int>, tree: set<int>, j: int): (hops: nat)
    requires Tree(c, n, s, x, v, free, pred, rank, tree) && j in tree
    ensures 1 <= hops <= rank[j] + 1
    decreases rank[j]
  {
    if pred[j] == s then 1 else 1 + Hops(c, n, s, x, v, free, pred, rank, tree, x[pred[j]])
  }

  /** The inner loop of `_ca_dense`: walks the predecessors from the free column back to row s. */
  method AugmentAlong(n: nat, c: Matrix, final: int, s: int, pred: array<int>, x: array<int>, y: array<int>,
                      ghost v: seq<real>, ghost free: set<int>, ghost rank: seq<int>, ghost tree: set<int>)
    returns (swaps: nat)
    requires x.Length == n && y.Length == n && pred.Length == n && x != y && pred != x && pred != y
    requires Partial(c, n, x[..], y[..], v, free) && s in free
    requires Tree(c, n, s, x[..], v, free, pred[..], rank, tree) && final in tree && y[final] < 0
    modifies x, y
    ensures Partial(c, n, x[..], y[..], v, free - {s})
    ensures swaps == Hops(c, n, s, old(x[..]), v, free, pred[..], rank, tree, final) <= n
  {
    ghost var x0, ps := x[..], pred[..];
    ghost var hops := Hops(c, n, s, x0, v, free, ps, rank, tree, final);
    var i, j := -1, final;
    swaps := 0;
    while i != s
      invariant pred[..] == ps
      invariant i != s ==> j in tree && Hole(c, n, x[..], y[..], v, free, x0, rank, j)
      invariant i != s ==> swaps + Hops(c, n, s, x0, v, free, ps, rank, tree, j) == hops
      invariant i == s ==> Partial(c, n, x[..], y[..], v, free - {s}) && swaps == hops
      decreases i != s, if i != s then rank[j] else 0
    {
      ghost var xs, ys, j0 := x[..], y[..], j;
      i := pred[j];
      if i == s {
        CloseHole(c, n, xs, ys, v, free, x0, s, ps, rank, tree, j);
      } else {
        ShiftHole(c, n, xs, ys, v, free, x0, s, ps, rank, tree, j);
      }
      y[j] := i;
      var t := j;
      j := x[i];
      x[i] := t;
      swaps := swaps + 1;
      assert x[..] == xs[i := j0] && y[..] == ys[j0 := i];
    }
  }

  // ---- a walk of n swaps ------------------------------------------------------------

  /** Row i may take columns i - 1 and i for nothing, and any other for one. */
  function ChainCosts(n: nat): (c: Matrix)
    ensures HasShape(c, n, n)
    ensures forall i, j :: 0 <= i < n && 0 <= j < n ==> c[i][j] == if i == j || i == j + 1 then 0.0 else 1.0
  {
    seq(n, i => seq(n, j => if i == j || i == j + 1 then 0.0 else 1.0))
  }

  /** Row 0 is free, and every other row i holds column i - 1. */
  ghost predicate Chained(n: nat, x: seq<int>, y: seq<int>) {
    |x| == n && |y| == n && (forall i :: 1 <= i < n ==> x[i] == i - 1)
    && forall j :: 0 <= j < n ==> y[j] == if j == n - 1 then -1 else j + 1
  }

  lemma ChainLegal(n: nat, x: seq<int>, y: seq<int>, v: seq<real>)
    requires n >= 1 && Chained(n, x, y) && |v| == n && forall j :: 0 <= j < n ==> v[j] == 0.0
    ensures Partial(ChainCosts(n), n, x, y, v, {0})
  {
    var c := ChainCosts(n);
    forall i | 1 <= i < n ensures AtMinimum(c, v, i, x[i]) {
      forall k | 0 <= k < n ensures Reduced(c, v, i, x[i]) <= Reduced(c, v, i, k) { assert c[i][k] >= 0.0; }
    }
  }

  /** Whatever tree a search leaves on the chain, its walk skips no column. */
  lemma {:induction false} ChainHops(n: nat, x: seq<int>, y: seq<int>, v: seq<real>, pred: seq<int>, rank: seq<int>,
                                     tree: set<int>, j: int)
    requires Chained(n, x, y) && Partial(ChainCosts(n), n, x, y, v, {0})
    requires Tree(ChainCosts(n), n, 0, x, v, {0}, pred, rank, tree) && j in tree
    ensures Hops(ChainCosts(n), n, 0, x, v, {0}, pred, rank, tree, j) >= j + 1
    decreases rank[j]
  {
    var p := pred[j];
    assert AtMinimum(ChainCosts(n), v, p, j);
    assert p >= j by { if p < j { ChainEdge(n, x, y, v, p, j); } }
    if p > 0 { ChainHops(n, x, y, v, pred, rank, tree, p - 1); }
  }

  /** No row has its minimum at a column behind its own. */
  lemma ChainEdge(n: nat, x: seq<int>, y: seq<int>, v: seq<real>, p: nat, j: nat)
    requires Chained(n, x, y) && Partial(ChainCosts(n), n, x, y, v, {0}) && p < j < n
    ensures !AtMinimum(ChainCosts(n), v, p, j)
  {
    var h := if p == 0 then 0 else p - 1;
    ChainFalls(n, x, y, v, h, j);
    assert Reduced(ChainCosts(n), v, p, h) < Reduced(ChainCosts(n), v, p, j);
  }

  /** With every held row at its minimum the prices fall along the chain. */
  lemma {:induction false} ChainFalls(n: nat, x: seq<int>, y: seq<int>, v: seq<real>, i: nat, j: nat)
    requires Chained(n, x, y) && Partial(ChainCosts(n), n, x, y, v, {0}) && i <= j < n
    ensures v[j] <= v[i]
  {
    if i < j {
      ChainFalls(n, x, y, v, i, j - 1);
      assert AtMinimum(ChainCosts(n), v, j, x[j]);
      assert Reduced(ChainCosts(n), v, j, j - 1) <= Reduced(ChainCosts(n), v, j, j);
    }
  }

  /** A search state with everything column and row reduction are proved to leave. */
  ghost predicate Entered(q: Instance) {
    Legal(q) && Costs(q.c, q.n) && exists argmin, twin :: Priced(q.c, q.n, q.y, q.v, argmin, twin)
  }

  /** There is none with a single row. */
  lemma EnteredSize(q: Instance)
    requires Entered(q)
    ensures q.n >= 2
  {
    var argmin, twin :| Priced(q.c, q.n, q.y, q.v, argmin, twin);
    assert forall j :: 0 <= j < q.n && q.y[j] < 0 ==> q.n >= 2;
    if q.n == 1 { OneColumnFree(q); }
  }

  lemma OneColumnFree(q: Instance)
    requires Legal(q) && q.n == 1
    ensures q.y[0] < 0
  {
  }

  lemma ChainEntered(q: Instance)
    requires q.n >= 2 && q.c == ChainCosts(q.n) && q.s == 0 && q.free == {0} && Chained(q.n, q.x, q.y)
    requires |q.v| == q.n && forall j :: 0 <= j < q.n ==> q.v[j] == 0.0
    ensures Entered(q)
  {
    var n := q.n;
    ChainLegal(n, q.x, q.y, q.v);
    var argmin := seq(n, j => if j == n - 1 then j else j + 1);
    var twin := seq(n, _ => n - 2);
    assert Priced(q.c, n, q.y, q.v, argmin, twin);
  }

  /** For every n there is a legal search state from which the search leaves a tree whose walk has n
      swaps; for n >= 2 even one with everything the earlier phases are proved to leave. So the
      bound of AugmentAlong cannot be improved from there. */
  method LongestWalk(n: nat)
    returns (swaps: nat, ghost q: Instance, ghost v: seq<real>, ghost pred: seq<int>, ghost rank: seq<int>,
             ghost tree: set<int>, ghost final: int)
    requires n >= 1
    ensures q.n == n && Legal(q) && (n >= 2 ==> Entered(q))
    ensures Partial(q.c, n, q.x, q.y, v, q.free) && Tree(q.c, n, q.s, q.x, v, q.free, pred, rank, tree)
    ensures final in tree && 0 <= final < n && q.y[final] < 0
    ensures swaps == Hops(q.c, n, q.s, q.x, v, q.free, pred, rank, tree, final) == n
  {
    var x, y, prices := ChainArrays(n);
    q := Instance(ChainCosts(n), n, 0, x[..], y[..], prices[..], {0});
    ChainLegal(n, q.x, q.y, q.v);
    if n >= 2 { ChainEntered(q); }
    swaps, v, pred, rank, tree, final := WalkChain(n, x, y, prices, q);
  }

  method ChainArrays(n: nat) returns (x: array<int>, y: array<int>, v: array<real>)
    requires n >= 1
    ensures fresh(x) && fresh(y) && fresh(v) && x != y && x.Length == n && y.Length == n && v.Length == n
    ensures Chained(n, x[..], y[..]) && forall j :: 0 <= j < n ==> v[..][j] == 0.0
  {
    x := new int[n]((i: int) => i - 1);
    y := new int[n]((j: int) => if j == n - 1 then -1 else j + 1);
    v := new real[n](_ => 0.0);
  }

  /** The search from row 0 of the chain, and the walk. */
  method WalkChain(n: nat, x: array<int>, y: array<int>, prices: array<real>, ghost q: Instance)
    returns (swaps: nat, ghost v: seq<real>, ghost pred: seq<int>, ghost rank: seq<int>, ghost tree: set<int>,
             ghost final: int)
    requires x != y && x.Length == n && y.Length == n && prices.Length == n && Legal(q)
    requires q == Instance(ChainCosts(n), n, 0, x[..], y[..], prices[..], {0}) && Chained(n, q.x, q.y)
    modifies x, y, prices
    ensures Partial(q.c, n, q.x, q.y, v, q.free) && Tree(q.c, n, q.s, q.x, v, q.free, pred, rank, tree)
    ensures final in tree && 0 <= final < n && q.y[final] < 0
    ensures swaps == Hops(q.c, n, q.s, q.x, v, q.free, pred, rank, tree, final) == n
  {
    var preds := new int[n];
    var end;
    end, rank, tree := FindPath(n, ChainCosts(n), 0, y, prices, preds, q);
    v, pred, final := prices[..], preds[..], end;
    assert x[..] == q.x && y[..] == q.y && y[final] == q.y[final];
    ChainHops(n, q.x, q.y, v, pred, rank, tree, final);
    swaps := AugmentAlong(n, ChainCosts(n), end, 0, preds, x, y, v, {0}, rank, tree);
  }

  /** One search and its augmentation. */
  method AugmentOne(n: nat, c: Matrix, s: int, pred: array<int>, x: array<int>, y: array<int>, v: array<real>,
                    ghost free: set<int>)
    requires pred.Length == n && x.Length == n && y.Length == n && v.Length == n
    requires x != y && pred != x && pred != y && Partial(c, n, x[..], y[..], v[..], free) && s in free
    modifies pred, x, y, v
    ensures Partial(c, n, x[..], y[..], v[..], free - {s})
  {
    ghost var q := Instance(c, n, s, x[..], y[..], v[..], free);
    ghost var rank, tree;
    var j;
    j, rank, tree := FindPath(n, c, s, y, v, pred, q);
    var _ := AugmentAlong(n, c, j, s, pred, x, y, v[..], free, rank, tree);
  }

  /** `_ca_dense`: one augmentation per listed free row. */
  method AugmentAll(n: nat, c: Matrix, nFree: nat, freeRows: array<int>, x: array<int>, y: array<int>, v: array<real>,
                    ghost free0: set<int>)
    returns (ret: int)
    requires nFree <= n && freeRows.Length == n && x.Length == n && y.Length == n && v.Length == n
    requires freeRows != x && freeRows != y && x != y
    requires Lists(freeRows[..nFree], free0) && Partial(c, n, x[..], y[..], v[..], free0)
    modifies x, y, v
    ensures ret == 0 && Partial(c, n, x[..], y[..], v[..], {})
  {
    var pred := new int[n];
    ghost var rows := freeRows[..nFree];
    ghost var free := free0;
    for k := 0 to nFree
      invariant freeRows[..nFree] == rows && Lists(rows[k..], free)
      invariant Partial(c, n, x[..], y[..], v[..], free)
    {
      var s := freeRows[k];
      assert rows[k..] == [] + [s] + rows[k + 1..] && rows[k + 1..] == [] + rows[k + 1..];
      ListRemove([], rows[k + 1..], free, s);
      AugmentOne(n, c, s, pred, x, y, v, free);
      free := free - {s};
    }
    ret := 0;
  }

  /** `lapjv_internal`: for every square matrix with entries in [0, 1000000) it succeeds, and
      x and y are mutually inverse and of least total cost. */
  method LapjvInternal(n: nat, c: Matrix, x: array<int>, y: array<int>) returns (ret: int)
    requires n >= 1 && x.Length == n && y.Length == n && x != y && HasShape(c, n, n)
    requires forall i, j :: 0 <= i < n && 0 <= j < n ==> 0.0 <= c[i][j] < 1000000.0
    modifies x, y
    ensures ret == 0 && Inverse(x[..], y[..], n) && Optimal(c, x[..], n)
  {
    var freeRows := new int[n];
    var v := new real[n];
    var nFree: nat;
    ghost var free, argmin, twin;
    nFree, free, argmin, twin := ColumnReduction(n, c, freeRows, x, y, v);
    var i := 0;
    while nFree > 0 && i < 2
      invariant nFree <= n && Lists(freeRows[..nFree], free)
      invariant Partial(c, n, x[..], y[..], v[..], free) && Priced(c, n, y[..], v[..], argmin, twin)
    {
      nFree, free := AugmentingRowReduction(n, c, nFree, freeRows, x, y, v, free, argmin, twin);
      i := i + 1;
    }
    ret := nFree;
    if ret > 0 {
      ret := AugmentAll(n, c, nFree, freeRows, x, y, v, free);
    } else {
      assert forall i :: i !in free;
    }
    Complete(c, n, x[..], y[..], v[..]);
  }

  /** With no row free, x and y are inverse permutations certified optimal by the prices. */
  lemma Complete(c: Matrix, n: nat, x: seq<int>, y: seq<int>, v: seq<real>)
    requires Partial(c, n, x, y, v, {})
    ensures Inverse(x, y, n) && Optimal(c, x, n)
  {
    forall i, j | 0 <= i < j < n ensures x[i] != x[j] { assert y[x[i]] == i; }
    forall j | 0 <= j < n ensures 0 <= y[j] < n && x[y[j]] == j {
      Surjective(x, n, j);
      var i :| 0 <= i < n && x[i] == j;
      assert y[x[i]] == i;
    }
    CertifiedOptimal(c, v, x, n);
  }
}
