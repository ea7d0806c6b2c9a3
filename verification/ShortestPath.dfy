/** The augmentation phase: from one free row, a Dijkstra-style search over reduced costs
    for the cheapest alternating path to a free column. */
module ShortestPath {
  import opened Assignment
  import opened Lapjv

  /** What stays fixed during one search: the partial assignment, its prices and the free
      row s the search starts from. */
  datatype Instance = Instance(c: Matrix, n: nat, s: int, x: seq<int>, y: seq<int>, v: seq<real>, free: set<int>)

  ghost predicate Legal(q: Instance) {
    Partial(q.c, q.n, q.x, q.y, q.v, q.free) && q.s in q.free
  }

  ghost function Red(q: Instance, i: int, j: int): real
    requires Legal(q) && 0 <= i < q.n && 0 <= j < q.n
  {
    Reduced(q.c, q.v, i, j)
  }

  /** The distance of column j when it is reached through the row that holds column k. */
  ghost function Via(q: Instance, d: seq<real>, k: int, j: int): real
    requires Legal(q) && |d| == q.n && 0 <= k < q.n && 0 <= j < q.n && q.y[k] >= 0
  {
    d[k] + Red(q, q.y[k], j) - Red(q, q.y[k], k)
  }

  /** No column is farther than through column k. */
  ghost predicate Relaxed(q: Instance, d: seq<real>, k: int)
    requires Legal(q) && |d| == q.n && 0 <= k < q.n && q.y[k] >= 0
  {
    forall j :: 0 <= j < q.n ==> d[j] <= Via(q, d, k, j)
  }

  /** cols is a permutation of the columns and pos its inverse. */
  ghost predicate Permuted(cols: seq<int>, pos: seq<int>, n: nat) {
    Inverse(cols, pos, n)
  }

  /** d[j] is attained through pred[j], whose own column comes earlier in the list. */
  ghost predicate Attained(q: Instance, pos: seq<int>, d: seq<real>, pred: seq<int>, lo: int, j: int)
    requires Legal(q) && |pos| == q.n && |d| == q.n && |pred| == q.n && 0 <= j < q.n
  {
    var p := pred[j];
    (p == q.s && d[j] == Red(q, p, j))
    || (0 <= p < q.n && p !in q.free && pos[q.x[p]] < lo && pos[q.x[p]] < pos[j] && d[j] == Via(q, d, q.x[p], j))
  }

  /** The state of the search: the first `done` listed columns have been relaxed, tree edges
      start from the first lo, and the first hi are held by rows. */
  ghost predicate Core(q: Instance, cols: seq<int>, pos: seq<int>, d: seq<real>, pred: seq<int>,
                       done: int, lo: int, hi: int) {
    Legal(q) && Permuted(cols, pos, q.n) && |d| == q.n && |pred| == q.n
    && 0 <= done <= lo <= hi <= q.n
    && (forall j :: 0 <= j < q.n ==> d[j] <= Red(q, q.s, j))
    && (forall k :: 0 <= k < hi ==> q.y[cols[k]] >= 0)
    && (forall k :: 0 <= k < done ==> Relaxed(q, d, cols[k]))
    && (forall j :: 0 <= j < q.n ==> Attained(q, pos, d, pred, lo, j))
  }

  /** The columns in [base, hi) are all at distance mind, the ones before are no farther and
      the ones after are farther. */
  ghost predicate Level(cols: seq<int>, d: seq<real>, base: int, hi: int, n: int, mind: real) {
    |cols| == n && |d| == n && InRange(cols, n) && 0 <= base <= hi <= n
    && (forall k :: 0 <= k < hi ==> d[cols[k]] <= mind)
    && (forall k :: base <= k < hi ==> d[cols[k]] == mind)
    && (forall k :: hi <= k < n ==> mind < d[cols[k]])
  }

  /** The columns before position p are no farther than those from p on. */
  ghost predicate Ordered(cols: seq<int>, d: seq<real>, p: int, n: int) {
    |cols| == n && |d| == n && InRange(cols, n)
    && forall k, m :: 0 <= k < p <= m < n ==> d[cols[k]] <= d[cols[m]]
  }

  /** The same once the search is over: the column of pred[j] lies within distance mind. */
  ghost predicate Reached(q: Instance, rank: seq<int>, d: seq<real>, pred: seq<int>, mind: real, j: int)
    requires Legal(q) && |rank| == q.n && |d| == q.n && |pred| == q.n && 0 <= j < q.n
  {
    var p := pred[j];
    (p == q.s && d[j] == Red(q, p, j))
    || (0 <= p < q.n && p !in q.free && d[q.x[p]] <= mind && rank[q.x[p]] < rank[j] && d[j] == Via(q, d, q.x[p], j))
  }

  /** What a finished search proves. */
  ghost predicate Certificate(q: Instance, rank: seq<int>, d: seq<real>, pred: seq<int>, mind: real, final: int) {
    Legal(q) && |rank| == q.n && |d| == q.n && |pred| == q.n && InRange(rank, q.n)
    && (forall j :: 0 <= j < q.n ==> d[j] <= Red(q, q.s, j))
    && (forall j :: 0 <= j < q.n && d[j] < mind ==> q.y[j] >= 0 && Relaxed(q, d, j))
    && (forall j :: 0 <= j < q.n ==> Reached(q, rank, d, pred, mind, j))
    && 0 <= final < q.n && q.y[final] < 0 && d[final] == mind
  }

  lemma SwapPermuted(cols: seq<int>, pos: seq<int>, n: nat, a: int, b: int)
    requires Permuted(cols, pos, n) && 0 <= a < n && 0 <= b < n
    ensures Permuted(cols[a := cols[b]][b := cols[a]], pos[cols[b] := a][cols[a] := b], n)
  {
    var cols', pos' := cols[a := cols[b]][b := cols[a]], pos[cols[b] := a][cols[a] := b];
    forall k | 0 <= k < n ensures pos'[cols'[k]] == k {
      if k != a && k != b { assert pos[cols[k]] == k; }
    }
    forall j | 0 <= j < n ensures cols'[pos'[j]] == j {
      assert cols[pos[j]] == j;
    }
  }

  /** `_find_dense`: gathers the columns at the least distance right behind position lo. */
  method FindDense(n: nat, lo: nat, d: array<real>, cols: array<int>, ghost pos: seq<int>)
    returns (hi: nat, ghost pos': seq<int>, ghost mind: real)
    requires lo < n && d.Length == n && cols.Length == n && Permuted(cols[..], pos, n)
    modifies cols
    ensures lo < hi <= n && Permuted(cols[..], pos', n)
    ensures forall k :: 0 <= k < lo ==> cols[k] == old(cols[k])
    ensures forall k :: lo <= k < hi ==> d[cols[k]] == mind
    ensures forall k :: hi <= k < n ==> mind < d[cols[k]]
  {
    hi := lo + 1;
    pos' := pos;
    var m := d[cols[lo]];
    for k := hi to n
      invariant lo < hi <= k && Permuted(cols[..], pos', n)
      invariant forall p :: 0 <= p < lo ==> cols[p] == old(cols[p])
      invariant forall p :: lo <= p < hi ==> d[cols[p]] == m
      invariant forall p :: hi <= p < k ==> m < d[cols[p]]
    {
      var j := cols[k];
      if d[j] <= m {
        if d[j] < m {
          hi := lo;
          m := d[j];
        }
        ghost var cs := cols[..];
        cols[k] := cols[hi];
        cols[hi] := j;
        assert cols[..] == cs[k := cs[hi]][hi := cs[k]];
        SwapPermuted(cs, pos', n, k, hi);
        pos' := pos'[cs[hi] := k][cs[k] := hi];
        hi := hi + 1;
      }
    }
    mind := m;
  }

  // ---- one relaxation -------------------------------------------------------

  /** Column j at position k >= hi improves to the distance through the column at lo - 1. */
  lemma Improve(q: Instance, cols: seq<int>, pos: seq<int>, d: seq<real>, pred: seq<int>, lo: int, hi: int, k: int)
    requires 1 <= lo && Core(q, cols, pos, d, pred, lo - 1, lo, hi) && hi <= k < q.n
    requires Via(q, d, cols[lo - 1], cols[k]) < d[cols[k]]
    ensures var j := cols[k];
            Core(q, cols, pos, d[j := Via(q, d, cols[lo - 1], j)], pred[j := q.y[cols[lo - 1]]], lo - 1, lo, hi)
  {
    var j, b := cols[k], cols[lo - 1];
    var d', pred' := d[j := Via(q, d, b, j)], pred[j := q.y[b]];
    assert pos[j] == k && pos[b] == lo - 1;
    assert q.x[q.y[b]] == b && q.y[b] !in q.free;
    forall m | 0 <= m < lo - 1 ensures Relaxed(q, d', cols[m]) {
      assert pos[cols[m]] == m;
      forall i | 0 <= i < q.n ensures d'[i] <= Via(q, d', cols[m], i) {
        assert d[i] <= Via(q, d, cols[m], i);
      }
    }
    forall i | 0 <= i < q.n ensures Attained(q, pos, d', pred', lo, i) {
      assert Attained(q, pos, d, pred, lo, i);
    }
  }

  /** Moving the column at position k into the level does not disturb the tree. */
  lemma Promote(q: Instance, cols: seq<int>, pos: seq<int>, d: seq<real>, pred: seq<int>,
                done: int, lo: int, hi: int, k: int)
    requires Core(q, cols, pos, d, pred, done, lo, hi) && hi <= k < q.n && q.y[cols[k]] >= 0
    ensures Core(q, cols[k := cols[hi]][hi := cols[k]], pos[cols[hi] := k][cols[k] := hi], d, pred, done, lo, hi + 1)
  {
    var cols', pos' := cols[k := cols[hi]][hi := cols[k]], pos[cols[hi] := k][cols[k] := hi];
    SwapPermuted(cols, pos, q.n, k, hi);
    assert pos[cols[hi]] == hi && pos[cols[k]] == k;
    forall j | 0 <= j < q.n ensures Attained(q, pos', d, pred, lo, j) {
      assert Attained(q, pos, d, pred, lo, j);
    }
  }

  /** Reaching a free column at the current distance ends the search. */
  lemma Finish(q: Instance, cols: seq<int>, pos: seq<int>, d: seq<real>, pred: seq<int>,
               done: int, lo: int, hi: int, base: int, mind: real, final: int)
    requires Core(q, cols, pos, d, pred, done, lo, hi) && 0 <= base <= done
    requires forall k :: 0 <= k < hi ==> d[cols[k]] <= mind
    requires forall k :: base <= k < q.n ==> mind <= d[cols[k]]
    requires 0 <= final < q.n && q.y[final] < 0 && d[final] == mind
    ensures Certificate(q, pos, d, pred, mind, final)
  {
    forall j | 0 <= j < q.n && d[j] < mind ensures q.y[j] >= 0 && Relaxed(q, d, j) {
      assert cols[pos[j]] == j;
    }
    forall j | 0 <= j < q.n ensures Reached(q, pos, d, pred, mind, j) {
      assert Attained(q, pos, d, pred, lo, j);
      assert pred[j] == q.s || cols[pos[q.x[pred[j]]]] == q.x[pred[j]];
    }
  }

  // ---- scanning the current level --------------------------------------------

  /** The facts a scan keeps between relaxations; the column at lo - 1 is being relaxed. */
  ghost predicate Scanning(q: Instance, cols: seq<int>, pos: seq<int>, d: seq<real>, pred: seq<int>,
                           base: int, lo: int, hi: int, mind: real) {
    base < lo && Core(q, cols, pos, d, pred, lo - 1, lo, hi) && Level(cols, d, base, hi, q.n, mind)
  }

  /** Position k of the scan: all columns listed before it are within reach of column b. */
  ghost predicate Row(q: Instance, cols: seq<int>, pos: seq<int>, d: seq<real>, pred: seq<int>,
                      base: int, lo: int, hi: int, mind: real, b: int, k: int) {
    Scanning(q, cols, pos, d, pred, base, lo, hi, mind) && cols[lo - 1] == b && hi <= k <= q.n
    && forall p :: 0 <= p < k ==> d[cols[p]] <= Via(q, d, b, cols[p])
  }

  /** The columns listed before `base` are no farther than mind, the others no nearer. */
  ghost predicate SplitAt(cols: seq<int>, d: seq<real>, base: int, n: int, mind: real) {
    |cols| == n && |d| == n && InRange(cols, n) && 0 <= base < n && d[cols[base]] == mind
    && (forall k :: 0 <= k < base ==> d[cols[k]] <= mind)
    && (forall k :: base <= k < n ==> mind <= d[cols[k]])
  }

  /** Row minimality keeps every candidate distance at or above the level. */
  lemma NoShortcut(q: Instance, d: seq<real>, b: int, j: int)
    requires Legal(q) && |d| == q.n && 0 <= b < q.n && 0 <= j < q.n && q.y[b] >= 0
    ensures d[b] <= Via(q, d, b, j)
  {
    assert q.x[q.y[b]] == b;
    assert Red(q, q.y[b], b) <= Red(q, q.y[b], j);
  }

  lemma RowStarts(q: Instance, cols: seq<int>, pos: seq<int>, d: seq<real>, pred: seq<int>,
                  base: int, lo: int, hi: int, mind: real)
    requires Scanning(q, cols, pos, d, pred, base, lo, hi, mind)
    ensures Row(q, cols, pos, d, pred, base, lo, hi, mind, cols[lo - 1], hi)
  {
    forall p | 0 <= p < hi ensures d[cols[p]] <= Via(q, d, cols[lo - 1], cols[p]) {
      NoShortcut(q, d, cols[lo - 1], cols[p]);
    }
  }

  lemma RowEnds(q: Instance, cols: seq<int>, pos: seq<int>, d: seq<real>, pred: seq<int>,
                base: int, lo: int, hi: int, mind: real, b: int)
    requires Row(q, cols, pos, d, pred, base, lo, hi, mind, b, q.n)
    ensures Core(q, cols, pos, d, pred, lo, lo, hi)
  {
    forall j | 0 <= j < q.n ensures d[j] <= Via(q, d, b, j) { assert cols[pos[j]] == j; }
  }

  lemma RowImproves(q: Instance, cols: seq<int>, pos: seq<int>, d: seq<real>, pred: seq<int>,
                    base: int, lo: int, hi: int, mind: real, b: int, k: int)
    requires Row(q, cols, pos, d, pred, base, lo, hi, mind, b, k) && k < q.n
    requires mind < Via(q, d, b, cols[k]) < d[cols[k]]
    ensures var j := cols[k];
            Row(q, cols, pos, d[j := Via(q, d, b, j)], pred[j := q.y[b]], base, lo, hi, mind, b, k + 1)
  {
    Improve(q, cols, pos, d, pred, lo, hi, k);
    assert pos[cols[k]] == k && forall p :: 0 <= p < q.n ==> pos[cols[p]] == p;
  }

  lemma RowPromotes(q: Instance, cols: seq<int>, pos: seq<int>, d: seq<real>, pred: seq<int>,
                    base: int, lo: int, hi: int, mind: real, b: int, k: int)
    requires Row(q, cols, pos, d, pred, base, lo, hi, mind, b, k) && k < q.n
    requires mind == Via(q, d, b, cols[k]) < d[cols[k]] && q.y[cols[k]] >= 0
    ensures var j := cols[k];
            Row(q, cols[k := cols[hi]][hi := j], pos[cols[hi] := k][j := hi], d[j := mind], pred[j := q.y[b]],
                base, lo, hi + 1, mind, b, k + 1)
  {
    var j := cols[k];
    Improve(q, cols, pos, d, pred, lo, hi, k);
    Promote(q, cols, pos, d[j := mind], pred[j := q.y[b]], lo - 1, lo, hi, k);
    assert forall p :: 0 <= p < q.n ==> pos[cols[p]] == p;
  }

  lemma RowFinishes(q: Instance, cols: seq<int>, pos: seq<int>, d: seq<real>, pred: seq<int>,
                    base: int, lo: int, hi: int, mind: real, b: int, k: int)
    requires Row(q, cols, pos, d, pred, base, lo, hi, mind, b, k) && k < q.n
    requires mind == Via(q, d, b, cols[k]) < d[cols[k]] && q.y[cols[k]] < 0
    ensures var j := cols[k];
            Certificate(q, pos, d[j := mind], pred[j := q.y[b]], mind, j)
            && SplitAt(cols, d[j := mind], base, q.n, mind)
  {
    var j := cols[k];
    Improve(q, cols, pos, d, pred, lo, hi, k);
    assert forall p :: 0 <= p < q.n ==> pos[cols[p]] == p;
    Finish(q, cols, pos, d[j := mind], pred[j := q.y[b]], lo - 1, lo, hi, base, mind, j);
  }

  /** One step of the inner loop of `_scan_dense`: relaxes the column at position k. */
  method RelaxColumn(n: nat, c: Matrix, i: int, h: real, m: real, hi0: nat, k: nat,
                     d: array<real>, cols: array<int>, pred: array<int>, y: array<int>, v: array<real>,
                     ghost q: Instance, ghost pos0: seq<int>, ghost base: nat, ghost lo: nat, ghost b: int)
    returns (final: int, hi: nat, ghost pos: seq<int>)
    requires q.c == c && q.n == n && d.Length == n && cols.Length == n && pred.Length == n && y.Length == n
    requires v.Length == n
    requires cols != pred && cols != y && pred != y && d != v && q.y == y[..] && q.v == v[..]
    requires k < n && Row(q, cols[..], pos0, d[..], pred[..], base, lo, hi0, m, b, k)
    requires i == q.y[b] && h == Red(q, i, b) - m
    modifies d, cols, pred
    ensures final == -1 ==> Row(q, cols[..], pos, d[..], pred[..], base, lo, hi, m, b, k + 1)
    ensures final != -1 ==> Certificate(q, pos, d[..], pred[..], m, final) && Permuted(cols[..], pos, n)
    ensures final != -1 ==> SplitAt(cols[..], d[..], base, n, m)
  {
    final, hi, pos := -1, hi0, pos0;
    ghost var cs, ds, ps := cols[..], d[..], pred[..];
    var j := cols[k];
    var cred := c[i][j] - v[j] - h;
    assert cred == Via(q, ds, b, j);
    NoShortcut(q, ds, b, j);
    if cred < d[j] {
      d[j] := cred;
      pred[j] := i;
      assert d[..] == ds[j := cred] && pred[..] == ps[j := i];
      if cred == m {
        if y[j] < 0 {
          RowFinishes(q, cs, pos0, ds, ps, base, lo, hi, m, b, k);
          return j, hi, pos;
        }
        RowPromotes(q, cs, pos0, ds, ps, base, lo, hi, m, b, k);
        pos := pos[cs[hi] := k][j := hi];
        cols[k] := cols[hi];
        cols[hi] := j;
        assert cols[..] == cs[k := cs[hi]][hi := j];
        hi := hi + 1;
      } else {
        RowImproves(q, cs, pos0, ds, ps, base, lo, hi, m, b, k);
      }
    }
  }

  /** The inner loop of `_scan_dense`: relaxes every column behind the level through row i. */
  method RelaxRow(n: nat, c: Matrix, i: int, h: real, m: real, hi0: nat,
                  d: array<real>, cols: array<int>, pred: array<int>, y: array<int>, v: array<real>,
                  ghost q: Instance, ghost pos0: seq<int>, ghost base: nat, ghost lo: nat)
    returns (final: int, hi: nat, ghost pos: seq<int>)
    requires q.c == c && q.n == n && d.Length == n && cols.Length == n && pred.Length == n && y.Length == n
    requires v.Length == n
    requires cols != pred && cols != y && pred != y && d != v && q.y == y[..] && q.v == v[..]
    requires Scanning(q, cols[..], pos0, d[..], pred[..], base, lo, hi0, m)
    requires i == q.y[cols[lo - 1]] && h == Red(q, i, cols[lo - 1]) - m
    modifies d, cols, pred
    ensures final == -1 ==> lo <= hi && Core(q, cols[..], pos, d[..], pred[..], lo, lo, hi)
    ensures final == -1 ==> Level(cols[..], d[..], base, hi, n, m)
    ensures final != -1 ==> Certificate(q, pos, d[..], pred[..], m, final) && Permuted(cols[..], pos, n)
    ensures final != -1 ==> SplitAt(cols[..], d[..], base, n, m)
  {
    final, hi, pos := -1, hi0, pos0;
    ghost var b := cols[lo - 1];
    RowStarts(q, cols[..], pos, d[..], pred[..], base, lo, hi, m);
    for k := hi0 to n
      invariant Row(q, cols[..], pos, d[..], pred[..], base, lo, hi, m, b, k)
    {
      final, hi, pos := RelaxColumn(n, c, i, h, m, hi, k, d, cols, pred, y, v, q, pos, base, lo, b);
      if final != -1 { return; }
    }
    RowEnds(q, cols[..], pos, d[..], pred[..], base, lo, hi, m, b);
  }

  lemma Advance(q: Instance, cols: seq<int>, pos: seq<int>, d: seq<real>, pred: seq<int>, lo: int, hi: int)
    requires Core(q, cols, pos, d, pred, lo, lo, hi) && lo < hi
    ensures Core(q, cols, pos, d, pred, lo, lo + 1, hi)
  {
    var lo' := lo + 1;
    forall j | 0 <= j < q.n ensures Attained(q, pos, d, pred, lo', j) {
      assert Attained(q, pos, d, pred, lo, j);
    }
  }

  /** `_scan_dense`. On success it returns without writing lo and hi back. */
  method ScanDense(n: nat, c: Matrix, lo0: nat, hi0: nat,
                   d: array<real>, cols: array<int>, pred: array<int>, y: array<int>, v: array<real>,
                   ghost q: Instance, ghost pos0: seq<int>, ghost m: real)
    returns (final: int, lo': nat, hi': nat, ghost pos: seq<int>)
    requires q.c == c && q.n == n && d.Length == n && cols.Length == n && pred.Length == n && y.Length == n
    requires v.Length == n
    requires cols != pred && cols != y && pred != y && d != v && q.y == y[..] && q.v == v[..]
    requires lo0 < hi0 && Core(q, cols[..], pos0, d[..], pred[..], lo0, lo0, hi0)
    requires Level(cols[..], d[..], lo0, hi0, n, m)
    modifies d, cols, pred
    ensures final == -1 ==> lo0 < lo' == hi' && Core(q, cols[..], pos, d[..], pred[..], lo', lo', lo')
    ensures final == -1 ==> Ordered(cols[..], d[..], lo', n)
    ensures final != -1 ==> lo' == lo0 && hi' == hi0 && Certificate(q, pos, d[..], pred[..], m, final)
    ensures final != -1 ==> Permuted(cols[..], pos, n) && SplitAt(cols[..], d[..], lo0, n, m)
  {
    var lo, hi := lo0, hi0;
    pos := pos0;
    while lo != hi
      invariant lo0 <= lo <= hi <= n && lo0 < hi
      invariant Core(q, cols[..], pos, d[..], pred[..], lo, lo, hi) && Level(cols[..], d[..], lo0, hi, n, m)
      decreases n - lo
    {
      Advance(q, cols[..], pos, d[..], pred[..], lo, hi);
      var j := cols[lo];
      lo := lo + 1;
      var i := y[j];
      var mind := d[j];
      var h := c[i][j] - v[j] - mind;
      final, hi, pos := RelaxRow(n, c, i, h, mind, hi, d, cols, pred, y, v, q, pos, lo0, lo);
      if final != -1 {
        return final, lo0, hi0, pos;
      }
    }
    return -1, lo, hi, pos;
  }

  // ---- the search and its price update ---------------------------------------

  /** Prices after the search: every column nearer than mind drops by the difference. */
  ghost predicate Repriced(v: seq<real>, v': seq<real>, d: seq<real>, mind: real, n: nat) {
    |v| == n && |v'| == n && |d| == n
    && forall j :: 0 <= j < n ==> v'[j] == (if d[j] < mind then v[j] + d[j] - mind else v[j])
  }

  lemma RepricedRow(q: Instance, rank: seq<int>, d: seq<real>, pred: seq<int>, mind: real, final: int,
                    v': seq<real>, i: int)
    requires Certificate(q, rank, d, pred, mind, final) && Repriced(q.v, v', d, mind, q.n)
    requires 0 <= i < q.n && i !in q.free
    ensures AtMinimum(q.c, v', i, q.x[i])
  {
    var j := q.x[i];
    forall k | 0 <= k < q.n ensures Reduced(q.c, v', i, j) <= Reduced(q.c, v', i, k) {
      assert Red(q, i, j) <= Red(q, i, k);
      if d[j] < mind { assert d[k] <= Via(q, d, j, k); }
    }
  }

  lemma RepricedEdge(q: Instance, rank: seq<int>, d: seq<real>, pred: seq<int>, mind: real, final: int,
                     v': seq<real>, j: int)
    requires Certificate(q, rank, d, pred, mind, final) && Repriced(q.v, v', d, mind, q.n)
    requires 0 <= j < q.n && d[j] <= mind
    ensures 0 <= pred[j] < q.n && AtMinimum(q.c, v', pred[j], j)
  {
    var p := pred[j];
    assert Reached(q, rank, d, pred, mind, j);
    if p == q.s {
      forall k | 0 <= k < q.n ensures Reduced(q.c, v', p, j) <= Reduced(q.c, v', p, k) {
        assert d[k] <= Red(q, q.s, k);
      }
    } else {
      var b := q.x[p];
      assert q.y[b] == p;
      RepricedRow(q, rank, d, pred, mind, final, v', p);
      assert Reduced(q.c, v', p, j) == Reduced(q.c, v', p, b);
      forall k | 0 <= k < q.n ensures Reduced(q.c, v', p, j) <= Reduced(q.c, v', p, k) {
        assert Reduced(q.c, v', p, b) <= Reduced(q.c, v', p, k);
      }
    }
  }

  /** The alternating tree a search leaves behind: each of its columns is a cheapest column of
      its predecessor row, and walking predecessors strictly descends in rank down to row s. */
  ghost predicate Tree(c: Matrix, n: nat, s: int, x: seq<int>, v: seq<real>, free: set<int>,
                       pred: seq<int>, rank: seq<int>, tree: set<int>) {
    HasShape(c, n, n) && |x| == n && |v| == n && |pred| == n && |rank| == n
    && (forall j :: j in tree ==> 0 <= j < n && 0 <= rank[j] < n && 0 <= pred[j] < n && AtMinimum(c, v, pred[j], j))
    && (forall j :: j in tree && pred[j] != s ==>
          pred[j] !in free && x[pred[j]] in tree && rank[x[pred[j]]] < rank[j])
  }

  lemma TreeOf(q: Instance, rank: seq<int>, d: seq<real>, pred: seq<int>, mind: real, final: int, v': seq<real>)
    returns (tree: set<int>)
    requires Certificate(q, rank, d, pred, mind, final) && Repriced(q.v, v', d, mind, q.n)
    ensures Partial(q.c, q.n, q.x, q.y, v', q.free)
    ensures Tree(q.c, q.n, q.s, q.x, v', q.free, pred, rank, tree) && final in tree
  {
    tree := set j | 0 <= j < q.n && d[j] <= mind;
    forall i | 0 <= i < q.n && i !in q.free ensures AtMinimum(q.c, v', i, q.x[i]) {
      RepricedRow(q, rank, d, pred, mind, final, v', i);
    }
    forall j | j in tree ensures 0 <= pred[j] < q.n && AtMinimum(q.c, v', pred[j], j) {
      RepricedEdge(q, rank, d, pred, mind, final, v', j);
    }
    forall j | j in tree && pred[j] != q.s
      ensures pred[j] !in q.free && q.x[pred[j]] in tree && rank[q.x[pred[j]]] < rank[j]
    {
      assert Reached(q, rank, d, pred, mind, j);
    }
  }

  /** The price update of `find_path_dense`, over the columns ready before the last level. */
  method UpdatePrices(n: nat, lo: nat, nReady: nat, d: array<real>, cols: array<int>, v: array<real>,
                      ghost pos: seq<int>, ghost m: real)
    requires d.Length == n && cols.Length == n && v.Length == n && v != d && nReady == lo
    requires Permuted(cols[..], pos, n) && SplitAt(cols[..], d[..], lo, n, m)
    modifies v
    ensures Repriced(old(v[..]), v[..], d[..], m, n)
  {
    ghost var v0 := v[..];
    var mind := d[cols[lo]];
    for k := 0 to nReady
      invariant forall p :: 0 <= p < k ==> v[cols[p]] == v0[cols[p]] + d[cols[p]] - m
      invariant forall p :: k <= p < n ==> v[cols[p]] == v0[cols[p]]
    {
      assert forall p :: 0 <= p < n && p != k ==> cols[p] != cols[k] by {
        assert forall p :: 0 <= p < n ==> pos[cols[..][p]] == p;
      }
      var j := cols[k];
      v[j] := v[j] + (d[j] - mind);
    }
    forall j | 0 <= j < n ensures v[j] == if d[j] < m then v0[j] + d[j] - m else v0[j] {
      assert cols[..][pos[j]] == j;
    }
  }

  /** At the start nothing has been reached and every column is one edge from row s. */
  lemma SearchStarts(q: Instance, cols: seq<int>, d: seq<real>, pred: seq<int>)
    requires Legal(q) && |cols| == q.n && |d| == q.n && |pred| == q.n
    requires forall j :: 0 <= j < q.n ==> cols[j] == j && pred[j] == q.s && d[j] == Red(q, q.s, j)
    ensures Core(q, cols, cols, d, pred, 0, 0, 0)
  {
  }

  /** While every listed column is held by a row, some column is still unlisted. */
  lemma StillOpen(q: Instance, cols: seq<int>, pos: seq<int>, d: seq<real>, pred: seq<int>, lo: int)
    requires Core(q, cols, pos, d, pred, lo, lo, lo)
    ensures lo < q.n
  {
    var u := FreeColumn(q.c, q.n, q.x, q.y, q.v, q.free, q.s);
    assert cols[pos[u]] == u;
  }

  /** Gathering a level only permutes the unlisted columns. */
  lemma Regrouped(q: Instance, cols: seq<int>, pos: seq<int>, cols': seq<int>, pos': seq<int>,
                  d: seq<real>, pred: seq<int>, lo: int)
    requires Core(q, cols, pos, d, pred, lo, lo, lo) && Permuted(cols', pos', q.n)
    requires forall k :: 0 <= k < lo ==> cols'[k] == cols[k]
    ensures Core(q, cols', pos', d, pred, lo, lo, lo)
    ensures Ordered(cols, d, lo, q.n) ==> Ordered(cols', d, lo, q.n)
  {
    assert forall k :: 0 <= k < q.n ==> pos[cols[k]] == k && pos'[cols'[k]] == k;
    assert forall j :: 0 <= j < q.n ==> cols[pos[j]] == j && cols'[pos'[j]] == j;
    assert forall j :: 0 <= j < q.n ==> (pos[j] < lo <==> pos'[j] < lo) && (pos[j] < lo ==> pos'[j] == pos[j]);
    forall j | 0 <= j < q.n ensures Attained(q, pos', d, pred, lo, j) {
      assert Attained(q, pos, d, pred, lo, j);
    }
    if Ordered(cols, d, lo, q.n) {
      forall k, m | 0 <= k < lo <= m < q.n ensures d[cols'[k]] <= d[cols'[m]] {
        assert cols[pos[cols'[m]]] == cols'[m];
      }
    }
  }

  /** The next level: its columns are the nearest unlisted ones. */
  lemma NextLevel(cols: seq<int>, d: seq<real>, lo: int, hi: int, n: int, m: real)
    requires Ordered(cols, d, lo, n) && 0 <= lo < hi <= n
    requires forall k :: lo <= k < hi ==> d[cols[k]] == m
    requires forall k :: hi <= k < n ==> m < d[cols[k]]
    ensures SplitAt(cols, d, lo, n, m) && Level(cols, d, lo, hi, n, m)
  {
    assert forall k :: 0 <= k < lo ==> d[cols[k]] <= d[cols[lo]];
  }

  /** The level check of `find_path_dense`: a free column among cols[lo..hi), if there is one. */
  method FreeInLevel(n: nat, lo: nat, hi: nat, cols: array<int>, y: array<int>) returns (final: int)
    requires lo <= hi <= n && cols.Length == n && y.Length == n && InRange(cols[..], n)
    ensures final == -1 ==> forall k :: lo <= k < hi ==> y[cols[k]] >= 0
    ensures final != -1 ==> exists k :: lo <= k < hi && final == cols[k] && y[final] < 0
  {
    final := -1;
    for k := lo to hi
      invariant final == -1 ==> forall p :: lo <= p < k ==> y[cols[p]] >= 0
      invariant final != -1 ==> exists p :: lo <= p < k && final == cols[p] && y[final] < 0
    {
      var j := cols[k];
      if y[j] < 0 { final := j; }
    }
  }

  lemma Extend(q: Instance, cols: seq<int>, pos: seq<int>, d: seq<real>, pred: seq<int>, lo: int, hi: int)
    requires Core(q, cols, pos, d, pred, lo, lo, lo) && lo <= hi <= q.n
    requires forall k :: lo <= k < hi ==> q.y[cols[k]] >= 0
    ensures Core(q, cols, pos, d, pred, lo, lo, hi)
  {
  }

  /** A free column in the new level ends the search; otherwise the level can be scanned. */
  lemma Opened(q: Instance, cs: seq<int>, ps: seq<int>, cols: seq<int>, pos: seq<int>,
               d: seq<real>, pred: seq<int>, lo: int, hi: int, m: real, final: int)
    requires Core(q, cs, ps, d, pred, lo, lo, lo) && Ordered(cs, d, lo, q.n)
    requires Permuted(cols, pos, q.n) && lo < hi <= q.n
    requires forall k :: 0 <= k < lo ==> cols[k] == cs[k]
    requires forall k :: lo <= k < hi ==> d[cols[k]] == m
    requires forall k :: hi <= k < q.n ==> m < d[cols[k]]
    requires final == -1 ==> forall k :: lo <= k < hi ==> q.y[cols[k]] >= 0
    requires final != -1 ==> exists k :: lo <= k < hi && final == cols[k] && q.y[final] < 0
    ensures SplitAt(cols, d, lo, q.n, m)
    ensures final == -1 ==> Core(q, cols, pos, d, pred, lo, lo, hi) && Level(cols, d, lo, hi, q.n, m)
    ensures final != -1 ==> Certificate(q, pos, d, pred, m, final)
  {
    Regrouped(q, cs, ps, cols, pos, d, pred, lo);
    NextLevel(cols, d, lo, hi, q.n, m);
    if final == -1 {
      Extend(q, cols, pos, d, pred, lo, hi);
    } else {
      Finish(q, cols, pos, d, pred, lo, lo, lo, lo, m, final);
    }
  }

  /** Opens the next level of the search: gathers the nearest unlisted columns and looks for
      a free one among them. */
  method OpenLevel(n: nat, lo: nat, d: array<real>, cols: array<int>, y: array<int>,
                   ghost q: Instance, ghost pos0: seq<int>, ghost pred: seq<int>)
    returns (final: int, hi: nat, ghost pos: seq<int>, ghost m: real)
    requires q.n == n && d.Length == n && cols.Length == n && y.Length == n && cols != y && q.y == y[..]
    requires Core(q, cols[..], pos0, d[..], pred, lo, lo, lo) && Ordered(cols[..], d[..], lo, n)
    modifies cols
    ensures lo < hi && Permuted(cols[..], pos, n) && SplitAt(cols[..], d[..], lo, n, m)
    ensures final == -1 ==> Core(q, cols[..], pos, d[..], pred, lo, lo, hi) && Level(cols[..], d[..], lo, hi, n, m)
    ensures final != -1 ==> Certificate(q, pos, d[..], pred, m, final)
  {
    ghost var cs := cols[..];
    StillOpen(q, cs, pos0, d[..], pred, lo);
    hi, pos, m := FindDense(n, lo, d, cols, pos0);
    final := FreeInLevel(n, lo, hi, cols, y);
    Opened(q, cs, pos0, cols[..], pos, d[..], pred, lo, hi, m, final);
  }

  /** The search of `find_path_dense`, up to the price update. */
  method Search(n: nat, c: Matrix, d: array<real>, cols: array<int>, pred: array<int>, y: array<int>, v: array<real>,
                ghost q: Instance)
    returns (final: int, lo: nat, nReady: nat, ghost pos: seq<int>, ghost m: real)
    requires q.c == c && q.n == n && d.Length == n && cols.Length == n && pred.Length == n && y.Length == n
    requires v.Length == n
    requires cols != pred && cols != y && pred != y && d != v && q.y == y[..] && q.v == v[..]
    requires Core(q, cols[..], cols[..], d[..], pred[..], 0, 0, 0)
    modifies d, cols, pred
    ensures nReady == lo && Certificate(q, pos, d[..], pred[..], m, final)
    ensures Permuted(cols[..], pos, n) && SplitAt(cols[..], d[..], lo, n, m)
  {
    var hi := 0;
    lo, nReady, final, pos, m := 0, 0, -1, cols[..], 0.0;
    while final == -1
      invariant final == -1 ==> lo == hi && Core(q, cols[..], pos, d[..], pred[..], lo, lo, lo)
      invariant final == -1 ==> Ordered(cols[..], d[..], lo, n)
      invariant final != -1 ==> nReady == lo && Certificate(q, pos, d[..], pred[..], m, final)
      invariant final != -1 ==> Permuted(cols[..], pos, n) && SplitAt(cols[..], d[..], lo, n, m)
      decreases final == -1, n - lo
    {
      if lo == hi {
        nReady := lo;
        final, hi, pos, m := OpenLevel(n, lo, d, cols, y, q, pos, pred[..]);
      }
      if final == -1 {
        final, lo, hi, pos := ScanDense(n, c, lo, hi, d, cols, pred, y, v, q, pos, m);
      }
    }
  }

  /** `find_path_dense`: the search always reaches a free column, and the price update keeps
      every assigned row at its minimum. */
  method FindPath(n: nat, c: Matrix, s: int, y: array<int>, v: array<real>, pred: array<int>, ghost q: Instance)
    returns (final: int, ghost rank: seq<int>, ghost tree: set<int>)
    requires q.c == c && q.n == n && q.s == s && Legal(q) && q.y == y[..] && q.v == v[..]
    requires pred.Length == n && y.Length == n && v.Length == n && pred != y
    modifies v, pred
    ensures Partial(c, n, q.x, y[..], v[..], q.free)
    ensures Tree(c, n, s, q.x, v[..], q.free, pred[..], rank, tree)
    ensures final in tree && y[final] < 0
  {
    var cols := new int[n];
    var d := new real[n];
    for i := 0 to n
      invariant q.y == y[..] && q.v == v[..]
      invariant forall k :: 0 <= k < i ==> cols[k] == k && pred[k] == s && d[k] == Red(q, s, k)
    {
      cols[i] := i;
      pred[i] := s;
      d[i] := c[s][i] - v[i];
    }
    SearchStarts(q, cols[..], d[..], pred[..]);
    ghost var m;
    var lo, nReady;
    final, lo, nReady, rank, m := Search(n, c, d, cols, pred, y, v, q);
    UpdatePrices(n, lo, nReady, d, cols, v, rank, m);
    tree := TreeOf(q, rank, d[..], pred[..], m, final, v[..]);
  }

  // ---- what the distances mean -------------------------------------------------

  /** An alternating path from row s: it enters the listed columns in turn, leaving every
      column but the last through the row that holds it. */
  ghost predicate AlternatingPath(q: Instance, p: seq<int>) {
    Legal(q) && |p| > 0 && InRange(p, q.n) && forall t :: 0 <= t < |p| - 1 ==> q.y[p[t]] >= 0
  }

  ghost function Length(q: Instance, p: seq<int>): real
    requires AlternatingPath(q, p)
  {
    var j := p[|p| - 1];
    if |p| == 1 then Red(q, q.s, j)
    else
      var k := p[|p| - 2];
      Length(q, p[..|p| - 1]) + Red(q, q.y[k], j) - Red(q, q.y[k], k)
  }

  /** No alternating path is shorter than the distance the search reports. */
  lemma {:induction false} DistanceIsLowerBound(q: Instance, rank: seq<int>, d: seq<real>, pred: seq<int>,
                                                mind: real, final: int, p: seq<int>)
    requires Certificate(q, rank, d, pred, mind, final) && AlternatingPath(q, p)
    ensures Length(q, p) >= mind || Length(q, p) >= d[p[|p| - 1]]
  {
    if |p| > 1 {
      var j, k := p[|p| - 1], p[|p| - 2];
      DistanceIsLowerBound(q, rank, d, pred, mind, final, p[..|p| - 1]);
      NoShortcut(q, d, k, j);
      if d[k] < mind { assert d[j] <= Via(q, d, k, j); }
    }
  }

  /** Every distance up to mind is attained by an alternating path. */
  lemma {:induction false} DistanceIsAttained(q: Instance, rank: seq<int>, d: seq<real>, pred: seq<int>,
                                              mind: real, final: int, j: int)
    returns (p: seq<int>)
    requires Certificate(q, rank, d, pred, mind, final) && 0 <= j < q.n && d[j] <= mind
    ensures AlternatingPath(q, p) && p[|p| - 1] == j && Length(q, p) == d[j]
    decreases rank[j]
  {
    assert Reached(q, rank, d, pred, mind, j);
    if pred[j] == q.s {
      p := [j];
    } else {
      var k := q.x[pred[j]];
      var p0 := DistanceIsAttained(q, rank, d, pred, mind, final, k);
      p := p0 + [j];
      assert p[..|p| - 1] == p0;
    }
  }

  /** d[j] is the length of a shortest alternating path for every column up to the level of
      the column that ended the search. */
  lemma DistancesAreShortest(q: Instance, rank: seq<int>, d: seq<real>, pred: seq<int>, mind: real, final: int, j: int)
    requires Certificate(q, rank, d, pred, mind, final) && 0 <= j < q.n && d[j] <= mind
    ensures exists p :: AlternatingPath(q, p) && p[|p| - 1] == j && Length(q, p) == d[j]
    ensures forall p :: AlternatingPath(q, p) && p[|p| - 1] == j ==> Length(q, p) >= d[j]
  {
    var p := DistanceIsAttained(q, rank, d, pred, mind, final, j);
    forall p | AlternatingPath(q, p) && p[|p| - 1] == j ensures Length(q, p) >= d[j] {
      DistanceIsLowerBound(q, rank, d, pred, mind, final, p);
    }
  }
}
