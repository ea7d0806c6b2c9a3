/** The Hungarian method of munkres.h: what its marks and covers mean, and the facts each of
    the five steps rests on. */
module MunkresState {
  import opened Assignment

  datatype Mark = Normal | Star | Prime

  const STEP_CAP: real := 100000.0

  ghost predicate MaskShape(mask: seq<seq<Mark>>, n: nat) {
    |mask| == n && forall i :: 0 <= i < n ==> |mask[i]| == n
  }

  /** The mask holds at most one star and one prime per row, at columns star[i] and prime[i]. */
  ghost predicate Marks(mask: seq<seq<Mark>>, star: seq<int>, prime: seq<int>, n: nat) {
    MaskShape(mask, n) && |star| == n && |prime| == n
    && (forall i :: 0 <= i < n ==> -1 <= star[i] < n && -1 <= prime[i] < n)
    && forall i, j :: 0 <= i < n && 0 <= j < n ==>
         (mask[i][j] == Star <==> star[i] == j) && (mask[i][j] == Prime <==> prime[i] == j)
  }

  /** The matrix is the cost matrix a less a price per row and per column, and non-negative. */
  ghost predicate Reduces(a: Matrix, m: Matrix, u: seq<real>, v: seq<real>, n: nat) {
    HasShape(a, n, n) && HasShape(m, n, n) && |u| == n && |v| == n
    && forall i, j :: 0 <= i < n && 0 <= j < n ==> m[i][j] == a[i][j] - u[i] - v[j] && m[i][j] >= 0.0
  }

  /** Stars sit on zeros, no two in one column. */
  ghost predicate Stars(m: Matrix, star: seq<int>, n: nat) {
    HasShape(m, n, n) && |star| == n
    && (forall i :: 0 <= i < n ==> -1 <= star[i] < n && (star[i] >= 0 ==> m[i][star[i]] == 0.0))
    && forall i, k :: 0 <= i < k < n && star[i] >= 0 ==> star[i] != star[k]
  }

  /** Every star is covered exactly once, by its column or by its row, and only starred
      columns are covered. */
  ghost predicate Covers(star: seq<int>, rowMask: seq<bool>, colMask: seq<bool>, n: nat) {
    |star| == n && |rowMask| == n && |colMask| == n
    && (forall i :: 0 <= i < n && star[i] >= 0 ==> star[i] < n && (colMask[star[i]] <==> !rowMask[i]))
    && (forall i :: 0 <= i < n && rowMask[i] ==> star[i] >= 0)
    && (forall j :: 0 <= j < n && colMask[j] ==> j in star)
  }

  /** Covered rows are those with a primed zero in an uncovered column. The star of that
      column, if any, lies in a row covered earlier, of lower rank. */
  ghost predicate Primes(m: Matrix, star: seq<int>, prime: seq<int>, rank: seq<nat>, rowMask: seq<bool>,
                         colMask: seq<bool>, clock: nat, n: nat) {
    HasShape(m, n, n) && |star| == n && |prime| == n && |rank| == n && |rowMask| == n && |colMask| == n
    && (forall i :: 0 <= i < n ==> -1 <= prime[i] < n)
    && (forall i :: 0 <= i < n && prime[i] >= 0 ==> !colMask[prime[i]] && m[i][prime[i]] == 0.0 && rank[i] < clock)
    && (forall i, k :: 0 <= i < n && 0 <= k < n && prime[i] >= 0 && star[k] == prime[i] ==>
          rowMask[k] && rank[k] < rank[i])
    && (forall i :: 0 <= i < n && rowMask[i] ==> prime[i] >= 0)
  }

  ghost function Starred(star: seq<int>): set<int> {
    set i | 0 <= i < |star| && star[i] >= 0
  }

  ghost function CoveredRows(rowMask: seq<bool>): set<int> {
    set i | 0 <= i < |rowMask| && rowMask[i]
  }

  lemma SubsetOfUpto(s: set<int>, n: nat)
    requires forall i :: i in s ==> 0 <= i < n
    ensures |s| <= n && (|s| == n ==> forall i :: 0 <= i < n ==> i in s)
  {
    assert s <= Upto(n);
    SubsetSize(s, Upto(n));
    if |s| == n { SubsetOfEqualSize(s, Upto(n)); }
  }

  lemma SubsetSize(a: set<int>, b: set<int>)
    requires a <= b
    ensures |a| <= |b|
  {
    assert |b - a| == |b| - |a|;
  }

  /** With fewer than n stars some row and some column have none. */
  lemma UnstarredRow(star: seq<int>, n: nat) returns (r: int)
    requires |star| == n && |Starred(star)| < n
    ensures 0 <= r < n && star[r] < 0
  {
    assert Starred(star) != Upto(n);
    r :| r in Upto(n) && r !in Starred(star);
  }

  lemma UnstarredColumn(star: seq<int>, n: nat) returns (c: int)
    requires |star| == n && |Starred(star)| < n
    requires forall i :: 0 <= i < n ==> -1 <= star[i] < n
    requires forall i, k :: 0 <= i < k < n && star[i] >= 0 ==> star[i] != star[k]
    ensures 0 <= c < n && c !in star
  {
    if forall j :: 0 <= j < n ==> j in star {
      ColumnsNeedRows(star, n, n);
      assert false;
    }
    c :| 0 <= c < n && c !in star;
  }

  /** The columns below k need k starred rows. */
  lemma {:induction false} ColumnsNeedRows(star: seq<int>, n: nat, k: nat)
    requires |star| == n && k <= n
    requires forall j :: 0 <= j < n ==> j in star
    ensures |set i | 0 <= i < n && 0 <= star[i] < k| >= k
    ensures k == n ==> |Starred(star)| >= n
  {
    var s := set i | 0 <= i < n && 0 <= star[i] < k;
    if k > 0 {
      ColumnsNeedRows(star, n, k - 1);
      var s' := set i | 0 <= i < n && 0 <= star[i] < k - 1;
      assert k - 1 in star;
      var i :| 0 <= i < n && star[i] == k - 1;
      assert s' + {i} <= s && i !in s';
      SubsetSize(s' + {i}, s);
    }
    if k == n {
      assert s <= Starred(star);
      SubsetSize(s, Starred(star));
    }
  }

  lemma Cell(a: Matrix, m: Matrix, u: seq<real>, v: seq<real>, n: nat, i: int, j: int)
    requires Reduces(a, m, u, v, n) && 0 <= i < n && 0 <= j < n
    ensures a[i][j] - v[j] == m[i][j] + u[i] && m[i][j] >= 0.0
  {
  }

  /** All rows starred: the stars are an optimal assignment of a, certified by the prices. */
  lemma AllStarred(a: Matrix, m: Matrix, star: seq<int>, u: seq<real>, v: seq<real>, n: nat)
    requires Reduces(a, m, u, v, n) && Stars(m, star, n) && |Starred(star)| >= n
    ensures Optimal(a, star, n)
  {
    SubsetOfUpto(Starred(star), n);
    forall i | 0 <= i < n ensures AtMinimum(a, v, i, star[i]) {
      assert i in Starred(star);
      Cell(a, m, u, v, n, i, star[i]);
      forall k | 0 <= k < n ensures Reduced(a, v, i, star[i]) <= Reduced(a, v, i, k) {
        Cell(a, m, u, v, n, i, k);
      }
    }
    CertifiedOptimal(a, v, star, n);
  }

  // ---- the augmenting path of step 4 ---------------------------------------------

  /** p walks from the uncovered primed row p[0] through stars and primes: the star of row
      p[t + 1] lies in the column of the prime of row p[t]. */
  ghost predicate Walk(star: seq<int>, prime: seq<int>, rank: seq<nat>, p: seq<int>, n: nat) {
    |star| == n && |prime| == n && |rank| == n && |p| > 0 && InRange(p, n)
    && (forall t :: 0 <= t < |p| ==> prime[p[t]] >= 0)
    && (forall t :: 0 <= t < |p| - 1 ==> star[p[t + 1]] == prime[p[t]])
    && (forall s, t :: 0 <= s < t < |p| ==> rank[p[t]] < rank[p[s]])
  }

  /** The stars after the path has been flipped. */
  ghost predicate Flipped(star: seq<int>, star': seq<int>, prime: seq<int>, p: seq<int>, n: nat) {
    |star| == n && |star'| == n && |prime| == n
    && forall i :: 0 <= i < n ==> star'[i] == if i in p then prime[i] else star[i]
  }

  lemma FlipKeepsStars(m: Matrix, star: seq<int>, star': seq<int>, prime: seq<int>, rank: seq<nat>, p: seq<int>, n: nat)
    requires Stars(m, star, n) && Walk(star, prime, rank, p, n) && Flipped(star, star', prime, p, n)
    requires forall i :: 0 <= i < n && prime[i] >= 0 ==> prime[i] < n && m[i][prime[i]] == 0.0
    requires star[p[0]] < 0 && prime[p[|p| - 1]] !in star
    ensures Stars(m, star', n) && |Starred(star')| == |Starred(star)| + 1
  {
    forall i, k | 0 <= i < n && 0 <= k < n && i != k && star'[i] >= 0 ensures star'[i] != star'[k] {
      if i in p {
        FlippedColumn(star, prime, rank, p, n, i, k);
      } else if k in p {
        FlippedColumn(star, prime, rank, p, n, k, i);
      }
    }
    forall t | 0 < t < |p| ensures star[p[t]] >= 0 { assert star[p[(t - 1) + 1]] == prime[p[t - 1]]; }
    assert p[0] in p;
    assert Starred(star') == Starred(star) + {p[0]};
  }

  /** A flipped row shares its new column with no other row. */
  lemma FlippedColumn(star: seq<int>, prime: seq<int>, rank: seq<nat>, p: seq<int>, n: nat, i: int, k: int)
    requires Walk(star, prime, rank, p, n) && prime[p[|p| - 1]] !in star
    requires forall i, k :: 0 <= i < k < n && star[i] >= 0 ==> star[i] != star[k]
    requires 0 <= k < n && i in p && i != k
    ensures prime[i] != if k in p then prime[k] else star[k]
  {
    var s :| 0 <= s < |p| && p[s] == i;
    if k in p {
      var t :| 0 <= t < |p| && p[t] == k;
      var lo, hi := if s < t then s else t, if s < t then t else s;
      assert star[p[lo + 1]] == prime[p[lo]];
      if hi < |p| - 1 {
        assert star[p[hi + 1]] == prime[p[hi]];
        assert rank[p[hi + 1]] < rank[p[lo + 1]];
      }
    } else if s < |p| - 1 {
      assert star[p[s + 1]] == prime[p[s]];
      assert p[s + 1] in p;
    }
  }
}
