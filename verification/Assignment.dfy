/** What both solvers of the repository are for: a minimum-cost assignment, and the
    dual certificate that proves an assignment to be one. */
module Assignment {

  type Matrix = seq<seq<real>>

  ghost predicate HasShape(c: Matrix, rows: nat, cols: nat) {
    |c| == rows && forall i :: 0 <= i < rows ==> |c[i]| == cols
  }

  ghost predicate Injective(s: seq<int>) {
    forall i, j :: 0 <= i < j < |s| ==> s[i] != s[j]
  }

  ghost predicate InRange(s: seq<int>, n: nat) {
    forall i :: 0 <= i < |s| ==> 0 <= s[i] < n
  }

  /** x assigns every row of an n-by-n matrix its own column. */
  ghost predicate IsPermutation(x: seq<int>, n: nat) {
    |x| == n && InRange(x, n) && Injective(x)
  }

  /** Each of x and y undoes the other. */
  ghost predicate Inverse(x: seq<int>, y: seq<int>, n: nat) {
    |x| == n && |y| == n && InRange(x, n) && InRange(y, n)
    && (forall i :: 0 <= i < n ==> y[x[i]] == i)
    && (forall j :: 0 <= j < n ==> x[y[j]] == j)
  }

  /** The cost of the first k rows of an assignment. */
  ghost function CostUpTo(c: Matrix, x: seq<int>, k: nat): real
    requires k <= |c| && k <= |x|
    requires forall i :: 0 <= i < k ==> 0 <= x[i] < |c[i]|
  {
    if k == 0 then 0.0 else CostUpTo(c, x, k - 1) + c[k - 1][x[k - 1]]
  }

  ghost function Cost(c: Matrix, x: seq<int>, n: nat): real
    requires HasShape(c, n, n) && IsPermutation(x, n)
  {
    CostUpTo(c, x, n)
  }

  /** x is a permutation, and no permutation costs less. */
  ghost predicate Optimal(c: Matrix, x: seq<int>, n: nat)
    requires HasShape(c, n, n)
  {
    IsPermutation(x, n) && forall z :: IsPermutation(z, n) ==> Cost(c, x, n) <= Cost(c, z, n)
  }

  // ---- pigeonhole -------------------------------------------------------

  ghost function Upto(n: nat): (s: set<int>)
    ensures |s| == n
    ensures forall i :: i in s <==> 0 <= i < n
  {
    if n == 0 then {} else Upto(n - 1) + {n - 1}
  }

  ghost function Image(s: seq<int>, k: nat): set<int>
    requires k <= |s|
  {
    set i | 0 <= i < k :: s[i]
  }

  lemma {:induction false} ImageSize(s: seq<int>, k: nat)
    requires k <= |s| && Injective(s)
    ensures |Image(s, k)| == k
  {
    if k > 0 {
      ImageSize(s, k - 1);
      ImagePush(s, k - 1);
    }
  }

  lemma ImagePush(s: seq<int>, k: nat)
    requires k < |s| && Injective(s)
    ensures Image(s, k + 1) == Image(s, k) + {s[k]} && s[k] !in Image(s, k)
  {
  }

  lemma SubsetOfEqualSize(a: set<int>, b: set<int>)
    requires a <= b && |a| == |b|
    ensures a == b
  {
    assert |b - a| == |b| - |a|;
  }

  /** An injective map of [0, n) into itself reaches every point. */
  lemma Surjective(s: seq<int>, n: nat, j: int)
    requires IsPermutation(s, n) && 0 <= j < n
    ensures exists i :: 0 <= i < n && s[i] == j
  {
    ImageSize(s, n);
    SubsetOfEqualSize(Image(s, n), Upto(n));
    assert j in Image(s, n);
  }

  // ---- sums are invariant under permutation -------------------------------

  ghost function SumUpTo(w: seq<real>, k: nat): real
    requires k <= |w|
  {
    if k == 0 then 0.0 else SumUpTo(w, k - 1) + w[k - 1]
  }

  /** The sum of w[z[i]] over the first k positions. */
  ghost function SumAlong(w: seq<real>, z: seq<int>, k: nat): real
    requires k <= |z| && InRange(z, |w|)
  {
    if k == 0 then 0.0 else SumAlong(w, z, k - 1) + w[z[k - 1]]
  }

  /** The sum of w over the indices below n that lie in s. */
  ghost function SumWithin(w: seq<real>, s: set<int>, n: nat): real
    requires n <= |w|
  {
    if n == 0 then 0.0
    else SumWithin(w, s, n - 1) + (if n - 1 in s then w[n - 1] else 0.0)
  }

  lemma {:induction false} SumWithinAdd(w: seq<real>, s: set<int>, e: int, n: nat)
    requires n <= |w| && e !in s && 0 <= e
    ensures SumWithin(w, s + {e}, n) == SumWithin(w, s, n) + (if e < n then w[e] else 0.0)
  {
    if n > 0 { SumWithinAdd(w, s, e, n - 1); }
  }

  lemma {:induction false} SumAlongIsWithin(w: seq<real>, z: seq<int>, k: nat)
    requires k <= |z| && InRange(z, |w|) && Injective(z)
    ensures SumAlong(w, z, k) == SumWithin(w, Image(z, k), |w|)
  {
    if k == 0 {
      assert Image(z, 0) == {};
      SumWithinNone(w, |w|);
    } else {
      SumAlongIsWithin(w, z, k - 1);
      SumWithinAdd(w, Image(z, k - 1), z[k - 1], |w|);
      assert Image(z, k) == Image(z, k - 1) + {z[k - 1]};
    }
  }

  lemma {:induction false} SumWithinNone(w: seq<real>, n: nat)
    requires n <= |w|
    ensures SumWithin(w, {}, n) == 0.0
  {
    if n > 0 { SumWithinNone(w, n - 1); }
  }

  lemma {:induction false} SumWithinAll(w: seq<real>, s: set<int>, n: nat)
    requires n <= |w| && forall i :: 0 <= i < n ==> i in s
    ensures SumWithin(w, s, n) == SumUpTo(w, n)
  {
    if n > 0 { SumWithinAll(w, s, n - 1); }
  }

  lemma PermutedSum(w: seq<real>, z: seq<int>)
    requires IsPermutation(z, |w|)
    ensures SumAlong(w, z, |w|) == SumUpTo(w, |w|)
  {
    var n := |w|;
    SumAlongIsWithin(w, z, n);
    forall j | 0 <= j < n ensures j in Image(z, n) { Surjective(z, n, j); }
    SumWithinAll(w, Image(z, n), n);
  }

  // ---- duality ------------------------------------------------------------

  /** The reduced cost of a cell under column prices v. */
  ghost function Reduced(c: Matrix, v: seq<real>, i: int, j: int): real
    requires 0 <= i < |c| && 0 <= j < |c[i]| && j < |v|
  {
    c[i][j] - v[j]
  }

  /** Column j is a cheapest column for row i under prices v. */
  ghost predicate AtMinimum(c: Matrix, v: seq<real>, i: int, j: int)
    requires 0 <= i < |c| && |c[i]| == |v|
  {
    0 <= j < |v| && forall k :: 0 <= k < |v| ==> Reduced(c, v, i, j) <= Reduced(c, v, i, k)
  }

  lemma {:induction false} RowsAtMinimum(c: Matrix, v: seq<real>, x: seq<int>, z: seq<int>, n: nat, k: nat)
    requires HasShape(c, n, n) && |v| == n && k <= n
    requires IsPermutation(x, n) && IsPermutation(z, n)
    requires forall i :: 0 <= i < n ==> AtMinimum(c, v, i, x[i])
    ensures CostUpTo(c, x, k) - SumAlong(v, x, k) <= CostUpTo(c, z, k) - SumAlong(v, z, k)
  {
    if k > 0 {
      RowsAtMinimum(c, v, x, z, n, k - 1);
      assert Reduced(c, v, k - 1, x[k - 1]) <= Reduced(c, v, k - 1, z[k - 1]);
    }
  }

  /** Complementary slackness: prices under which every row sits at its cheapest column
      certify the assignment. */
  lemma CertifiedOptimal(c: Matrix, v: seq<real>, x: seq<int>, n: nat)
    requires HasShape(c, n, n) && |v| == n && IsPermutation(x, n)
    requires forall i :: 0 <= i < n ==> AtMinimum(c, v, i, x[i])
    ensures Optimal(c, x, n)
  {
    forall z | IsPermutation(z, n) ensures Cost(c, x, n) <= Cost(c, z, n) {
      RowsAtMinimum(c, v, x, z, n, n);
      PermutedSum(v, x);
      PermutedSum(v, z);
    }
  }
}
