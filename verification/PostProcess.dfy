/** The post-processing of postprocess.cc: paired quicksort, suppression, output. */
module PostProcess {
  import opened Assignment

  // ---- the paired quicksort ------------------------------------------------------------

  /** scores and indices are permuted in step: position k holds candidate indices[k] of the
      original scores s. */
  ghost predicate InStep(s: seq<real>, scores: seq<real>, indices: seq<int>) {
    |scores| == |s| && IsPermutation(indices, |s|) && forall k :: 0 <= k < |s| ==> scores[k] == s[indices[k]]
  }

  ghost predicate Between(scores: seq<real>, left: int, right: int, lower: real, upper: real)
    requires 0 <= left && right < |scores|
  {
    forall k :: left <= k <= right ==> lower <= scores[k] <= upper
  }

  ghost predicate Descending(scores: seq<real>, left: int, right: int)
    requires 0 <= left && right < |scores|
  {
    forall i, j :: left <= i < j <= right ==> scores[i] >= scores[j]
  }

  /** Copying cell o into the hole h moves the hole to o. */
  lemma MoveHole(s: seq<real>, scores: seq<real>, indices: seq<int>, h: int, o: int, key: real, keyIndex: int)
    requires |scores| == |s| == |indices| && 0 <= h < |s| && 0 <= o < |s|
    requires InStep(s, scores[h := key], indices[h := keyIndex])
    ensures InStep(s, scores[h := scores[o]][o := key], indices[h := indices[o]][o := keyIndex])
  {
    var x, y := indices[h := keyIndex], indices[h := indices[o]][o := keyIndex];
    var a, b := scores[h := key], scores[h := scores[o]][o := key];
    forall k | 0 <= k < |s|
      ensures y[k] == x[Swap(h, o, k)] && b[k] == a[Swap(h, o, k)] && 0 <= y[k] < |s| && b[k] == s[y[k]]
    {
      assert 0 <= x[Swap(h, o, k)] < |s| && a[Swap(h, o, k)] == s[x[Swap(h, o, k)]];
    }
    forall i, j | 0 <= i < j < |s| ensures y[i] != y[j] {
      assert x[Swap(h, o, i)] != x[Swap(h, o, j)];
    }
  }

  function Swap(h: int, o: int, k: int): int {
    if k == h then o else if k == o then h else k
  }

  /** The cells outside [left, right] are as before. */
  ghost predicate OutsideKept(a: seq<real>, a': seq<real>, b: seq<int>, b': seq<int>, left: int, right: int) {
    |a| == |a'| && |b| == |b'| && |a| == |b|
    && forall k :: 0 <= k < |a| && !(left <= k <= right) ==> a'[k] == a[k] && b'[k] == b[k]
  }

  /** The partition state: the hole is at `hole`, one end of [low, high]; what lies left of low
      is at least the key, what lies right of high at most. */
  ghost predicate Parting(s: seq<real>, scores: seq<real>, indices: seq<int>, left: int, right: int, low: int,
                          high: int, hole: int, key: real, keyIndex: int, lower: real, upper: real) {
    |scores| == |s| == |indices| && 0 <= left <= low <= high <= right < |s| && lower <= key <= upper
    && (hole == low || hole == high)
    && InStep(s, scores[hole := key], indices[hole := keyIndex])
    && (forall k :: left <= k < low ==> key <= scores[k] <= upper)
    && (forall k :: high < k <= right ==> lower <= scores[k] <= key)
    && (forall k :: low <= k <= high && k != hole ==> lower <= scores[k] <= upper)
  }

  /** Half a turn of the partition loop: from the right for an entry above the key. */
  method FromRight(scores: array<real>, indices: array<int>, left: int, right: int, low: int, high0: int,
                   key: real, keyIndex: int, ghost s: seq<real>, ghost lower: real, ghost upper: real)
    returns (high: int)
    requires Parting(s, scores[..], indices[..], left, right, low, high0, low, key, keyIndex, lower, upper)
    requires low < high0
    modifies scores, indices
    ensures Parting(s, scores[..], indices[..], left, right, low, high, high, key, keyIndex, lower, upper)
    ensures high <= high0 && (low < high ==> scores[low] > key)
    ensures OutsideKept(old(scores[..]), scores[..], old(indices[..]), indices[..], left, right)
  {
    high := high0;
    while low < high && scores[high] <= key
      invariant Parting(s, scores[..], indices[..], left, right, low, high, low, key, keyIndex, lower, upper)
      invariant high <= high0
    {
      high := high - 1;
    }
    MoveHole(s, scores[..], indices[..], low, high, key, keyIndex);
    ghost var a, b := scores[..], indices[..];
    scores[low] := scores[high];
    indices[low] := indices[high];
    assert scores[..] == a[low := a[high]] && indices[..] == b[low := b[high]];
  }

  /** The other half: from the left for an entry below the key. */
  method FromLeft(scores: array<real>, indices: array<int>, left: int, right: int, low0: int, high: int,
                  key: real, keyIndex: int, ghost s: seq<real>, ghost lower: real, ghost upper: real)
    returns (low: int)
    requires Parting(s, scores[..], indices[..], left, right, low0, high, high, key, keyIndex, lower, upper)
    requires low0 < high ==> scores[low0] > key
    modifies scores, indices
    ensures Parting(s, scores[..], indices[..], left, right, low, high, low, key, keyIndex, lower, upper)
    ensures low0 <= low && (low0 < high ==> low0 < low)
    ensures OutsideKept(old(scores[..]), scores[..], old(indices[..]), indices[..], left, right)
  {
    low := low0;
    while low < high && scores[low] >= key
      invariant Parting(s, scores[..], indices[..], left, right, low, high, high, key, keyIndex, lower, upper)
      invariant low0 <= low && (low == low0 < high ==> scores[low] > key)
    {
      low := low + 1;
    }
    MoveHole(s, scores[..], indices[..], high, low, key, keyIndex);
    ghost var a, b := scores[..], indices[..];
    scores[high] := scores[low];
    indices[high] := indices[low];
    assert scores[..] == a[high := a[low]] && indices[..] == b[high := b[low]];
  }

  /** The partition loop: the key ends where everything before it is at least, and everything
      after it at most the key. */
  method Partition(scores: array<real>, indices: array<int>, left: int, right: int,
                   ghost s: seq<real>, ghost lower: real, ghost upper: real)
    returns (low: int)
    requires InStep(s, scores[..], indices[..]) && 0 <= left < right < |s| && scores.Length == |s| == indices.Length
    requires Between(scores[..], left, right, lower, upper)
    modifies scores, indices
    ensures left <= low <= right && InStep(s, scores[..], indices[..]) && lower <= scores[low] <= upper
    ensures Between(scores[..], left, low - 1, scores[low], upper)
    ensures Between(scores[..], low + 1, right, lower, scores[low])
    ensures OutsideKept(old(scores[..]), scores[..], old(indices[..]), indices[..], left, right)
  {
    low := left;
    var high := right;
    var keyIndex, key := indices[left], scores[left];
    assert scores[..][left := key] == scores[..] && indices[..][left := keyIndex] == indices[..];
    while low < high
      invariant Parting(s, scores[..], indices[..], left, right, low, high, low, key, keyIndex, lower, upper)
      invariant OutsideKept(old(scores[..]), scores[..], old(indices[..]), indices[..], left, right)
      decreases high - low
    {
      high := FromRight(scores, indices, left, right, low, high, key, keyIndex, s, lower, upper);
      low := FromLeft(scores, indices, left, right, low, high, key, keyIndex, s, lower, upper);
    }
    ghost var a, b := scores[..], indices[..];
    scores[low] := key;
    indices[low] := keyIndex;
    assert scores[..] == a[low := key] && indices[..] == b[low := keyIndex];
  }

  /** `quick_sort_indice_inverse`: sorts [left, right] into descending order, scores and indices
      in step, and touches nothing else. */
  method QuickSort(scores: array<real>, left: int, right: int, indices: array<int>,
                   ghost s: seq<real>, ghost lower: real, ghost upper: real)
    requires InStep(s, scores[..], indices[..]) && 0 <= left && right < |s| && scores.Length == |s| == indices.Length
    requires Between(scores[..], left, right, lower, upper)
    modifies scores, indices
    ensures InStep(s, scores[..], indices[..]) && Descending(scores[..], left, right)
    ensures Between(scores[..], left, right, lower, upper)
    ensures OutsideKept(old(scores[..]), scores[..], old(indices[..]), indices[..], left, right)
    decreases right - left
  {
    if left < right {
      var low := Partition(scores, indices, left, right, s, lower, upper);
      ghost var key := scores[low];
      QuickSort(scores, left, low - 1, indices, s, key, upper);
      ghost var a := scores[..];
      QuickSort(scores, low + 1, right, indices, s, lower, key);
      SortedAround(a, scores[..], left, low, right, lower, upper);
    }
  }

  lemma SortedAround(a: seq<real>, b: seq<real>, left: int, low: int, right: int, lower: real, upper: real)
    requires |a| == |b| && 0 <= left <= low <= right < |a| && lower <= a[low] <= upper
    requires Descending(a, left, low - 1) && Between(a, left, low - 1, a[low], upper)
    requires forall k :: left <= k <= low ==> b[k] == a[k]
    requires Descending(b, low + 1, right) && Between(b, low + 1, right, lower, a[low])
    ensures Descending(b, left, right) && Between(b, left, right, lower, upper)
  {
  }
}
