/** linear_assignment.cpp: one minimum-cost round, and the cascade over track ages. */
module DeepAssignment {
  import opened Assignment
  import opened PartialMatching
  import opened Hungarian

  /** The cost of giving a detection to a track; partial, because the feature gallery has no
      entry for some tracks. */
  type CostFunction = (int, int) --> real

  ghost predicate Priceable(f: CostFunction, tracks: seq<int>, dets: seq<int>) {
    forall i, j {:trigger tracks[i], dets[j]} :: 0 <= i < |tracks| && 0 <= j < |dets| ==>
      f.requires(tracks[i], dets[j]) && f(tracks[i], dets[j]) >= 0.0
  }

  lemma PriceableSub(f: CostFunction, tracks: seq<int>, dets: seq<int>, tracks': seq<int>, dets': seq<int>)
    requires Priceable(f, tracks, dets)
    requires (forall t :: t in tracks' ==> t in tracks) && forall d :: d in dets' ==> d in dets
    ensures Priceable(f, tracks', dets')
  {
    forall i, j | 0 <= i < |tracks'| && 0 <= j < |dets'|
      ensures f.requires(tracks'[i], dets'[j]) && f(tracks'[i], dets'[j]) >= 0.0
    {
      assert tracks'[i] in tracks' && dets'[j] in dets';
      var a :| 0 <= a < |tracks| && tracks[a] == tracks'[i];
      var b :| 0 <= b < |dets| && dets[b] == dets'[j];
    }
  }

  function Clip(x: real, max: real): real {
    if x > max then max + 0.00001 else x
  }

  function Firsts(m: seq<(int, int)>): (s: seq<int>)
    ensures |s| == |m| && forall k :: 0 <= k < |m| ==> s[k] == m[k].0
  {
    seq(|m|, k requires 0 <= k < |m| => m[k].0)
  }

  function Seconds(m: seq<(int, int)>): (s: seq<int>)
    ensures |s| == |m| && forall k :: 0 <= k < |m| ==> s[k] == m[k].1
  {
    seq(|m|, k requires 0 <= k < |m| => m[k].1)
  }

  /** Every entry of `all` is in exactly one of a and b, exactly once, and nothing else is. */
  ghost predicate Splits(all: seq<int>, a: seq<int>, b: seq<int>) {
    Injective(a) && Injective(b) && (forall x :: x in a ==> x !in b)
    && (forall x :: x in all <==> x in a || x in b)
  }

  /** The matrix of clipped costs. */
  ghost predicate ClippedCosts(c: Matrix, f: CostFunction, max: real, tracks: seq<int>, dets: seq<int>)
    requires Priceable(f, tracks, dets)
  {
    HasShape(c, |tracks|, |dets|)
    && forall i, j {:trigger c[i][j]} :: 0 <= i < |tracks| && 0 <= j < |dets| ==>
         c[i][j] == if f(tracks[i], dets[j]) > max then max + 0.00001 else f(tracks[i], dets[j])
  }

  /** The matches are the cells of a cheapest full matching of the clipped costs that do not
      exceed the maximum. */
  ghost predicate CheapestWithin(f: CostFunction, max: real, tracks: seq<int>, dets: seq<int>, matches: seq<(int, int)>)
    requires Priceable(f, tracks, dets)
  {
    if |tracks| == 0 || |dets| == 0 then matches == []
    else exists c, sol :: ClippedCosts(c, f, max, tracks, dets) && CheapestFull(c, sol, |tracks|, |dets|)
           && Kept(c, sol, max, tracks, dets, matches)
  }

  ghost predicate Kept(c: Matrix, sol: seq<int>, max: real, tracks: seq<int>, dets: seq<int>, matches: seq<(int, int)>)
    requires HasShape(c, |tracks|, |dets|) && Matching(sol, |tracks|, |dets|)
  {
    forall t, d :: (t, d) in matches <==>
      exists i :: 0 <= i < |tracks| && sol[i] >= 0 && t == tracks[i] && d == dets[sol[i]] && c[i][sol[i]] <= max
  }

  // ---- what clipping does to the matching ----------------------------------------------

  /** A pair over the maximum is chosen only where no column left over would be affordable. */
  lemma NoAffordableSpare(f: CostFunction, max: real, tracks: seq<int>, dets: seq<int>, c: Matrix, sol: seq<int>,
                          i: nat, j: nat)
    requires Priceable(f, tracks, dets) && ClippedCosts(c, f, max, tracks, dets)
    requires CheapestFull(c, sol, |tracks|, |dets|) && i < |tracks| && j < |dets| && sol[i] >= 0 && j !in sol
    requires f(tracks[i], dets[sol[i]]) > max
    ensures f(tracks[i], dets[j]) > max
  {
    var rows, cols := |tracks|, |dets|;
    var z := sol[i := j];
    ExcessUpdate(c, sol, 0.0, rows, cols, i, j, rows);
    SpareFull(sol, z, rows, cols, i, j);
    assert Total(c, sol, rows) <= Total(c, z, rows);
    assert c[i][sol[i]] == max + 0.00001 && c[i][j] >= max + 0.00001;
  }

  /** And only where exchanging columns with another such pair would make neither affordable. */
  lemma NoAffordableSwap(f: CostFunction, max: real, tracks: seq<int>, dets: seq<int>, c: Matrix, sol: seq<int>,
                         i: nat, k: nat)
    requires Priceable(f, tracks, dets) && ClippedCosts(c, f, max, tracks, dets)
    requires CheapestFull(c, sol, |tracks|, |dets|) && i < k < |tracks| && sol[i] >= 0 && sol[k] >= 0
    requires f(tracks[i], dets[sol[i]]) > max && f(tracks[k], dets[sol[k]]) > max
    ensures f(tracks[i], dets[sol[k]]) > max && f(tracks[k], dets[sol[i]]) > max
  {
    var rows, cols := |tracks|, |dets|;
    var a, b := sol[i], sol[k];
    var s1 := sol[i := -1];
    var s2 := s1[k := a];
    var z := s2[i := b];
    ExcessUpdate(c, sol, 0.0, rows, cols, i, -1, rows);
    ExcessUpdate(c, s1, 0.0, rows, cols, k, a, rows);
    ExcessUpdate(c, s2, 0.0, rows, cols, i, b, rows);
    SwapFull(sol, z, rows, cols, i, k);
    assert Total(c, sol, rows) <= Total(c, z, rows);
    assert c[i][a] == c[k][b] == max + 0.00001;
    assert c[i][b] + c[k][a] >= 2.0 * (max + 0.00001);
  }

  lemma SpareFull(sol: seq<int>, z: seq<int>, rows: nat, cols: nat, i: nat, j: nat)
    requires Full(sol, rows, cols) && i < rows && j < cols && j !in sol && z == sol[i := j]
    ensures Full(z, rows, cols)
  {
  }

  lemma SwapFull(sol: seq<int>, z: seq<int>, rows: nat, cols: nat, i: nat, k: nat)
    requires Full(sol, rows, cols) && i < k < rows && z == sol[i := sol[k]][k := sol[i]]
    ensures Full(z, rows, cols)
  {
    forall j | 0 <= j < cols && cols <= rows ensures j in z {
      assert j in sol;
      var r :| 0 <= r < |sol| && sol[r] == j;
      assert z[if r == i then k else if r == k then i else r] == j;
    }
  }

  method ClippedMatrix(f: CostFunction, max: real, tracks: seq<int>, dets: seq<int>) returns (c: Matrix)
    requires Priceable(f, tracks, dets)
    ensures ClippedCosts(c, f, max, tracks, dets)
  {
    c := [];
    for i := 0 to |tracks|
      invariant |c| == i && forall k :: 0 <= k < i ==> |c[k]| == |dets|
      invariant forall k, j {:trigger c[k][j]} :: 0 <= k < i && 0 <= j < |dets| ==>
                  c[k][j] == Clip(f(tracks[k], dets[j]), max)
    {
      var row := [];
      for j := 0 to |dets|
        invariant |row| == j && forall b :: 0 <= b < j ==> row[b] == Clip(f(tracks[i], dets[b]), max)
      {
        var x := f(tracks[i], dets[j]);
        row := row + [if x > max then max + 0.00001 else x];
      }
      c := c + [row];
    }
  }

  /** The entries of idx at positions that no pair uses on the given side. */
  method Unused(idx: seq<int>, used: seq<int>) returns (rest: seq<int>)
    requires Injective(idx)
    ensures Injective(rest) && forall x :: x in rest <==> exists k :: 0 <= k < |idx| && x == idx[k] && k !in used
  {
    rest := [];
    for k := 0 to |idx|
      invariant Injective(rest)
      invariant forall x :: x in rest <==> exists m :: 0 <= m < k && x == idx[m] && m !in used
    {
      var flag := false;
      for i := 0 to |used|
        invariant flag <==> k in used[..i]
      {
        assert used[..i + 1] == used[..i] + [used[i]];
        if used[i] == k { flag := true; }
      }
      assert used[..|used|] == used;
      if !flag {
        forall m | 0 <= m < |rest| ensures rest[m] != idx[k] { assert rest[m] in rest; }
        rest := rest + [idx[k]];
      }
    }
  }

  /** `min_cost_matching`. */
  method MinCostMatching(f: CostFunction, max: real, tracks: seq<int>, dets: seq<int>)
    returns (matches: seq<(int, int)>, ut: seq<int>, ud: seq<int>)
    requires Priceable(f, tracks, dets) && max >= 0.0 && Injective(tracks) && Injective(dets)
    ensures Splits(tracks, Firsts(matches), ut) && Splits(dets, Seconds(matches), ud)
    ensures CheapestWithin(f, max, tracks, dets, matches)
  {
    matches, ut, ud := [], [], [];
    if |dets| == 0 || |tracks| == 0 {
      return [], tracks, dets;
    }
    var c := ClippedMatrix(f, max, tracks, dets);
    var pairs;
    ghost var sol;
    pairs, sol := SolvePairs(c, |tracks|, |dets|);
    matches, ut, ud := Distribute(c, max, tracks, dets, pairs, sol);
    assert Kept(c, sol, max, tracks, dets, matches);
  }

  /** One side of the read-back: the positions not awaited by the pairs from k on are split
      between a and b. */
  ghost predicate SideSplit(idx: seq<int>, used: seq<int>, k: int, a: seq<int>, b: seq<int>) {
    0 <= k <= |used| && Injective(a) && Injective(b) && (forall x :: x in a ==> x !in b)
    && forall x :: x in a || x in b <==> exists m :: 0 <= m < |idx| && x == idx[m] && m !in used[k..]
  }

  lemma SideStarts(idx: seq<int>, used: seq<int>, b: seq<int>)
    requires Injective(b) && forall x :: x in b <==> exists m :: 0 <= m < |idx| && x == idx[m] && m !in used
    ensures SideSplit(idx, used, 0, [], b)
  {
    assert used[0..] == used;
    forall x | x in b ensures exists m :: 0 <= m < |idx| && x == idx[m] && m !in used[0..] {
      var m :| 0 <= m < |idx| && x == idx[m] && m !in used;
    }
    forall m | 0 <= m < |idx| && m !in used[0..] ensures idx[m] in b { assert m !in used; }
  }

  lemma SideNext(idx: seq<int>, used: seq<int>, k: int, a: seq<int>, b: seq<int>)
    requires SideSplit(idx, used, k, a, b) && k < |used| && Injective(idx) && Injective(used) && InRange(used, |idx|)
    ensures idx[used[k]] !in a && idx[used[k]] !in b
    ensures forall x :: (x in a || x in b || x == idx[used[k]])
                        <==> (exists m :: 0 <= m < |idx| && x == idx[m] && m !in used[k + 1..])
  {
    var e := used[k];
    assert used[k..] == [e] + used[k + 1..];
    assert forall m :: m in used[k..] <==> m == e || m in used[k + 1..];
    assert e !in used[k + 1..];
    forall m | 0 <= m < |idx| && m !in used[k..] ensures idx[m] != idx[e] { assert m != e; }
    forall x
      ensures x in a || x in b || x == idx[e] <==> exists m :: 0 <= m < |idx| && x == idx[m] && m !in used[k + 1..]
    {
      if x in a || x in b {
        var m :| 0 <= m < |idx| && x == idx[m] && m !in used[k..];
        assert m !in used[k + 1..];
      }
      if m :| 0 <= m < |idx| && x == idx[m] && m !in used[k + 1..] {
        if m != e { assert m !in used[k..]; }
      }
    }
  }

  lemma SideSteps(idx: seq<int>, used: seq<int>, k: int, a: seq<int>, b: seq<int>)
    requires SideSplit(idx, used, k, a, b) && k < |used| && Injective(idx) && Injective(used) && InRange(used, |idx|)
    ensures SideSplit(idx, used, k + 1, a + [idx[used[k]]], b) && SideSplit(idx, used, k + 1, a, b + [idx[used[k]]])
  {
    SideNext(idx, used, k, a, b);
  }

  lemma SideEnds(idx: seq<int>, used: seq<int>, a: seq<int>, b: seq<int>)
    requires SideSplit(idx, used, |used|, a, b)
    ensures Splits(idx, a, b)
  {
    assert used[|used|..] == [];
  }

  /** The matches after the first k pairs. */
  ghost predicate KeptUpTo(c: Matrix, max: real, tracks: seq<int>, dets: seq<int>, pairs: seq<(int, int)>, k: int,
                           matches: seq<(int, int)>)
    requires HasShape(c, |tracks|, |dets|) && 0 <= k <= |pairs|
    requires InRange(Firsts(pairs), |tracks|) && InRange(Seconds(pairs), |dets|)
  {
    forall t, d :: (t, d) in matches <==>
      exists m :: 0 <= m < k && (t, d) == At(tracks, dets, pairs[m]) && Within(c, max, pairs[m])
  }

  ghost function At(tracks: seq<int>, dets: seq<int>, p: (int, int)): (int, int)
    requires 0 <= p.0 < |tracks| && 0 <= p.1 < |dets|
  {
    (tracks[p.0], dets[p.1])
  }

  ghost predicate Within(c: Matrix, max: real, p: (int, int))
    requires 0 <= p.0 < |c| && 0 <= p.1 < |c[p.0]|
  {
    c[p.0][p.1] <= max
  }

  lemma PairRanges(pairs: seq<(int, int)>, sol: seq<int>, rows: nat, cols: nat)
    requires Matching(sol, rows, cols)
    requires forall i, j :: (i, j) in pairs <==> 0 <= i < rows && sol[i] == j && j >= 0
    requires forall a, b :: 0 <= a < b < |pairs| ==> pairs[a].0 < pairs[b].0
    ensures InRange(Firsts(pairs), rows) && InRange(Seconds(pairs), cols)
    ensures Injective(Firsts(pairs)) && Injective(Seconds(pairs))
    ensures forall k :: 0 <= k < |pairs| ==> 0 <= pairs[k].0 < rows && sol[pairs[k].0] == pairs[k].1 && pairs[k].1 >= 0
  {
    forall k | 0 <= k < |pairs|
      ensures 0 <= pairs[k].0 < rows && sol[pairs[k].0] == pairs[k].1 && 0 <= pairs[k].1 < cols
    {
      var (i, j) := pairs[k];
      assert (i, j) == pairs[k] && (i, j) in pairs;
    }
  }

  lemma KeptEnds(c: Matrix, max: real, tracks: seq<int>, dets: seq<int>, pairs: seq<(int, int)>, sol: seq<int>,
                 matches: seq<(int, int)>)
    requires HasShape(c, |tracks|, |dets|) && Matching(sol, |tracks|, |dets|)
    requires forall i, j :: (i, j) in pairs <==> 0 <= i < |tracks| && sol[i] == j && j >= 0
    requires InRange(Firsts(pairs), |tracks|) && InRange(Seconds(pairs), |dets|)
    requires forall k :: 0 <= k < |pairs| ==>
               0 <= pairs[k].0 < |tracks| && sol[pairs[k].0] == pairs[k].1 && pairs[k].1 >= 0
    requires KeptUpTo(c, max, tracks, dets, pairs, |pairs|, matches)
    ensures Kept(c, sol, max, tracks, dets, matches)
  {
    forall t, d
      ensures (t, d) in matches <==>
        exists i :: 0 <= i < |tracks| && sol[i] >= 0 && t == tracks[i] && d == dets[sol[i]] && c[i][sol[i]] <= max
    {
      if (t, d) in matches {
        var m :| 0 <= m < |pairs| && (t, d) == At(tracks, dets, pairs[m]) && Within(c, max, pairs[m]);
        assert sol[pairs[m].0] == pairs[m].1;
      }
      if i :| 0 <= i < |tracks| && sol[i] >= 0 && t == tracks[i] && d == dets[sol[i]] && c[i][sol[i]] <= max {
        assert (i, sol[i]) in pairs;
        var m :| 0 <= m < |pairs| && pairs[m] == (i, sol[i]);
        assert (t, d) == At(tracks, dets, pairs[m]) && Within(c, max, pairs[m]);
      }
    }
  }

  lemma PushPair(m: seq<(int, int)>, p: (int, int))
    ensures Firsts(m + [p]) == Firsts(m) + [p.0] && Seconds(m + [p]) == Seconds(m) + [p.1]
  {
  }

  ghost predicate Distributing(c: Matrix, max: real, tracks: seq<int>, dets: seq<int>, pairs: seq<(int, int)>, k: int,
                               matches: seq<(int, int)>, ut: seq<int>, ud: seq<int>) {
    HasShape(c, |tracks|, |dets|) && 0 <= k <= |pairs|
    && InRange(Firsts(pairs), |tracks|) && InRange(Seconds(pairs), |dets|)
    && SideSplit(tracks, Firsts(pairs), k, Firsts(matches), ut)
    && SideSplit(dets, Seconds(pairs), k, Seconds(matches), ud)
    && KeptUpTo(c, max, tracks, dets, pairs, k, matches)
  }

  lemma KeptStep(c: Matrix, max: real, tracks: seq<int>, dets: seq<int>, pairs: seq<(int, int)>, k: int,
                 matches: seq<(int, int)>)
    requires HasShape(c, |tracks|, |dets|) && 0 <= k < |pairs|
    requires InRange(Firsts(pairs), |tracks|) && InRange(Seconds(pairs), |dets|)
    requires KeptUpTo(c, max, tracks, dets, pairs, k, matches)
    ensures 0 <= pairs[k].0 < |tracks| && 0 <= pairs[k].1 < |dets|
    ensures KeptUpTo(c, max, tracks, dets, pairs, k + 1,
                     if Within(c, max, pairs[k]) then matches + [At(tracks, dets, pairs[k])] else matches)
  {
    assert Firsts(pairs)[k] == pairs[k].0 && Seconds(pairs)[k] == pairs[k].1;
    var matches' := if Within(c, max, pairs[k]) then matches + [At(tracks, dets, pairs[k])] else matches;
    forall t, d
      ensures (t, d) in matches' <==>
        exists m :: 0 <= m < k + 1 && (t, d) == At(tracks, dets, pairs[m]) && Within(c, max, pairs[m])
    {
      if (t, d) in matches {
        var m :| 0 <= m < k && (t, d) == At(tracks, dets, pairs[m]) && Within(c, max, pairs[m]);
      }
    }
  }

  lemma DistributeStep(c: Matrix, max: real, tracks: seq<int>, dets: seq<int>, pairs: seq<(int, int)>, k: int,
                       matches: seq<(int, int)>, ut: seq<int>, ud: seq<int>)
    requires Distributing(c, max, tracks, dets, pairs, k, matches, ut, ud) && k < |pairs|
    requires Injective(tracks) && Injective(dets) && Injective(Firsts(pairs)) && Injective(Seconds(pairs))
    ensures 0 <= pairs[k].0 < |tracks| && 0 <= pairs[k].1 < |dets|
    ensures var (t, d) := At(tracks, dets, pairs[k]);
            if Within(c, max, pairs[k])
            then Distributing(c, max, tracks, dets, pairs, k + 1, matches + [(t, d)], ut, ud)
            else Distributing(c, max, tracks, dets, pairs, k + 1, matches, ut + [t], ud + [d])
  {
    KeptStep(c, max, tracks, dets, pairs, k, matches);
    SideSteps(tracks, Firsts(pairs), k, Firsts(matches), ut);
    SideSteps(dets, Seconds(pairs), k, Seconds(matches), ud);
    PushPair(matches, At(tracks, dets, pairs[k]));
  }

  /** The read-back of `min_cost_matching`: positions no pair uses are unmatched, and so are
      the two ends of a pair whose clipped cost exceeds the maximum. */
  method Distribute(c: Matrix, max: real, tracks: seq<int>, dets: seq<int>, pairs: seq<(int, int)>, ghost sol: seq<int>)
    returns (matches: seq<(int, int)>, ut: seq<int>, ud: seq<int>)
    requires HasShape(c, |tracks|, |dets|) && Matching(sol, |tracks|, |dets|)
    requires Injective(tracks) && Injective(dets)
    requires forall i, j :: (i, j) in pairs <==> 0 <= i < |tracks| && sol[i] == j && j >= 0
    requires forall a, b :: 0 <= a < b < |pairs| ==> pairs[a].0 < pairs[b].0
    ensures Splits(tracks, Firsts(matches), ut) && Splits(dets, Seconds(matches), ud)
    ensures Kept(c, sol, max, tracks, dets, matches)
  {
    PairRanges(pairs, sol, |tracks|, |dets|);
    ud := Unused(dets, Seconds(pairs));
    ut := Unused(tracks, Firsts(pairs));
    matches := [];
    SideStarts(tracks, Firsts(pairs), ut);
    SideStarts(dets, Seconds(pairs), ud);
    assert Firsts(matches) == [] && Seconds(matches) == [];
    for k := 0 to |pairs|
      invariant Distributing(c, max, tracks, dets, pairs, k, matches, ut, ud)
    {
      DistributeStep(c, max, tracks, dets, pairs, k, matches, ut, ud);
      var (row, col) := pairs[k];
      if c[row][col] > max {
        ut := ut + [tracks[row]];
        ud := ud + [dets[col]];
      } else {
        matches := matches + [(tracks[row], dets[col])];
      }
    }
    SideEnds(tracks, Firsts(pairs), Firsts(matches), ut);
    SideEnds(dets, Seconds(pairs), Seconds(matches), ud);
    KeptEnds(c, max, tracks, dets, pairs, sol, matches);
  }
}
