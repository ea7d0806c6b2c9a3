/** nms over all class passes, and the output loop of post_process. */
module Suppression {
  import opened Assignment
  import opened PostProcess

  datatype Box = Box(x: real, y: real, w: real, h: real)

  function Max(a: real, b: real): real { if a > b then a else b }
  function Min(a: real, b: real): real { if a < b then a else b }

  /** `CalculateOverlap` of two boxes given by corner and size, with its one-pixel margin. */
  function Overlap(p: Box, q: Box): real {
    OverlapOf(Extent(p.x, p.w, q.x, q.w), Extent(p.y, p.h, q.y, q.h), Area(p), Area(q))
  }

  function Extent(a: real, la: real, b: real, lb: real): real {
    Max(0.0, Min(a + la, b + lb) - Max(a, b) + 1.0)
  }

  function Area(b: Box): real { (b.w + 1.0) * (b.h + 1.0) }

  function OverlapOf(w: real, h: real, p: real, q: real): real {
    var i := w * h;
    var u := p + q - i;
    if u <= 0.0 then 0.0 else i / u
  }

  /** Candidates at sorted positions i and j overlap too much. */
  ghost predicate Over(order0: seq<int>, boxes: seq<Box>, threshold: real, i: int, j: int)
    requires IsPermutation(order0, |boxes|) && 0 <= i < |boxes| && 0 <= j < |boxes|
  {
    Overlap(boxes[order0[i]], boxes[order0[j]]) > threshold
  }

  /** Suppression so far: an entry is untouched, or erased because of an earlier one. */
  ghost predicate Erased(order0: seq<int>, order: seq<int>, boxes: seq<Box>, threshold: real) {
    IsPermutation(order0, |boxes|) && |order| == |boxes|
    && forall j :: 0 <= j < |order| ==>
         order[j] == order0[j] || (order[j] == -1 && exists i :: 0 <= i < j && Over(order0, boxes, threshold, i, j))
  }

  /** Entries only ever go to -1. */
  ghost predicate Fewer(before: seq<int>, after: seq<int>) {
    |before| == |after| && forall k :: 0 <= k < |after| ==> after[k] == before[k] || after[k] == -1
  }

  /** Position i, if still there, suppresses everything behind it that it overlaps too much. */
  ghost predicate Cleared(order0: seq<int>, order: seq<int>, boxes: seq<Box>, threshold: real, i: int)
    requires IsPermutation(order0, |boxes|) && |order| == |boxes| && 0 <= i < |boxes|
  {
    order[i] != -1 ==> forall j :: i < j < |order| && order[j] != -1 ==> !Over(order0, boxes, threshold, i, j)
  }

  /** Position j is overlapped too much by an entry of the class before position k that is there. */
  ghost predicate Beaten(order0: seq<int>, order: seq<int>, boxes: seq<Box>, classIds: seq<int>, threshold: real,
                         filterId: int, j: int, k: int)
    requires IsPermutation(order0, |boxes|) && |order| == |boxes| == |classIds| && 0 <= j < |boxes|
  {
    exists i :: 0 <= i < j && i < k && classIds[i] == filterId && order[i] != -1 && Over(order0, boxes, threshold, i, j)
  }

  /** One pass, up to position k: exactly the entries beaten by an entry of the class that
      itself survives the pass are erased. The class tested is the one at the sorted position. */
  ghost predicate PassUpTo(order0: seq<int>, before: seq<int>, after: seq<int>, boxes: seq<Box>, classIds: seq<int>,
                           threshold: real, filterId: int, k: int) {
    IsPermutation(order0, |boxes|) && |before| == |after| == |boxes| == |classIds|
    && forall j :: 0 <= j < |after| ==>
         after[j] == if Beaten(order0, after, boxes, classIds, threshold, filterId, j, k) then -1 else before[j]
  }

  /** The inner loop of `nms`: entry i erases exactly the later ones it overlaps. */
  method EraseFor(boxes: seq<Box>, order: array<int>, i: int, threshold: real, ghost order0: seq<int>)
    requires order.Length == |boxes| && 0 <= i < |boxes| && order[i] != -1
    requires Fewer(order0, order[..]) && IsPermutation(order0, |boxes|)
    modifies order
    ensures Fewer(order0, order[..])
    ensures forall j :: 0 <= j < |boxes| ==>
              order[j] == if j > i && Over(order0, boxes, threshold, i, j) then -1 else old(order[j])
  {
    var n := order[i];
    for j := i + 1 to |boxes|
      invariant Fewer(order0, order[..])
      invariant forall k :: 0 <= k < |boxes| ==>
                  order[k] == if i < k < j && Over(order0, boxes, threshold, i, k) then -1 else old(order[k])
    {
      var m := order[j];
      if m != -1 && Overlap(boxes[n], boxes[m]) > threshold {
        order[j] := -1;
      }
    }
  }

  lemma PassStep(order0: seq<int>, before: seq<int>, now: seq<int>, after: seq<int>, boxes: seq<Box>,
                 classIds: seq<int>, threshold: real, filterId: int, i: int)
    requires PassUpTo(order0, before, now, boxes, classIds, threshold, filterId, i) && 0 <= i < |boxes| == |after|
    requires if now[i] != -1 && classIds[i] == filterId
             then forall j :: 0 <= j < |boxes| ==>
                    after[j] == if j > i && Over(order0, boxes, threshold, i, j) then -1 else now[j]
             else after == now
    ensures PassUpTo(order0, before, after, boxes, classIds, threshold, filterId, i + 1)
  {
    assert forall k :: 0 <= k <= i ==> after[k] == now[k];
    forall j | 0 <= j < |boxes|
      ensures Beaten(order0, after, boxes, classIds, threshold, filterId, j, i + 1)
              <==> Beaten(order0, now, boxes, classIds, threshold, filterId, j, i)
                   || (i < j && classIds[i] == filterId && now[i] != -1 && Over(order0, boxes, threshold, i, j))
    {
    }
  }

  /** `nms` for one class id. */
  method Nms(boxes: seq<Box>, classIds: seq<int>, order: array<int>, filterId: int, threshold: real,
             ghost order0: seq<int>)
    requires order.Length == |boxes| == |classIds| && Fewer(order0, order[..]) && IsPermutation(order0, |boxes|)
    modifies order
    ensures Fewer(order0, order[..])
    ensures PassUpTo(order0, old(order[..]), order[..], boxes, classIds, threshold, filterId, |boxes|)
  {
    ghost var before := order[..];
    for i := 0 to |boxes|
      invariant Fewer(order0, order[..])
      invariant PassUpTo(order0, before, order[..], boxes, classIds, threshold, filterId, i)
    {
      ghost var now := order[..];
      if order[i] != -1 && classIds[i] == filterId {
        EraseFor(boxes, order, i, threshold, order0);
      }
      PassStep(order0, before, now, order[..], boxes, classIds, threshold, filterId, i);
    }
  }

  /** The passes made so far are effective: what a class's survivors overlap is gone. */
  ghost predicate Passed(order0: seq<int>, order: seq<int>, boxes: seq<Box>, classIds: seq<int>, threshold: real,
                         done: seq<int>) {
    IsPermutation(order0, |boxes|) && |order| == |boxes| == |classIds|
    && forall i :: 0 <= i < |order| && classIds[i] in done ==> Cleared(order0, order, boxes, threshold, i)
  }

  /** A pass keeps the erasures justified and makes its class effective. */
  lemma PassEffect(order0: seq<int>, before: seq<int>, after: seq<int>, boxes: seq<Box>, classIds: seq<int>,
                   threshold: real, filterId: int, done: seq<int>)
    requires PassUpTo(order0, before, after, boxes, classIds, threshold, filterId, |boxes|)
    requires Erased(order0, before, boxes, threshold) && Passed(order0, before, boxes, classIds, threshold, done)
    ensures Erased(order0, after, boxes, threshold)
    ensures Passed(order0, after, boxes, classIds, threshold, done + [filterId])
  {
    forall i | 0 <= i < |after| && classIds[i] in done + [filterId]
      ensures Cleared(order0, after, boxes, threshold, i)
    {
      if classIds[i] == filterId && after[i] != -1 {
        forall j | i < j < |after| && after[j] != -1 ensures !Over(order0, boxes, threshold, i, j) {
          assert !Beaten(order0, after, boxes, classIds, threshold, filterId, j, |boxes|);
        }
      } else if after[i] != -1 {
        assert Cleared(order0, before, boxes, threshold, i);
      }
    }
  }

  /** The class ids that occur. */
  function ClassSet(classIds: seq<int>): (r: set<int>)
    ensures forall k :: 0 <= k < |classIds| ==> classIds[k] in r
  {
    set k | 0 <= k < |classIds| :: classIds[k]
  }

  /** A run of passes over ascending class ids, with the state after each. */
  ghost predicate Passes(order0: seq<int>, boxes: seq<Box>, classIds: seq<int>, threshold: real,
                         classes: seq<int>, states: seq<seq<int>>) {
    |states| == |classes| + 1 && states[0] == order0
    && (forall a, b :: 0 <= a < b < |classes| ==> classes[a] < classes[b])
    && forall a :: 0 <= a < |classes| ==>
         PassUpTo(order0, states[a], states[a + 1], boxes, classIds, threshold, classes[a], |boxes|)
  }

  /** The next class of the ordered set. */
  method Least(classes: set<int>, classIds: seq<int>) returns (c: int)
    requires classes != {} && forall d :: d in classes ==> d in classIds
    ensures c in classes && forall d :: d in classes ==> c <= d
  {
    var found := false;
    c := 0;
    for k := 0 to |classIds|
      invariant found ==> c in classes
      invariant forall a :: 0 <= a < k && classIds[a] in classes ==> found && c <= classIds[a]
    {
      if classIds[k] in classes && (!found || classIds[k] < c) { found, c := true, classIds[k]; }
    }
    assert (forall d :: d !in classes) ==> classes == {};
    assert found;
  }

  /** The classes passed so far are the smallest of all. */
  ghost predicate Divided(all: set<int>, passes: seq<int>, classes: set<int>) {
    (forall d :: d in all <==> d in passes || d in classes) && forall c, d :: c in passes && d in classes ==> c < d
  }

  lemma NextClass(all: set<int>, passes: seq<int>, classes: set<int>, c: int)
    requires Divided(all, passes, classes) && c in classes && forall d :: d in classes ==> c <= d
    ensures Divided(all, passes + [c], classes - {c}) && forall d :: d in passes ==> d < c
  {
  }

  /** One turn of the class loop. */
  method PassClass(boxes: seq<Box>, classIds: seq<int>, order: array<int>, c: int, threshold: real,
                   ghost order0: seq<int>,
                   ghost passes: seq<int>, ghost states: seq<seq<int>>)
    requires order.Length == |boxes| == |classIds| && Fewer(order0, order[..])
    requires Erased(order0, order[..], boxes, threshold)
    requires Passed(order0, order[..], boxes, classIds, threshold, passes)
    requires Passes(order0, boxes, classIds, threshold, passes, states) && states[|passes|] == order[..]
    requires forall d :: d in passes ==> d < c
    modifies order
    ensures Fewer(order0, order[..]) && Erased(order0, order[..], boxes, threshold)
    ensures Passed(order0, order[..], boxes, classIds, threshold, passes + [c])
    ensures Passes(order0, boxes, classIds, threshold, passes + [c], states + [order[..]])
  {
    ghost var before := order[..];
    Nms(boxes, classIds, order, c, threshold, order0);
    PassEffect(order0, before, order[..], boxes, classIds, threshold, c, passes);
    PassesPush(order0, boxes, classIds, threshold, passes, states, c, order[..]);
  }

  /** The class loop of `post_process`: one pass per class id that occurs, in ascending order. */
  method SuppressAll(boxes: seq<Box>, classIds: seq<int>, order: array<int>, threshold: real)
    returns (ghost passes: seq<int>, ghost states: seq<seq<int>>)
    requires order.Length == |boxes| == |classIds| && IsPermutation(order[..], |boxes|)
    modifies order
    ensures Passes(old(order[..]), boxes, classIds, threshold, passes, states)
    ensures states[|states| - 1] == order[..] && forall c :: c in passes <==> c in ClassSet(classIds)
    ensures Suppressed(old(order[..]), order[..], boxes, threshold)
  {
    ghost var order0 := order[..];
    var classes := ClassSet(classIds);
    passes, states := [], [order0];
    while classes != {}
      invariant Divided(ClassSet(classIds), passes, classes)
      invariant Passes(order0, boxes, classIds, threshold, passes, states) && states[|passes|] == order[..]
      invariant Fewer(order0, order[..]) && Erased(order0, order[..], boxes, threshold)
      invariant Passed(order0, order[..], boxes, classIds, threshold, passes)
    {
      var c := Least(classes, classIds);
      NextClass(ClassSet(classIds), passes, classes, c);
      PassClass(boxes, classIds, order, c, threshold, order0, passes, states);
      passes, states := passes + [c], states + [order[..]];
      classes := classes - {c};
    }
    assert forall i :: 0 <= i < |boxes| ==> classIds[i] in ClassSet(classIds);
  }

  lemma PassesPush(order0: seq<int>, boxes: seq<Box>, classIds: seq<int>, threshold: real,
                   passes: seq<int>, states: seq<seq<int>>, c: int, after: seq<int>)
    requires Passes(order0, boxes, classIds, threshold, passes, states) && forall d :: d in passes ==> d < c
    requires PassUpTo(order0, states[|passes|], after, boxes, classIds, threshold, c, |boxes|)
    ensures Passes(order0, boxes, classIds, threshold, passes + [c], states + [after])
  {
    var p, t := passes + [c], states + [after];
    forall a, b | 0 <= a < b < |p| ensures p[a] < p[b] { assert a < |passes| && passes[a] in passes; }
  }

  // ---- what suppression achieves ----------------------------------------------------

  /** Nothing is erased without a reason, and nothing a survivor overlaps too much is left. */
  ghost predicate Suppressed(order0: seq<int>, order: seq<int>, boxes: seq<Box>, threshold: real) {
    Erased(order0, order, boxes, threshold)
    && forall i :: 0 <= i < |order| ==> Cleared(order0, order, boxes, threshold, i)
  }

  /** Survivors overlap pairwise at most the threshold, whatever their classes. */
  lemma SurvivorsApart(order0: seq<int>, order: seq<int>, boxes: seq<Box>, threshold: real, i: int, j: int)
    requires Suppressed(order0, order, boxes, threshold)
    requires 0 <= i < j < |order| && order[i] != -1 && order[j] != -1
    ensures order[i] == order0[i] && order[j] == order0[j] && Overlap(boxes[order[i]], boxes[order[j]]) <= threshold
  {
    assert Cleared(order0, order, boxes, threshold, i);
    assert !Over(order0, boxes, threshold, i, j);
  }

  // ---- the passes in closed form ----------------------------------------------------------

  /** The entry at position i is still there when its own turn comes: no acting entry before it, of
      a class passed no later, overlaps it too much. */
  ghost predicate Acts(order0: seq<int>, boxes: seq<Box>, classIds: seq<int>, threshold: real, i: int)
    requires IsPermutation(order0, |boxes|) && |classIds| == |boxes| && 0 <= i < |boxes|
    decreases i
  {
    forall k :: 0 <= k < i && Over(order0, boxes, threshold, k, i) && classIds[k] <= classIds[i] ==>
      !Acts(order0, boxes, classIds, threshold, k)
  }

  /** An acting entry of a class up to c overlaps position j too much. */
  ghost predicate Struck(order0: seq<int>, boxes: seq<Box>, classIds: seq<int>, threshold: real, c: int, j: int)
    requires IsPermutation(order0, |boxes|) && |classIds| == |boxes| && 0 <= j < |boxes|
  {
    exists i :: 0 <= i < j && Over(order0, boxes, threshold, i, j) && classIds[i] <= c
                && Acts(order0, boxes, classIds, threshold, i)
  }

  /** Whether a box suppresses boxes of every class or only of its own. */
  datatype Rule = AnyClass | OwnClass

  /** The box at position i may suppress the one at j. */
  ghost predicate Rivals(order0: seq<int>, boxes: seq<Box>, classIds: seq<int>, threshold: real, rule: Rule,
                         i: int, j: int)
    requires IsPermutation(order0, |boxes|) && |classIds| == |boxes| && 0 <= i < j < |boxes|
  {
    Over(order0, boxes, threshold, i, j) && (rule.OwnClass? ==> classIds[order0[i]] == classIds[order0[j]])
  }

  /** Greedy suppression: kept unless a better kept rival overlaps it too much. */
  ghost predicate Greedy(order0: seq<int>, boxes: seq<Box>, classIds: seq<int>, threshold: real, rule: Rule, j: int)
    requires IsPermutation(order0, |boxes|) && |classIds| == |boxes| && 0 <= j < |boxes|
    decreases j
  {
    forall i :: 0 <= i < j && Rivals(order0, boxes, classIds, threshold, rule, i, j) ==>
      !Greedy(order0, boxes, classIds, threshold, rule, i)
  }

  /** The state holds what acting entries of classes up to c leave. */
  ghost predicate Leaves(order0: seq<int>, order: seq<int>, boxes: seq<Box>, classIds: seq<int>, threshold: real,
                         c: int) {
    IsPermutation(order0, |boxes|) && |order| == |classIds| == |boxes|
    && forall j :: 0 <= j < |boxes| ==>
         order[j] == if Struck(order0, boxes, classIds, threshold, c, j) then -1 else order0[j]
  }

  /** Within the pass of class c an entry of that class is there exactly if it acts. */
  lemma {:induction false} PassActs(order0: seq<int>, before: seq<int>, after: seq<int>, boxes: seq<Box>,
                                    classIds: seq<int>, threshold: real, b: int, c: int, j: int)
    requires Leaves(order0, before, boxes, classIds, threshold, b) && b < c && 0 <= j < |boxes|
    requires PassUpTo(order0, before, after, boxes, classIds, threshold, c, |boxes|)
    requires forall k :: 0 <= k < |classIds| && b < classIds[k] ==> c <= classIds[k]
    ensures after[j] == if Struck(order0, boxes, classIds, threshold, c, j) then -1 else order0[j]
    ensures classIds[j] == c ==> (after[j] != -1 <==> Acts(order0, boxes, classIds, threshold, j))
    decreases j
  {
    forall i | 0 <= i < j && classIds[i] == c
      ensures after[i] != -1 <==> Acts(order0, boxes, classIds, threshold, i)
    {
      PassActs(order0, before, after, boxes, classIds, threshold, b, c, i);
    }
    assert (Beaten(order0, after, boxes, classIds, threshold, c, j, |boxes|)
            || Struck(order0, boxes, classIds, threshold, b, j))
           <==> Struck(order0, boxes, classIds, threshold, c, j);
  }

  /** All passes together: a box goes exactly when an acting entry overlaps it too much. */
  lemma {:induction false} PassesLeave(order0: seq<int>, boxes: seq<Box>, classIds: seq<int>, threshold: real,
                                       passes: seq<int>, states: seq<seq<int>>, a: nat)
    requires Passes(order0, boxes, classIds, threshold, passes, states) && 0 < a <= |passes|
    requires IsPermutation(order0, |boxes|) && |classIds| == |boxes|
    requires forall k :: 0 <= k < |classIds| ==> classIds[k] in passes
    ensures Leaves(order0, states[a], boxes, classIds, threshold, passes[a - 1])
  {
    var c := passes[a - 1];
    var b := if a == 1 then c - 1 else passes[a - 2];
    if a == 1 {
      assert forall k :: 0 <= k < |classIds| ==> c <= classIds[k];
    } else {
      PassesLeave(order0, boxes, classIds, threshold, passes, states, a - 1);
    }
    forall k | 0 <= k < |classIds| && b < classIds[k] ensures c <= classIds[k] {
      var m :| 0 <= m < |passes| && passes[m] == classIds[k];
    }
    assert PassUpTo(order0, states[a - 1], states[a], boxes, classIds, threshold, c, |boxes|);
    forall j | 0 <= j < |boxes|
      ensures states[a][j] == if Struck(order0, boxes, classIds, threshold, c, j) then -1 else order0[j]
    {
      PassActs(order0, states[a - 1], states[a], boxes, classIds, threshold, b, c, j);
    }
  }

  /** The result of the class loop, for every input: box j goes exactly when an acting entry before
      it overlaps it too much. */
  lemma ClosedForm(order0: seq<int>, boxes: seq<Box>, classIds: seq<int>, threshold: real,
                   passes: seq<int>, states: seq<seq<int>>, j: int)
    requires Passes(order0, boxes, classIds, threshold, passes, states) && IsPermutation(order0, |boxes|)
    requires |classIds| == |boxes| && (forall k :: 0 <= k < |classIds| ==> classIds[k] in passes) && 0 <= j < |boxes|
    ensures |states[|passes|]| == |boxes|
    ensures states[|passes|][j] == -1
            <==> (exists i :: 0 <= i < j && Over(order0, boxes, threshold, i, j)
                              && Acts(order0, boxes, classIds, threshold, i))
  {
    assert classIds[j] in passes;
    PassesLeave(order0, boxes, classIds, threshold, passes, states, |passes|);
    var top := passes[|passes| - 1];
    forall k | 0 <= k < |classIds| ensures classIds[k] <= top {
      var m :| 0 <= m < |passes| && passes[m] == classIds[k];
    }
  }

  // ---- when that is greedy -----------------------------------------------------------------

  /** The state is greedy: a box is gone exactly when a better rival that stays overlaps it too much. */
  ghost predicate IsGreedy(order0: seq<int>, order: seq<int>, boxes: seq<Box>, classIds: seq<int>, threshold: real,
                           rule: Rule) {
    IsPermutation(order0, |boxes|) && |order| == |classIds| == |boxes|
    && forall j :: 0 <= j < |boxes| ==>
         (order[j] == -1 <==>
            exists i :: 0 <= i < j && order[i] != -1 && Rivals(order0, boxes, classIds, threshold, rule, i, j))
  }

  /** No entry that greedy suppression keeps is overlapped too much by an acting one before it. */
  ghost predicate NoUpset(order0: seq<int>, boxes: seq<Box>, classIds: seq<int>, threshold: real, rule: Rule)
    requires IsPermutation(order0, |boxes|) && |classIds| == |boxes|
  {
    forall i, j ::
      0 <= i < j < |boxes| && Over(order0, boxes, threshold, i, j)
      && Greedy(order0, boxes, classIds, threshold, rule, j) ==>
        !Acts(order0, boxes, classIds, threshold, i)
  }

  /** A greedy state keeps exactly what greedy suppression keeps. */
  lemma {:induction false} GreedyStates(order0: seq<int>, order: seq<int>, boxes: seq<Box>, classIds: seq<int>,
                                        threshold: real, rule: Rule, j: int)
    requires IsGreedy(order0, order, boxes, classIds, threshold, rule) && 0 <= j < |boxes|
    ensures order[j] != -1 <==> Greedy(order0, boxes, classIds, threshold, rule, j)
    decreases j
  {
    forall i | 0 <= i < j ensures order[i] != -1 <==> Greedy(order0, boxes, classIds, threshold, rule, i) {
      GreedyStates(order0, order, boxes, classIds, threshold, rule, i);
    }
  }

  /** The result of the class loop is greedy, across all classes or within each box's own, if and
      only if no entry kept by that rule is upset. */
  lemma GreedyIff(order0: seq<int>, boxes: seq<Box>, classIds: seq<int>, threshold: real, rule: Rule,
                  passes: seq<int>, states: seq<seq<int>>)
    requires Passes(order0, boxes, classIds, threshold, passes, states) && IsPermutation(order0, |boxes|)
    requires |classIds| == |boxes| > 0 && forall k :: 0 <= k < |classIds| ==> classIds[k] in passes
    ensures IsGreedy(order0, states[|passes|], boxes, classIds, threshold, rule)
            <==> NoUpset(order0, boxes, classIds, threshold, rule)
  {
    var order := states[|passes|];
    ClosedForm(order0, boxes, classIds, threshold, passes, states, 0);
    forall j | 0 <= j < |boxes|
      ensures order[j] == -1
              <==> (exists i :: 0 <= i < j && Over(order0, boxes, threshold, i, j)
                                && Acts(order0, boxes, classIds, threshold, i))
    {
      ClosedForm(order0, boxes, classIds, threshold, passes, states, j);
    }
    if IsGreedy(order0, order, boxes, classIds, threshold, rule) {
      forall i, j | 0 <= i < j < |boxes| && Over(order0, boxes, threshold, i, j)
                    && Greedy(order0, boxes, classIds, threshold, rule, j)
        ensures !Acts(order0, boxes, classIds, threshold, i)
      {
        GreedyStates(order0, order, boxes, classIds, threshold, rule, j);
      }
    }
    if NoUpset(order0, boxes, classIds, threshold, rule) {
      NoUpsetGreedy(order0, order, boxes, classIds, threshold, rule);
    }
  }

  lemma NoUpsetGreedy(order0: seq<int>, order: seq<int>, boxes: seq<Box>, classIds: seq<int>, threshold: real,
                      rule: Rule)
    requires IsPermutation(order0, |boxes|) && |order| == |classIds| == |boxes|
    requires NoUpset(order0, boxes, classIds, threshold, rule)
    requires forall j :: 0 <= j < |boxes| ==>
               (order[j] == -1 <==> (exists i :: 0 <= i < j && Over(order0, boxes, threshold, i, j)
                                                 && Acts(order0, boxes, classIds, threshold, i)))
    ensures IsGreedy(order0, order, boxes, classIds, threshold, rule)
  {
    forall j | 0 <= j < |boxes| ensures order[j] != -1 <==> Greedy(order0, boxes, classIds, threshold, rule, j) {
      if !Greedy(order0, boxes, classIds, threshold, rule, j) {
        var i :| 0 <= i < j && Rivals(order0, boxes, classIds, threshold, rule, i, j)
                 && Greedy(order0, boxes, classIds, threshold, rule, i);
        assert Acts(order0, boxes, classIds, threshold, i);
      }
    }
    forall j | 0 <= j < |boxes|
      ensures order[j] == -1 <==>
                exists i :: 0 <= i < j && order[i] != -1 && Rivals(order0, boxes, classIds, threshold, rule, i, j)
    {
      if order[j] == -1 {
        var i :| 0 <= i < j && Rivals(order0, boxes, classIds, threshold, rule, i, j)
                 && Greedy(order0, boxes, classIds, threshold, rule, i);
        assert order[i] != -1;
      }
    }
  }

  /** Along overlapping pairs the classes at the sorted positions ascend, and under the rule of own
      classes the boxes have one class. */
  ghost predicate SortedClasses(order0: seq<int>, boxes: seq<Box>, classIds: seq<int>, threshold: real, rule: Rule)
    requires IsPermutation(order0, |boxes|) && |classIds| == |boxes|
  {
    forall i, k :: 0 <= i < k < |boxes| && Over(order0, boxes, threshold, i, k) ==>
      classIds[i] <= classIds[k] && Rivals(order0, boxes, classIds, threshold, rule, i, k)
  }

  lemma {:induction false} SortedActs(order0: seq<int>, boxes: seq<Box>, classIds: seq<int>, threshold: real,
                                      rule: Rule, j: int)
    requires IsPermutation(order0, |boxes|) && |classIds| == |boxes| && 0 <= j < |boxes|
    requires SortedClasses(order0, boxes, classIds, threshold, rule)
    ensures Acts(order0, boxes, classIds, threshold, j) <==> Greedy(order0, boxes, classIds, threshold, rule, j)
    decreases j
  {
    forall i | 0 <= i < j
      ensures Acts(order0, boxes, classIds, threshold, i) <==> Greedy(order0, boxes, classIds, threshold, rule, i)
    {
      SortedActs(order0, boxes, classIds, threshold, rule, i);
    }
  }

  /** Ascending classes on overlapping pairs, one class in particular, give the greedy result. */
  lemma SortedClassesGreedy(order0: seq<int>, boxes: seq<Box>, classIds: seq<int>, threshold: real, rule: Rule,
                            passes: seq<int>, states: seq<seq<int>>)
    requires Passes(order0, boxes, classIds, threshold, passes, states) && IsPermutation(order0, |boxes|)
    requires |classIds| == |boxes| > 0 && forall k :: 0 <= k < |classIds| ==> classIds[k] in passes
    requires SortedClasses(order0, boxes, classIds, threshold, rule)
    ensures IsGreedy(order0, states[|passes|], boxes, classIds, threshold, rule)
  {
    forall i, j | 0 <= i < j < |boxes| && Over(order0, boxes, threshold, i, j)
                  && Greedy(order0, boxes, classIds, threshold, rule, j)
      ensures !Acts(order0, boxes, classIds, threshold, i)
    {
      SortedActs(order0, boxes, classIds, threshold, rule, i);
    }
    GreedyIff(order0, boxes, classIds, threshold, rule, passes, states);
  }

  // ---- inputs where classes mix ----------------------------------------------------------------

  /** Ten-by-ten boxes side by side, each sharing half with the next. */
  function Row(n: nat): seq<Box> {
    seq(n, k requires 0 <= k < n => Box(5.0 * (k as real), 0.0, 9.0, 9.0))
  }

  lemma RowOverlaps(n: nat, order0: seq<int>)
    requires 2 <= n <= 3 && order0 == seq(n, k => k)
    ensures IsPermutation(order0, |Row(n)|)
    ensures forall i, j :: 0 <= i < j < n ==> (Over(order0, Row(n), 0.3, i, j) <==> j == i + 1)
  {
    forall i, j | 0 <= i < j < n ensures Over(order0, Row(n), 0.3, i, j) <==> j == i + 1 {
      RowPair(Row(n)[i], Row(n)[j], i, j);
    }
  }

  lemma RowPair(p: Box, q: Box, i: int, j: int)
    requires 0 <= i < j < 3 && p == Box(5.0 * (i as real), 0.0, 9.0, 9.0) && q == Box(5.0 * (j as real), 0.0, 9.0, 9.0)
    ensures Overlap(p, q) > 0.3 <==> j == i + 1
  {
    assert Area(p) == 100.0 && Area(q) == 100.0 && Extent(p.y, p.h, q.y, q.h) == 10.0;
    assert Extent(p.x, p.w, q.x, q.w) == if j == i + 1 then 5.0 else 0.0;
    assert OverlapOf(5.0, 10.0, 100.0, 100.0) > 0.3 && OverlapOf(0.0, 10.0, 100.0, 100.0) == 0.0;
  }

  /** Classes do not separate: of two overlapping boxes of different classes the second goes. */
  lemma CrossClassWitness(passes: seq<int>, states: seq<seq<int>>)
    requires Passes([0, 1], Row(2), [0, 1], 0.3, passes, states) && 0 in passes && 1 in passes
    ensures |states[|passes|]| == 2 && states[|passes|][1] == -1
    ensures IsGreedy([0, 1], states[|passes|], Row(2), [0, 1], 0.3, AnyClass)
    ensures !IsGreedy([0, 1], states[|passes|], Row(2), [0, 1], 0.3, OwnClass)
  {
    var order0 := [0, 1];
    assert order0 == seq(2, k => k);
    RowOverlaps(2, order0);
    ClosedForm(order0, Row(2), [0, 1], 0.3, passes, states, 1);
    assert Over(order0, Row(2), 0.3, 0, 1) && Acts(order0, Row(2), [0, 1], 0.3, 0);
    assert SortedClasses(order0, Row(2), [0, 1], 0.3, AnyClass);
    SortedClassesGreedy(order0, Row(2), [0, 1], 0.3, AnyClass, passes, states);
  }

  /** And the result need not be greedy: the last of three boxes goes although nothing that stays
      overlaps it too much. */
  lemma LaterPassWitness(passes: seq<int>, states: seq<seq<int>>)
    requires Passes([0, 1, 2], Row(3), [1, 0, 0], 0.3, passes, states) && 0 in passes && 1 in passes
    ensures |states[|passes|]| == 3 && states[|passes|][1] == -1 && states[|passes|][2] == -1
    ensures !Over([0, 1, 2], Row(3), 0.3, 0, 2)
    ensures forall rule :: !IsGreedy([0, 1, 2], states[|passes|], Row(3), [1, 0, 0], 0.3, rule)
  {
    var order0, classes := [0, 1, 2], [1, 0, 0];
    assert order0 == seq(3, k => k);
    RowOverlaps(3, order0);
    assert Acts(order0, Row(3), classes, 0.3, 0);
    assert Acts(order0, Row(3), classes, 0.3, 1);
    assert Over(order0, Row(3), 0.3, 0, 1) && Over(order0, Row(3), 0.3, 1, 2);
    ClosedForm(order0, Row(3), classes, 0.3, passes, states, 1);
    ClosedForm(order0, Row(3), classes, 0.3, passes, states, 2);
  }

  /** Descending classes on an overlapping pair can still give the greedy result. */
  lemma UnsortedWitness(passes: seq<int>, states: seq<seq<int>>)
    requires Passes([0, 1], Row(2), [1, 0], 0.3, passes, states) && 0 in passes && 1 in passes
    ensures IsPermutation([0, 1], |Row(2)|) && !SortedClasses([0, 1], Row(2), [1, 0], 0.3, AnyClass)
    ensures |states| == |passes| + 1 && IsGreedy([0, 1], states[|passes|], Row(2), [1, 0], 0.3, AnyClass)
  {
    var order0 := [0, 1];
    assert order0 == seq(2, k => k);
    RowOverlaps(2, order0);
    assert Over(order0, Row(2), 0.3, 0, 1) && [1, 0][0] > [1, 0][1];
    GreedyIff(order0, Row(2), [1, 0], 0.3, AnyClass, passes, states);
    assert Greedy(order0, Row(2), [1, 0], 0.3, AnyClass, 0);
  }

  /** The class loop on a row of boxes. */
  method SuppressRow(classIds: seq<int>)
    returns (order: seq<int>, ghost order0: seq<int>, ghost passes: seq<int>, ghost states: seq<seq<int>>)
    requires 2 <= |classIds| <= 3
    ensures order0 == seq(|classIds|, k => k) && IsPermutation(order0, |classIds|)
    ensures Passes(order0, Row(|classIds|), classIds, 0.3, passes, states) && states[|passes|] == order
    ensures (forall k :: 0 <= k < |classIds| ==> classIds[k] in passes) && |order| == |classIds| && order[0] == 0
  {
    var n := |classIds|;
    RowOverlaps(n, seq(n, k => k));
    var a := new int[n](k => k);
    assert a[..] == seq(n, k => k);
    order0 := a[..];
    passes, states := SuppressAll(Row(n), classIds, a, 0.3);
    forall k | 0 <= k < n ensures classIds[k] in passes {
      var c := classIds[k];
      assert c in ClassSet(classIds) && c in passes;
    }
    order := a[..];
    assert order[0] == order0[0];
  }

  /** Both inputs, run through the class loop: the states after each pass, and what is left. */
  method MixedClasses()
    returns (two: seq<int>, three: seq<int>, ghost passes2: seq<int>, ghost states2: seq<seq<int>>,
             ghost passes3: seq<int>, ghost states3: seq<seq<int>>)
    ensures Passes([0, 1], Row(2), [0, 1], 0.3, passes2, states2) && 0 in passes2 && 1 in passes2
    ensures states2[|passes2|] == two == [0, -1]
    ensures Passes([0, 1, 2], Row(3), [1, 0, 0], 0.3, passes3, states3) && 0 in passes3 && 1 in passes3
    ensures states3[|passes3|] == three == [0, -1, -1]
  {
    ghost var order0;
    two, order0, passes2, states2 := SuppressRow([0, 1]);
    assert order0 == [0, 1] && [0, 1][0] in passes2 && [0, 1][1] in passes2;
    CrossClassWitness(passes2, states2);
    three, order0, passes3, states3 := SuppressRow([1, 0, 0]);
    assert order0 == [0, 1, 2] && [1, 0, 0][0] in passes3 && [1, 0, 0][1] in passes3;
    LaterPassWitness(passes3, states3);
  }

  /** A descending chain of positions, each overlapping the next too much. */
  ghost predicate Chain(order0: seq<int>, boxes: seq<Box>, threshold: real, p: seq<int>)
    requires IsPermutation(order0, |boxes|)
  {
    |p| > 0 && InRange(p, |boxes|)
    && forall t :: 0 <= t < |p| - 1 ==> p[t + 1] < p[t] && Over(order0, boxes, threshold, p[t + 1], p[t])
  }

  /** Every suppressed box leads, by over-threshold overlaps with better boxes, to a survivor. */
  lemma {:induction false} ChainToSurvivor(order0: seq<int>, order: seq<int>, boxes: seq<Box>, threshold: real, j: int)
    returns (p: seq<int>)
    requires Suppressed(order0, order, boxes, threshold) && 0 <= j < |order|
    ensures Chain(order0, boxes, threshold, p) && p[0] == j && order[p[|p| - 1]] != -1
    decreases j
  {
    if order[j] != -1 {
      p := [j];
    } else {
      var i :| 0 <= i < j && Over(order0, boxes, threshold, i, j);
      var q := ChainToSurvivor(order0, order, boxes, threshold, i);
      p := [j] + q;
    }
  }

  // ---- the output loop ----------------------------------------------------------------

  const OBJ_NUMB_MAX_SIZE: nat := 64

  /** How model coordinates map to the image: padding, model size, scale. */
  datatype View = View(left: real, top: real, width: nat, height: nat, scaleW: PositiveReal, scaleH: PositiveReal)

  type PositiveReal = x: real | x > 0.0 witness 1.0

  datatype Result = Result(left: int, top: int, right: int, bottom: int, cls: int, score: real)

  function Clamp(v: real, max: nat): nat {
    if v > 0.0 then (if v < max as real then v.Floor else max) else 0
  }

  /** The output box of a candidate, in image coordinates. */
  function Emit(b: Box, cls: int, score: real, v: View): Result {
    var x1, y1 := b.x - v.left, b.y - v.top;
    Result((Clamp(x1, v.width) as real / v.scaleW).Floor, (Clamp(y1, v.height) as real / v.scaleH).Floor,
           (Clamp(x1 + b.w, v.width) as real / v.scaleW).Floor, (Clamp(y1 + b.h, v.height) as real / v.scaleH).Floor,
           cls, score)
  }

  /** The whole pixel at or before v, kept within 0 and max. */
  ghost predicate Pixel(p: int, v: real, max: nat) {
    (v <= 0.0 ==> p == 0) && (v >= max as real ==> p == max)
    && (0.0 < v < max as real ==> p as real <= v < p as real + 1.0)
  }

  /** r is the last image coordinate whose model position is not behind the pixel of v. */
  ghost predicate Corner(r: int, v: real, max: nat, scale: PositiveReal) {
    exists p :: Pixel(p, v, max) && r as real * scale <= p as real < (r as real + 1.0) * scale
  }

  /** r reports candidate box b, corner by corner. */
  ghost predicate Placed(r: Result, b: Box, v: View) {
    Corner(r.left, b.x - v.left, v.width, v.scaleW) && Corner(r.right, b.x + b.w - v.left, v.width, v.scaleW)
    && Corner(r.top, b.y - v.top, v.height, v.scaleH) && Corner(r.bottom, b.y + b.h - v.top, v.height, v.scaleH)
  }

  lemma CornerOf(v: real, max: nat, scale: PositiveReal)
    ensures Corner((Clamp(v, max) as real / scale).Floor, v, max, scale)
  {
    var p := Clamp(v, max);
    assert Pixel(p, v, max);
    Quotient(p as real, scale);
  }

  lemma Quotient(x: real, scale: PositiveReal)
    ensures var r := (x / scale).Floor; r as real * scale <= x < (r as real + 1.0) * scale
  {
    var q := x / scale;
    var r := q.Floor;
    assert q * scale == x;
    Grows(r as real, q, scale);
    GrowsStrictly(q, r as real + 1.0, scale);
  }

  lemma Grows(a: real, b: real, scale: PositiveReal)
    requires a <= b
    ensures a * scale <= b * scale
  {
    var d := b - a;
    assert d * scale >= 0.0;
    assert b * scale == a * scale + d * scale;
  }

  lemma GrowsStrictly(a: real, b: real, scale: PositiveReal)
    requires a < b
    ensures a * scale < b * scale
  {
    var d := b - a;
    assert d * scale > 0.0;
    assert b * scale == a * scale + d * scale;
  }

  lemma EmitPlaces(b: Box, cls: int, score: real, v: View)
    ensures Placed(Emit(b, cls, score, v), b, v)
    ensures Emit(b, cls, score, v).cls == cls && Emit(b, cls, score, v).score == score
  {
    CornerOf(b.x - v.left, v.width, v.scaleW);
    CornerOf(b.y - v.top, v.height, v.scaleH);
    CornerOf(b.x - v.left + b.w, v.width, v.scaleW);
    CornerOf(b.y - v.top + b.h, v.height, v.scaleH);
    assert b.x - v.left + b.w == b.x + b.w - v.left && b.y - v.top + b.h == b.y + b.h - v.top;
  }

  /** The positions that survived, in order. */
  ghost function Survivors(order: seq<int>, k: nat): seq<int>
    requires k <= |order|
  {
    if k == 0 then []
    else Survivors(order, k - 1) + if order[k - 1] == -1 then [] else [k - 1]
  }

  lemma {:induction false} SurvivorsInRange(order: seq<int>, k: nat)
    requires k <= |order|
    ensures forall t :: 0 <= t < |Survivors(order, k)| ==>
              0 <= Survivors(order, k)[t] < k && order[Survivors(order, k)[t]] != -1
    ensures forall a, b :: 0 <= a < b < |Survivors(order, k)| ==> Survivors(order, k)[a] < Survivors(order, k)[b]
    ensures forall i :: 0 <= i < k && order[i] != -1 ==> i in Survivors(order, k)
  {
    if k > 0 { SurvivorsInRange(order, k - 1); }
  }

  /** The report after k positions: the first 64 survivors so far, box, class and score of each
      from one candidate. */
  ghost predicate Reported(order0: seq<int>, order: seq<int>, k: nat, boxes: seq<Box>, probs: seq<real>,
                           classIds: seq<int>, view: View, results: seq<Result>)
    requires k <= |order| == |boxes| == |probs| == |classIds| && IsPermutation(order0, |boxes|)
  {
    var kept := Survivors(order, k);
    |results| == (if |kept| < 64 then |kept| else 64)
    && forall t :: 0 <= t < |results| ==>
         0 <= kept[t] < |boxes|
         && var c := order0[kept[t]];
            results[t].cls == classIds[c] && results[t].score == probs[c] && Placed(results[t], boxes[c], view)
  }

  lemma {:induction false} FirstSurvivor(order: seq<int>, k: nat)
    requires 0 < k <= |order| && order[0] != -1
    ensures |Survivors(order, k)| > 0 && Survivors(order, k)[0] == 0
  {
    if k > 1 {
      FirstSurvivor(order, k - 1);
    } else {
      assert Survivors(order, 0) == [];
    }
  }

  /** The best-scoring box survives and is reported first. */
  lemma TopReported(order0: seq<int>, order: seq<int>, boxes: seq<Box>, probs: seq<real>, classIds: seq<int>,
                    threshold: real, view: View, results: seq<Result>)
    requires |boxes| > 0 && |boxes| == |probs| == |classIds| && Suppressed(order0, order, boxes, threshold)
    requires Reported(order0, order, |order|, boxes, probs, classIds, view, results)
    ensures |results| > 0 && results[0].cls == classIds[order0[0]] && results[0].score == probs[order0[0]]
    ensures Placed(results[0], boxes[order0[0]], view)
  {
    FirstSurvivor(order, |order|);
  }

  /** The output loop; scores are read by position, boxes and classes by candidate. */
  method Report(boxes: seq<Box>, probs: seq<real>, classIds: seq<int>, scores: seq<real>, order: seq<int>,
                view: View, threshold: real, ghost order0: seq<int>)
    returns (results: seq<Result>)
    requires |boxes| == |probs| == |classIds| && InStep(probs, scores, order0)
    requires Erased(order0, order, boxes, threshold)
    ensures Reported(order0, order, |order|, boxes, probs, classIds, view, results)
  {
    results := [];
    for i := 0 to |order|
      invariant Reported(order0, order, i, boxes, probs, classIds, view, results)
    {
      if order[i] != -1 && |results| < OBJ_NUMB_MAX_SIZE {
        var n := order[i];
        EmitPlaces(boxes[n], classIds[n], scores[i], view);
        results := results + [Emit(boxes[n], classIds[n], scores[i], view)];
      }
    }
  }

  /** The whole of `post_process` behind the decoder: sort, suppress, report. */
  method Finish(boxes: seq<Box>, probs: seq<real>, classIds: seq<int>, threshold: real, view: View)
    returns (results: seq<Result>, ghost order0: seq<int>, ghost order: seq<int>,
             ghost passes: seq<int>, ghost states: seq<seq<int>>)
    requires |boxes| == |probs| == |classIds|
    ensures IsPermutation(order0, |boxes|)
    ensures forall i, j :: 0 <= i < j < |boxes| ==> probs[order0[i]] >= probs[order0[j]]
    ensures Passes(order0, boxes, classIds, threshold, passes, states) && states[|states| - 1] == order
    ensures forall c :: c in passes <==> c in ClassSet(classIds)
    ensures Suppressed(order0, order, boxes, threshold)
    ensures Reported(order0, order, |order|, boxes, probs, classIds, view, results)
    ensures |results| <= 64 && (|boxes| > 0 ==> |results| > 0)
    ensures forall t :: 0 <= t < |results| ==>
              exists n :: 0 <= n < |boxes| && results[t].cls == classIds[n] && results[t].score == probs[n]
                          && Placed(results[t], boxes[n], view)
  {
    var scores, indexArray := SortCandidates(probs);
    order0 := indexArray[..];
    ghost var sorted := scores[..];
    passes, states := SuppressAll(boxes, classIds, indexArray, threshold);
    order := indexArray[..];
    results := Report(boxes, probs, classIds, scores[..], indexArray[..], view, threshold, order0);
    if |boxes| > 0 { TopReported(order0, order, boxes, probs, classIds, threshold, view, results); }
  }

  method SortCandidates(probs: seq<real>) returns (scores: array<real>, indexArray: array<int>)
    ensures fresh(scores) && fresh(indexArray) && scores.Length == |probs| == indexArray.Length
    ensures InStep(probs, scores[..], indexArray[..]) && Descending(scores[..], 0, |probs| - 1)
  {
    var n := |probs|;
    scores := new real[n](i requires 0 <= i < n => probs[i]);
    indexArray := new int[n](i => i);
    assert scores[..] == probs;
    if n > 0 {
      ghost var lower, upper := Bounds(probs);
      QuickSort(scores, 0, n - 1, indexArray, probs, lower, upper);
    }
  }

  lemma Bounds(s: seq<real>) returns (lower: real, upper: real)
    requires |s| > 0
    ensures forall k :: 0 <= k < |s| ==> lower <= s[k] <= upper
  {
    if |s| == 1 {
      return s[0], s[0];
    }
    lower, upper := Bounds(s[..|s| - 1]);
    var x := s[|s| - 1];
    lower, upper := Min(lower, x), Max(upper, x);
  }
}
