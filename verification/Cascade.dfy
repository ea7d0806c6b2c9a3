/** matching_cascade: one minimum-cost round per track age, most recently seen tracks first. */
module Cascade {
  import opened Assignment
  import opened DeepAssignment

  /** One level: the tracks of one age against the detections the earlier levels left. */
  datatype Stage = Stage(level: int, tracks: seq<int>, dets: seq<int>, matches: seq<(int, int)>, rest: seq<int>)

  /** What the cascade works on; age[t] is the time since the last update of track t. */
  datatype Task = Task(f: CostFunction, max: real, age: seq<int>, tracks: seq<int>, dets: seq<int>)

  ghost predicate Proper(q: Task) {
    Priceable(q.f, q.tracks, q.dets) && q.max >= 0.0
    && Injective(q.tracks) && Injective(q.dets) && InRange(q.tracks, |q.age|)
  }

  ghost predicate GoodStage(q: Task, s: Stage)
    requires Proper(q)
  {
    (forall t :: t in s.tracks <==> t in q.tracks && q.age[t] == s.level + 1)
    && (forall d :: d in s.dets ==> d in q.dets)
    && Splits(s.dets, Seconds(s.matches), s.rest)
    && Priceable(q.f, s.tracks, s.dets) && CheapestWithin(q.f, q.max, s.tracks, s.dets, s.matches)
  }

  lemma WithinMax(f: CostFunction, max: real, tracks: seq<int>, dets: seq<int>, matches: seq<(int, int)>, t: int,
                  d: int)
    requires Priceable(f, tracks, dets) && CheapestWithin(f, max, tracks, dets, matches) && (t, d) in matches
    ensures t in tracks && d in dets && f.requires(t, d) && f(t, d) <= max
  {
    var c, sol :| ClippedCosts(c, f, max, tracks, dets) && Hungarian.CheapestFull(c, sol, |tracks|, |dets|)
                  && Kept(c, sol, max, tracks, dets, matches);
    var i :| 0 <= i < |tracks| && sol[i] >= 0 && t == tracks[i] && d == dets[sol[i]] && c[i][sol[i]] <= max;
    assert c[i][sol[i]] == Clip(f(tracks[i], dets[sol[i]]), max);
  }

  method OfAge(tracks: seq<int>, age: seq<int>, a: int) returns (s: seq<int>)
    requires InRange(tracks, |age|) && Injective(tracks)
    ensures Injective(s) && forall t :: t in s <==> t in tracks && age[t] == a
  {
    s := [];
    for k := 0 to |tracks|
      invariant Injective(s) && forall t :: t in s <==> t in tracks[..k] && age[t] == a
    {
      assert tracks[..k + 1] == tracks[..k] + [tracks[k]];
      if age[tracks[k]] == a {
        forall m | 0 <= m < |s| ensures s[m] != tracks[k] {
          assert s[m] in s && s[m] in tracks[..k];
        }
        s := s + [tracks[k]];
      }
    }
    assert tracks[..|tracks|] == tracks;
  }

  method NotIn(tracks: seq<int>, used: seq<int>) returns (s: seq<int>)
    requires Injective(tracks)
    ensures Injective(s) && forall t :: t in s <==> t in tracks && t !in used
  {
    s := [];
    for k := 0 to |tracks|
      invariant Injective(s) && forall t :: t in s <==> t in tracks[..k] && t !in used
    {
      assert tracks[..k + 1] == tracks[..k] + [tracks[k]];
      if tracks[k] !in used {
        forall m | 0 <= m < |s| ensures s[m] != tracks[k] {
          assert s[m] in s && s[m] in tracks[..k];
        }
        s := s + [tracks[k]];
      }
    }
    assert tracks[..|tracks|] == tracks;
  }

  /** The lists after the levels below `level`: detections are split, matched tracks are young
      enough and cheap enough. */
  ghost predicate Matched(q: Task, matches: seq<(int, int)>, ud: seq<int>, level: int)
    requires Proper(q)
  {
    Splits(q.dets, Seconds(matches), ud) && Injective(Firsts(matches))
    && (forall m :: m in matches ==> Allowed(q, m, level))
  }

  /** Levels [from, to) have nothing to do: no detection is left, or no track is of their age. */
  ghost predicate Quiet(q: Task, from: int, to: int, ud: seq<int>)
    requires InRange(q.tracks, |q.age|)
  {
    ud == [] || forall t :: t in q.tracks ==> !(from < q.age[t] <= to)
  }

  /** The trace explains the lists: the last stage, of a level below `level`, ran on what the
      earlier stages, of lower levels, had left, and its matches were appended to theirs. Levels
      without a stage had nothing to do. */
  ghost predicate Explained(q: Task, stages: seq<Stage>, matches: seq<(int, int)>, ud: seq<int>, level: int)
    requires Proper(q)
  {
    if |stages| == 0 then matches == [] && ud == q.dets && Quiet(q, 0, level, ud)
    else
      var s := stages[|stages| - 1];
      var k := |matches| - |s.matches|;
      0 <= s.level < level && GoodStage(q, s) && ud == s.rest && k >= 0 && matches[k..] == s.matches
      && Quiet(q, s.level + 1, level, ud)
      && Explained(q, stages[..|stages| - 1], matches[..k], s.dets, s.level)
  }

  ghost predicate Allowed(q: Task, m: (int, int), level: int)
    requires Proper(q)
  {
    m.0 in q.tracks && 1 <= q.age[m.0] <= level && q.f.requires(m.0, m.1) && q.f(m.0, m.1) <= q.max
  }

  lemma SecondsAppend(a: seq<(int, int)>, b: seq<(int, int)>)
    ensures Seconds(a + b) == Seconds(a) + Seconds(b) && Firsts(a + b) == Firsts(a) + Firsts(b)
  {
  }

  lemma SplitsAgain(all: seq<int>, a: seq<int>, rest: seq<int>, b: seq<int>, rest': seq<int>)
    requires Splits(all, a, rest) && Splits(rest, b, rest')
    ensures Splits(all, a + b, rest')
  {
    forall i, j | 0 <= i < |a| && 0 <= j < |b| ensures a[i] != b[j] { assert a[i] in a && b[j] in b; }
  }

  lemma MatchedStep(q: Task, matches: seq<(int, int)>, ud: seq<int>, level: int, s: Stage)
    requires Proper(q) && level >= 0 && Matched(q, matches, ud, level)
    requires GoodStage(q, s) && s.level == level && s.dets == ud && Injective(Firsts(s.matches))
    ensures Matched(q, matches + s.matches, s.rest, level + 1)
  {
    SecondsAppend(matches, s.matches);
    SplitsAgain(q.dets, Seconds(matches), ud, Seconds(s.matches), s.rest);
    forall m | m in s.matches ensures Allowed(q, m, level + 1) && q.age[m.0] == level + 1 {
      WithinMax(q.f, q.max, s.tracks, s.dets, s.matches, m.0, m.1);
    }
    forall m | m in matches ensures Allowed(q, m, level + 1) { assert Allowed(q, m, level); }
    forall i, j | 0 <= i < |matches| && 0 <= j < |s.matches| ensures matches[i].0 != s.matches[j].0 {
      assert matches[i] in matches && s.matches[j] in s.matches;
      assert Allowed(q, matches[i], level);
    }
  }

  lemma ExplainedStep(q: Task, stages: seq<Stage>, matches: seq<(int, int)>, ud: seq<int>, level: int, s: Stage)
    requires Proper(q) && level >= 0 && Explained(q, stages, matches, ud, level)
    requires GoodStage(q, s) && s.level == level && s.dets == ud
    ensures Explained(q, stages + [s], matches + s.matches, s.rest, level + 1)
  {
    assert (stages + [s])[..|stages|] == stages;
    var m := matches + s.matches;
    assert m[|matches|..] == s.matches && m[..|matches|] == matches;
  }

  lemma SkipLevel(q: Task, stages: seq<Stage>, matches: seq<(int, int)>, ud: seq<int>, level: int, level': int)
    requires Proper(q) && Matched(q, matches, ud, level) && Explained(q, stages, matches, ud, level) && level <= level'
    requires Quiet(q, level, level', ud)
    ensures Matched(q, matches, ud, level') && Explained(q, stages, matches, ud, level')
  {
    forall m | m in matches ensures Allowed(q, m, level') { assert Allowed(q, m, level); }
  }

  /** One level of the loop. */
  method Level(q: Task, level: int, matches0: seq<(int, int)>, ud0: seq<int>, ghost stages0: seq<Stage>)
    returns (matches: seq<(int, int)>, ud: seq<int>, ghost stages: seq<Stage>)
    requires Proper(q) && level >= 0 && Matched(q, matches0, ud0, level) && Explained(q, stages0, matches0, ud0, level)
    ensures Matched(q, matches, ud, level + 1) && Explained(q, stages, matches, ud, level + 1)
  {
    matches, ud, stages := matches0, ud0, stages0;
    var tracksL := OfAge(q.tracks, q.age, 1 + level);
    if |tracksL| == 0 {
      SkipLevel(q, stages, matches, ud, level, level + 1);
      return;
    }
    PriceableSub(q.f, q.tracks, q.dets, tracksL, ud);
    var m;
    m, ud := RunLevel(q, level, tracksL, ud0);
    ghost var s := Stage(level, tracksL, ud0, m, ud);
    MatchedStep(q, matches, ud0, level, s);
    ExplainedStep(q, stages, matches, ud0, level, s);
    matches, stages := matches + m, stages + [s];
  }

  method RunLevel(q: Task, level: int, tracksL: seq<int>, ud0: seq<int>) returns (m: seq<(int, int)>, ud: seq<int>)
    requires Proper(q) && Injective(tracksL) && Injective(ud0) && Priceable(q.f, tracksL, ud0)
    requires (forall t :: t in tracksL <==> t in q.tracks && q.age[t] == level + 1)
    requires forall d :: d in ud0 ==> d in q.dets
    ensures GoodStage(q, Stage(level, tracksL, ud0, m, ud)) && Injective(Firsts(m))
  {
    var ut;
    m, ut, ud := MinCostMatching(q.f, q.max, tracksL, ud0);
  }

  /** `matching_cascade`. */
  method MatchingCascade(q: Task, depth: int)
    returns (matches: seq<(int, int)>, ut: seq<int>, ud: seq<int>, ghost stages: seq<Stage>)
    requires Proper(q)
    ensures var bound := if depth > 0 then depth else 0;
            Matched(q, matches, ud, bound) && Explained(q, stages, matches, ud, bound)
    ensures Splits(q.tracks, Firsts(matches), ut)
  {
    ud, matches, stages := q.dets, [], [];
    var level := 0;
    assert Seconds(matches) == [];
    while level < depth && |ud| != 0
      invariant 0 <= level && (level <= depth || level == 0)
      invariant Matched(q, matches, ud, level) && Explained(q, stages, matches, ud, level)
      decreases depth - level
    {
      matches, ud, stages := Level(q, level, matches, ud, stages);
      level := level + 1;
    }
    ghost var bound := if depth > 0 then depth else 0;
    SkipLevel(q, stages, matches, ud, level, bound);
    ut := NotIn(q.tracks, Firsts(matches));
    MatchedTracks(q, matches, ud, bound);
  }

  lemma MatchedTracks(q: Task, matches: seq<(int, int)>, ud: seq<int>, level: int)
    requires Proper(q) && Matched(q, matches, ud, level)
    ensures forall t :: t in Firsts(matches) ==> t in q.tracks
  {
    forall t | t in Firsts(matches) ensures t in q.tracks {
      var k :| 0 <= k < |matches| && matches[k].0 == t;
      assert Allowed(q, matches[k], level);
    }
  }
}
