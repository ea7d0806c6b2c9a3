/** tracker.cpp: the DeepSORT tracker as a state machine of predict and update. */
module DeepTracker {
  import opened Assignment
  import opened DeepAssignment
  import opened Cascade
  import opened DeepTracks

  ghost predicate ProperSight(see: Sight) {
    (forall s, t, d :: see.gated(s, t, d) >= 0.0) && forall t, d :: see.overlap(t, d) >= 0.0
  }

  ghost predicate AscendingIds(tracks: seq<Track>, below: int) {
    (forall i, j :: 0 <= i < j < |tracks| ==> tracks[i].id < tracks[j].id)
    && forall i :: 0 <= i < |tracks| ==> 1 <= tracks[i].id < below
  }

  /** Between calls a track is tentative, with one feature per hit, or confirmed, with its
      features handed to the gallery. */
  ghost predicate Sane(t: Track, nInit: int, maxAge: int) {
    t.nInit == nInit && t.maxAge == maxAge
    && ((t.state == Tentative && 1 <= t.hits < nInit && |t.features| == t.hits)
        || (t.state == Confirmed && t.features == []))
  }

  ghost function ConfirmedIds(tracks: seq<Track>): set<int> {
    set i | 0 <= i < |tracks| && tracks[i].state == Confirmed :: tracks[i].id
  }

  ghost predicate Consistent(tracks: seq<Track>, samples: Samples, nextIdx: int, nInit: int, maxAge: int, budget: int) {
    AscendingIds(tracks, nextIdx)
    && (forall i :: 0 <= i < |tracks| ==> Sane(tracks[i], nInit, maxAge))
    && samples.Keys == ConfirmedIds(tracks)
    && forall key :: key in samples ==> 1 <= |samples[key]| <= budget
  }

  // ---- _match ------------------------------------------------------------------------

  /** The gated appearance cost; the gallery lookup needs the id of a confirmed track. */
  function AppearanceCost(tracks: seq<Track>, samples: Samples, dets: seq<Detection>, see: Sight): CostFunction {
    (t: int, d: int) requires 0 <= t < |tracks| && 0 <= d < |dets| && tracks[t].id in samples =>
      see.gated(samples[tracks[t].id], tracks[t], dets[d])
  }

  /** The IoU cost, at its cap for tracks not seen in the last frame. */
  function OverlapCost(tracks: seq<Track>, dets: seq<Detection>, see: Sight): CostFunction {
    (t: int, d: int) requires 0 <= t < |tracks| && 0 <= d < |dets| =>
      if tracks[t].sinceUpdate > 1 then INFTY_COST else see.overlap(tracks[t], dets[d])
  }

  const INFTY_COST: real := 100000.0

  ghost predicate AllOf(s: seq<int>, n: nat) {
    Injective(s) && forall k :: k in s <==> 0 <= k < n
  }

  method Indices(n: nat) returns (s: seq<int>)
    ensures AllOf(s, n)
  {
    s := [];
    for i := 0 to n
      invariant AllOf(s, i)
    {
      assert forall k :: 0 <= k < |s| ==> s[k] in s;
      s := s + [i];
    }
  }

  method ByState(tracks: seq<Track>) returns (confirmed: seq<int>, unconfirmed: seq<int>)
    ensures Injective(confirmed) && forall t :: t in confirmed <==> 0 <= t < |tracks| && tracks[t].state == Confirmed
    ensures Injective(unconfirmed)
    ensures forall t :: t in unconfirmed <==> 0 <= t < |tracks| && tracks[t].state != Confirmed
  {
    confirmed, unconfirmed := [], [];
    for i := 0 to |tracks|
      invariant Injective(confirmed) && forall t :: t in confirmed <==> 0 <= t < i && tracks[t].state == Confirmed
      invariant Injective(unconfirmed) && forall t :: t in unconfirmed <==> 0 <= t < i && tracks[t].state != Confirmed
    {
      assert forall k :: 0 <= k < |confirmed| ==> confirmed[k] in confirmed;
      assert forall k :: 0 <= k < |unconfirmed| ==> unconfirmed[k] in unconfirmed;
      if tracks[i].state == Confirmed { confirmed := confirmed + [i]; } else { unconfirmed := unconfirmed + [i]; }
    }
  }

  /** Tracks last seen one frame ago get a second chance by IoU. */
  method SecondChance(tracks: seq<Track>, ut: seq<int>) returns (candidates: seq<int>, rest: seq<int>)
    requires InRange(ut, |tracks|) && Injective(ut)
    ensures Splits(ut, candidates, rest) && InRange(candidates, |tracks|)
    ensures forall t :: t in candidates ==> tracks[t].sinceUpdate == 1
    ensures forall t :: t in rest ==> 0 <= t < |tracks| && tracks[t].sinceUpdate != 1
  {
    candidates, rest := [], [];
    for k := 0 to |ut|
      invariant Splits(ut[..k], candidates, rest) && InRange(candidates, |tracks|)
      invariant forall t :: t in candidates ==> tracks[t].sinceUpdate == 1
      invariant forall t :: t in rest ==> 0 <= t < |tracks| && tracks[t].sinceUpdate != 1
    {
      SplitsPush(ut, k, candidates, rest);
      if tracks[ut[k]].sinceUpdate == 1 { candidates := candidates + [ut[k]]; } else { rest := rest + [ut[k]]; }
    }
    assert ut[..|ut|] == ut;
  }

  lemma SplitsPush(all: seq<int>, k: nat, a: seq<int>, b: seq<int>)
    requires Injective(all) && k < |all| && Splits(all[..k], a, b)
    ensures Splits(all[..k + 1], a + [all[k]], b) && Splits(all[..k + 1], a, b + [all[k]])
  {
    assert all[..k + 1] == all[..k] + [all[k]];
    assert all[k] !in all[..k];
    forall m | 0 <= m < |a| ensures a[m] != all[k] { assert a[m] in a; }
    forall m | 0 <= m < |b| ensures b[m] != all[k] { assert b[m] in b; }
  }

  /** Putting the two rounds together. */
  lemma SplitsJoin(all: seq<int>, confirmed: seq<int>, unconfirmed: seq<int>, fa: seq<int>, ua: seq<int>,
                   cand: seq<int>, rest: seq<int>, fb: seq<int>, ub: seq<int>)
    requires Splits(all, confirmed, unconfirmed) && Splits(confirmed, fa, ua) && Splits(ua, cand, rest)
    requires Splits(unconfirmed + cand, fb, ub)
    ensures Splits(all, fa + fb, rest + ub)
  {
    assert forall x :: x in unconfirmed + cand <==> x in unconfirmed || x in cand;
    forall i, j | 0 <= i < |fa| && 0 <= j < |fb| ensures fa[i] != fb[j] { assert fa[i] in fa && fb[j] in fb; }
    forall i, j | 0 <= i < |rest| && 0 <= j < |ub| ensures rest[i] != ub[j] { assert rest[i] in rest && ub[j] in ub; }
  }

  /** A match of the cascade: a confirmed track whose gallery entry was near enough. */
  ghost predicate ByAppearance(tracks: seq<Track>, samples: Samples, dets: seq<Detection>, see: Sight,
                               maxCosine: real, m: (int, int)) {
    0 <= m.0 < |tracks| && 0 <= m.1 < |dets| && tracks[m.0].state == Confirmed && tracks[m.0].id in samples
    && see.gated(samples[tracks[m.0].id], tracks[m.0], dets[m.1]) <= maxCosine
  }

  /** A match of the second round. */
  ghost predicate ByOverlap(tracks: seq<Track>, dets: seq<Detection>, see: Sight, maxIou: real, m: (int, int)) {
    0 <= m.0 < |tracks| && 0 <= m.1 < |dets|
    && (if tracks[m.0].sinceUpdate > 1 then 100000.0 else see.overlap(tracks[m.0], dets[m.1])) <= maxIou
  }

  ghost predicate SplitsRange(n: nat, a: seq<int>, b: seq<int>) {
    Injective(a) && Injective(b) && (forall x :: x in a ==> x !in b)
    && forall x :: 0 <= x < n <==> x in a || x in b
  }

  lemma AppearancePriceable(tracks: seq<Track>, samples: Samples, dets: seq<Detection>, see: Sight,
                            confirmed: seq<int>, all: seq<int>)
    requires ProperSight(see) && AllOf(all, |dets|) && samples.Keys == ConfirmedIds(tracks)
    requires forall t :: t in confirmed ==> 0 <= t < |tracks| && tracks[t].state == Confirmed
    ensures Priceable(AppearanceCost(tracks, samples, dets, see), confirmed, all)
  {
    var f := AppearanceCost(tracks, samples, dets, see);
    forall i, j | 0 <= i < |confirmed| && 0 <= j < |all|
      ensures f.requires(confirmed[i], all[j]) && f(confirmed[i], all[j]) >= 0.0
    {
      assert confirmed[i] in confirmed && all[j] in all;
      assert tracks[confirmed[i]].id in ConfirmedIds(tracks);
    }
  }

  lemma OverlapPriceable(tracks: seq<Track>, dets: seq<Detection>, see: Sight, cand: seq<int>, ud: seq<int>)
    requires ProperSight(see)
    requires (forall t :: t in cand ==> 0 <= t < |tracks|) && forall d :: d in ud ==> 0 <= d < |dets|
    ensures Priceable(OverlapCost(tracks, dets, see), cand, ud)
  {
    var f := OverlapCost(tracks, dets, see);
    forall i, j | 0 <= i < |cand| && 0 <= j < |ud| ensures f.requires(cand[i], ud[j]) && f(cand[i], ud[j]) >= 0.0 {
      assert cand[i] in cand && ud[j] in ud;
    }
  }

  lemma MeansAppearance(tracks: seq<Track>, samples: Samples, dets: seq<Detection>, see: Sight, maxCosine: real,
                        m: (int, int))
    requires var f := AppearanceCost(tracks, samples, dets, see); f.requires(m.0, m.1) && f(m.0, m.1) <= maxCosine
    requires 0 <= m.0 < |tracks| && 0 <= m.1 < |dets| && tracks[m.0].state == Confirmed && tracks[m.0].id in samples
    ensures ByAppearance(tracks, samples, dets, see, maxCosine, m)
  {
  }

  /** The appearance round of `_match`: the cascade over the confirmed tracks. */
  method AppearanceRound(tracks: seq<Track>, samples: Samples, dets: seq<Detection>, see: Sight,
                         maxCosine: real, maxAge: int, confirmed: seq<int>, all: seq<int>)
    returns (matches: seq<(int, int)>, ut: seq<int>, ud: seq<int>, ghost q: Task, ghost stages: seq<Stage>)
    requires ProperSight(see) && AllOf(all, |dets|) && samples.Keys == ConfirmedIds(tracks) && maxCosine >= 0.0
    requires Injective(confirmed) && forall t :: t in confirmed ==> 0 <= t < |tracks| && tracks[t].state == Confirmed
    ensures q.f == AppearanceCost(tracks, samples, dets, see) && q.max == maxCosine && q.tracks == confirmed
    ensures q.dets == all
    ensures |q.age| == |tracks| && forall t :: 0 <= t < |tracks| ==> q.age[t] == tracks[t].sinceUpdate
    ensures Proper(q) && Explained(q, stages, matches, ud, if maxAge > 0 then maxAge else 0)
    ensures Splits(confirmed, Firsts(matches), ut) && Splits(all, Seconds(matches), ud)
    ensures forall m :: m in matches ==> ByAppearance(tracks, samples, dets, see, maxCosine, m)
  {
    var age := seq(|tracks|, i requires 0 <= i < |tracks| => tracks[i].sinceUpdate);
    AppearancePriceable(tracks, samples, dets, see, confirmed, all);
    var task := Task(AppearanceCost(tracks, samples, dets, see), maxCosine, age, confirmed, all);
    assert InRange(confirmed, |age|) by {
      forall i | 0 <= i < |confirmed| ensures 0 <= confirmed[i] < |age| { assert confirmed[i] in confirmed; }
    }
    q := task;
    matches, ut, ud, stages := MatchingCascade(task, maxAge);
    ghost var bound := if maxAge > 0 then maxAge else 0;
    forall m | m in matches ensures ByAppearance(tracks, samples, dets, see, maxCosine, m) {
      assert Allowed(q, m, bound);
      var k :| 0 <= k < |matches| && matches[k] == m;
      assert Seconds(matches)[k] in Seconds(matches) && m.1 in all;
      assert tracks[m.0].id in ConfirmedIds(tracks);
      MeansAppearance(tracks, samples, dets, see, maxCosine, m);
    }
  }

  /** The IoU round of `_match`. */
  method OverlapRound(tracks: seq<Track>, dets: seq<Detection>, see: Sight, maxIou: real, cand: seq<int>, ud0: seq<int>)
    returns (matches: seq<(int, int)>, ut: seq<int>, ud: seq<int>)
    requires ProperSight(see) && maxIou >= 0.0 && Injective(cand) && Injective(ud0)
    requires (forall t :: t in cand ==> 0 <= t < |tracks|) && forall d :: d in ud0 ==> 0 <= d < |dets|
    ensures Splits(cand, Firsts(matches), ut) && Splits(ud0, Seconds(matches), ud)
    ensures var f := OverlapCost(tracks, dets, see);
            Priceable(f, cand, ud0) && CheapestWithin(f, maxIou, cand, ud0, matches)
    ensures forall m :: m in matches ==> ByOverlap(tracks, dets, see, maxIou, m)
  {
    OverlapPriceable(tracks, dets, see, cand, ud0);
    var f := OverlapCost(tracks, dets, see);
    matches, ut, ud := MinCostMatching(f, maxIou, cand, ud0);
    forall m | m in matches ensures ByOverlap(tracks, dets, see, maxIou, m) {
      assert m == (m.0, m.1);
      WithinMax(f, maxIou, cand, ud0, matches, m.0, m.1);
    }
  }

  /** How a call of `_match` went: the cascade's task and trace, its matches and the detections
      it left, then the candidates of the second round and the matches among them. */
  datatype Story = Story(q: Task, stages: seq<Stage>, first: seq<(int, int)>, left: seq<int>,
                         candidates: seq<int>, second: seq<(int, int)>)

  ghost predicate CascadeOf(tracks: seq<Track>, samples: Samples, dets: seq<Detection>, see: Sight, maxCosine: real,
                            maxAge: int, q: Task, stages: seq<Stage>, first: seq<(int, int)>, left: seq<int>) {
    q.f == AppearanceCost(tracks, samples, dets, see) && q.max == maxCosine
    && (forall t :: t in q.tracks <==> 0 <= t < |tracks| && tracks[t].state == Confirmed) && AllOf(q.dets, |dets|)
    && |q.age| == |tracks| && (forall t :: 0 <= t < |tracks| ==> q.age[t] == tracks[t].sinceUpdate)
    && Proper(q) && Explained(q, stages, first, left, if maxAge > 0 then maxAge else 0)
  }

  /** The two rounds: the appearance cascade over the confirmed tracks, then a cheapest IoU
      matching of what it left with the tracks not confirmed and the confirmed tracks that were
      seen in the last frame but not matched. */
  ghost predicate TwoRounds(tracks: seq<Track>, samples: Samples, dets: seq<Detection>, see: Sight, maxCosine: real,
                            maxIou: real, maxAge: int, matches: seq<(int, int)>, ud: seq<int>, s: Story) {
    CascadeOf(tracks, samples, dets, see, maxCosine, maxAge, s.q, s.stages, s.first, s.left)
    && (forall t :: t in s.candidates <==>
          0 <= t < |tracks| && (tracks[t].state != Confirmed || (t !in Firsts(s.first) && tracks[t].sinceUpdate == 1)))
    && var f := OverlapCost(tracks, dets, see);
       Priceable(f, s.candidates, s.left) && CheapestWithin(f, maxIou, s.candidates, s.left, s.second)
       && matches == s.first + s.second && Splits(s.left, Seconds(s.second), ud)
  }

  /** `_match`: every track and every detection ends up matched or unmatched, exactly once. */
  method Match(tracks: seq<Track>, samples: Samples, dets: seq<Detection>, see: Sight,
               maxCosine: real, maxIou: real, maxAge: int)
    returns (matches: seq<(int, int)>, ut: seq<int>, ud: seq<int>, ghost story: Story)
    requires ProperSight(see) && samples.Keys == ConfirmedIds(tracks) && maxCosine >= 0.0 && maxIou >= 0.0
    ensures SplitsRange(|tracks|, Firsts(matches), ut) && SplitsRange(|dets|, Seconds(matches), ud)
    ensures forall m :: m in matches ==>
              ByAppearance(tracks, samples, dets, see, maxCosine, m) || ByOverlap(tracks, dets, see, maxIou, m)
    ensures TwoRounds(tracks, samples, dets, see, maxCosine, maxIou, maxAge, matches, ud, story)
  {
    var confirmed, unconfirmed := ByState(tracks);
    var all := Indices(|dets|);
    var ma, uta, uda;
    ghost var q, stages;
    ma, uta, uda, q, stages := AppearanceRound(tracks, samples, dets, see, maxCosine, maxAge, confirmed, all);
    assert InRange(uta, |tracks|) by {
      forall i | 0 <= i < |uta| ensures 0 <= uta[i] < |tracks| { assert uta[i] in uta; }
    }
    var again, rest := SecondChance(tracks, uta);
    var cand := unconfirmed + again;
    Candidates(tracks, confirmed, unconfirmed, Firsts(ma), uta, again, rest);
    var mb, utb, udb := OverlapRound(tracks, dets, see, maxIou, cand, uda);
    matches, ut, ud := ma + mb, rest + utb, udb;
    SecondsAppend(ma, mb);
    SplitsAgain(all, Seconds(ma), uda, Seconds(mb), udb);
    Joined(|tracks|, confirmed, unconfirmed, Firsts(ma), uta, again, rest, Firsts(mb), utb);
    story := Story(q, stages, ma, uda, cand, mb);
  }

  lemma Candidates(tracks: seq<Track>, confirmed: seq<int>, unconfirmed: seq<int>, fa: seq<int>, ua: seq<int>,
                   again: seq<int>, rest: seq<int>)
    requires Injective(unconfirmed) && Splits(confirmed, fa, ua) && Splits(ua, again, rest)
    requires forall t :: t in confirmed ==> 0 <= t < |tracks| && tracks[t].state == Confirmed
    requires forall t :: t in unconfirmed ==> 0 <= t < |tracks| && tracks[t].state != Confirmed
    requires forall t :: 0 <= t < |tracks| ==> t in confirmed || t in unconfirmed
    requires (forall t :: t in again ==> tracks[t].sinceUpdate == 1)
    requires forall t :: t in rest ==> 0 <= t < |tracks| && tracks[t].sinceUpdate != 1
    ensures Injective(unconfirmed + again) && forall t :: t in unconfirmed + again ==> 0 <= t < |tracks|
    ensures forall t :: t in unconfirmed + again <==>
              0 <= t < |tracks| && (tracks[t].state != Confirmed || (t !in fa && tracks[t].sinceUpdate == 1))
  {
    forall i, j | 0 <= i < |unconfirmed| && 0 <= j < |again| ensures unconfirmed[i] != again[j] {
      assert unconfirmed[i] in unconfirmed && again[j] in again;
    }
  }

  lemma Joined(n: nat, confirmed: seq<int>, unconfirmed: seq<int>, fa: seq<int>, ua: seq<int>,
               cand: seq<int>, rest: seq<int>, fb: seq<int>, ub: seq<int>)
    requires SplitsRange(n, confirmed, unconfirmed) && Splits(confirmed, fa, ua) && Splits(ua, cand, rest)
    requires Splits(unconfirmed + cand, fb, ub)
    ensures SplitsRange(n, fa + fb, rest + ub)
  {
    var all := confirmed + unconfirmed;
    assert Splits(all, confirmed, unconfirmed);
    SplitsJoin(all, confirmed, unconfirmed, fa, ua, cand, rest, fb, ub);
    assert forall x :: x in all <==> x in confirmed || x in unconfirmed;
  }
}
