/** What the gallery holds for every track of every run. */
module GalleryRun {
  import opened Assignment
  import opened DeepAssignment
  import opened DeepTracks
  import opened DeepTracker
  import opened DeepMachine
  import opened Hungarian

  // ---- the record of a run ----------------------------------------------------------------

  /** For every id the features of the detection that started its track and of those that hit it,
      in order. */
  type Record = map<int, seq<Feature>>

  ghost predicate Pairing(t0: seq<Track>, matches: seq<(int, int)>, dets: seq<Detection>) {
    forall k :: 0 <= k < |matches| ==> 0 <= matches[k].0 < |t0| && 0 <= matches[k].1 < |dets|
  }

  ghost function RowsOf(h: Record, id: int): seq<Feature> {
    if id in h then h[id] else []
  }

  /** The record with the matches of an update. */
  ghost function WithHits(h: Record, t0: seq<Track>, matches: seq<(int, int)>, dets: seq<Detection>): Record
    requires Pairing(t0, matches, dets)
  {
    if matches == [] then h
    else
      var (i, d) := matches[|matches| - 1];
      var g := WithHits(h, t0, matches[..|matches| - 1], dets);
      g[t0[i].id := RowsOf(g, t0[i].id) + [dets[d].feature]]
  }

  /** And with the tracks it starts, from id0 on. */
  ghost function WithBirths(h: Record, ud: seq<int>, dets: seq<Detection>, id0: int): Record
    requires InRange(ud, |dets|)
  {
    if ud == [] then h
    else WithBirths(h, ud[..|ud| - 1], dets, id0)[id0 + |ud| - 1 := [dets[ud[|ud| - 1]].feature]]
  }

  /** The record holds what each track has seen: its hits count the rows, a tentative track
      carries them, and for a confirmed one the gallery holds what feeding it the rows one by
      one leaves. */
  ghost predicate Recorded(t: seq<Track>, samples: Samples, h: Record, budget: int) {
    budget >= 2 && forall i :: 0 <= i < |t| ==> RecordedTrack(t[i], samples, h, budget)
  }

  ghost predicate RecordedTrack(t: Track, samples: Samples, h: Record, budget: int)
    requires budget >= 2
  {
    t.id in h && |h[t.id]| == t.hits && t.hits >= 1
    && (t.state == Tentative ==> t.features == h[t.id])
    && (t.state == Confirmed ==> t.id in samples && samples[t.id] == Fed(h[t.id], budget))
  }

  /** Hits of other tracks leave the rows of a track alone. */
  lemma {:induction false} HitsSkip(h: Record, t0: seq<Track>, matches: seq<(int, int)>, dets: seq<Detection>,
                                    below: int, i: int)
    requires AscendingIds(t0, below) && Pairing(t0, matches, dets) && 0 <= i < |t0| && t0[i].id in h
    requires forall k :: 0 <= k < |matches| ==> matches[k].0 != i
    ensures t0[i].id in WithHits(h, t0, matches, dets) && WithHits(h, t0, matches, dets)[t0[i].id] == h[t0[i].id]
    decreases |matches|
  {
    if matches != [] {
      var n := |matches| - 1;
      HitsSkip(h, t0, matches[..n], dets, below, i);
      assert t0[matches[n].0].id != t0[i].id;
    }
  }

  /** A hit appends its feature to the rows of its track. */
  lemma {:induction false} HitsAppend(h: Record, t0: seq<Track>, matches: seq<(int, int)>, dets: seq<Detection>,
                                      below: int, k: nat)
    requires AscendingIds(t0, below) && Pairing(t0, matches, dets) && k < |matches| && t0[matches[k].0].id in h
    requires forall a, b :: 0 <= a < b < |matches| ==> matches[a].0 != matches[b].0
    ensures var id := t0[matches[k].0].id;
            id in WithHits(h, t0, matches, dets)
            && WithHits(h, t0, matches, dets)[id] == h[id] + [dets[matches[k].1].feature]
    decreases |matches|
  {
    var n := |matches| - 1;
    if k == n {
      HitsSkip(h, t0, matches[..n], dets, below, matches[n].0);
    } else {
      HitsAppend(h, t0, matches[..n], dets, below, k);
      assert matches[k].0 != matches[n].0 && t0[matches[k].0].id != t0[matches[n].0].id;
    }
  }

  /** A new track has the row it was started from; older ids keep theirs. */
  lemma {:induction false} BirthsWrite(h: Record, ud: seq<int>, dets: seq<Detection>, id0: int, id: int)
    requires InRange(ud, |dets|)
    ensures id0 <= id < id0 + |ud| ==>
              id in WithBirths(h, ud, dets, id0) && WithBirths(h, ud, dets, id0)[id] == [dets[ud[id - id0]].feature]
    ensures id in h && id < id0 ==> id in WithBirths(h, ud, dets, id0) && WithBirths(h, ud, dets, id0)[id] == h[id]
    decreases |ud|
  {
    if ud != [] {
      var n := |ud| - 1;
      BirthsWrite(h, ud[..n], dets, id0, id);
      assert id0 <= id < id0 + n ==> ud[..n][id - id0] == ud[id - id0];
    }
  }

  /** What one update does to the rows of a track that was there before it. */
  lemma HitOrMissed(t: Track, u: Track, rows: seq<Feature>, rows': seq<Feature>, before: Samples, after: Samples,
                    nInit: int, maxAge: int, budget: int, see: Sight, det: Detection, hit: bool)
    requires Sane(t, nInit, maxAge) && 2 <= nInit <= budget && |rows| == t.hits >= 1
    requires t.state == Tentative ==> t.features == rows && t.id !in before
    requires t.state == Confirmed ==> t.id in before && before[t.id] == Fed(rows, budget)
    requires if hit then u == Hit(t, det, see) && rows' == rows + [det.feature] else u == Missed(t) && rows' == rows
    requires u.state == Confirmed ==> FitKey(before, after, u.id, u.features, budget)
    ensures |rows'| == u.hits >= 1 && (u.state == Tentative ==> u.features == rows')
    ensures u.state == Confirmed ==> u.id in after && after[u.id] == Fed(rows', budget)
  {
    if u.state == Confirmed {
      if t.state == Tentative {
        FedHolds(rows', budget);
      } else if hit {
        assert rows'[..|rows|] == rows;
      }
    }
  }

  /** The record after an update. */
  ghost function AfterUpdate(h: Record, t0: seq<Track>, matches: seq<(int, int)>, ud: seq<int>, dets: seq<Detection>,
                             id0: int): Record
    requires Pairing(t0, matches, dets) && InRange(ud, |dets|)
  {
    WithBirths(WithHits(h, t0, matches, dets), ud, dets, id0)
  }

  /** Every outcome of an update is in the new record. */
  lemma OutcomeRecorded(t0: seq<Track>, before: Samples, id0: int, next: seq<Track>, after: Samples,
                        matches: seq<(int, int)>, ut: seq<int>, ud: seq<int>, dets: seq<Detection>, nInit: int,
                        maxAge: int, budget: nat, see: Sight, h: Record, i: int)
    requires Consistent(t0, before, id0, nInit, maxAge, budget) && Recorded(t0, before, h, budget)
    requires SplitsRange(|t0|, Firsts(matches), ut) && Follows(t0, next, matches, ut, ud, dets, id0, nInit, maxAge, see)
    requires Fitted(next, before, after, budget) && 2 <= nInit <= budget && 0 <= i < |next| && next[i].state != Deleted
    ensures RecordedTrack(next[i], after, AfterUpdate(h, t0, matches, ud, dets, id0), budget)
  {
    if i < |t0| {
      OldRecorded(t0, before, id0, next, after, matches, ut, ud, dets, nInit, maxAge, budget, see, h, i);
    } else {
      var k := i - |t0|;
      assert next[|t0| + k] == NewTrack(id0 + k, nInit, maxAge, dets[ud[k]], see);
      BirthsWrite(WithHits(h, t0, matches, dets), ud, dets, id0, id0 + k);
    }
  }

  lemma OldRecorded(t0: seq<Track>, before: Samples, id0: int, next: seq<Track>, after: Samples,
                    matches: seq<(int, int)>, ut: seq<int>, ud: seq<int>, dets: seq<Detection>, nInit: int,
                    maxAge: int, budget: nat, see: Sight, h: Record, i: int)
    requires Consistent(t0, before, id0, nInit, maxAge, budget) && Recorded(t0, before, h, budget)
    requires SplitsRange(|t0|, Firsts(matches), ut) && Follows(t0, next, matches, ut, ud, dets, id0, nInit, maxAge, see)
    requires Fitted(next, before, after, budget) && 2 <= nInit <= budget && 0 <= i < |t0| && next[i].state != Deleted
    ensures RecordedTrack(next[i], after, AfterUpdate(h, t0, matches, ud, dets, id0), budget)
  {
    var t := t0[i];
    assert RecordedTrack(t, before, h, budget) && Sane(t, nInit, maxAge);
    var hit, det := HitOf(t0, next, matches, ut, ud, dets, id0, nInit, maxAge, see, h, i);
    KeyOf(t0, before, id0, nInit, maxAge, budget, i);
    HitOrMissed(t, next[i], h[t.id], AfterUpdate(h, t0, matches, ud, dets, id0)[t.id], before, after, nInit, maxAge,
                budget, see, det, hit);
  }

  /** Whether an update hit track i, with which detection, and what it did to its rows. */
  lemma HitOf(t0: seq<Track>, next: seq<Track>, matches: seq<(int, int)>, ut: seq<int>, ud: seq<int>,
              dets: seq<Detection>, id0: int, nInit: int, maxAge: int, see: Sight, h: Record, i: int)
    returns (hit: bool, det: Detection)
    requires AscendingIds(t0, id0) && 0 <= i < |t0| && t0[i].id in h
    requires SplitsRange(|t0|, Firsts(matches), ut) && Follows(t0, next, matches, ut, ud, dets, id0, nInit, maxAge, see)
    ensures t0[i].id in AfterUpdate(h, t0, matches, ud, dets, id0)
    ensures var rows := AfterUpdate(h, t0, matches, ud, dets, id0)[t0[i].id];
            if hit then next[i] == Hit(t0[i], det, see) && rows == h[t0[i].id] + [det.feature]
            else next[i] == Missed(t0[i]) && rows == h[t0[i].id]
  {
    BirthsWrite(WithHits(h, t0, matches, dets), ud, dets, id0, t0[i].id);
    if i in ut {
      assert forall k :: 0 <= k < |matches| ==> Firsts(matches)[k] in Firsts(matches);
      HitsSkip(h, t0, matches, dets, id0, i);
      hit, det := false, Detection(t0[i].body, [], 0, 0.0);
    } else {
      assert i in Firsts(matches);
      var k :| 0 <= k < |matches| && Firsts(matches)[k] == i;
      forall a, b | 0 <= a < b < |matches| ensures matches[a].0 != matches[b].0 {
        assert Firsts(matches)[a] != Firsts(matches)[b];
      }
      HitsAppend(h, t0, matches, dets, id0, k);
      assert next[matches[k].0] == Hit(t0[matches[k].0], dets[matches[k].1], see);
      hit, det := true, dets[matches[k].1];
    }
  }

  lemma KeyOf(t0: seq<Track>, before: Samples, id0: int, nInit: int, maxAge: int, budget: int, i: int)
    requires Consistent(t0, before, id0, nInit, maxAge, budget) && 0 <= i < |t0|
    ensures t0[i].id in before <==> t0[i].state == Confirmed
  {
    if t0[i].id in before {
      var j :| 0 <= j < |t0| && t0[j].state == Confirmed && t0[j].id == t0[i].id;
      assert i == j;
    }
  }

  /** An update keeps the record. */
  lemma UpdateRecorded(t0: seq<Track>, before: Samples, id0: int, next: seq<Track>, t: seq<Track>, after: Samples,
                       matches: seq<(int, int)>, ut: seq<int>, ud: seq<int>, dets: seq<Detection>, nInit: int,
                       maxAge: int, budget: nat, see: Sight, h: Record)
    requires Consistent(t0, before, id0, nInit, maxAge, budget) && Recorded(t0, before, h, budget)
    requires SplitsRange(|t0|, Firsts(matches), ut) && Follows(t0, next, matches, ut, ud, dets, id0, nInit, maxAge, see)
    requires Fitted(next, before, after, budget) && 2 <= nInit <= budget
    requires forall x :: x in t <==> exists u :: u in next && u.state != Deleted && x == HandedOver(u)
    ensures Recorded(t, after, AfterUpdate(h, t0, matches, ud, dets, id0), budget)
  {
    var h' := AfterUpdate(h, t0, matches, ud, dets, id0);
    forall m | 0 <= m < |t| ensures RecordedTrack(t[m], after, h', budget) {
      assert t[m] in t;
      var u :| u in next && u.state != Deleted && t[m] == HandedOver(u);
      var i :| 0 <= i < |next| && next[i] == u;
      OutcomeRecorded(t0, before, id0, next, after, matches, ut, ud, dets, nInit, maxAge, budget, see, h, i);
    }
  }

  lemma PredictRecorded(t0: seq<Track>, t: seq<Track>, samples: Samples, h: Record, budget: int, see: Sight)
    requires Recorded(t0, samples, h, budget)
    requires |t| == |t0| && forall i :: 0 <= i < |t| ==> t[i] == Predicted(t0[i], see)
    ensures Recorded(t, samples, h, budget)
  {
    forall i | 0 <= i < |t| ensures RecordedTrack(t[i], samples, h, budget) {
      assert RecordedTrack(t0[i], samples, h, budget);
    }
  }

  /** What the gallery holds for a confirmed track: the first budget - 1 rows its track has seen
      and the last. It is full once the track has as many hits as the budget, and it is the
      window of the last rows if and only if the first rows repeat there. */
  lemma GalleryOf(t: Track, samples: Samples, h: Record, budget: int)
    requires budget >= 2 && RecordedTrack(t, samples, h, budget) && t.state == Confirmed
    ensures samples[t.id] == if t.hits <= budget then h[t.id] else h[t.id][..budget - 1] + [h[t.id][t.hits - 1]]
    ensures |samples[t.id]| == budget <==> t.hits >= budget
    ensures samples[t.id] == Window(h[t.id], budget)
            <==> t.hits <= budget
                 || forall k :: 0 <= k < budget - 1 ==> h[t.id][k] == h[t.id][t.hits - budget + k]
  {
    FedHolds(h[t.id], budget);
    FedSlidesIff(h[t.id], budget);
  }

  // ---- every run ----------------------------------------------------------------------------

  /** The parameters of a tracker. */
  datatype Params = Params(maxCosine: real, budget: nat, maxIou: real, maxAge: int, nInit: int)

  /** A tracker between two calls, with its record. */
  datatype Snapshot = Snapshot(tracks: seq<Track>, samples: Samples, nextIdx: int, record: Record)

  /** What a call decided: an update its matches and outcomes, a prediction nothing. */
  datatype Log = NoLog | Log(matches: seq<(int, int)>, ut: seq<int>, ud: seq<int>, next: seq<Track>, story: Story)

  ghost predicate Usable(p: Params) {
    2 <= p.nInit <= p.budget && p.maxAge >= 0 && p.maxCosine >= 0.0 && p.maxIou >= 0.0
  }

  /** b follows a by one call; the record grows by what the call matched and started. */
  ghost predicate Stepped(a: Snapshot, call: Call, log: Log, b: Snapshot, p: Params, see: Sight) {
    match call
    case Predict =>
      b == a.(tracks := b.tracks) && |b.tracks| == |a.tracks|
      && forall i :: 0 <= i < |a.tracks| ==> b.tracks[i] == Predicted(a.tracks[i], see)
    case Update(dets) =>
      log.Log?
      && TwoRounds(a.tracks, a.samples, dets, see, p.maxCosine, p.maxIou, p.maxAge, log.matches, log.ud, log.story)
      && SplitsRange(|a.tracks|, Firsts(log.matches), log.ut) && SplitsRange(|dets|, Seconds(log.matches), log.ud)
      && Follows(a.tracks, log.next, log.matches, log.ut, log.ud, dets, a.nextIdx, p.nInit, p.maxAge, see)
      && (forall t :: t in b.tracks <==> exists u :: u in log.next && u.state != Deleted && t == HandedOver(u))
      && Fitted(log.next, a.samples, b.samples, p.budget) && b.nextIdx == a.nextIdx + |log.ud|
      && b.record == AfterUpdate(a.record, a.tracks, log.matches, log.ud, dets, a.nextIdx)
  }

  /** The invariant of the tracker and of the record. */
  ghost predicate Standing(s: Snapshot, p: Params) {
    Consistent(s.tracks, s.samples, s.nextIdx, p.nInit, p.maxAge, p.budget)
    && Recorded(s.tracks, s.samples, s.record, p.budget)
  }

  /** The tracker stands where the snapshot says. */
  ghost predicate Shows(tracker: Tracker, s: Snapshot, p: Params)
    reads tracker, tracker.metric
  {
    s.tracks == tracker.tracks && s.samples == tracker.metric.samples && s.nextIdx == tracker.nextIdx
    && p == Params(tracker.maxCosine, tracker.metric.budget, tracker.maxIou, tracker.maxAge, tracker.nInit)
  }

  method Step(tracker: Tracker, call: Call, see: Sight, ghost a: Snapshot, ghost p: Params)
    returns (ghost b: Snapshot, ghost log: Log)
    requires tracker.Valid() && ProperSight(see) && Shows(tracker, a, p)
    requires Standing(a, p)
    modifies tracker, tracker.metric
    ensures tracker.Valid() && Shows(tracker, b, p) && Standing(b, p)
    ensures Stepped(a, call, log, b, p, see)
  {
    match call {
      case Predict =>
        tracker.Predict(see);
        b, log := a.(tracks := tracker.tracks), NoLog;
        PredictRecorded(a.tracks, b.tracks, a.samples, a.record, p.budget, see);
      case Update(dets) =>
        b, log := StepUpdate(tracker, dets, see, a, p);
    }
  }

  method StepUpdate(tracker: Tracker, dets: seq<Detection>, see: Sight, ghost a: Snapshot, ghost p: Params)
    returns (ghost b: Snapshot, ghost log: Log)
    requires tracker.Valid() && ProperSight(see) && Shows(tracker, a, p)
    requires Standing(a, p)
    modifies tracker, tracker.metric
    ensures tracker.Valid() && Shows(tracker, b, p) && Standing(b, p)
    ensures Stepped(a, Update(dets), log, b, p, see)
  {
    ghost var matches, ut, ud, next, story;
    matches, ut, ud, next, story := tracker.Update(dets, see);
    log := Log(matches, ut, ud, next, story);
    b := Snapshot(tracker.tracks, tracker.metric.samples, tracker.nextIdx,
                  AfterUpdate(a.record, a.tracks, matches, ud, dets, a.nextIdx));
    UpdateRecorded(a.tracks, a.samples, a.nextIdx, next, b.tracks, b.samples, matches, ut, ud, dets, p.nInit, p.maxAge,
                   p.budget, see, a.record);
  }

  /** The snapshots and decisions of a run from a new tracker: each call follows the one before it,
      and the record holds throughout. */
  ghost predicate Trace(trace: seq<Snapshot>, logs: seq<Log>, calls: seq<Call>, p: Params, see: Sight) {
    |trace| == |calls| + 1 && |logs| == |calls| && trace[0] == Snapshot([], map[], 1, map[])
    && (forall k :: 0 <= k < |calls| ==> Stepped(trace[k], calls[k], logs[k], trace[k + 1], p, see))
    && forall k :: 0 <= k <= |calls| ==> Standing(trace[k], p)
  }

  lemma TraceGrows(trace: seq<Snapshot>, logs: seq<Log>, calls: seq<Call>, p: Params, see: Sight,
                   call: Call, log: Log, b: Snapshot)
    requires Trace(trace, logs, calls, p, see) && Stepped(trace[|calls|], call, log, b, p, see)
    requires Standing(b, p)
    ensures Trace(trace + [b], logs + [log], calls + [call], p, see)
  {
    var t, l, c := trace + [b], logs + [log], calls + [call];
    forall k | 0 <= k < |c| ensures Stepped(t[k], c[k], l[k], t[k + 1], p, see) {
      if k < |calls| { assert Stepped(trace[k], calls[k], logs[k], trace[k + 1], p, see); }
    }
  }

  /** Every run of a tracker, call by call: after each call the record holds, so GalleryOf says what
      the gallery keeps for every confirmed track. */
  method EveryRun(p: Params, calls: seq<Call>, see: Sight)
    returns (tracker: Tracker, ghost trace: seq<Snapshot>, ghost logs: seq<Log>)
    requires Usable(p) && ProperSight(see)
    ensures tracker.Valid() && Trace(trace, logs, calls, p, see) && Shows(tracker, trace[|calls|], p)
  {
    tracker := new Tracker(p.maxCosine, p.budget, p.maxIou, p.maxAge, p.nInit);
    trace, logs := [Snapshot([], tracker.metric.samples, 1, map[])], [];
    for k := 0 to |calls|
      invariant fresh(tracker) && fresh(tracker.metric) && tracker.Valid()
      invariant Trace(trace, logs, calls[..k], p, see) && Shows(tracker, trace[k], p)
    {
      trace, logs := StepTrace(tracker, calls[..k], calls[k], see, trace, logs, p);
      assert calls[..k + 1] == calls[..k] + [calls[k]];
    }
    assert calls[..|calls|] == calls;
  }

  method StepTrace(tracker: Tracker, ghost calls: seq<Call>, call: Call, see: Sight, ghost trace0: seq<Snapshot>,
                   ghost logs0: seq<Log>, ghost p: Params)
    returns (ghost trace: seq<Snapshot>, ghost logs: seq<Log>)
    requires tracker.Valid() && ProperSight(see)
    requires Trace(trace0, logs0, calls, p, see) && Shows(tracker, trace0[|calls|], p)
    modifies tracker, tracker.metric
    ensures tracker.Valid() && |trace| == |trace0| + 1 && Shows(tracker, trace[|calls| + 1], p)
    ensures Trace(trace, logs, calls + [call], p, see)
  {
    ghost var b, log := Step(tracker, call, see, trace0[|calls|], p);
    TraceGrows(trace0, logs0, calls, p, see, call, log, b);
    trace, logs := trace0 + [b], logs0 + [log];
  }

  // ---- one object seen in every frame ---------------------------------------------------------

  /** One track and one detection that are near enough are matched. */
  lemma LoneMatch(t0: seq<Track>, samples: Samples, dets: seq<Detection>, see: Sight, maxCosine: real, maxIou: real,
                  maxAge: int, matches: seq<(int, int)>, ut: seq<int>, ud: seq<int>, story: Story)
    requires |t0| == 1 && |dets| == 1 && t0[0].sinceUpdate == 1 && see.overlap(t0[0], dets[0]) <= maxIou
    requires TwoRounds(t0, samples, dets, see, maxCosine, maxIou, maxAge, matches, ud, story)
    requires SplitsRange(1, Firsts(matches), ut) && SplitsRange(1, Seconds(matches), ud)
    ensures ud == [] && matches == [(0, 0)]
  {
    MustMatch(t0, samples, dets, see, maxCosine, maxIou, maxAge, matches, ud, story);
    assert Firsts(matches)[0] in Firsts(matches) && Seconds(matches)[0] in Seconds(matches);
    OnlyZero(Firsts(matches));
    assert matches[0] == (matches[0].0, matches[0].1);
    if ud != [] { var x := HasMember(ud); }
  }

  lemma MustMatch(t0: seq<Track>, samples: Samples, dets: seq<Detection>, see: Sight, maxCosine: real, maxIou: real,
                  maxAge: int, matches: seq<(int, int)>, ud: seq<int>, story: Story)
    requires |t0| == 1 && |dets| == 1 && t0[0].sinceUpdate == 1 && see.overlap(t0[0], dets[0]) <= maxIou
    requires TwoRounds(t0, samples, dets, see, maxCosine, maxIou, maxAge, matches, ud, story)
    requires SplitsRange(1, Seconds(matches), ud)
    ensures matches != []
  {
    if story.first == [] && story.second == [] {
      assert matches == [] && Seconds(matches) == [];
      assert 0 in story.candidates;
      LeftWhole(story.left, story.second, ud);
      LoneCell(OverlapCost(t0, dets, see), maxIou, story.candidates, story.left, story.second);
    }
  }

  /** A cheapest matching of sides that hold nothing but 0 is not empty if the pair is affordable. */
  lemma LoneCell(f: CostFunction, max: real, tracks: seq<int>, dets: seq<int>, matches: seq<(int, int)>)
    requires Priceable(f, tracks, dets) && CheapestWithin(f, max, tracks, dets, matches)
    requires |tracks| > 0 && |dets| > 0 && (forall x :: x in tracks ==> x == 0) && forall x :: x in dets ==> x == 0
    requires f.requires(0, 0) && f(0, 0) <= max
    ensures matches != []
  {
    var c, sol :| ClippedCosts(c, f, max, tracks, dets) && CheapestFull(c, sol, |tracks|, |dets|)
                  && Kept(c, sol, max, tracks, dets, matches);
    var i := MatchedRow(sol, |tracks|, |dets|);
    assert tracks[i] in tracks && dets[sol[i]] in dets;
    assert c[i][sol[i]] == Clip(f(tracks[i], dets[sol[i]]), max);
    assert 0 == tracks[i] && 0 == dets[sol[i]] && c[i][sol[i]] <= max;
    assert (0, 0) in matches;
  }

  lemma MatchedRow(sol: seq<int>, rows: nat, cols: nat) returns (i: int)
    requires Full(sol, rows, cols) && rows > 0 && cols > 0
    ensures 0 <= i < rows && 0 <= sol[i] < cols
  {
    if rows <= cols {
      i := 0;
    } else {
      assert 0 in sol;
      i :| 0 <= i < |sol| && sol[i] == 0;
    }
  }

  lemma Only(t: seq<Track>, u: Track, below: int)
    requires AscendingIds(t, below) && u.state != Deleted
    requires forall x :: x in t <==> exists v :: v in [u] && v.state != Deleted && x == HandedOver(v)
    ensures t == [HandedOver(u)]
  {
    assert u in [u] && HandedOver(u) in t;
    assert |t| > 1 ==> t[0].id < t[1].id;
    forall i | 0 <= i < |t| ensures t[i] == HandedOver(u) { assert t[i] in t; }
  }

  lemma TwoApart(s: seq<int>)
    requires Injective(s) && |s| > 1
    ensures s[0] in s && s[1] in s && s[0] != s[1]
  {
  }

  lemma OnlyZero(s: seq<int>)
    requires Injective(s) && forall x :: x in s ==> x == 0
    ensures |s| <= 1
  {
    if |s| > 1 { TwoApart(s); }
  }

  lemma HasMember(s: seq<int>) returns (x: int)
    requires s != []
    ensures x in s
  {
    x := s[0];
  }

  lemma OneNew(matches: seq<(int, int)>, ut: seq<int>, ud: seq<int>)
    requires SplitsRange(0, Firsts(matches), ut) && SplitsRange(1, Seconds(matches), ud)
    ensures ud == [0] && matches == []
  {
    if Firsts(matches) != [] { var x := HasMember(Firsts(matches)); }
    assert 0 in ud;
    assert |ud| > 1 ==> ud[0] != ud[1];
    forall i | 0 <= i < |ud| ensures ud[i] == 0 { assert ud[i] in ud; }
  }

  lemma LeftWhole(left: seq<int>, second: seq<(int, int)>, ud: seq<int>)
    requires Splits(left, Seconds(second), ud) && second == [] && SplitsRange(1, [], ud)
    ensures 0 in left && forall x :: x in left ==> x == 0
  {
    assert Seconds(second) == [];
    assert 0 in ud;
  }

  /** The track of an object that the first k frames detect, and nothing else. */
  function OneTrack(dets: seq<Detection>, k: nat, nInit: int, maxAge: int, see: Sight): (t: Track)
    requires 1 <= k <= |dets|
    ensures t.id == 1 && t.hits == k && t.sinceUpdate == 0 && t.nInit == nInit
  {
    if k == 1 then NewTrack(1, nInit, maxAge, dets[0], see)
    else HandedOver(Hit(Predicted(OneTrack(dets, k - 1, nInit, maxAge, see), see), dets[k - 1], see))
  }

  lemma {:induction false} OneTrackState(dets: seq<Detection>, k: nat, nInit: int, maxAge: int, see: Sight)
    requires 1 <= k <= |dets| && nInit >= 2
    ensures OneTrack(dets, k, nInit, maxAge, see).state == if k >= nInit then Confirmed else Tentative
  {
    if k > 1 { OneTrackState(dets, k - 1, nInit, maxAge, see); }
  }

  function FeaturesOf(dets: seq<Detection>): (feats: seq<Feature>)
    ensures |feats| == |dets| && forall k :: 0 <= k < |dets| ==> feats[k] == dets[k].feature
  {
    seq(|dets|, k requires 0 <= k < |dets| => dets[k].feature)
  }

  /** In every frame the detection overlaps the prediction of its track well enough. */
  ghost predicate Steady(dets: seq<Detection>, p: Params, see: Sight) {
    forall k :: 1 <= k < |dets| ==>
      see.overlap(Predicted(OneTrack(dets, k, p.nInit, p.maxAge, see), see), dets[k]) <= p.maxIou
  }

  /** After k frames of one object. */
  ghost predicate Lone(s: Snapshot, dets: seq<Detection>, k: nat, p: Params, see: Sight)
    requires 1 <= k <= |dets|
  {
    s.tracks == [OneTrack(dets, k, p.nInit, p.maxAge, see)] && 1 in s.record && s.record[1] == FeaturesOf(dets)[..k]
  }

  /** The first frame: nothing to match, one new track. */
  lemma LoneStart(b: Snapshot, log: Log, det: Detection, p: Params, see: Sight)
    requires Stepped(Snapshot([], map[], 1, map[]), Update([det]), log, b, p, see) && AscendingIds(b.tracks, b.nextIdx)
    ensures b.tracks == [NewTrack(1, p.nInit, p.maxAge, det, see)] && 1 in b.record && b.record[1] == [det.feature]
  {
    LoneStarted(b.tracks, b.nextIdx, b.record, log.next, log.matches, log.ut, log.ud, det, p.nInit, p.maxAge, see);
  }

  lemma LoneStarted(t: seq<Track>, below: int, h: Record, next: seq<Track>, matches: seq<(int, int)>, ut: seq<int>,
                    ud: seq<int>, det: Detection, nInit: int, maxAge: int, see: Sight)
    requires SplitsRange(0, Firsts(matches), ut) && SplitsRange(1, Seconds(matches), ud) && AscendingIds(t, below)
    requires Follows([], next, matches, ut, ud, [det], 1, nInit, maxAge, see)
    requires forall x :: x in t <==> exists u :: u in next && u.state != Deleted && x == HandedOver(u)
    requires h == AfterUpdate(map[], [], matches, ud, [det], 1)
    ensures t == [NewTrack(1, nInit, maxAge, det, see)] && 1 in h && h[1] == [det.feature]
  {
    OneNew(matches, ut, ud);
    StartOutcome(next, ut, det, nInit, maxAge, see);
    Only(t, next[0], below);
    BirthsWrite(map[], ud, [det], 1, 1);
  }

  lemma StartOutcome(next: seq<Track>, ut: seq<int>, det: Detection, nInit: int, maxAge: int, see: Sight)
    requires Follows([], next, [], ut, [0], [det], 1, nInit, maxAge, see)
    ensures next == [NewTrack(1, nInit, maxAge, det, see)]
  {
    assert next[0 + 0] == NewTrack(1 + 0, nInit, maxAge, [det][[0][0]], see);
  }

  lemma NextOutcome(t0: seq<Track>, next: seq<Track>, ut: seq<int>, det: Detection, id0: int, nInit: int, maxAge: int,
                    see: Sight)
    requires |t0| == 1 && Follows(t0, next, [(0, 0)], ut, [], [det], id0, nInit, maxAge, see)
    ensures next == [Hit(t0[0], det, see)]
  {
    assert next[[(0, 0)][0].0] == Hit(t0[0], det, see);
  }

  lemma OneHit(h: Record, t0: seq<Track>, det: Detection, id0: int)
    requires |t0| == 1 && t0[0].id in h
    ensures var h' := AfterUpdate(h, t0, [(0, 0)], [], [det], id0);
            t0[0].id in h' && h'[t0[0].id] == h[t0[0].id] + [det.feature]
  {
    var m := [(0, 0)];
    assert m[..|m| - 1] == [];
    assert WithHits(h, t0, m, [det]) == h[t0[0].id := h[t0[0].id] + [det.feature]];
  }

  /** Another frame: the one track is hit by the one detection. */
  lemma LoneNext(a: Snapshot, b: Snapshot, log: Log, det: Detection, p: Params, see: Sight)
    requires |a.tracks| == 1 && a.tracks[0].sinceUpdate == 1 && see.overlap(a.tracks[0], det) <= p.maxIou
    requires a.tracks[0].state != Deleted && a.tracks[0].id == 1 && 1 in a.record
    requires Stepped(a, Update([det]), log, b, p, see) && AscendingIds(b.tracks, b.nextIdx)
    ensures b.tracks == [HandedOver(Hit(a.tracks[0], det, see))]
    ensures 1 in b.record && b.record[1] == a.record[1] + [det.feature]
  {
    LoneMatch(a.tracks, a.samples, [det], see, p.maxCosine, p.maxIou, p.maxAge, log.matches, log.ut, log.ud, log.story);
    NextOutcome(a.tracks, log.next, log.ut, det, a.nextIdx, p.nInit, p.maxAge, see);
    Only(b.tracks, log.next[0], b.nextIdx);
    OneHit(a.record, a.tracks, det, a.nextIdx);
  }

  lemma PredictedLone(s: Snapshot, a: Snapshot, log: Log, dets: seq<Detection>, k: nat, p: Params, see: Sight)
    requires 1 <= k < |dets| && Lone(s, dets, k, p, see) && Stepped(s, Predict, log, a, p, see) && p.nInit >= 2
    requires Steady(dets, p, see)
    ensures InSight(a, dets, k, p, see)
  {
    OneTrackState(dets, k, p.nInit, p.maxAge, see);
  }

  lemma LoneGrows(a: Snapshot, b: Snapshot, dets: seq<Detection>, k: nat, p: Params, see: Sight)
    requires 1 <= k < |dets| && 1 in a.record && a.record[1] == FeaturesOf(dets)[..k]
    requires b.tracks == [HandedOver(Hit(Predicted(OneTrack(dets, k, p.nInit, p.maxAge, see), see), dets[k], see))]
    requires 1 in b.record && b.record[1] == a.record[1] + [dets[k].feature]
    ensures Lone(b, dets, k + 1, p, see)
  {
    assert FeaturesOf(dets)[..k] + [dets[k].feature] == FeaturesOf(dets)[..k + 1];
  }

  /** The track is predicted and its object in sight. */
  ghost predicate InSight(a: Snapshot, dets: seq<Detection>, k: nat, p: Params, see: Sight)
    requires 1 <= k < |dets|
  {
    a.tracks == [Predicted(OneTrack(dets, k, p.nInit, p.maxAge, see), see)] && a.tracks[0].state != Deleted
    && see.overlap(a.tracks[0], dets[k]) <= p.maxIou
    && 1 in a.record && a.record[1] == FeaturesOf(dets)[..k]
  }

  lemma LoneSeen(a: Snapshot, b: Snapshot, log: Log, dets: seq<Detection>, k: nat, p: Params, see: Sight)
    requires 1 <= k < |dets| && InSight(a, dets, k, p, see) && AscendingIds(b.tracks, b.nextIdx)
    requires Stepped(a, Update([dets[k]]), log, b, p, see)
    ensures Lone(b, dets, k + 1, p, see)
  {
    LoneNext(a, b, log, dets[k], p, see);
    LoneGrows(a, b, dets, k, p, see);
  }

  /** One more frame of the object: predict, then update. */
  method NextFrame(tracker: Tracker, dets: seq<Detection>, k: nat, see: Sight, ghost s: Snapshot, ghost p: Params)
    returns (ghost s': Snapshot)
    requires tracker.Valid() && ProperSight(see) && Shows(tracker, s, p)
    requires 1 <= k < |dets| && Steady(dets, p, see) && Lone(s, dets, k, p, see)
    requires Standing(s, p)
    modifies tracker, tracker.metric
    ensures tracker.Valid() && Shows(tracker, s', p) && Lone(s', dets, k + 1, p, see)
    ensures Standing(s', p)
  {
    ghost var a, log0 := Step(tracker, Predict, see, s, p);
    PredictedLone(s, a, log0, dets, k, p, see);
    s' := Detect(tracker, dets, k, see, a, p);
  }

  method Detect(tracker: Tracker, dets: seq<Detection>, k: nat, see: Sight, ghost a: Snapshot, ghost p: Params)
    returns (ghost b: Snapshot)
    requires tracker.Valid() && ProperSight(see) && Shows(tracker, a, p)
    requires 1 <= k < |dets| && InSight(a, dets, k, p, see)
    requires Standing(a, p)
    modifies tracker, tracker.metric
    ensures tracker.Valid() && Shows(tracker, b, p) && Lone(b, dets, k + 1, p, see)
    ensures Standing(b, p)
  {
    ghost var log;
    b, log := Step(tracker, Update([dets[k]]), see, a, p);
    LoneSeen(a, b, log, dets, k, p, see);
  }

  /** The first frame of the object starts its track. */
  method FirstFrame(p: Params, dets: seq<Detection>, see: Sight) returns (tracker: Tracker, ghost s: Snapshot)
    requires Usable(p) && ProperSight(see) && |dets| >= 1
    ensures fresh(tracker) && fresh(tracker.metric) && tracker.Valid() && Shows(tracker, s, p)
    ensures Lone(s, dets, 1, p, see) && Standing(s, p)
  {
    tracker := new Tracker(p.maxCosine, p.budget, p.maxIou, p.maxAge, p.nInit);
    ghost var log;
    s, log := Step(tracker, Update([dets[0]]), see, Snapshot([], tracker.metric.samples, 1, map[]), p);
    LoneStart(s, log, dets[0], p, see);
  }

  /** One object in every frame, each frame predicted and updated: its gallery is what feeding the
      features one by one leaves, so with enough frames it is full. */
  method OneObject(p: Params, dets: seq<Detection>, see: Sight) returns (tracker: Tracker, ghost s: Snapshot)
    requires Usable(p) && ProperSight(see) && |dets| >= 1 && Steady(dets, p, see)
    ensures tracker.Valid() && Shows(tracker, s, p) && Lone(s, dets, |dets|, p, see)
    ensures Standing(s, p)
    ensures |dets| >= p.nInit ==> 1 in s.samples && s.samples[1] == Fed(FeaturesOf(dets), p.budget)
  {
    tracker, s := FirstFrame(p, dets, see);
    for k := 1 to |dets|
      invariant fresh(tracker) && fresh(tracker.metric) && tracker.Valid() && Shows(tracker, s, p)
      invariant Lone(s, dets, k, p, see) && Standing(s, p)
    {
      s := NextFrame(tracker, dets, k, see, s, p);
    }
    if |dets| >= p.nInit { LoneAtEnd(s, dets, p, see); }
  }

  lemma LoneAtEnd(s: Snapshot, dets: seq<Detection>, p: Params, see: Sight)
    requires |dets| >= 1 && Lone(s, dets, |dets|, p, see) && Standing(s, p)
    requires 2 <= p.nInit <= |dets|
    ensures 1 in s.samples && s.samples[1] == Fed(FeaturesOf(dets), p.budget)
  {
    OneTrackState(dets, |dets|, p.nInit, p.maxAge, see);
    assert FeaturesOf(dets)[..|dets|] == FeaturesOf(dets);
    assert RecordedTrack(s.tracks[0], s.samples, s.record, p.budget);
  }
}
