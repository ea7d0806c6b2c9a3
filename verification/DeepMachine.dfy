/** The state machine of the DeepSORT tracker: predict, update, and the run invariant that ties
    the gallery to the confirmed tracks. */
module DeepMachine {
  import opened Assignment
  import opened DeepAssignment
  import opened DeepTracks
  import opened DeepTracker

  /** A track in the middle of an update, against the gallery the update started with. */
  ghost predicate Settled(t: Track, keys: set<int>, nInit: int, maxAge: int) {
    t.nInit == nInit && t.maxAge == maxAge
    && match t.state
       case Tentative => 1 <= t.hits < nInit && |t.features| == t.hits && t.sinceUpdate == 0 && t.id !in keys
       case Confirmed => t.sinceUpdate <= maxAge && (if t.id in keys then |t.features| <= 1 else |t.features| == nInit)
       case Deleted => true
  }

  /** What one update makes of a track. */
  ghost predicate Outcome(t: Track, t': Track, see: Sight) {
    t' == Missed(t) || exists det :: t' == Hit(t, det, see)
  }

  lemma OutcomeSettles(t: Track, t': Track, keys: set<int>, nInit: int, maxAge: int, see: Sight)
    requires Sane(t, nInit, maxAge) && Outcome(t, t', see) && maxAge >= 0
    requires t.id in keys <==> t.state == Confirmed
    ensures t'.id == t.id && Settled(t', keys, nInit, maxAge)
    ensures t.id !in keys && t'.state == Confirmed ==> t'.hits >= nInit
  {
  }

  lemma MatchesApart(matches: seq<(int, int)>, k: nat)
    requires Injective(Firsts(matches)) && k < |matches|
    ensures matches[k].0 in Firsts(matches)
    ensures forall m :: 0 <= m < |matches| && m != k ==> matches[m].0 != matches[k].0
  {
    var s := Firsts(matches);
    assert s[k] in s;
    forall m | 0 <= m < |matches| && m != k ensures matches[m].0 != matches[k].0 { assert s[m] != s[k]; }
  }

  /** Applies the matches in place. */
  method ApplyHits(tracks0: seq<Track>, matches: seq<(int, int)>, dets: seq<Detection>,
                   see: Sight) returns (tracks: seq<Track>)
    requires Injective(Firsts(matches))
    requires forall k :: 0 <= k < |matches| ==> 0 <= matches[k].0 < |tracks0| && 0 <= matches[k].1 < |dets|
    ensures |tracks| == |tracks0|
    ensures forall k :: 0 <= k < |matches| ==>
              tracks[matches[k].0] == Hit(tracks0[matches[k].0], dets[matches[k].1], see)
    ensures forall i :: 0 <= i < |tracks| && i !in Firsts(matches) ==> tracks[i] == tracks0[i]
  {
    tracks := tracks0;
    for k := 0 to |matches|
      invariant |tracks| == |tracks0|
      invariant forall m :: 0 <= m < k ==> tracks[matches[m].0] == Hit(tracks0[matches[m].0], dets[matches[m].1], see)
      invariant forall m :: k <= m < |matches| ==> tracks[matches[m].0] == tracks0[matches[m].0]
      invariant forall i :: 0 <= i < |tracks| && i !in Firsts(matches) ==> tracks[i] == tracks0[i]
    {
      var (i, d) := matches[k];
      MatchesApart(matches, k);
      tracks := tracks[i := Hit(tracks[i], dets[d], see)];
    }
  }

  /** Marks the unmatched tracks in place. */
  method MarkMissed(tracks0: seq<Track>, ut: seq<int>) returns (tracks: seq<Track>)
    requires Injective(ut) && InRange(ut, |tracks0|)
    ensures |tracks| == |tracks0|
    ensures forall i :: 0 <= i < |tracks| ==> tracks[i] == if i in ut then Missed(tracks0[i]) else tracks0[i]
  {
    tracks := tracks0;
    for k := 0 to |ut|
      invariant |tracks| == |tracks0|
      invariant forall i :: 0 <= i < |tracks| ==> tracks[i] == if i in ut[..k] then Missed(tracks0[i]) else tracks0[i]
    {
      assert ut[..k + 1] == ut[..k] + [ut[k]] && ut[k] !in ut[..k];
      tracks := tracks[ut[k] := Missed(tracks[ut[k]])];
    }
    assert ut[..|ut|] == ut;
  }

  /** Both loops together: every track has its outcome. */
  method Decide(tracks0: seq<Track>, matches: seq<(int, int)>, ut: seq<int>, dets: seq<Detection>, see: Sight,
                ghost ud: seq<int>)
    returns (tracks: seq<Track>)
    requires SplitsRange(|tracks0|, Firsts(matches), ut) && SplitsRange(|dets|, Seconds(matches), ud)
    ensures |tracks| == |tracks0|
    ensures forall i :: 0 <= i < |tracks| ==> Outcome(tracks0[i], tracks[i], see)
    ensures forall k :: 0 <= k < |matches| ==> 0 <= matches[k].0 < |tracks| && 0 <= matches[k].1 < |dets|
    ensures forall k :: 0 <= k < |matches| ==>
              tracks[matches[k].0] == Hit(tracks0[matches[k].0], dets[matches[k].1], see)
    ensures forall i :: 0 <= i < |tracks| && i in ut ==> tracks[i] == Missed(tracks0[i])
  {
    forall k | 0 <= k < |matches|
      ensures 0 <= matches[k].0 < |tracks0| && 0 <= matches[k].1 < |dets| && matches[k].0 !in ut
    {
      assert Firsts(matches)[k] in Firsts(matches) && Seconds(matches)[k] in Seconds(matches);
    }
    forall k | 0 <= k < |ut| ensures 0 <= ut[k] < |tracks0| { assert ut[k] in ut; }
    var hit := ApplyHits(tracks0, matches, dets, see);
    tracks := MarkMissed(hit, ut);
    forall i | 0 <= i < |tracks| ensures Outcome(tracks0[i], tracks[i], see) {
      if i !in ut {
        assert i in Firsts(matches);
        var k :| 0 <= k < |matches| && Firsts(matches)[k] == i;
        assert tracks[matches[k].0] == Hit(tracks0[matches[k].0], dets[matches[k].1], see);
      }
    }
  }

  // ---- new tracks, deletion, and the fit ----------------------------------------------

  ghost predicate AllSettled(tracks: seq<Track>, keys: set<int>, nInit: int, maxAge: int) {
    forall i :: 0 <= i < |tracks| ==> Settled(tracks[i], keys, nInit, maxAge)
  }

  method Initiate(tracks0: seq<Track>, ud: seq<int>, dets: seq<Detection>, nextIdx0: int, nInit: int, maxAge: int,
                  see: Sight, ghost keys: set<int>)
    returns (tracks: seq<Track>, nextIdx: int)
    requires AscendingIds(tracks0, nextIdx0) && AllSettled(tracks0, keys, nInit, maxAge) && nextIdx0 >= 1 && nInit >= 2
    requires InRange(ud, |dets|) && forall key :: key in keys ==> key < nextIdx0
    ensures tracks0 <= tracks && |tracks| == |tracks0| + |ud| && nextIdx == nextIdx0 + |ud|
    ensures AscendingIds(tracks, nextIdx) && AllSettled(tracks, keys, nInit, maxAge)
    ensures forall k :: 0 <= k < |ud| ==>
              tracks[|tracks0| + k] == NewTrack(nextIdx0 + k, nInit, maxAge, dets[ud[k]], see)
  {
    tracks, nextIdx := tracks0, nextIdx0;
    for k := 0 to |ud|
      invariant tracks0 <= tracks && |tracks| == |tracks0| + k && nextIdx == nextIdx0 + k
      invariant AscendingIds(tracks, nextIdx) && AllSettled(tracks, keys, nInit, maxAge)
      invariant forall m :: 0 <= m < k ==>
                  tracks[|tracks0| + m] == NewTrack(nextIdx0 + m, nInit, maxAge, dets[ud[m]], see)
    {
      tracks := tracks + [NewTrack(nextIdx, nInit, maxAge, dets[ud[k]], see)];
      nextIdx := nextIdx + 1;
    }
  }

  method EraseDeleted(tracks0: seq<Track>, ghost below: int, ghost keys: set<int>, ghost nInit: int, ghost maxAge: int)
    returns (tracks: seq<Track>)
    requires AscendingIds(tracks0, below) && AllSettled(tracks0, keys, nInit, maxAge)
    ensures AscendingIds(tracks, below) && AllSettled(tracks, keys, nInit, maxAge)
    ensures forall t :: t in tracks <==> t in tracks0 && t.state != Deleted
  {
    tracks := [];
    for i := 0 to |tracks0|
      invariant AscendingIds(tracks, below) && AllSettled(tracks, keys, nInit, maxAge)
      invariant forall t :: t in tracks <==> t in tracks0[..i] && t.state != Deleted
    {
      assert tracks0[..i + 1] == tracks0[..i] + [tracks0[i]];
      if tracks0[i].state != Deleted {
        forall m | 0 <= m < |tracks| ensures tracks[m].id < tracks0[i].id {
          assert tracks[m] in tracks;
          var k :| 0 <= k < i && tracks0[..i][k] == tracks[m];
        }
        tracks := tracks + [tracks0[i]];
      }
    }
    assert tracks0[..|tracks0|] == tracks0;
  }

  /** The entry is that of a confirmed track before position k. */
  ghost predicate OfferedBy(tracks: seq<Track>, k: int, e: (int, seq<Feature>)) {
    exists i :: 0 <= i < k && Offering(tracks, i, e)
  }

  ghost predicate Offering(tracks: seq<Track>, i: int, e: (int, seq<Feature>)) {
    0 <= i < |tracks| && tracks[i].state == Confirmed && tracks[i].id == e.0 && tracks[i].features == e.1
  }

  /** The features offered to the gallery: one entry per confirmed track, in list order. */
  ghost predicate Offers(tracks: seq<Track>, k: int, data: seq<(int, seq<Feature>)>, active: seq<int>) {
    0 <= k <= |tracks| && |data| == |active|
    && (forall m :: 0 <= m < |data| ==> data[m].0 == active[m] && OfferedBy(tracks, k, data[m]))
    && (forall i :: 0 <= i < k && tracks[i].state == Confirmed ==> tracks[i].id in active)
    && (forall a, b :: 0 <= a < b < |active| ==> active[a] < active[b])
  }

  lemma OfferStep(tracks: seq<Track>, k: nat, data: seq<(int, seq<Feature>)>, active: seq<int>, below: int)
    requires AscendingIds(tracks, below) && k < |tracks| && Offers(tracks, k, data, active)
    ensures if tracks[k].state == Confirmed
            then Offers(tracks, k + 1, data + [(tracks[k].id, tracks[k].features)], active + [tracks[k].id])
            else Offers(tracks, k + 1, data, active)
  {
    forall m | 0 <= m < |data| ensures OfferedBy(tracks, k + 1, data[m]) && active[m] < tracks[k].id {
      assert OfferedBy(tracks, k, data[m]);
      var i :| 0 <= i < k && Offering(tracks, i, data[m]);
    }
    assert tracks[k].state == Confirmed ==> Offering(tracks, k, (tracks[k].id, tracks[k].features));
    assert tracks[k].state == Confirmed ==> OfferedBy(tracks, k + 1, (tracks[k].id, tracks[k].features));
  }

  /** Hands the features of confirmed tracks over. */
  method Collect(tracks0: seq<Track>, ghost below: int)
    returns (tracks: seq<Track>, data: seq<(int, seq<Feature>)>, active: seq<int>)
    requires AscendingIds(tracks0, below)
    ensures Cleared(tracks0, tracks) && Offers(tracks0, |tracks0|, data, active)
  {
    tracks, data, active := tracks0, [], [];
    for k := 0 to |tracks0|
      invariant |tracks| == |tracks0| && Offers(tracks0, k, data, active)
      invariant forall i :: 0 <= i < |tracks| ==>
                  tracks[i] == if i < k && tracks0[i].state == Confirmed then tracks0[i].(features := [])
                               else tracks0[i]
    {
      OfferStep(tracks0, k, data, active, below);
      if tracks[k].state == Confirmed {
        active := active + [tracks[k].id];
        data := data + [(tracks[k].id, tracks[k].features)];
        tracks := tracks[k := tracks[k].(features := [])];
      }
    }
  }

  ghost predicate Cleared(t: seq<Track>, t': seq<Track>) {
    |t'| == |t| && forall i :: 0 <= i < |t| ==> t'[i] == if t[i].state == Confirmed then t[i].(features := []) else t[i]
  }

  lemma ActiveKeys(t: seq<Track>, t': seq<Track>, before: Samples, after: Samples, data: seq<(int, seq<Feature>)>,
                   active: seq<int>)
    requires Offers(t, |t|, data, active) && Cleared(t, t')
    requires forall key :: key in after <==>
               (key in active && (key in before || exists k :: 0 <= k < |data| && data[k].0 == key))
    ensures after.Keys == ConfirmedIds(t') && forall key :: key in after <==> key in active
  {
    forall m | 0 <= m < |active| ensures active[m] in ConfirmedIds(t') && active[m] in after {
      assert data[m].0 == active[m] && OfferedBy(t, |t|, data[m]);
      var i :| 0 <= i < |t| && Offering(t, i, data[m]);
      assert t'[i].id == active[m] && t'[i].state == Confirmed;
    }
    forall key | key in ConfirmedIds(t') ensures key in active {
      var i :| 0 <= i < |t'| && t'[i].state == Confirmed && t'[i].id == key;
      assert t[i].state == Confirmed && t[i].id == key;
    }
    forall key | key in active ensures key in ConfirmedIds(t') && key in after {
      var m :| 0 <= m < |active| && active[m] == key;
    }
    assert forall key :: key in after ==> key in active;
    assert forall key :: key in ConfirmedIds(t') ==> key in after;
    assert after.Keys == ConfirmedIds(t');
  }

  lemma FitSizes(t: seq<Track>, before: Samples, after: Samples, data: seq<(int, seq<Feature>)>,
                 active: seq<int>, nInit: int, maxAge: int, budget: int, m: int)
    requires AllSettled(t, before.Keys, nInit, maxAge) && 2 <= nInit <= budget
    requires Offers(t, |t|, data, active) && 0 <= m < |data|
    requires data[m].0 in before ==> 1 <= |before[data[m].0]| <= budget
    requires FitKey(before, after, data[m].0, data[m].1, budget)
    ensures active[m] in after && 1 <= |after[active[m]]| <= budget
  {
    assert OfferedBy(t, |t|, data[m]);
    var i :| 0 <= i < |t| && Offering(t, i, data[m]);
    assert Settled(t[i], before.Keys, nInit, maxAge);
    var key := data[m].0;
    assert key == active[m] && t[i].id == key;
    if key in before {
      StoredSize(before[key], data[m].1, budget);
    } else {
      assert after[key] == t[i].features;
    }
  }

  lemma ClearedSane(t: seq<Track>, t': seq<Track>, keys: set<int>, nextIdx: int, nInit: int, maxAge: int)
    requires AscendingIds(t, nextIdx) && AllSettled(t, keys, nInit, maxAge) && Cleared(t, t')
    requires forall x :: x in t ==> x.state != Deleted
    ensures AscendingIds(t', nextIdx) && forall i :: 0 <= i < |t'| ==> Sane(t'[i], nInit, maxAge)
    ensures forall i :: 0 <= i < |t'| ==>
              if t'[i].state == Tentative then t'[i].sinceUpdate == 0 else t'[i].sinceUpdate <= maxAge
  {
    forall i | 0 <= i < |t| ensures t[i].state != Deleted && Settled(t[i], keys, nInit, maxAge) { assert t[i] in t; }
  }

  /** After the fit the gallery holds exactly the confirmed tracks, within its budget. */
  lemma FitConsistent(t: seq<Track>, t': seq<Track>, before: Samples, after: Samples, data: seq<(int, seq<Feature>)>,
                      active: seq<int>, nextIdx: int, nInit: int, maxAge: int, budget: int)
    requires AscendingIds(t, nextIdx) && AllSettled(t, before.Keys, nInit, maxAge) && 2 <= nInit <= budget
    requires forall x :: x in t ==> x.state != Deleted
    requires forall key :: key in before ==> 1 <= |before[key]| <= budget
    requires Offers(t, |t|, data, active) && Cleared(t, t')
    requires forall k :: 0 <= k < |data| && data[k].0 in active ==> FitKey(before, after, data[k].0, data[k].1, budget)
    requires forall key :: key in after <==>
               (key in active && (key in before || exists k :: 0 <= k < |data| && data[k].0 == key))
    ensures Consistent(t', after, nextIdx, nInit, maxAge, budget)
    ensures forall i :: 0 <= i < |t'| ==>
              if t'[i].state == Tentative then t'[i].sinceUpdate == 0 else t'[i].sinceUpdate <= maxAge
  {
    ActiveKeys(t, t', before, after, data, active);
    ClearedSane(t, t', before.Keys, nextIdx, nInit, maxAge);
    forall key | key in after ensures 1 <= |after[key]| <= budget {
      var m :| 0 <= m < |active| && active[m] == key;
      assert data[m].0 == active[m];
      FitSizes(t, before, after, data, active, nInit, maxAge, budget, m);
    }
  }

  /** Every confirmed track's features were fitted under its id. */
  ghost predicate Fitted(tracks: seq<Track>, before: Samples, after: Samples, budget: nat) {
    forall i :: 0 <= i < |tracks| && tracks[i].state == Confirmed ==>
      FitKey(before, after, tracks[i].id, tracks[i].features, budget)
  }

  lemma FitsAll(t: seq<Track>, before: Samples, after: Samples, data: seq<(int, seq<Feature>)>, active: seq<int>,
                below: int, budget: nat)
    requires AscendingIds(t, below) && Offers(t, |t|, data, active)
    requires forall k :: 0 <= k < |data| && data[k].0 in active ==> FitKey(before, after, data[k].0, data[k].1, budget)
    ensures Fitted(t, before, after, budget)
  {
    forall i | 0 <= i < |t| && t[i].state == Confirmed ensures FitKey(before, after, t[i].id, t[i].features, budget) {
      var m :| 0 <= m < |active| && active[m] == t[i].id;
      assert OfferedBy(t, |t|, data[m]);
      var k :| 0 <= k < |t| && Offering(t, k, data[m]);
      assert k == i;
      assert FitKey(before, after, data[m].0, data[m].1, budget);
    }
  }

  /** Every offer fits the rows already stored for its key. */
  lemma OffersStorable(t: seq<Track>, before: Samples, data: seq<(int, seq<Feature>)>, active: seq<int>,
                       nInit: int, maxAge: int, budget: int)
    requires AllSettled(t, before.Keys, nInit, maxAge) && budget >= 2 && Offers(t, |t|, data, active)
    requires forall key :: key in before ==> 1 <= |before[key]| <= budget
    ensures DistinctKeys(data)
    ensures forall k :: 0 <= k < |data| && data[k].0 in before ==> Storable(|before[data[k].0]|, |data[k].1|, budget)
  {
    forall k | 0 <= k < |data| && data[k].0 in before ensures Storable(|before[data[k].0]|, |data[k].1|, budget) {
      assert OfferedBy(t, |t|, data[k]);
      var i :| 0 <= i < |t| && Offering(t, i, data[k]);
      assert Settled(t[i], before.Keys, nInit, maxAge);
    }
  }

  class Tracker {
    const nInit: int
    const maxAge: int
    const maxCosine: real
    const maxIou: real
    const metric: Gallery
    var tracks: seq<Track>
    var nextIdx: int

    /** The run invariant. */
    ghost predicate Valid()
      reads this, metric
    {
      2 <= nInit <= metric.budget && maxAge >= 0 && maxCosine >= 0.0 && maxIou >= 0.0 && nextIdx >= 1
      && Consistent(tracks, metric.samples, nextIdx, nInit, maxAge, metric.budget)
    }

    /** What holds right after an update, before the next prediction ages the tracks. */
    ghost predicate Current()
      reads this
    {
      forall i :: 0 <= i < |tracks| ==>
        if tracks[i].state == Tentative then tracks[i].sinceUpdate == 0 else tracks[i].sinceUpdate <= maxAge
    }

    constructor (maxCosine: real, budget: nat, maxIou: real, maxAge: int, nInit: int)
      requires 2 <= nInit <= budget && maxAge >= 0 && maxCosine >= 0.0 && maxIou >= 0.0
      ensures Valid() && Current() && tracks == [] && nextIdx == 1 && fresh(metric) && metric.budget == budget
      ensures this.maxCosine == maxCosine && this.maxIou == maxIou && this.maxAge == maxAge && this.nInit == nInit
    {
      this.maxCosine, this.maxIou, this.maxAge, this.nInit := maxCosine, maxIou, maxAge, nInit;
      this.metric := new Gallery(budget);
      this.tracks, this.nextIdx := [], 1;
    }

    /** `predict`. */
    method Predict(see: Sight)
      requires Valid()
      modifies this
      ensures Valid() && nextIdx == old(nextIdx) && |tracks| == |old(tracks)|
      ensures forall i :: 0 <= i < |tracks| ==> tracks[i] == Predicted(old(tracks)[i], see)
      ensures forall i :: 0 <= i < |tracks| ==> Aged(old(tracks)[i], tracks[i], see)
      ensures LiveIds(tracks) == LiveIds(old(tracks))
    {
      for k := 0 to |tracks|
        invariant nextIdx == old(nextIdx) && |tracks| == |old(tracks)|
        invariant forall i :: 0 <= i < |tracks| ==>
                    tracks[i] == if i < k then Predicted(old(tracks)[i], see) else old(tracks)[i]
      {
        tracks := tracks[k := Predicted(tracks[k], see)];
      }
      PredictedConsistent(old(tracks), tracks, metric.samples, nextIdx, nInit, maxAge, metric.budget, see);
      PredictedIds(old(tracks), tracks, see);
    }

    /** The gallery lookup of `distance` meets an entry with at least one row for every
        confirmed track. */
    method Lookup(i: int) returns (rows: seq<Feature>)
      requires Valid() && 0 <= i < |tracks| && tracks[i].state == Confirmed
      ensures 1 <= |rows| <= metric.budget && tracks[i].id in metric.samples && rows == metric.samples[tracks[i].id]
    {
      assert tracks[i].id in ConfirmedIds(tracks);
      rows := metric.samples[tracks[i].id];
    }

    /** `update`. `next` lists what becomes of every old track, then the new ones with the next
        ids; the tracker keeps what is not deleted, with the features of confirmed tracks
        handed to the gallery. */
    method Update(dets: seq<Detection>, see: Sight)
      returns (ghost matches: seq<(int, int)>, ghost ut: seq<int>, ghost ud: seq<int>, ghost next: seq<Track>,
               ghost story: Story)
      requires Valid() && ProperSight(see)
      modifies this, metric
      ensures Valid() && Current() && nextIdx == old(nextIdx) + |ud|
      ensures TwoRounds(old(tracks), old(metric.samples), dets, see, maxCosine, maxIou, maxAge, matches, ud, story)
      ensures SplitsRange(|old(tracks)|, Firsts(matches), ut) && SplitsRange(|dets|, Seconds(matches), ud)
      ensures Follows(old(tracks), next, matches, ut, ud, dets, old(nextIdx), nInit, maxAge, see)
      ensures forall t :: t in tracks <==> exists u :: u in next && u.state != Deleted && t == HandedOver(u)
      ensures Fitted(next, old(metric.samples), metric.samples, metric.budget)
      ensures Onward(old(tracks), old(metric.samples), old(nextIdx), tracks, metric.samples, nextIdx, metric.budget)
      ensures Fates(old(tracks), tracks, matches, ut, ud, dets, old(nextIdx), nInit, maxAge, see)
    {
      ghost var keys := metric.samples.Keys;
      ghost var t0, before, id0 := tracks, metric.samples, nextIdx;
      var extended, newIdx;
      extended, newIdx, matches, ut, ud, story := Extend(dets, see);
      nextIdx, next := newIdx, extended;
      Rebuild(extended, keys);
      UpdateOnward(t0, before, id0, next, tracks, metric.samples, matches, ut, ud, dets, nInit, maxAge, metric.budget,
                   see);
      UpdateFates(t0, next, tracks, matches, ut, ud, dets, id0, nInit, maxAge, see);
    }

    /** The head of `update`: match, mark hits and misses, start new tracks. */
    method Extend(dets: seq<Detection>, see: Sight)
      returns (extended: seq<Track>, newIdx: int,
               ghost matches: seq<(int, int)>, ghost ut: seq<int>, ghost ud: seq<int>,
               ghost story: Story)
      requires Valid() && ProperSight(see)
      ensures newIdx == nextIdx + |ud|
      ensures AscendingIds(extended, newIdx) && AllSettled(extended, metric.samples.Keys, nInit, maxAge)
      ensures TwoRounds(tracks, metric.samples, dets, see, maxCosine, maxIou, maxAge, matches, ud, story)
      ensures SplitsRange(|tracks|, Firsts(matches), ut) && SplitsRange(|dets|, Seconds(matches), ud)
      ensures Follows(tracks, extended, matches, ut, ud, dets, nextIdx, nInit, maxAge, see)
    {
      var ms, missed, news;
      ms, missed, news, story := Match(tracks, metric.samples, dets, see, maxCosine, maxIou, maxAge);
      matches, ut, ud := ms, missed, news;
      var decided := Decide(tracks, ms, missed, dets, see, news);
      DecidedSettled(tracks, decided, metric.samples, nextIdx, nInit, maxAge, metric.budget, see);
      assert InRange(news, |dets|) by {
        forall i | 0 <= i < |news| ensures 0 <= news[i] < |dets| { assert news[i] in news; }
      }
      extended, newIdx := Initiate(decided, news, dets, nextIdx, nInit, maxAge, see, metric.samples.Keys);
    }

    /** The tail of `update`: erase deleted tracks, hand features over, fit the gallery. */
    method Rebuild(extended: seq<Track>, ghost keys: set<int>)
      requires 2 <= nInit <= metric.budget && maxAge >= 0 && maxCosine >= 0.0 && maxIou >= 0.0 && nextIdx >= 1
      requires AscendingIds(extended, nextIdx) && AllSettled(extended, keys, nInit, maxAge)
      requires keys == metric.samples.Keys
      requires forall key :: key in metric.samples ==> 1 <= |metric.samples[key]| <= metric.budget
      modifies this, metric
      ensures Valid() && Current() && nextIdx == old(nextIdx)
      ensures forall t :: t in tracks <==> exists u :: u in extended && u.state != Deleted && t == HandedOver(u)
      ensures Fitted(extended, old(metric.samples), metric.samples, metric.budget)
    {
      var alive := EraseDeleted(extended, nextIdx, keys, nInit, maxAge);
      var data, active;
      tracks, data, active := Collect(alive, nextIdx);
      FitMetric(alive, data, active);
      ClearedMembers(alive, tracks);
      FittedMembers(extended, alive, old(metric.samples), metric.samples, metric.budget);
    }

    /** The gallery takes the offers of the tracks that are alive. */
    method FitMetric(ghost alive: seq<Track>, data: seq<(int, seq<Feature>)>, active: seq<int>)
      requires 2 <= nInit <= metric.budget
      requires AscendingIds(alive, nextIdx) && AllSettled(alive, metric.samples.Keys, nInit, maxAge)
      requires forall x :: x in alive ==> x.state != Deleted
      requires forall key :: key in metric.samples ==> 1 <= |metric.samples[key]| <= metric.budget
      requires Offers(alive, |alive|, data, active) && Cleared(alive, tracks)
      modifies metric
      ensures Current() && Consistent(tracks, metric.samples, nextIdx, nInit, maxAge, metric.budget)
      ensures Fitted(alive, old(metric.samples), metric.samples, metric.budget)
    {
      ghost var before := metric.samples;
      OffersStorable(alive, before, data, active, nInit, maxAge, metric.budget);
      metric.PartialFit(data, active);
      FitConsistent(alive, tracks, before, metric.samples, data, active, nextIdx, nInit, maxAge, metric.budget);
      FitsAll(alive, before, metric.samples, data, active, nextIdx, metric.budget);
    }
  }

  function HandedOver(t: Track): Track {
    if t.state == Confirmed then t.(features := []) else t
  }

  /** next lists the outcome of every old track, then the new tracks. */
  ghost predicate Follows(t0: seq<Track>, next: seq<Track>, matches: seq<(int, int)>, ut: seq<int>, ud: seq<int>,
                          dets: seq<Detection>, id0: int, nInit: int, maxAge: int, see: Sight) {
    |next| == |t0| + |ud| && InRange(ud, |dets|)
    && (forall k :: 0 <= k < |matches| ==> 0 <= matches[k].0 < |t0| && 0 <= matches[k].1 < |dets|)
    && (forall k :: 0 <= k < |matches| ==> next[matches[k].0] == Hit(t0[matches[k].0], dets[matches[k].1], see))
    && (forall i :: 0 <= i < |t0| && i in ut ==> next[i] == Missed(t0[i]))
    && (forall k :: 0 <= k < |ud| ==> next[|t0| + k] == NewTrack(id0 + k, nInit, maxAge, dets[ud[k]], see))
  }

  lemma FittedMembers(t: seq<Track>, alive: seq<Track>, before: Samples, after: Samples, budget: nat)
    requires forall x :: x in alive <==> x in t && x.state != Deleted
    requires Fitted(alive, before, after, budget)
    ensures Fitted(t, before, after, budget)
  {
    forall i | 0 <= i < |t| && t[i].state == Confirmed ensures FitKey(before, after, t[i].id, t[i].features, budget) {
      assert t[i] in alive;
      var k :| 0 <= k < |alive| && alive[k] == t[i];
    }
  }

  lemma ClearedMembers(t: seq<Track>, t': seq<Track>)
    requires Cleared(t, t')
    ensures forall x :: x in t' <==> exists u :: u in t && x == HandedOver(u)
  {
    forall i | 0 <= i < |t| ensures t'[i] == HandedOver(t[i]) {}
  }

  lemma DecidedSettled(t0: seq<Track>, t: seq<Track>, samples: Samples, nextIdx: int, nInit: int, maxAge: int,
                       budget: int, see: Sight)
    requires Consistent(t0, samples, nextIdx, nInit, maxAge, budget) && maxAge >= 0
    requires |t| == |t0| && forall i :: 0 <= i < |t| ==> Outcome(t0[i], t[i], see)
    ensures AscendingIds(t, nextIdx) && AllSettled(t, samples.Keys, nInit, maxAge)
    ensures forall key :: key in samples ==> key < nextIdx
  {
    forall i | 0 <= i < |t| ensures t[i].id == t0[i].id && Settled(t[i], samples.Keys, nInit, maxAge) {
      assert t0[i].id in ConfirmedIds(t0) ==> t0[i].state == Confirmed by {
        if t0[i].id in ConfirmedIds(t0) {
          var j :| 0 <= j < |t0| && t0[j].state == Confirmed && t0[j].id == t0[i].id;
          assert i == j;
        }
      }
      OutcomeSettles(t0[i], t[i], samples.Keys, nInit, maxAge, see);
    }
  }

  /** Prediction only ages tracks. */
  lemma PredictedConsistent(t: seq<Track>, t': seq<Track>, samples: Samples, nextIdx: int, nInit: int, maxAge: int,
                            budget: int, see: Sight)
    requires Consistent(t, samples, nextIdx, nInit, maxAge, budget)
    requires |t'| == |t| && forall i :: 0 <= i < |t| ==> t'[i] == Predicted(t[i], see)
    ensures Consistent(t', samples, nextIdx, nInit, maxAge, budget)
  {
    assert ConfirmedIds(t') == ConfirmedIds(t) by {
      forall i | 0 <= i < |t| ensures t'[i].id == t[i].id && t'[i].state == t[i].state {}
      forall key | key in ConfirmedIds(t) ensures key in ConfirmedIds(t') {
        var i :| 0 <= i < |t| && t[i].state == Confirmed && t[i].id == key;
        assert t'[i].id == key;
      }
    }
  }

  // ---- from one call to the next ------------------------------------------------------

  ghost function LiveIds(tracks: seq<Track>): set<int> {
    set i | 0 <= i < |tracks| :: tracks[i].id
  }

  /** Once a gallery entry is full, all its rows but the newest stay as they are. */
  ghost predicate Frozen(before: Samples, after: Samples, budget: int) {
    budget >= 1
    && forall key :: key in before && key in after && |before[key]| == budget ==>
         |after[key]| == budget && after[key][..budget - 1] == before[key][..budget - 1]
  }

  /** Ids are followed on or new, an id leaves the gallery only with its track, and full entries
      are frozen. */
  ghost predicate Onward(t0: seq<Track>, before: Samples, id0: int, t: seq<Track>, after: Samples, id: int,
                         budget: int) {
    id0 <= id
    && (forall k :: k in LiveIds(t) ==> k in LiveIds(t0) || id0 <= k < id)
    && (forall k :: k in before && k in LiveIds(t) ==> k in after)
    && Frozen(before, after, budget)
  }

  /** Where the outcome of a track stands, by its id. */
  lemma Origin(t0: seq<Track>, next: seq<Track>, matches: seq<(int, int)>, ut: seq<int>, ud: seq<int>,
               dets: seq<Detection>, id0: int, nInit: int, maxAge: int, see: Sight, i: int)
    requires SplitsRange(|t0|, Firsts(matches), ut) && Follows(t0, next, matches, ut, ud, dets, id0, nInit, maxAge, see)
    requires 0 <= i < |next|
    ensures i < |t0| ==> next[i] == Missed(t0[i]) || exists d :: 0 <= d < |dets| && next[i] == Hit(t0[i], dets[d], see)
    ensures i >= |t0| ==> next[i].id == id0 + i - |t0| && next[i].state == Tentative
  {
    if i < |t0| && i !in ut {
      assert i in Firsts(matches);
      var k :| 0 <= k < |matches| && Firsts(matches)[k] == i;
      assert next[matches[k].0] == Hit(t0[matches[k].0], dets[matches[k].1], see);
    } else if i >= |t0| {
      assert next[|t0| + (i - |t0|)] == NewTrack(id0 + (i - |t0|), nInit, maxAge, dets[ud[i - |t0|]], see);
    }
  }

  /** A track alive after an update came from a track with its id or is new; if its id was in the
      gallery, it was confirmed, is confirmed, and offered at most one row. */
  lemma Heir(t0: seq<Track>, before: Samples, id0: int, next: seq<Track>, matches: seq<(int, int)>, ut: seq<int>,
             ud: seq<int>, dets: seq<Detection>, nInit: int, maxAge: int, budget: int, see: Sight, i: int)
    requires Consistent(t0, before, id0, nInit, maxAge, budget)
    requires SplitsRange(|t0|, Firsts(matches), ut) && Follows(t0, next, matches, ut, ud, dets, id0, nInit, maxAge, see)
    requires 0 <= i < |next| && next[i].state != Deleted
    ensures next[i].id in LiveIds(t0) || id0 <= next[i].id < id0 + |ud|
    ensures next[i].id in before ==> next[i].state == Confirmed && |next[i].features| <= 1
  {
    Origin(t0, next, matches, ut, ud, dets, id0, nInit, maxAge, see, i);
    if next[i].id in before {
      var k :| 0 <= k < |t0| && t0[k].state == Confirmed && t0[k].id == next[i].id;
      assert i < |t0|;
      assert t0[i].id == t0[k].id;
      assert i == k && Sane(t0[i], nInit, maxAge);
    }
  }

  lemma UpdateOnward(t0: seq<Track>, before: Samples, id0: int, next: seq<Track>, t: seq<Track>, after: Samples,
                     matches: seq<(int, int)>, ut: seq<int>, ud: seq<int>, dets: seq<Detection>,
                     nInit: int, maxAge: int, budget: nat, see: Sight)
    requires Consistent(t0, before, id0, nInit, maxAge, budget)
    requires Consistent(t, after, id0 + |ud|, nInit, maxAge, budget)
    requires SplitsRange(|t0|, Firsts(matches), ut) && Follows(t0, next, matches, ut, ud, dets, id0, nInit, maxAge, see)
    requires forall x :: x in t <==> exists u :: u in next && u.state != Deleted && x == HandedOver(u)
    requires Fitted(next, before, after, budget) && budget >= 2
    ensures Onward(t0, before, id0, t, after, id0 + |ud|, budget)
  {
    forall k | k in LiveIds(t)
      ensures k in LiveIds(t0) || id0 <= k < id0 + |ud|
      ensures k in before ==> k in after
      ensures k in before && |before[k]| == budget ==>
                |after[k]| == budget && after[k][..budget - 1] == before[k][..budget - 1]
    {
      var m :| 0 <= m < |t| && t[m].id == k;
      assert t[m] in t;
      var u :| u in next && u.state != Deleted && t[m] == HandedOver(u);
      var i :| 0 <= i < |next| && next[i] == u;
      Heir(t0, before, id0, next, matches, ut, ud, dets, nInit, maxAge, budget, see, i);
      if k in before {
        assert FitKey(before, after, next[i].id, next[i].features, budget);
      }
    }
    forall k | k in after ensures k in LiveIds(t) {
      var m :| 0 <= m < |t| && t[m].state == Confirmed && t[m].id == k;
    }
  }

  // ---- the fate of every track ----------------------------------------------------------

  /** u is t after a match with det. */
  ghost predicate HitBy(t: Track, u: Track, det: Detection, see: Sight) {
    u.id == t.id && u.nInit == t.nInit && u.maxAge == t.maxAge && u.age == t.age
    && u.hits == t.hits + 1 && u.sinceUpdate == 0 && u.body == see.correct(t.body, det.body)
    && u.cls == det.cls && u.conf == det.conf
    && (u.state == if t.state == Confirmed || t.hits + 1 >= t.nInit then Confirmed else Tentative)
    && u.features == if u.state == Confirmed then [] else t.features + [det.feature]
  }

  /** u is t one frame later: predicted, and one frame longer unseen. */
  ghost predicate Aged(t: Track, u: Track, see: Sight) {
    u.age == t.age + 1 && u.sinceUpdate == t.sinceUpdate + 1 && u.body == see.predict(t.body)
    && u == t.(age := u.age, sinceUpdate := u.sinceUpdate, body := u.body)
  }

  /** A track left unmatched is kept exactly if it is confirmed and not overdue, and then as it was. */
  ghost predicate Endures(t: Track) {
    t.state == Confirmed && t.sinceUpdate <= t.maxAge
  }

  /** What an update makes of the tracks: unmatched ones stay or go by their age, matched ones are
      corrected, every unmatched detection starts a track, and there is nothing else. */
  ghost predicate Fates(t0: seq<Track>, t: seq<Track>, matches: seq<(int, int)>, ut: seq<int>, ud: seq<int>,
                        dets: seq<Detection>, id0: int, nInit: int, maxAge: int, see: Sight) {
    InRange(ut, |t0|) && InRange(ud, |dets|)
    && (forall k :: 0 <= k < |matches| ==> 0 <= matches[k].0 < |t0| && 0 <= matches[k].1 < |dets|)
    && (forall k :: 0 <= k < |ut| ==>
          (t0[ut[k]].id in LiveIds(t) <==> Endures(t0[ut[k]])) && (t0[ut[k]] in t <==> Endures(t0[ut[k]])))
    && (forall k :: 0 <= k < |matches| ==>
          exists u :: u in t && HitBy(t0[matches[k].0], u, dets[matches[k].1], see))
    && (forall k :: 0 <= k < |ud| ==> StartedBy(id0 + k, nInit, maxAge, dets[ud[k]], see) in t)
    && forall u :: u in t ==> CameFrom(u, t0, matches, ut, ud, dets, id0, nInit, maxAge, see)
  }

  /** A new track, field by field. */
  ghost function StartedBy(id: int, nInit: int, maxAge: int, det: Detection, see: Sight): Track {
    Track(id, Tentative, 1, 1, 0, nInit, maxAge, [det.feature], see.initiate(det.body), det.cls, det.conf)
  }

  ghost predicate CameFrom(u: Track, t0: seq<Track>, matches: seq<(int, int)>, ut: seq<int>, ud: seq<int>,
                           dets: seq<Detection>, id0: int, nInit: int, maxAge: int, see: Sight)
    requires InRange(ut, |t0|) && InRange(ud, |dets|)
    requires forall k :: 0 <= k < |matches| ==> 0 <= matches[k].0 < |t0| && 0 <= matches[k].1 < |dets|
  {
    (exists k :: 0 <= k < |ut| && u == t0[ut[k]] && Endures(u))
    || (exists k :: 0 <= k < |matches| && HitBy(t0[matches[k].0], u, dets[matches[k].1], see))
    || exists k :: 0 <= k < |ud| && u == StartedBy(id0 + k, nInit, maxAge, dets[ud[k]], see)
  }

  /** The outcome of an old track, before deleted ones go. */
  lemma MissedFate(t: Track, nInit: int, maxAge: int)
    requires Sane(t, nInit, maxAge)
    ensures Missed(t).state != Deleted <==> Endures(t)
    ensures Endures(t) ==> HandedOver(Missed(t)) == t
  {
  }

  lemma HitFate(t: Track, det: Detection, nInit: int, maxAge: int, see: Sight)
    requires Sane(t, nInit, maxAge)
    ensures Hit(t, det, see).state != Deleted && HitBy(t, HandedOver(Hit(t, det, see)), det, see)
  {
  }

  lemma StartFate(id: int, nInit: int, maxAge: int, det: Detection, see: Sight)
    ensures NewTrack(id, nInit, maxAge, det, see) == StartedBy(id, nInit, maxAge, det, see)
    ensures HandedOver(NewTrack(id, nInit, maxAge, det, see)) == StartedBy(id, nInit, maxAge, det, see)
  {
  }

  /** Ids tell the outcomes of an update apart. */
  lemma OutcomeIds(t0: seq<Track>, next: seq<Track>, matches: seq<(int, int)>, ut: seq<int>, ud: seq<int>,
                   dets: seq<Detection>, id0: int, nInit: int, maxAge: int, see: Sight, i: int, j: int)
    requires AscendingIds(t0, id0) && SplitsRange(|t0|, Firsts(matches), ut)
    requires Follows(t0, next, matches, ut, ud, dets, id0, nInit, maxAge, see)
    requires 0 <= i < |t0| && 0 <= j < |next|
    ensures next[i].id == t0[i].id && (next[j].id == t0[i].id ==> i == j)
  {
    Origin(t0, next, matches, ut, ud, dets, id0, nInit, maxAge, see, i);
    Origin(t0, next, matches, ut, ud, dets, id0, nInit, maxAge, see, j);
  }

  lemma UnmatchedFate(t0: seq<Track>, next: seq<Track>, t: seq<Track>, matches: seq<(int, int)>, ut: seq<int>,
                      ud: seq<int>, dets: seq<Detection>, id0: int, nInit: int, maxAge: int, see: Sight, i: int)
    requires AscendingIds(t0, id0) && SplitsRange(|t0|, Firsts(matches), ut) && i in ut && 0 <= i < |t0|
    requires Follows(t0, next, matches, ut, ud, dets, id0, nInit, maxAge, see) && Sane(t0[i], nInit, maxAge)
    requires forall x :: x in t <==> exists u :: u in next && u.state != Deleted && x == HandedOver(u)
    ensures t0[i].id in LiveIds(t) <==> Endures(t0[i])
    ensures t0[i] in t <==> Endures(t0[i])
  {
    MissedFate(t0[i], nInit, maxAge);
    assert next[i] == Missed(t0[i]) && next[i] in next;
    if Endures(t0[i]) {
      assert t0[i] in t;
      var m :| 0 <= m < |t| && t[m] == t0[i];
    }
    forall m | 0 <= m < |t| && t[m].id == t0[i].id ensures Endures(t0[i]) {
      assert t[m] in t;
      var u :| u in next && u.state != Deleted && t[m] == HandedOver(u);
      var j :| 0 <= j < |next| && next[j] == u;
      OutcomeIds(t0, next, matches, ut, ud, dets, id0, nInit, maxAge, see, i, j);
    }
    assert t0[i] in t ==> exists m :: 0 <= m < |t| && t[m].id == t0[i].id by {
      if t0[i] in t { var m :| 0 <= m < |t| && t[m] == t0[i]; }
    }
  }

  lemma SourceOf(t0: seq<Track>, next: seq<Track>, u: Track, matches: seq<(int, int)>, ut: seq<int>, ud: seq<int>,
                 dets: seq<Detection>, id0: int, nInit: int, maxAge: int, see: Sight)
    requires SplitsRange(|t0|, Firsts(matches), ut) && InRange(ut, |t0|)
    requires Follows(t0, next, matches, ut, ud, dets, id0, nInit, maxAge, see) && u in next && u.state != Deleted
    requires forall i :: 0 <= i < |t0| ==> Sane(t0[i], nInit, maxAge)
    ensures CameFrom(HandedOver(u), t0, matches, ut, ud, dets, id0, nInit, maxAge, see)
  {
    var j :| 0 <= j < |next| && next[j] == u;
    if j >= |t0| {
      var k := j - |t0|;
      assert next[|t0| + k] == NewTrack(id0 + k, nInit, maxAge, dets[ud[k]], see);
      StartFate(id0 + k, nInit, maxAge, dets[ud[k]], see);
    } else if j in ut {
      var k :| 0 <= k < |ut| && ut[k] == j;
      MissedFate(t0[j], nInit, maxAge);
      assert HandedOver(u) == t0[ut[k]];
    } else {
      assert j in Firsts(matches);
      var k :| 0 <= k < |matches| && Firsts(matches)[k] == j;
      assert next[matches[k].0] == Hit(t0[matches[k].0], dets[matches[k].1], see);
      HitFate(t0[j], dets[matches[k].1], nInit, maxAge, see);
    }
  }

  /** An update keeps, corrects and starts exactly the tracks it should. */
  lemma UpdateFates(t0: seq<Track>, next: seq<Track>, t: seq<Track>, matches: seq<(int, int)>, ut: seq<int>,
                    ud: seq<int>, dets: seq<Detection>, id0: int, nInit: int, maxAge: int, see: Sight)
    requires AscendingIds(t0, id0) && SplitsRange(|t0|, Firsts(matches), ut)
    requires forall i :: 0 <= i < |t0| ==> Sane(t0[i], nInit, maxAge)
    requires Follows(t0, next, matches, ut, ud, dets, id0, nInit, maxAge, see)
    requires forall x :: x in t <==> exists u :: u in next && u.state != Deleted && x == HandedOver(u)
    ensures Fates(t0, t, matches, ut, ud, dets, id0, nInit, maxAge, see)
  {
    forall k | 0 <= k < |ut| ensures 0 <= ut[k] < |t0| { assert ut[k] in ut; }
    forall k | 0 <= k < |ut|
      ensures (t0[ut[k]].id in LiveIds(t) <==> Endures(t0[ut[k]])) && (t0[ut[k]] in t <==> Endures(t0[ut[k]]))
    {
      UnmatchedFate(t0, next, t, matches, ut, ud, dets, id0, nInit, maxAge, see, ut[k]);
    }
    forall k | 0 <= k < |matches| ensures exists u :: u in t && HitBy(t0[matches[k].0], u, dets[matches[k].1], see) {
      var i := matches[k].0;
      assert next[i] == Hit(t0[i], dets[matches[k].1], see) && next[i] in next;
      HitFate(t0[i], dets[matches[k].1], nInit, maxAge, see);
      assert HandedOver(next[i]) in t;
    }
    forall k | 0 <= k < |ud| ensures StartedBy(id0 + k, nInit, maxAge, dets[ud[k]], see) in t {
      assert next[|t0| + k] == NewTrack(id0 + k, nInit, maxAge, dets[ud[k]], see) && next[|t0| + k] in next;
      StartFate(id0 + k, nInit, maxAge, dets[ud[k]], see);
    }
    forall x | x in t ensures CameFrom(x, t0, matches, ut, ud, dets, id0, nInit, maxAge, see) {
      var u :| u in next && u.state != Deleted && x == HandedOver(u);
      SourceOf(t0, next, u, matches, ut, ud, dets, id0, nInit, maxAge, see);
    }
  }

  lemma PredictedIds(t: seq<Track>, t': seq<Track>, see: Sight)
    requires |t'| == |t| && forall i :: 0 <= i < |t| ==> t'[i] == Predicted(t[i], see)
    ensures LiveIds(t') == LiveIds(t)
  {
    forall i | 0 <= i < |t| ensures t'[i].id == t[i].id {}
    forall k | k in LiveIds(t) ensures k in LiveIds(t') {
      var i :| 0 <= i < |t| && t[i].id == k;
      assert t'[i].id == k;
    }
  }

  /** The ids followed and the gallery, at the start and after each call of a run. An id gone
      never returns, a followed id keeps its gallery entry, and a full entry stays frozen. */
  ghost predicate History(live: seq<set<int>>, galleries: seq<Samples>, nextIdx: int, budget: int) {
    |live| == |galleries| && budget >= 1
    && (forall a, k :: 0 <= a < |live| && k in live[a] ==> k < nextIdx)
    && (forall a, k :: 0 <= a < |live| && k in galleries[a] ==> k in live[a])
    && (forall a, b, c, k :: 0 <= a < b < c < |live| && k in live[a] && k !in live[b] ==> k !in live[c])
    && (forall a, b, k :: 0 <= a < b < |live| && k in galleries[a] && k in live[b] ==> k in galleries[b])
    && forall a, b :: 0 <= a < b < |live| ==> Frozen(galleries[a], galleries[b], budget)
  }

  lemma ConfirmedLive(t: seq<Track>)
    ensures ConfirmedIds(t) <= LiveIds(t)
  {
  }

  lemma FrozenThrough(a: Samples, b: Samples, c: Samples, budget: int)
    requires Frozen(a, b, budget) && Frozen(b, c, budget) && forall k :: k in a && k in c ==> k in b
    ensures Frozen(a, c, budget)
  {
  }

  lemma HistoryGrows(live: seq<set<int>>, galleries: seq<Samples>, t0: seq<Track>, before: Samples, id0: int,
                     t: seq<Track>, after: Samples, id: int, budget: int)
    requires History(live, galleries, id0, budget) && |live| > 0
    requires live[|live| - 1] == LiveIds(t0) && galleries[|live| - 1] == before
    requires Onward(t0, before, id0, t, after, id, budget) && after.Keys <= LiveIds(t)
    requires forall k :: k in LiveIds(t) ==> k < id
    ensures History(live + [LiveIds(t)], galleries + [after], id, budget)
  {
    var n := |live|;
    forall a | 0 <= a < n - 1 ensures Frozen(galleries[a], after, budget) {
      forall k | k in galleries[a] && k in after ensures k in before {
        assert k in live[a] && k in LiveIds(t) && k in live[n - 1];
      }
      FrozenThrough(galleries[a], before, after, budget);
    }
    forall a, k | 0 <= a < n && k in galleries[a] && k in LiveIds(t) ensures k in after {
      assert k in live[a] && k < id0 && k in live[n - 1];
    }
    forall a, b, k | 0 <= a < b < n && k in live[a] && k !in live[b] ensures k !in LiveIds(t) {
      assert k < id0;
      assert k !in live[n - 1];
    }
  }

  datatype Call = Predict | Update(dets: seq<Detection>)

  /** Any run of calls keeps the invariant, and after every update no track is overdue. The
      history of the run: ids are never reused and full gallery entries are frozen. */
  method Run(tracker: Tracker, calls: seq<Call>, see: Sight)
    returns (ghost live: seq<set<int>>, ghost galleries: seq<Samples>)
    requires tracker.Valid() && ProperSight(see)
    modifies tracker, tracker.metric
    ensures tracker.Valid() && tracker.nextIdx >= old(tracker.nextIdx)
    ensures |calls| > 0 && calls[|calls| - 1].Update? ==> tracker.Current()
    ensures |live| == |calls| + 1 && History(live, galleries, tracker.nextIdx, tracker.metric.budget)
    ensures live[0] == LiveIds(old(tracker.tracks)) && galleries[0] == old(tracker.metric.samples)
    ensures live[|calls|] == LiveIds(tracker.tracks) && galleries[|calls|] == tracker.metric.samples
  {
    live, galleries := [LiveIds(tracker.tracks)], [tracker.metric.samples];
    ConfirmedLive(tracker.tracks);
    for k := 0 to |calls|
      invariant tracker.Valid() && tracker.nextIdx >= old(tracker.nextIdx)
      invariant k > 0 && calls[k - 1].Update? ==> tracker.Current()
      invariant |live| == k + 1 && History(live, galleries, tracker.nextIdx, tracker.metric.budget)
      invariant live[0] == LiveIds(old(tracker.tracks)) && galleries[0] == old(tracker.metric.samples)
      invariant live[k] == LiveIds(tracker.tracks) && galleries[k] == tracker.metric.samples
    {
      live, galleries := OneCall(tracker, calls[k], see, live, galleries);
    }
  }

  method OneCall(tracker: Tracker, call: Call, see: Sight, ghost live0: seq<set<int>>, ghost galleries0: seq<Samples>)
    returns (ghost live: seq<set<int>>, ghost galleries: seq<Samples>)
    requires tracker.Valid() && ProperSight(see)
    requires |live0| > 0 && History(live0, galleries0, tracker.nextIdx, tracker.metric.budget)
    requires live0[|live0| - 1] == LiveIds(tracker.tracks) && galleries0[|live0| - 1] == tracker.metric.samples
    modifies tracker, tracker.metric
    ensures tracker.Valid() && tracker.nextIdx >= old(tracker.nextIdx) && (call.Update? ==> tracker.Current())
    ensures live == live0 + [LiveIds(tracker.tracks)] && galleries == galleries0 + [tracker.metric.samples]
    ensures History(live, galleries, tracker.nextIdx, tracker.metric.budget)
  {
    ghost var t0, before, id0 := tracker.tracks, tracker.metric.samples, tracker.nextIdx;
    match call {
      case Predict => tracker.Predict(see);
      case Update(dets) =>
        ghost var matches, ut, ud, next, story;
        matches, ut, ud, next, story := tracker.Update(dets, see);
    }
    ConfirmedLive(tracker.tracks);
    HistoryGrows(live0, galleries0, t0, before, id0, tracker.tracks, tracker.metric.samples, tracker.nextIdx,
                 tracker.metric.budget);
    live, galleries := live0 + [LiveIds(tracker.tracks)], galleries0 + [tracker.metric.samples];
  }
}
