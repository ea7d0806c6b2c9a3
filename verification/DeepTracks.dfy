/** The track records of the DeepSORT tracker and the feature gallery. */
module DeepTracks {

  type Feature = seq<real>

  datatype State = Tentative | Confirmed | Deleted

  /** Kalman mean and covariance, or the box of a detection. */
  datatype Body = Body(mean: seq<real>, covariance: seq<seq<real>>)

  datatype Detection = Detection(body: Body, feature: Feature, cls: int, conf: real)

  datatype Track = Track(id: int, state: State, hits: int, age: int, sinceUpdate: int, nInit: int, maxAge: int,
                         features: seq<Feature>, body: Body, cls: int, conf: real)

  /** Filter start, prediction and correction, the appearance distance with its gate, and the
      IoU distance. */
  datatype Sight = Sight(initiate: Body -> Body, predict: Body -> Body, correct: (Body, Body) -> Body,
                         gated: (seq<Feature>, Track, Detection) -> real, overlap: (Track, Detection) -> real)

  /** The constructor of `Track`. */
  function NewTrack(id: int, nInit: int, maxAge: int, det: Detection, see: Sight): Track {
    Track(id, Tentative, 1, 1, 0, nInit, maxAge, [det.feature], see.initiate(det.body), det.cls, det.conf)
  }

  /** `Track::predit`. */
  function Predicted(t: Track, see: Sight): Track {
    t.(body := see.predict(t.body), age := t.age + 1, sinceUpdate := t.sinceUpdate + 1)
  }

  /** `Track::update`: a tentative track is confirmed once it has n_init hits. */
  function Hit(t: Track, det: Detection, see: Sight): Track {
    t.(body := see.correct(t.body, det.body), features := t.features + [det.feature], hits := t.hits + 1,
       sinceUpdate := 0, cls := det.cls, conf := det.conf,
       state := if t.state == Tentative && t.hits + 1 >= t.nInit then Confirmed else t.state)
  }

  /** `Track::mark_missed`. */
  function Missed(t: Track): Track {
    if t.state == Tentative then t.(state := Deleted)
    else if t.sinceUpdate > t.maxAge then t.(state := Deleted)
    else t
  }

  // ---- the gallery ------------------------------------------------------------------

  /** When the row copies of `partial_fit` stay inside the stored matrix. */
  predicate Storable(old_: nat, add: nat, budget: nat) {
    old_ + add <= budget || add >= budget || (add >= 1 && old_ >= budget - 1)
  }

  /** A block of rows from start on lies inside a matrix of that size. */
  predicate BlockFits(start: int, rows: int, size: int) {
    0 <= start && 0 <= rows && start + rows <= size
  }

  /** Those are exactly the sizes for which every block copied in `partial_fit` lies inside its matrix:
      the first rows offered, or old rows from add - 1 on and then the rows offered. */
  lemma StorableIff(old_: nat, add: nat, budget: nat)
    ensures Storable(old_, add, budget)
            <==> (old_ + add <= budget
                  || (if add >= budget then BlockFits(0, budget, add)
                      else BlockFits(add - 1, budget - add, old_) && BlockFits(budget - add, add, budget)))
  {
  }

  /** The rows kept for a track that already has some. A full gallery keeps rows add - 1 up to
      budget - 2 of the old ones: with one new row that drops the newest old row, not the
      oldest. */
  function Stored(old_: seq<Feature>, add: seq<Feature>, budget: nat): seq<Feature>
    requires Storable(|old_|, |add|, budget)
  {
    if |old_| + |add| <= budget then old_ + add
    else if |add| >= budget then add[..budget]
    else old_[|add| - 1..budget - 1] + add + (if |old_| <= budget then [] else old_[budget..])
  }

  /** The last budget rows, or all of them when there are fewer: a sliding window. */
  function Window(rows: seq<Feature>, budget: nat): seq<Feature> {
    if |rows| <= budget then rows else rows[|rows| - budget..]
  }

  /** Exactly when the gallery slides: there is room left after the last copied row, or the rows
      that would have to move are equal to their neighbours. */
  predicate Slides(old_: seq<Feature>, add: seq<Feature>, budget: nat)
    requires Storable(|old_|, |add|, budget)
  {
    if |old_| + |add| <= budget then true
    else if |add| >= budget then forall k :: 0 <= k < budget ==> add[k] == add[|add| - budget + k]
    else |old_| < budget || forall k {:trigger old_[k]} :: |add| - 1 <= k < budget - 1 ==> old_[k] == old_[k + 1]
  }

  lemma SlidesIff(old_: seq<Feature>, add: seq<Feature>, budget: nat)
    requires Storable(|old_|, |add|, budget) && 1 <= |old_| <= budget
    ensures Stored(old_, add, budget) == Window(old_ + add, budget) <==> Slides(old_, add, budget)
  {
    var kept, window := Stored(old_, add, budget), Window(old_ + add, budget);
    if |old_| + |add| > budget {
      assert |kept| == budget == |window|;
      var from := |old_| + |add| - budget;
      if |add| >= budget {
        forall k | 0 <= k < budget ensures kept[k] == add[k] && window[k] == add[|add| - budget + k] {}
      } else {
        forall k | 0 <= k < budget - |add| ensures kept[k] == old_[|add| - 1 + k] && window[k] == old_[from + k] {}
        forall k | budget - |add| <= k < budget ensures kept[k] == window[k] {}
        if |old_| == budget && kept == window {
          forall k | |add| - 1 <= k < budget - 1 ensures old_[k] == old_[k + 1] {
            assert kept[k - |add| + 1] == window[k - |add| + 1];
          }
        }
      }
    }
  }

  /** With one new row: a full gallery slides only if all its rows are equal. */
  lemma OneRowSlidesIff(old_: seq<Feature>, f: Feature, budget: nat)
    requires 2 <= budget && 1 <= |old_| <= budget
    ensures Stored(old_, [f], budget) == Window(old_ + [f], budget)
            <==> |old_| < budget || forall k {:trigger old_[k]} :: 0 <= k < budget - 1 ==> old_[k] == old_[k + 1]
  {
    SlidesIff(old_, [f], budget);
  }

  /** The gallery of a track fitted with one row at a time. */
  function Fed(rows: seq<Feature>, budget: nat): (kept: seq<Feature>)
    requires |rows| >= 1 && budget >= 2
    ensures 1 <= |kept| <= budget
  {
    var n := |rows| - 1;
    if n == 0 then rows else Stored(Fed(rows[..n], budget), [rows[n]], budget)
  }

  /** It holds the first budget - 1 rows ever fitted, and the last. */
  lemma {:induction false} FedHolds(rows: seq<Feature>, budget: nat)
    requires |rows| >= 1 && budget >= 2
    ensures Fed(rows, budget) == if |rows| <= budget then rows else rows[..budget - 1] + [rows[|rows| - 1]]
  {
    var n := |rows| - 1;
    if n > 0 {
      FedHolds(rows[..n], budget);
      assert rows == rows[..n] + [rows[n]];
      if n >= budget {
        FullGalleryReplacesNewest(Fed(rows[..n], budget), rows[n], budget);
        assert rows[..n][..budget - 1] == rows[..budget - 1];
      }
    }
  }

  /** So after any number of fits it is the window of the last rows if and only if the first rows
      repeat there. */
  lemma FedSlidesIff(rows: seq<Feature>, budget: nat)
    requires |rows| >= 1 && budget >= 2
    ensures Fed(rows, budget) == Window(rows, budget)
            <==> |rows| <= budget
                 || forall k {:trigger rows[k]} :: 0 <= k < budget - 1 ==> rows[k] == rows[|rows| - budget + k]
  {
    FedHolds(rows, budget);
    if |rows| > budget {
      var kept, window := Fed(rows, budget), Window(rows, budget);
      forall k | 0 <= k < budget - 1 ensures kept[k] == rows[k] && window[k] == rows[|rows| - budget + k] {}
    }
  }

  /** With one new row a full gallery keeps all its rows but the newest, which is replaced. */
  lemma FullGalleryReplacesNewest(old_: seq<Feature>, f: Feature, budget: nat)
    requires budget >= 2 && |old_| == budget
    ensures Stored(old_, [f], budget) == old_[..budget - 1] + [f]
  {
    assert old_[0..budget - 1] == old_[..budget - 1];
  }

  lemma StoredSize(old_: seq<Feature>, add: seq<Feature>, budget: nat)
    requires Storable(|old_|, |add|, budget) && 1 <= |old_| <= budget
    ensures 1 <= |Stored(old_, add, budget)| <= budget
  {
  }

  type Samples = map<int, seq<Feature>>

  ghost predicate DistinctKeys(data: seq<(int, seq<Feature>)>) {
    forall i, j :: 0 <= i < j < |data| ==> data[i].0 != data[j].0
  }

  /** What the gallery holds for a key after a fit: stored rows, or the first rows offered. */
  ghost predicate FitKey(before: Samples, after: Samples, key: int, add: seq<Feature>, budget: nat) {
    key in after
    && (key in before ==> Storable(|before[key]|, |add|, budget) && after[key] == Stored(before[key], add, budget))
    && (key !in before ==> after[key] == add)
  }

  class Gallery {
    const budget: nat
    var samples: Samples

    constructor (budget: nat)
      ensures this.budget == budget && samples == map[]
    {
      this.budget := budget;
      samples := map[];
    }

    /** `partial_fit`: adds the offered rows, then drops every key that is not active. */
    method PartialFit(data: seq<(int, seq<Feature>)>, active: seq<int>)
      requires DistinctKeys(data)
      requires forall k :: 0 <= k < |data| && data[k].0 in samples ==>
                 Storable(|samples[data[k].0]|, |data[k].1|, budget)
      modifies this
      ensures forall k :: 0 <= k < |data| && data[k].0 in active ==>
                FitKey(old(samples), samples, data[k].0, data[k].1, budget)
      ensures forall key :: key in samples <==>
                key in active && (key in old(samples) || exists k :: 0 <= k < |data| && data[k].0 == key)
      ensures forall key :: key in samples && (forall k :: 0 <= k < |data| ==> data[k].0 != key) ==>
                samples[key] == old(samples)[key]
    {
      var s := Offer(data);
      samples := map key | key in s && key in active :: s[key];
    }

    /** The first loop of `partial_fit`. */
    method Offer(data: seq<(int, seq<Feature>)>) returns (s: Samples)
      requires DistinctKeys(data)
      requires forall k :: 0 <= k < |data| && data[k].0 in samples ==>
                 Storable(|samples[data[k].0]|, |data[k].1|, budget)
      ensures forall k :: 0 <= k < |data| ==> FitKey(samples, s, data[k].0, data[k].1, budget)
      ensures forall key :: key in s <==> key in samples || exists k :: 0 <= k < |data| && data[k].0 == key
      ensures forall key :: key in s && (forall k :: 0 <= k < |data| ==> data[k].0 != key) ==> s[key] == samples[key]
    {
      s := samples;
      for k := 0 to |data|
        invariant forall m :: 0 <= m < k ==> FitKey(samples, s, data[m].0, data[m].1, budget)
        invariant forall key :: key in s <==> key in samples || exists m :: 0 <= m < k && data[m].0 == key
        invariant forall key :: key in s && (forall m :: 0 <= m < k ==> data[m].0 != key) ==> s[key] == samples[key]
      {
        var (id, add) := data[k];
        assert forall m :: 0 <= m < k ==> data[m].0 != data[k].0;
        s := OfferOne(s, id, add);
      }
    }

    method OfferOne(s0: Samples, id: int, add: seq<Feature>) returns (s: Samples)
      requires id in s0 ==> Storable(|s0[id]|, |add|, budget)
      ensures FitKey(s0, s, id, add, budget)
      ensures s.Keys == s0.Keys + {id} && forall key :: key in s0 && key != id ==> s[key] == s0[key]
    {
      if id in s0 {
        var rows := Fit(s0[id], add);
        s := s0[id := rows];
      } else {
        s := s0[id := add];
      }
    }

    /** The branches of `partial_fit` for a key that is already present. */
    method Fit(rows: seq<Feature>, add: seq<Feature>) returns (r: seq<Feature>)
      requires Storable(|rows|, |add|, budget)
      ensures r == Stored(rows, add, budget)
    {
      var oldSize, addSize := |rows|, |add|;
      if oldSize + addSize <= budget {
        r := rows + add;
      } else if oldSize < budget {
        if addSize >= budget { r := add[..budget]; } else { r := rows[addSize - 1..budget - 1] + add; }
      } else {
        if addSize >= budget { r := add[..budget]; } else { r := rows[addSize - 1..budget - 1] + add + rows[budget..]; }
      }
    }
  }
}
