/** The three matching rounds of one ByteTrack frame. */
module ByteRounds {
  import opened Assignment
  import opened Lapjv
  import opened PartialMatching
  import opened ByteAssignment
  import opened ByteLists

  /** A pointer into the tracked list or into the lost list. */
  datatype Ref = Held(i: nat) | Waiting(i: nat)

  /** The lists one frame works on: the two track lists, updated through pointers, and the
      copies collected on the way. */
  datatype Work = Work(tracked: seq<STrack>, lost: seq<STrack>, activated: seq<STrack>, refind: seq<STrack>,
                       newlyLost: seq<STrack>, newlyRemoved: seq<STrack>)

  predicate InBounds(w: Work, r: Ref) {
    match r case Held(i) => i < |w.tracked| case Waiting(i) => i < |w.lost|
  }

  function At(w: Work, r: Ref): STrack
    requires InBounds(w, r)
  {
    match r case Held(i) => w.tracked[i] case Waiting(i) => w.lost[i]
  }

  function Put(w: Work, r: Ref, t: STrack): (w': Work)
    requires InBounds(w, r)
    ensures forall q :: InBounds(w, q) ==> InBounds(w', q) && At(w', q) == if q == r then t else At(w, q)
  {
    match r case Held(i) => w.(tracked := w.tracked[i := t]) case Waiting(i) => w.(lost := w.lost[i := t])
  }

  ghost predicate Refs(w: Work, s: seq<Ref>) {
    (forall a :: 0 <= a < |s| ==> InBounds(w, s[a])) && forall a, b :: 0 <= a < b < |s| ==> s[a] != s[b]
  }

  ghost predicate Proper(see: Vision) {
    forall p, q :: 0.0 <= see.distance(p, q) < LARGE
  }

  // ---- what a frame preserves ------------------------------------------------

  /** Matched in this frame. */
  ghost predicate Alive(t: STrack, frame: int) {
    t.state == Tracked && t.frame == frame && t.activated
  }

  ghost predicate SameTrack(t: STrack, u: STrack) {
    t.id == u.id && t.start == u.start
  }

  /** A tracked entry: matched, still undecided, or given up this frame. */
  ghost predicate HeldStep(t0: STrack, t: STrack, frame: int, newlyLost: set<int>) {
    SameTrack(t0, t)
    && (Alive(t, frame)
        || (t.frame == t0.frame
            && ((t.state == Tracked && t.activated == t0.activated)
                || (t.state == Lost && t.id in newlyLost)
                || t.state == Removed)))
  }

  /** A lost entry: matched, or left as it was. */
  ghost predicate WaitingStep(t0: STrack, t: STrack, frame: int) {
    SameTrack(t0, t) && (Alive(t, frame) || (t.frame == t0.frame && t.state == t0.state))
  }

  ghost function AliveIds(s: seq<STrack>, frame: int): set<int> {
    set i | 0 <= i < |s| && Alive(s[i], frame) :: s[i].id
  }

  ghost function LostIds(s: seq<STrack>): set<int> {
    set i | 0 <= i < |s| && s[i].state == Lost :: s[i].id
  }

  /** The lists when the frame starts: at frame - 1 every tracked entry was matched, and no
      lost entry carries the state Tracked. */
  ghost predicate Before(t0: seq<STrack>, l0: seq<STrack>, frame: int) {
    DistinctIds(t0) && DistinctIds(l0) && Ids(t0) !! Ids(l0)
    && (forall i :: 0 <= i < |t0| ==> t0[i].state == Tracked && t0[i].frame == frame - 1)
    && (forall i :: 0 <= i < |l0| ==> (l0[i].state == Lost || l0[i].state == Removed) && l0[i].frame < frame - 1)
  }

  ghost predicate Sound(w: Work, t0: seq<STrack>, l0: seq<STrack>, frame: int) {
    |w.tracked| == |t0| && |w.lost| == |l0|
    && (forall i :: 0 <= i < |t0| ==> HeldStep(t0[i], w.tracked[i], frame, Ids(w.newlyLost)))
    && (forall i :: 0 <= i < |l0| ==> WaitingStep(l0[i], w.lost[i], frame))
    && (forall t :: t in w.activated ==> Alive(t, frame) && t.id in AliveIds(w.tracked, frame))
    && (forall t :: t in w.refind ==> Alive(t, frame))
    && Ids(w.refind) == AliveIds(w.lost, frame)
    && (forall t :: t in w.newlyLost ==> t.state == Lost && t.frame == frame - 1)
    && Ids(w.newlyLost) == LostIds(w.tracked) && DistinctIds(w.newlyLost)
    && (forall t :: t in w.newlyRemoved ==> t.state == Removed)
  }

  /** The copies collected so far: refound tracks, newly lost ones and newly removed ones, each
      exactly as its entry stands. */
  ghost predicate Copied(w: Work, frame: int) {
    (forall t :: t in w.refind <==> t in w.lost && Alive(t, frame))
    && (forall t :: t in w.newlyLost <==> t in w.tracked && t.state == Lost)
    && forall t :: t in w.newlyRemoved <==> t in w.tracked && t.state == Removed
  }

  /** Not decided yet in this frame. */
  ghost predicate Pending(t: STrack, frame: int) {
    t.state == Tracked && t.frame != frame
  }

  /** One match: the track behind r is hit, and a copy goes to the right list. */
  function HitAt(w: Work, r: Ref, det: STrack, frame: int, see: Vision): Work
    requires InBounds(w, r)
  {
    var t := Hit(At(w, r), det, frame, see);
    if At(w, r).state == Tracked then Put(w, r, t).(activated := w.activated + [t])
    else Put(w, r, t).(refind := w.refind + [t])
  }

  lemma AliveIdsPut(s: seq<STrack>, i: nat, t: STrack, frame: int)
    requires i < |s| && t.id == s[i].id && Alive(t, frame)
    ensures AliveIds(s[i := t], frame) == AliveIds(s, frame) + {t.id}
  {
    var s' := s[i := t];
    forall k | 0 <= k < |s| && Alive(s[k], frame) ensures s[k].id in AliveIds(s', frame) {
      assert s'[k].id == s[k].id && Alive(s'[k], frame);
    }
    assert s'[i] == t;
  }

  lemma LostIdsPut(s: seq<STrack>, i: nat, t: STrack)
    requires i < |s| && t.id == s[i].id && s[i].state != Lost
    ensures LostIds(s[i := t]) == LostIds(s) + (if t.state == Lost then {t.id} else {})
  {
    var s' := s[i := t];
    forall k | 0 <= k < |s| && s[k].state == Lost ensures s[k].id in LostIds(s') {
      assert s'[k] == s[k];
    }
    assert s'[i] == t;
  }

  lemma HitHeld(w: Work, t0: seq<STrack>, l0: seq<STrack>, frame: int, i: nat, det: STrack, see: Vision)
    requires Before(t0, l0, frame) && Sound(w, t0, l0, frame)
    requires i < |w.tracked| && w.tracked[i].state == Tracked
    ensures Sound(HitAt(w, Held(i), det, frame, see), t0, l0, frame)
  {
    var t := Hit(w.tracked[i], det, frame, see);
    AliveIdsPut(w.tracked, i, t, frame);
    LostIdsPut(w.tracked, i, t);
  }

  lemma HitWaiting(w: Work, t0: seq<STrack>, l0: seq<STrack>, frame: int, i: nat, det: STrack, see: Vision)
    requires Before(t0, l0, frame) && Sound(w, t0, l0, frame)
    requires i < |w.lost| && w.lost[i].state != Tracked
    ensures Sound(HitAt(w, Waiting(i), det, frame, see), t0, l0, frame)
  {
    var t := Hit(w.lost[i], det, frame, see);
    AliveIdsPut(w.lost, i, t, frame);
    IdsPush(w.refind, t);
  }

  /** Giving up an undecided entry: it becomes Lost and a copy is kept. */
  lemma MarkLostStep(w: Work, t0: seq<STrack>, l0: seq<STrack>, frame: int, i: nat)
    requires Before(t0, l0, frame) && Sound(w, t0, l0, frame)
    requires i < |w.tracked| && Pending(w.tracked[i], frame)
    ensures var t := w.tracked[i].(state := Lost);
            Sound(Put(w, Held(i), t).(newlyLost := w.newlyLost + [t]), t0, l0, frame)
  {
    var t := w.tracked[i].(state := Lost);
    var s := w.tracked[i := t];
    LostIdsPut(w.tracked, i, t);
    IdsPush(w.newlyLost, t);
    AliveUnchanged(w.tracked, i, t, frame);
    forall k | 0 <= k < |w.newlyLost| ensures w.newlyLost[k].id != t.id {
      assert w.newlyLost[k].id in LostIds(w.tracked);
      var m :| 0 <= m < |t0| && w.tracked[m].state == Lost && w.tracked[m].id == w.newlyLost[k].id;
      assert m != i && t0[m].id != t0[i].id;
    }
  }

  lemma AliveUnchanged(s: seq<STrack>, i: nat, t: STrack, frame: int)
    requires i < |s| && !Alive(t, frame) && !Alive(s[i], frame)
    ensures AliveIds(s[i := t], frame) == AliveIds(s, frame)
  {
    var s' := s[i := t];
    forall k | 0 <= k < |s| && Alive(s[k], frame) ensures s[k].id in AliveIds(s', frame) {
      assert s'[k] == s[k];
    }
  }

  lemma MarkRemovedStep(w: Work, t0: seq<STrack>, l0: seq<STrack>, frame: int, i: nat)
    requires Before(t0, l0, frame) && Sound(w, t0, l0, frame)
    requires i < |w.tracked| && Pending(w.tracked[i], frame)
    ensures var t := w.tracked[i].(state := Removed);
            Sound(Put(w, Held(i), t).(newlyRemoved := w.newlyRemoved + [t]), t0, l0, frame)
  {
    var t := w.tracked[i].(state := Removed);
    LostIdsPut(w.tracked, i, t);
    AliveUnchanged(w.tracked, i, t, frame);
  }

  /** Overwriting an entry that is not of a kind adds to that kind at most the new entry. */
  lemma KindAfterPut(s: seq<STrack>, i: nat, t: STrack, kind: STrack -> bool)
    requires i < |s| && !kind(s[i])
    ensures forall u :: u in s[i := t] && kind(u) <==> (u in s && kind(u)) || (u == t && kind(t))
  {
    var s' := s[i := t];
    forall u | u in s && kind(u) ensures u in s' {
      var k :| 0 <= k < |s| && s[k] == u;
      assert s'[k] == u;
    }
    assert s'[i] == t;
  }

  lemma CopiedHit(w: Work, frame: int, r: Ref, det: STrack, see: Vision)
    requires Copied(w, frame) && InBounds(w, r)
    requires if r.Held? then At(w, r).state == Tracked else At(w, r).state != Tracked
    ensures Copied(HitAt(w, r, det, frame, see), frame)
  {
    var t := Hit(At(w, r), det, frame, see);
    if r.Held? {
      KindAfterPut(w.tracked, r.i, t, (u: STrack) => u.state == Lost);
      KindAfterPut(w.tracked, r.i, t, (u: STrack) => u.state == Removed);
    } else {
      KindAfterPut(w.lost, r.i, t, (u: STrack) => u.state == Tracked && u.frame == frame && u.activated);
    }
  }

  lemma CopiedGiveUp(w: Work, frame: int, r: Ref, to: State)
    requires Copied(w, frame) && InBounds(w, r) && r.Held? && At(w, r).state == Tracked && (to == Lost || to == Removed)
    ensures Copied(GiveUpAt(w, r, to), frame)
  {
    var t := At(w, r).(state := to);
    KindAfterPut(w.tracked, r.i, t, (u: STrack) => u.state == Lost);
    KindAfterPut(w.tracked, r.i, t, (u: STrack) => u.state == Removed);
  }

  // ---- the steps of a frame ----------------------------------------------------

  /** Splits the tracked list by is_activated. */
  method Partition(w: Work) returns (confirmed: seq<Ref>, unconfirmed: seq<Ref>)
    ensures Refs(w, confirmed) && Refs(w, unconfirmed)
    ensures forall r :: r in confirmed <==> r.Held? && r.i < |w.tracked| && w.tracked[r.i].activated
    ensures forall r :: r in unconfirmed <==> r.Held? && r.i < |w.tracked| && !w.tracked[r.i].activated
  {
    confirmed, unconfirmed := [], [];
    for i := 0 to |w.tracked|
      invariant Refs(w, confirmed) && Refs(w, unconfirmed)
      invariant forall r :: r in confirmed <==> r.Held? && r.i < i && w.tracked[r.i].activated
      invariant forall r :: r in unconfirmed <==> r.Held? && r.i < i && !w.tracked[r.i].activated
    {
      assert forall a :: 0 <= a < |confirmed| ==> confirmed[a] in confirmed;
      assert forall a :: 0 <= a < |unconfirmed| ==> unconfirmed[a] in unconfirmed;
      if !w.tracked[i].activated {
        unconfirmed := unconfirmed + [Held(i)];
      } else {
        confirmed := confirmed + [Held(i)];
      }
    }
  }

  /** `joint_stracks` on pointers: the confirmed tracks, then every lost one whose id is new. */
  method JointRefs(w: Work, confirmed: seq<Ref>) returns (pool: seq<Ref>)
    requires Refs(w, confirmed) && forall r :: r in confirmed ==> r.Held?
    requires DistinctIds(w.lost) && Ids(w.tracked) !! Ids(w.lost)
    ensures Refs(w, pool)
    ensures pool == confirmed + seq(|w.lost|, i requires 0 <= i < |w.lost| => Waiting(i))
    ensures forall r :: r in pool <==> r in confirmed || (r.Waiting? && r.i < |w.lost|)
  {
    var exists_: set<int> := {};
    for i := 0 to |confirmed|
      invariant forall k :: k in exists_ ==> k in Ids(w.tracked)
    {
      assert InBounds(w, confirmed[i]) && confirmed[i] in confirmed;
      exists_ := exists_ + {At(w, confirmed[i]).id};
    }
    pool := confirmed;
    for i := 0 to |w.lost|
      invariant Refs(w, pool) && pool == confirmed + seq(i, k requires 0 <= k < i => Waiting(k))
      invariant forall r :: r in pool <==> r in confirmed || (r.Waiting? && r.i < i)
      invariant forall k :: k in exists_ ==> k in Ids(w.tracked) || exists m :: 0 <= m < i && w.lost[m].id == k
    {
      var tid := w.lost[i].id;
      assert tid in Ids(w.lost);
      assert forall a :: 0 <= a < |pool| ==> pool[a] in pool;
      if tid !in exists_ {
        exists_ := exists_ + {tid};
        pool := pool + [Waiting(i)];
      }
    }
  }

  function PredictTrack(t: STrack, see: Vision): STrack {
    t.(body := see.predict(t.body, t.state == Tracked))
  }

  /** `multi_predict`: moves the body of every pooled track, and of no other. */
  method Predict(w0: Work, pool: seq<Ref>, see: Vision) returns (w: Work)
    requires Refs(w0, pool)
    ensures |w.tracked| == |w0.tracked| && |w.lost| == |w0.lost|
    ensures w.(tracked := w0.tracked, lost := w0.lost) == w0
    ensures forall r :: InBounds(w0, r) ==>
      At(w, r) == if r in pool then PredictTrack(At(w0, r), see) else At(w0, r)
  {
    w := w0;
    for k := 0 to |pool|
      invariant |w.tracked| == |w0.tracked| && |w.lost| == |w0.lost|
      invariant w.(tracked := w0.tracked, lost := w0.lost) == w0
      invariant forall r :: InBounds(w0, r) ==>
        At(w, r) == if r in pool[..k] then PredictTrack(At(w0, r), see) else At(w0, r)
    {
      var t := At(w, pool[k]);
      assert pool[..k + 1] == pool[..k] + [pool[k]];
      assert pool[k] !in pool[..k];
      w := Put(w, pool[k], PredictTrack(t, see));
    }
    assert pool[..|pool|] == pool;
  }

  /** `iou_distance`: no matrix at all when one side is empty. */
  method Distances(w: Work, pool: seq<Ref>, dets: seq<STrack>, see: Vision) returns (c: Matrix)
    requires Refs(w, pool)
    ensures if |pool| == 0 || |dets| == 0 then c == [] else HasShape(c, |pool|, |dets|)
    ensures |c| > 0 ==> forall a, b :: 0 <= a < |pool| && 0 <= b < |dets| ==>
              c[a][b] == see.distance(At(w, pool[a]).body, dets[b].body)
  {
    c := [];
    if |pool| == 0 || |dets| == 0 { return; }
    for a := 0 to |pool|
      invariant |c| == a && forall k :: 0 <= k < a ==> |c[k]| == |dets|
      invariant forall k, b :: 0 <= k < a && 0 <= b < |dets| ==>
                  c[k][b] == see.distance(At(w, pool[k]).body, dets[b].body)
    {
      var row := [];
      for b := 0 to |dets|
        invariant |row| == b && forall m :: 0 <= m < b ==> row[m] == see.distance(At(w, pool[a]).body, dets[m].body)
      {
        row := row + [see.distance(At(w, pool[a]).body, dets[b].body)];
      }
      c := c + [row];
    }
  }

  /** The lists a round reports, read off a matching that is minimal for its distances. */
  ghost predicate Round(w: Work, pool: seq<Ref>, dets: seq<STrack>, thresh: real, see: Vision,
                        matches: seq<(int, int)>, ut: seq<int>, ud: seq<int>, sol: seq<int>) {
    Refs(w, pool) && Matching(sol, |pool|, |dets|) && Reports(sol, |pool|, |dets|, matches, ut, ud)
    && (|pool| > 0 && |dets| > 0 ==>
          exists c :: HasShape(c, |pool|, |dets|) && Minimal(c, sol, thresh, |pool|, |dets|)
            && forall a, b :: 0 <= a < |pool| && 0 <= b < |dets| ==>
                 c[a][b] == see.distance(At(w, pool[a]).body, dets[b].body))
  }

  method MatchRound(w: Work, pool: seq<Ref>, dets: seq<STrack>, thresh: real, see: Vision)
    returns (matches: seq<(int, int)>, ut: seq<int>, ud: seq<int>, ghost sol: seq<int>)
    requires Refs(w, pool) && Proper(see) && 0.0 <= thresh < 2.0 * LARGE
    ensures Round(w, pool, dets, thresh, see, matches, ut, ud, sol)
    ensures exists s :: Round(w, pool, dets, thresh, see, matches, ut, ud, s)
  {
    var c := Distances(w, pool, dets, see);
    forall a, b | |c| > 0 && 0 <= a < |pool| && 0 <= b < |dets| ensures 0.0 <= c[a][b] < LARGE {
      assert c[a][b] == see.distance(At(w, pool[a]).body, dets[b].body);
    }
    matches, ut, ud, sol := LinearAssignment(c, |pool|, |dets|, thresh);
    assert Round(w, pool, dets, thresh, see, matches, ut, ud, sol);
  }

  /** The pairs a round may report for a pool: increasing rows, in bounds. */
  ghost predicate Pairs(pool: seq<Ref>, dets: seq<STrack>, matches: seq<(int, int)>) {
    (forall a, b :: 0 <= a < b < |matches| ==> matches[a].0 < matches[b].0)
    && forall k :: 0 <= k < |matches| ==> 0 <= matches[k].0 < |pool| && 0 <= matches[k].1 < |dets|
  }

  /** The first k matches are applied: each matched track is hit by its own detection, and
      nothing else changes in the two lists. */
  ghost predicate Applied(w0: Work, w: Work, pool: seq<Ref>, dets: seq<STrack>, matches: seq<(int, int)>, k: int,
                          frame: int, see: Vision)
    requires Refs(w0, pool) && Pairs(pool, dets, matches) && 0 <= k <= |matches|
  {
    |w.tracked| == |w0.tracked| && |w.lost| == |w0.lost|
    && w.newlyLost == w0.newlyLost && w.newlyRemoved == w0.newlyRemoved
    && (forall m :: 0 <= m < k ==>
          At(w, pool[matches[m].0]) == Hit(At(w0, pool[matches[m].0]), dets[matches[m].1], frame, see))
    && (forall r :: InBounds(w0, r) && (forall m :: 0 <= m < k ==> pool[matches[m].0] != r) ==> At(w, r) == At(w0, r))
  }

  lemma HitAtFrame(w: Work, r: Ref, det: STrack, frame: int, see: Vision)
    requires InBounds(w, r)
    ensures var w' := HitAt(w, r, det, frame, see);
            |w'.tracked| == |w.tracked| && |w'.lost| == |w.lost|
            && w'.newlyLost == w.newlyLost && w'.newlyRemoved == w.newlyRemoved
            && forall q :: InBounds(w, q) ==> At(w', q) == if q == r then Hit(At(w, r), det, frame, see) else At(w, q)
  {
  }

  lemma ApplyStep(w0: Work, w: Work, w': Work, pool: seq<Ref>, dets: seq<STrack>, matches: seq<(int, int)>, k: int,
                  frame: int, see: Vision)
    requires Refs(w0, pool) && Pairs(pool, dets, matches) && 0 <= k < |matches|
    requires Applied(w0, w, pool, dets, matches, k, frame, see)
    requires var r := pool[matches[k].0]; InBounds(w, r) && w' == HitAt(w, r, dets[matches[k].1], frame, see)
    ensures At(w, pool[matches[k].0]) == At(w0, pool[matches[k].0])
    ensures Applied(w0, w', pool, dets, matches, k + 1, frame, see)
  {
    var r := pool[matches[k].0];
    HitAtFrame(w, r, dets[matches[k].1], frame, see);
    assert forall m :: 0 <= m < k ==> matches[m].0 < matches[k].0 && pool[matches[m].0] != r;
  }

  /** A pool whose held entries are undecided and whose other entries are not tracked. */
  ghost predicate Eligible(w: Work, pool: seq<Ref>, frame: int) {
    Refs(w, pool)
    && forall a :: 0 <= a < |pool| ==>
         if pool[a].Held? then Pending(At(w, pool[a]), frame) else At(w, pool[a]).state != Tracked
  }

  /** Applies a round's matches through the pointers. */
  method ApplyMatches(w0: Work, pool: seq<Ref>, dets: seq<STrack>, matches: seq<(int, int)>, frame: int, see: Vision,
                      ghost t0: seq<STrack>, ghost l0: seq<STrack>)
    returns (w: Work)
    requires Before(t0, l0, frame) && Sound(w0, t0, l0, frame) && Copied(w0, frame)
    requires Eligible(w0, pool, frame) && Pairs(pool, dets, matches)
    ensures Sound(w, t0, l0, frame) && Copied(w, frame)
    ensures Applied(w0, w, pool, dets, matches, |matches|, frame, see)
  {
    w := w0;
    for k := 0 to |matches|
      invariant Sound(w, t0, l0, frame) && Copied(w, frame) && Applied(w0, w, pool, dets, matches, k, frame, see)
    {
      var r := pool[matches[k].0];
      var det := dets[matches[k].1];
      ApplyStep(w0, w, HitAt(w, r, det, frame, see), pool, dets, matches, k, frame, see);
      SoundHit(w, t0, l0, frame, r, det, see);
      CopiedHit(w, frame, r, det, see);
      w := HitAt(w, r, det, frame, see);
    }
  }

  lemma SoundHit(w: Work, t0: seq<STrack>, l0: seq<STrack>, frame: int, r: Ref, det: STrack, see: Vision)
    requires Before(t0, l0, frame) && Sound(w, t0, l0, frame) && InBounds(w, r)
    requires if r.Held? then Pending(At(w, r), frame) else At(w, r).state != Tracked
    ensures Sound(HitAt(w, r, det, frame, see), t0, l0, frame)
  {
    if r.Held? { HitHeld(w, t0, l0, frame, r.i, det, see); } else { HitWaiting(w, t0, l0, frame, r.i, det, see); }
  }

  // ---- giving up ----------------------------------------------------------------

  function GiveUpAt(w: Work, r: Ref, to: State): Work
    requires InBounds(w, r)
  {
    var t := At(w, r).(state := to);
    if to == Lost then Put(w, r, t).(newlyLost := w.newlyLost + [t])
    else Put(w, r, t).(newlyRemoved := w.newlyRemoved + [t])
  }

  lemma GiveUpFrame(w: Work, r: Ref, to: State)
    requires InBounds(w, r)
    ensures var w' := GiveUpAt(w, r, to);
            |w'.tracked| == |w.tracked| && |w'.lost| == |w.lost|
            && w'.activated == w.activated && w'.refind == w.refind
            && forall q :: InBounds(w, q) ==> At(w', q) == if q == r then At(w, r).(state := to) else At(w, q)
  {
  }

  lemma GiveUpSound(w: Work, t0: seq<STrack>, l0: seq<STrack>, frame: int, r: Ref, to: State)
    requires Before(t0, l0, frame) && Sound(w, t0, l0, frame) && InBounds(w, r)
    requires r.Held? && Pending(At(w, r), frame) && (to == Lost || to == Removed)
    ensures Sound(GiveUpAt(w, r, to), t0, l0, frame)
  {
    if to == Lost { MarkLostStep(w, t0, l0, frame, r.i); } else { MarkRemovedStep(w, t0, l0, frame, r.i); }
  }

  ghost predicate GivenUp(w0: Work, w: Work, refs: seq<Ref>, idx: seq<int>, k: int, to: State)
    requires Refs(w0, refs) && 0 <= k <= |idx| && forall m :: 0 <= m < |idx| ==> 0 <= idx[m] < |refs|
  {
    |w.tracked| == |w0.tracked| && |w.lost| == |w0.lost| && w.activated == w0.activated && w.refind == w0.refind
    && (forall m :: 0 <= m < k ==> At(w, refs[idx[m]]) == At(w0, refs[idx[m]]).(state := to))
    && (forall r :: InBounds(w0, r) && (forall m :: 0 <= m < k ==> refs[idx[m]] != r) ==> At(w, r) == At(w0, r))
  }

  lemma GiveUpStep(w0: Work, w: Work, w': Work, refs: seq<Ref>, idx: seq<int>, k: int, to: State)
    requires Refs(w0, refs) && Increasing(idx) && forall m :: 0 <= m < |idx| ==> 0 <= idx[m] < |refs|
    requires 0 <= k < |idx| && GivenUp(w0, w, refs, idx, k, to)
    requires InBounds(w, refs[idx[k]]) && w' == GiveUpAt(w, refs[idx[k]], to)
    ensures At(w, refs[idx[k]]) == At(w0, refs[idx[k]])
    ensures GivenUp(w0, w', refs, idx, k + 1, to)
  {
    var r := refs[idx[k]];
    GiveUpFrame(w, r, to);
    assert forall m :: 0 <= m < k ==> idx[m] < idx[k] && refs[idx[m]] != r;
  }

  /** The loops over unmatched tracks: mark each one Lost or Removed and keep a copy. */
  method GiveUp(w0: Work, refs: seq<Ref>, idx: seq<int>, to: State, ghost frame: int,
                ghost t0: seq<STrack>, ghost l0: seq<STrack>)
    returns (w: Work)
    requires Before(t0, l0, frame) && Sound(w0, t0, l0, frame) && Copied(w0, frame) && (to == Lost || to == Removed)
    requires Refs(w0, refs) && Increasing(idx) && forall m :: 0 <= m < |idx| ==> 0 <= idx[m] < |refs|
    requires forall m :: 0 <= m < |idx| ==> refs[idx[m]].Held? && Pending(At(w0, refs[idx[m]]), frame)
    ensures Sound(w, t0, l0, frame) && Copied(w, frame) && GivenUp(w0, w, refs, idx, |idx|, to)
  {
    w := w0;
    for k := 0 to |idx|
      invariant Sound(w, t0, l0, frame) && Copied(w, frame) && GivenUp(w0, w, refs, idx, k, to)
    {
      var r := refs[idx[k]];
      GiveUpStep(w0, w, GiveUpAt(w, r, to), refs, idx, k, to);
      if to == Removed || At(w, r).state != Lost {
        GiveUpSound(w, t0, l0, frame, r, to);
        CopiedGiveUp(w, frame, r, to);
        w := GiveUpAt(w, r, to);
      }
    }
  }

  // ---- the rounds -----------------------------------------------------------------

  /** Decided so far: the activated tracks still pending are all in `open`, which holds
      nothing else, and every track not yet activated waits for the third round. */
  ghost predicate Undecided(w: Work, t0: seq<STrack>, frame: int, open: seq<Ref>) {
    |w.tracked| == |t0| && Eligible(w, open, frame)
    && (forall r :: r in open ==> r.Held? && t0[r.i].activated)
    && (forall i :: 0 <= i < |t0| && t0[i].activated && Pending(w.tracked[i], frame) ==> Held(i) in open)
    && (forall i :: 0 <= i < |t0| && !t0[i].activated ==> Pending(w.tracked[i], frame))
  }

  lemma PairsOf(pool: seq<Ref>, dets: seq<STrack>, matches: seq<(int, int)>, ut: seq<int>, ud: seq<int>, sol: seq<int>)
    requires Matching(sol, |pool|, |dets|) && Reports(sol, |pool|, |dets|, matches, ut, ud)
    ensures Pairs(pool, dets, matches)
    ensures forall m :: 0 <= m < |ut| ==> 0 <= ut[m] < |pool|
    ensures forall m :: 0 <= m < |ud| ==> 0 <= ud[m] < |dets|
    ensures forall a :: 0 <= a < |pool| ==> a in ut || exists k :: 0 <= k < |matches| && matches[k].0 == a
    ensures forall m, k :: 0 <= m < |ut| && 0 <= k < |matches| ==> ut[m] != matches[k].0
  {
    forall k | 0 <= k < |matches|
      ensures 0 <= matches[k].0 < |pool| && 0 <= matches[k].1 < |dets| && matches[k].0 !in ut
    {
      var (i, j) := matches[k];
      assert (i, j) == matches[k] && (i, j) in matches;
      assert 0 <= i < |pool| && sol[i] == j && j >= 0;
    }
    forall m | 0 <= m < |ut| ensures 0 <= ut[m] < |pool| { assert ut[m] in ut; }
    forall m | 0 <= m < |ud| ensures 0 <= ud[m] < |dets| { assert ud[m] in ud; }
    forall a | 0 <= a < |pool| && a !in ut ensures exists k :: 0 <= k < |matches| && matches[k].0 == a {
      assert (a, sol[a]) in matches;
    }
  }

  /** The pooled tracks a round left unmatched that are still Tracked. */
  method StillTracked(w: Work, pool: seq<Ref>, ut: seq<int>) returns (r: seq<Ref>)
    requires Refs(w, pool) && Increasing(ut) && forall m :: 0 <= m < |ut| ==> 0 <= ut[m] < |pool|
    ensures Refs(w, r)
    ensures forall q :: q in r <==> exists m :: 0 <= m < |ut| && q == pool[ut[m]] && At(w, q).state == Tracked
  {
    r := [];
    for k := 0 to |ut|
      invariant Refs(w, r)
      invariant forall q :: q in r <==> exists m :: 0 <= m < k && q == pool[ut[m]] && At(w, q).state == Tracked
    {
      assert forall a :: 0 <= a < |r| ==> r[a] in r;
      assert forall m :: 0 <= m < k ==> ut[m] < ut[k] && pool[ut[m]] != pool[ut[k]];
      if At(w, pool[ut[k]]).state == Tracked {
        r := r + [pool[ut[k]]];
      }
    }
  }

  method Select(dets: seq<STrack>, idx: seq<int>) returns (s: seq<STrack>)
    requires forall m :: 0 <= m < |idx| ==> 0 <= idx[m] < |dets|
    ensures |s| == |idx| && forall m :: 0 <= m < |s| ==> s[m] == dets[idx[m]]
  {
    s := [];
    for k := 0 to |idx|
      invariant |s| == k && forall m :: 0 <= m < k ==> s[m] == dets[idx[m]]
    {
      s := s + [dets[idx[k]]];
    }
  }

  /** The pool of the first round: every activated track and every lost one. */
  ghost predicate FirstPool(w: Work, t0: seq<STrack>, pool: seq<Ref>) {
    forall r :: r in pool <==> if r.Held? then r.i < |t0| && t0[r.i].activated else r.i < |w.lost|
  }

  lemma AfterFirst(w0: Work, w: Work, t0: seq<STrack>, frame: int, pool: seq<Ref>, dets: seq<STrack>,
                   matches: seq<(int, int)>, ut: seq<int>, see: Vision, open: seq<Ref>)
    requires |w0.tracked| == |t0| && Eligible(w0, pool, frame) && FirstPool(w0, t0, pool) && Pairs(pool, dets, matches)
    requires Applied(w0, w, pool, dets, matches, |matches|, frame, see)
    requires forall i :: 0 <= i < |t0| ==> Pending(w0.tracked[i], frame)
    requires forall m :: 0 <= m < |ut| ==> 0 <= ut[m] < |pool|
    requires forall a :: 0 <= a < |pool| ==> a in ut || exists k :: 0 <= k < |matches| && matches[k].0 == a
    requires forall m, k :: 0 <= m < |ut| && 0 <= k < |matches| ==> ut[m] != matches[k].0
    requires Refs(w, pool) && Refs(w, open)
    requires forall q :: q in open <==> exists m :: 0 <= m < |ut| && q == pool[ut[m]] && At(w, q).state == Tracked
    ensures Undecided(w, t0, frame, open)
  {
    forall m | 0 <= m < |ut| ensures At(w, pool[ut[m]]) == At(w0, pool[ut[m]]) {
      assert forall k :: 0 <= k < |matches| ==> pool[matches[k].0] != pool[ut[m]];
    }
    forall r | r in open ensures r.Held? && t0[r.i].activated && Pending(At(w, r), frame) {
      var m :| 0 <= m < |ut| && r == pool[ut[m]] && At(w, r).state == Tracked;
      assert pool[ut[m]] in pool;
    }
    forall i | 0 <= i < |t0| && t0[i].activated && Pending(w.tracked[i], frame) ensures Held(i) in open {
      assert Held(i) in pool;
      var a :| 0 <= a < |pool| && pool[a] == Held(i);
      assert forall k :: 0 <= k < |matches| ==> At(w, pool[matches[k].0]).frame == frame;
      assert a in ut;
      assert At(w, Held(i)).state == Tracked;
    }
    forall i | 0 <= i < |t0| && !t0[i].activated ensures Pending(w.tracked[i], frame) {
      assert Held(i) !in pool;
      assert forall k :: 0 <= k < |matches| ==> pool[matches[k].0] in pool;
      assert At(w, Held(i)) == At(w0, Held(i));
    }
  }

  /** The record of one round: the lists before and after its matches, its two sides, and what
      the assignment reported. */
  datatype Pass = Pass(before: Work, after: Work, pool: seq<Ref>, dets: seq<STrack>,
                       matches: seq<(int, int)>, ut: seq<int>, ud: seq<int>)

  /** The round was played: its report comes from a minimal thresholded matching of the IoU
      distances, and each matched track is hit by its own detection. */
  ghost predicate Played(p: Pass, thresh: real, frame: int, see: Vision) {
    (exists sol :: Round(p.before, p.pool, p.dets, thresh, see, p.matches, p.ut, p.ud, sol))
    && Refs(p.before, p.pool) && Pairs(p.pool, p.dets, p.matches)
    && (forall m :: 0 <= m < |p.ut| ==> 0 <= p.ut[m] < |p.pool|)
    && Applied(p.before, p.after, p.pool, p.dets, p.matches, |p.matches|, frame, see)
  }

  /** s lists the detections at the given positions. */
  ghost predicate Picked(dets: seq<STrack>, idx: seq<int>, s: seq<STrack>) {
    |s| == |idx| && forall m :: 0 <= m < |s| ==> 0 <= idx[m] < |dets| && s[m] == dets[idx[m]]
  }

  /** The unmatched tracks of a round that are still Tracked. */
  ghost predicate LeftOpen(p: Pass, open: seq<Ref>) {
    forall q :: q in open <==> exists m :: 0 <= m < |p.ut| && 0 <= p.ut[m] < |p.pool| && q == p.pool[p.ut[m]]
                                         && InBounds(p.after, q) && At(p.after, q).state == Tracked
  }

  /** The first round: activated and lost tracks against the detections of high score. Returns
      the tracks the second round works on and the detections left over. */
  method FirstRound(w0: Work, pool: seq<Ref>, dets: seq<STrack>, thresh: real, frame: int, see: Vision,
                    ghost t0: seq<STrack>, ghost l0: seq<STrack>)
    returns (w: Work, open: seq<Ref>, rest: seq<STrack>, ghost p: Pass)
    requires Before(t0, l0, frame) && Sound(w0, t0, l0, frame) && Copied(w0, frame)
    requires Proper(see) && 0.0 <= thresh < 2.0 * LARGE
    requires Eligible(w0, pool, frame) && FirstPool(w0, t0, pool)
    requires forall i :: 0 <= i < |t0| ==> Pending(w0.tracked[i], frame)
    ensures Sound(w, t0, l0, frame) && Copied(w, frame) && Undecided(w, t0, frame, open)
    ensures p.before == w0 && p.after == w && p.pool == pool && p.dets == dets && Played(p, thresh, frame, see)
    ensures Picked(dets, p.ud, rest) && LeftOpen(p, open)
  {
    var matches, ut, ud;
    ghost var sol;
    matches, ut, ud, sol := MatchRound(w0, pool, dets, thresh, see);
    PairsOf(pool, dets, matches, ut, ud, sol);
    w := ApplyMatches(w0, pool, dets, matches, frame, see, t0, l0);
    rest := Select(dets, ud);
    open := StillTracked(w, pool, ut);
    AfterFirst(w0, w, t0, frame, pool, dets, matches, ut, see, open);
    p := Pass(w0, w, pool, dets, matches, ut, ud);
  }

  /** Matched or given up: no entry of the pool of a later round stays pending, and entries
      outside it are untouched. */
  lemma AfterLater(w0: Work, w1: Work, w: Work, frame: int, pool: seq<Ref>, dets: seq<STrack>,
                   matches: seq<(int, int)>, ut: seq<int>, see: Vision, to: State)
    requires Eligible(w0, pool, frame) && Pairs(pool, dets, matches) && to != Tracked
    requires Applied(w0, w1, pool, dets, matches, |matches|, frame, see)
    requires forall m :: 0 <= m < |ut| ==> 0 <= ut[m] < |pool|
    requires forall a :: 0 <= a < |pool| ==> a in ut || exists k :: 0 <= k < |matches| && matches[k].0 == a
    requires forall m, k :: 0 <= m < |ut| && 0 <= k < |matches| ==> ut[m] != matches[k].0
    requires Refs(w1, pool) && GivenUp(w1, w, pool, ut, |ut|, to)
    ensures forall r :: r in pool ==> InBounds(w, r) && !Pending(At(w, r), frame)
  {
    forall r | r in pool ensures InBounds(w, r) && !Pending(At(w, r), frame) {
      var a :| 0 <= a < |pool| && pool[a] == r;
      if a in ut {
        var m :| 0 <= m < |ut| && ut[m] == a;
        assert At(w, pool[ut[m]]) == At(w1, pool[ut[m]]).(state := to);
      } else {
        var k :| 0 <= k < |matches| && matches[k].0 == a;
        assert At(w1, pool[matches[k].0]).frame == frame;
        assert forall m :: 0 <= m < |ut| ==> pool[ut[m]] != r;
      }
    }
  }

  lemma OutsideLater(w0: Work, w1: Work, w: Work, frame: int, pool: seq<Ref>, dets: seq<STrack>,
                     matches: seq<(int, int)>, ut: seq<int>, see: Vision, to: State)
    requires Refs(w0, pool) && Pairs(pool, dets, matches)
    requires Applied(w0, w1, pool, dets, matches, |matches|, frame, see)
    requires forall m :: 0 <= m < |ut| ==> 0 <= ut[m] < |pool|
    requires Refs(w1, pool) && GivenUp(w1, w, pool, ut, |ut|, to)
    ensures forall r :: InBounds(w0, r) && r !in pool ==> InBounds(w, r) && At(w, r) == At(w0, r)
  {
    forall r | InBounds(w0, r) && r !in pool ensures InBounds(w, r) && At(w, r) == At(w0, r) {
      assert forall k :: 0 <= k < |matches| ==> pool[matches[k].0] in pool;
      assert forall m :: 0 <= m < |ut| ==> pool[ut[m]] in pool;
    }
  }

  /** The second round (undecided activated tracks against low scores, then Lost) and the third
      (tracks not yet activated against leftover detections, then Removed). */
  method LaterRound(w0: Work, pool: seq<Ref>, dets: seq<STrack>, thresh: real, to: State, frame: int, see: Vision,
                    ghost t0: seq<STrack>, ghost l0: seq<STrack>)
    returns (w: Work, rest: seq<STrack>, ghost p: Pass)
    requires Before(t0, l0, frame) && Sound(w0, t0, l0, frame) && Copied(w0, frame)
    requires Proper(see) && 0.0 <= thresh < 2.0 * LARGE
    requires Eligible(w0, pool, frame) && (to == Lost || to == Removed)
    requires forall r :: r in pool ==> r.Held?
    ensures Sound(w, t0, l0, frame) && Copied(w, frame)
    ensures forall r :: r in pool ==> InBounds(w, r) && !Pending(At(w, r), frame)
    ensures forall r :: InBounds(w0, r) && r !in pool ==> InBounds(w, r) && At(w, r) == At(w0, r)
    ensures p.before == w0 && p.pool == pool && p.dets == dets && Played(p, thresh, frame, see)
    ensures Refs(p.after, pool) && GivenUp(p.after, w, pool, p.ut, |p.ut|, to) && Picked(dets, p.ud, rest)
  {
    var matches, ut, ud;
    ghost var sol;
    matches, ut, ud, sol := MatchRound(w0, pool, dets, thresh, see);
    PairsOf(pool, dets, matches, ut, ud, sol);
    var w1 := ApplyMatches(w0, pool, dets, matches, frame, see, t0, l0);
    forall m | 0 <= m < |ut| ensures pool[ut[m]].Held? && Pending(At(w1, pool[ut[m]]), frame) {
      assert pool[ut[m]] in pool;
      assert forall k :: 0 <= k < |matches| ==> pool[matches[k].0] != pool[ut[m]];
    }
    w := GiveUp(w1, pool, ut, to, frame, t0, l0);
    AfterLater(w0, w1, w, frame, pool, dets, matches, ut, see, to);
    OutsideLater(w0, w1, w, frame, pool, dets, matches, ut, see, to);
    rest := Select(dets, ud);
    p := Pass(w0, w1, pool, dets, matches, ut, ud);
  }
}
