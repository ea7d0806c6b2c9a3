/** Where every track of a ByteTrack frame comes from, field by field. */
module ByteOrigin {
  import opened Assignment
  import opened PartialMatching
  import opened ByteAssignment
  import opened ByteLists
  import opened ByteRounds
  import opened ByteTracker
  import opened ByteReturn

  /** t is the old entry e, seen in this frame as box b with a score: its filter, predicted unless
      the track was not activated yet, is corrected by the box. */
  ghost predicate SeenAs(e: STrack, t: STrack, b: Body, score: real, frame: int, see: Vision) {
    var body := if e.state == Tracked && !e.activated then e.body else see.predict(e.body, e.state == Tracked);
    t.id == e.id && t.start == e.start && t.frame == frame && t.state == Tracked && t.activated
    && t.score == score && t.body == see.correct(body, b)
    && t.tracklet == if e.state == Tracked then e.tracklet + 1 else 0
  }

  /** t is a new track for box b: its filter starts there, and it is activated only in the first
      frame. */
  ghost predicate StartedAs(t: STrack, b: Body, score: real, frame: int, see: Vision) {
    t.start == frame && t.frame == frame && t.state == Tracked && (t.activated <==> frame == 1)
    && t.score == score && t.body == see.initiate(b) && t.tracklet == 0
  }

  /** The entry behind a pointer when the frame starts. */
  ghost function Behind(r: Ref, t0: seq<STrack>, l0: seq<STrack>): STrack
    requires InBounds(Work(t0, l0, [], [], [], []), r)
  {
    At(Work(t0, l0, [], [], [], []), r)
  }

  /** The pass reports a match of the entry behind r with the box. */
  ghost predicate Reported(p: Pass, r: Ref, b: Body, score: real) {
    exists k :: 0 <= k < |p.matches| && 0 <= p.matches[k].0 < |p.pool| && 0 <= p.matches[k].1 < |p.dets|
                && p.pool[p.matches[k].0] == r
                && p.dets[p.matches[k].1].body == b && p.dets[p.matches[k].1].score == score
  }

  // ---- one pass, one entry ----------------------------------------------------------------

  lemma PassEntry(p: Pass, thresh: real, frame: int, see: Vision, r: Ref) returns (hit: bool, k: nat)
    requires Played(p, thresh, frame, see) && InBounds(p.before, r)
    ensures InBounds(p.after, r)
    ensures if hit then k < |p.matches| && p.pool[p.matches[k].0] == r && r in p.pool
                        && At(p.after, r) == Hit(At(p.before, r), p.dets[p.matches[k].1], frame, see)
            else At(p.after, r) == At(p.before, r) && forall m :: 0 <= m < |p.matches| ==> p.pool[p.matches[m].0] != r
  {
    hit, k := false, 0;
    if m :| 0 <= m < |p.matches| && p.pool[p.matches[m].0] == r {
      hit, k := true, m;
      assert At(p.after, p.pool[p.matches[m].0])
          == Hit(At(p.before, p.pool[p.matches[m].0]), p.dets[p.matches[m].1], frame, see);
    }
  }

  /** An unmatched position of the pool is matched nowhere. */
  lemma UnmatchedRef(p: Pass, thresh: real, frame: int, see: Vision, a: nat)
    requires Played(p, thresh, frame, see) && a < |p.pool| && a in p.ut
    ensures forall m :: 0 <= m < |p.matches| ==> p.pool[p.matches[m].0] != p.pool[a]
  {
    var sol :| Round(p.before, p.pool, p.dets, thresh, see, p.matches, p.ut, p.ud, sol);
    PairsOf(p.pool, p.dets, p.matches, p.ut, p.ud, sol);
    var n :| 0 <= n < |p.ut| && p.ut[n] == a;
    forall m | 0 <= m < |p.matches| ensures p.pool[p.matches[m].0] != p.pool[a] {
      assert p.ut[n] != p.matches[m].0;
    }
  }

  /** An entry that is still Tracked was not given up. */
  lemma NotGivenUpOn(p: Pass, after: Work, to: State, r: Ref)
    requires Refs(p.after, p.pool) && (forall m :: 0 <= m < |p.ut| ==> 0 <= p.ut[m] < |p.pool|) && to != Tracked
    requires GivenUp(p.after, after, p.pool, p.ut, |p.ut|, to) && InBounds(p.after, r)
    requires InBounds(after, r) && At(after, r).state == Tracked
    ensures At(p.after, r) == At(after, r)
  {
    forall m | 0 <= m < |p.ut| ensures p.pool[p.ut[m]] != r {
      assert At(after, p.pool[p.ut[m]]) == At(p.after, p.pool[p.ut[m]]).(state := to);
    }
  }

  // ---- a tracked entry through the three rounds ---------------------------------------------

  /** A match is a correction of the body the entry has when the pass starts. */
  lemma HitSees(e: STrack, q: STrack, det: STrack, frame: int, see: Vision)
    requires q == e || q == e.(body := see.predict(e.body, e.state == Tracked))
    requires if e.state == Tracked && !e.activated then q == e
             else q.body == see.predict(e.body, e.state == Tracked)
    ensures SeenAs(e, Hit(q, det, frame, see), det.body, det.score, frame, see)
  {
  }

  lemma BeforeRounds(t0: seq<STrack>, l0: seq<STrack>, p1: Pass, see: Vision, r: Ref)
    requires PredictedFrom(t0, l0, p1.before, p1.pool, see) && InBounds(Work(t0, l0, [], [], [], []), r)
    ensures InBounds(p1.before, r)
    ensures At(p1.before, r) == if r in p1.pool then PredictTrack(Behind(r, t0, l0), see) else Behind(r, t0, l0)
  {
  }

  /** Which pass saw a tracked entry that ends the frame as Tracked. */
  lemma HeldSeen(t0: seq<STrack>, l0: seq<STrack>, high: seq<STrack>, low: seq<STrack>, thresh: real, frame: int,
                 see: Vision, p1: Pass, p2: Pass, p3: Pass, w: Work, rest: seq<STrack>, i: nat)
    returns (p: Pass, k: nat)
    requires ThreeRounds(t0, l0, high, low, thresh, frame, see, p1, p2, p3, w, rest)
    requires i < |t0| && |w.tracked| == |t0| && t0[i].state == Tracked && t0[i].frame < frame
    requires w.tracked[i].state == Tracked && w.tracked[i].frame == frame
    ensures (p == p1 || p == p2 || p == p3) && k < |p.matches| && 0 <= p.matches[k].0 < |p.pool|
    ensures 0 <= p.matches[k].1 < |p.dets| && p.pool[p.matches[k].0] == Held(i)
    ensures SeenAs(t0[i], w.tracked[i], p.dets[p.matches[k].1].body, p.dets[p.matches[k].1].score, frame, see)
  {
    var r := Held(i);
    BeforeRounds(t0, l0, p1, see, r);
    var hit1, k1 := PassEntry(p1, thresh, frame, see, r);
    var hit2, k2 := PassEntry(p2, 0.5, frame, see, r);
    var hit3, k3 := PassEntry(p3, 0.7, frame, see, r);
    assert At(w, r) == w.tracked[i];
    NotGivenUpOn(p3, w, Removed, r);
    if hit3 {
      p, k := p3, k3;
      SkippedFirst(t0, p1, p2, p3, thresh, frame, see, r);
      HitSees(t0[i], At(p3.before, r), p3.dets[p3.matches[k3].1], frame, see);
    } else {
      NotGivenUpOn(p2, p3.before, Lost, r);
      if hit2 {
        p, k := p2, k2;
        OpenEntry(p1, p2, thresh, frame, see, r);
        HitSees(t0[i], At(p1.before, r), p2.dets[p2.matches[k2].1], frame, see);
      } else {
        p, k := p1, k1;
        assert hit1;
        HitSees(t0[i], At(p1.before, r), p1.dets[p1.matches[k1].1], frame, see);
      }
    }
  }

  /** What the second round works on, the first round left alone. */
  lemma OpenEntry(p1: Pass, p2: Pass, thresh: real, frame: int, see: Vision, r: Ref)
    requires Played(p1, thresh, frame, see) && LeftOpen(p1, p2.pool) && r in p2.pool && InBounds(p1.before, r)
    ensures r in p1.pool && At(p1.after, r) == At(p1.before, r)
  {
    var m :| 0 <= m < |p1.ut| && 0 <= p1.ut[m] < |p1.pool| && r == p1.pool[p1.ut[m]];
    UnmatchedRef(p1, thresh, frame, see, p1.ut[m]);
  }

  /** A track not activated yet is untouched until the third round. */
  lemma SkippedFirst(t0: seq<STrack>, p1: Pass, p2: Pass, p3: Pass, thresh: real, frame: int, see: Vision, r: Ref)
    requires Played(p1, thresh, frame, see) && Played(p2, 0.5, frame, see) && p2.before == p1.after
    requires FirstPool(p1.before, t0, p1.pool) && LeftOpen(p1, p2.pool)
    requires Refs(p2.after, p2.pool) && GivenUp(p2.after, p3.before, p2.pool, p2.ut, |p2.ut|, Lost)
    requires forall q :: q in p3.pool <==> q.Held? && q.i < |t0| && !t0[q.i].activated
    requires r in p3.pool && InBounds(p1.before, r)
    ensures r !in p1.pool && InBounds(p3.before, r) && At(p3.before, r) == At(p1.before, r)
  {
    assert r !in p1.pool;
    OutsideOpen(p1, p2.pool, r);
    OutsidePass(p1, thresh, frame, see, r);
    OutsidePass(p2, 0.5, frame, see, r);
    NotGivenUp(p2, p3.before, Lost, r);
  }

  lemma OutsidePass(p: Pass, thresh: real, frame: int, see: Vision, r: Ref)
    requires Played(p, thresh, frame, see) && InBounds(p.before, r) && r !in p.pool
    ensures InBounds(p.after, r) && At(p.after, r) == At(p.before, r)
  {
    var hit, k := PassEntry(p, thresh, frame, see, r);
  }

  lemma OutsideOpen(p: Pass, open: seq<Ref>, r: Ref)
    requires LeftOpen(p, open) && r !in p.pool
    ensures r !in open
  {
    assert forall m :: 0 <= m < |p.ut| && 0 <= p.ut[m] < |p.pool| ==> p.pool[p.ut[m]] in p.pool;
  }

  /** A lost entry that ends the frame as seen was seen by the first pass. */
  lemma WaitingSeen(t0: seq<STrack>, l0: seq<STrack>, thresh: real, frame: int, see: Vision, p: Pass, i: nat)
    returns (k: nat)
    requires PredictedFrom(t0, l0, p.before, p.pool, see) && Played(p, thresh, frame, see)
    requires FirstPool(p.before, t0, p.pool) && i < |l0| && |p.after.lost| == |l0|
    requires l0[i].state != Tracked && p.after.lost[i].state == Tracked
    ensures k < |p.matches| && 0 <= p.matches[k].0 < |p.pool| && 0 <= p.matches[k].1 < |p.dets|
    ensures p.pool[p.matches[k].0] == Waiting(i)
    ensures SeenAs(l0[i], p.after.lost[i], p.dets[p.matches[k].1].body, p.dets[p.matches[k].1].score, frame, see)
  {
    var r := Waiting(i);
    BeforeRounds(t0, l0, p, see, r);
    var hit;
    hit, k := PassEntry(p, thresh, frame, see, r);
    assert At(p.after, r) == p.after.lost[i] && r in p.pool;
    HitSees(l0[i], At(p.before, r), p.dets[p.matches[k].1], frame, see);
  }

  // ---- the detections ---------------------------------------------------------------------

  /** det is a fresh record of one of the boxes. */
  ghost predicate RecordOf(det: STrack, objects: seq<(Body, real)>, m: int) {
    0 <= m < |objects| && det.body == objects[m].0 && det.score == objects[m].1 && !det.activated
  }

  lemma {:induction false} ScoredSource(objects: seq<(Body, real)>, thresh: real, high: bool, k: nat) returns (m: nat)
    requires k < |Scored(objects, thresh, high)|
    ensures RecordOf(Scored(objects, thresh, high)[k], objects, m)
  {
    var n := |objects| - 1;
    var earlier := Scored(objects[..n], thresh, high);
    if k < |earlier| { m := ScoredSource(objects[..n], thresh, high, k); } else { m := n; }
  }

  /** Every detection of the three passes is a record of a box of the frame. */
  lemma PassSource(s: Story, objects: seq<(Body, real)>, t0: seq<STrack>, l0: seq<STrack>, trackThresh: real,
                   matchThresh: real, frame: int, see: Vision, p: Pass, d: nat) returns (m: nat)
    requires ThreeRounds(t0, l0, Scored(objects, trackThresh, true), Scored(objects, trackThresh, false), matchThresh,
                         frame, see, s.p1, s.p2, s.p3, s.w, s.rest)
    requires (p == s.p1 || p == s.p2 || p == s.p3) && d < |p.dets|
    ensures RecordOf(p.dets[d], objects, m)
  {
    if p == s.p1 {
      m := ScoredSource(objects, trackThresh, true, d);
    } else if p == s.p2 {
      m := ScoredSource(objects, trackThresh, false, d);
    } else {
      m := ScoredSource(objects, trackThresh, true, s.p1.ud[d]);
    }
  }

  /** A leftover detection is born exactly if its score reaches the threshold, as a track started by
      its box, and the ids follow the order. */
  ghost predicate BornBy(born: seq<STrack>, idx: seq<int>, rest: seq<STrack>, count0: int, frame: int, see: Vision) {
    |born| == |idx| && InRange(idx, |rest|)
    && forall k :: 0 <= k < |idx| ==>
         born[k].id == count0 + 1 + k && StartedAs(born[k], rest[idx[k]].body, rest[idx[k]].score, frame, see)
  }

  /** The positions of the leftovers that are born. */
  ghost function Reaching(rest: seq<STrack>, thresh: real): seq<int> {
    if rest == [] then []
    else
      var n := |rest| - 1;
      Reaching(rest[..n], thresh) + if rest[n].score >= thresh then [n] else []
  }

  lemma {:induction false} ReachingExactly(rest: seq<STrack>, thresh: real)
    ensures Increasing(Reaching(rest, thresh)) && InRange(Reaching(rest, thresh), |rest|)
    ensures forall j :: j in Reaching(rest, thresh) <==> 0 <= j < |rest| && rest[j].score >= thresh
  {
    if rest != [] {
      var n := |rest| - 1;
      var earlier := Reaching(rest[..n], thresh);
      ReachingExactly(rest[..n], thresh);
      assert forall j :: 0 <= j < n ==> rest[..n][j] == rest[j];
    }
  }

  lemma {:induction false} BornExactly(rest: seq<STrack>, thresh: real, count0: int, frame: int, see: Vision)
    requires forall j :: 0 <= j < |rest| ==> !rest[j].activated
    ensures BornBy(Born(rest, thresh, count0, frame, see), Reaching(rest, thresh), rest, count0, frame, see)
  {
    if rest != [] {
      var n := |rest| - 1;
      BornExactly(rest[..n], thresh, count0, frame, see);
      BornGrows(Born(rest[..n], thresh, count0, frame, see), Reaching(rest[..n], thresh), rest, thresh, count0, frame,
                see);
      assert Reaching(rest[..n], thresh) + [] == Reaching(rest[..n], thresh);
    }
  }

  lemma BornGrows(born: seq<STrack>, idx: seq<int>, rest: seq<STrack>, thresh: real, count0: int, frame: int,
                  see: Vision)
    requires rest != [] && !rest[|rest| - 1].activated && BornBy(born, idx, rest[..|rest| - 1], count0, frame, see)
    ensures var n := |rest| - 1;
            BornBy(born, idx, rest, count0, frame, see)
            && BornBy(born + [Activate(rest[n], count0 + 1 + |born|, frame, see)], idx + [n], rest, count0, frame, see)
  {
  }

  // ---- the whole frame ---------------------------------------------------------------------

  /** Where a followed track comes from: a new track for a box no pass matched, with a score high
      enough, or an old entry that a pass matched with a box. */
  datatype Origin = Fresh(m: nat) | Old(r: Ref, m: nat)

  ghost predicate Originates(o: Origin, t: STrack, s: Story, objects: seq<(Body, real)>, t0: seq<STrack>,
                             l0: seq<STrack>, count0: int, frame: int, highThresh: real, see: Vision) {
    o.m < |objects|
    && match o
       case Fresh(m) =>
         StartedAs(t, objects[m].0, objects[m].1, frame, see) && objects[m].1 >= highThresh && t.id > count0
       case Old(r, m) =>
         InBounds(Work(t0, l0, [], [], [], []), r)
         && SeenAs(Behind(r, t0, l0), t, objects[m].0, objects[m].1, frame, see)
         && exists p :: (p == s.p1 || p == s.p2 || p == s.p3) && Reported(p, r, objects[m].0, objects[m].1)
  }

  lemma OldOrigin(s: Story, objects: seq<(Body, real)>, t0: seq<STrack>, l0: seq<STrack>, count0: int, frame: int,
                  highThresh: real, see: Vision, t: STrack, p: Pass, k: nat, r: Ref, m: nat)
    requires (p == s.p1 || p == s.p2 || p == s.p3) && k < |p.matches| && InBounds(Work(t0, l0, [], [], [], []), r)
    requires 0 <= p.matches[k].0 < |p.pool| && p.pool[p.matches[k].0] == r && 0 <= p.matches[k].1 < |p.dets|
    requires RecordOf(p.dets[p.matches[k].1], objects, m)
    requires SeenAs(Behind(r, t0, l0), t, p.dets[p.matches[k].1].body, p.dets[p.matches[k].1].score, frame, see)
    ensures Originates(Old(r, m), t, s, objects, t0, l0, count0, frame, highThresh, see)
  {
    assert Reported(p, r, objects[m].0, objects[m].1);
  }

  lemma HeldOrigin(s: Story, objects: seq<(Body, real)>, t0: seq<STrack>, l0: seq<STrack>, count0: int, frame: int,
                   trackThresh: real, highThresh: real, matchThresh: real, see: Vision, t: STrack)
    returns (o: Origin)
    requires Before(t0, l0, frame) && Sound(s.w, t0, l0, frame) && t in s.w.tracked
    requires ThreeRounds(t0, l0, Scored(objects, trackThresh, true), Scored(objects, trackThresh, false), matchThresh,
                         frame, see, s.p1, s.p2, s.p3, s.w, s.rest)
    requires t.state == Tracked && t.frame == frame
    ensures Originates(o, t, s, objects, t0, l0, count0, frame, highThresh, see)
  {
    var i :| 0 <= i < |s.w.tracked| && s.w.tracked[i] == t;
    var p, k := HeldSeen(t0, l0, Scored(objects, trackThresh, true), Scored(objects, trackThresh, false), matchThresh,
                         frame, see, s.p1, s.p2, s.p3, s.w, s.rest, i);
    var m := PassSource(s, objects, t0, l0, trackThresh, matchThresh, frame, see, p, p.matches[k].1);
    o := Old(Held(i), m);
    OldOrigin(s, objects, t0, l0, count0, frame, highThresh, see, t, p, k, Held(i), m);
  }

  lemma WaitingOrigin(s: Story, objects: seq<(Body, real)>, t0: seq<STrack>, l0: seq<STrack>, count0: int, frame: int,
                      trackThresh: real, highThresh: real, matchThresh: real, see: Vision, t: STrack)
    returns (o: Origin)
    requires Before(t0, l0, frame) && Sound(s.w, t0, l0, frame) && t in s.w.lost && t.state == Tracked
    requires ThreeRounds(t0, l0, Scored(objects, trackThresh, true), Scored(objects, trackThresh, false), matchThresh,
                         frame, see, s.p1, s.p2, s.p3, s.w, s.rest)
    ensures Originates(o, t, s, objects, t0, l0, count0, frame, highThresh, see)
  {
    var i :| 0 <= i < |s.w.lost| && s.w.lost[i] == t;
    var k := WaitingSeen(t0, l0, matchThresh, frame, see, s.p1, i);
    var m := PassSource(s, objects, t0, l0, trackThresh, matchThresh, frame, see, s.p1, s.p1.matches[k].1);
    o := Old(Waiting(i), m);
    OldOrigin(s, objects, t0, l0, count0, frame, highThresh, see, t, s.p1, k, Waiting(i), m);
  }

  lemma BornOrigin(s: Story, objects: seq<(Body, real)>, t0: seq<STrack>, l0: seq<STrack>, count0: int, frame: int,
                   trackThresh: real, highThresh: real, matchThresh: real, see: Vision, t: STrack)
    returns (o: Origin)
    requires ThreeRounds(t0, l0, Scored(objects, trackThresh, true), Scored(objects, trackThresh, false), matchThresh,
                         frame, see, s.p1, s.p2, s.p3, s.w, s.rest)
    requires s.born == Born(s.rest, highThresh, count0, frame, see) && t in s.born
    ensures Originates(o, t, s, objects, t0, l0, count0, frame, highThresh, see)
  {
    forall j | 0 <= j < |s.rest| ensures !s.rest[j].activated {
      var m := PassSource(s, objects, t0, l0, trackThresh, matchThresh, frame, see, s.p3, s.p3.ud[j]);
    }
    var idx := Reaching(s.rest, highThresh);
    ReachingExactly(s.rest, highThresh);
    BornExactly(s.rest, highThresh, count0, frame, see);
    var k :| 0 <= k < |s.born| && s.born[k] == t;
    assert idx[k] in idx;
    var m := PassSource(s, objects, t0, l0, trackThresh, matchThresh, frame, see, s.p3, s.p3.ud[idx[k]]);
    o := Fresh(m);
  }

  /** After a frame every followed track has such an origin. */
  lemma FollowedOrigin(s: Story, objects: seq<(Body, real)>, t0: seq<STrack>, l0: seq<STrack>, removed0: seq<STrack>,
                       count0: int, frame: int, maxTimeLost: int, trackThresh: real, highThresh: real,
                       matchThresh: real, see: Vision, tracked: seq<STrack>, lost: seq<STrack>, removed: seq<STrack>,
                       t: STrack) returns (o: Origin)
    requires Roster(t0, l0, removed0, frame - 1, maxTimeLost, count0)
    requires Told(s, objects, t0, l0, removed0, count0, frame, maxTimeLost, trackThresh, highThresh, matchThresh, see,
                  tracked, lost, removed)
    requires t in tracked && t.frame == frame
    ensures Originates(o, t, s, objects, t0, l0, count0, frame, highThresh, see)
  {
    BeforeFrame(t0, l0, removed0, frame, maxTimeLost, count0);
    assert t in s.u;
    if t in s.born {
      o := BornOrigin(s, objects, t0, l0, count0, frame, trackThresh, highThresh, matchThresh, see, t);
    } else if t in s.w.refind {
      o := WaitingOrigin(s, objects, t0, l0, count0, frame, trackThresh, highThresh, matchThresh, see, t);
    } else {
      o := HeldOrigin(s, objects, t0, l0, count0, frame, trackThresh, highThresh, matchThresh, see, t);
    }
  }

  // ---- lost tracks ---------------------------------------------------------------------------

  /** t is e, unseen in this frame: predicted, and lost, or removed once overdue. */
  ghost predicate MissedAs(e: STrack, t: STrack, frame: int, maxTimeLost: int, see: Vision) {
    (e.state == Tracked ==> e.activated)
    && t == e.(body := see.predict(e.body, e.state == Tracked), state := t.state)
    && t.state == if e.state == Tracked then Lost else if frame - e.frame > maxTimeLost then Removed else e.state
  }

  /** A tracked entry that ends the frame as lost was given up by the second round. */
  lemma HeldMissed(t0: seq<STrack>, l0: seq<STrack>, high: seq<STrack>, low: seq<STrack>, thresh: real, frame: int,
                   maxTimeLost: int, see: Vision, p1: Pass, p2: Pass, p3: Pass, w: Work, rest: seq<STrack>, i: nat)
    requires ThreeRounds(t0, l0, high, low, thresh, frame, see, p1, p2, p3, w, rest)
    requires i < |t0| && |w.tracked| == |t0| && t0[i].state == Tracked && w.tracked[i].state == Lost
    ensures MissedAs(t0[i], w.tracked[i], frame, maxTimeLost, see)
  {
    var r := Held(i);
    BeforeRounds(t0, l0, p1, see, r);
    var hit1, k1 := PassEntry(p1, thresh, frame, see, r);
    var hit2, k2 := PassEntry(p2, 0.5, frame, see, r);
    var hit3, k3 := PassEntry(p3, 0.7, frame, see, r);
    assert At(w, r) == w.tracked[i] && InBounds(p3.after, r) && InBounds(p3.before, r);
    NotRemoved(p3, w, r);
    GivenUpIn(p2, p3.before, frame, see, r);
    OpenEntry(p1, p2, thresh, frame, see, r);
  }

  lemma NotRemoved(p: Pass, after: Work, r: Ref)
    requires Refs(p.after, p.pool) && (forall m :: 0 <= m < |p.ut| ==> 0 <= p.ut[m] < |p.pool|)
    requires GivenUp(p.after, after, p.pool, p.ut, |p.ut|, Removed) && InBounds(p.after, r)
    requires InBounds(after, r) && At(after, r).state == Lost
    ensures At(p.after, r) == At(after, r)
  {
    forall m | 0 <= m < |p.ut| ensures p.pool[p.ut[m]] != r {
      assert At(after, p.pool[p.ut[m]]) == At(p.after, p.pool[p.ut[m]]).(state := Removed);
    }
  }

  lemma GivenUpIn(p: Pass, after: Work, frame: int, see: Vision, r: Ref)
    requires Played(p, 0.5, frame, see) && Refs(p.after, p.pool)
    requires GivenUp(p.after, after, p.pool, p.ut, |p.ut|, Lost) && InBounds(p.after, r) && InBounds(p.before, r)
    requires InBounds(after, r) && At(after, r).state == Lost && At(p.before, r).state == Tracked
    ensures r in p.pool && At(after, r) == At(p.before, r).(state := Lost)
  {
    var hit, k := PassEntry(p, 0.5, frame, see, r);
    assert At(p.after, r).state == Tracked;
    var m :| 0 <= m < |p.ut| && p.pool[p.ut[m]] == r;
    UnmatchedRef(p, 0.5, frame, see, p.ut[m]);
    assert At(after, p.pool[p.ut[m]]) == At(p.after, p.pool[p.ut[m]]).(state := Lost);
  }

  /** After a frame every lost track is an old entry no pass matched. */
  lemma LostOrigin(s: Story, objects: seq<(Body, real)>, t0: seq<STrack>, l0: seq<STrack>, removed0: seq<STrack>,
                   count0: int, frame: int, maxTimeLost: int, trackThresh: real, highThresh: real, matchThresh: real,
                   see: Vision, tracked: seq<STrack>, lost: seq<STrack>, removed: seq<STrack>, t: STrack)
    returns (r: Ref)
    requires Roster(t0, l0, removed0, frame - 1, maxTimeLost, count0)
    requires Told(s, objects, t0, l0, removed0, count0, frame, maxTimeLost, trackThresh, highThresh, matchThresh, see,
                  tracked, lost, removed)
    requires t in lost
    ensures InBounds(Work(t0, l0, [], [], [], []), r) && MissedAs(Behind(r, t0, l0), t, frame, maxTimeLost, see)
  {
    BeforeFrame(t0, l0, removed0, frame, maxTimeLost, count0);
    assert t in s.l;
    LostCase(s.w, s.born, removed0, frame, maxTimeLost, s.u, s.l, removed, t);
    if t in s.w.newlyLost {
      var i := NewlyLostAt(s.w, frame, t);
      HeldMissed(t0, l0, Scored(objects, trackThresh, true), Scored(objects, trackThresh, false), matchThresh, frame,
                 maxTimeLost, see, s.p1, s.p2, s.p3, s.w, s.rest, i);
      r := Held(i);
    } else {
      r := StillWaiting(s, t0, l0, Scored(objects, trackThresh, true), Scored(objects, trackThresh, false), matchThresh,
                        frame, maxTimeLost, see, t);
    }
  }

  lemma StillWaiting(s: Story, t0: seq<STrack>, l0: seq<STrack>, high: seq<STrack>, low: seq<STrack>, thresh: real,
                     frame: int, maxTimeLost: int, see: Vision, t: STrack) returns (r: Ref)
    requires Before(t0, l0, frame) && Sound(s.w, t0, l0, frame) && Copied(s.w, frame)
    requires ThreeRounds(t0, l0, high, low, thresh, frame, see, s.p1, s.p2, s.p3, s.w, s.rest)
    requires t.id !in Ids(s.u) && AgedEntry(s.w.lost, frame, maxTimeLost, t)
    requires forall x :: x in s.w.refind ==> x in s.u
    ensures InBounds(Work(t0, l0, [], [], [], []), r) && MissedAs(Behind(r, t0, l0), t, frame, maxTimeLost, see)
  {
    var i := WaitingMissed(s, l0, frame, maxTimeLost, see, t);
    r := Waiting(i);
    UnmatchedWaiting(t0, l0, s.p1, thresh, frame, see, s.w, i);
  }

  lemma LostCase(w: Work, born: seq<STrack>, removed0: seq<STrack>, frame: int, maxTimeLost: int,
                 u: seq<STrack>, l: seq<STrack>, removed: seq<STrack>, t: STrack)
    requires Gathered(w, born, removed0, frame, maxTimeLost, u, l, removed) && t in l
    ensures t in w.newlyLost || (t.id !in Ids(u) && AgedEntry(w.lost, frame, maxTimeLost, t))
    ensures forall x :: x in w.refind ==> x in u
  {
  }

  lemma NewlyLostAt(w: Work, frame: int, t: STrack) returns (i: nat)
    requires Copied(w, frame) && t in w.newlyLost
    ensures i < |w.tracked| && w.tracked[i] == t && t.state == Lost
  {
    i :| 0 <= i < |w.tracked| && w.tracked[i] == t;
  }

  lemma WaitingMissed(s: Story, l0: seq<STrack>, frame: int, maxTimeLost: int, see: Vision, t: STrack) returns (i: nat)
    requires Copied(s.w, frame) && |s.w.lost| == |l0| && t.id !in Ids(s.u) && AgedEntry(s.w.lost, frame, maxTimeLost, t)
    requires forall x :: x in s.w.refind ==> x in s.u
    ensures i < |l0| && !Alive(s.w.lost[i], frame)
    ensures t == s.w.lost[i].(state := t.state)
    ensures t.state == if frame - s.w.lost[i].frame > maxTimeLost then Removed else s.w.lost[i].state
  {
    var k :| 0 <= k < |s.w.lost| && t == Aged(s.w.lost[k], frame, maxTimeLost);
    i := k;
    assert s.w.lost[i] in s.w.lost;
    assert Alive(s.w.lost[i], frame) ==> s.w.lost[i] in s.u;
  }

  lemma UnmatchedWaiting(t0: seq<STrack>, l0: seq<STrack>, p: Pass, thresh: real, frame: int, see: Vision, w: Work,
                         i: nat)
    requires PredictedFrom(t0, l0, p.before, p.pool, see) && Played(p, thresh, frame, see)
    requires FirstPool(p.before, t0, p.pool) && i < |l0| && |p.after.lost| == |l0| && w.lost == p.after.lost
    requires l0[i].state != Tracked && !Alive(w.lost[i], frame)
    ensures w.lost[i] == l0[i].(body := see.predict(l0[i].body, false))
  {
    var r := Waiting(i);
    BeforeRounds(t0, l0, p, see, r);
    var hit, k := PassEntry(p, thresh, frame, see, r);
    assert At(p.after, r) == p.after.lost[i] && r in p.pool;
  }
}
