/** When a ByteTrack track marked removed comes back. */
module ByteReturn {
  import opened Assignment
  import opened Lapjv
  import opened PartialMatching
  import opened ByteAssignment
  import opened ByteLists
  import opened ByteRounds
  import opened ByteTracker

  /** The first round matched entry i of the lost list. */
  ghost predicate FirstMatched(p: Pass, i: nat) {
    exists k :: 0 <= k < |p.matches| && 0 <= p.matches[k].0 < |p.pool| && p.pool[p.matches[k].0] == Waiting(i)
  }

  /** A lost entry is hit exactly if the first round matched it; otherwise only its body moved. */
  lemma LostAfterFirst(p: Pass, thresh: real, t0: seq<STrack>, l0: seq<STrack>, frame: int, see: Vision, i: nat)
    requires Played(p, thresh, frame, see) && PredictedFrom(t0, l0, p.before, p.pool, see)
    requires i < |l0| && l0[i].state != Tracked
    ensures |p.after.lost| == |l0| && p.after.lost[i].id == l0[i].id
    ensures Alive(p.after.lost[i], frame) <==> FirstMatched(p, i)
    ensures !FirstMatched(p, i) ==> p.after.lost[i].state == l0[i].state
  {
    var start := Work(t0, l0, [], [], [], []);
    assert InBounds(start, Waiting(i)) && InBounds(p.before, Waiting(i));
    assert At(p.before, Waiting(i)) == p.before.lost[i] && At(p.after, Waiting(i)) == p.after.lost[i];
    assert At(start, Waiting(i)) == l0[i];
    if FirstMatched(p, i) {
      var k :| 0 <= k < |p.matches| && 0 <= p.matches[k].0 < |p.pool| && p.pool[p.matches[k].0] == Waiting(i);
      assert At(p.after, p.pool[p.matches[k].0])
          == Hit(At(p.before, p.pool[p.matches[k].0]), p.dets[p.matches[k].1], frame, see);
    } else {
      assert forall k :: 0 <= k < |p.matches| ==> p.pool[p.matches[k].0] != Waiting(i);
    }
  }

  /** The followed track with the id of a lost entry, if any, is that entry, hit. */
  lemma FollowedId(w: Work, born: seq<STrack>, t0: seq<STrack>, l0: seq<STrack>, removed0: seq<STrack>, count0: int,
                   frame: int, maxTimeLost: int, u: seq<STrack>, i: nat)
    requires Roster(t0, l0, removed0, frame - 1, maxTimeLost, count0) && Sound(w, t0, l0, frame) && Copied(w, frame)
    requires FreshTracks(born, frame, count0) && i < |l0|
    requires forall t :: t in u ==> (t in w.tracked && t.state == Tracked) || t in born || t in w.refind
    requires forall t :: t in w.refind ==> t in u
    ensures w.lost[i].id == l0[i].id && (Alive(w.lost[i], frame) ==> w.lost[i] in u)
    ensures forall t :: t in u && t.id == l0[i].id ==> t == w.lost[i] && Alive(t, frame)
  {
    assert l0[i] in l0 && l0[i].id in Ids(l0);
    assert WaitingStep(l0[i], w.lost[i], frame);
    forall t | t in u && t.id == l0[i].id ensures t == w.lost[i] && Alive(t, frame) {
      TrackedIds(w, t0, l0, frame);
      BornIds(born, frame, count0);
      assert t in born ==> t.id in Ids(born);
      assert t in w.refind;
      var k :| 0 <= k < |w.lost| && w.lost[k] == t;
      assert WaitingStep(l0[k], w.lost[k], frame);
      assert k == i;
    }
  }

  lemma TrackedIds(w: Work, t0: seq<STrack>, l0: seq<STrack>, frame: int)
    requires Sound(w, t0, l0, frame)
    ensures forall t :: t in w.tracked ==> t.id in Ids(t0)
  {
    forall t | t in w.tracked ensures t.id in Ids(t0) {
      var k :| 0 <= k < |w.tracked| && w.tracked[k] == t;
      assert HeldStep(t0[k], w.tracked[k], frame, Ids(w.newlyLost));
      assert t0[k] in t0;
    }
  }

  lemma {:induction false} BornFresh(rest: seq<STrack>, thresh: real, count0: int, frame: int, see: Vision)
    ensures FreshTracks(Born(rest, thresh, count0, frame, see), frame, count0)
  {
    if rest != [] { BornFresh(rest[..|rest| - 1], thresh, count0, frame, see); }
  }

  /** The lost list drops ids removed in earlier frames. */
  lemma DroppedOnce(w: Work, born: seq<STrack>, removed0: seq<STrack>, frame: int, maxTimeLost: int,
                    u: seq<STrack>, l: seq<STrack>, removed: seq<STrack>, id: int)
    requires Gathered(w, born, removed0, frame, maxTimeLost, u, l, removed) && id in Ids(removed0)
    ensures id !in Ids(l)
  {
  }

  lemma ByMembers(u: seq<STrack>, l: seq<STrack>, t: STrack, id: int)
    requires id !in Ids(l) && forall x :: x in u && x.id == id ==> x == t
    ensures id in Ids(u) + Ids(l) <==> t in u && t.id == id
  {
  }

  /** An entry marked Removed in an earlier frame is still in the lists this frame gathers if and
      only if the first round matches it: the lost list drops ids removed before. It is then the
      entry as hit, among the followed ones. */
  lemma RemovedReturnsIff(s: Story, objects: seq<(Body, real)>, t0: seq<STrack>, l0: seq<STrack>, removed0: seq<STrack>,
                          count0: int, frame: int, maxTimeLost: int, trackThresh: real, highThresh: real,
                          matchThresh: real, see: Vision, tracked: seq<STrack>, lost: seq<STrack>,
                          removed: seq<STrack>, i: nat)
    requires Roster(t0, l0, removed0, frame - 1, maxTimeLost, count0) && i < |l0| && l0[i].state == Removed
    requires Told(s, objects, t0, l0, removed0, count0, frame, maxTimeLost, trackThresh, highThresh, matchThresh, see,
                  tracked, lost, removed)
    ensures l0[i].id in Ids(s.u) + Ids(s.l) <==> FirstMatched(s.p1, i)
    ensures l0[i].id !in Ids(s.l) && forall t :: t in s.u && t.id == l0[i].id ==> t == s.w.lost[i]
    ensures FirstMatched(s.p1, i) ==> s.w.lost[i] in s.u && s.w.lost[i].id == l0[i].id
  {
    BornFresh(s.rest, highThresh, count0, frame, see);
    LostAfterFirst(s.p1, matchThresh, t0, l0, frame, see, i);
    FollowedId(s.w, s.born, t0, l0, removed0, count0, frame, maxTimeLost, s.u, i);
    assert l0[i] in l0;
    DroppedOnce(s.w, s.born, removed0, frame, maxTimeLost, s.u, s.l, removed, l0[i].id);
    ByMembers(s.u, s.l, s.w.lost[i], l0[i].id);
  }

  /** Which of the gathered tracks the duplicate check leaves, for one id. */
  lemma StaysById(u: seq<STrack>, l: seq<STrack>, tracked: seq<STrack>, lost: seq<STrack>, see: Vision,
                  t: STrack, id: int, matched: bool)
    requires Deduplicated(u, l, tracked, lost, see) && id !in Ids(l)
    requires forall x :: x in u && x.id == id ==> x == t
    requires (matched <==> id in Ids(u)) && (matched ==> t in u && t.id == id)
    ensures id in Ids(tracked) + Ids(lost) <==> matched && !DropsTracked(t, l, see)
  {
    assert forall x :: x in lost ==> x in l && x.id in Ids(l);
    if matched && !DropsTracked(t, l, see) { assert t in tracked; }
  }

  /** And it outlives the frame if and only if, besides, no lost track that has lived at least as
      long is its duplicate. */
  lemma RemovedOutlivesIff(s: Story, objects: seq<(Body, real)>, t0: seq<STrack>, l0: seq<STrack>,
                           removed0: seq<STrack>,
                           count0: int, frame: int, maxTimeLost: int, trackThresh: real, highThresh: real,
                           matchThresh: real, see: Vision, tracked: seq<STrack>, lost: seq<STrack>,
                           removed: seq<STrack>, i: nat)
    requires Roster(t0, l0, removed0, frame - 1, maxTimeLost, count0) && i < |l0| && l0[i].state == Removed
    requires Told(s, objects, t0, l0, removed0, count0, frame, maxTimeLost, trackThresh, highThresh, matchThresh, see,
                  tracked, lost, removed)
    ensures l0[i].id in Ids(tracked) + Ids(lost)
            <==> FirstMatched(s.p1, i) && !DropsTracked(s.w.lost[i], s.l, see)
  {
    RemovedReturnsIff(s, objects, t0, l0, removed0, count0, frame, maxTimeLost, trackThresh, highThresh, matchThresh,
                      see, tracked, lost, removed, i);
    StaysById(s.u, s.l, tracked, lost, see, s.w.lost[i], l0[i].id, FirstMatched(s.p1, i));
  }

  // ---- frames without detections -----------------------------------------------------------

  lemma PairsNeedDetections(p: Pass)
    requires Pairs(p.pool, p.dets, p.matches)
    ensures |p.matches| > 0 ==> |p.dets| > 0
  {
    if |p.matches| > 0 { assert 0 <= p.matches[0].1 < |p.dets|; }
  }

  lemma PickedSome(dets: seq<STrack>, idx: seq<int>, s: seq<STrack>)
    requires Picked(dets, idx, s)
    ensures |s| > 0 ==> |dets| > 0
  {
    if |s| > 0 { assert 0 <= idx[0] < |dets|; }
  }

  lemma FirstMember(s: seq<STrack>)
    ensures |s| > 0 ==> s[0] in s
  {
  }

  /** With no detections a round matches nothing and changes nothing. */
  lemma EmptyPass(p: Pass, thresh: real, frame: int, see: Vision)
    requires Played(p, thresh, frame, see) && p.dets == []
    ensures |p.after.tracked| == |p.before.tracked| && p.after.lost == p.before.lost
    ensures forall r :: InBounds(p.before, r) ==> At(p.after, r) == At(p.before, r)
    ensures forall a :: 0 <= a < |p.pool| ==> a in p.ut
  {
    PairsNeedDetections(p);
    forall i | 0 <= i < |p.before.lost| ensures p.after.lost[i] == p.before.lost[i] {
      assert InBounds(p.before, Waiting(i)) && At(p.after, Waiting(i)) == At(p.before, Waiting(i));
    }
    var sol :| Round(p.before, p.pool, p.dets, thresh, see, p.matches, p.ut, p.ud, sol);
    forall a | 0 <= a < |p.pool| ensures a in p.ut {
      assert sol[a] < 0;
    }
  }

  /** Every pooled entry a round gives up carries the new state. */
  lemma AllGivenUp(p: Pass, after: Work, to: State, a: nat)
    requires Refs(p.after, p.pool) && (forall m :: 0 <= m < |p.ut| ==> 0 <= p.ut[m] < |p.pool|)
    requires GivenUp(p.after, after, p.pool, p.ut, |p.ut|, to) && a < |p.pool| && a in p.ut
    ensures InBounds(after, p.pool[a]) && At(after, p.pool[a]) == At(p.after, p.pool[a]).(state := to)
  {
    var m :| 0 <= m < |p.ut| && p.ut[m] == a;
    assert At(after, p.pool[p.ut[m]]) == At(p.after, p.pool[p.ut[m]]).(state := to);
  }

  lemma NotGivenUp(p: Pass, after: Work, to: State, r: Ref)
    requires Refs(p.after, p.pool) && (forall m :: 0 <= m < |p.ut| ==> 0 <= p.ut[m] < |p.pool|)
    requires GivenUp(p.after, after, p.pool, p.ut, |p.ut|, to) && InBounds(p.after, r) && r !in p.pool
    ensures InBounds(after, r) && At(after, r) == At(p.after, r)
  {
    assert forall m :: 0 <= m < |p.ut| ==> p.pool[p.ut[m]] in p.pool;
  }

  /** A tracked entry nobody detects: predicted and lost, or removed if it was never activated. */
  function GivenUpOn(t: STrack, see: Vision): STrack {
    if t.activated then PredictTrack(t, see).(state := Lost) else t.(state := Removed)
  }

  /** A tracked entry in a frame without detections: lost if it was activated, else removed. */
  lemma EmptyFrameEntry(t0: seq<STrack>, l0: seq<STrack>, thresh: real, frame: int, see: Vision,
                        p1: Pass, p2: Pass, p3: Pass, w: Work, rest: seq<STrack>, i: nat)
    requires ThreeRounds(t0, l0, [], [], thresh, frame, see, p1, p2, p3, w, rest)
    requires p3.dets == [] && i < |t0| && t0[i].state == Tracked
    ensures |w.tracked| == |t0| && w.tracked[i] == GivenUpOn(t0[i], see)
  {
    var start, r := Work(t0, l0, [], [], [], []), Held(i);
    assert InBounds(start, r) && At(start, r) == t0[i] && InBounds(p1.before, r);
    EmptyPass(p1, thresh, frame, see);
    EmptyPass(p2, 0.5, frame, see);
    EmptyPass(p3, 0.7, frame, see);
    assert At(p1.after, r) == At(p1.before, r);
    assert At(w, r) == w.tracked[i];
    if t0[i].activated {
      EmptySecond(p1, p2, p3.before, r);
      NotGivenUp(p3, w, Removed, r);
    } else {
      assert forall m :: 0 <= m < |p1.ut| ==> p1.pool[p1.ut[m]] in p1.pool;
      NotGivenUp(p2, p3.before, Lost, r);
      var b :| 0 <= b < |p3.pool| && p3.pool[b] == r;
      AllGivenUp(p3, w, Removed, b);
    }
  }

  /** What two empty rounds do to a pooled entry that is Tracked. */
  lemma EmptySecond(p1: Pass, p2: Pass, after: Work, r: Ref)
    requires LeftOpen(p1, p2.pool) && r in p1.pool && InBounds(p1.after, r) && At(p1.after, r).state == Tracked
    requires (forall a :: 0 <= a < |p1.pool| ==> a in p1.ut) && forall b :: 0 <= b < |p2.pool| ==> b in p2.ut
    requires Refs(p2.after, p2.pool) && forall m :: 0 <= m < |p2.ut| ==> 0 <= p2.ut[m] < |p2.pool|
    requires GivenUp(p2.after, after, p2.pool, p2.ut, |p2.ut|, Lost)
    ensures InBounds(p2.after, r) && InBounds(after, r) && At(after, r) == At(p2.after, r).(state := Lost)
  {
    var a :| 0 <= a < |p1.pool| && p1.pool[a] == r;
    assert a in p1.ut;
    var m :| 0 <= m < |p1.ut| && p1.ut[m] == a;
    assert r in p2.pool;
    var b :| 0 <= b < |p2.pool| && p2.pool[b] == r;
    AllGivenUp(p2, after, Lost, b);
  }

  lemma EmptyFrameEntries(t0: seq<STrack>, l0: seq<STrack>, thresh: real, frame: int, see: Vision,
                          p1: Pass, p2: Pass, p3: Pass, w: Work, rest: seq<STrack>)
    requires Before(t0, l0, frame) && ThreeRounds(t0, l0, [], [], thresh, frame, see, p1, p2, p3, w, rest)
    ensures |w.tracked| == |t0| && |w.lost| == |l0| && rest == []
    ensures forall i :: 0 <= i < |t0| ==> w.tracked[i] == GivenUpOn(t0[i], see)
    ensures forall i :: 0 <= i < |l0| ==> w.lost[i] == PredictTrack(l0[i], see)
  {
    NoDetectionsLeft(t0, l0, thresh, frame, see, p1, p2, p3, w, rest);
    EmptyPass(p1, thresh, frame, see);
    assert |w.tracked| == |t0| by { EmptySizes(t0, l0, thresh, frame, see, p1, p2, p3, w, rest); }
    forall i | 0 <= i < |t0| ensures w.tracked[i] == GivenUpOn(t0[i], see) {
      EmptyFrameEntry(t0, l0, thresh, frame, see, p1, p2, p3, w, rest, i);
    }
    var start := Work(t0, l0, [], [], [], []);
    forall i | 0 <= i < |l0| ensures w.lost[i] == PredictTrack(l0[i], see) {
      assert InBounds(start, Waiting(i)) && At(start, Waiting(i)) == l0[i] && Waiting(i) in p1.pool;
      assert At(p1.before, Waiting(i)) == p1.before.lost[i];
    }
  }

  lemma EmptySizes(t0: seq<STrack>, l0: seq<STrack>, thresh: real, frame: int, see: Vision,
                   p1: Pass, p2: Pass, p3: Pass, w: Work, rest: seq<STrack>)
    requires ThreeRounds(t0, l0, [], [], thresh, frame, see, p1, p2, p3, w, rest)
    ensures |w.tracked| == |t0|
  {
  }

  lemma NoDetectionsLeft(t0: seq<STrack>, l0: seq<STrack>, thresh: real, frame: int, see: Vision,
                         p1: Pass, p2: Pass, p3: Pass, w: Work, rest: seq<STrack>)
    requires ThreeRounds(t0, l0, [], [], thresh, frame, see, p1, p2, p3, w, rest)
    ensures p3.dets == [] && rest == []
  {
    PickedSome(p1.dets, p1.ud, p3.dets);
    PickedSome(p3.dets, p3.ud, rest);
  }

  /** A frame without detections follows nothing. It keeps as lost the activated tracks and the
      aged lost ones, except ids removed before. */
  lemma EmptyFrame(s: Story, t0: seq<STrack>, l0: seq<STrack>, removed0: seq<STrack>, count0: int, frame: int,
                   maxTimeLost: int, trackThresh: real, highThresh: real, matchThresh: real, see: Vision,
                   tracked: seq<STrack>, lost: seq<STrack>, removed: seq<STrack>)
    requires Before(t0, l0, frame)
    requires Told(s, [], t0, l0, removed0, count0, frame, maxTimeLost, trackThresh, highThresh, matchThresh, see,
                  tracked, lost, removed)
    ensures tracked == []
    ensures forall t :: t in lost <==>
              ((t in s.w.tracked && t.state == Lost) || AgedEntry(s.w.lost, frame, maxTimeLost, t))
              && t.id !in Ids(removed0)
    ensures |s.w.tracked| == |t0| && |s.w.lost| == |l0|
    ensures forall i :: 0 <= i < |t0| ==> s.w.tracked[i] == GivenUpOn(t0[i], see)
    ensures forall i :: 0 <= i < |l0| ==> s.w.lost[i] == PredictTrack(l0[i], see)
  {
    assert Scored([], trackThresh, true) == [] && Scored([], trackThresh, false) == [];
    EmptyFrameEntries(t0, l0, matchThresh, frame, see, s.p1, s.p2, s.p3, s.w, s.rest);
    NobodyFollowed(s.w, t0, l0, removed0, frame, maxTimeLost, s.u, s.l, removed);
    EmptyFold(s.w, removed0, frame, maxTimeLost, see, s.l, tracked, lost, removed);
  }

  lemma NobodyFollowed(w: Work, t0: seq<STrack>, l0: seq<STrack>, removed0: seq<STrack>, frame: int, maxTimeLost: int,
                       u: seq<STrack>, l: seq<STrack>, removed: seq<STrack>)
    requires Before(t0, l0, frame) && |w.tracked| == |t0| && |w.lost| == |l0| && Copied(w, frame)
    requires Gathered(w, [], removed0, frame, maxTimeLost, u, l, removed)
    requires forall i :: 0 <= i < |t0| ==> w.tracked[i].state != Tracked
    requires forall i :: 0 <= i < |l0| ==> w.lost[i].state == l0[i].state
    ensures u == []
  {
    forall t | t in w.lost ensures t.state != Tracked {
      var k :| 0 <= k < |w.lost| && w.lost[k] == t;
      assert l0[k].state == t.state;
    }
    FirstMember(u);
  }

  lemma EmptyFold(w: Work, removed0: seq<STrack>, frame: int, maxTimeLost: int, see: Vision,
                  l: seq<STrack>, tracked: seq<STrack>, lost: seq<STrack>, removed: seq<STrack>)
    requires Copied(w, frame) && FoldsTo(w, [], removed0, frame, maxTimeLost, see, [], l, tracked, lost, removed)
    ensures tracked == []
    ensures forall t :: t in lost <==>
              ((t in w.tracked && t.state == Lost) || AgedEntry(w.lost, frame, maxTimeLost, t))
              && t.id !in Ids(removed0)
  {
    FirstMember(tracked);
    assert forall t :: t in lost <==> t in l;
  }

  // ---- a run in which a removed track returns ------------------------------------------------

  /** A round never leaves a near pair unmatched on both sides. */
  lemma NearPairMatched(p: Pass, thresh: real, frame: int, see: Vision, a: nat, b: nat) returns (k: nat)
    requires Played(p, thresh, frame, see) && a < |p.pool| && b < |p.dets|
    requires see.distance(At(p.before, p.pool[a]).body, p.dets[b].body) < thresh
    ensures k < |p.matches| && (p.matches[k].0 == a || p.matches[k].1 == b)
  {
    var sol :| Round(p.before, p.pool, p.dets, thresh, see, p.matches, p.ut, p.ud, sol);
    var c :| HasShape(c, |p.pool|, |p.dets|) && Minimal(c, sol, thresh, |p.pool|, |p.dets|)
             && forall i, j :: 0 <= i < |p.pool| && 0 <= j < |p.dets| ==>
                  c[i][j] == see.distance(At(p.before, p.pool[i]).body, p.dets[j].body);
    var i: nat;
    if sol[a] >= 0 {
      i := a;
    } else if b in sol {
      i :| 0 <= i < |sol| && sol[i] == b;
    } else {
      UnmatchedBeyondLimit(c, sol, thresh, |p.pool|, |p.dets|, a, b);
      assert false;
    }
    assert (i, sol[i]) in p.matches;
    k :| 0 <= k < |p.matches| && p.matches[k] == (i, sol[i]);
  }

  /** One track is followed and nothing else is known. */
  ghost predicate Followed(tracked: seq<STrack>, lost: seq<STrack>, removed: seq<STrack>, id: int, body: Body) {
    |tracked| == 1 && tracked[0].id == id && tracked[0].body == body && tracked[0].activated
    && lost == [] && removed == []
  }

  /** One track is lost since frame `last`, and marked removed or not. */
  ghost predicate Missed(tracked: seq<STrack>, lost: seq<STrack>, removed: seq<STrack>, id: int, body: Body,
                         last: int, state: State) {
    tracked == [] && |lost| == 1 && lost[0].id == id && lost[0].body == body
    && lost[0].frame == last && lost[0].state == state
    && if state == Removed then id in Ids(removed) else removed == []
  }

  /** A body after k predictions of a track that is not Tracked. */
  function Waited(see: Vision, body: Body, k: nat): Body {
    if k == 0 then body else see.predict(Waited(see, body, k - 1), false)
  }

  lemma OneMember(s: seq<STrack>, t: STrack)
    requires DistinctIds(s) && forall x :: x in s <==> x == t
    ensures s == [t]
  {
    assert t in s;
    assert s[0] in s;
    assert |s| > 1 ==> s[1] in s && s[0].id != s[1].id;
  }

  lemma NoMember(s: seq<STrack>)
    requires forall x :: x !in s
    ensures s == []
  {
    FirstMember(s);
  }

  lemma LoseLists(w: Work, born: seq<STrack>, frame: int, maxTimeLost: int, u: seq<STrack>, l: seq<STrack>,
                  lost: seq<STrack>, removed: seq<STrack>)
    requires Gathered(w, born, [], frame, maxTimeLost, u, l, removed) && Copied(w, frame) && DistinctIds(lost)
    requires |w.tracked| == 1 && w.tracked[0].state == Lost && w.lost == []
    requires forall t :: t in lost <==> (t in w.tracked && t.state == Lost) || AgedEntry(w.lost, frame, maxTimeLost, t)
    ensures lost == [w.tracked[0]] && removed == []
  {
    OneMember(lost, w.tracked[0]);
    NoMember(removed);
  }

  lemma WaitLists(w: Work, born: seq<STrack>, frame: int, maxTimeLost: int, u: seq<STrack>, l: seq<STrack>,
                  lost: seq<STrack>, removed: seq<STrack>)
    requires Gathered(w, born, [], frame, maxTimeLost, u, l, removed) && Copied(w, frame) && DistinctIds(lost)
    requires w.tracked == [] && |w.lost| == 1
    requires forall t :: t in lost <==> (t in w.tracked && t.state == Lost) || AgedEntry(w.lost, frame, maxTimeLost, t)
    ensures lost == [Aged(w.lost[0], frame, maxTimeLost)]
    ensures if frame - w.lost[0].frame > maxTimeLost then lost[0] in removed else removed == []
  {
    var t := Aged(w.lost[0], frame, maxTimeLost);
    assert forall x :: AgedEntry(w.lost, frame, maxTimeLost, x) <==> x == t;
    OneMember(lost, t);
    assert forall x :: x !in w.newlyRemoved;
    if frame - w.lost[0].frame > maxTimeLost {
      assert Overdue(w.lost, |w.lost|, frame, maxTimeLost, t);
    } else {
      NoMember(removed);
    }
  }

  /** The only track is not detected: it is lost. */
  lemma LoseFrame(s: Story, t0: seq<STrack>, l0: seq<STrack>, removed0: seq<STrack>, count0: int, frame: int,
                  maxTimeLost: int, trackThresh: real, highThresh: real, matchThresh: real, see: Vision,
                  tracked: seq<STrack>, lost: seq<STrack>, removed: seq<STrack>, id: int, body: Body)
    requires Followed(t0, l0, removed0, id, body) && Before(t0, l0, frame) && DistinctIds(lost)
    requires Told(s, [], t0, l0, removed0, count0, frame, maxTimeLost, trackThresh, highThresh, matchThresh, see,
                  tracked, lost, removed)
    ensures Missed(tracked, lost, removed, id, see.predict(body, true), frame - 1, Lost)
  {
    EmptyFrame(s, t0, l0, removed0, count0, frame, maxTimeLost, trackThresh, highThresh, matchThresh, see,
               tracked, lost, removed);
    LoseLists(s.w, s.born, frame, maxTimeLost, s.u, s.l, lost, removed);
  }

  /** Without detections the lost track stays lost, and is marked removed once it is overdue. */
  lemma WaitFrame(s: Story, t0: seq<STrack>, l0: seq<STrack>, removed0: seq<STrack>, count0: int, frame: int,
                  maxTimeLost: int, trackThresh: real, highThresh: real, matchThresh: real, see: Vision,
                  tracked: seq<STrack>, lost: seq<STrack>, removed: seq<STrack>, id: int, body: Body, last: int)
    requires Missed(t0, l0, removed0, id, body, last, Lost) && Before(t0, l0, frame) && DistinctIds(lost)
    requires Told(s, [], t0, l0, removed0, count0, frame, maxTimeLost, trackThresh, highThresh, matchThresh, see,
                  tracked, lost, removed)
    ensures Missed(tracked, lost, removed, id, see.predict(body, false), last,
                   if frame - last > maxTimeLost then Removed else Lost)
  {
    EmptyFrame(s, t0, l0, removed0, count0, frame, maxTimeLost, trackThresh, highThresh, matchThresh, see,
               tracked, lost, removed);
    WaitLists(s.w, s.born, frame, maxTimeLost, s.u, s.l, lost, removed);
  }

  lemma TwoMembers(s: seq<int>)
    requires |s| > 1 && Increasing(s)
    ensures s[0] in s && s[1] in s && s[0] < s[1]
  {
  }

  /** A round with nobody to match leaves its only detection over. */
  lemma LoneLeft(p: Pass, thresh: real, frame: int, see: Vision, rest: seq<STrack>)
    requires Played(p, thresh, frame, see) && p.pool == [] && |p.dets| == 1 && Picked(p.dets, p.ud, rest)
    ensures rest == p.dets && |p.after.tracked| == |p.before.tracked| && |p.after.lost| == |p.before.lost|
  {
    var sol :| Round(p.before, p.pool, p.dets, thresh, see, p.matches, p.ut, p.ud, sol);
    assert forall j :: j in p.ud <==> j == 0;
    assert 0 in p.ud && p.ud[0] in p.ud;
    if |p.ud| > 1 { TwoMembers(p.ud); }
  }

  lemma FirstRounds(high: seq<STrack>, low: seq<STrack>, thresh: real, frame: int, see: Vision,
                    p1: Pass, p2: Pass, p3: Pass, w: Work, rest: seq<STrack>)
    requires ThreeRounds([], [], high, low, thresh, frame, see, p1, p2, p3, w, rest) && |high| == 1
    ensures w.tracked == [] && w.lost == [] && rest == high
  {
    NoRefs(p1.pool);
    LoneLeft(p1, thresh, frame, see, p3.dets);
    NoRefs(p3.pool);
    LoneLeft(p3, 0.7, frame, see, rest);
  }

  lemma FirstRef(pool: seq<Ref>)
    ensures |pool| > 0 ==> pool[0] in pool
  {
  }

  lemma NoRefs(pool: seq<Ref>)
    requires forall r :: r !in pool
    ensures pool == []
  {
    FirstRef(pool);
  }

  lemma OneScored(seen: (Body, real), thresh: real)
    requires seen.1 >= thresh
    ensures Scored([seen], thresh, true) == [Detection(seen.0, seen.1)]
  {
    assert [seen][..0] == [];
  }

  lemma OneBorn(d: STrack, thresh: real, count0: int, see: Vision)
    requires d.score >= thresh
    ensures Born([d], thresh, count0, 1, see) == [Activate(d, count0 + 1, 1, see)]
  {
    assert [d][..0] == [];
  }

  /** The first frame starts a track for its only detection, activated at once. */
  lemma BirthFrame(s: Story, seen: (Body, real), count0: int, maxTimeLost: int, trackThresh: real, highThresh: real,
                   matchThresh: real, see: Vision, tracked: seq<STrack>, lost: seq<STrack>, removed: seq<STrack>)
    requires seen.1 >= trackThresh && seen.1 >= highThresh && DistinctIds(tracked)
    requires Told(s, [seen], [], [], [], count0, 1, maxTimeLost, trackThresh, highThresh, matchThresh, see,
                  tracked, lost, removed)
    ensures Followed(tracked, lost, removed, count0 + 1, see.initiate(seen.0))
  {
    var d := Detection(seen.0, seen.1);
    OneScored(seen, trackThresh);
    FirstRounds([d], Scored([seen], trackThresh, false), matchThresh, 1, see, s.p1, s.p2, s.p3, s.w, s.rest);
    OneBorn(d, highThresh, count0, see);
    BirthLists(s.w, s.born, maxTimeLost, see, s.u, s.l, tracked, lost, removed);
  }

  lemma BirthLists(w: Work, born: seq<STrack>, maxTimeLost: int, see: Vision, u: seq<STrack>, l: seq<STrack>,
                   tracked: seq<STrack>, lost: seq<STrack>, removed: seq<STrack>)
    requires FoldsTo(w, born, [], 1, maxTimeLost, see, u, l, tracked, lost, removed) && Copied(w, 1)
    requires w.tracked == [] && w.lost == [] && |born| == 1 && DistinctIds(tracked)
    ensures tracked == born && lost == [] && removed == []
  {
    BirthGathered(w, born, maxTimeLost, u, l, removed);
    OneMember(tracked, born[0]);
    NoMember(lost);
  }

  lemma BirthGathered(w: Work, born: seq<STrack>, maxTimeLost: int, u: seq<STrack>, l: seq<STrack>,
                      removed: seq<STrack>)
    requires Gathered(w, born, [], 1, maxTimeLost, u, l, removed) && Copied(w, 1)
    requires w.tracked == [] && w.lost == [] && |born| == 1
    ensures l == [] && removed == [] && forall t :: t in u <==> t == born[0]
  {
    assert forall x :: !AgedEntry(w.lost, 1, maxTimeLost, x);
    NoMember(l);
    NoMember(removed);
  }

  lemma LoneMatched(p: Pass, l0: seq<STrack>, thresh: real, frame: int, see: Vision)
    requires Played(p, thresh, frame, see) && |l0| == 1 && |p.dets| == 1 && l0[0].state != Tracked
    requires PredictedFrom([], l0, p.before, p.pool, see) && FirstPool(p.before, [], p.pool)
    requires see.distance(see.predict(l0[0].body, false), p.dets[0].body) < thresh
    ensures FirstMatched(p, 0)
  {
    var start := Work([], l0, [], [], [], []);
    assert InBounds(start, Waiting(0)) && At(start, Waiting(0)) == l0[0];
    assert Waiting(0) in p.pool;
    var a :| 0 <= a < |p.pool| && p.pool[a] == Waiting(0);
    var k := NearPairMatched(p, thresh, frame, see, a, 0);
    assert p.pool[p.matches[k].0] in p.pool;
  }

  lemma NothingLost(w: Work, born: seq<STrack>, removed0: seq<STrack>, frame: int, maxTimeLost: int,
                    u: seq<STrack>, l: seq<STrack>, removed: seq<STrack>, id: int)
    requires Gathered(w, born, removed0, frame, maxTimeLost, u, l, removed) && Copied(w, frame)
    requires w.tracked == [] && |w.lost| == 1 && w.lost[0].id == id && id in Ids(removed0)
    ensures l == []
  {
    assert forall t :: AgedEntry(w.lost, frame, maxTimeLost, t) ==> t.id == id;
    NoMember(l);
  }

  /** Detected again near its prediction, the removed track is followed again. */
  lemma ReturnFrame(s: Story, seen: (Body, real), t0: seq<STrack>, l0: seq<STrack>, removed0: seq<STrack>, count0: int,
                    frame: int, maxTimeLost: int, trackThresh: real, highThresh: real, matchThresh: real, see: Vision,
                    tracked: seq<STrack>, lost: seq<STrack>, removed: seq<STrack>, id: int, body: Body,
                    last: int)
    requires Missed(t0, l0, removed0, id, body, last, Removed)
    requires Roster(t0, l0, removed0, frame - 1, maxTimeLost, count0)
    requires seen.1 >= trackThresh && see.distance(see.predict(body, false), seen.0) < matchThresh
    requires Told(s, [seen], t0, l0, removed0, count0, frame, maxTimeLost, trackThresh, highThresh, matchThresh, see,
                  tracked, lost, removed)
    ensures id in Ids(tracked) + Ids(lost) && id !in Ids(lost)
  {
    OneScored(seen, trackThresh);
    LoneMatched(s.p1, l0, matchThresh, frame, see);
    assert !DropsTracked(s.w.lost[0], s.l, see) by {
      NothingLost(s.w, s.born, removed0, frame, maxTimeLost, s.u, s.l, removed, id);
    }
    RemovedOutlivesIff(s, [seen], t0, l0, removed0, count0, frame, maxTimeLost, trackThresh, highThresh, matchThresh,
                       see, tracked, lost, removed, 0);
  }

  method StartTrack(tracker: Tracker, seen: (Body, real), see: Vision) returns (id: int)
    requires tracker.Valid() && tracker.frameId == 0 && Proper(see)
    requires seen.1 >= tracker.trackThresh && seen.1 >= tracker.highThresh
    requires tracker.tracked == [] && tracker.lost == [] && tracker.removed == []
    modifies tracker, tracker.ids
    ensures tracker.Valid() && tracker.frameId == 1
    ensures Followed(tracker.tracked, tracker.lost, tracker.removed, id, see.initiate(seen.0))
  {
    id := tracker.ids.count + 1;
    ghost var count0 := tracker.ids.count;
    var _, s := tracker.Update([seen], see);
    BirthFrame(s, seen, count0, tracker.maxTimeLost, tracker.trackThresh, tracker.highThresh, tracker.matchThresh, see,
               tracker.tracked, tracker.lost, tracker.removed);
  }

  method MissTrack(tracker: Tracker, id: int, ghost body: Body, see: Vision)
    requires tracker.Valid() && Proper(see) && Followed(tracker.tracked, tracker.lost, tracker.removed, id, body)
    modifies tracker, tracker.ids
    ensures tracker.Valid() && tracker.frameId == old(tracker.frameId) + 1
    ensures Missed(tracker.tracked, tracker.lost, tracker.removed, id, see.predict(body, true), old(tracker.frameId),
                   Lost)
  {
    ghost var t0, l0, removed0, count0 := tracker.tracked, tracker.lost, tracker.removed, tracker.ids.count;
    BeforeFrame(t0, l0, removed0, tracker.frameId + 1, tracker.maxTimeLost, count0);
    var _, s := tracker.Update([], see);
    LoseFrame(s, t0, l0, removed0, count0, tracker.frameId, tracker.maxTimeLost, tracker.trackThresh,
              tracker.highThresh, tracker.matchThresh, see, tracker.tracked, tracker.lost, tracker.removed, id, body);
  }

  method WaitTrack(tracker: Tracker, id: int, ghost body: Body, last: int, see: Vision)
    requires tracker.Valid() && Proper(see)
    requires Missed(tracker.tracked, tracker.lost, tracker.removed, id, body, last, Lost)
    modifies tracker, tracker.ids
    ensures tracker.Valid() && tracker.frameId == old(tracker.frameId) + 1
    ensures Missed(tracker.tracked, tracker.lost, tracker.removed, id, see.predict(body, false), last,
                   if tracker.frameId - last > tracker.maxTimeLost then Removed else Lost)
  {
    ghost var t0, l0, removed0, count0 := tracker.tracked, tracker.lost, tracker.removed, tracker.ids.count;
    BeforeFrame(t0, l0, removed0, tracker.frameId + 1, tracker.maxTimeLost, count0);
    var _, s := tracker.Update([], see);
    WaitFrame(s, t0, l0, removed0, count0, tracker.frameId, tracker.maxTimeLost, tracker.trackThresh,
              tracker.highThresh, tracker.matchThresh, see, tracker.tracked, tracker.lost, tracker.removed, id, body,
              last);
  }

  method FindTrack(tracker: Tracker, id: int, ghost body: Body, last: int, back: (Body, real), see: Vision)
    requires tracker.Valid() && Proper(see) && back.1 >= tracker.trackThresh
    requires see.distance(see.predict(body, false), back.0) < tracker.matchThresh
    requires Missed(tracker.tracked, tracker.lost, tracker.removed, id, body, last, Removed)
    modifies tracker, tracker.ids
    ensures tracker.Valid() && tracker.frameId == old(tracker.frameId) + 1
    ensures id in Ids(tracker.tracked) && old(tracker.removed) <= tracker.removed
  {
    ghost var t0, l0, removed0, count0 := tracker.tracked, tracker.lost, tracker.removed, tracker.ids.count;
    var _, s := tracker.Update([back], see);
    ReturnFrame(s, back, t0, l0, removed0, count0, tracker.frameId, tracker.maxTimeLost, tracker.trackThresh,
                tracker.highThresh, tracker.matchThresh, see, tracker.tracked, tracker.lost, tracker.removed, id, body,
                last);
  }

  lemma PrefixIds(a: seq<STrack>, b: seq<STrack>)
    requires a <= b
    ensures Ids(a) <= Ids(b)
  {
    IdsAppend(a, b[|a|..]);
    assert a + b[|a|..] == b;
  }

  /** The removed track in the frame after it was removed: started by a detection at `start`, then
      predicted once as followed, `waits` times as lost, and once more. */
  function Expected(see: Vision, start: Body, waits: nat): Body {
    see.predict(Waited(see, see.predict(see.initiate(start), true), waits), false)
  }

  /** Frames without detections until the track lost in frame 2 is marked removed. */
  method WaitUntilRemoved(tracker: Tracker, id: int, ghost lostAt: Body, see: Vision) returns (ghost body: Body)
    requires tracker.Valid() && Proper(see) && tracker.frameId == 2
    requires Missed(tracker.tracked, tracker.lost, tracker.removed, id, lostAt, 1, Lost)
    modifies tracker, tracker.ids
    ensures tracker.Valid() && tracker.frameId == 2 + Max(tracker.maxTimeLost, 1)
    ensures body == Waited(see, lostAt, Max(tracker.maxTimeLost, 1))
    ensures Missed(tracker.tracked, tracker.lost, tracker.removed, id, body, 1, Removed)
  {
    body := lostAt;
    var m := Max(tracker.maxTimeLost, 1);
    while tracker.lost[0].state == Lost
      invariant tracker.Valid() && |tracker.lost| == 1 && 2 <= tracker.frameId
      invariant body == Waited(see, lostAt, tracker.frameId - 2)
      invariant Missed(tracker.tracked, tracker.lost, tracker.removed, id, body, 1, tracker.lost[0].state)
      invariant tracker.lost[0].state in {Lost, Removed}
      invariant if tracker.lost[0].state == Lost then tracker.frameId <= 1 + m else tracker.frameId == 2 + m
      decreases 2 + m - tracker.frameId
    {
      WaitTrack(tracker, id, body, 1, see);
      body := see.predict(body, false);
    }
  }

  /** A whole run in which a removed track returns, for all parameters: a track is started, is
      not detected until it is overdue and marked removed, and is followed again in the next
      frame, in which it is detected near where it is expected. */
  method RemovedReturns(frameRate: nat, trackBuffer: nat, trackThresh: real, highThresh: real, matchThresh: real,
                        seen: (Body, real), back: (Body, real), see: Vision)
    returns (tracker: Tracker, id: int)
    requires 0.0 <= matchThresh < 2.0 * LARGE && Proper(see)
    requires seen.1 >= trackThresh && seen.1 >= highThresh && back.1 >= trackThresh
    requires see.distance(Expected(see, seen.0, Max(frameRate * trackBuffer / 30, 1)), back.0) < matchThresh
    ensures tracker.Valid() && id in Ids(tracker.removed) && id in Ids(tracker.tracked)
    ensures tracker.frameId == Max(frameRate * trackBuffer / 30, 1) + 3
  {
    var ids := new IdCounter();
    tracker := new Tracker(frameRate, trackBuffer, trackThresh, highThresh, matchThresh, ids);
    id := StartTrack(tracker, seen, see);
    MissTrack(tracker, id, see.initiate(seen.0), see);
    ghost var body := WaitUntilRemoved(tracker, id, see.predict(see.initiate(seen.0), true), see);
    ghost var removed := tracker.removed;
    FindTrack(tracker, id, body, 1, back, see);
    PrefixIds(removed, tracker.removed);
  }
}
