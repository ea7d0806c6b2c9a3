/** BYTETracker as a state machine over frames. */
module ByteTracker {
  import opened Lapjv
  import opened ByteLists
  import opened ByteRounds

  function Max(a: int, b: int): int { if a >= b then a else b }

  /** The state of the tracker after any frame. A lost track is dropped one frame after it has
      been marked Removed, so its age may exceed max_time_lost by one, and until then its id
      is on the removed list. */
  ghost predicate Roster(tracked: seq<STrack>, lost: seq<STrack>, removed: seq<STrack>,
                         frame: int, maxTimeLost: int, count: int) {
    DistinctIds(tracked) && DistinctIds(lost) && Ids(tracked) !! Ids(lost)
    && (forall t :: t in tracked ==>
          t.state == Tracked && t.frame == frame && (t.activated || t.start == frame) && 1 <= t.id <= count)
    && (forall t :: t in lost ==>
          (t.state == Lost || t.state == Removed) && t.frame < frame && 1 <= t.id <= count)
    && (forall t :: t in lost ==> frame - t.frame <= Max(maxTimeLost, 1) + 1)
    && (forall t :: t in lost && (frame - t.frame > Max(maxTimeLost, 1) || t.state == Removed) ==> t.id in Ids(removed))
  }

  /** Ids come from one counter shared by every tracker of the process. */
  class IdCounter {
    var count: nat

    constructor ()
      ensures count == 0
    {
      count := 0;
    }

    method NextId() returns (id: int)
      modifies this
      ensures id == count == old(count) + 1
    {
      count := count + 1;
      id := count;
    }
  }

  /** New tracks of a frame: activated in it, with consecutive new ids. */
  ghost predicate FreshTracks(born: seq<STrack>, frame: int, count0: int) {
    forall i :: 0 <= i < |born| ==>
      born[i].id == count0 + 1 + i && born[i].state == Tracked && born[i].frame == frame && born[i].start == frame
  }

  // ---- folding a frame's copies back into the lists ---------------------------

  /** Lost tracks not seen for too long are marked Removed, in place. */
  ghost predicate Expired(l: seq<STrack>, l': seq<STrack>, k: int, frame: int, maxTimeLost: int, gone: set<int>) {
    |l'| == |l| && 0 <= k <= |l|
    && (forall i :: k <= i < |l| ==> l'[i] == l[i])
    && (forall i :: 0 <= i < k ==> l'[i] == if frame - l[i].frame > maxTimeLost then l[i].(state := Removed) else l[i])
    && (forall i :: 0 <= i < k && frame - l[i].frame > maxTimeLost ==> l[i].id in gone)
  }

  /** The entries too old to stay lost, as marked. */
  ghost predicate Overdue(l: seq<STrack>, k: int, frame: int, maxTimeLost: int, t: STrack) {
    exists i :: 0 <= i < k && i < |l| && frame - l[i].frame > maxTimeLost && t == l[i].(state := Removed)
  }

  lemma OverduePush(l: seq<STrack>, k: nat, frame: int, maxTimeLost: int, t: STrack)
    requires k < |l|
    ensures Overdue(l, k + 1, frame, maxTimeLost, t)
            <==> Overdue(l, k, frame, maxTimeLost, t)
                 || (frame - l[k].frame > maxTimeLost && t == l[k].(state := Removed))
  {
  }

  function Aged(t: STrack, frame: int, maxTimeLost: int): STrack {
    if frame - t.frame > maxTimeLost then t.(state := Removed) else t
  }

  function AgedList(l: seq<STrack>, frame: int, maxTimeLost: int): seq<STrack> {
    seq(|l|, i requires 0 <= i < |l| => Aged(l[i], frame, maxTimeLost))
  }

  /** The overdue entries as marked, in order. */
  function OverdueList(l: seq<STrack>, frame: int, maxTimeLost: int): seq<STrack> {
    if l == [] then []
    else
      var t := l[|l| - 1];
      OverdueList(l[..|l| - 1], frame, maxTimeLost)
      + if frame - t.frame > maxTimeLost then [t.(state := Removed)] else []
  }

  method Expire(l0: seq<STrack>, frame: int, maxTimeLost: int, removed0: seq<STrack>)
    returns (l: seq<STrack>, removed: seq<STrack>)
    ensures removed0 <= removed && Ids(removed0) <= Ids(removed)
    ensures Expired(l0, l, |l0|, frame, maxTimeLost, Ids(removed))
    ensures forall t :: t in removed <==> t in removed0 || Overdue(l0, |l0|, frame, maxTimeLost, t)
    ensures l == AgedList(l0, frame, maxTimeLost) && removed == removed0 + OverdueList(l0, frame, maxTimeLost)
  {
    l, removed := l0, removed0;
    for i := 0 to |l0|
      invariant removed0 <= removed && Ids(removed0) <= Ids(removed)
      invariant forall t :: t in removed <==> t in removed0 || Overdue(l0, i, frame, maxTimeLost, t)
      invariant removed == removed0 + OverdueList(l0[..i], frame, maxTimeLost)
      invariant Expired(l0, l, i, frame, maxTimeLost, Ids(removed))
    {
      assert l0[..i + 1][..i] == l0[..i];
      forall t ensures Overdue(l0, i + 1, frame, maxTimeLost, t)
                       <==> Overdue(l0, i, frame, maxTimeLost, t)
                            || (frame - l0[i].frame > maxTimeLost && t == l0[i].(state := Removed))
      {
        OverduePush(l0, i, frame, maxTimeLost, t);
      }
      if frame - l[i].frame > maxTimeLost {
        l := l[i := l[i].(state := Removed)];
        IdsPush(removed, l[i]);
        removed := removed + [l[i]];
      }
    }
    assert l0[..|l0|] == l0;
  }

  lemma AliveOfTracked(w: Work, t0: seq<STrack>, l0: seq<STrack>, frame: int, swap: seq<STrack>)
    requires Before(t0, l0, frame) && Sound(w, t0, l0, frame)
    requires forall i :: 0 <= i < |t0| ==> !Pending(w.tracked[i], frame)
    requires forall t :: t in swap <==> t in w.tracked && t.state == Tracked
    ensures forall t :: t in swap ==> Alive(t, frame) && t.id in Ids(t0)
    ensures Ids(swap) == AliveIds(w.tracked, frame)
    ensures DistinctIds(w.tracked)
  {
    forall i, j | 0 <= i < j < |w.tracked| ensures w.tracked[i].id != w.tracked[j].id {
      assert t0[i].id != t0[j].id;
    }
    forall t | t in swap ensures Alive(t, frame) && t.id in Ids(t0) && t.id in AliveIds(w.tracked, frame) {
      var i :| 0 <= i < |w.tracked| && w.tracked[i] == t;
      assert HeldStep(t0[i], w.tracked[i], frame, Ids(w.newlyLost));
      assert t0[i] in t0;
    }
    forall k | k in AliveIds(w.tracked, frame) ensures k in Ids(swap) {
      var i :| 0 <= i < |w.tracked| && Alive(w.tracked[i], frame) && w.tracked[i].id == k;
      assert w.tracked[i] in swap;
    }
  }

  /** The tracked list of the new state before duplicates go: survivors, new tracks, refound ones. */
  ghost predicate NewTracked(u: seq<STrack>, ids: set<int>, frame: int) {
    DistinctIds(u) && Ids(u) == ids
    && forall t :: t in u ==> t.state == Tracked && t.frame == frame && (t.activated || t.start == frame)
  }

  lemma JoinedTracked(swap: seq<STrack>, act: seq<STrack>, born: seq<STrack>, refind: seq<STrack>,
                      frame: int, count0: int, u1: seq<STrack>, u2: seq<STrack>)
    requires DistinctIds(swap) && Ids(act) <= Ids(swap) && FreshTracks(born, frame, count0)
    requires forall t :: t in swap || t in act || t in refind ==> Alive(t, frame)
    requires Joined(swap, act + born, u1) && Joined(u1, refind, u2)
    ensures NewTracked(u2, Ids(swap) + Ids(born) + Ids(refind), frame)
  {
    IdsAppend(act, born);
    JoinedMembers(swap, act + born, u1);
    JoinedMembers(u1, refind, u2);
  }

  /** What is left of the lost list: entries not matched, and the newly lost ones. */
  lemma LostEntry(w: Work, t0: seq<STrack>, l0: seq<STrack>, removed0: seq<STrack>, frame: int, maxTimeLost: int,
                  count0: int, l: seq<STrack>, removed: seq<STrack>, i: int)
    requires Roster(t0, l0, removed0, frame - 1, maxTimeLost, count0) && maxTimeLost >= 0
    requires Before(t0, l0, frame) && Sound(w, t0, l0, frame)
    requires Expired(w.lost, l, |l|, frame, maxTimeLost, Ids(removed))
    requires 0 <= i < |l| && l[i].id !in AliveIds(w.lost, frame) && l[i].id !in Ids(removed0)
    ensures l[i].id == l0[i].id && l[i].frame == l0[i].frame
    ensures l[i].state == Lost || l[i].state == Removed
    ensures frame - l[i].frame <= Max(maxTimeLost, 1) + 1
    ensures frame - l[i].frame > Max(maxTimeLost, 1) || l[i].state == Removed ==> l[i].id in Ids(removed)
  {
    assert WaitingStep(l0[i], w.lost[i], frame);
    assert l0[i] in l0;
    assert !Alive(w.lost[i], frame);
  }

  lemma DistinctKept(s0: seq<STrack>, s: seq<STrack>)
    requires |s| == |s0| && DistinctIds(s0) && forall i :: 0 <= i < |s| ==> s[i].id == s0[i].id
    ensures DistinctIds(s) && Ids(s) == Ids(s0)
  {
    forall i, j | 0 <= i < j < |s| ensures s[i].id != s[j].id { assert s0[i].id != s0[j].id; }
    forall k | k in Ids(s) ensures k in Ids(s0) {
      var i :| 0 <= i < |s| && s[i].id == k;
      assert s0[i] in s0;
    }
    forall k | k in Ids(s0) ensures k in Ids(s) {
      var i :| 0 <= i < |s0| && s0[i].id == k;
      assert s[i] in s;
    }
  }

  lemma DistinctAppend(a: seq<STrack>, b: seq<STrack>)
    requires DistinctIds(a) && DistinctIds(b) && Ids(a) !! Ids(b)
    ensures DistinctIds(a + b) && Ids(a + b) == Ids(a) + Ids(b)
  {
    IdsAppend(a, b);
    forall i, j | 0 <= i < |a| && 0 <= j < |b| ensures a[i].id != b[j].id {
      assert a[i].id in Ids(a) && b[j].id in Ids(b);
    }
  }

  /** Newly lost tracks share no id with the matched ones, the new ones or the lost list. */
  lemma NewlyLostApart(w: Work, t0: seq<STrack>, l0: seq<STrack>, frame: int, born: seq<STrack>, count0: int)
    requires Before(t0, l0, frame) && Sound(w, t0, l0, frame) && FreshTracks(born, frame, count0)
    requires forall t :: t in t0 + l0 ==> t.id <= count0
    ensures Ids(w.newlyLost) <= Ids(t0) && AliveIds(w.tracked, frame) <= Ids(t0) && AliveIds(w.lost, frame) <= Ids(l0)
    ensures Ids(w.newlyLost) !! AliveIds(w.tracked, frame) + Ids(born) + AliveIds(w.lost, frame)
  {
    forall k | k in LostIds(w.tracked) ensures k in Ids(t0) && k !in AliveIds(w.tracked, frame) {
      var i :| 0 <= i < |t0| && w.tracked[i].state == Lost && w.tracked[i].id == k;
      assert t0[i] in t0;
      forall j | 0 <= j < |t0| && Alive(w.tracked[j], frame) ensures w.tracked[j].id != k {
        assert i != j && t0[i].id != t0[j].id;
      }
    }
    forall k | k in AliveIds(w.tracked, frame) ensures k in Ids(t0) {
      var i :| 0 <= i < |t0| && Alive(w.tracked[i], frame) && w.tracked[i].id == k;
      assert t0[i] in t0;
    }
    forall k | k in AliveIds(w.lost, frame) ensures k in Ids(l0) {
      var i :| 0 <= i < |l0| && Alive(w.lost[i], frame) && w.lost[i].id == k;
      assert l0[i] in l0;
    }
    forall k | k in Ids(t0) ensures k <= count0 {
      var t :| t in t0 && t.id == k;
      assert t in t0 + l0;
    }
  }

  /** The lost list of the new state before duplicates go. */
  ghost predicate NewLost(l: seq<STrack>, frame: int, maxTimeLost: int, removed: set<int>) {
    DistinctIds(l)
    && forall t :: t in l ==>
         (t.state == Lost || t.state == Removed) && t.frame < frame && frame - t.frame <= Max(maxTimeLost, 1) + 1
         && (frame - t.frame > Max(maxTimeLost, 1) || t.state == Removed ==> t.id in removed)
  }

  lemma FoldedLost(w: Work, t0: seq<STrack>, l0: seq<STrack>, removed0: seq<STrack>, frame: int, maxTimeLost: int,
                   count0: int, born: seq<STrack>, l: seq<STrack>, removed: seq<STrack>,
                   u: seq<STrack>, l1: seq<STrack>, l2: seq<STrack>)
    requires Roster(t0, l0, removed0, frame - 1, maxTimeLost, count0) && maxTimeLost >= 0
    requires Before(t0, l0, frame) && Sound(w, t0, l0, frame) && FreshTracks(born, frame, count0)
    requires Expired(w.lost, l, |l|, frame, maxTimeLost, Ids(removed))
    requires Ids(u) == AliveIds(w.tracked, frame) + Ids(born) + AliveIds(w.lost, frame)
    requires (forall t :: t in l1 <==> t in l && t.id !in Ids(u)) && (DistinctIds(l) ==> DistinctIds(l1))
    requires forall t :: t in l2 <==> t in l1 + w.newlyLost && t.id !in Ids(removed0)
    requires DistinctIds(l1 + w.newlyLost) ==> DistinctIds(l2)
    ensures NewLost(l2, frame, maxTimeLost, Ids(removed))
    ensures Ids(u) !! Ids(l2) && Ids(l2) <= Ids(t0) + Ids(l0)
  {
    assert forall t :: t in t0 + l0 ==> t.id <= count0;
    NewlyLostApart(w, t0, l0, frame, born, count0);
    DistinctKept(l0, l);
    assert Ids(l1) <= Ids(l);
    DistinctAppend(l1, w.newlyLost);
    forall t | t in l2
      ensures (t.state == Lost || t.state == Removed) && t.frame < frame && frame - t.frame <= Max(maxTimeLost, 1) + 1
      ensures frame - t.frame > Max(maxTimeLost, 1) || t.state == Removed ==> t.id in Ids(removed)
    {
      if t in l1 {
        var i :| 0 <= i < |l| && l[i] == t;
        LostEntry(w, t0, l0, removed0, frame, maxTimeLost, count0, l, removed, i);
        assert l0[i] in l0;
      }
    }
  }

  lemma SubIds(a: seq<STrack>, b: seq<STrack>)
    requires forall t :: t in a ==> t in b
    ensures Ids(a) <= Ids(b)
  {
  }

  /** Dropping duplicates keeps the roster. */
  lemma FoldedRoster(u: seq<STrack>, l: seq<STrack>, resa: seq<STrack>, resb: seq<STrack>, removed: seq<STrack>,
                     frame: int, maxTimeLost: int, count: int)
    requires NewTracked(u, Ids(u), frame) && NewLost(l, frame, maxTimeLost, Ids(removed)) && Ids(u) !! Ids(l)
    requires forall k :: k in Ids(u) + Ids(l) ==> 1 <= k <= count
    requires (forall t :: t in resa ==> t in u) && forall t :: t in resb ==> t in l
    requires DistinctIds(resa) && DistinctIds(resb)
    ensures Roster(resa, resb, removed, frame, maxTimeLost, count)
    ensures Ids(resa) <= Ids(u) && Ids(resb) <= Ids(l)
  {
    forall t | t in resa || t in resb ensures 1 <= t.id <= count { assert t.id in Ids(u) + Ids(l); }
    SubIds(resa, u);
    SubIds(resb, l);
    forall k | k in Ids(resa) ensures k !in Ids(resb) { assert k in Ids(u) && k !in Ids(l); }
  }

  lemma BornIds(born: seq<STrack>, frame: int, count0: int)
    requires FreshTracks(born, frame, count0)
    ensures forall k :: k in Ids(born) ==> count0 < k <= count0 + |born|
  {
    forall t | t in born ensures count0 < t.id <= count0 + |born| {
      var i :| 0 <= i < |born| && born[i] == t;
    }
  }

  /** What a frame's lists fold to, before (u, l) and after duplicates go. */
  ghost predicate FoldsTo(w: Work, born: seq<STrack>, removed0: seq<STrack>, frame: int, maxTimeLost: int, see: Vision,
                          u: seq<STrack>, l: seq<STrack>,
                          tracked: seq<STrack>, lost: seq<STrack>, removed: seq<STrack>) {
    Gathered(w, born, removed0, frame, maxTimeLost, u, l, removed) && Deduplicated(u, l, tracked, lost, see)
    && Sequenced(w, born, removed0, frame, maxTimeLost, u, l, removed)
  }

  lemma JoinedSource(a: seq<STrack>, b: seq<STrack>, res: seq<STrack>)
    requires Joined(a, b, res)
    ensures forall t :: t in a ==> t in res
    ensures forall t :: t in res ==> t in a || (t in b && t.id !in Ids(a))
  {
    forall k | 0 <= k < |res| ensures res[k] in a || (res[k] in b && res[k].id !in Ids(a)) {
      if k < |a| { assert res[..|a|][k] == res[k]; }
    }
    forall t | t in a ensures t in res {
      var k :| 0 <= k < |a| && a[k] == t;
      assert res[..|a|][k] == res[k];
    }
  }

  /** An entry of b whose id is new and that shares it with no other entry of b is joined. */
  lemma JoinedNew(a: seq<STrack>, b: seq<STrack>, res: seq<STrack>, t: STrack)
    requires Joined(a, b, res) && t in b && t.id !in Ids(a) && forall e :: e in b && e.id == t.id ==> e == t
    ensures t in res
  {
    JoinedSource(a, b, res);
    assert t.id in Ids(b);
    var e :| e in res && e.id == t.id;
    assert e in a ==> e.id in Ids(a);
  }

  /** Everything that should be followed is followed. */
  lemma FollowedMembers(w: Work, t0: seq<STrack>, l0: seq<STrack>, frame: int, count0: int, swap: seq<STrack>,
                        born: seq<STrack>, u1: seq<STrack>, u: seq<STrack>)
    requires Before(t0, l0, frame) && Sound(w, t0, l0, frame) && Copied(w, frame) && FreshTracks(born, frame, count0)
    requires forall t :: t in t0 + l0 ==> t.id <= count0
    requires Ids(swap) == AliveIds(w.tracked, frame)
    requires Joined(swap, w.activated + born, u1) && Joined(u1, w.refind, u)
    ensures forall t :: t in u <==> t in swap || t in born || t in w.refind
  {
    NewlyLostApart(w, t0, l0, frame, born, count0);
    BornIds(born, frame, count0);
    IdsAppend(w.activated, born);
    JoinedSource(swap, w.activated + born, u1);
    JoinedSource(u1, w.refind, u);
    BornJoined(w, t0, l0, frame, count0, swap, born, u1);
    RefoundJoined(w, t0, l0, frame, count0, born, u1, u);
  }

  lemma BornJoined(w: Work, t0: seq<STrack>, l0: seq<STrack>, frame: int, count0: int, swap: seq<STrack>,
                   born: seq<STrack>, u1: seq<STrack>)
    requires Before(t0, l0, frame) && Sound(w, t0, l0, frame) && FreshTracks(born, frame, count0)
    requires forall t :: t in t0 + l0 ==> t.id <= count0
    requires Ids(swap) == AliveIds(w.tracked, frame) && Joined(swap, w.activated + born, u1)
    ensures forall t :: t in born ==> t in u1
  {
    NewlyLostApart(w, t0, l0, frame, born, count0);
    BornIds(born, frame, count0);
    OldIds(t0, l0, count0);
    forall t | t in born ensures t in u1 {
      assert t.id in Ids(born);
      forall e | e in w.activated + born && e.id == t.id ensures e == t {
        assert e in w.activated ==> e.id in AliveIds(w.tracked, frame);
      }
      JoinedNew(swap, w.activated + born, u1, t);
    }
  }

  lemma OldIds(t0: seq<STrack>, l0: seq<STrack>, count0: int)
    requires forall t :: t in t0 + l0 ==> t.id <= count0
    ensures forall k :: k in Ids(t0) || k in Ids(l0) ==> k <= count0
  {
    forall k | k in Ids(t0) || k in Ids(l0) ensures k <= count0 {
      var t :| (t in t0 || t in l0) && t.id == k;
      assert t in t0 + l0;
    }
  }

  lemma RefoundJoined(w: Work, t0: seq<STrack>, l0: seq<STrack>, frame: int, count0: int, born: seq<STrack>,
                      u1: seq<STrack>, u: seq<STrack>)
    requires Before(t0, l0, frame) && Sound(w, t0, l0, frame) && Copied(w, frame) && FreshTracks(born, frame, count0)
    requires forall t :: t in t0 + l0 ==> t.id <= count0
    requires Ids(u1) == AliveIds(w.tracked, frame) + Ids(born) && Joined(u1, w.refind, u)
    ensures forall t :: t in w.refind ==> t in u
  {
    NewlyLostApart(w, t0, l0, frame, born, count0);
    BornIds(born, frame, count0);
    OldIds(t0, l0, count0);
    forall t | t in w.refind ensures t in u { RefoundOnce(w, t0, l0, frame, u1, u, t); }
  }

  lemma RefoundOnce(w: Work, t0: seq<STrack>, l0: seq<STrack>, frame: int, u1: seq<STrack>, u: seq<STrack>, t: STrack)
    requires Before(t0, l0, frame) && Sound(w, t0, l0, frame) && Copied(w, frame)
    requires Ids(u1) !! AliveIds(w.lost, frame) && Joined(u1, w.refind, u) && t in w.refind
    ensures t in u
  {
    var i :| 0 <= i < |w.lost| && w.lost[i] == t;
    assert t.id in AliveIds(w.lost, frame);
    forall e | e in w.refind && e.id == t.id ensures e == t {
      var k :| 0 <= k < |w.lost| && w.lost[k] == e;
      assert l0[k].id == l0[i].id;
    }
    JoinedNew(u1, w.refind, u, t);
  }

  /** The followed list before duplicates go. */
  method Follow(w: Work, born: seq<STrack>, frame: int, ghost t0: seq<STrack>, ghost l0: seq<STrack>, ghost count0: int)
    returns (u: seq<STrack>)
    requires Before(t0, l0, frame) && Sound(w, t0, l0, frame) && Copied(w, frame) && FreshTracks(born, frame, count0)
    requires forall t :: t in t0 + l0 ==> t.id <= count0
    requires forall i :: 0 <= i < |t0| ==> !Pending(w.tracked[i], frame)
    ensures NewTracked(u, AliveIds(w.tracked, frame) + Ids(born) + AliveIds(w.lost, frame), frame)
    ensures forall t :: t in u <==> (t in w.tracked && t.state == Tracked) || t in born || t in w.refind
    ensures u == JoinOf(JoinOf(Filter(w.tracked, InState(Tracked)), w.activated + born), w.refind)
  {
    var swap := Keep(w.tracked, InState(Tracked));
    AliveOfTracked(w, t0, l0, frame, swap);
    var u1 := Joint(swap, w.activated + born);
    u := Joint(u1, w.refind);
    JoinedTracked(swap, w.activated, born, w.refind, frame, count0, u1, u);
    FollowedMembers(w, t0, l0, frame, count0, swap, born, u1, u);
  }

  lemma AgedMembers(s: seq<STrack>, l: seq<STrack>, frame: int, maxTimeLost: int, gone: set<int>)
    requires Expired(s, l, |l|, frame, maxTimeLost, gone)
    ensures forall t :: t in l <==> AgedEntry(s, frame, maxTimeLost, t)
  {
    forall i | 0 <= i < |l| ensures l[i] == Aged(s[i], frame, maxTimeLost) {}
  }

  ghost predicate AgedEntry(s: seq<STrack>, frame: int, maxTimeLost: int, t: STrack) {
    exists i :: 0 <= i < |s| && t == Aged(s[i], frame, maxTimeLost)
  }

  /** The lists of a frame before duplicates go. Followed (u): entries still Tracked, new tracks,
      refound ones. Lost (l): entries of the lost list, aged, that are not followed, and newly
      lost ones, except ids removed in earlier frames. Removed: the old ones, the tracks given
      up unconfirmed, and the overdue ones. */
  ghost predicate Gathered(w: Work, born: seq<STrack>, removed0: seq<STrack>, frame: int, maxTimeLost: int,
                           u: seq<STrack>, l: seq<STrack>, removed: seq<STrack>) {
    (forall t :: t in u <==> (t in w.tracked && t.state == Tracked) || t in born || t in w.refind)
    && (forall t :: t in l <==>
          (t in w.newlyLost || (t.id !in Ids(u) && AgedEntry(w.lost, frame, maxTimeLost, t)))
          && t.id !in Ids(removed0))
    && forall t :: t in removed <==>
         t in removed0 || t in w.newlyRemoved || Overdue(w.lost, |w.lost|, frame, maxTimeLost, t)
  }

  /** And in which order. */
  ghost predicate Sequenced(w: Work, born: seq<STrack>, removed0: seq<STrack>, frame: int, maxTimeLost: int,
                            u: seq<STrack>, l: seq<STrack>, removed: seq<STrack>) {
    u == JoinOf(JoinOf(Filter(w.tracked, InState(Tracked)), w.activated + born), w.refind)
    && l == Filter(Filter(AgedList(w.lost, frame, maxTimeLost), Outside(Ids(u))) + w.newlyLost, Outside(Ids(removed0)))
    && removed == removed0 + w.newlyRemoved + OverdueList(w.lost, frame, maxTimeLost)
  }

  method Gather(w: Work, born: seq<STrack>, removed0: seq<STrack>, frame: int, maxTimeLost: int,
                ghost t0: seq<STrack>, ghost l0: seq<STrack>, ghost count0: int)
    returns (u: seq<STrack>, l: seq<STrack>, removed: seq<STrack>)
    requires Roster(t0, l0, removed0, frame - 1, maxTimeLost, count0) && maxTimeLost >= 0 && count0 >= 0
    requires Copied(w, frame)
    requires Before(t0, l0, frame) && Sound(w, t0, l0, frame) && FreshTracks(born, frame, count0)
    requires forall i :: 0 <= i < |t0| ==> !Pending(w.tracked[i], frame)
    ensures NewTracked(u, AliveIds(w.tracked, frame) + Ids(born) + AliveIds(w.lost, frame), frame)
    ensures NewLost(l, frame, maxTimeLost, Ids(removed)) && Ids(u) !! Ids(l)
    ensures forall k :: k in Ids(u) + Ids(l) ==> 1 <= k <= count0 + |born| && (k in Ids(t0) + Ids(l0) || count0 < k)
    ensures Gathered(w, born, removed0, frame, maxTimeLost, u, l, removed) && removed0 <= removed
    ensures Sequenced(w, born, removed0, frame, maxTimeLost, u, l, removed)
  {
    assert forall t :: t in t0 + l0 ==> t.id <= count0;
    var aged;
    aged, removed := Expire(w.lost, frame, maxTimeLost, removed0 + w.newlyRemoved);
    IdsAppend(removed0, w.newlyRemoved);
    AgedMembers(w.lost, aged, frame, maxTimeLost, Ids(removed));
    u := Follow(w, born, frame, t0, l0, count0);
    var l1 := Sub(aged, u);
    l := Sub(l1 + w.newlyLost, removed0);
    FoldedLost(w, t0, l0, removed0, frame, maxTimeLost, count0, born, aged, removed, u, l1, l);
    LostMembers(w, removed0, frame, maxTimeLost, u, aged, l1, l);
    IdBounds(w, t0, l0, removed0, frame, maxTimeLost, count0, born, u, l);
  }

  /** The whole fold at the end of a frame: lists, lost age check and duplicates. */
  method Fold(w: Work, born: seq<STrack>, removed0: seq<STrack>, frame: int, maxTimeLost: int, see: Vision,
              ghost t0: seq<STrack>, ghost l0: seq<STrack>, ghost count0: int)
    returns (tracked: seq<STrack>, lost: seq<STrack>, removed: seq<STrack>, ghost u: seq<STrack>, ghost l: seq<STrack>)
    requires Roster(t0, l0, removed0, frame - 1, maxTimeLost, count0) && maxTimeLost >= 0 && count0 >= 0
    requires Copied(w, frame)
    requires Before(t0, l0, frame) && Sound(w, t0, l0, frame) && FreshTracks(born, frame, count0)
    requires forall i :: 0 <= i < |t0| ==> !Pending(w.tracked[i], frame)
    ensures Roster(tracked, lost, removed, frame, maxTimeLost, count0 + |born|)
    ensures forall k :: k in Ids(tracked) + Ids(lost) ==> k in Ids(t0) + Ids(l0) || count0 < k
    ensures FoldsTo(w, born, removed0, frame, maxTimeLost, see, u, l, tracked, lost, removed)
    ensures removed0 <= removed
  {
    var followed, waiting;
    followed, waiting, removed := Gather(w, born, removed0, frame, maxTimeLost, t0, l0, count0);
    tracked, lost := RemoveDuplicates(followed, waiting, see);
    u, l := followed, waiting;
    FoldedRoster(u, l, tracked, lost, removed, frame, maxTimeLost, count0 + |born|);
  }

  lemma LostMembers(w: Work, removed0: seq<STrack>, frame: int, maxTimeLost: int, u: seq<STrack>, l: seq<STrack>,
                    l1: seq<STrack>, l2: seq<STrack>)
    requires forall t :: t in l <==> AgedEntry(w.lost, frame, maxTimeLost, t)
    requires forall t :: t in l1 <==> t in l && t.id !in Ids(u)
    requires forall t :: t in l2 <==> t in l1 + w.newlyLost && t.id !in Ids(removed0)
    ensures forall t :: t in l2 <==>
              (t in w.newlyLost || (t.id !in Ids(u) && AgedEntry(w.lost, frame, maxTimeLost, t)))
              && t.id !in Ids(removed0)
  {
  }

  lemma IdBounds(w: Work, t0: seq<STrack>, l0: seq<STrack>, removed0: seq<STrack>, frame: int, maxTimeLost: int,
                 count0: int, born: seq<STrack>, u: seq<STrack>, l: seq<STrack>)
    requires Roster(t0, l0, removed0, frame - 1, maxTimeLost, count0) && count0 >= 0
    requires Before(t0, l0, frame) && Sound(w, t0, l0, frame) && FreshTracks(born, frame, count0)
    requires Ids(u) == AliveIds(w.tracked, frame) + Ids(born) + AliveIds(w.lost, frame)
    requires Ids(l) <= Ids(t0) + Ids(l0)
    ensures forall k :: k in Ids(u) + Ids(l) ==> 1 <= k <= count0 + |born| && (k in Ids(t0) + Ids(l0) || count0 < k)
  {
    assert forall t :: t in t0 + l0 ==> t.id <= count0;
    NewlyLostApart(w, t0, l0, frame, born, count0);
    BornIds(born, frame, count0);
    forall k | k in Ids(t0) + Ids(l0) ensures 1 <= k <= count0 {
      var t :| (t in t0 || t in l0) && t.id == k;
    }
  }

  /** Prediction touches bodies only. */
  lemma PredictedSound(t0: seq<STrack>, l0: seq<STrack>, w: Work, pool: seq<Ref>, frame: int, see: Vision)
    requires Before(t0, l0, frame)
    requires |w.tracked| == |t0| && |w.lost| == |l0| && w == Work(w.tracked, w.lost, [], [], [], [])
    requires forall i :: 0 <= i < |t0| ==> w.tracked[i] == t0[i].(body := w.tracked[i].body)
    requires forall i :: 0 <= i < |l0| ==> w.lost[i] == l0[i].(body := w.lost[i].body)
    ensures Sound(w, t0, l0, frame) && forall i :: 0 <= i < |t0| ==> Pending(w.tracked[i], frame)
  {
  }

  /** Pooled tracks are predicted, no other is touched, and no copy is taken yet. */
  ghost predicate PredictedFrom(t0: seq<STrack>, l0: seq<STrack>, w: Work, pool: seq<Ref>, see: Vision) {
    var start := Work(t0, l0, [], [], [], []);
    |w.tracked| == |t0| && |w.lost| == |l0| && w.(tracked := t0, lost := l0) == start
    && forall r :: InBounds(start, r) ==>
         At(w, r) == if r in pool then PredictTrack(At(start, r), see) else At(start, r)
  }

  /** The start of a frame: activated tracks and lost ones form the pool and are predicted. */
  method PredictAll(t0: seq<STrack>, l0: seq<STrack>, frame: int, see: Vision)
    returns (w: Work, pool: seq<Ref>, unconfirmed: seq<Ref>)
    requires Before(t0, l0, frame)
    ensures Sound(w, t0, l0, frame) && Copied(w, frame) && forall i :: 0 <= i < |t0| ==> Pending(w.tracked[i], frame)
    ensures PredictedFrom(t0, l0, w, pool, see)
    ensures Eligible(w, pool, frame) && FirstPool(w, t0, pool) && Refs(w, unconfirmed)
    ensures forall r :: r in unconfirmed <==> r.Held? && r.i < |t0| && !t0[r.i].activated
  {
    var start := Work(t0, l0, [], [], [], []);
    var confirmed;
    confirmed, unconfirmed := Partition(start);
    pool := JointRefs(start, confirmed);
    w := Predict(start, pool, see);
    forall i | 0 <= i < |t0| ensures w.tracked[i] == t0[i].(body := w.tracked[i].body) {
      assert At(w, Held(i)) == w.tracked[i] && At(start, Held(i)) == t0[i];
    }
    forall i | 0 <= i < |l0| ensures w.lost[i] == l0[i].(body := w.lost[i].body) {
      assert At(w, Waiting(i)) == w.lost[i] && At(start, Waiting(i)) == l0[i];
    }
    PredictedSound(t0, l0, w, pool, frame, see);
    NothingCopied(w, t0, l0, frame);
  }

  lemma NothingCopied(w: Work, t0: seq<STrack>, l0: seq<STrack>, frame: int)
    requires Before(t0, l0, frame) && w == Work(w.tracked, w.lost, [], [], [], []) && |w.tracked| == |t0|
    requires |w.lost| == |l0|
    requires forall i :: 0 <= i < |t0| ==> w.tracked[i] == t0[i].(body := w.tracked[i].body)
    requires forall i :: 0 <= i < |l0| ==> w.lost[i] == l0[i].(body := w.lost[i].body)
    ensures Copied(w, frame)
  {
    forall t | t in w.lost ensures !Alive(t, frame) { var i :| 0 <= i < |w.lost| && w.lost[i] == t; }
    forall t | t in w.tracked ensures t.state == Tracked { var i :| 0 <= i < |w.tracked| && w.tracked[i] == t; }
  }

  /** The story of the three rounds of a frame. First: activated and lost tracks against the
      high detections. Second: what stayed Tracked among them against the low ones, at 0.5, the
      unmatched becoming Lost. Third: tracks not yet activated against the high detections left
      over, at 0.7, the unmatched becoming Removed. */
  ghost predicate ThreeRounds(t0: seq<STrack>, l0: seq<STrack>, high: seq<STrack>, low: seq<STrack>, thresh: real,
                              frame: int, see: Vision, p1: Pass, p2: Pass, p3: Pass, w: Work, rest: seq<STrack>) {
    PredictedFrom(t0, l0, p1.before, p1.pool, see) && FirstPool(p1.before, t0, p1.pool) && p1.dets == high
    && Played(p1, thresh, frame, see)
    && p2.before == p1.after && LeftOpen(p1, p2.pool) && p2.dets == low && Played(p2, 0.5, frame, see)
    && Refs(p2.after, p2.pool) && GivenUp(p2.after, p3.before, p2.pool, p2.ut, |p2.ut|, Lost)
    && (forall r :: r in p3.pool <==> r.Held? && r.i < |t0| && !t0[r.i].activated)
    && Picked(high, p1.ud, p3.dets) && Played(p3, 0.7, frame, see)
    && Refs(p3.after, p3.pool) && GivenUp(p3.after, w, p3.pool, p3.ut, |p3.ut|, Removed) && Picked(p3.dets, p3.ud, rest)
    && w.lost == p1.after.lost
  }

  /** Prediction and the three matching rounds. Afterwards every tracked entry is decided. */
  method Rounds(t0: seq<STrack>, l0: seq<STrack>, high: seq<STrack>, low: seq<STrack>, matchThresh: real,
                frame: int, see: Vision)
    returns (w: Work, rest: seq<STrack>, ghost p1: Pass, ghost p2: Pass, ghost p3: Pass)
    requires Before(t0, l0, frame) && Proper(see) && 0.0 <= matchThresh < 2.0 * LARGE
    ensures Sound(w, t0, l0, frame) && Copied(w, frame) && forall i :: 0 <= i < |t0| ==> !Pending(w.tracked[i], frame)
    ensures ThreeRounds(t0, l0, high, low, matchThresh, frame, see, p1, p2, p3, w, rest)
  {
    var w0, pool, unconfirmed := PredictAll(t0, l0, frame, see);
    var w1, open, cp, w2, spare;
    w1, open, cp, p1 := FirstRound(w0, pool, high, matchThresh, frame, see, t0, l0);
    w2, spare, p2 := LaterRound(w1, open, low, 0.5, Lost, frame, see, t0, l0);
    w, rest, p3 := LaterRound(w2, unconfirmed, cp, 0.7, Removed, frame, see, t0, l0);
    NonePending(t0, frame, w1, w2, w, open, unconfirmed);
    LostKept(w1, w2, open);
    LostKept(w2, w, unconfirmed);
  }

  /** The later rounds leave the lost list alone. */
  lemma LostKept(w0: Work, w: Work, pool: seq<Ref>)
    requires |w.lost| == |w0.lost| && forall r :: r in pool ==> r.Held?
    requires forall r :: InBounds(w0, r) && r !in pool ==> InBounds(w, r) && At(w, r) == At(w0, r)
    ensures w.lost == w0.lost
  {
    forall i | 0 <= i < |w0.lost| ensures w.lost[i] == w0.lost[i] {
      assert InBounds(w0, Waiting(i)) && At(w, Waiting(i)) == At(w0, Waiting(i));
    }
  }

  lemma NonePending(t0: seq<STrack>, frame: int, w1: Work, w2: Work, w: Work, open: seq<Ref>, unconfirmed: seq<Ref>)
    requires |w1.tracked| == |w2.tracked| == |w.tracked| == |t0| && Undecided(w1, t0, frame, open)
    requires forall r :: r in unconfirmed <==> r.Held? && r.i < |t0| && !t0[r.i].activated
    requires forall r :: r in open ==> InBounds(w2, r) && !Pending(At(w2, r), frame)
    requires forall r :: InBounds(w1, r) && r !in open ==> InBounds(w2, r) && At(w2, r) == At(w1, r)
    requires forall r :: r in unconfirmed ==> InBounds(w, r) && !Pending(At(w, r), frame)
    requires forall r :: InBounds(w2, r) && r !in unconfirmed ==> InBounds(w, r) && At(w, r) == At(w2, r)
    ensures forall i :: 0 <= i < |t0| ==> !Pending(w.tracked[i], frame)
  {
    forall i | 0 <= i < |t0| ensures !Pending(w.tracked[i], frame) {
      assert InBounds(w2, Held(i)) && InBounds(w1, Held(i));
      assert At(w, Held(i)) == w.tracked[i] && At(w1, Held(i)) == w1.tracked[i];
      if t0[i].activated {
        assert Held(i) !in unconfirmed;
        assert At(w, Held(i)) == At(w2, Held(i));
        if Held(i) !in open { assert At(w2, Held(i)) == At(w1, Held(i)); }
      }
    }
  }

  // ---- the tracker object -------------------------------------------------------

  /** The detections on one side of the score threshold, in order. */
  function Scored(objects: seq<(Body, real)>, thresh: real, high: bool): seq<STrack> {
    if objects == [] then []
    else
      var last := objects[|objects| - 1];
      Scored(objects[..|objects| - 1], thresh, high)
      + if (last.1 >= thresh) == high then [Detection(last.0, last.1)] else []
  }

  function Detections(objects: seq<(Body, real)>): (r: seq<STrack>)
    ensures |r| == |objects|
  {
    seq(|objects|, i requires 0 <= i < |objects| => Detection(objects[i].0, objects[i].1))
  }

  lemma {:induction false} ScoredByScore(objects: seq<(Body, real)>, thresh: real, high: bool)
    ensures forall t :: t in Scored(objects, thresh, high) ==> (t.score >= thresh) == high
  {
    if objects != [] { ScoredByScore(objects[..|objects| - 1], thresh, high); }
  }

  lemma MultisetPush(a: seq<STrack>, b: seq<STrack>, all: seq<STrack>, d: STrack)
    requires multiset(a) + multiset(b) == multiset(all)
    ensures multiset(a + [d]) + multiset(b) == multiset(all + [d])
    ensures multiset(a) + multiset(b + [d]) == multiset(all + [d])
  {
  }

  /** The two sides hold every detection exactly once. */
  lemma {:induction false} ScoredSplits(objects: seq<(Body, real)>, thresh: real)
    ensures multiset(Scored(objects, thresh, true)) + multiset(Scored(objects, thresh, false))
         == multiset(Detections(objects))
    ensures |Scored(objects, thresh, true)| + |Scored(objects, thresh, false)| == |objects|
  {
    if objects != [] {
      var k := |objects| - 1;
      var d := Detection(objects[k].0, objects[k].1);
      ScoredSplits(objects[..k], thresh);
      assert Detections(objects) == Detections(objects[..k]) + [d];
      var high, low := Scored(objects[..k], thresh, true), Scored(objects[..k], thresh, false);
      MultisetPush(high, low, Detections(objects[..k]), d);
      ScoredPush(objects, thresh);
    }
  }

  lemma ScoredPush(objects: seq<(Body, real)>, thresh: real)
    requires objects != []
    ensures var k := |objects| - 1;
            var d, high := Detection(objects[k].0, objects[k].1), objects[k].1 >= thresh;
            Scored(objects, thresh, high) == Scored(objects[..k], thresh, high) + [d]
            && Scored(objects, thresh, !high) == Scored(objects[..k], thresh, !high)
  {
  }

  /** The new tracks of a frame: leftover detections with a high enough score, in order. */
  function Born(rest: seq<STrack>, thresh: real, count0: int, frame: int, see: Vision): seq<STrack> {
    if rest == [] then []
    else
      var earlier, last := Born(rest[..|rest| - 1], thresh, count0, frame, see), rest[|rest| - 1];
      earlier + if last.score >= thresh then [Activate(last, count0 + 1 + |earlier|, frame, see)] else []
  }

  /** What one frame does, from the lists before it to those after. */
  datatype Story = Story(p1: Pass, p2: Pass, p3: Pass, w: Work, rest: seq<STrack>, born: seq<STrack>,
                         u: seq<STrack>, l: seq<STrack>)

  ghost predicate Told(s: Story, objects: seq<(Body, real)>, t0: seq<STrack>, l0: seq<STrack>, removed0: seq<STrack>,
                       count0: int, frame: int, maxTimeLost: int, trackThresh: real, highThresh: real,
                       matchThresh: real, see: Vision, tracked: seq<STrack>, lost: seq<STrack>, removed: seq<STrack>) {
    ThreeRounds(t0, l0, Scored(objects, trackThresh, true), Scored(objects, trackThresh, false), matchThresh, frame,
                see, s.p1, s.p2, s.p3, s.w, s.rest)
    && Sound(s.w, t0, l0, frame) && Copied(s.w, frame)
    && s.born == Born(s.rest, highThresh, count0, frame, see)
    && FoldsTo(s.w, s.born, removed0, frame, maxTimeLost, see, s.u, s.l, tracked, lost, removed)
  }

  lemma IssuedIds(tracked: seq<STrack>, lost: seq<STrack>, removed: seq<STrack>, frame: int, maxTimeLost: int,
                  count: int)
    requires Roster(tracked, lost, removed, frame, maxTimeLost, count)
    ensures forall k :: k in Ids(tracked) + Ids(lost) ==> 1 <= k <= count
  {
  }

  class Tracker {
    var frameId: int
    const maxTimeLost: int
    const trackThresh: real
    const highThresh: real
    const matchThresh: real
    const ids: IdCounter
    var tracked: seq<STrack>
    var lost: seq<STrack>
    var removed: seq<STrack>

    ghost predicate Valid()
      reads this, ids
    {
      frameId >= 0 && maxTimeLost >= 0 && 0.0 <= matchThresh < 2.0 * LARGE
      && Roster(tracked, lost, removed, frameId, maxTimeLost, ids.count)
    }

    /** Every id the tracker currently follows. */
    ghost function Live(): set<int>
      reads this
    {
      Ids(tracked) + Ids(lost)
    }

    constructor (frameRate: nat, trackBuffer: nat, trackThresh: real, highThresh: real, matchThresh: real,
                 ids: IdCounter)
      requires 0.0 <= matchThresh < 2.0 * LARGE
      ensures Valid() && Live() == {} && frameId == 0 && this.ids == ids
      ensures tracked == [] && lost == [] && removed == [] && maxTimeLost == frameRate * trackBuffer / 30
      ensures this.trackThresh == trackThresh && this.highThresh == highThresh && this.matchThresh == matchThresh
    {
      this.frameId := 0;
      this.maxTimeLost := frameRate * trackBuffer / 30;
      this.trackThresh, this.highThresh, this.matchThresh := trackThresh, highThresh, matchThresh;
      this.ids := ids;
      this.tracked, this.lost, this.removed := [], [], [];
    }

    /** The detections of a frame, split at track_thresh. */
    method Split(objects: seq<(Body, real)>) returns (high: seq<STrack>, low: seq<STrack>)
      ensures high == Scored(objects, trackThresh, true) && low == Scored(objects, trackThresh, false)
    {
      high, low := [], [];
      for i := 0 to |objects|
        invariant high == Scored(objects[..i], trackThresh, true) && low == Scored(objects[..i], trackThresh, false)
      {
        assert objects[..i + 1][..i] == objects[..i];
        var t := Detection(objects[i].0, objects[i].1);
        if objects[i].1 >= trackThresh { high := high + [t]; } else { low := low + [t]; }
      }
      assert objects[..|objects|] == objects;
    }

    /** New tracks from the detections no round matched, if their score is high enough. */
    method Birth(rest: seq<STrack>, frame: int, see: Vision) returns (born: seq<STrack>)
      modifies ids
      ensures FreshTracks(born, frame, old(ids.count)) && ids.count == old(ids.count) + |born|
      ensures born == Born(rest, highThresh, old(ids.count), frame, see)
    {
      born := [];
      for k := 0 to |rest|
        invariant FreshTracks(born, frame, old(ids.count)) && ids.count == old(ids.count) + |born|
        invariant born == Born(rest[..k], highThresh, old(ids.count), frame, see)
      {
        assert rest[..k + 1][..k] == rest[..k];
        if rest[k].score >= highThresh {
          var id := ids.NextId();
          born := born + [Activate(rest[k], id, frame, see)];
        }
      }
      assert rest[..|rest|] == rest;
    }

    /** `BYTETracker::update`. The frame goes by its story. The ids followed afterwards were
        followed before or are new: an id dropped from both lists never returns. */
    method Update(objects: seq<(Body, real)>, see: Vision) returns (output: seq<STrack>, ghost story: Story)
      requires Valid() && Proper(see)
      modifies this, ids
      ensures Valid() && frameId == old(frameId) + 1 && ids.count >= old(ids.count)
      ensures Told(story, objects, old(tracked), old(lost), old(removed), old(ids.count), frameId, maxTimeLost,
                   trackThresh, highThresh, matchThresh, see, tracked, lost, removed)
      ensures forall k :: k in Live() ==> k in old(Live()) || old(ids.count) < k <= ids.count
      ensures old(removed) <= removed
      ensures forall t :: t in output <==> t in tracked && t.activated
    {
      var frame := frameId + 1;
      var w, rest;
      ghost var p1, p2, p3, u, l;
      w, rest, p1, p2, p3 := MatchFrame(objects, frame, see);
      ghost var count0 := ids.count;
      var born := Birth(rest, frame, see);
      ghost var live0 := Live();
      u, l := FoldFrame(w, born, frame, see, count0);
      IssuedIds(tracked, lost, removed, frameId, maxTimeLost, ids.count);
      assert forall k :: k in Live() ==> k in live0 || count0 < k <= ids.count;
      story := Story(p1, p2, p3, w, rest, born, u, l);
      output := Keep(tracked, (t: STrack) => t.activated);
    }

    /** The part of `update` behind the third round and the new tracks. */
    method FoldFrame(w: Work, born: seq<STrack>, frame: int, see: Vision, ghost count0: nat)
      returns (ghost u: seq<STrack>, ghost l: seq<STrack>)
      requires maxTimeLost >= 0 && 0.0 <= matchThresh < 2.0 * LARGE && frame == frameId + 1 >= 1
      requires Roster(tracked, lost, removed, frameId, maxTimeLost, count0) && ids.count == count0 + |born|
      requires Before(tracked, lost, frame) && Sound(w, tracked, lost, frame) && Copied(w, frame)
      requires FreshTracks(born, frame, count0) && forall i :: 0 <= i < |tracked| ==> !Pending(w.tracked[i], frame)
      modifies this
      ensures Valid() && frameId == frame
      ensures FoldsTo(w, born, old(removed), frame, maxTimeLost, see, u, l, tracked, lost, removed)
      ensures forall k :: k in Live() ==> k in old(Live()) || count0 < k
      ensures old(removed) <= removed
    {
      frameId := frame;
      tracked, lost, removed, u, l := Fold(w, born, removed, frame, maxTimeLost, see, tracked, lost, count0);
    }

    /** The part of `update` up to the third round. */
    method MatchFrame(objects: seq<(Body, real)>, frame: int, see: Vision)
      returns (w: Work, rest: seq<STrack>, ghost p1: Pass, ghost p2: Pass, ghost p3: Pass)
      requires Valid() && Proper(see) && frame == frameId + 1
      ensures Before(tracked, lost, frame) && Sound(w, tracked, lost, frame) && Copied(w, frame)
      ensures forall i :: 0 <= i < |tracked| ==> !Pending(w.tracked[i], frame)
      ensures ThreeRounds(tracked, lost, Scored(objects, trackThresh, true), Scored(objects, trackThresh, false),
                          matchThresh, frame, see, p1, p2, p3, w, rest)
    {
      var high, low := Split(objects);
      BeforeFrame(tracked, lost, removed, frame, maxTimeLost, ids.count);
      w, rest, p1, p2, p3 := Rounds(tracked, lost, high, low, matchThresh, frame, see);
    }
  }

  lemma BeforeFrame(t0: seq<STrack>, l0: seq<STrack>, removed: seq<STrack>, frame: int, maxTimeLost: int, count: int)
    requires Roster(t0, l0, removed, frame - 1, maxTimeLost, count)
    ensures Before(t0, l0, frame)
  {
    forall i | 0 <= i < |t0| ensures t0[i].state == Tracked && t0[i].frame == frame - 1 { assert t0[i] in t0; }
    forall i | 0 <= i < |l0| ensures (l0[i].state == Lost || l0[i].state == Removed) && l0[i].frame < frame - 1 {
      assert l0[i] in l0;
    }
  }

  /** One frame of a run, with other trackers drawing ids before it. */
  method OneFrame(tracker: Tracker, objects: seq<(Body, real)>, others: nat, see: Vision)
    requires tracker.Valid() && Proper(see)
    modifies tracker, tracker.ids
    ensures tracker.Valid() && tracker.frameId == old(tracker.frameId) + 1
    ensures tracker.ids.count >= old(tracker.ids.count)
    ensures forall k :: k in tracker.Live() ==>
              k in old(tracker.Live()) || old(tracker.ids.count) < k <= tracker.ids.count
  {
    tracker.ids.count := tracker.ids.count + others;
    var _, _ := tracker.Update(objects, see);
  }

  /** A run over any number of frames, with other trackers drawing ids in between. An id that
      is missing after some frame, and was live after an earlier one, stays missing. */
  method Run(tracker: Tracker, frames: seq<seq<(Body, real)>>, others: seq<nat>, see: Vision)
    returns (ghost live: seq<set<int>>)
    requires tracker.Valid() && Proper(see) && |others| == |frames|
    modifies tracker, tracker.ids
    ensures tracker.Valid() && |live| == |frames| && tracker.frameId == old(tracker.frameId) + |frames|
    ensures forall a, b, c, k :: 0 <= a < b < c < |live| && k in live[a] && k !in live[b] ==> k !in live[c]
  {
    live := [];
    for f := 0 to |frames|
      invariant tracker.Valid() && |live| == f && tracker.frameId == old(tracker.frameId) + f
      invariant f > 0 ==> live[f - 1] == tracker.Live()
      invariant forall a, k :: 0 <= a < f && k in live[a] ==> k <= tracker.ids.count
      invariant forall a, b, c, k :: 0 <= a < b < c < f && k in live[a] && k !in live[b] ==> k !in live[c]
    {
      OneFrame(tracker, frames[f], others[f], see);
      live := live + [tracker.Live()];
    }
  }
}
