/** The track records of the ByteTrack tracker and the list operations it is made of. */
module ByteLists {

  datatype State = New | Tracked | Lost | Removed

  /** The Kalman mean and covariance of a track, or the box of a detection. Opaque to the
      bookkeeping: only the oracles below look inside. */
  datatype Body = Body(mean: seq<real>, covariance: seq<seq<real>>)

  datatype STrack = STrack(id: int, state: State, activated: bool, frame: int, start: int,
                           tracklet: int, score: real, body: Body)

  /** What the tracker computes from boxes: filter start, prediction, correction, IoU distance. */
  datatype Vision = Vision(initiate: Body -> Body, predict: (Body, bool) -> Body,
                           correct: (Body, Body) -> Body, distance: (Body, Body) -> real)

  /** A detection, as a fresh track record. */
  function Detection(body: Body, score: real): STrack {
    STrack(0, New, false, 0, 0, 0, score, body)
  }

  /** `STrack::activate`. */
  function Activate(t: STrack, id: int, frame: int, see: Vision): STrack {
    t.(id := id, state := Tracked, activated := t.activated || frame == 1, frame := frame, start := frame,
       tracklet := 0, body := see.initiate(t.body))
  }

  /** `STrack::update` for a tracked track and `STrack::re_activate` for any other one. */
  function Hit(t: STrack, det: STrack, frame: int, see: Vision): STrack {
    t.(state := Tracked, activated := true, frame := frame, score := det.score,
       tracklet := if t.state == Tracked then t.tracklet + 1 else 0,
       body := see.correct(t.body, det.body))
  }

  ghost predicate DistinctIds(s: seq<STrack>) {
    forall i, j :: 0 <= i < j < |s| ==> s[i].id != s[j].id
  }

  function Ids(s: seq<STrack>): set<int> {
    set t | t in s :: t.id
  }

  lemma IdsAppend(a: seq<STrack>, b: seq<STrack>)
    ensures Ids(a + b) == Ids(a) + Ids(b)
  {
    forall t | t in b ensures t in a + b {
      var k :| 0 <= k < |b| && b[k] == t;
      assert (a + b)[|a| + k] == t;
    }
    forall t | t in a ensures t in a + b {
      var k :| 0 <= k < |a| && a[k] == t;
      assert (a + b)[k] == t;
    }
  }

  lemma IdsPush(a: seq<STrack>, t: STrack)
    ensures Ids(a + [t]) == Ids(a) + {t.id}
  {
    IdsAppend(a, [t]);
    assert Ids([t]) == {t.id};
  }

  /** The ids of a list, as the lookup tables of joint_stracks and sub_stracks hold them. */
  method IdTable(s: seq<STrack>) returns (ids: set<int>)
    ensures ids == Ids(s)
  {
    ids := {};
    for i := 0 to |s|
      invariant ids == Ids(s[..i])
    {
      assert s[..i + 1] == s[..i] + [s[i]];
      IdsPush(s[..i], s[i]);
      ids := ids + {s[i].id};
    }
    assert s[..|s|] == s;
  }

  /** res extends a by entries of b with new ids. */
  ghost predicate Joined(a: seq<STrack>, b: seq<STrack>, res: seq<STrack>) {
    |a| <= |res| && res[..|a|] == a
    && (forall k :: |a| <= k < |res| ==> res[k] in b && res[k].id !in Ids(a))
    && Ids(res) == Ids(a) + Ids(b)
    && (DistinctIds(a) ==> DistinctIds(res))
  }

  lemma JoinedMembers(a: seq<STrack>, b: seq<STrack>, res: seq<STrack>)
    requires Joined(a, b, res)
    ensures forall t :: t in res ==> t in a || t in b
  {
    forall k | 0 <= k < |res| ensures res[k] in a || res[k] in b {
      if k < |a| { assert res[..|a|][k] == res[k]; }
    }
  }

  lemma JoinSkip(a: seq<STrack>, b: seq<STrack>, t: STrack, res: seq<STrack>)
    requires Joined(a, b, res) && t.id in Ids(res)
    ensures Joined(a, b + [t], res)
  {
    IdsPush(b, t);
    forall k | |a| <= k < |res| ensures res[k] in b + [t] { assert res[k] in b; }
  }

  lemma JoinPush(a: seq<STrack>, b: seq<STrack>, t: STrack, res: seq<STrack>)
    requires Joined(a, b, res) && t.id !in Ids(res)
    ensures Joined(a, b + [t], res + [t])
  {
    IdsPush(b, t);
    IdsPush(res, t);
    var res' := res + [t];
    assert res'[..|a|] == res[..|a|];
    forall k | |a| <= k < |res'| ensures res'[k] in b + [t] && res'[k].id !in Ids(a) {
      if k < |res| { assert res[k] in b; } else { assert (b + [t])[|b|] == t; }
    }
    forall k | 0 <= k < |res| ensures res[k].id != t.id { assert res[k] in res; }
  }

  /** a, then in order every entry of b whose id neither a nor an earlier entry of b has. */
  function JoinOf(a: seq<STrack>, b: seq<STrack>): seq<STrack> {
    if b == [] then a
    else
      var r, t := JoinOf(a, b[..|b| - 1]), b[|b| - 1];
      if t.id in Ids(r) then r else r + [t]
  }

  /** `joint_stracks` on values: a, then the entries of b whose id is new. */
  method Joint(a: seq<STrack>, b: seq<STrack>) returns (res: seq<STrack>)
    ensures Joined(a, b, res) && res == JoinOf(a, b)
  {
    var exists_ := IdTable(a);
    res := a;
    for i := 0 to |b|
      invariant exists_ == Ids(res) && Joined(a, b[..i], res) && res == JoinOf(a, b[..i])
    {
      assert b[..i + 1] == b[..i] + [b[i]] && b[..i + 1][..i] == b[..i];
      if b[i].id in exists_ {
        JoinSkip(a, b[..i], b[i], res);
      } else {
        JoinPush(a, b[..i], b[i], res);
        IdsPush(res, b[i]);
        exists_ := exists_ + {b[i].id};
        res := res + [b[i]];
      }
    }
    assert b[..|b|] == b;
  }

  /** The entries of a that satisfy p, in order. */
  function Filter(a: seq<STrack>, p: STrack -> bool): seq<STrack> {
    if a == [] then [] else Filter(a[..|a| - 1], p) + if p(a[|a| - 1]) then [a[|a| - 1]] else []
  }

  function Outside(ids: set<int>): STrack -> bool { (t: STrack) => t.id !in ids }

  function InState(state: State): STrack -> bool { (t: STrack) => t.state == state }

  /** `sub_stracks`: the entries of a whose id does not occur in b. */
  method Sub(a: seq<STrack>, b: seq<STrack>) returns (res: seq<STrack>)
    ensures forall t :: t in res <==> t in a && t.id !in Ids(b)
    ensures (DistinctIds(a) ==> DistinctIds(res)) && res == Filter(a, Outside(Ids(b)))
  {
    var remove := IdTable(b);
    res := Keep(a, Outside(remove));
  }

  method Keep(a: seq<STrack>, p: STrack -> bool) returns (res: seq<STrack>)
    ensures forall t :: t in res <==> t in a && p(t)
    ensures (DistinctIds(a) ==> DistinctIds(res)) && res == Filter(a, p)
  {
    res := [];
    for i := 0 to |a|
      invariant forall t :: t in res <==> t in a[..i] && p(t)
      invariant (DistinctIds(a) ==> DistinctIds(res)) && res == Filter(a[..i], p)
    {
      assert a[..i + 1] == a[..i] + [a[i]] && a[..i + 1][..i] == a[..i];
      if p(a[i]) {
        forall k | 0 <= k < |res| && DistinctIds(a) ensures res[k].id != a[i].id {
          assert res[k] in a[..i];
        }
        res := res + [a[i]];
      }
    }
    assert a[..|a|] == a;
  }

  // ---- duplicates ---------------------------------------------------------------

  function Lifetime(t: STrack): int {
    t.frame - t.start
  }

  /** The tracked and the lost track count as one object. */
  predicate Duplicate(a: STrack, b: STrack, see: Vision) {
    see.distance(a.body, b.body) < 0.15
  }

  /** A lost track within 0.15 of t has been known for at least as many frames. */
  ghost predicate DropsTracked(t: STrack, b: seq<STrack>, see: Vision) {
    exists u :: u in b && see.distance(t.body, u.body) < 0.15 && t.frame - t.start <= u.frame - u.start
  }

  /** A tracked track within 0.15 of u has been known for more frames. */
  ghost predicate DropsLost(u: STrack, a: seq<STrack>, see: Vision) {
    exists t :: t in a && see.distance(t.body, u.body) < 0.15 && t.frame - t.start > u.frame - u.start
  }

  /** u is a duplicate of the older t. */
  predicate Outlived(u: STrack, t: STrack, see: Vision) {
    Duplicate(t, u, see) && Lifetime(t) > Lifetime(u)
  }

  /** One tracked track against the whole lost list. */
  method DuplicatesOf(t: STrack, b: seq<STrack>, see: Vision, dupb: set<int>) returns (drop: bool, dupb': set<int>)
    ensures drop <==> DropsTracked(t, b, see)
    ensures forall k :: k in dupb' <==> k in dupb || (0 <= k < |b| && Outlived(b[k], t, see))
  {
    drop, dupb' := false, dupb;
    for j := 0 to |b|
      invariant drop <==> exists k :: 0 <= k < j && Duplicate(t, b[k], see) && Lifetime(t) <= Lifetime(b[k])
      invariant forall k :: k in dupb' <==> k in dupb || (0 <= k < j && Outlived(b[k], t, see))
    {
      if Duplicate(t, b[j], see) {
        if Lifetime(t) > Lifetime(b[j]) {
          dupb' := dupb' + {j};
        } else {
          drop := true;
        }
      }
    }
  }

  /** The indices each list loses, over all pairs. */
  method DuplicateIndices(a: seq<STrack>, b: seq<STrack>, see: Vision) returns (dupa: set<int>, dupb: set<int>)
    ensures forall i :: i in dupa <==> 0 <= i < |a| && DropsTracked(a[i], b, see)
    ensures forall j :: j in dupb <==> 0 <= j < |b| && DropsLost(b[j], a, see)
  {
    dupa, dupb := {}, {};
    for i := 0 to |a|
      invariant forall k :: k in dupa <==> 0 <= k < i && DropsTracked(a[k], b, see)
      invariant forall k :: k in dupb <==> 0 <= k < |b| && exists m :: 0 <= m < i && Outlived(b[k], a[m], see)
    {
      var drop;
      drop, dupb := DuplicatesOf(a[i], b, see, dupb);
      if drop { dupa := dupa + {i}; }
    }
    forall j | 0 <= j < |b|
      ensures DropsLost(b[j], a, see) <==> exists m :: 0 <= m < |a| && Outlived(b[j], a[m], see)
    {
      if m :| 0 <= m < |a| && Outlived(b[j], a[m], see) { assert a[m] in a; }
    }
  }

  ghost function StaysTracked(b: seq<STrack>, see: Vision): STrack -> bool { (t: STrack) => !DropsTracked(t, b, see) }

  ghost function StaysLost(a: seq<STrack>, see: Vision): STrack -> bool { (u: STrack) => !DropsLost(u, a, see) }

  /** Drops the entries at the given positions, which are those that fail p. */
  method DropIndices(a: seq<STrack>, dup: set<int>, ghost p: STrack -> bool) returns (res: seq<STrack>)
    requires forall i :: 0 <= i < |a| ==> (i in dup <==> !p(a[i]))
    ensures forall t :: t in res <==> t in a && p(t)
    ensures (DistinctIds(a) ==> DistinctIds(res)) && res == Filter(a, p)
  {
    res := [];
    for i := 0 to |a|
      invariant forall t :: t in res <==> t in a[..i] && p(t)
      invariant (DistinctIds(a) ==> DistinctIds(res)) && res == Filter(a[..i], p)
    {
      assert a[..i + 1] == a[..i] + [a[i]] && a[..i + 1][..i] == a[..i];
      if i !in dup {
        forall k | 0 <= k < |res| && DistinctIds(a) ensures res[k].id != a[i].id { assert res[k] in a[..i]; }
        res := res + [a[i]];
      }
    }
    assert a[..|a|] == a;
  }

  /** `remove_duplicate_stracks`: of a duplicate pair the younger track goes, on a tie the
      tracked one. */
  method RemoveDuplicates(a: seq<STrack>, b: seq<STrack>, see: Vision) returns (resa: seq<STrack>, resb: seq<STrack>)
    ensures Deduplicated(a, b, resa, resb, see)
    ensures DistinctIds(a) ==> DistinctIds(resa)
    ensures DistinctIds(b) ==> DistinctIds(resb)
  {
    var dupa, dupb := DuplicateIndices(a, b, see);
    resa := DropIndices(a, dupa, StaysTracked(b, see));
    resb := DropIndices(b, dupb, StaysLost(a, see));
  }

  /** Both lists keep exactly the tracks that no duplicate drops, in order. */
  ghost predicate Deduplicated(a: seq<STrack>, b: seq<STrack>, resa: seq<STrack>, resb: seq<STrack>, see: Vision) {
    resa == Filter(a, StaysTracked(b, see)) && resb == Filter(b, StaysLost(a, see))
    && (forall t :: t in resa <==> t in a && !DropsTracked(t, b, see))
    && (forall u :: u in resb <==> u in b && !DropsLost(u, a, see))
  }

  /** No duplicate pair survives, and only members of duplicate pairs are dropped. */
  lemma NoDuplicateSurvives(a: seq<STrack>, b: seq<STrack>, resa: seq<STrack>, resb: seq<STrack>, see: Vision)
    requires Deduplicated(a, b, resa, resb, see)
    ensures forall t, u :: t in resa && u in resb ==> see.distance(t.body, u.body) >= 0.15
    ensures forall t :: t in a && t !in resa ==> exists u :: u in b && see.distance(t.body, u.body) < 0.15
    ensures forall u :: u in b && u !in resb ==> exists t :: t in a && see.distance(t.body, u.body) < 0.15
  {
    forall t, u | t in resa && u in resb ensures see.distance(t.body, u.body) >= 0.15 {
      assert Duplicate(t, u, see) && Lifetime(t) <= Lifetime(u) ==> DropsTracked(t, b, see);
      assert Duplicate(t, u, see) && Lifetime(t) > Lifetime(u) ==> DropsLost(u, a, see);
    }
  }

  /** A group of tracks that contains every duplicate of its members. */
  ghost predicate Cluster(ca: set<STrack>, cb: set<STrack>, a: seq<STrack>, b: seq<STrack>, see: Vision) {
    (forall t :: t in ca ==> t in a) && (forall u :: u in cb ==> u in b)
    && (forall t, u :: t in ca && u in b && see.distance(t.body, u.body) < 0.15 ==> u in cb)
    && (forall t, u :: t in a && u in cb && see.distance(t.body, u.body) < 0.15 ==> t in ca)
  }

  lemma Eldest(s: set<STrack>) returns (t: STrack)
    requires s != {}
    ensures t in s && forall u :: u in s ==> Lifetime(u) <= Lifetime(t)
    decreases |s|
  {
    t :| t in s;
    if s != {t} {
      var u := Eldest(s - {t});
      if Lifetime(u) >= Lifetime(t) { t := u; }
    }
  }

  /** No member has been known for more frames than e. */
  ghost predicate EldestOf(e: STrack, members: set<STrack>) {
    forall t :: t in members ==> t.frame - t.start <= e.frame - e.start
  }

  /** Every cluster of duplicates keeps its longest-lived members: all its eldest lost tracks
      when one of them is as old as any tracked member, its eldest tracked ones otherwise. */
  lemma ClusterKeepsEldest(ca: set<STrack>, cb: set<STrack>, a: seq<STrack>, b: seq<STrack>,
                           resa: seq<STrack>, resb: seq<STrack>, see: Vision)
    returns (keptLost: bool, e: STrack)
    requires Deduplicated(a, b, resa, resb, see) && Cluster(ca, cb, a, b, see) && ca + cb != {}
    ensures if keptLost then e in cb && e in resb else e in ca && e in resa
    ensures EldestOf(e, ca + cb)
    ensures keptLost <==> exists u :: u in cb && EldestOf(u, ca)
  {
    if cb == {} {
      e := Eldest(ca);
      keptLost := false;
    } else {
      e := Eldest(cb);
      keptLost := true;
      if ca != {} {
        var t := Eldest(ca);
        keptLost := Lifetime(t) <= Lifetime(e);
        if !keptLost {
          forall u | u in cb ensures !EldestOf(u, ca) { assert Lifetime(u) <= Lifetime(e); }
          e := t;
        }
      }
      if keptLost { assert EldestOf(e, ca); }
    }
    assert EldestOf(e, ca + cb);
    KeepsEldest(keptLost, e, ca, cb, a, b, see);
  }

  lemma KeepsEldest(keptLost: bool, e: STrack, ca: set<STrack>, cb: set<STrack>, a: seq<STrack>, b: seq<STrack>,
                    see: Vision)
    requires Cluster(ca, cb, a, b, see) && EldestOf(e, ca + cb)
    requires if keptLost then e in cb else e in ca && !exists u :: u in cb && EldestOf(u, ca)
    ensures if keptLost then !DropsLost(e, a, see) else !DropsTracked(e, b, see)
  {
    if !keptLost {
      forall u | u in b && see.distance(e.body, u.body) < 0.15 ensures u.frame - u.start < e.frame - e.start {
        assert u in cb && !EldestOf(u, ca);
        var t :| t in ca && t.frame - t.start > u.frame - u.start;
        assert t in ca + cb;
      }
    }
  }
}
