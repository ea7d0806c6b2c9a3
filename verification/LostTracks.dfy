/** How long the DeepSORT tracker remembers a track it does not see. */
module LostTracks {
  import opened DeepAssignment
  import opened DeepTracks
  import opened DeepTracker
  import opened DeepMachine
  import opened GalleryRun

  /** The update matched no track of this id. */
  ghost predicate NotMatched(a: Snapshot, log: Log, id: int) {
    log.Log? && forall k :: 0 <= k < |log.matches| && 0 <= log.matches[k].0 < |a.tracks| ==>
                  a.tracks[log.matches[k].0].id != id
  }

  /** The call at which the k-th frame from a call on starts. */
  function FrameStart(from: nat, k: nat): nat { from + 2 * k }

  /** A frame of prediction and update that does not match the id. */
  ghost predicate UnseenFrom(trace: seq<Snapshot>, logs: seq<Log>, calls: seq<Call>, at: nat, id: int) {
    |trace| == |calls| + 1 && |logs| == |calls| && at + 2 <= |calls|
    && calls[at].Predict? && calls[at + 1].Update? && NotMatched(trace[at + 1], logs[at + 1], id)
  }

  /** From a call on, m such frames. */
  ghost predicate Unseen(trace: seq<Snapshot>, logs: seq<Log>, calls: seq<Call>, from: nat, m: nat, id: int) {
    FrameStart(from, m) <= |calls|
    && forall k :: 0 <= k < m ==> UnseenFrom(trace, logs, calls, FrameStart(from, k), id)
  }

  /** A body after k predictions. */
  function Drifted(see: Sight, body: Body, k: nat): Body
    decreases k
  {
    if k == 0 then body else Drifted(see, see.predict(body), k - 1)
  }

  /** t after m frames in which nothing matched it. */
  ghost function After(t: Track, m: nat, see: Sight): Track {
    t.(age := t.age + m, sinceUpdate := t.sinceUpdate + m, body := Drifted(see, t.body, m))
  }

  lemma Located(t: seq<Track>, u: Track) returns (i: int)
    requires u in t
    ensures 0 <= i < |t| && t[i] == u && u.id in LiveIds(t)
  {
    i :| 0 <= i < |t| && t[i] == u;
  }

  /** A track nothing matched, across one update. */
  lemma UnmatchedUpdate(a: Snapshot, dets: seq<Detection>, log: Log, b: Snapshot, p: Params, see: Sight, t: Track)
    requires Stepped(a, Update(dets), log, b, p, see) && Standing(a, p) && NotMatched(a, log, t.id)
    requires t in a.tracks && t.state == Confirmed && 2 <= p.nInit <= p.budget
    ensures if t.sinceUpdate <= p.maxAge then t in b.tracks && KeptRows(a, b, t.id) else t.id !in LiveIds(b.tracks)
  {
    var i := Located(a.tracks, t);
    assert Sane(a.tracks[i], p.nInit, p.maxAge);
    forall k | 0 <= k < |log.matches| ensures Firsts(log.matches)[k] != i {
      assert a.tracks[log.matches[k].0].id != t.id;
    }
    assert i in log.ut;
    UnmatchedFate(a.tracks, log.next, b.tracks, log.matches, log.ut, log.ud, dets, a.nextIdx, p.nInit, p.maxAge, see,
                  i);
    if t.sinceUpdate <= p.maxAge { RowsStay(a, dets, log, b, p, see, i); }
  }

  /** The gallery entry is still there, unchanged. */
  ghost predicate KeptRows(a: Snapshot, b: Snapshot, id: int) {
    id in a.samples && id in b.samples && b.samples[id] == a.samples[id]
  }

  lemma RowsStay(a: Snapshot, dets: seq<Detection>, log: Log, b: Snapshot, p: Params, see: Sight, i: int)
    requires Stepped(a, Update(dets), log, b, p, see) && Standing(a, p) && i in log.ut && 0 <= i < |a.tracks|
    requires Endures(a.tracks[i]) && Sane(a.tracks[i], p.nInit, p.maxAge)
    ensures KeptRows(a, b, a.tracks[i].id)
  {
    var t := a.tracks[i];
    MissedFate(t, p.nInit, p.maxAge);
    assert t.id in ConfirmedIds(a.tracks) && t.id in a.samples;
    assert log.next[i] == t;
    assert FitKey(a.samples, b.samples, log.next[i].id, log.next[i].features, p.budget);
    assert a.samples[t.id] + [] == a.samples[t.id];
  }

  /** An id issued before and not live stays so. */
  lemma GoneStep(a: Snapshot, call: Call, log: Log, b: Snapshot, p: Params, see: Sight, id: int)
    requires Stepped(a, call, log, b, p, see) && Standing(a, p) && id < a.nextIdx && id !in LiveIds(a.tracks)
    ensures id < b.nextIdx && id !in LiveIds(b.tracks)
  {
    if call.Predict? {
      PredictedIds(a.tracks, b.tracks, see);
    } else {
      forall m | 0 <= m < |b.tracks| ensures b.tracks[m].id != id {
        assert b.tracks[m] in b.tracks;
        var u :| u in log.next && u.state != Deleted && b.tracks[m] == HandedOver(u);
        var j :| 0 <= j < |log.next| && log.next[j] == u;
        Origin(a.tracks, log.next, log.matches, log.ut, log.ud, call.dets, a.nextIdx, p.nInit, p.maxAge, see, j);
        assert j < |a.tracks| ==> a.tracks[j].id in LiveIds(a.tracks);
      }
    }
  }

  /** One frame that does not see the track. */
  lemma UnseenFrame(a: Snapshot, b: Snapshot, c: Snapshot, dets: seq<Detection>, log0: Log, log: Log, p: Params,
                    see: Sight, t: Track)
    requires Stepped(a, Predict, log0, b, p, see) && Stepped(b, Update(dets), log, c, p, see)
    requires Standing(a, p) && Standing(b, p) && NotMatched(b, log, t.id) && 2 <= p.nInit <= p.budget
    requires t in a.tracks && t.state == Confirmed
    ensures if t.sinceUpdate < p.maxAge then After(t, 1, see) in c.tracks && KeptRows(a, c, t.id)
            else t.id !in LiveIds(c.tracks)
  {
    var i := Located(a.tracks, t);
    assert b.tracks[i] == Predicted(t, see) && b.tracks[i] in b.tracks;
    var u := After(t, 1, see);
    assert Drifted(see, t.body, 1) == Drifted(see, see.predict(t.body), 0);
    assert u == b.tracks[i];
    UnmatchedUpdate(b, dets, log, c, p, see, u);
  }

  /** What a frame that does not match the id does to its track, and that a track gone stays gone. */
  ghost predicate Passes(a: Snapshot, c: Snapshot, id: int, p: Params, see: Sight) {
    (forall t :: t in a.tracks && t.id == id && t.state == Confirmed ==>
       t.id < c.nextIdx
       && if t.sinceUpdate < p.maxAge then After(t, 1, see) in c.tracks && KeptRows(a, c, id)
          else id !in LiveIds(c.tracks))
    && (id < a.nextIdx && id !in LiveIds(a.tracks) ==> id < c.nextIdx && id !in LiveIds(c.tracks))
  }

  lemma FramePasses(a: Snapshot, b: Snapshot, c: Snapshot, dets: seq<Detection>, log0: Log, log: Log, p: Params,
                    see: Sight, id: int)
    requires Stepped(a, Predict, log0, b, p, see) && Stepped(b, Update(dets), log, c, p, see)
    requires Standing(a, p) && Standing(b, p) && NotMatched(b, log, id) && Usable(p)
    ensures Passes(a, c, id, p, see)
  {
    forall t | t in a.tracks && t.id == id && t.state == Confirmed
      ensures t.id < c.nextIdx
      ensures if t.sinceUpdate < p.maxAge then After(t, 1, see) in c.tracks && KeptRows(a, c, id)
              else id !in LiveIds(c.tracks)
    {
      UnseenFrame(a, b, c, dets, log0, log, p, see, t);
      var i := Located(a.tracks, t);
    }
    if id < a.nextIdx && id !in LiveIds(a.tracks) {
      GoneStep(a, Predict, log0, b, p, see, id);
      GoneStep(b, Update(dets), log, c, p, see, id);
    }
  }

  lemma PassesFrom(trace: seq<Snapshot>, logs: seq<Log>, calls: seq<Call>, p: Params, see: Sight,
                   a: Snapshot, c: Snapshot, at: nat, id: int)
    requires Trace(trace, logs, calls, p, see) && Usable(p) && UnseenFrom(trace, logs, calls, at, id)
    requires a == trace[at] && c == trace[at + 2]
    ensures Passes(a, c, id, p, see)
  {
    var b := trace[at + 1];
    assert Stepped(a, calls[at], logs[at], b, p, see) && Stepped(b, calls[at + 1], logs[at + 1], c, p, see);
    FramePasses(a, b, c, calls[at + 1].dets, logs[at], logs[at + 1], p, see, id);
  }

  /** Frames that do not match the id all do that. */
  ghost predicate AllPass(trace: seq<Snapshot>, logs: seq<Log>, calls: seq<Call>, p: Params, see: Sight, id: int) {
    |trace| == |calls| + 1
    && forall at: nat :: UnseenFrom(trace, logs, calls, at, id) ==> Passes(trace[at], trace[at + 2], id, p, see)
  }

  lemma RunPasses(trace: seq<Snapshot>, logs: seq<Log>, calls: seq<Call>, p: Params, see: Sight, id: int)
    requires Trace(trace, logs, calls, p, see) && Usable(p)
    ensures AllPass(trace, logs, calls, p, see, id)
  {
    forall at: nat | UnseenFrom(trace, logs, calls, at, id) ensures Passes(trace[at], trace[at + 2], id, p, see) {
      PassesFrom(trace, logs, calls, p, see, trace[at], trace[at + 2], at, id);
    }
  }

  /** The snapshots before and after each of the m frames. */
  lemma FramesOf(trace: seq<Snapshot>, logs: seq<Log>, calls: seq<Call>, p: Params, see: Sight,
                 from: nat, m: nat, id: int) returns (frames: seq<Snapshot>)
    requires AllPass(trace, logs, calls, p, see, id) && Unseen(trace, logs, calls, from, m, id)
    ensures |frames| == m + 1 && frames[0] == trace[from] && frames[m] == trace[FrameStart(from, m)]
    ensures forall k :: 0 <= k < m ==> Passes(frames[k], frames[k + 1], id, p, see)
  {
    frames := seq(m + 1, k requires 0 <= k <= m => trace[FrameStart(from, k)]);
    forall k | 0 <= k < m ensures Passes(frames[k], frames[k + 1], id, p, see) {
      assert FrameStart(from, k + 1) == FrameStart(from, k) + 2;
      assert UnseenFrom(trace, logs, calls, FrameStart(from, k), id);
    }
  }

  /** From a to z, m frames later: t is remembered, unchanged but for its prediction and its age and
      with its gallery, if and only if it has then been unseen for at most max_age frames. */
  ghost predicate Remembered(a: Snapshot, z: Snapshot, t: Track, m: nat, p: Params, see: Sight) {
    (t.id in LiveIds(z.tracks) <==> t.sinceUpdate + m <= p.maxAge)
    && (t.sinceUpdate + m <= p.maxAge ==> After(t, m, see) in z.tracks && KeptRows(a, z, t.id))
  }

  lemma RememberedOn(a: Snapshot, c: Snapshot, z: Snapshot, t: Track, m: nat, p: Params, see: Sight)
    requires KeptRows(a, c, t.id) && Remembered(c, z, After(t, 1, see), m, p, see)
    ensures Remembered(a, z, t, m + 1, p, see)
  {
    assert Drifted(see, t.body, 1) == Drifted(see, see.predict(t.body), 0);
    assert After(After(t, 1, see), m, see) == After(t, m + 1, see);
  }

  lemma NoFrames(s: Snapshot, t: Track, p: Params, see: Sight)
    requires t in s.tracks && t.state == Confirmed && t.sinceUpdate <= p.maxAge && KeptRows(s, s, t.id)
    ensures Remembered(s, s, t, 0, p, see)
  {
    var i := Located(s.tracks, t);
  }

  lemma {:induction false} GoneStays(frames: seq<Snapshot>, id: int, p: Params, see: Sight)
    requires |frames| > 0 && forall k :: 0 <= k < |frames| - 1 ==> Passes(frames[k], frames[k + 1], id, p, see)
    requires id < frames[0].nextIdx && id !in LiveIds(frames[0].tracks)
    ensures id !in LiveIds(frames[|frames| - 1].tracks)
    decreases |frames|
  {
    if |frames| > 1 {
      assert Passes(frames[0], frames[0 + 1], id, p, see);
      GoneStays(frames[1..], id, p, see);
    }
  }

  lemma {:induction false} RememberedThrough(frames: seq<Snapshot>, t: Track, p: Params, see: Sight)
    requires |frames| > 0 && forall k :: 0 <= k < |frames| - 1 ==> Passes(frames[k], frames[k + 1], t.id, p, see)
    requires t in frames[0].tracks && t.state == Confirmed && t.sinceUpdate <= p.maxAge
    requires KeptRows(frames[0], frames[0], t.id)
    ensures Remembered(frames[0], frames[|frames| - 1], t, |frames| - 1, p, see)
    decreases |frames|
  {
    if |frames| == 1 {
      NoFrames(frames[0], t, p, see);
    } else {
      assert Passes(frames[0], frames[0 + 1], t.id, p, see);
      if t.sinceUpdate < p.maxAge {
        RememberedThrough(frames[1..], After(t, 1, see), p, see);
        RememberedOn(frames[0], frames[1], frames[|frames| - 1], t, |frames| - 2, p, see);
      } else {
        GoneStays(frames[1..], t.id, p, see);
      }
    }
  }

  lemma ConfirmedRows(s: Snapshot, p: Params, t: Track)
    requires Standing(s, p) && t in s.tracks && t.state == Confirmed
    ensures KeptRows(s, s, t.id)
  {
    var i := Located(s.tracks, t);
    assert t.id in ConfirmedIds(s.tracks);
  }

  /** In every run, a confirmed track that m frames in a row do not see is remembered as long as
      max_age allows and gone afterwards: one seen in the last frame survives max_age frames and no
      more. */
  lemma RememberedIff(trace: seq<Snapshot>, logs: seq<Log>, calls: seq<Call>, p: Params, see: Sight,
                      from: nat, m: nat, t: Track)
    requires Trace(trace, logs, calls, p, see) && Usable(p) && Unseen(trace, logs, calls, from, m, t.id)
    requires t in trace[from].tracks && t.state == Confirmed && t.sinceUpdate <= p.maxAge
    ensures Remembered(trace[from], trace[FrameStart(from, m)], t, m, p, see)
  {
    assert Standing(trace[from], p);
    ConfirmedRows(trace[from], p, t);
    RunPasses(trace, logs, calls, p, see, t.id);
    var frames := FramesOf(trace, logs, calls, p, see, from, m, t.id);
    RememberedThrough(frames, t, p, see);
  }
}
