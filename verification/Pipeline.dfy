/** TransCoder::run as a state machine: camera driver, main loop, thread pool, encoder. Frames
    are numbered in the order the main loop captures them, and the inference task of a frame
    carries its number, so a future is ready once that number is in the pool's history. */
module Pipeline {
  import Pool = ThreadPool

  /** One entry of pending_jobs_. */
  datatype Job = Job(frame: nat, slot: nat, buffer: nat)

  /** Where the main thread is: at the loop head, waiting for the oldest future because the
      queue is full, in the drain loop, or done. */
  datatype Phase = Loop | Collecting | Draining | Closed

  datatype State = State(threads: nat, buffers: nat, phase: Phase, stopped: bool, queued: set<nat>,
                         pending: seq<Job>, cur: nat, next: nat, encoded: seq<nat>, pool: Pool.Pool)

  datatype Step =
    | RequestStop
    | SeeStop                       // the loop head finds the stop flag set
    | NoFrame                       // poll timeout or error
    | BadBuffer(b: nat)             // dequeued without a mapping: queued again at once
    | Capture(b: nat)
    | Collect(ok: bool)             // ok: inference and overlay both succeeded
    | Drain(ok: bool)
    | Close
    | PoolStep(e: Pool.Step)        // a worker or a notification moves

  function Below(n: nat): (s: set<nat>)
    ensures |s| == n && forall b: nat :: b in s <==> b < n
  {
    if n == 0 then {} else Below(n - 1) + {n - 1}
  }

  function Start(threads: nat, buffers: nat): State {
    State(threads, buffers, Loop, false, Below(buffers), [], 0, 0, [], Pool.Start(threads))
  }

  /** The clamps of `init`. */
  function ClampThreads(t: int): nat {
    if t > 6 then 6 else if t > 1 then t else 1
  }

  function ClampBuffers(b: int): nat {
    if b < 2 then 4 else b
  }

  predicate IsWorkerStep(e: Pool.Step) {
    !e.Enqueue? && !e.Refuse? && !e.Stop? && !e.NotifyAll?
  }

  /** future.get() on the oldest job returns. */
  predicate FrontReady(s: State) {
    s.pending != [] && s.pending[0].frame in s.pool.done
  }

  predicate Enabled(s: State, e: Step) {
    match e
    case RequestStop => true
    case SeeStop => s.phase == Loop && s.stopped
    case NoFrame => s.phase == Loop
    case BadBuffer(b) => s.phase == Loop && b in s.queued
    case Capture(b) => s.phase == Loop && b in s.queued && Pool.Enabled(s.pool, Pool.Enqueue(s.next))
    case Collect(_) => s.phase == Collecting && FrontReady(s)
    case Drain(_) => s.phase == Draining && FrontReady(s)
    case Close => s.phase == Draining && s.pending == []
    case PoolStep(e) => IsWorkerStep(e) && Pool.Enabled(s.pool, e)
  }

  /** The wrap of m_cur_yolo at the loop head. */
  function Slot(s: State): nat {
    if s.cur >= s.threads then 0 else s.cur
  }

  /** Dequeue a buffer, hand it to the detector of the slot, remember the job. */
  function CaptureAt(s: State, b: nat): State
    requires Pool.Enabled(s.pool, Pool.Enqueue(s.next))
  {
    var pending := s.pending + [Job(s.next, Slot(s), b)];
    s.(queued := s.queued - {b}, pending := pending, cur := Slot(s) + 1, next := s.next + 1,
       pool := Pool.Apply(s.pool, Pool.Enqueue(s.next)),
       phase := if |pending| >= s.threads then Collecting else Loop)
  }

  /** The oldest job is done: its buffer goes back to the driver, and its frame to the encoder
      unless inference or overlay failed. */
  function Retire(s: State, ok: bool): State
    requires s.pending != []
  {
    s.(pending := s.pending[1..], queued := s.queued + {s.pending[0].buffer},
       encoded := if ok then s.encoded + [s.pending[0].frame] else s.encoded)
  }

  function Apply(s: State, e: Step): State
    requires Enabled(s, e)
  {
    match e
    case RequestStop => s.(stopped := true)
    case SeeStop => s.(phase := Draining)
    case NoFrame => s
    case BadBuffer(_) => s
    case Capture(b) => CaptureAt(s, b)
    case Collect(ok) => Retire(s, ok).(phase := Loop)
    case Drain(ok) => Retire(s, ok)
    case Close => s.(phase := Closed)
    case PoolStep(e) => s.(pool := Pool.Apply(s.pool, e))
  }

  // ---- the invariant -----------------------------------------------------------------

  ghost function HeldBuffers(pending: seq<Job>): set<nat> {
    set j | j in pending :: j.buffer
  }

  /** Each buffer is at the driver or with exactly one pending job. */
  ghost predicate Owned(s: State) {
    (forall b: nat :: b < s.buffers <==> b in s.queued || b in HeldBuffers(s.pending))
    && s.queued !! HeldBuffers(s.pending)
    && (forall i, j :: 0 <= i < j < |s.pending| ==> s.pending[i].buffer != s.pending[j].buffer)
  }

  /** The slot of a frame: round robin over the threads. */
  ghost function SlotOf(frame: nat, threads: nat): (slot: nat)
    requires threads > 0
    ensures slot < threads
  {
    if frame == 0 then 0
    else
      var p := SlotOf(frame - 1, threads);
      if p + 1 == threads then 0 else p + 1
  }

  /** Jobs are consecutive frames, on the slots of those frames. */
  ghost predicate RoundRobin(s: State) {
    s.threads > 0 && |s.pending| <= s.next
    && (forall i :: 0 <= i < |s.pending| ==>
          s.pending[i].frame == s.next - |s.pending| + i && s.pending[i].slot == SlotOf(s.pending[i].frame, s.threads))
    && s.cur <= s.threads && Slot(s) == SlotOf(s.next, s.threads)
  }

  /** How full the pending queue may be in each phase. */
  ghost predicate Bounded(s: State) {
    match s.phase
    case Loop => |s.pending| < s.threads
    case Collecting => |s.pending| == s.threads
    case Draining => |s.pending| < s.threads
    case Closed => s.pending == []
  }

  /** The encoder has seen frames in capture order, older than every pending one, each only
      after its own inference; the pool knows exactly the captured frames, and those no longer
      pending are done. */
  ghost predicate Ordered(s: State) {
    |s.pending| <= s.next
    && (forall i, j :: 0 <= i < j < |s.encoded| ==> s.encoded[i] < s.encoded[j])
    && (forall f :: f in s.encoded ==> f < s.next - |s.pending| && f in s.pool.done)
    && (forall f: nat :: f < s.next - |s.pending| ==> f in s.pool.done)
    && |s.pool.accepted| == s.next && (forall f :: 0 <= f < s.next ==> s.pool.accepted[f] == f)
  }

  ghost predicate Inv(s: State) {
    Owned(s) && RoundRobin(s) && Bounded(s) && Ordered(s) && Pool.Inv(s.pool) && !s.pool.stop
  }

  lemma StartInv(threads: nat, buffers: nat)
    requires threads > 0
    ensures Inv(Start(threads, buffers))
  {
    Pool.StartInv(threads);
  }

  /** k frames later the slot is k places on. */
  lemma {:induction false} SlotAhead(f: nat, k: nat, t: nat)
    requires t > 0 && k < t
    ensures SlotOf(f + k, t) == if SlotOf(f, t) + k < t then SlotOf(f, t) + k else SlotOf(f, t) + k - t
  {
    if k > 0 { SlotAhead(f, k - 1, t); }
  }

  lemma HeldPush(p: seq<Job>, j: Job)
    ensures HeldBuffers(p + [j]) == HeldBuffers(p) + {j.buffer}
  {
  }

  lemma HeldPop(p: seq<Job>)
    requires p != [] && forall i, j :: 0 <= i < j < |p| ==> p[i].buffer != p[j].buffer
    ensures HeldBuffers(p) == HeldBuffers(p[1..]) + {p[0].buffer} && p[0].buffer !in HeldBuffers(p[1..])
  {
    assert p == [p[0]] + p[1..];
  }

  lemma CaptureKeepsInv(s: State, b: nat)
    requires Inv(s) && Enabled(s, Capture(b))
    ensures Inv(CaptureAt(s, b))
  {
    var s' := CaptureAt(s, b);
    HeldPush(s.pending, Job(s.next, Slot(s), b));
    forall i | 0 <= i < |s.pending| ensures s.pending[i].buffer != b {
      assert s.pending[i] in s.pending;
    }
    Pool.StepKeepsInv(s.pool, Pool.Enqueue(s.next));
  }

  lemma RetireOwned(s: State, ok: bool)
    requires Owned(s) && s.pending != []
    ensures Owned(Retire(s, ok))
  {
    HeldPop(s.pending);
  }

  lemma RetireRoundRobin(s: State, ok: bool)
    requires RoundRobin(s) && s.pending != []
    ensures RoundRobin(Retire(s, ok))
  {
  }

  lemma RetireOrdered(s: State, ok: bool)
    requires Ordered(s) && RoundRobin(s) && FrontReady(s)
    ensures Ordered(Retire(s, ok))
  {
    var f := s.pending[0].frame;
    assert f == s.next - |s.pending|;
    forall i | 0 <= i < |s.encoded| ensures s.encoded[i] < f { assert s.encoded[i] in s.encoded; }
  }

  lemma RetireKeepsInv(s: State, ok: bool, phase: Phase)
    requires Inv(s) && FrontReady(s) && (phase == Loop || phase == s.phase == Draining)
    ensures Inv(Retire(s, ok).(phase := phase))
  {
    RetireOwned(s, ok);
    RetireRoundRobin(s, ok);
    RetireOrdered(s, ok);
  }

  lemma PoolKeepsInv(s: State, e: Pool.Step)
    requires Inv(s) && IsWorkerStep(e) && Pool.Enabled(s.pool, e)
    ensures Inv(s.(pool := Pool.Apply(s.pool, e)))
  {
    Pool.StepKeepsInv(s.pool, e);
    var p := Pool.Apply(s.pool, e);
    assert p.accepted == s.pool.accepted && !p.stop;
    assert forall f :: f in s.pool.done ==> f in p.done;
  }

  /** Every step of the pipeline keeps the invariant. */
  lemma StepKeepsInv(s: State, e: Step)
    requires Inv(s) && Enabled(s, e)
    ensures Inv(Apply(s, e))
  {
    match e
    case Capture(b) => CaptureKeepsInv(s, b);
    case Collect(ok) => RetireKeepsInv(s, ok, Loop);
    case Drain(ok) => RetireKeepsInv(s, ok, Draining);
    case PoolStep(e) => PoolKeepsInv(s, e);
    case _ =>
  }

  ghost predicate Reaches(s: State, run: seq<Step>, s': State)
    decreases |run|
  {
    if run == [] then s' == s
    else Enabled(s, run[0]) && Reaches(Apply(s, run[0]), run[1..], s')
  }

  lemma {:induction false} RunKeepsInv(s: State, run: seq<Step>, s': State)
    requires Inv(s) && Reaches(s, run, s')
    ensures Inv(s')
    decreases |run|
  {
    if run != [] {
      StepKeepsInv(s, run[0]);
      RunKeepsInv(Apply(s, run[0]), run[1..], s');
    }
  }

  ghost predicate Reachable(s: State, threads: nat, buffers: nat) {
    exists run :: Reaches(Start(threads, buffers), run, s)
  }

  lemma ReachableInv(s: State, threads: nat, buffers: nat)
    requires threads > 0 && Reachable(s, threads, buffers)
    ensures Inv(s)
  {
    StartInv(threads, buffers);
    var run :| Reaches(Start(threads, buffers), run, s);
    RunKeepsInv(Start(threads, buffers), run, s);
  }

  // ---- what the invariant says -------------------------------------------------------

  /** No slot, and so no detector and no output buffer, ever has two jobs in flight. */
  lemma SlotsExclusive(s: State, threads: nat, buffers: nat, i: nat, j: nat)
    requires threads > 0 && Reachable(s, threads, buffers) && i < j < |s.pending|
    ensures s.pending[i].slot != s.pending[j].slot && s.pending[i].buffer != s.pending[j].buffer
    ensures |s.pending| <= s.threads
  {
    ReachableInv(s, threads, buffers);
    SlotAhead(s.pending[i].frame, j - i, s.threads);
  }

  /** A task the pool has accepted and not finished belongs to a pending job. */
  lemma UnfinishedIsPending(s: State, threads: nat, buffers: nat, f: nat)
    requires threads > 0 && Reachable(s, threads, buffers) && f in s.pool.accepted && f !in s.pool.done
    ensures exists i :: 0 <= i < |s.pending| && s.pending[i].frame == f
  {
    ReachableInv(s, threads, buffers);
    var k :| 0 <= k < |s.pool.accepted| && s.pool.accepted[k] == f;
    assert s.pending[f - (s.next - |s.pending|)].frame == f;
  }

  /** Frames reach the encoder in capture order, each after its own inference finished. */
  lemma EncoderOrder(s: State, threads: nat, buffers: nat)
    requires threads > 0 && Reachable(s, threads, buffers)
    ensures forall i, j :: 0 <= i < j < |s.encoded| ==> s.encoded[i] < s.encoded[j]
    ensures forall f :: f in s.encoded ==> f < s.next && f in s.pool.done
  {
    ReachableInv(s, threads, buffers);
  }

  /** How the job a step retires fared, if it retires one. */
  ghost function Verdict(e: Step): (v: seq<bool>)
    ensures |v| <= 1
  {
    match e
    case Collect(ok) => [ok]
    case Drain(ok) => [ok]
    case _ => []
  }

  /** How the jobs retired along a run fared, in order. */
  ghost function Verdicts(run: seq<Step>): seq<bool> {
    if run == [] then [] else Verdict(run[0]) + Verdicts(run[1..])
  }

  /** The numbers, from base on, of the jobs that fared well. */
  ghost function Passed(verdicts: seq<bool>, base: nat): seq<nat> {
    if verdicts == [] then [] else (if verdicts[0] then [base] else []) + Passed(verdicts[1..], base + 1)
  }

  lemma {:induction false} PassedMember(verdicts: seq<bool>, base: nat, f: nat)
    ensures f in Passed(verdicts, base) <==> (base <= f < base + |verdicts| && verdicts[f - base])
  {
    if verdicts != [] {
      var rest := verdicts[1..];
      PassedMember(rest, base + 1, f);
      if base < f < base + |verdicts| { assert rest[f - base - 1] == verdicts[f - base]; }
    }
  }

  lemma PassedAfter(v: seq<bool>, rest: seq<bool>, base: nat)
    requires |v| <= 1
    ensures Passed(v + rest, base) == Passed(v, base) + Passed(rest, base + |v|)
  {
    if v == [] {
      assert v + rest == rest;
    } else {
      assert (v + rest)[1..] == rest && v[1..] == [];
    }
  }

  /** From an encoder at enc and a first job base, these verdicts lead to enc'. */
  ghost predicate Encodes(enc: seq<nat>, base: nat, v: seq<bool>, enc': seq<nat>, base': nat) {
    base' == base + |v| && enc' == enc + Passed(v, base)
  }

  lemma EncodesThrough(enc: seq<nat>, base: nat, v: seq<bool>, enc1: seq<nat>, base1: nat, rest: seq<bool>,
                       enc2: seq<nat>, base2: nat)
    requires |v| <= 1 && Encodes(enc, base, v, enc1, base1) && Encodes(enc1, base1, rest, enc2, base2)
    ensures Encodes(enc, base, v + rest, enc2, base2)
  {
    PassedAfter(v, rest, base);
  }

  /** The number of jobs retired so far. */
  ghost function RetiredJobs(s: State): nat
    requires |s.pending| <= s.next
  {
    s.next - |s.pending|
  }

  lemma {:induction false} RunEncodes(s: State, run: seq<Step>, s': State)
    requires Inv(s) && Reaches(s, run, s')
    ensures |s'.pending| <= s'.next
    ensures Encodes(s.encoded, RetiredJobs(s), Verdicts(run), s'.encoded, RetiredJobs(s'))
    decreases |run|
  {
    if run != [] {
      var t := Apply(s, run[0]);
      StepKeepsInv(s, run[0]);
      StepEncodes(s, run[0]);
      RunEncodes(t, run[1..], s');
      EncodesThrough(s.encoded, RetiredJobs(s), Verdict(run[0]), t.encoded, RetiredJobs(t), Verdicts(run[1..]),
                     s'.encoded, RetiredJobs(s'));
    }
  }

  /** A step moves the frame next to be retired and the encoder exactly if it retires one. */
  lemma StepEncodes(s: State, e: Step)
    requires Inv(s) && Enabled(s, e)
    ensures |Apply(s, e).pending| <= Apply(s, e).next
    ensures Encodes(s.encoded, RetiredJobs(s), Verdict(e), Apply(s, e).encoded, RetiredJobs(Apply(s, e)))
  {
    if e.Collect? || e.Drain? { assert Verdict(e)[1..] == []; }
  }

  /** The encoder gets exactly the frames whose retirement fared well: the retiring steps of a run
      take frames 0, 1, 2 and so on in turn, and frame f is encoded if and only if the f-th of them
      succeeded, in that order. */
  lemma EncodedExactly(threads: nat, buffers: nat, run: seq<Step>, s: State)
    requires threads > 0 && Reaches(Start(threads, buffers), run, s)
    ensures s.encoded == Passed(Verdicts(run), 0) && |Verdicts(run)| == s.next - |s.pending|
    ensures forall f: nat :: f in s.encoded <==> (f < |Verdicts(run)| && Verdicts(run)[f])
  {
    var start := Start(threads, buffers);
    StartInv(threads, buffers);
    RunEncodes(start, run, s);
    FromStart(start.encoded, Verdicts(run), s.encoded, RetiredJobs(s));
  }

  lemma FromStart(enc: seq<nat>, v: seq<bool>, enc': seq<nat>, base': nat)
    requires enc == [] && Encodes(enc, 0, v, enc', base')
    ensures enc' == Passed(v, 0) && base' == |v|
    ensures forall f: nat :: f in enc' <==> (f < |v| && v[f])
  {
    forall f: nat ensures f in enc' <==> (f < |v| && v[f]) { PassedMember(v, 0, f); }
  }

  /** Once the loop has seen the stop flag nothing more is captured, in whatever order the drain, the
      workers and late stop requests go on. */
  lemma {:induction false} NothingAfterStop(s: State, run: seq<Step>, s': State)
    requires (s.phase == Draining || s.phase == Closed) && Reaches(s, run, s')
    ensures s'.next == s.next && s'.pool.accepted == s.pool.accepted && (s'.phase == Draining || s'.phase == Closed)
    decreases |run|
  {
    if run != [] { NothingAfterStop(Apply(s, run[0]), run[1..], s'); }
  }

  /** Nothing the main thread does holds up the pool: whatever a worker may do, and whatever notification
      is due, may happen in every phase. */
  lemma PoolRunsFreely(s: State, e: Pool.Step)
    requires Pool.Enabled(s.pool, e)
    requires e.Check? || e.Finish? || e.Spurious? || e.NotifyOne? || e.NotifyNobody?
    ensures Enabled(s, PoolStep(e)) && Apply(s, PoolStep(e)) == s.(pool := Pool.Apply(s.pool, e))
  {
  }

  lemma {:induction false} HeldAtMost(p: seq<Job>)
    ensures |HeldBuffers(p)| <= |p|
  {
    if p != [] {
      var q := p[..|p| - 1];
      HeldAtMost(q);
      assert p == q + [p[|p| - 1]];
      HeldPush(q, p[|p| - 1]);
    }
  }

  /** With as many buffers as threads the driver never runs dry: at every loop head it still
      has a buffer to fill. */
  lemma DriverNeverStarves(s: State, threads: nat, buffers: nat)
    requires 0 < threads <= buffers && Reachable(s, threads, buffers) && s.phase == Loop
    ensures |s.pending| <= threads - 1 && s.queued != {}
  {
    ReachableInv(s, threads, buffers);
    RunKeepsSize(s, threads, buffers);
    HeldAtMost(s.pending);
    if s.queued == {} {
      assert forall b :: b in Below(buffers) ==> b in HeldBuffers(s.pending);
      SubsetSize(Below(buffers), HeldBuffers(s.pending));
    }
  }

  lemma SubsetSize(a: set<nat>, b: set<nat>)
    requires a <= b
    ensures |a| <= |b|
  {
    assert |b - a| == |b| - |a|;
  }

  lemma {:induction false} RunSize(s: State, run: seq<Step>, s': State)
    requires Reaches(s, run, s')
    ensures s'.threads == s.threads && s'.buffers == s.buffers
    decreases |run|
  {
    if run != [] { RunSize(Apply(s, run[0]), run[1..], s'); }
  }

  lemma RunKeepsSize(s: State, threads: nat, buffers: nat)
    requires Reachable(s, threads, buffers)
    ensures s.threads == threads && s.buffers == buffers
  {
    var run :| Reaches(Start(threads, buffers), run, s);
    RunSize(Start(threads, buffers), run, s);
  }

  /** After the drain loop every buffer is back at the driver. */
  lemma ClosedReturnsAll(s: State, threads: nat, buffers: nat)
    requires threads > 0 && Reachable(s, threads, buffers) && s.phase == Closed
    ensures s.pending == [] && forall b: nat :: b < buffers <==> b in s.queued
    ensures forall f: nat :: f < s.next ==> f in s.pool.done
  {
    ReachableInv(s, threads, buffers);
    RunKeepsSize(s, threads, buffers);
  }

  // ---- the main thread is never kept waiting ---------------------------------------------

  /** While the oldest job is not ready, some worker or notification can move, and every such
      move brings it closer: waiting for a future never deadlocks. */
  lemma FrontProgress(s: State) returns (e: Pool.Step)
    requires Inv(s) && s.pending != [] && !FrontReady(s)
    ensures Pool.IsWork(e) && Enabled(s, PoolStep(e))
    ensures forall e' :: Pool.IsWork(e') && Enabled(s, PoolStep(e')) ==>
              Pool.Effort(Apply(s, PoolStep(e')).pool) < Pool.Effort(s.pool)
  {
    var f := s.pending[0].frame;
    assert s.pool.accepted[f] == f;
    e := Pool.WorkGoesOn(s.pool, f);
    forall e' | Pool.IsWork(e') && Enabled(s, PoolStep(e'))
      ensures Pool.Effort(Apply(s, PoolStep(e')).pool) < Pool.Effort(s.pool)
    {
      Pool.WorkEnds(s.pool, e');
    }
  }

  lemma {:induction false} ReachesOn(s: State, run: seq<Step>, s': State, run': seq<Step>, s'': State)
    requires Reaches(s, run, s') && Reaches(s', run', s'')
    ensures Reaches(s, run + run', s'')
    decreases |run|
  {
    if run == [] {
      assert run + run' == run';
    } else {
      assert (run + run')[1..] == run[1..] + run';
      ReachesOn(Apply(s, run[0]), run[1..], s', run', s'');
    }
  }

  ghost predicate WorkOnly(run: seq<Step>) {
    forall k :: 0 <= k < |run| ==> run[k].PoolStep? && Pool.IsWork(run[k].e)
  }

  /** The pool alone brings the oldest job to its end. */
  lemma {:induction false} FrontGetsReady(s: State) returns (run: seq<Step>, s': State)
    requires Inv(s) && s.pending != []
    ensures Reaches(s, run, s') && WorkOnly(run) && |run| <= Pool.Effort(s.pool)
    ensures FrontReady(s') && s' == s.(pool := s'.pool)
    decreases Pool.Effort(s.pool)
  {
    run, s' := [], s;
    if !FrontReady(s) {
      var e := FrontProgress(s);
      StepKeepsInv(s, PoolStep(e));
      run, s' := FrontGetsReady(Apply(s, PoolStep(e)));
      assert ([PoolStep(e)] + run)[1..] == run;
      run := [PoolStep(e)] + run;
    }
  }

  /** One more step at the end of a run. */
  lemma Then(s: State, run: seq<Step>, s': State, e: Step) returns (run': seq<Step>, s'': State)
    requires Inv(s) && Reaches(s, run, s') && Enabled(s', e)
    ensures Reaches(s, run', s'') && s'' == Apply(s', e) && Inv(s'')
  {
    ReachesAppend(s, run, s', e);
    run', s'' := run + [e], Apply(s', e);
    RunKeepsInv(s, run', s'');
  }

  /** Collecting or draining the oldest job, after the pool has finished it. */
  lemma RetireFront(s: State) returns (run: seq<Step>, s': State)
    requires Inv(s) && s.pending != [] && (s.phase == Collecting || s.phase == Draining)
    ensures Reaches(s, run, s') && Inv(s') && |s'.pending| == |s.pending| - 1
    ensures s'.phase == if s.phase == Collecting then Loop else Draining
  {
    run, s' := FrontGetsReady(s);
    run, s' := Then(s, run, s', if s.phase == Collecting then Collect(true) else Drain(true));
  }

  /** From every state that keeps the invariant, so from every reachable one, the end can be
      reached: a stop request leaves the loop, the pending jobs finish, and the drain returns
      every buffer. */
  lemma {:induction false} CanClose(s: State) returns (run: seq<Step>, s': State)
    requires Inv(s)
    ensures Reaches(s, run, s') && s'.phase == Closed && s'.pending == []
    ensures forall b: nat :: b < s'.buffers ==> b in s'.queued
    decreases match s.phase case Collecting => 2 case Loop => 1 case _ => 0, |s.pending|
  {
    run, s' := [], s;
    if s.phase == Loop {
      run, s' := Then(s, [], s, RequestStop);
      run, s' := Then(s, run, s', SeeStop);
      var more, end := CanClose(s');
      ReachesOn(s, run, s', more, end);
      run, s' := run + more, end;
    } else if s.phase != Closed && s.pending != [] {
      run, s' := RetireFront(s);
      var more, end := CanClose(s');
      ReachesOn(s, run, s', more, end);
      run, s' := run + more, end;
    } else if s.phase == Draining {
      run, s' := Then(s, [], s, Close);
    }
  }

  // ---- with fewer buffers than threads -------------------------------------------------

  /** All buffers held at the loop head, and the pending queue not full. */
  ghost predicate Starved(s: State) {
    s.phase == Loop && s.queued == {} && |s.pending| < s.threads
  }

  /** Nothing but a stop request leads out of starvation. */
  lemma StarvedForGood(s: State, e: Step)
    requires Starved(s) && Enabled(s, e) && e != RequestStop && !s.stopped
    ensures Starved(Apply(s, e)) && !Apply(s, e).stopped && Apply(s, e).pending == s.pending
  {
  }

  /** The run that captures buffers 0, 1, ... k - 1. */
  ghost function Captures(k: nat): seq<Step> {
    if k == 0 then [] else Captures(k - 1) + [Capture(k - 1)]
  }

  lemma {:induction false} ReachesAppend(s: State, run: seq<Step>, s': State, e: Step)
    requires Reaches(s, run, s') && Enabled(s', e)
    ensures Reaches(s, run + [e], Apply(s', e))
    decreases |run|
  {
    if run == [] {
      assert [e][1..] == [];
    } else {
      assert (run + [e])[1..] == run[1..] + [e];
      ReachesAppend(Apply(s, run[0]), run[1..], s', e);
    }
  }

  lemma {:induction false} CapturesReach(threads: nat, buffers: nat, k: nat) returns (s: State)
    requires k <= buffers < threads
    ensures Reaches(Start(threads, buffers), Captures(k), s)
    ensures s.phase == Loop && !s.stopped && s.threads == threads && |s.pending| == k && !s.pool.stop
    ensures forall b: nat :: b in s.queued <==> k <= b < buffers
  {
    if k == 0 {
      s := Start(threads, buffers);
    } else {
      var s0 := CapturesReach(threads, buffers, k - 1);
      assert Enabled(s0, Capture(k - 1));
      ReachesAppend(Start(threads, buffers), Captures(k - 1), s0, Capture(k - 1));
      s := Apply(s0, Capture(k - 1));
    }
  }

  /** The pipeline can starve exactly when there are fewer buffers than threads. */
  lemma StarvesIff(threads: nat, buffers: nat)
    requires threads > 0
    ensures buffers < threads <==> exists s :: Reachable(s, threads, buffers) && Starved(s)
  {
    if buffers < threads {
      var s := CapturesReach(threads, buffers, buffers);
      assert Reachable(s, threads, buffers) && Starved(s);
    } else {
      forall s | Reachable(s, threads, buffers) && s.phase == Loop ensures s.queued != {} {
        DriverNeverStarves(s, threads, buffers);
      }
    }
  }

  /** The driver may grant another number of buffers than asked for, and opening fails below two.
      With any number granted, the configurations that can starve are exactly these. */
  lemma GrantedStarves(threads: int, granted: nat)
    requires granted >= 2
    ensures (exists s :: Reachable(s, ClampThreads(threads), granted) && Starved(s))
       <==> (granted < threads && granted < 6)
  {
    StarvesIff(ClampThreads(threads), granted);
  }

  /** After the clamps of `init`, and with a driver that grants the number asked for, the
      configurations that can starve are exactly these. */
  lemma ClampedStarves(threads: int, buffers: int)
    ensures (exists s :: Reachable(s, ClampThreads(threads), ClampBuffers(buffers)) && Starved(s))
       <==> (if buffers < 2 then threads >= 5 else buffers < threads && buffers < 6)
  {
    StarvesIff(ClampThreads(threads), ClampBuffers(buffers));
  }
}
