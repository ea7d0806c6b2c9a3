/** ThreadPool.h as a state machine. A step is one critical section of the mutex, one
    notification, or the end of a task, so a run is any interleaving of enqueuers, workers and
    the destructor. */
module ThreadPool {

  /** Ready: about to lock and test the wait predicate, at first or after a wake-up. */
  datatype Worker = Ready | Asleep | Running(task: nat) | Exited

  /** The shared state. `owed` counts notify_one calls that follow a push and have not been made
      yet; `owedAll` is the same for the notify_all of the destructor. The last three fields
      are history: tasks accepted by enqueue, taken by a worker, and finished. */
  datatype Pool = Pool(queue: seq<nat>, stop: bool, workers: seq<Worker>, owed: nat, owedAll: bool,
                       accepted: seq<nat>, taken: seq<nat>, done: seq<nat>)

  datatype Step =
    | Enqueue(task: nat)      // push under the lock; the notification is a later step
    | Refuse(task: nat)       // enqueue after stop throws and changes nothing
    | NotifyOne(w: nat)       // wakes a sleeping worker
    | NotifyNobody            // notify_one with no one asleep
    | Stop
    | NotifyAll
    | Check(w: nat)           // the worker's critical section
    | Spurious(w: nat)        // wake-up without notification
    | Finish(w: nat)

  function Start(threads: nat): Pool {
    Pool([], false, seq(threads, _ => Ready), 0, false, [], [], [])
  }

  predicate Enabled(s: Pool, e: Step) {
    match e
    case Enqueue(_) => !s.stop
    case Refuse(_) => s.stop
    case NotifyOne(w) => s.owed > 0 && w < |s.workers| && s.workers[w] == Asleep
    case NotifyNobody => s.owed > 0 && forall w :: 0 <= w < |s.workers| ==> s.workers[w] != Asleep
    case Stop => !s.stop
    case NotifyAll => s.owedAll
    case Check(w) => w < |s.workers| && s.workers[w] == Ready
    case Spurious(w) => w < |s.workers| && s.workers[w] == Asleep
    case Finish(w) => w < |s.workers| && s.workers[w].Running?
  }

  function Wake(w: Worker): Worker {
    if w == Asleep then Ready else w
  }

  /** The critical section of a worker: leave when stopped and drained, sleep when there is
      nothing to do, otherwise take the oldest task. */
  function CheckAt(s: Pool, w: nat): Pool
    requires w < |s.workers|
  {
    if s.stop && s.queue == [] then s.(workers := s.workers[w := Exited])
    else if s.queue == [] then s.(workers := s.workers[w := Asleep])
    else s.(workers := s.workers[w := Running(s.queue[0])], queue := s.queue[1..], taken := s.taken + [s.queue[0]])
  }

  function Apply(s: Pool, e: Step): Pool
    requires Enabled(s, e)
  {
    match e
    case Enqueue(t) => s.(queue := s.queue + [t], accepted := s.accepted + [t], owed := s.owed + 1)
    case Refuse(_) => s
    case NotifyOne(w) => s.(workers := s.workers[w := Ready], owed := s.owed - 1)
    case NotifyNobody => s.(owed := s.owed - 1)
    case Stop => s.(stop := true, owedAll := true)
    case NotifyAll =>
      s.(workers := seq(|s.workers|, i requires 0 <= i < |s.workers| => Wake(s.workers[i])), owedAll := false)
    case Check(w) => CheckAt(s, w)
    case Spurious(w) => s.(workers := s.workers[w := Ready])
    case Finish(w) => s.(workers := s.workers[w := Ready], done := s.done + [s.workers[w].task])
  }

  // ---- the invariant ----------------------------------------------------------------

  /** How often a task occurs in a history. */
  ghost function Times(s: seq<nat>, t: nat): nat {
    if s == [] then 0 else Times(s[..|s| - 1], t) + if s[|s| - 1] == t then 1 else 0
  }

  /** How many workers are running a task right now. */
  ghost function InHand(workers: seq<Worker>, t: nat): nat {
    if workers == [] then 0 else InHand(workers[..|workers| - 1], t) + Hold(workers[|workers| - 1], t)
  }

  ghost function Hold(w: Worker, t: nat): nat {
    if w == Running(t) then 1 else 0
  }

  ghost predicate Awake(s: Pool) {
    exists w :: 0 <= w < |s.workers| && (s.workers[w] == Ready || s.workers[w].Running?)
  }

  /** Tasks leave the queue in the order they were accepted, and a task taken is running or
      finished, exactly once. */
  ghost predicate Accounted(s: Pool) {
    s.accepted == s.taken + s.queue && forall t :: Times(s.taken, t) == Times(s.done, t) + InHand(s.workers, t)
  }

  ghost predicate Inv(s: Pool) {
    |s.workers| > 0 && Accounted(s)
    // no lost wake-up
    && (s.queue != [] && s.owed == 0 ==> Awake(s))
    // workers leave only when the pool is stopped and drained
    && (forall w :: 0 <= w < |s.workers| && s.workers[w] == Exited ==> s.stop && s.queue == [])
    // once the destructor has notified, no one sleeps
    && (s.stop && !s.owedAll ==> forall w :: 0 <= w < |s.workers| ==> s.workers[w] != Asleep)
    && (s.owedAll ==> s.stop)
  }

  lemma TimesPush(s: seq<nat>, x: nat, t: nat)
    ensures Times(s + [x], t) == Times(s, t) + if x == t then 1 else 0
  {
    assert (s + [x])[..|s|] == s;
  }

  lemma {:induction false} TimesConcat(a: seq<nat>, b: seq<nat>, t: nat)
    ensures Times(a + b, t) == Times(a, t) + Times(b, t)
  {
    if b == [] {
      assert a + b == a;
    } else {
      var k := |b| - 1;
      TimesConcat(a, b[..k], t);
      assert a + b == (a + b[..k]) + [b[k]];
      TimesPush(a + b[..k], b[k], t);
    }
  }

  lemma {:induction false} InHandUpdate(workers: seq<Worker>, i: nat, w: Worker, t: nat)
    requires i < |workers|
    ensures InHand(workers[i := w], t) == InHand(workers, t) - Hold(workers[i], t) + Hold(w, t)
    decreases |workers|
  {
    var k := |workers| - 1;
    if i == k {
      assert workers[i := w][..k] == workers[..k];
    } else {
      assert workers[i := w][..k] == workers[..k][i := w];
      InHandUpdate(workers[..k], i, w, t);
    }
  }

  lemma InHandSame(workers: seq<Worker>, i: nat, w: Worker)
    requires i < |workers| && !workers[i].Running? && !w.Running?
    ensures forall t :: InHand(workers[i := w], t) == InHand(workers, t)
  {
    forall t: nat ensures InHand(workers[i := w], t) == InHand(workers, t) { InHandUpdate(workers, i, w, t); }
  }

  lemma {:induction false} InHandIdle(workers: seq<Worker>, t: nat)
    requires forall w :: 0 <= w < |workers| ==> !workers[w].Running?
    ensures InHand(workers, t) == 0
    decreases |workers|
  {
    if workers != [] { InHandIdle(workers[..|workers| - 1], t); }
  }

  lemma {:induction false} InHandWake(workers: seq<Worker>, woken: seq<Worker>, t: nat)
    requires |woken| == |workers| && forall w :: 0 <= w < |workers| ==> woken[w] == Wake(workers[w])
    ensures InHand(woken, t) == InHand(workers, t)
    decreases |workers|
  {
    if workers != [] { InHandWake(workers[..|workers| - 1], woken[..|woken| - 1], t); }
  }

  lemma StartInv(threads: nat)
    requires threads > 0
    ensures Inv(Start(threads))
  {
    forall t: nat ensures InHand(Start(threads).workers, t) == 0 { InHandIdle(Start(threads).workers, t); }
  }

  lemma TakeAccounts(s: Pool, w: nat)
    requires Accounted(s) && w < |s.workers| && s.workers[w] == Ready && s.queue != []
    ensures Accounted(CheckAt(s, w))
  {
    var x := s.queue[0];
    assert s.taken + [x] + s.queue[1..] == s.taken + s.queue;
    forall t: nat ensures Times(s.taken + [x], t) == Times(s.done, t) + InHand(s.workers[w := Running(x)], t) {
      TimesPush(s.taken, x, t);
      InHandUpdate(s.workers, w, Running(x), t);
    }
  }

  lemma FinishAccounts(s: Pool, w: nat)
    requires Accounted(s) && w < |s.workers| && s.workers[w].Running?
    ensures Accounted(Apply(s, Finish(w)))
  {
    var x := s.workers[w].task;
    forall t: nat ensures Times(s.taken, t) == Times(s.done + [x], t) + InHand(s.workers[w := Ready], t) {
      TimesPush(s.done, x, t);
      InHandUpdate(s.workers, w, Ready, t);
    }
  }

  lemma CheckKeepsInv(s: Pool, w: nat)
    requires Inv(s) && w < |s.workers| && s.workers[w] == Ready
    ensures Inv(CheckAt(s, w))
  {
    var s' := CheckAt(s, w);
    if s.queue != [] {
      TakeAccounts(s, w);
      assert s'.workers[w].Running?;
    } else {
      InHandSame(s.workers, w, s'.workers[w]);
    }
  }

  lemma WakeOneKeepsInv(s: Pool, w: nat, owed: nat)
    requires Inv(s) && w < |s.workers| && s.workers[w] == Asleep
    ensures Inv(s.(workers := s.workers[w := Ready], owed := owed))
  {
    InHandSame(s.workers, w, Ready);
    assert s.workers[w := Ready][w] == Ready;
  }

  lemma WakeAllKeepsInv(s: Pool)
    requires Inv(s) && s.owedAll
    ensures Inv(Apply(s, NotifyAll))
  {
    var s' := Apply(s, NotifyAll);
    forall t: nat ensures InHand(s'.workers, t) == InHand(s.workers, t) { InHandWake(s.workers, s'.workers, t); }
    if s.queue != [] && s.owed == 0 {
      var w :| 0 <= w < |s.workers| && (s.workers[w] == Ready || s.workers[w].Running?);
      assert s'.workers[w] == s.workers[w];
    }
  }

  lemma FinishKeepsInv(s: Pool, w: nat)
    requires Inv(s) && w < |s.workers| && s.workers[w].Running?
    ensures Inv(Apply(s, Finish(w)))
  {
    FinishAccounts(s, w);
    assert Apply(s, Finish(w)).workers[w] == Ready;
  }

  lemma EnqueueKeepsInv(s: Pool, t: nat)
    requires Inv(s) && !s.stop
    ensures Inv(Apply(s, Enqueue(t)))
  {
    assert s.taken + s.queue + [t] == s.taken + (s.queue + [t]);
  }

  /** Every step keeps the invariant. */
  lemma StepKeepsInv(s: Pool, e: Step)
    requires Inv(s) && Enabled(s, e)
    ensures Inv(Apply(s, e))
  {
    match e
    case Enqueue(t) => EnqueueKeepsInv(s, t);
    case NotifyOne(w) => WakeOneKeepsInv(s, w, s.owed - 1);
    case NotifyNobody => assert s.workers[0] != Asleep;
    case NotifyAll => WakeAllKeepsInv(s);
    case Check(w) => CheckKeepsInv(s, w);
    case Spurious(w) => WakeOneKeepsInv(s, w, s.owed);
    case Finish(w) => FinishKeepsInv(s, w);
    case _ =>
  }

  // ---- runs -------------------------------------------------------------------------

  /** The state after a run, if every step of it was enabled. */
  ghost predicate Reaches(s: Pool, run: seq<Step>, s': Pool)
    decreases |run|
  {
    if run == [] then s' == s
    else Enabled(s, run[0]) && Reaches(Apply(s, run[0]), run[1..], s')
  }

  lemma {:induction false} RunKeepsInv(s: Pool, run: seq<Step>, s': Pool)
    requires Inv(s) && Reaches(s, run, s')
    ensures Inv(s')
    decreases |run|
  {
    if run != [] {
      StepKeepsInv(s, run[0]);
      RunKeepsInv(Apply(s, run[0]), run[1..], s');
    }
  }

  /** In every reachable state: tasks start in the order they were accepted, none starts twice
      or is lost, and with work queued and no notification outstanding someone is awake. */
  lemma Fifo(threads: nat, run: seq<Step>, s: Pool)
    requires threads > 0 && Reaches(Start(threads), run, s)
    ensures s.taken <= s.accepted && s.accepted == s.taken + s.queue
    ensures forall t :: Times(s.accepted, t) == Times(s.done, t) + InHand(s.workers, t) + Times(s.queue, t)
    ensures s.queue != [] && s.owed == 0 ==> Awake(s)
  {
    StartInv(threads);
    RunKeepsInv(Start(threads), run, s);
    forall t: nat ensures Times(s.accepted, t) == Times(s.taken, t) + Times(s.queue, t) {
      TimesConcat(s.taken, s.queue, t);
    }
  }

  ghost predicate AllExited(s: Pool) {
    forall w :: 0 <= w < |s.workers| ==> s.workers[w] == Exited
  }

  /** The joins of the destructor complete only after every accepted task has run, once. */
  lemma JoinedMeansDrained(threads: nat, run: seq<Step>, s: Pool)
    requires threads > 0 && Reaches(Start(threads), run, s) && AllExited(s)
    ensures s.stop && s.queue == [] && forall t :: Times(s.done, t) == Times(s.accepted, t)
  {
    StartInv(threads);
    RunKeepsInv(Start(threads), run, s);
    assert s.workers[0] == Exited;
    assert s.accepted == s.taken + [] == s.taken;
    forall t: nat ensures InHand(s.workers, t) == 0 { InHandIdle(s.workers, t); }
  }

  // ---- a running pool gets its work done --------------------------------------------

  ghost function Strain(w: Worker): nat {
    match w case Exited => 0 case Asleep => 0 case Ready => 1 case Running(_) => 2
  }

  ghost function Strains(workers: seq<Worker>): nat {
    if workers == [] then 0 else Strains(workers[..|workers| - 1]) + Strain(workers[|workers| - 1])
  }

  lemma {:induction false} StrainsUpdate(workers: seq<Worker>, i: nat, w: Worker)
    requires i < |workers|
    ensures Strains(workers[i := w]) == Strains(workers) - Strain(workers[i]) + Strain(w)
    decreases |workers|
  {
    var k := |workers| - 1;
    if i == k {
      assert workers[i := w][..k] == workers[..k];
    } else {
      assert workers[i := w][..k] == workers[..k][i := w];
      StrainsUpdate(workers[..k], i, w);
    }
  }

  /** What is left to do while nothing new is enqueued. */
  ghost function Effort(s: Pool): nat {
    2 * |s.queue| + 2 * s.owed + Strains(s.workers)
  }

  /** The steps by which a running pool works: notifications due, and workers moving. */
  predicate IsWork(e: Step) {
    e.NotifyOne? || e.NotifyNobody? || e.Check? || e.Finish?
  }

  /** Every such step lowers the effort left, so they come to an end. */
  lemma WorkEnds(s: Pool, e: Step)
    requires Enabled(s, e) && IsWork(e)
    ensures Effort(Apply(s, e)) < Effort(s)
  {
    match e
    case NotifyOne(w) => StrainsUpdate(s.workers, w, Ready);
    case NotifyNobody =>
    case Check(w) => StrainsUpdate(s.workers, w, Apply(s, e).workers[w]);
    case Finish(w) => StrainsUpdate(s.workers, w, Ready);
  }

  lemma {:induction false} TimesPositive(s: seq<nat>, t: nat)
    ensures Times(s, t) > 0 <==> t in s
  {
    if s != [] {
      var k := |s| - 1;
      TimesPositive(s[..k], t);
      assert s == s[..k] + [s[k]];
    }
  }

  lemma {:induction false} Holder(workers: seq<Worker>, t: nat) returns (w: nat)
    requires InHand(workers, t) > 0
    ensures w < |workers| && workers[w].Running?
    decreases |workers|
  {
    w := |workers| - 1;
    if !workers[w].Running? { w := Holder(workers[..w], t); }
  }

  /** While an accepted task is unfinished, the pool has a step to work on. */
  lemma WorkGoesOn(s: Pool, task: nat) returns (e: Step)
    requires Inv(s) && task in s.accepted && task !in s.done
    ensures IsWork(e) && Enabled(s, e)
  {
    if task in s.taken {
      TimesPositive(s.taken, task);
      TimesPositive(s.done, task);
      var w := Holder(s.workers, task);
      e := Finish(w);
    } else if s.owed > 0 {
      if w: nat :| w < |s.workers| && s.workers[w] == Asleep { e := NotifyOne(w); } else { e := NotifyNobody; }
    } else {
      assert s.queue != [];
      var w: nat :| w < |s.workers| && (s.workers[w] == Ready || s.workers[w].Running?);
      e := if s.workers[w] == Ready then Check(w) else Finish(w);
    }
  }

  // ---- the destructor terminates when tasks do -------------------------------------

  ghost function Weight(w: Worker): nat {
    match w case Exited => 0 case Ready => 1 case Asleep => 2 case Running(_) => 2
  }

  ghost function Weights(workers: seq<Worker>): nat {
    if workers == [] then 0 else Weights(workers[..|workers| - 1]) + Weight(workers[|workers| - 1])
  }

  lemma {:induction false} WeightsUpdate(workers: seq<Worker>, i: nat, w: Worker)
    requires i < |workers|
    ensures Weights(workers[i := w]) == Weights(workers) - Weight(workers[i]) + Weight(w)
    decreases |workers|
  {
    var k := |workers| - 1;
    if i == k {
      assert workers[i := w][..k] == workers[..k];
    } else {
      assert workers[i := w][..k] == workers[..k][i := w];
      WeightsUpdate(workers[..k], i, w);
    }
  }

  ghost function Remaining(s: Pool): nat {
    3 * |s.queue| + Weights(s.workers)
  }

  /** After stop and notify_all, some worker can move until all have left, every move of a
      worker brings the end closer and no other step puts it off: the joins return as soon as
      the tasks do. */
  lemma DestructorProgress(s: Pool)
    requires Inv(s) && s.stop && !s.owedAll && !AllExited(s)
    ensures exists w: nat :: w < |s.workers| && (Enabled(s, Check(w)) || Enabled(s, Finish(w)))
    ensures forall w: nat :: Enabled(s, Check(w)) ==> Remaining(Apply(s, Check(w))) < Remaining(s)
    ensures forall w: nat :: Enabled(s, Finish(w)) ==> Remaining(Apply(s, Finish(w))) < Remaining(s)
    ensures forall e :: Enabled(s, e) && !e.Check? && !e.Finish? ==> Remaining(Apply(s, e)) == Remaining(s)
  {
    var w: nat :| w < |s.workers| && s.workers[w] != Exited;
    assert Enabled(s, Check(w)) || Enabled(s, Finish(w));
    forall w: nat | Enabled(s, Check(w)) ensures Remaining(Apply(s, Check(w))) < Remaining(s) {
      WeightsUpdate(s.workers, w, Apply(s, Check(w)).workers[w]);
    }
    forall w: nat | Enabled(s, Finish(w)) ensures Remaining(Apply(s, Finish(w))) < Remaining(s) {
      WeightsUpdate(s.workers, w, Ready);
    }
  }
}
