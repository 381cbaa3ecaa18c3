// All interleavings of the pool's workers, any number of submitters, and the destructor.
// The destructor as written keeps queue_mutex while it joins; the variant, selected by
// `unlockFirst`, releases the mutex before joining.
module PoolMachine {
  import opened ThreadPool
  import opened Totals
  import opened Wrappers

  /** A worker runs the ticket-th job taken from the queue; Checking holds the mutex. */
  datatype Worker = Start | Checking | Asleep | Waking | Running(ticket: nat) | Done

  datatype Destructor = NotStarted | Joining(k: nat) | Finished

  datatype Holder = Nobody | ByWorker(i: nat) | ByDestructor

  /**
   * submitted, dequeued and completed are the history of the queue; mark is the number of jobs
   * submitted when stop was set.
   */
  datatype State = State(workers: seq<Worker>, tasks: seq<Job>, stop: bool, mutex: Holder, destructor: Destructor,
                         unlockFirst: bool, submitted: seq<Job>, dequeued: seq<Job>, completed: set<nat>, mark: nat)

  datatype Event = Submit(job: Job, woken: Option<nat>) | Lock(i: nat) | Take(i: nat) | GoToSleep(i: nat)
                 | Exit(i: nat) | Spurious(i: nat) | Complete(i: nat) | Shutdown | Join | Close

  predicate Is(s: State, i: nat, w: Worker) { i < |s.workers| && s.workers[i] == w }

  predicate Enabled(s: State, e: Event) {
    match e
    case Submit(_, woken) =>
      && s.mutex.Nobody?
      && (if woken.Some? then Is(s, woken.value, Asleep) else forall i :: 0 <= i < |s.workers| ==> !Is(s, i, Asleep))
    case Lock(i) => (Is(s, i, Start) || Is(s, i, Waking)) && s.mutex.Nobody?
    case Take(i) => Is(s, i, Checking) && TurnOf(s.tasks, s.stop).Run?
    case GoToSleep(i) => Is(s, i, Checking) && TurnOf(s.tasks, s.stop).Sleep?
    case Exit(i) => Is(s, i, Checking) && TurnOf(s.tasks, s.stop).Return?
    case Spurious(i) => Is(s, i, Asleep)
    case Complete(i) => i < |s.workers| && s.workers[i].Running?
    case Shutdown => s.destructor.NotStarted? && s.mutex.Nobody?
    case Join => s.destructor.Joining? && Is(s, s.destructor.k, Done)
    case Close => s.destructor == Joining(|s.workers|)
  }

  function Wake(w: Worker): Worker { if w.Asleep? then Waking else w }

  function WakeAll(ws: seq<Worker>): (r: seq<Worker>)
    ensures |r| == |ws|
  {
    seq(|ws|, i requires 0 <= i < |ws| => Wake(ws[i]))
  }

  function Apply(s: State, e: Event): State
    requires Enabled(s, e)
  {
    match e
    case Submit(job, woken) =>
      s.(tasks := s.tasks + [job], submitted := s.submitted + [job],
         workers := if woken.Some? then s.workers[woken.value := Waking] else s.workers)
    case Lock(i) => s.(workers := s.workers[i := Checking], mutex := ByWorker(i))
    case Take(i) =>
      s.(workers := s.workers[i := Running(|s.dequeued|)], mutex := Nobody,
         tasks := s.tasks[1..], dequeued := s.dequeued + [s.tasks[0]])
    case GoToSleep(i) => s.(workers := s.workers[i := Asleep], mutex := Nobody)
    case Exit(i) => s.(workers := s.workers[i := Done], mutex := Nobody)
    case Spurious(i) => s.(workers := s.workers[i := Waking])
    case Complete(i) => s.(workers := s.workers[i := Start], completed := s.completed + {s.workers[i].ticket})
    case Shutdown =>
      s.(stop := true, workers := WakeAll(s.workers), mark := |s.submitted|, destructor := Joining(0),
         mutex := if s.unlockFirst then Nobody else ByDestructor)
    case Join => s.(destructor := Joining(s.destructor.k + 1))
    case Close => s.(destructor := Finished, mutex := if s.unlockFirst then s.mutex else Nobody)
  }

  function Exec(s: State, es: seq<Event>): Option<State> {
    if |es| == 0 then Some(s)
    else
      var last, before := es[|es| - 1], Exec(s, es[..|es| - 1]);
      if before.Some? && Enabled(before.value, last) then Some(Apply(before.value, last)) else None
  }

  /** A pool of n workers just constructed. */
  function Constructed(n: nat, unlockFirst: bool): State {
    State(seq(n, _ => Start), [], false, Nobody, NotStarted, unlockFirst, [], [], {}, 0)
  }

  // ---------------------------------------------------------------- control

  /** Who holds the mutex, and what the stop flag and the destructor's progress imply. */
  predicate Control(s: State) {
    && (forall i :: 0 <= i < |s.workers| ==> (s.workers[i].Checking? <==> s.mutex == ByWorker(i)))
    && (s.mutex.ByWorker? ==> s.mutex.i < |s.workers|)
    && (s.mutex.ByDestructor? <==> s.destructor.Joining? && !s.unlockFirst)
    && (s.stop <==> !s.destructor.NotStarted?)
    && (s.stop ==> forall i :: 0 <= i < |s.workers| ==> !s.workers[i].Asleep?)
    && (forall i :: 0 <= i < |s.workers| && s.workers[i].Done? ==> s.stop && s.unlockFirst)
    && (s.destructor.Joining? ==> s.destructor.k <= |s.workers| && AllDone(s.workers, s.destructor.k))
    && (s.destructor.Finished? ==> AllDone(s.workers, |s.workers|))
  }

  predicate AllDone(ws: seq<Worker>, k: nat)
    requires k <= |ws|
  {
    forall i :: 0 <= i < k ==> ws[i].Done?
  }

  lemma ControlStep(s: State, e: Event)
    requires Control(s) && Enabled(s, e)
    ensures Control(Apply(s, e)) && |Apply(s, e).workers| == |s.workers|
    ensures Apply(s, e).unlockFirst == s.unlockFirst
  {
    var ws, t := s.workers, Apply(s, e);
    if e.Shutdown? {
      forall i | 0 <= i < |ws| ensures t.workers[i] == Wake(ws[i]) {
      }
    }
  }

  lemma {:induction false} ControlRun(n: nat, unlockFirst: bool, es: seq<Event>, t: State)
    requires Exec(Constructed(n, unlockFirst), es) == Some(t)
    ensures Control(t) && |t.workers| == n && t.unlockFirst == unlockFirst
  {
    if |es| > 0 {
      var before := Exec(Constructed(n, unlockFirst), es[..|es| - 1]).value;
      ControlRun(n, unlockFirst, es[..|es| - 1], before);
      ControlStep(before, es[|es| - 1]);
    }
  }

  // ---------------------------------------------------------------- exactly-once, in-order dispatch

  predicate SameJob(v: Worker, w: Worker) { v.Running? && v == w }

  predicate RunsTicket(w: Worker, k: nat) { w == Running(k) }

  /**
   * The queue is what was submitted and not yet taken, in order; each job taken is either running
   * on exactly one worker or completed, and never both.
   */
  ghost predicate Dispatched(s: State) {
    && s.submitted == s.dequeued + s.tasks
    && (forall k :: k in s.completed ==> k < |s.dequeued|)
    && (forall i :: 0 <= i < |s.workers| && s.workers[i].Running? ==>
          s.workers[i].ticket < |s.dequeued| && s.workers[i].ticket !in s.completed)
    && (forall i, j :: 0 <= i < |s.workers| && 0 <= j < |s.workers| && SameJob(s.workers[i], s.workers[j]) ==> i == j)
    && (forall k :: 0 <= k < |s.dequeued| && k !in s.completed ==> IsRunning(s.workers, k))
  }

  ghost predicate IsRunning(ws: seq<Worker>, k: nat) {
    exists i :: 0 <= i < |ws| && RunsTicket(ws[i], k)
  }

  lemma StillRunning(ws: seq<Worker>, us: seq<Worker>, k: nat)
    requires IsRunning(ws, k) && |us| == |ws|
    requires forall i :: 0 <= i < |ws| && RunsTicket(ws[i], k) ==> us[i] == ws[i]
    ensures IsRunning(us, k)
  {
    var i :| 0 <= i < |ws| && RunsTicket(ws[i], k);
    assert RunsTicket(us[i], k);
  }

  lemma DispatchTake(s: State, i: nat)
    requires Dispatched(s) && Enabled(s, Take(i))
    ensures Dispatched(Apply(s, Take(i)))
  {
    var t := Apply(s, Take(i));
    forall k | 0 <= k < |t.dequeued| && k !in t.completed ensures IsRunning(t.workers, k) {
      if k == |s.dequeued| {
        assert RunsTicket(t.workers[i], k);
      } else {
        StillRunning(s.workers, t.workers, k);
      }
    }
  }

  lemma DispatchComplete(s: State, i: nat)
    requires Dispatched(s) && Enabled(s, Complete(i))
    ensures Dispatched(Apply(s, Complete(i)))
  {
    var t := Apply(s, Complete(i));
    forall k | 0 <= k < |t.dequeued| && k !in t.completed ensures IsRunning(t.workers, k) {
      StillRunning(s.workers, t.workers, k);
    }
  }

  lemma DispatchStep(s: State, e: Event)
    requires Dispatched(s) && Enabled(s, e)
    ensures Dispatched(Apply(s, e))
  {
    var t := Apply(s, e);
    if e.Take? {
      DispatchTake(s, e.i);
    } else if e.Complete? {
      DispatchComplete(s, e.i);
    } else {
      assert t.dequeued == s.dequeued && t.completed == s.completed;
      forall i | 0 <= i < |s.workers| ensures s.workers[i].Running? || t.workers[i].Running? ==> t.workers[i] == s.workers[i] {
      }
      forall k | 0 <= k < |t.dequeued| && k !in t.completed ensures IsRunning(t.workers, k) {
        StillRunning(s.workers, t.workers, k);
      }
    }
  }

  /** Jobs are taken in submission order and each is run by one worker, once. */
  lemma {:induction false} DispatchIsExactlyOnce(n: nat, unlockFirst: bool, es: seq<Event>, t: State)
    requires Exec(Constructed(n, unlockFirst), es) == Some(t)
    ensures Dispatched(t)
  {
    if |es| > 0 {
      var before := Exec(Constructed(n, unlockFirst), es[..|es| - 1]).value;
      DispatchIsExactlyOnce(n, unlockFirst, es[..|es| - 1], before);
      DispatchStep(before, es[|es| - 1]);
    }
  }

  // ---------------------------------------------------------------- work conservation

  function AboutToCheck(w: Worker): nat {
    if w.Start? || w.Checking? || w.Waking? then 1 else 0
  }

  predicate NobodyAsleep(ws: seq<Worker>) {
    forall i :: 0 <= i < |ws| ==> !ws[i].Asleep?
  }

  /** Either everybody is awake, or enough workers are on their way to the queue for every job in it. */
  predicate Conserves(s: State) {
    NobodyAsleep(s.workers) || |s.tasks| <= Total(AboutToCheck, s.workers)
  }

  lemma ConserveStep(s: State, e: Event)
    requires Conserves(s) && Enabled(s, e)
    ensures Conserves(Apply(s, e))
  {
    var t := Apply(s, e);
    if e.Submit? {
      if e.woken.Some? {
        TotalUpdate(AboutToCheck, s.workers, e.woken.value, Waking);
      } else {
        forall i | 0 <= i < |s.workers| ensures !s.workers[i].Asleep? {
          assert !Is(s, i, Asleep);
        }
      }
    } else if e.Shutdown? {
      assert NobodyAsleep(t.workers);
    } else if !e.Join? && !e.Close? {
      TotalUpdate(AboutToCheck, s.workers, e.i, t.workers[e.i]);
      assert t.workers == s.workers[e.i := t.workers[e.i]];
      assert NobodyAsleep(s.workers) ==> e.GoToSleep? || e.Spurious? || NobodyAsleep(t.workers);
    }
  }

  /** No lost wakeup: a worker sleeps only while the queued jobs all have an awake worker coming for them. */
  lemma {:induction false} WorkIsConserved(n: nat, unlockFirst: bool, es: seq<Event>, t: State)
    requires Exec(Constructed(n, unlockFirst), es) == Some(t)
    ensures Conserves(t)
  {
    if |es| > 0 {
      var before := Exec(Constructed(n, unlockFirst), es[..|es| - 1]).value;
      WorkIsConserved(n, unlockFirst, es[..|es| - 1], before);
      ConserveStep(before, es[|es| - 1]);
    }
  }

  // ---------------------------------------------------------------- shutdown as written

  /** With a worker to join, the destructor as written never finishes: the worker can only leave while holding the mutex. */
  lemma DestructorNeverFinishes(n: nat, es: seq<Event>, t: State)
    requires n > 0 && Exec(Constructed(n, false), es) == Some(t)
    ensures !t.destructor.Finished?
    ensures forall w <- t.workers :: !w.Done?
  {
    ControlRun(n, false, es, t);
    assert !t.workers[0].Done?;
  }

  // ---------------------------------------------------------------- shutdown when the mutex is released first

  /** No worker leaves before every job submitted ahead of the shutdown has been taken. */
  predicate LeavesNothing(s: State) {
    && s.mark <= |s.submitted|
    && forall i :: 0 <= i < |s.workers| && s.workers[i].Done? ==> s.mark <= |s.dequeued|
  }

  lemma LeaveStep(s: State, e: Event)
    requires LeavesNothing(s) && Dispatched(s) && Control(s) && Enabled(s, e)
    ensures LeavesNothing(Apply(s, e))
  {
    var t := Apply(s, e);
    if e.Shutdown? {
      forall i | 0 <= i < |t.workers| ensures !t.workers[i].Done? {
        assert t.workers[i] == Wake(s.workers[i]) && !s.workers[i].Done?;
      }
    } else {
      forall i | 0 <= i < |t.workers| && t.workers[i].Done? ensures t.mark <= |t.dequeued| {
        if e == Exit(i) {
          assert s.submitted == s.dequeued;
        } else {
          assert s.workers[i].Done?;
        }
      }
    }
  }

  lemma {:induction false} LeaveRun(n: nat, unlockFirst: bool, es: seq<Event>, t: State)
    requires Exec(Constructed(n, unlockFirst), es) == Some(t)
    ensures LeavesNothing(t)
  {
    if |es| > 0 {
      var before := Exec(Constructed(n, unlockFirst), es[..|es| - 1]).value;
      LeaveRun(n, unlockFirst, es[..|es| - 1], before);
      ControlRun(n, unlockFirst, es[..|es| - 1], before);
      DispatchIsExactlyOnce(n, unlockFirst, es[..|es| - 1], before);
      LeaveStep(before, es[|es| - 1]);
    }
  }

  /** The jobs submitted in a run, in order. */
  function SubmittedIn(es: seq<Event>): seq<Job> {
    if |es| == 0 then []
    else SubmittedIn(es[..|es| - 1]) + if es[|es| - 1].Submit? then [es[|es| - 1].job] else []
  }

  /** Those of them submitted before the destructor was called, if it was. */
  function BeforeShutdown(es: seq<Event>): seq<Job> {
    if |es| == 0 then []
    else if es[|es| - 1].Shutdown? then SubmittedIn(es[..|es| - 1])
    else BeforeShutdown(es[..|es| - 1])
  }

  /** The history kept in a state is that of the run. */
  lemma {:induction false} HistoryRun(n: nat, unlockFirst: bool, es: seq<Event>, t: State)
    requires Exec(Constructed(n, unlockFirst), es) == Some(t)
    ensures t.submitted == SubmittedIn(es) && t.mark == |BeforeShutdown(es)| && BeforeShutdown(es) <= SubmittedIn(es)
  {
    if |es| > 0 {
      HistoryRun(n, unlockFirst, es[..|es| - 1], Exec(Constructed(n, unlockFirst), es[..|es| - 1]).value);
    }
  }

  /** When the variant's destructor returns, every job submitted before it was called has been taken and completed. */
  lemma ShutdownDrains(n: nat, es: seq<Event>, t: State, k: nat)
    requires n > 0 && Exec(Constructed(n, true), es) == Some(t) && t.destructor.Finished?
    ensures k < |BeforeShutdown(es)| ==> k in t.completed && k < |t.dequeued| && t.dequeued[k] == BeforeShutdown(es)[k]
  {
    ControlRun(n, true, es, t);
    LeaveRun(n, true, es, t);
    DispatchIsExactlyOnce(n, true, es, t);
    HistoryRun(n, true, es, t);
    assert t.workers[0].Done?;
    forall i | 0 <= i < n ensures !RunsTicket(t.workers[i], k) {
      assert t.workers[i].Done?;
    }
    assert !IsRunning(t.workers, k);
  }

  /** A step of the pool's own: no spurious wakeup, no submission, and not the call of the destructor. */
  predicate ByItself(e: Event) { !e.Spurious? && !e.Submit? && !e.Shutdown? }

  predicate AllAsleep(ws: seq<Worker>) {
    forall i :: 0 <= i < |ws| ==> ws[i].Asleep?
  }

  /** Nothing is left to do until somebody submits a job or destroys the pool. */
  predicate Idle(s: State) {
    s.destructor.NotStarted? && AllAsleep(s.workers) && (|s.workers| > 0 ==> s.tasks == [])
  }

  lemma AsleepMeansNoWork(s: State)
    requires Conserves(s) && AllAsleep(s.workers) && |s.workers| > 0
    ensures s.tasks == []
  {
    assert s.workers[0].Asleep?;
    TotalOfEqual(AboutToCheck, s.workers, 0);
  }

  /** While it runs the pool can always take a step of its own, unless it is idle; so can the variant while it shuts down. */
  lemma PoolProceeds(n: nat, unlockFirst: bool, es: seq<Event>, t: State)
    requires Exec(Constructed(n, unlockFirst), es) == Some(t)
    requires if t.stop then unlockFirst && !t.destructor.Finished? else !Idle(t)
    ensures exists e :: Enabled(t, e) && ByItself(e)
  {
    ControlRun(n, unlockFirst, es, t);
    WorkIsConserved(n, unlockFirst, es, t);
    if t.mutex.ByWorker? {
      var i := t.mutex.i;
      assert Is(t, i, Checking);
      assert Enabled(t, Take(i)) || Enabled(t, GoToSleep(i)) || Enabled(t, Exit(i));
    } else if i :| 0 <= i < n && (Is(t, i, Start) || Is(t, i, Waking)) {
      assert Enabled(t, Lock(i));
    } else if i :| 0 <= i < n && t.workers[i].Running? {
      assert Enabled(t, Complete(i));
    } else if !t.stop {
      forall i | 0 <= i < n ensures t.workers[i].Asleep? {
        assert !Is(t, i, Start) && !Is(t, i, Waking) && !t.workers[i].Running?;
      }
      if n > 0 {
        AsleepMeansNoWork(t);
      }
      assert Idle(t);
    } else if t.destructor.k == n {
      assert Enabled(t, Close);
    } else {
      var k := t.destructor.k;
      assert !t.workers[k].Asleep? && !Is(t, k, Start) && !Is(t, k, Waking) && !t.workers[k].Running?;
      assert t.workers[k].Checking? <==> t.mutex == ByWorker(k);
      assert Enabled(t, Join);
    }
  }

  function WorkerWeight(w: Worker): nat {
    match w
    case Done => 0
    case Asleep => 1
    case Checking => 2
    case Waking => 3
    case Start => 3
    case Running(_) => 4
  }

  function DestructorWeight(s: State): nat {
    match s.destructor
    case NotStarted => 3 * |s.workers| + 3
    case Joining(k) => if k <= |s.workers| then |s.workers| - k + 1 else 1
    case Finished => 0
  }

  function Measure(s: State): nat {
    Total(WorkerWeight, s.workers) + 3 * |s.tasks| + DestructorWeight(s)
  }

  function Allowance(e: Event): nat {
    if e.Spurious? then 3 else if e.Submit? then 6 else 0
  }

  lemma StepMeasure(s: State, e: Event)
    requires Enabled(s, e)
    ensures Measure(Apply(s, e)) < Measure(s) + Allowance(e)
  {
    var t := Apply(s, e);
    match e
    case Submit(_, woken) =>
      if woken.Some? {
        TotalUpdate(WorkerWeight, s.workers, woken.value, Waking);
      }
    case Shutdown =>
      TotalGrowth(WorkerWeight, s.workers, WakeAll(s.workers), 2);
    case Join =>
    case Close =>
    case _ =>
      assert t.workers == s.workers[e.i := t.workers[e.i]];
      TotalUpdate(WorkerWeight, s.workers, e.i, t.workers[e.i]);
  }

  function Allowances(es: seq<Event>): nat {
    if |es| == 0 then 0 else Allowances(es[..|es| - 1]) + Allowance(es[|es| - 1])
  }

  /** A run is no longer than its start allows, plus 6 steps for each submission and 3 for each spurious wakeup. */
  lemma {:induction false} RunIsBounded(s: State, es: seq<Event>, t: State)
    requires Exec(s, es) == Some(t)
    ensures |es| + Measure(t) <= Measure(s) + Allowances(es)
  {
    if |es| > 0 {
      var before := Exec(s, es[..|es| - 1]).value;
      RunIsBounded(s, es[..|es| - 1], before);
      StepMeasure(before, es[|es| - 1]);
    }
  }

  // ---------------------------------------------------------------- when the destructor returns

  lemma {:induction false} ExecAppend(s: State, es: seq<Event>, t: State, fs: seq<Event>)
    requires Exec(s, es) == Some(t)
    ensures Exec(s, es + fs) == Exec(t, fs)
  {
    if |fs| == 0 {
      assert es + fs == es;
    } else {
      ExecAppend(s, es, t, fs[..|fs| - 1]);
      assert (es + fs)[..|es + fs| - 1] == es + fs[..|fs| - 1];
    }
  }

  lemma ExecOne(s: State, e: Event)
    requires Enabled(s, e)
    ensures Exec(s, [e]) == Some(Apply(s, e))
  {
    assert [e][..0] == [];
  }

  predicate AllByItself(es: seq<Event>) {
    forall e <- es :: ByItself(e)
  }

  lemma {:induction false} NoAllowance(es: seq<Event>)
    requires AllByItself(es)
    ensures Allowances(es) == 0
  {
    if |es| > 0 {
      assert ByItself(es[|es| - 1]);
      NoAllowance(es[..|es| - 1]);
    }
  }

  lemma {:induction false} StopsForGood(s: State, es: seq<Event>, t: State)
    requires Exec(s, es) == Some(t) && s.stop
    ensures t.stop
  {
    if |es| > 0 {
      StopsForGood(s, es[..|es| - 1], Exec(s, es[..|es| - 1]).value);
    }
  }

  lemma NothingAfterClose(t: State, e: Event)
    requires Control(t) && t.destructor.Finished? && Enabled(t, e)
    ensures !ByItself(e)
  {
    assert AllDone(t.workers, |t.workers|);
  }

  lemma {:induction false} BeforeAppend(es: seq<Event>, fs: seq<Event>)
    requires AllByItself(fs)
    ensures BeforeShutdown(es + fs) == BeforeShutdown(es)
  {
    if |fs| == 0 {
      assert es + fs == es;
    } else {
      BeforeAppend(es, fs[..|fs| - 1]);
      assert (es + fs)[..|es + fs| - 1] == es + fs[..|fs| - 1];
      assert ByItself(fs[|fs| - 1]);
    }
  }

  /**
   * Once the variant's destructor has been called and nobody submits any more, the pool's own steps
   * are bounded in number, they give out exactly when the destructor has returned, and then every job
   * submitted before the call is completed.
   */
  lemma DestructorReturns(n: nat, es: seq<Event>, s: State, fs: seq<Event>, t: State)
    requires Exec(Constructed(n, true), es) == Some(s) && s.stop
    requires Exec(s, fs) == Some(t) && AllByItself(fs)
    ensures |fs| <= Measure(s)
    ensures t.destructor.Finished? <==> !exists e :: Enabled(t, e) && ByItself(e)
    ensures n > 0 && t.destructor.Finished? ==> forall k: nat :: k < |BeforeShutdown(es)| ==> k in t.completed
  {
    RunIsBounded(s, fs, t);
    NoAllowance(fs);
    StopsForGood(s, fs, t);
    ExecAppend(Constructed(n, true), es, s, fs);
    ControlRun(n, true, es + fs, t);
    if t.destructor.Finished? {
      BeforeAppend(es, fs);
      forall k: nat | n > 0 && k < |BeforeShutdown(es)| ensures k in t.completed {
        ShutdownDrains(n, es + fs, t, k);
      }
      forall e | Enabled(t, e) ensures !ByItself(e) {
        NothingAfterClose(t, e);
      }
    } else {
      PoolProceeds(n, true, es + fs, t);
    }
  }

  /** A run after which the destructor has returned. */
  predicate Returns(s: State, es: seq<Event>) {
    var t := Exec(s, es);
    t.Some? && t.value.destructor.Finished?
  }

  lemma {:induction false} RunsToTheEnd(n: nat, es: seq<Event>, t: State) returns (fs: seq<Event>)
    requires Exec(Constructed(n, true), es) == Some(t) && t.stop
    ensures Returns(t, fs)
    decreases Measure(t)
  {
    if t.destructor.Finished? {
      fs := [];
    } else {
      PoolProceeds(n, true, es, t);
      var e :| Enabled(t, e) && ByItself(e);
      var next := Apply(t, e);
      StepMeasure(t, e);
      ExecOne(t, e);
      ExecAppend(Constructed(n, true), es, t, [e]);
      StopsForGood(t, [e], next);
      fs := RunsToTheEnd(n, es + [e], next);
      ExecAppend(t, [e], next, fs);
      fs := [e] + fs;
    }
  }

  /** Once called, in every reachable state, the destructor can still return exactly in the variant or without workers. */
  lemma DestructorCanReturn(n: nat, unlockFirst: bool, es: seq<Event>, t: State)
    requires Exec(Constructed(n, unlockFirst), es) == Some(t) && t.stop
    ensures (exists fs :: Returns(t, fs)) <==> unlockFirst || n == 0
  {
    if unlockFirst {
      var fs := RunsToTheEnd(n, es, t);
    } else if n == 0 {
      ControlRun(n, unlockFirst, es, t);
      if t.destructor.Finished? {
        assert Returns(t, []);
      } else {
        ExecOne(t, Close);
        assert Returns(t, [Close]);
      }
    } else {
      forall fs ensures !Returns(t, fs) {
        NeverReturns(n, es, t, fs);
      }
    }
  }

  lemma NeverReturns(n: nat, es: seq<Event>, t: State, fs: seq<Event>)
    requires n > 0 && Exec(Constructed(n, false), es) == Some(t)
    ensures !Returns(t, fs)
  {
    ExecAppend(Constructed(n, false), es, t, fs);
    if Exec(t, fs).Some? {
      DestructorNeverFinishes(n, es + fs, Exec(t, fs).value);
    }
  }

  /** As written, it can return at all exactly when there is nothing to join. */
  lemma DestructorCanFinishIffEmpty(n: nat)
    ensures (exists es :: Returns(Constructed(n, false), es)) <==> n == 0
  {
    var s := Constructed(n, false);
    if n == 0 {
      var called := Apply(s, Shutdown);
      ExecOne(s, Shutdown);
      ExecAppend(s, [Shutdown], called, [Close]);
      ExecOne(called, Close);
      assert Returns(s, [Shutdown] + [Close]);
    } else {
      forall es ensures !Returns(s, es) {
        assert Exec(s, []) == Some(s);
        NeverReturns(n, [], s, es);
      }
    }
  }

  /** A spurious wakeup with nothing to do leads back to the same state, once the worker has looked. */
  lemma SpuriousIsHarmless(n: nat, unlockFirst: bool, es: seq<Event>, t: State, i: nat)
    requires Exec(Constructed(n, unlockFirst), es) == Some(t) && Is(t, i, Asleep) && t.mutex.Nobody? && t.tasks == []
    ensures Exec(t, [Spurious(i), Lock(i), GoToSleep(i)]) == Some(t)
  {
    ControlRun(n, unlockFirst, es, t);
    var t1 := Apply(t, Spurious(i));
    var t2 := Apply(t1, Lock(i));
    assert Apply(t2, GoToSleep(i)).workers == t.workers;
    assert [Spurious(i), Lock(i), GoToSleep(i)][..2] == [Spurious(i), Lock(i)];
    assert [Spurious(i), Lock(i)][..1] == [Spurious(i)];
    assert [Spurious(i)][..0] == [];
    assert Exec(t, [Spurious(i)]) == Some(t1);
    assert Exec(t, [Spurious(i), Lock(i)]) == Some(t2);
  }
}
