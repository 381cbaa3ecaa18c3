// All interleavings of any number of threads over one LockManager. acquireLock is split into
// locking the mutex, checking, sleeping, waking and checking again; a client program may also
// read and write a shared counter in separate steps.
module LockMachine {
  import opened LockManager
  import opened Totals
  import opened Wrappers

  datatype Op = Acquire(r: Resource) | Release(r: Resource) | Read | Write

  /** Checking and Releasing hold manager_mutex; Waking has been notified and contends for it. */
  datatype Phase = Outside | Checking | Asleep | Waking | Releasing

  /** A client thread: the operations still to run, what it has locked, and its copy of the counter. */
  datatype Thread = Thread(id: int, ops: seq<Op>, phase: Phase, held: set<Resource>, reg: int, loaded: bool)

  datatype State = State(threads: seq<Thread>, owners: Owners, mutex: Option<nat>, counter: int)

  datatype Event = Enter(i: nat) | Grant(i: nat) | Block(i: nat) | Spurious(i: nat) | Relock(i: nat)
                 | Free(i: nat) | Load(i: nat) | Store(i: nat)

  predicate Wants(t: Thread) { |t.ops| > 0 && t.ops[0].Acquire? }

  predicate Frees(t: Thread) { |t.ops| > 0 && t.ops[0].Release? }

  predicate Enabled(s: State, e: Event) {
    e.i < |s.threads| &&
    var t := s.threads[e.i];
    match e
    case Enter(_) => t.phase.Outside? && (Wants(t) || Frees(t)) && s.mutex.None?
    case Grant(_) => t.phase.Checking? && Wants(t) && t.ops[0].r !in s.owners
    case Block(_) => t.phase.Checking? && Wants(t) && t.ops[0].r in s.owners
    case Spurious(_) => t.phase.Asleep?
    case Relock(_) => t.phase.Waking? && s.mutex.None?
    case Free(_) => t.phase.Releasing? && Frees(t)
    case Load(_) => t.phase.Outside? && |t.ops| > 0 && t.ops[0].Read?
    case Store(_) => t.phase.Outside? && |t.ops| > 0 && t.ops[0].Write?
  }

  function Wake(t: Thread): Thread {
    if t.phase.Asleep? then t.(phase := Waking) else t
  }

  /** notify_all. */
  function WakeAll(ts: seq<Thread>): (r: seq<Thread>)
    ensures |r| == |ts|
  {
    seq(|ts|, i requires 0 <= i < |ts| => Wake(ts[i]))
  }

  function Apply(s: State, e: Event): State
    requires Enabled(s, e)
  {
    var t := s.threads[e.i];
    match e
    case Enter(i) =>
      s.(threads := s.threads[i := t.(phase := if Wants(t) then Checking else Releasing)], mutex := Some(i))
    case Grant(i) =>
      s.(threads := s.threads[i := t.(phase := Outside, ops := t.ops[1..], held := t.held + {t.ops[0].r})],
         owners := s.owners[t.ops[0].r := t.id], mutex := None)
    case Block(i) =>
      s.(threads := s.threads[i := t.(phase := Asleep)], mutex := None)
    case Spurious(i) =>
      s.(threads := s.threads[i := t.(phase := Waking)])
    case Relock(i) =>
      s.(threads := s.threads[i := t.(phase := Checking)], mutex := Some(i))
    case Free(i) =>
      s.(threads := WakeAll(s.threads)[i := t.(phase := Outside, ops := t.ops[1..], held := t.held - {t.ops[0].r})],
         owners := Released(s.owners, t.ops[0].r, t.id), mutex := None)
    case Load(i) =>
      s.(threads := s.threads[i := t.(ops := t.ops[1..], reg := s.counter, loaded := true)])
    case Store(i) =>
      s.(threads := s.threads[i := t.(ops := t.ops[1..], loaded := false)], counter := t.reg + 1)
  }

  /** The state after a run of events, if each was enabled when it happened. */
  function Exec(s: State, es: seq<Event>): Option<State> {
    if |es| == 0 then Some(s)
    else
      var last, before := es[|es| - 1], Exec(s, es[..|es| - 1]);
      if before.Some? && Enabled(before.value, last) then Some(Apply(before.value, last)) else None
  }

  lemma ExecOne(s: State, es: seq<Event>, t: State, e: Event)
    requires Exec(s, es) == Some(t) && Enabled(t, e)
    ensures Exec(s, es + [e]) == Some(Apply(t, e))
  {
    assert (es + [e])[..|es|] == es;
  }

  lemma TakeFree(s: State, es: seq<Event>, t: State, i: nat, after: Thread)
    requires Exec(s, es) == Some(t) && i < |t.threads| && t.mutex.None? && t.threads[i].phase.Outside?
    requires Wants(t.threads[i]) && t.threads[i].ops[0].r !in t.owners
    requires after == t.threads[i].(ops := t.threads[i].ops[1..], held := t.threads[i].held + {t.threads[i].ops[0].r})
    ensures Exec(s, es + [Enter(i)] + [Grant(i)]) ==
            Some(t.(threads := t.threads[i := after], owners := t.owners[t.threads[i].ops[0].r := after.id]))
  {
    ExecOne(s, es, t, Enter(i));
    ExecOne(s, es + [Enter(i)], Apply(t, Enter(i)), Grant(i));
    assert t.threads[i := t.threads[i].(phase := Checking)][i := after] == t.threads[i := after];
  }

  lemma {:induction false} ExecAppend(s: State, es: seq<Event>, t: State, fs: seq<Event>)
    requires Exec(s, es) == Some(t)
    ensures Exec(s, es + fs) == Exec(t, fs)
  {
    if |fs| == 0 {
      assert es + fs == es;
    } else {
      ExecAppend(s, es, t, fs[..|fs| - 1]);
      assert (es + fs)[..|es + fs| - 1] == es + fs[..|fs| - 1];
    }
  }

  // ---------------------------------------------------------------- what holds for every client

  predicate DistinctIds(ts: seq<Thread>) {
    forall i, j :: 0 <= i < |ts| && 0 <= j < |ts| && ts[i].id == ts[j].id ==> i == j
  }

  predicate InMutex(t: Thread) { t.phase.Checking? || t.phase.Releasing? }

  predicate Coherent(t: Thread) {
    && (t.phase.Checking? || t.phase.Asleep? || t.phase.Waking? ==> Wants(t))
    && (t.phase.Releasing? ==> Frees(t))
  }

  /** The mutex is held by exactly the thread inside a critical section, and sleepers sleep on owned locks. */
  predicate Sound(s: State) {
    && DistinctIds(s.threads)
    && (forall i :: 0 <= i < |s.threads| ==> Coherent(s.threads[i]))
    && (forall i :: 0 <= i < |s.threads| ==> (InMutex(s.threads[i]) <==> s.mutex == Some(i)))
    && (s.mutex.Some? ==> s.mutex.value < |s.threads|)
    && (forall i :: 0 <= i < |s.threads| && s.threads[i].phase.Asleep? ==> s.threads[i].ops[0].r in s.owners)
  }

  lemma SoundFree(s: State, i: nat)
    requires Sound(s) && Enabled(s, Free(i))
    ensures Sound(Apply(s, Free(i)))
  {
    var t := Apply(s, Free(i));
    forall j | 0 <= j < |s.threads|
      ensures t.threads[j].id == s.threads[j].id && Coherent(t.threads[j])
      ensures !t.threads[j].phase.Asleep? && !InMutex(t.threads[j])
    {
      assert j == i || t.threads[j] == Wake(s.threads[j]);
    }
  }

  lemma SoundStep(s: State, e: Event)
    requires Sound(s) && Enabled(s, e)
    ensures Sound(Apply(s, e))
  {
    if e.Free? {
      SoundFree(s, e.i);
    } else {
      var t := Apply(s, e);
      forall j | 0 <= j < |s.threads| && j != e.i ensures t.threads[j] == s.threads[j] {
      }
      assert t.threads[e.i].id == s.threads[e.i].id && Coherent(t.threads[e.i]);
    }
  }

  lemma {:induction false} SoundRun(s: State, es: seq<Event>, t: State)
    requires Sound(s) && Exec(s, es) == Some(t)
    ensures Sound(t) && |t.threads| == |s.threads|
  {
    if |es| > 0 {
      var before := Exec(s, es[..|es| - 1]).value;
      SoundRun(s, es[..|es| - 1], before);
      SoundStep(before, es[|es| - 1]);
    }
  }

  predicate Fresh(s: State) {
    && DistinctIds(s.threads) && s.owners == map[] && s.mutex.None?
    && forall i :: 0 <= i < |s.threads| ==>
         s.threads[i].phase.Outside? && s.threads[i].held == {} && !s.threads[i].loaded
  }

  /** No lost wakeup, whatever the clients do: a thread asleep on a lock sleeps only while the lock is owned. */
  lemma NoLostWakeup(s: State, es: seq<Event>, t: State, i: nat)
    requires Fresh(s) && Exec(s, es) == Some(t)
    requires i < |t.threads| && t.threads[i].phase.Asleep?
    ensures Wants(t.threads[i]) && t.threads[i].ops[0].r in t.owners
  {
    SoundRun(s, es, t);
  }

  // ---------------------------------------------------------------- locks nobody can ever free

  /** A thread that will release none of these locks before it gets one of them. */
  predicate CannotFree(t: Thread, knot: set<Resource>) { t.ops == [] || NeedsOneOf(t, knot) }

  predicate NeedsOneOf(t: Thread, knot: set<Resource>) { Wants(t) && t.ops[0].r in knot }

  /** Each lock of the knot is owned, by no thread at all or only by threads that cannot free it. */
  predicate Knotted(s: State, knot: set<Resource>) {
    forall r <- knot :: r in s.owners &&
      forall i :: 0 <= i < |s.threads| && s.threads[i].id == s.owners[r] ==> CannotFree(s.threads[i], knot)
  }

  predicate IsWaiting(t: Thread) { Wants(t) && !t.phase.Outside? }

  /** A thread that has not moved on. */
  predicate StillThere(t: Thread, u: Thread) {
    u.id == t.id && u.ops == t.ops && u.held == t.held && (IsWaiting(t) ==> IsWaiting(u))
  }

  lemma KnotStep(s: State, e: Event, knot: set<Resource>)
    requires Sound(s) && Knotted(s, knot) && Enabled(s, e)
    ensures Knotted(Apply(s, e), knot)
    ensures forall r <- knot :: Apply(s, e).owners[r] == s.owners[r]
    ensures forall i :: 0 <= i < |s.threads| && CannotFree(s.threads[i], knot) ==>
              StillThere(s.threads[i], Apply(s, e).threads[i])
  {
    var t := Apply(s, e);
    assert Coherent(s.threads[e.i]);
    forall j | 0 <= j < |s.threads| && j != e.i
      ensures t.threads[j] == if e.Free? then Wake(s.threads[j]) else s.threads[j]
    {
    }
    assert CannotFree(s.threads[e.i], knot) ==> !e.Grant? && !e.Free? && !e.Load? && !e.Store?;
    assert t.threads[e.i].id == s.threads[e.i].id;
  }

  /** A knot never comes undone: its locks keep their owners and the threads that need one of them never move on. */
  lemma {:induction false} KnotIsForever(s: State, es: seq<Event>, t: State, knot: set<Resource>)
    requires Sound(s) && Knotted(s, knot) && Exec(s, es) == Some(t)
    ensures Knotted(t, knot) && |t.threads| == |s.threads|
    ensures forall r <- knot :: t.owners[r] == s.owners[r]
    ensures forall i :: 0 <= i < |s.threads| && CannotFree(s.threads[i], knot) ==> StillThere(s.threads[i], t.threads[i])
  {
    if |es| > 0 {
      var before := Exec(s, es[..|es| - 1]).value;
      KnotIsForever(s, es[..|es| - 1], before, knot);
      SoundRun(s, es[..|es| - 1], before);
      KnotStep(before, es[|es| - 1], knot);
    }
  }

  /** A thread that locks again what it already owns never proceeds. */
  lemma RelockNeverProceeds(s: State, es: seq<Event>, t: State, i: nat, r: Resource)
    requires Sound(s) && i < |s.threads| && NeedsOneOf(s.threads[i], {r})
    requires r in s.owners && s.owners[r] == s.threads[i].id
    requires Exec(s, es) == Some(t)
    ensures |t.threads| == |s.threads| && t.threads[i].ops == s.threads[i].ops
  {
    KnotIsForever(s, es, t, {r});
  }

  /** Releasing a free lock from a non-zero thread locks it for good when no thread is numbered 0: nobody ever gets it. */
  lemma PhantomOwnerBlocks(s: State, i: nat, es: seq<Event>, t: State, j: nat)
    requires Sound(s) && Enabled(s, Free(i)) && s.threads[i].ops[0].r !in s.owners
    requires forall k :: 0 <= k < |s.threads| ==> s.threads[k].id != 0
    requires Exec(Apply(s, Free(i)), es) == Some(t)
    ensures var r := s.threads[i].ops[0].r;
            r in t.owners && t.owners[r] == 0 && (Enabled(t, Grant(j)) ==> t.threads[j].ops[0].r != r)
  {
    var r, after := s.threads[i].ops[0].r, Apply(s, Free(i));
    ReleaseIsClean(s.owners, r, s.threads[i].id);
    SoundStep(s, Free(i));
    forall k | 0 <= k < |s.threads| ensures after.threads[k].id == s.threads[k].id {
      assert k == i || after.threads[k] == Wake(s.threads[k]);
    }
    KnotIsForever(after, es, t, {r});
  }

  // ---------------------------------------------------------------- clients that release only what they hold

  predicate ReleasesHeld(held: set<Resource>, ops: seq<Op>)
    decreases |ops|
  {
    |ops| == 0 ||
    match ops[0]
    case Acquire(r) => ReleasesHeld(held + {r}, ops[1..])
    case Release(r) => r in held && ReleasesHeld(held - {r}, ops[1..])
    case _ => ReleasesHeld(held, ops[1..])
  }

  /** Thread 0 may release what it likes: looking a free lock up makes it the owner, and it then erases that. */
  predicate AllReleaseHeld(ts: seq<Thread>) {
    forall i :: 0 <= i < |ts| && ts[i].id != 0 ==> ReleasesHeld(ts[i].held, ts[i].ops)
  }

  /** What a client still holds when its operations are done. */
  function HeldAtEnd(held: set<Resource>, ops: seq<Op>): set<Resource>
    decreases |ops|
  {
    if |ops| == 0 then held
    else match ops[0]
      case Acquire(r) => HeldAtEnd(held + {r}, ops[1..])
      case Release(r) => HeldAtEnd(held - {r}, ops[1..])
      case _ => HeldAtEnd(held, ops[1..])
  }

  predicate AllEndFree(ts: seq<Thread>) {
    forall i :: 0 <= i < |ts| ==> HeldAtEnd(ts[i].held, ts[i].ops) == {}
  }

  predicate Holds(t: Thread, r: Resource) { r in t.held }

  /** The owner map records exactly what the threads hold. */
  ghost predicate TableIsExact(ts: seq<Thread>, owners: Owners) {
    && (forall i, r :: 0 <= i < |ts| && Holds(ts[i], r) ==> r in owners && owners[r] == ts[i].id)
    && (forall r :: r in owners ==> exists i :: 0 <= i < |ts| && Holds(ts[i], r))
  }

  /** What a step does to the client side of thread i; the other threads keep theirs. */
  ghost predicate OnlyThread(ts: seq<Thread>, us: seq<Thread>, i: nat) {
    && |ts| == |us| && i < |ts| && us[i].id == ts[i].id
    && forall j :: 0 <= j < |ts| && j != i ==> SameClient(ts[j], us[j])
  }

  predicate SameClient(t: Thread, u: Thread) {
    t.id == u.id && t.ops == u.ops && t.held == u.held && t.reg == u.reg && t.loaded == u.loaded
  }

  lemma StepFrame(s: State, e: Event)
    requires Enabled(s, e)
    ensures OnlyThread(s.threads, Apply(s, e).threads, e.i)
  {
    var us := Apply(s, e).threads;
    forall j | 0 <= j < |s.threads| && j != e.i ensures SameClient(s.threads[j], us[j]) {
      assert us[j] == if e.Free? then Wake(s.threads[j]) else s.threads[j];
    }
  }

  lemma TableGains(ts: seq<Thread>, us: seq<Thread>, owners: Owners, i: nat, r: Resource)
    requires TableIsExact(ts, owners) && OnlyThread(ts, us, i)
    requires r !in owners && us[i].held == ts[i].held + {r}
    ensures TableIsExact(us, owners[r := ts[i].id])
  {
    var now := owners[r := ts[i].id];
    forall j, q | 0 <= j < |us| && Holds(us[j], q) ensures q in now && now[q] == us[j].id {
      assert (j == i && q == r) || Holds(ts[j], q);
      assert j != i ==> SameClient(ts[j], us[j]);
    }
    forall q | q in now ensures exists j :: 0 <= j < |us| && Holds(us[j], q) {
      if q == r {
        assert Holds(us[i], r);
      } else {
        var j :| 0 <= j < |ts| && Holds(ts[j], q);
        assert Holds(us[j], q);
      }
    }
  }

  lemma TableLoses(ts: seq<Thread>, us: seq<Thread>, owners: Owners, i: nat, r: Resource)
    requires TableIsExact(ts, owners) && OnlyThread(ts, us, i) && DistinctIds(ts)
    requires Holds(ts[i], r) && us[i].held == ts[i].held - {r}
    ensures TableIsExact(us, owners - {r})
  {
    forall j, q | 0 <= j < |us| && Holds(us[j], q) ensures q in owners - {r} && owners[q] == us[j].id {
      assert j != i ==> SameClient(ts[j], us[j]);
      assert Holds(ts[j], q) && owners[q] == ts[j].id && owners[r] == ts[i].id;
    }
    forall q | q in owners - {r} ensures exists j :: 0 <= j < |us| && Holds(us[j], q) {
      var j :| 0 <= j < |ts| && Holds(ts[j], q);
      assert Holds(us[j], q);
    }
  }

  lemma TableKept(ts: seq<Thread>, us: seq<Thread>, owners: Owners, i: nat)
    requires TableIsExact(ts, owners) && OnlyThread(ts, us, i) && us[i].held == ts[i].held
    ensures TableIsExact(us, owners)
  {
    forall j, q | 0 <= j < |us| && Holds(us[j], q) ensures q in owners && owners[q] == us[j].id {
      assert Holds(ts[j], q);
    }
    forall q | q in owners ensures exists j :: 0 <= j < |us| && Holds(us[j], q) {
      var j :| 0 <= j < |ts| && Holds(ts[j], q);
      assert Holds(us[j], q);
    }
  }

  /** Thread 0 releasing a lock it does not hold changes nothing. */
  lemma FreeOfUnheld(ts: seq<Thread>, owners: Owners, i: nat, r: Resource)
    requires TableIsExact(ts, owners) && DistinctIds(ts) && i < |ts| && ts[i].id == 0 && !Holds(ts[i], r)
    ensures Released(owners, r, 0) == owners
  {
    if r in owners {
      var j :| 0 <= j < |ts| && Holds(ts[j], r);
      assert owners[r] == ts[j].id != 0;
    } else {
      assert owners[r := 0] - {r} == owners;
    }
  }

  lemma StepReleases(s: State, e: Event)
    requires AllReleaseHeld(s.threads) && Enabled(s, e)
    ensures AllReleaseHeld(Apply(s, e).threads)
    ensures AllEndFree(s.threads) ==> AllEndFree(Apply(s, e).threads)
  {
    StepFrame(s, e);
    var us := Apply(s, e).threads;
    forall j | 0 <= j < |us|
      ensures us[j].id != 0 ==> ReleasesHeld(us[j].held, us[j].ops)
      ensures HeldAtEnd(us[j].held, us[j].ops) == HeldAtEnd(s.threads[j].held, s.threads[j].ops)
    {
      assert us[j].id != 0 ==> ReleasesHeld(s.threads[j].held, s.threads[j].ops);
      assert j != e.i ==> SameClient(s.threads[j], us[j]);
    }
  }

  lemma StepTable(s: State, e: Event)
    requires TableIsExact(s.threads, s.owners) && DistinctIds(s.threads)
    requires AllReleaseHeld(s.threads) && Enabled(s, e)
    ensures TableIsExact(Apply(s, e).threads, Apply(s, e).owners)
  {
    StepFrame(s, e);
    var t, u := s.threads[e.i], Apply(s, e);
    if e.Grant? {
      TableGains(s.threads, u.threads, s.owners, e.i, t.ops[0].r);
    } else if e.Free? {
      var r := t.ops[0].r;
      if Holds(t, r) {
        assert u.owners == s.owners - {r};
        TableLoses(s.threads, u.threads, s.owners, e.i, r);
      } else {
        assert t.id == 0 || ReleasesHeld(t.held, t.ops);
        FreeOfUnheld(s.threads, s.owners, e.i, r);
        assert u.owners == s.owners && u.threads[e.i].held == t.held;
        TableKept(s.threads, u.threads, s.owners, e.i);
      }
    } else {
      TableKept(s.threads, u.threads, s.owners, e.i);
    }
  }

  ghost predicate Tidy(s: State) {
    Sound(s) && AllReleaseHeld(s.threads) && TableIsExact(s.threads, s.owners)
  }

  lemma {:induction false} TidyRun(s: State, es: seq<Event>, t: State)
    requires Tidy(s) && Exec(s, es) == Some(t)
    ensures Tidy(t) && |t.threads| == |s.threads|
    ensures AllEndFree(s.threads) ==> AllEndFree(t.threads)
  {
    if |es| > 0 {
      var before, e := Exec(s, es[..|es| - 1]).value, es[|es| - 1];
      TidyRun(s, es[..|es| - 1], before);
      SoundStep(before, e);
      StepReleases(before, e);
      StepTable(before, e);
    }
  }

  lemma SoleHolder(ts: seq<Thread>, owners: Owners, i: nat, j: nat, r: Resource)
    requires TableIsExact(ts, owners) && DistinctIds(ts) && i < |ts| && j < |ts|
    requires Holds(ts[i], r) && r in owners && owners[r] == ts[j].id
    ensures i == j
  {
  }

  ghost predicate ExclusivelyHeld(ts: seq<Thread>) {
    forall i, j, r :: 0 <= i < |ts| && 0 <= j < |ts| && Holds(ts[i], r) && Holds(ts[j], r) ==> i == j
  }

  lemma ExactIsExclusive(ts: seq<Thread>, owners: Owners)
    requires TableIsExact(ts, owners) && DistinctIds(ts)
    ensures ExclusivelyHeld(ts)
  {
    forall i, j, r | 0 <= i < |ts| && 0 <= j < |ts| && Holds(ts[i], r) && Holds(ts[j], r) ensures i == j {
      SoleHolder(ts, owners, i, j, r);
    }
  }

  lemma FreshIsTidy(s: State)
    requires Fresh(s) && AllReleaseHeld(s.threads)
    ensures Tidy(s)
  {
  }

  /**
   * When clients (other than thread 0) release only what they hold, in whatever order they lock, the owner map is the set
   * of actual holders in every reachable state and no lock has two holders.
   */
  lemma LockTableIsExact(s: State, es: seq<Event>, t: State)
    requires Fresh(s) && AllReleaseHeld(s.threads) && Exec(s, es) == Some(t)
    ensures TableIsExact(t.threads, t.owners) && ExclusivelyHeld(t.threads)
  {
    FreshIsTidy(s);
    TidyRun(s, es, t);
    ExactIsExclusive(t.threads, t.owners);
  }

  // ---------------------------------------------------------------- ordered clients

  /** The lock-ordering discipline: every lock acquired ranks above all locks held, and only held locks are released. */
  predicate Ordered(rank: Resource -> int, held: set<Resource>, ops: seq<Op>)
    decreases |ops|
  {
    |ops| == 0 ||
    match ops[0]
    case Acquire(r) => (forall h <- held :: rank(h) < rank(r)) && Ordered(rank, held + {r}, ops[1..])
    case Release(r) => r in held && Ordered(rank, held - {r}, ops[1..])
    case _ => Ordered(rank, held, ops[1..])
  }

  predicate AllOrdered(rank: Resource -> int, ts: seq<Thread>) {
    forall i :: 0 <= i < |ts| ==> Ordered(rank, ts[i].held, ts[i].ops)
  }

  lemma {:induction false} OrderedReleasesHeld(rank: Resource -> int, held: set<Resource>, ops: seq<Op>)
    requires Ordered(rank, held, ops)
    ensures ReleasesHeld(held, ops)
    decreases |ops|
  {
    if |ops| > 0 {
      var after := match ops[0] case Acquire(r) => held + {r} case Release(r) => held - {r} case _ => held;
      OrderedReleasesHeld(rank, after, ops[1..]);
    }
  }

  lemma StepOrdered(rank: Resource -> int, s: State, e: Event)
    requires AllOrdered(rank, s.threads) && Enabled(s, e)
    ensures AllOrdered(rank, Apply(s, e).threads)
  {
    StepFrame(s, e);
    var us := Apply(s, e).threads;
    forall j | 0 <= j < |us| ensures Ordered(rank, us[j].held, us[j].ops) {
      assert Ordered(rank, s.threads[j].held, s.threads[j].ops);
      assert j != e.i ==> SameClient(s.threads[j], us[j]);
    }
  }

  ghost predicate Orderly(rank: Resource -> int, s: State) {
    Tidy(s) && AllOrdered(rank, s.threads)
  }

  lemma {:induction false} OrderlyRun(rank: Resource -> int, s: State, es: seq<Event>, t: State)
    requires Orderly(rank, s) && Exec(s, es) == Some(t)
    ensures Orderly(rank, t) && |t.threads| == |s.threads|
  {
    TidyRun(s, es, t);
    if |es| > 0 {
      var before, e := Exec(s, es[..|es| - 1]).value, es[|es| - 1];
      OrderlyRun(rank, s, es[..|es| - 1], before);
      StepOrdered(rank, before, e);
    }
  }

  ghost predicate Start(rank: Resource -> int, s: State) {
    Fresh(s) && AllOrdered(rank, s.threads)
  }

  lemma StartReleasesHeld(rank: Resource -> int, s: State)
    requires Start(rank, s)
    ensures AllReleaseHeld(s.threads)
  {
    forall i | 0 <= i < |s.threads| ensures ReleasesHeld(s.threads[i].held, s.threads[i].ops) {
      OrderedReleasesHeld(rank, s.threads[i].held, s.threads[i].ops);
    }
  }

  lemma StartIsOrderly(rank: Resource -> int, s: State)
    requires Start(rank, s)
    ensures Orderly(rank, s)
  {
    StartReleasesHeld(rank, s);
    FreshIsTidy(s);
  }

  // ---------------------------------------------------------------- the wait-for graph

  /** Thread i waits for a lock that thread j owns. */
  predicate WaitsFor(s: State, i: nat, j: nat) {
    && i < |s.threads| && j < |s.threads| && IsWaiting(s.threads[i])
    && s.threads[i].ops[0].r in s.owners && s.owners[s.threads[i].ops[0].r] == s.threads[j].id
  }

  /** The rank of the lock a thread waits for. */
  ghost function Goal(rank: Resource -> int, t: Thread): int {
    if Wants(t) then rank(t.ops[0].r) else 0
  }

  lemma WaitingGoesUp(rank: Resource -> int, s: State, i: nat, j: nat)
    requires Orderly(rank, s) && WaitsFor(s, i, j)
    ensures Wants(s.threads[j]) ==> Goal(rank, s.threads[i]) < Goal(rank, s.threads[j])
  {
    var r := s.threads[i].ops[0].r;
    var k :| 0 <= k < |s.threads| && Holds(s.threads[k], r);
    SoleHolder(s.threads, s.owners, k, j, r);
    assert Ordered(rank, s.threads[j].held, s.threads[j].ops);
  }

  predicate WaitPath(s: State, p: seq<nat>) {
    |p| > 1 && forall k :: 0 <= k < |p| - 1 ==> WaitsFor(s, p[k], p[k + 1])
  }

  lemma {:induction false} PathGoesUp(rank: Resource -> int, s: State, p: seq<nat>, k: nat)
    requires Orderly(rank, s) && WaitPath(s, p) && k < |p| - 1
    ensures WaitsFor(s, p[0], p[1]) && WaitsFor(s, p[k], p[k + 1])
    ensures Goal(rank, s.threads[p[0]]) <= Goal(rank, s.threads[p[k]])
  {
    assert WaitsFor(s, p[0], p[1]) && WaitsFor(s, p[k], p[k + 1]);
    if k > 0 {
      PathGoesUp(rank, s, p, k - 1);
      WaitingGoesUp(rank, s, p[k - 1], p[k]);
    }
  }

  /** Ordered clients never wait in a circle, whatever they hold when they are done. */
  lemma WaitForIsAcyclic(rank: Resource -> int, s: State, es: seq<Event>, t: State, p: seq<nat>)
    requires Start(rank, s) && Exec(s, es) == Some(t) && WaitPath(t, p)
    ensures p[0] != p[|p| - 1]
  {
    StartIsOrderly(rank, s);
    OrderlyRun(rank, s, es, t);
    var k := |p| - 2;
    PathGoesUp(rank, t, p, k);
    WaitingGoesUp(rank, t, p[k], p[k + 1]);
  }

  // ---------------------------------------------------------------- progress

  predicate Finished(s: State) {
    forall i :: 0 <= i < |s.threads| ==> s.threads[i].ops == []
  }

  /** No thread has a step of its own; only a spurious wakeup could stir one. */
  ghost predicate AtRest(s: State) {
    forall e :: Enabled(s, e) ==> e.Spurious?
  }

  /** The next thing thread i can do unless it sleeps, is finished, or is kept out by the mutex. */
  lemma ThreadCanStep(s: State, i: nat) returns (e: Event)
    requires Sound(s) && i < |s.threads| && s.threads[i].ops != [] && !s.threads[i].phase.Asleep?
    requires s.mutex.None? || s.mutex == Some(i)
    ensures Enabled(s, e) && !e.Spurious?
  {
    var t := s.threads[i];
    assert Coherent(t) && (InMutex(t) <==> s.mutex == Some(i));
    e := match t.phase
      case Outside => if Wants(t) || Frees(t) then Enter(i) else if t.ops[0].Read? then Load(i) else Store(i)
      case Checking => if t.ops[0].r in s.owners then Block(i) else Grant(i)
      case Waking => Relock(i)
      case _ => Free(i);
  }

  function PhaseWeight(t: Thread): nat {
    match t.phase
    case Asleep => 0
    case Checking => 1
    case Releasing => 1
    case Waking => 2
    case Outside => 3
  }

  function OpsLeft(t: Thread): nat { |t.ops| }

  /** An operation outweighs the whole wave of wakeups that its end may cause. */
  function Measure(s: State): nat {
    (2 * |s.threads| + 3) * Total(OpsLeft, s.threads) + Total(PhaseWeight, s.threads)
  }

  lemma LexicographicDrop(w: nat, x: nat, y: nat, p: nat, q: nat)
    requires (x + 1 == y && p < q + w) || (x == y && p < q)
    ensures w * x + p < w * y + q
  {
    assert x + 1 == y ==> w * y == w * x + w;
  }

  lemma UpdateMeasure(ts: seq<Thread>, base: seq<Thread>, i: nat, u: Thread)
    requires |base| == |ts| && i < |ts| && base[i] == ts[i]
    requires Total(OpsLeft, base) == Total(OpsLeft, ts) && PhaseWeight(u) <= PhaseWeight(ts[i]) + 2
    requires (|u.ops| + 1 == |ts[i].ops| && Total(PhaseWeight, base) <= Total(PhaseWeight, ts) + 2 * |ts|) ||
             (|u.ops| == |ts[i].ops| && PhaseWeight(u) < PhaseWeight(ts[i]) && base == ts)
    ensures (2 * |ts| + 3) * Total(OpsLeft, base[i := u]) + Total(PhaseWeight, base[i := u])
            < (2 * |ts| + 3) * Total(OpsLeft, ts) + Total(PhaseWeight, ts)
  {
    TotalUpdate(PhaseWeight, base, i, u);
    TotalUpdate(OpsLeft, base, i, u);
    LexicographicDrop(2 * |ts| + 3, Total(OpsLeft, base[i := u]), Total(OpsLeft, ts),
                      Total(PhaseWeight, base[i := u]), Total(PhaseWeight, ts));
  }

  lemma WakingMeasure(ts: seq<Thread>)
    ensures Total(OpsLeft, WakeAll(ts)) == Total(OpsLeft, ts)
    ensures Total(PhaseWeight, WakeAll(ts)) <= Total(PhaseWeight, ts) + 2 * |ts|
  {
    TotalGrowth(PhaseWeight, ts, WakeAll(ts), 2);
    TotalGrowth(OpsLeft, ts, WakeAll(ts), 0);
    TotalGrowth(OpsLeft, WakeAll(ts), ts, 0);
  }

  lemma StepMeasure(s: State, e: Event)
    requires Enabled(s, e) && !e.Spurious?
    ensures |Apply(s, e).threads| == |s.threads| && Measure(Apply(s, e)) < Measure(s)
  {
    var ts, u := s.threads, Apply(s, e).threads[e.i];
    if e.Free? {
      WakingMeasure(ts);
      UpdateMeasure(ts, WakeAll(ts), e.i, u);
    } else {
      UpdateMeasure(ts, ts, e.i, u);
    }
  }

  lemma SpuriousMeasure(s: State, i: nat)
    requires Enabled(s, Spurious(i))
    ensures Measure(Apply(s, Spurious(i))) == Measure(s) + 2
  {
    var us := Apply(s, Spurious(i)).threads;
    TotalUpdate(PhaseWeight, s.threads, i, us[i]);
    TotalUpdate(OpsLeft, s.threads, i, us[i]);
  }

  function SpuriousCount(es: seq<Event>): nat {
    if |es| == 0 then 0 else SpuriousCount(es[..|es| - 1]) + if es[|es| - 1].Spurious? then 1 else 0
  }

  /** Every run is finite but for spurious wakeups: its length is bounded by its start and their number. */
  lemma {:induction false} RunIsBounded(s: State, es: seq<Event>, t: State)
    requires Exec(s, es) == Some(t)
    ensures |es| + Measure(t) <= Measure(s) + 3 * SpuriousCount(es)
  {
    if |es| > 0 {
      var before, e := Exec(s, es[..|es| - 1]).value, es[|es| - 1];
      RunIsBounded(s, es[..|es| - 1], before);
      if e.Spurious? {
        SpuriousMeasure(before, e.i);
      } else {
        StepMeasure(before, e);
      }
    }
  }

  // ---------------------------------------------------------------- deadlocks are cycles

  ghost predicate WaitCycle(s: State, p: seq<nat>) { WaitPath(s, p) && p[0] == p[|p| - 1] }

  /** The locks the threads of a path wait for. */
  function GoalsOf(s: State, p: seq<nat>): set<Resource>
    requires WaitPath(s, p)
  {
    set k | 0 <= k < |p| - 1 :: GoalAt(s, p, k)
  }

  function GoalAt(s: State, p: seq<nat>, k: nat): Resource
    requires WaitPath(s, p) && k < |p| - 1
  {
    assert WaitsFor(s, p[k], p[k + 1]);
    s.threads[p[k]].ops[0].r
  }

  lemma CycleIsAKnot(s: State, p: seq<nat>)
    requires Sound(s) && WaitCycle(s, p)
    ensures Knotted(s, GoalsOf(s, p))
    ensures forall k :: 0 <= k < |p| ==> p[k] < |s.threads| && NeedsOneOf(s.threads[p[k]], GoalsOf(s, p))
  {
    var knot := GoalsOf(s, p);
    forall k | 0 <= k < |p| ensures p[k] < |s.threads| && NeedsOneOf(s.threads[p[k]], knot) {
      var m := if k < |p| - 1 then k else 0;
      assert WaitsFor(s, p[m], p[m + 1]) && GoalAt(s, p, m) in knot;
    }
    forall r | r in knot
      ensures r in s.owners
      ensures forall i :: 0 <= i < |s.threads| && s.threads[i].id == s.owners[r] ==> CannotFree(s.threads[i], knot)
    {
      var k :| 0 <= k < |p| - 1 && GoalAt(s, p, k) == r;
      OwnerIsNext(s, p, k);
      assert NeedsOneOf(s.threads[p[k + 1]], knot);
    }
  }

  lemma OwnerIsNext(s: State, p: seq<nat>, k: nat)
    requires Sound(s) && WaitPath(s, p) && k < |p| - 1
    ensures GoalAt(s, p, k) in s.owners
    ensures forall i :: 0 <= i < |s.threads| && s.threads[i].id == s.owners[GoalAt(s, p, k)] ==> i == p[k + 1]
  {
    assert WaitsFor(s, p[k], p[k + 1]);
  }

  /** A circular wait of any length never dissolves, whatever the other threads do. */
  lemma CycleNeverDissolves(s: State, p: seq<nat>, es: seq<Event>, t: State)
    requires Sound(s) && WaitCycle(s, p) && Exec(s, es) == Some(t)
    ensures WaitCycle(t, p) && |t.threads| == |s.threads| && !Finished(t)
    ensures forall k :: 0 <= k < |p| ==> p[k] < |s.threads| && t.threads[p[k]].ops == s.threads[p[k]].ops
  {
    var knot := GoalsOf(s, p);
    CycleIsAKnot(s, p);
    KnotIsForever(s, es, t, knot);
    forall k | 0 <= k < |p| - 1 ensures WaitsFor(t, p[k], p[k + 1]) {
      assert WaitsFor(s, p[k], p[k + 1]) && GoalAt(s, p, k) in knot;
      assert StillThere(s.threads[p[k]], t.threads[p[k]]) && StillThere(s.threads[p[k + 1]], t.threads[p[k + 1]]);
    }
    assert t.threads[p[0]].ops == s.threads[p[0]].ops;
  }

  lemma SleepersAtRest(s: State, i: nat)
    requires Sound(s) && AtRest(s) && i < |s.threads| && s.threads[i].ops != []
    ensures s.threads[i].phase.Asleep?
  {
    if !s.threads[i].phase.Asleep? {
      var j := if s.mutex.Some? then s.mutex.value else i;
      assert Coherent(s.threads[j]) && (s.mutex == Some(j) ==> InMutex(s.threads[j]));
      var e := ThreadCanStep(s, j);
      assert false;
    }
  }

  /** Thread i waits for a lock that thread j has kept after its last operation. */
  predicate WaitsForFinished(s: State, i: nat, j: nat) { WaitsFor(s, i, j) && s.threads[j].ops == [] }

  ghost predicate KeptFromSomeone(s: State) { exists i: nat, j: nat :: WaitsForFinished(s, i, j) }

  /** At rest, a thread with work left waits for another one. */
  lemma NextInLine(s: State, i: nat) returns (j: nat)
    requires Tidy(s) && AtRest(s) && i < |s.threads| && s.threads[i].ops != []
    ensures j < |s.threads| && WaitsFor(s, i, j) && Holds(s.threads[j], s.threads[i].ops[0].r)
  {
    SleepersAtRest(s, i);
    assert Coherent(s.threads[i]);
    var r := s.threads[i].ops[0].r;
    j :| 0 <= j < |s.threads| && Holds(s.threads[j], r);
  }

  lemma {:induction false} LongPath(s: State, i: nat, k: nat) returns (p: seq<nat>)
    requires Tidy(s) && AtRest(s) && !KeptFromSomeone(s) && i < |s.threads| && s.threads[i].ops != []
    ensures |p| == k + 2 && p[0] == i && WaitPath(s, p)
    decreases k
  {
    var j := NextInLine(s, i);
    assert !WaitsForFinished(s, i, j);
    if k == 0 {
      p := [i, j];
    } else {
      var rest := LongPath(s, j, k - 1);
      p := [i] + rest;
      forall m | 0 <= m < |p| - 1 ensures WaitsFor(s, p[m], p[m + 1]) {
        assert m > 0 ==> WaitsFor(s, rest[m - 1], rest[m]);
      }
    }
  }

  /** More entries than values: two entries are equal. */
  lemma {:induction false} Pigeonhole(p: seq<nat>, n: nat) returns (a: nat, b: nat)
    requires |p| > n && forall k :: 0 <= k < |p| ==> p[k] < n
    ensures a < b < |p| && p[a] == p[b]
    decreases n
  {
    if x :| 0 <= x < |p| - 1 && p[x] == p[|p| - 1] {
      a, b := x, |p| - 1;
    } else {
      // the last value occurs once; the others are n - 1 values once it is renamed to n - 1
      var last := p[|p| - 1];
      var q := seq(|p| - 1, k requires 0 <= k < |p| - 1 => if p[k] == n - 1 then last else p[k]);
      a, b := Pigeonhole(q, n - 1);
      assert q[a] == q[b];
    }
  }

  lemma PathIsInRange(s: State, p: seq<nat>)
    requires WaitPath(s, p)
    ensures forall k :: 0 <= k < |p| ==> p[k] < |s.threads|
  {
    forall k | 0 <= k < |p| ensures p[k] < |s.threads| {
      assert if k < |p| - 1 then WaitsFor(s, p[k], p[k + 1]) else WaitsFor(s, p[k - 1], p[k]);
    }
  }

  lemma PartOfPath(s: State, p: seq<nat>, a: nat, b: nat)
    requires WaitPath(s, p) && a < b < |p|
    ensures WaitPath(s, p[a..b + 1])
  {
    var q := p[a..b + 1];
    forall m | 0 <= m < |q| - 1 ensures WaitsFor(s, q[m], q[m + 1]) {
      assert WaitsFor(s, p[a + m], p[a + m + 1]);
    }
  }

  lemma CycleAtRest(s: State) returns (p: seq<nat>)
    requires Tidy(s) && AtRest(s) && !KeptFromSomeone(s) && !Finished(s)
    ensures WaitCycle(s, p)
  {
    var i :| 0 <= i < |s.threads| && s.threads[i].ops != [];
    var path := LongPath(s, i, |s.threads|);
    PathIsInRange(s, path);
    var a, b := Pigeonhole(path, |s.threads|);
    PartOfPath(s, path, a, b);
    p := path[a..b + 1];
  }

  /**
   * For clients that release only what they hold, a state at rest is unfinished exactly when it
   * contains a circular wait or a wait for a lock that a finished client has kept.
   */
  lemma UnfinishedAtRest(s: State, es: seq<Event>, t: State)
    requires Fresh(s) && AllReleaseHeld(s.threads) && Exec(s, es) == Some(t) && AtRest(t)
    ensures !Finished(t) <==> (exists p :: WaitCycle(t, p)) || KeptFromSomeone(t)
  {
    FreshIsTidy(s);
    TidyRun(s, es, t);
    if Finished(t) {
      forall i: nat, j: nat ensures !WaitsFor(t, i, j) {
      }
      forall p ensures !WaitCycle(t, p) {
        assert |p| > 1 ==> !WaitsFor(t, p[0], p[1]);
      }
    } else if !KeptFromSomeone(t) {
      var p := CycleAtRest(t);
    }
  }

  /** Clients that end with nothing held keep no lock. */
  lemma NothingKept(s: State, es: seq<Event>, t: State)
    requires Fresh(s) && AllReleaseHeld(s.threads) && AllEndFree(s.threads) && Exec(s, es) == Some(t)
    ensures !KeptFromSomeone(t)
  {
    FreshIsTidy(s);
    TidyRun(s, es, t);
    forall i: nat, j: nat ensures !WaitsForFinished(t, i, j) {
      if WaitsFor(t, i, j) {
        var r := t.threads[i].ops[0].r;
        var k :| 0 <= k < |t.threads| && Holds(t.threads[k], r);
        SoleHolder(t.threads, t.owners, k, j, r);
        assert HeldAtEnd(t.threads[j].held, t.threads[j].ops) == {};
      }
    }
  }

  /** If they also end with nothing held, it is unfinished exactly when it contains a circular wait. */
  lemma DeadlockIsACycle(s: State, es: seq<Event>, t: State)
    requires Fresh(s) && AllReleaseHeld(s.threads) && AllEndFree(s.threads)
    requires Exec(s, es) == Some(t) && AtRest(t)
    ensures !Finished(t) <==> exists p :: WaitCycle(t, p)
  {
    UnfinishedAtRest(s, es, t);
    NothingKept(s, es, t);
  }

  /** For ordered clients, exactly when some client waits for a lock that a finished one has kept. */
  lemma OrderedAtRest(rank: Resource -> int, s: State, es: seq<Event>, t: State)
    requires Start(rank, s) && Exec(s, es) == Some(t) && AtRest(t)
    ensures !Finished(t) <==> exists i: nat, j: nat :: WaitsForFinished(t, i, j)
  {
    StartReleasesHeld(rank, s);
    UnfinishedAtRest(s, es, t);
    if p :| WaitCycle(t, p) {
      WaitForIsAcyclic(rank, s, es, t, p);
    }
  }

  /**
   * Deadlock freedom: with ordered clients that end with nothing held, until every thread is finished
   * some thread can take a step of its own.
   */
  lemma NoDeadlock(rank: Resource -> int, s: State, es: seq<Event>, t: State)
    requires Start(rank, s) && AllEndFree(s.threads) && Exec(s, es) == Some(t) && !Finished(t)
    ensures !AtRest(t)
  {
    if AtRest(t) {
      StartReleasesHeld(rank, s);
      OrderedAtRest(rank, s, es, t);
      NothingKept(s, es, t);
    }
  }

  // ---------------------------------------------------------------- the shared counter

  /**
   * The counter is read and written only while lock c is held, every write follows a read made
   * under the same lock, and the lock is not given up in between.
   */
  predicate Guarded(c: Resource, holding: bool, loaded: bool, ops: seq<Op>)
    decreases |ops|
  {
    |ops| == 0 ||
    match ops[0]
    case Acquire(r) => Guarded(c, holding || r == c, loaded, ops[1..])
    case Release(r) => (r == c ==> !loaded) && Guarded(c, holding && r != c, loaded, ops[1..])
    case Read => holding && Guarded(c, true, true, ops[1..])
    case Write => holding && loaded && Guarded(c, true, false, ops[1..])
  }

  function Writes(ops: seq<Op>): nat {
    if |ops| == 0 then 0 else Writes(ops[1..]) + if ops[0].Write? then 1 else 0
  }

  function WritesLeft(t: Thread): nat { Writes(t.ops) }

  predicate Careful(c: Resource, t: Thread, counter: int) {
    && Guarded(c, c in t.held, t.loaded, t.ops)
    && (t.loaded ==> Holds(t, c) && t.reg == counter)
  }

  predicate AllCareful(c: Resource, s: State) {
    forall i :: 0 <= i < |s.threads| ==> Careful(c, s.threads[i], s.counter)
  }

  lemma CarefulStep(c: Resource, s: State, e: Event)
    requires AllCareful(c, s) && Enabled(s, e) && ExclusivelyHeld(s.threads)
    ensures AllCareful(c, Apply(s, e))
    ensures Apply(s, e).counter + Total(WritesLeft, Apply(s, e).threads) == s.counter + Total(WritesLeft, s.threads)
  {
    StepFrame(s, e);
    var u := Apply(s, e);
    assert Careful(c, s.threads[e.i], s.counter);
    forall j | 0 <= j < |u.threads| ensures Careful(c, u.threads[j], u.counter) {
      assert Careful(c, s.threads[j], s.counter);
      if j != e.i {
        assert SameClient(s.threads[j], u.threads[j]);
        assert e.Store? ==> Holds(s.threads[e.i], c);
      }
    }
    WritesStep(s, e);
  }

  lemma WritesStep(s: State, e: Event)
    requires Enabled(s, e)
    ensures Total(WritesLeft, Apply(s, e).threads) + (if e.Store? then 1 else 0) == Total(WritesLeft, s.threads)
  {
    var ts, us := s.threads, Apply(s, e).threads;
    var base := if e.Free? then WakeAll(ts) else ts;
    if e.Free? {
      TotalGrowth(WritesLeft, ts, base, 0);
      TotalGrowth(WritesLeft, base, ts, 0);
    }
    assert us == base[e.i := us[e.i]] && base[e.i] == ts[e.i];
    TotalUpdate(WritesLeft, base, e.i, us[e.i]);
  }

  lemma {:induction false} CarefulRun(c: Resource, s: State, es: seq<Event>, t: State)
    requires Tidy(s) && AllCareful(c, s) && Exec(s, es) == Some(t)
    ensures AllCareful(c, t)
    ensures t.counter + Total(WritesLeft, t.threads) == s.counter + Total(WritesLeft, s.threads)
  {
    if |es| > 0 {
      var before := Exec(s, es[..|es| - 1]).value;
      CarefulRun(c, s, es[..|es| - 1], before);
      TidyRun(s, es[..|es| - 1], before);
      ExactIsExclusive(before.threads, before.owners);
      CarefulStep(c, before, es[|es| - 1]);
    }
  }

  /** k rounds of acquire, read, write, release. */
  function Rounds(c: Resource, k: nat): seq<Op> {
    if k == 0 then [] else [Acquire(c), Read, Write, Release(c)] + Rounds(c, k - 1)
  }

  /** The operations that remain when j operations of the current round are done. */
  function Remaining(c: Resource, rest: seq<Op>, j: nat): seq<Op> {
    match j
    case 0 => [Acquire(c), Read, Write, Release(c)] + rest
    case 1 => [Read, Write, Release(c)] + rest
    case 2 => [Write, Release(c)] + rest
    case 3 => [Release(c)] + rest
    case _ => rest
  }

  lemma RoundShape(c: Resource, rest: seq<Op>, j: nat)
    requires j < 4
    ensures Remaining(c, rest, j)[1..] == Remaining(c, rest, j + 1)
    ensures Remaining(c, rest, j)[0] == [Acquire(c), Read, Write, Release(c)][j]
  {
  }

  lemma {:induction false} RoundsOrdered(rank: Resource -> int, c: Resource, k: nat)
    ensures Ordered(rank, {}, Rounds(c, k)) && HeldAtEnd({}, Rounds(c, k)) == {}
  {
    if k > 0 {
      var rest := Rounds(c, k - 1);
      RoundsOrdered(rank, c, k - 1);
      RoundShape(c, rest, 0);
      RoundShape(c, rest, 1);
      RoundShape(c, rest, 2);
      RoundShape(c, rest, 3);
      assert {c} - {c} == {} && {} + {c} == {c};
      assert Ordered(rank, {c}, Remaining(c, rest, 3)) && HeldAtEnd({c}, Remaining(c, rest, 3)) == {};
      assert Ordered(rank, {c}, Remaining(c, rest, 2)) && HeldAtEnd({c}, Remaining(c, rest, 2)) == {};
      assert Ordered(rank, {c}, Remaining(c, rest, 1)) && HeldAtEnd({c}, Remaining(c, rest, 1)) == {};
    }
  }

  lemma {:induction false} RoundsGuarded(c: Resource, k: nat)
    ensures Guarded(c, false, false, Rounds(c, k)) && Writes(Rounds(c, k)) == k
  {
    if k > 0 {
      var rest := Rounds(c, k - 1);
      RoundsGuarded(c, k - 1);
      RoundShape(c, rest, 0);
      RoundShape(c, rest, 1);
      RoundShape(c, rest, 2);
      RoundShape(c, rest, 3);
      assert Guarded(c, true, false, Remaining(c, rest, 3)) && Writes(Remaining(c, rest, 3)) == k - 1;
      assert Guarded(c, true, true, Remaining(c, rest, 2)) && Writes(Remaining(c, rest, 2)) == k;
      assert Guarded(c, true, false, Remaining(c, rest, 1)) && Writes(Remaining(c, rest, 1)) == k;
    }
  }

  /** A single lock needs no ordering. */
  function Flat(r: Resource): int { 0 }

  /** N threads with distinct ids, each about to run k rounds on an unlocked counter. */
  predicate Incrementers(s: State, c: Resource, k: nat) {
    && Fresh(s) && s.counter == 0
    && forall i :: 0 <= i < |s.threads| ==> s.threads[i].ops == Rounds(c, k)
  }

  lemma IncrementersStart(s: State, c: Resource, k: nat)
    requires Incrementers(s, c, k)
    ensures Start(Flat, s) && AllEndFree(s.threads) && AllCareful(c, s) && Total(WritesLeft, s.threads) == k * |s.threads|
  {
    RoundsOrdered(Flat, c, k);
    RoundsGuarded(c, k);
    TotalOfEqual(WritesLeft, s.threads, k);
  }

  /** No lost update: every complete run of N threads with k rounds each leaves the counter at N * k. */
  lemma NoLostUpdate(s: State, c: Resource, k: nat, es: seq<Event>, t: State)
    requires Incrementers(s, c, k) && Exec(s, es) == Some(t) && Finished(t)
    ensures t.counter == |s.threads| * k
  {
    IncrementersStart(s, c, k);
    StartIsOrderly(Flat, s);
    CarefulRun(c, s, es, t);
    TotalOfEqual(WritesLeft, t.threads, 0);
  }

  /** And an incomplete run can always go on; with RunIsBounded, every fair run is complete in the end. */
  lemma IncrementersProceed(s: State, c: Resource, k: nat, es: seq<Event>, t: State)
    requires Incrementers(s, c, k) && Exec(s, es) == Some(t) && !Finished(t)
    ensures !AtRest(t)
  {
    IncrementersStart(s, c, k);
    NoDeadlock(Flat, s, es, t);
  }

  // ---------------------------------------------------------------- spurious wakeups

  /** A spurious wakeup leads back to the same state, once the thread has looked at its lock again. */
  lemma SpuriousIsHarmless(s: State, es: seq<Event>, t: State, i: nat)
    requires Sound(s) && Exec(s, es) == Some(t) && i < |t.threads| && t.threads[i].phase.Asleep? && t.mutex.None?
    ensures Exec(t, [Spurious(i), Relock(i), Block(i)]) == Some(t)
  {
    SoundRun(s, es, t);
    var t1 := Apply(t, Spurious(i));
    var t2 := Apply(t1, Relock(i));
    assert Apply(t2, Block(i)).threads == t.threads;
    ExecOne(t, [], t, Spurious(i));
    ExecOne(t, [Spurious(i)], t1, Relock(i));
    ExecOne(t, [Spurious(i), Relock(i)], t2, Block(i));
    assert [] + [Spurious(i)] == [Spurious(i)] && [Spurious(i)] + [Relock(i)] == [Spurious(i), Relock(i)];
    assert [Spurious(i), Relock(i)] + [Block(i)] == [Spurious(i), Relock(i), Block(i)];
  }
}
