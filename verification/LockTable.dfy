// Exactly when the owner map of a LockManager is the set of locks its clients hold.
module LockTable {
  import opened LockMachine
  import opened LockManager
  import opened Wrappers

  /** The client never locks what it holds already. */
  predicate NeverRelocks(held: set<Resource>, ops: seq<Op>)
    decreases |ops|
  {
    |ops| == 0 ||
    match ops[0]
    case Acquire(r) => r !in held && NeverRelocks(held + {r}, ops[1..])
    case Release(r) => NeverRelocks(held - {r}, ops[1..])
    case _ => NeverRelocks(held, ops[1..])
  }

  /** Thread i, about to do something, is the only one to have locked anything. */
  ghost predicate Alone(s: State, i: nat) {
    && i < |s.threads| && s.mutex.None? && s.threads[i].phase.Outside?
    && (forall r :: r in s.owners <==> Holds(s.threads[i], r))
    && (forall r <- s.owners :: s.owners[r] == s.threads[i].id)
    && (forall j :: 0 <= j < |s.threads| && j != i ==> s.threads[j].held == {})
  }

  lemma AloneAcquires(s: State, es: seq<Event>, t: State, i: nat) returns (u: State)
    requires Exec(s, es) == Some(t) && Alone(t, i) && Wants(t.threads[i]) && !Holds(t.threads[i], t.threads[i].ops[0].r)
    ensures Exec(s, es + [Enter(i)] + [Grant(i)]) == Some(u) && Alone(u, i)
    ensures var v, r := t.threads[i], t.threads[i].ops[0].r;
            u.threads[i] == v.(ops := v.ops[1..], held := v.held + {r})
  {
    var v, r := t.threads[i], t.threads[i].ops[0].r;
    var after := v.(ops := v.ops[1..], held := v.held + {r});
    TakeFree(s, es, t, i, after);
    u := t.(threads := t.threads[i := after], owners := t.owners[r := after.id]);
  }

  /** What a release by thread i makes of a state. */
  predicate ReleasedBy(t: State, u: State, i: nat)
    requires i < |t.threads| && Frees(t.threads[i])
  {
    var v, r := t.threads[i], t.threads[i].ops[0].r;
    && |u.threads| == |t.threads| && u.mutex.None? && u.owners == Released(t.owners, r, v.id)
    && u.threads[i] == v.(phase := Outside, ops := v.ops[1..], held := v.held - {r})
    && forall j :: 0 <= j < |t.threads| && j != i ==> u.threads[j] == Wake(t.threads[j])
  }

  lemma AloneReleases(s: State, es: seq<Event>, t: State, i: nat) returns (u: State)
    requires Exec(s, es) == Some(t) && i < |t.threads| && t.mutex.None? && t.threads[i].phase.Outside? && Frees(t.threads[i])
    ensures Exec(s, es + [Enter(i)] + [Free(i)]) == Some(u) && ReleasedBy(t, u, i)
  {
    ExecOne(s, es, t, Enter(i));
    var inside := Apply(t, Enter(i));
    ExecOne(s, es + [Enter(i)], inside, Free(i));
    u := Apply(inside, Free(i));
    forall j | 0 <= j < |t.threads| && j != i ensures u.threads[j] == Wake(t.threads[j]) {
      assert inside.threads[j] == t.threads[j];
    }
  }

  lemma StillAlone(t: State, u: State, i: nat)
    requires Alone(t, i) && Frees(t.threads[i]) && ReleasedBy(t, u, i) && Holds(t.threads[i], t.threads[i].ops[0].r)
    ensures Alone(u, i)
  {
    assert u.owners == t.owners - {t.threads[i].ops[0].r};
  }

  /** A free lock released by another thread than 0 is left with a phantom owner. */
  lemma NowAPhantom(t: State, u: State, i: nat)
    requires Alone(t, i) && Frees(t.threads[i]) && ReleasedBy(t, u, i)
    requires t.threads[i].id != 0 && !Holds(t.threads[i], t.threads[i].ops[0].r)
    ensures !TableIsExact(u.threads, u.owners)
  {
    var r := t.threads[i].ops[0].r;
    assert r in u.owners;
    forall j | 0 <= j < |u.threads| ensures !Holds(u.threads[j], r) {
      assert j != i ==> u.threads[j] == Wake(t.threads[j]);
    }
  }

  /** A client that releases a lock it does not hold gets there by itself and leaves a phantom owner. */
  lemma {:induction false} AloneBreaksTheTable(s: State, es: seq<Event>, t: State, i: nat) returns (fs: seq<Event>, u: State)
    requires Exec(s, es) == Some(t) && Alone(t, i) && t.threads[i].id != 0
    requires NeverRelocks(t.threads[i].held, t.threads[i].ops) && !ReleasesHeld(t.threads[i].held, t.threads[i].ops)
    ensures Exec(s, fs) == Some(u) && !TableIsExact(u.threads, u.owners)
    decreases |t.threads[i].ops|
  {
    var v := t.threads[i];
    match v.ops[0]
    case Acquire(r) =>
      var next := AloneAcquires(s, es, t, i);
      fs, u := AloneBreaksTheTable(s, es + [Enter(i)] + [Grant(i)], next, i);
    case Release(r) =>
      var next := AloneReleases(s, es, t, i);
      if Holds(v, r) {
        StillAlone(t, next, i);
        fs, u := AloneBreaksTheTable(s, es + [Enter(i)] + [Free(i)], next, i);
      } else {
        fs, u := es + [Enter(i)] + [Free(i)], next;
        NowAPhantom(t, u, i);
      }
    case Read =>
      ExecOne(s, es, t, Load(i));
      fs, u := AloneBreaksTheTable(s, es + [Load(i)], Apply(t, Load(i)), i);
    case Write =>
      ExecOne(s, es, t, Store(i));
      fs, u := AloneBreaksTheTable(s, es + [Store(i)], Apply(t, Store(i)), i);
  }

  ghost predicate AlwaysExact(s: State) {
    forall es, t :: Exec(s, es) == Some(t) ==> TableIsExact(t.threads, t.owners)
  }

  /**
   * For clients that never lock what they hold, the owner map is the set of holders in every
   * reachable state exactly when every client, thread 0 excepted, releases only what it holds.
   */
  lemma ExactExactlyWhen(s: State)
    requires Fresh(s) && forall i :: 0 <= i < |s.threads| ==> NeverRelocks({}, s.threads[i].ops)
    ensures AlwaysExact(s) <==> AllReleaseHeld(s.threads)
  {
    if AllReleaseHeld(s.threads) {
      forall es, t | Exec(s, es) == Some(t) ensures TableIsExact(t.threads, t.owners) {
        LockTableIsExact(s, es, t);
      }
    } else {
      var i :| 0 <= i < |s.threads| && s.threads[i].id != 0 && !ReleasesHeld(s.threads[i].held, s.threads[i].ops);
      assert Exec(s, []) == Some(s) && Alone(s, i);
      var es, t := AloneBreaksTheTable(s, [], s, i);
    }
  }

  // ---------------------------------------------------------------- reachable examples

  function Single(ops: seq<Op>): State { State([Thread(1, ops, Outside, {}, 0, false)], map[], None, 0) }

  /** Thread 1 locks r twice: it reaches the second acquire, which never returns. */
  lemma RelockIsReachable(r: Resource) returns (es: seq<Event>, t: State)
    ensures Exec(Single([Acquire(r), Acquire(r)]), es) == Some(t) && Sound(t)
    ensures |t.threads| == 1 && NeedsOneOf(t.threads[0], {r}) && r in t.owners && t.owners[r] == t.threads[0].id
  {
    var s := Single([Acquire(r), Acquire(r)]);
    t := AloneAcquires(s, [], s, 0);
    es := [] + [Enter(0)] + [Grant(0)];
    SoundRun(s, es, t);
  }

  /** Thread 1 releases r without having locked it: it reaches the release with r free. */
  lemma PhantomIsReachable(r: Resource) returns (es: seq<Event>, t: State)
    ensures Exec(Single([Release(r)]), es) == Some(t) && Sound(t)
    ensures |t.threads| == 1 && t.threads[0].id != 0 && Enabled(t, Free(0)) && t.threads[0].ops[0].r !in t.owners
  {
    var s := Single([Release(r)]);
    ExecOne(s, [], s, Enter(0));
    es, t := [] + [Enter(0)], Apply(s, Enter(0));
    SoundRun(s, es, t);
  }
}
