// When clients that each take two nested locks can deadlock: exactly when no order of the
// resources fits them all.
module LockDeadlock {
  import opened LockMachine
  import opened LockManager
  import opened Wrappers

  datatype Pair = Pair(outer: Resource, inner: Resource)

  /** Two locks taken and released, the first one first. */
  function Nested(p: Pair): seq<Op> {
    [Acquire(p.outer), Acquire(p.inner), Release(p.inner), Release(p.outer)]
  }

  /** Client i is about to run Nested(ps[i]); nothing is locked yet. */
  function Nesting(ps: seq<Pair>): State {
    State(seq(|ps|, i requires 0 <= i < |ps| => Client(ps[i], i, false)), map[], None, 0)
  }

  /** Client i at its start, or with its outer lock taken. */
  function Client(p: Pair, i: nat, taken: bool): Thread {
    if taken then Thread(i + 1, Nested(p)[1..], Outside, {p.outer}, 0, false)
    else Thread(i + 1, Nested(p), Outside, {}, 0, false)
  }

  /** An order of the resources that every client follows. */
  predicate Fits(rank: Resource -> int, ps: seq<Pair>) {
    forall i :: 0 <= i < |ps| ==> rank(ps[i].outer) < rank(ps[i].inner)
  }

  /** Some run ends with work left that nobody can do. */
  ghost predicate Deadlocks(ps: seq<Pair>, es: seq<Event>) {
    var t := Exec(Nesting(ps), es);
    t.Some? && AtRest(t.value) && !Finished(t.value)
  }

  // ---------------------------------------------------------------- an order or a ring

  /** Clients each of which wants as its inner lock the outer lock of the next. */
  predicate Chain(ps: seq<Pair>, p: seq<nat>) {
    && |p| > 0 && (forall k :: 0 <= k < |p| ==> p[k] < |ps|)
    && (forall k :: 0 <= k < |p| - 1 ==> Linked(ps, p[k], p[k + 1]))
  }

  predicate Linked(ps: seq<Pair>, i: nat, j: nat) {
    i < |ps| && j < |ps| && ps[i].inner == ps[j].outer
  }

  predicate Ring(ps: seq<Pair>, p: seq<nat>) { Chain(ps, p) && Linked(ps, p[|p| - 1], p[0]) }

  predicate Leads(ps: seq<Pair>, p: seq<nat>, x: Resource, y: Resource) {
    Chain(ps, p) && ps[p[0]].outer == x && ps[p[|p| - 1]].inner == y
  }

  ghost predicate Reaches(ps: seq<Pair>, x: Resource, y: Resource) {
    x == y || exists p :: Leads(ps, p, x, y)
  }

  lemma ReachesOn(ps: seq<Pair>, x: Resource, i: nat)
    requires i < |ps| && Reaches(ps, x, ps[i].outer)
    ensures Reaches(ps, x, ps[i].inner)
  {
    if x == ps[i].outer {
      assert Leads(ps, [i], x, ps[i].inner);
    } else {
      var p :| Leads(ps, p, x, ps[i].outer);
      var q := p + [i];
      forall k | 0 <= k < |q| - 1 ensures Linked(ps, q[k], q[k + 1]) {
        assert k < |p| - 1 ==> Linked(ps, p[k], p[k + 1]);
      }
      assert Leads(ps, q, x, ps[i].inner);
    }
  }

  /** Lifts everything reachable from x by m. */
  ghost function Lifted(rank: Resource -> int, ps: seq<Pair>, x: Resource, m: int): Resource -> int {
    (r: Resource) => if Reaches(ps, x, r) then rank(r) + m else rank(r)
  }

  lemma ChainOfMore(ps: seq<Pair>, last: Pair, p: seq<nat>)
    requires Chain(ps, p)
    ensures Chain(ps + [last], p)
  {
    forall k | 0 <= k < |p| - 1 ensures Linked(ps + [last], p[k], p[k + 1]) {
      assert Linked(ps, p[k], p[k + 1]);
    }
  }

  /** One more client either closes a ring or leaves room for an order. */
  lemma OneMoreClient(ps: seq<Pair>, last: Pair, rank: Resource -> int) returns (better: Resource -> int, p: seq<nat>)
    requires Fits(rank, ps)
    ensures Fits(better, ps + [last]) || Ring(ps + [last], p)
  {
    var qs := ps + [last];
    better, p := rank, [];
    if last.inner == last.outer {
      p := [|ps|];
    } else if q :| Leads(ps, q, last.inner, last.outer) {
      p := [|ps|] + q;
      ChainOfMore(ps, last, q);
      forall k | 0 <= k < |p| - 1 ensures Linked(qs, p[k], p[k + 1]) {
        assert k > 0 ==> Linked(qs, q[k - 1], q[k]);
      }
    } else {
      var gap := rank(last.outer) - rank(last.inner) + 1;
      var m := if gap > 0 then gap else 0;
      better := Lifted(rank, ps, last.inner, m);
      forall i | 0 <= i < |qs| ensures better(qs[i].outer) < better(qs[i].inner) {
        if i < |ps| && Reaches(ps, last.inner, ps[i].outer) {
          ReachesOn(ps, last.inner, i);
        }
      }
    }
  }

  lemma {:induction false} OrderOrRing(ps: seq<Pair>) returns (rank: Resource -> int, p: seq<nat>)
    ensures Fits(rank, ps) || Ring(ps, p)
    decreases |ps|
  {
    if |ps| == 0 {
      rank, p := Flat, [];
    } else {
      var front, last := ps[..|ps| - 1], ps[|ps| - 1];
      rank, p := OrderOrRing(front);
      assert ps == front + [last];
      if Fits(rank, front) {
        rank, p := OneMoreClient(front, last, rank);
      } else {
        ChainOfMore(front, last, p);
      }
    }
  }

  /** No outer lock occurs twice. */
  predicate Simple(ps: seq<Pair>, p: seq<nat>)
    requires Chain(ps, p)
  {
    forall j, k :: 0 <= j < k < |p| ==> ps[p[j]].outer != ps[p[k]].outer
  }

  lemma {:induction false} SimpleRing(ps: seq<Pair>, p: seq<nat>) returns (q: seq<nat>)
    requires Ring(ps, p)
    ensures Ring(ps, q) && Simple(ps, q)
    decreases |p|
  {
    if Simple(ps, p) {
      q := p;
    } else {
      var j, k :| 0 <= j < k < |p| && ps[p[j]].outer == ps[p[k]].outer;
      var inside := p[j..k];
      forall m | 0 <= m < |inside| - 1 ensures Linked(ps, inside[m], inside[m + 1]) {
        assert Linked(ps, p[j + m], p[j + m + 1]);
      }
      assert Linked(ps, p[k - 1], p[k]);
      q := SimpleRing(ps, inside);
    }
  }

  // ---------------------------------------------------------------- a ring deadlocks

  /** The owner map once the first k clients of a ring hold their outer locks. */
  function OuterOwners(ps: seq<Pair>, p: seq<nat>, k: nat): Owners
    requires Chain(ps, p) && k <= |p|
  {
    if k == 0 then map[] else OuterOwners(ps, p, k - 1)[ps[p[k - 1]].outer := p[k - 1] + 1]
  }

  function OuterTaken(ps: seq<Pair>, p: seq<nat>, k: nat): State
    requires Chain(ps, p) && k <= |p|
  {
    State(seq(|ps|, i requires 0 <= i < |ps| => Client(ps[i], i, i in p[..k])), OuterOwners(ps, p, k), None, 0)
  }

  lemma {:induction false} OwnersSoFar(ps: seq<Pair>, p: seq<nat>, k: nat)
    requires Chain(ps, p) && Simple(ps, p) && k <= |p|
    ensures forall j :: k <= j < |p| ==> ps[p[j]].outer !in OuterOwners(ps, p, k)
    ensures forall j :: 0 <= j < k ==> ps[p[j]].outer in OuterOwners(ps, p, k) && OuterOwners(ps, p, k)[ps[p[j]].outer] == p[j] + 1
  {
    if k > 0 {
      OwnersSoFar(ps, p, k - 1);
    }
  }

  /** The clients of a ring can all take their outer locks. */
  lemma {:induction false} OuterLocksTaken(ps: seq<Pair>, p: seq<nat>, k: nat) returns (es: seq<Event>)
    requires Chain(ps, p) && Simple(ps, p) && k <= |p|
    ensures Exec(Nesting(ps), es) == Some(OuterTaken(ps, p, k))
  {
    if k == 0 {
      es := [];
      assert Nesting(ps) == OuterTaken(ps, p, 0);
    } else {
      es := OuterLocksTaken(ps, p, k - 1);
      var t, i := OuterTaken(ps, p, k - 1), p[k - 1];
      OwnersSoFar(ps, p, k - 1);
      ClientTakes(ps, p, k);
      TakeFree(Nesting(ps), es, t, i, Client(ps[i], i, true));
      es := es + [Enter(i)] + [Grant(i)];
    }
  }

  lemma ClientTakes(ps: seq<Pair>, p: seq<nat>, k: nat)
    requires Chain(ps, p) && Simple(ps, p) && 0 < k <= |p|
    ensures var i, t := p[k - 1], OuterTaken(ps, p, k - 1);
            i < |ps| && t.threads[i] == Client(ps[i], i, false) &&
            t.threads[i := Client(ps[i], i, true)] == OuterTaken(ps, p, k).threads
    ensures var q := ps[p[k - 1]]; Nested(q)[0] == Acquire(q.outer) && {} + {q.outer} == {q.outer}
  {
    assert p[..k] == p[..k - 1] + [p[k - 1]];
    assert p[k - 1] !in p[..k - 1];
  }

  function OuterLocks(ps: seq<Pair>, p: seq<nat>): set<Resource>
    requires Chain(ps, p)
  {
    set k | 0 <= k < |p| :: ps[p[k]].outer
  }

  lemma NextIsOwned(ps: seq<Pair>, p: seq<nat>, k: nat)
    requires Ring(ps, p) && k < |p|
    ensures p[k] < |ps| && ps[p[k]].inner in OuterLocks(ps, p)
  {
    var next := if k < |p| - 1 then k + 1 else 0;
    assert Linked(ps, p[k], p[next]) && ps[p[next]].outer in OuterLocks(ps, p);
  }

  lemma RingNeedsItself(ps: seq<Pair>, p: seq<nat>, k: nat)
    requires Ring(ps, p) && k < |p|
    ensures p[k] < |ps| && NeedsOneOf(OuterTaken(ps, p, |p|).threads[p[k]], OuterLocks(ps, p))
  {
    NextIsOwned(ps, p, k);
    assert p[k] in p[..|p|];
    assert Nested(ps[p[k]])[1..][0] == Acquire(ps[p[k]].inner);
  }

  lemma RingIsAKnot(ps: seq<Pair>, p: seq<nat>)
    requires Ring(ps, p) && Simple(ps, p)
    ensures Knotted(OuterTaken(ps, p, |p|), OuterLocks(ps, p))
  {
    var t, knot := OuterTaken(ps, p, |p|), OuterLocks(ps, p);
    OwnersSoFar(ps, p, |p|);
    forall r | r in knot
      ensures r in t.owners
      ensures forall i :: 0 <= i < |t.threads| && t.threads[i].id == t.owners[r] ==> CannotFree(t.threads[i], knot)
    {
      var k :| 0 <= k < |p| && ps[p[k]].outer == r;
      RingNeedsItself(ps, p, k);
      forall i | 0 <= i < |t.threads| && t.threads[i].id == t.owners[r] ensures CannotFree(t.threads[i], knot) {
        assert t.threads[i].id == i + 1 && t.owners[r] == p[k] + 1;
      }
    }
  }

  /** Every state leads to one at rest. */
  lemma {:induction false} ComesToRest(t: State) returns (es: seq<Event>, u: State)
    ensures Exec(t, es) == Some(u) && AtRest(u)
    decreases Measure(t)
  {
    if AtRest(t) {
      es, u := [], t;
    } else {
      var e :| Enabled(t, e) && !e.Spurious?;
      StepMeasure(t, e);
      es, u := ComesToRest(Apply(t, e));
      ExecOne(t, [], t, e);
      ExecAppend(t, [] + [e], Apply(t, e), es);
      es := [] + [e] + es;
    }
  }

  lemma NestingIsFresh(ps: seq<Pair>)
    ensures Fresh(Nesting(ps))
  {
  }

  lemma RingDeadlocks(ps: seq<Pair>, p: seq<nat>) returns (es: seq<Event>)
    requires Ring(ps, p) && Simple(ps, p)
    ensures Deadlocks(ps, es)
  {
    var taken := OuterTaken(ps, p, |p|);
    var outer := OuterLocksTaken(ps, p, |p|);
    NestingIsFresh(ps);
    SoundRun(Nesting(ps), outer, taken);
    RingIsAKnot(ps, p);
    RingNeedsItself(ps, p, 0);
    var rest, u := ComesToRest(taken);
    ExecAppend(Nesting(ps), outer, taken, rest);
    es := outer + rest;
    KnotIsForever(taken, rest, u, OuterLocks(ps, p));
    assert StillThere(taken.threads[p[0]], u.threads[p[0]]);
  }

  // ---------------------------------------------------------------- an order does not

  lemma NestedIsOrdered(rank: Resource -> int, p: Pair)
    requires rank(p.outer) < rank(p.inner)
    ensures Ordered(rank, {}, Nested(p)) && HeldAtEnd({}, Nested(p)) == {}
  {
    var ops, a, b := Nested(p), p.outer, p.inner;
    var two, one := [Release(b), Release(a)], [Release(a)];
    assert {} + {a} == {a} && {a, b} - {b} == {a} && {a} + {b} == {a, b} && {a} - {a} == {};
    assert ops[1..] == [Acquire(b)] + two && ops[1..][1..] == two && two[1..] == one && one[1..] == [];
    assert Ordered(rank, {}, one[1..]) && HeldAtEnd({}, one[1..]) == {};
    assert Ordered(rank, {a}, one) && HeldAtEnd({a}, one) == {};
    assert Ordered(rank, {a, b}, two) && HeldAtEnd({a, b}, two) == {};
    assert Ordered(rank, {a}, ops[1..]) && HeldAtEnd({a}, ops[1..]) == {};
  }

  lemma OrderPreventsDeadlock(rank: Resource -> int, ps: seq<Pair>, es: seq<Event>)
    requires Fits(rank, ps)
    ensures !Deadlocks(ps, es)
  {
    NestingIsFresh(ps);
    forall i | 0 <= i < |ps| ensures Ordered(rank, {}, Nested(ps[i])) && HeldAtEnd({}, Nested(ps[i])) == {} {
      NestedIsOrdered(rank, ps[i]);
    }
    var t := Exec(Nesting(ps), es);
    if t.Some? && !Finished(t.value) {
      NoDeadlock(rank, Nesting(ps), es, t.value);
    }
  }

  // ---------------------------------------------------------------- the theorems

  /** Nested clients can deadlock exactly when no order of the resources fits all of them. */
  lemma DeadlockExactlyWhen(ps: seq<Pair>)
    ensures (exists es :: Deadlocks(ps, es)) <==> !exists rank :: Fits(rank, ps)
    ensures (exists es :: Deadlocks(ps, es)) <==> exists p :: Ring(ps, p)
  {
    forall rank, es | Fits(rank, ps) ensures !Deadlocks(ps, es) {
      OrderPreventsDeadlock(rank, ps, es);
    }
    forall p | Ring(ps, p) ensures exists es :: Deadlocks(ps, es) {
      var q := SimpleRing(ps, p);
      var es := RingDeadlocks(ps, q);
    }
    var rank, p := OrderOrRing(ps);
  }

  /** Two clients that each take two different locks can deadlock exactly when their orders are opposite. */
  lemma TwoClientsDeadlock(x: Pair, y: Pair)
    requires x.outer != x.inner && y.outer != y.inner
    ensures (exists es :: Deadlocks([x, y], es)) <==> y == Pair(x.inner, x.outer)
  {
    DeadlockExactlyWhen([x, y]);
    if y == Pair(x.inner, x.outer) {
      assert Linked([x, y], 0, 1) && Linked([x, y], 1, 0);
      assert Ring([x, y], [0, 1]);
    }
    forall p | Ring([x, y], p) ensures y == Pair(x.inner, x.outer) {
      assert Linked([x, y], p[|p| - 1], p[0]);
      if |p| > 1 {
        assert Linked([x, y], p[0], p[1]);
      }
    }
  }

  // ---------------------------------------------------------------- clients that keep a lock

  /** Two clients that lock a and do nothing more. */
  function Keepers(a: Resource): State {
    State([Thread(1, [Acquire(a)], Outside, {}, 0, false), Thread(2, [Acquire(a)], Outside, {}, 0, false)], map[], None, 0)
  }

  /** They are ordered, and yet one of them may be left waiting: the other has kept the lock. */
  lemma KeptLockStrands(rank: Resource -> int, a: Resource) returns (es: seq<Event>, t: State)
    ensures Start(rank, Keepers(a)) && Exec(Keepers(a), es) == Some(t)
    ensures AtRest(t) && !Finished(t) && WaitsForFinished(t, 1, 0)
  {
    var s := Keepers(a);
    var done := Thread(1, [], Outside, {a}, 0, false);
    assert [Acquire(a)][1..] == [] && {} + {a} == {a};
    TakeFree(s, [], s, 0, done);
    var s1 := s.(threads := [done, s.threads[1]], owners := map[a := 1]);
    assert s.threads[0 := done] == s1.threads;
    es, t := StrandedBehind(a, [] + [Enter(0)] + [Grant(0)], s1);
  }

  lemma StrandedBehind(a: Resource, es: seq<Event>, s: State) returns (es': seq<Event>, t: State)
    requires Exec(Keepers(a), es) == Some(s) && s.mutex.None? && s.owners == map[a := 1]
    requires s.threads == [Thread(1, [], Outside, {a}, 0, false), Keepers(a).threads[1]]
    ensures Exec(Keepers(a), es') == Some(t) && AtRest(t) && !Finished(t) && WaitsForFinished(t, 1, 0)
  {
    ExecOne(Keepers(a), es, s, Enter(1));
    var inside := Apply(s, Enter(1));
    ExecOne(Keepers(a), es + [Enter(1)], inside, Block(1));
    es', t := es + [Enter(1)] + [Block(1)], Apply(inside, Block(1));
    var waiting := Thread(2, [Acquire(a)], Asleep, {}, 0, false);
    assert t.threads == [s.threads[0], waiting] && t.owners == map[a := 1];
    assert WaitsForFinished(t, 1, 0);
    forall e | Enabled(t, e) ensures e.Spurious? {
      assert t.threads[e.i] == if e.i == 0 then s.threads[0] else waiting;
    }
    assert t.threads[1].ops != [];
  }
}
