// Why the counter needs the lock: which values increments without it can leave.
module Unlocked {
  import opened LockMachine
  import opened Totals
  import opened Wrappers

  predicate Reads(t: Thread) { t.phase.Outside? && t.ops == [Read, Write] }

  predicate Has(t: Thread, v: int) { t.phase.Outside? && t.ops == [Write] && t.reg == v }

  predicate Ended(t: Thread) { t.phase.Outside? && t.ops == [] }

  /** Threads each about to read the counter and to write one more, without a lock. */
  predicate Racers(s: State) {
    s.counter == 0 && |s.threads| > 0 && forall i :: 0 <= i < |s.threads| ==> Reads(s.threads[i])
  }

  // ---------------------------------------------------------------- a run for each value

  /** Of n threads the first a have ended, those up to b have read v, and the others have not begun. */
  predicate Stage(t: State, n: nat, a: nat, b: nat, v: int) {
    && a <= b <= n == |t.threads|
    && (forall i :: 0 <= i < a ==> Ended(t.threads[i]))
    && (forall i :: a <= i < b ==> Has(t.threads[i], v))
    && (forall i :: b <= i < n ==> Reads(t.threads[i]))
  }

  lemma OneLoads(s: State, es: seq<Event>, t: State, n: nat, a: nat, b: nat, v: int) returns (u: State)
    requires Exec(s, es) == Some(t) && Stage(t, n, a, b, v) && b < n && t.counter == v
    ensures Exec(s, es + [Load(b)]) == Some(u) && Stage(u, n, a, b + 1, v) && u.counter == v
  {
    ExecOne(s, es, t, Load(b));
    u := Apply(t, Load(b));
  }

  lemma OneStores(s: State, es: seq<Event>, t: State, n: nat, a: nat, b: nat, v: int) returns (u: State)
    requires Exec(s, es) == Some(t) && Stage(t, n, a, b, v) && a < b
    ensures Exec(s, es + [Store(a)]) == Some(u) && Stage(u, n, a + 1, b, v) && u.counter == v + 1
  {
    ExecOne(s, es, t, Store(a));
    u := Apply(t, Store(a));
  }

  /** The first k threads one after the other. */
  lemma {:induction false} OneByOne(s: State, k: nat) returns (es: seq<Event>, t: State)
    requires Racers(s) && k < |s.threads|
    ensures Exec(s, es) == Some(t) && Stage(t, |s.threads|, k, k, k) && t.counter == k
  {
    if k == 0 {
      es, t := [], s;
    } else {
      es, t := OneByOne(s, k - 1);
      t := OneLoads(s, es, t, |s.threads|, k - 1, k - 1, k - 1);
      es := es + [Load(k - 1)];
      t := OneStores(s, es, t, |s.threads|, k - 1, k, k - 1);
      es := es + [Store(k - 1)];
    }
  }

  /** Then all others up to b read. */
  lemma {:induction false} AllLoad(s: State, k: nat, b: nat) returns (es: seq<Event>, t: State)
    requires Racers(s) && k < |s.threads| && k <= b <= |s.threads|
    ensures Exec(s, es) == Some(t) && Stage(t, |s.threads|, k, b, k) && t.counter == k
  {
    if b == k {
      es, t := OneByOne(s, k);
    } else {
      es, t := AllLoad(s, k, b - 1);
      t := OneLoads(s, es, t, |s.threads|, k, b - 1, k);
      es := es + [Load(b - 1)];
    }
  }

  /** Then those up to a write, each the same. */
  lemma {:induction false} AllStore(s: State, k: nat, a: nat) returns (es: seq<Event>, t: State)
    requires Racers(s) && k < a <= |s.threads|
    ensures Exec(s, es) == Some(t) && Stage(t, |s.threads|, a, |s.threads|, k) && t.counter == k + 1
  {
    if a == k + 1 {
      es, t := AllLoad(s, k, |s.threads|);
    } else {
      es, t := AllStore(s, k, a - 1);
    }
    t := OneStores(s, es, t, |s.threads|, a - 1, |s.threads|, k);
    es := es + [Store(a - 1)];
  }

  // ---------------------------------------------------------------- and no other

  function HasEnded(t: Thread): nat { if t.ops == [] then 1 else 0 }

  function Stores(s: State): nat { Total(HasEnded, s.threads) }

  predicate Racing(t: Thread, most: int) { Reads(t) || Ended(t) || (Has(t, t.reg) && 0 <= t.reg <= most) }

  /** The counter, and what has been read of it, is at most the number of writes, and not 0 after one. */
  predicate Within(s: State) {
    && 0 <= s.counter <= Stores(s) && (Stores(s) > 0 ==> s.counter > 0)
    && forall i :: 0 <= i < |s.threads| ==> Racing(s.threads[i], Stores(s))
  }

  lemma WithinStep(s: State, e: Event)
    requires Within(s) && Enabled(s, e)
    ensures Within(Apply(s, e)) && |Apply(s, e).threads| == |s.threads|
  {
    var t := Apply(s, e);
    assert Racing(s.threads[e.i], Stores(s)) && (e.Load? || e.Store?);
    TotalUpdate(HasEnded, s.threads, e.i, t.threads[e.i]);
    forall i | 0 <= i < |t.threads| ensures Racing(t.threads[i], Stores(t)) {
      assert Racing(s.threads[i], Stores(s));
    }
  }

  lemma {:induction false} WithinRun(s: State, es: seq<Event>, t: State)
    requires Racers(s) && Exec(s, es) == Some(t)
    ensures Within(t) && |t.threads| == |s.threads|
  {
    if |es| == 0 {
      TotalOfEqual(HasEnded, s.threads, 0);
    } else {
      var before := Exec(s, es[..|es| - 1]).value;
      WithinRun(s, es[..|es| - 1], before);
      WithinStep(before, es[|es| - 1]);
    }
  }

  predicate Leaves(s: State, es: seq<Event>, c: int) {
    var t := Exec(s, es);
    t.Some? && Finished(t.value) && t.value.counter == c
  }

  /** Without the lock, n threads that increment the counter once each can leave it at any value from 1 to n, and at no other. */
  lemma UnlockedLeaves(s: State, c: int)
    requires Racers(s)
    ensures (exists es :: Leaves(s, es, c)) <==> 1 <= c <= |s.threads|
  {
    if 1 <= c <= |s.threads| {
      var es, t := AllStore(s, c - 1, |s.threads|);
      assert Leaves(s, es, c);
    }
    forall es | Leaves(s, es, c) ensures 1 <= c <= |s.threads| {
      var t := Exec(s, es).value;
      WithinRun(s, es, t);
      TotalOfEqual(HasEnded, t.threads, 1);
    }
  }
}
