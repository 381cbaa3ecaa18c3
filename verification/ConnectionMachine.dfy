// All interleavings of clients that repeatedly get a connection, use it and release it.
module ConnectionMachine {
  import opened Totals
  import opened Wrappers

  type Conn = nat

  /** Checking holds pool_mutex; Waking has been notified and contends for it. */
  datatype Phase = Outside | Checking | Asleep | Waking | Using(conn: Conn)

  datatype Client = Client(rounds: nat, phase: Phase)

  datatype State = State(clients: seq<Client>, available: seq<Conn>, mutex: Option<nat>)

  datatype Event = Enter(i: nat) | Grab(i: nat) | Block(i: nat) | Spurious(i: nat) | Relock(i: nat) | Return(i: nat)

  predicate Enabled(s: State, e: Event) {
    e.i < |s.clients| &&
    var c := s.clients[e.i];
    match e
    case Enter(_) => c.phase.Outside? && c.rounds > 0 && s.mutex.None?
    case Grab(_) => c.phase.Checking? && s.available != []
    case Block(_) => c.phase.Checking? && s.available == []
    case Spurious(_) => c.phase.Asleep?
    case Relock(_) => c.phase.Waking? && s.mutex.None?
    case Return(_) => c.phase.Using? && c.rounds > 0 && s.mutex.None?
  }

  function Wake(c: Client): Client { if c.phase.Asleep? then c.(phase := Waking) else c }

  function WakeAll(cs: seq<Client>): (r: seq<Client>)
    ensures |r| == |cs|
  {
    seq(|cs|, i requires 0 <= i < |cs| => Wake(cs[i]))
  }

  function Apply(s: State, e: Event): State
    requires Enabled(s, e)
  {
    var c := s.clients[e.i];
    match e
    case Enter(i) => s.(clients := s.clients[i := c.(phase := Checking)], mutex := Some(i))
    case Grab(i) =>
      s.(clients := s.clients[i := c.(phase := Using(s.available[0]))], available := s.available[1..], mutex := None)
    case Block(i) => s.(clients := s.clients[i := c.(phase := Asleep)], mutex := None)
    case Spurious(i) => s.(clients := s.clients[i := c.(phase := Waking)])
    case Relock(i) => s.(clients := s.clients[i := c.(phase := Checking)], mutex := Some(i))
    case Return(i) =>
      s.(clients := WakeAll(s.clients)[i := Client(c.rounds - 1, Outside)], available := s.available + [c.phase.conn])
  }

  function Exec(s: State, es: seq<Event>): Option<State> {
    if |es| == 0 then Some(s)
    else
      var last, before := es[|es| - 1], Exec(s, es[..|es| - 1]);
      if before.Some? && Enabled(before.value, last) then Some(Apply(before.value, last)) else None
  }

  // ---------------------------------------------------------------- conservation

  function UsesOf(conn: Conn): Client -> nat {
    (c: Client) => if c.phase == Using(conn) then 1 else 0
  }

  /** How often a connection occurs, in the queue and in the hands of clients. */
  function Count(s: State, conn: Conn): nat {
    multiset(s.available)[conn] + Total(UsesOf(conn), s.clients)
  }

  lemma ReturnConserves(s: State, i: nat, conn: Conn)
    requires Enabled(s, Return(i))
    ensures Count(Apply(s, Return(i)), conn) == Count(s, conn)
  {
    var t, f, woken := Apply(s, Return(i)), UsesOf(conn), WakeAll(s.clients);
    TotalGrowth(f, s.clients, woken, 0);
    TotalGrowth(f, woken, s.clients, 0);
    assert t.clients == woken[i := t.clients[i]] && f(woken[i]) == f(s.clients[i]);
    TotalUpdate(f, woken, i, t.clients[i]);
    assert multiset(t.available)[conn] == multiset(s.available)[conn] + f(s.clients[i]);
  }

  lemma FrontCount(cs: seq<Conn>, conn: Conn)
    requires cs != []
    ensures multiset(cs)[conn] == multiset(cs[1..])[conn] + if cs[0] == conn then 1 else 0
  {
    assert cs == [cs[0]] + cs[1..];
  }

  lemma StepConserves(s: State, e: Event, conn: Conn)
    requires Enabled(s, e)
    ensures Count(Apply(s, e), conn) == Count(s, conn)
  {
    if e.Return? {
      ReturnConserves(s, e.i, conn);
    } else {
      TotalUpdate(UsesOf(conn), s.clients, e.i, Apply(s, e).clients[e.i]);
      if e.Grab? {
        FrontCount(s.available, conn);
      }
    }
  }

  /** The mutex belongs to the one client inside, and a client sleeps only while the queue is empty. */
  predicate Sound(s: State) {
    && (forall i :: 0 <= i < |s.clients| ==> (s.clients[i].phase.Checking? <==> s.mutex == Some(i)))
    && (s.mutex.Some? ==> s.mutex.value < |s.clients|)
    && (forall i :: 0 <= i < |s.clients| ==> (s.clients[i].phase.Outside? || s.clients[i].rounds > 0))
    && (forall i :: 0 <= i < |s.clients| && s.clients[i].phase.Asleep? ==> s.available == [])
  }

  lemma SoundStep(s: State, e: Event)
    requires Sound(s) && Enabled(s, e)
    ensures Sound(Apply(s, e)) && |Apply(s, e).clients| == |s.clients|
  {
    var t := Apply(s, e);
    if e.Return? {
      forall j | 0 <= j < |s.clients| && j != e.i ensures t.clients[j] == Wake(s.clients[j]) {
      }
    }
  }

  predicate Fresh(s: State) {
    s.mutex.None? && forall i :: 0 <= i < |s.clients| ==> s.clients[i].phase.Outside?
  }

  lemma {:induction false} SoundRun(s: State, es: seq<Event>, t: State)
    requires Sound(s) && Exec(s, es) == Some(t)
    ensures Sound(t) && |t.clients| == |s.clients|
  {
    if |es| > 0 {
      var before := Exec(s, es[..|es| - 1]).value;
      SoundRun(s, es[..|es| - 1], before);
      SoundStep(before, es[|es| - 1]);
    }
  }

  lemma {:induction false} CountRun(s: State, es: seq<Event>, t: State, conn: Conn)
    requires Exec(s, es) == Some(t)
    ensures Count(t, conn) == Count(s, conn)
  {
    if |es| > 0 {
      var before := Exec(s, es[..|es| - 1]).value;
      CountRun(s, es[..|es| - 1], before, conn);
      StepConserves(before, es[|es| - 1], conn);
    }
  }

  /**
   * In every reachable state each connection is free or checked out exactly as often as the pool
   * was given it, and a client sleeps only while no connection is free.
   */
  lemma PoolIsConserved(s: State, es: seq<Event>, t: State, conn: Conn)
    requires Fresh(s) && Exec(s, es) == Some(t)
    ensures multiset(t.available)[conn] + Total(UsesOf(conn), t.clients) == multiset(s.available)[conn]
    ensures forall c <- t.clients :: c.phase.Asleep? ==> t.available == []
  {
    SoundRun(s, es, t);
    CountRun(s, es, t, conn);
    TotalOfEqual(UsesOf(conn), s.clients, 0);
  }

  predicate Distinct(cs: seq<Conn>) {
    forall a, b :: 0 <= a < b < |cs| ==> cs[a] != cs[b]
  }

  /** With distinct connections, none is both free and in use, and none is used by two clients. */
  lemma NoConnectionShared(s: State, es: seq<Event>, t: State, i: nat, j: nat)
    requires Fresh(s) && Exec(s, es) == Some(t) && Distinct(s.available)
    requires i < |t.clients| && t.clients[i].phase.Using?
    ensures t.clients[i].phase.conn !in t.available
    ensures i < j < |t.clients| ==> t.clients[j].phase != t.clients[i].phase
  {
    var c := t.clients[i].phase.conn;
    PoolIsConserved(s, es, t, c);
    DistinctMultiplicity(s.available, c);
    TotalAtLeast(UsesOf(c), t.clients, i);
    assert multiset(t.available)[c] == 0;
    if i < j < |t.clients| {
      TotalOfTwo(UsesOf(c), t.clients, i, j);
    }
  }

  lemma {:induction false} DistinctMultiplicity(cs: seq<Conn>, c: Conn)
    requires Distinct(cs)
    ensures multiset(cs)[c] <= 1
  {
    if |cs| > 0 {
      assert cs == [cs[0]] + cs[1..];
      DistinctMultiplicity(cs[1..], c);
      assert c == cs[0] ==> c !in cs[1..];
    }
  }

  // ---------------------------------------------------------------- first in, first out

  /** The connection a client came to use by an event. */
  function HandedBy(e: Event, t: State): seq<Conn> {
    if e.Grab? && e.i < |t.clients| && t.clients[e.i].phase.Using? then [t.clients[e.i].phase.conn] else []
  }

  /** The connection a client gives back by an event. */
  function BackBy(s: State, e: Event): seq<Conn>
    requires Enabled(s, e)
  {
    if e.Return? then [s.clients[e.i].phase.conn] else []
  }

  /** The connections clients came to use, in order. */
  function Handed(s: State, es: seq<Event>): seq<Conn>
    requires Exec(s, es).Some?
  {
    if |es| == 0 then [] else Handed(s, es[..|es| - 1]) + HandedBy(es[|es| - 1], Exec(s, es).value)
  }

  /** The connections clients gave back, in order. */
  function GivenBack(s: State, es: seq<Event>): seq<Conn>
    requires Exec(s, es).Some?
  {
    if |es| == 0 then [] else GivenBack(s, es[..|es| - 1]) + BackBy(Exec(s, es[..|es| - 1]).value, es[|es| - 1])
  }

  lemma InOrderStep(s: State, e: Event)
    requires Enabled(s, e)
    ensures s.available + BackBy(s, e) == HandedBy(e, Apply(s, e)) + Apply(s, e).available
  {
  }

  lemma Regroup(x: seq<Conn>, given: seq<Conn>, back: seq<Conn>, handed: seq<Conn>, now: seq<Conn>, more: seq<Conn>, left: seq<Conn>)
    requires x + given == handed + now && now + back == more + left
    ensures x + (given + back) == (handed + more) + left
  {
    assert x + (given + back) == (x + given) + back;
    assert (handed + now) + back == handed + (now + back);
  }

  /**
   * Connections are handed out in the order in which they were queued: the pool's first ones, then those
   * given back, in order; what has not been handed out is still in the queue.
   */
  lemma {:induction false} HandedInOrder(s: State, es: seq<Event>, t: State)
    requires Exec(s, es) == Some(t)
    ensures s.available + GivenBack(s, es) == Handed(s, es) + t.available
  {
    if |es| > 0 {
      var before, e := Exec(s, es[..|es| - 1]).value, es[|es| - 1];
      HandedInOrder(s, es[..|es| - 1], before);
      InOrderStep(before, e);
      Regroup(s.available, GivenBack(s, es[..|es| - 1]), BackBy(before, e),
              Handed(s, es[..|es| - 1]), before.available, HandedBy(e, t), t.available);
    }
  }

  // ---------------------------------------------------------------- completion

  predicate Finished(s: State) {
    forall i :: 0 <= i < |s.clients| ==> s.clients[i].rounds == 0
  }

  /** Some connection of the pool is somewhere. */
  predicate Stocked(s: State, conn: Conn) { Count(s, conn) > 0 }

  lemma CanProceed(s: State, conn: Conn) returns (e: Event)
    requires Sound(s) && Stocked(s, conn) && !Finished(s)
    ensures Enabled(s, e) && !e.Spurious?
  {
    if s.mutex.Some? {
      e := if s.available == [] then Block(s.mutex.value) else Grab(s.mutex.value);
    } else if i :| 0 <= i < |s.clients| && s.clients[i].rounds > 0 && s.clients[i].phase.Outside? {
      e := Enter(i);
    } else if i :| 0 <= i < |s.clients| && s.clients[i].phase.Waking? {
      e := Relock(i);
    } else {
      var i :| 0 <= i < |s.clients| && s.clients[i].rounds > 0;
      if s.clients[i].phase.Using? {
        e := Return(i);
      } else {
        assert s.clients[i].phase.Asleep?;
        var u := TotalPositive(UsesOf(conn), s.clients);
        e := Return(u);
      }
    }
  }

  function PhaseWeight(c: Client): nat {
    match c.phase
    case Asleep => 0
    case Checking => 1
    case Waking => 2
    case Using(_) => 0
    case Outside => 3
  }

  function RoundsLeft(c: Client): nat { c.rounds }

  function Measure(s: State): nat {
    (2 * |s.clients| + 4) * Total(RoundsLeft, s.clients) + Total(PhaseWeight, s.clients)
  }

  lemma PhaseMeasure(s: State, e: Event)
    requires Enabled(s, e) && !e.Return?
    ensures |Apply(s, e).clients| == |s.clients|
    ensures Measure(Apply(s, e)) < Measure(s) + if e.Spurious? then 3 else 0
  {
    var c := Apply(s, e).clients[e.i];
    TotalUpdate(PhaseWeight, s.clients, e.i, c);
    TotalUpdate(RoundsLeft, s.clients, e.i, c);
  }

  lemma Product(w: nat, x: nat)
    ensures w * (x + 1) == w * x + w
  {
  }

  lemma ReturnMeasure(s: State, i: nat)
    requires Enabled(s, Return(i))
    ensures |Apply(s, Return(i)).clients| == |s.clients| && Measure(Apply(s, Return(i))) < Measure(s)
  {
    var woken, c := WakeAll(s.clients), Client(s.clients[i].rounds - 1, Outside);
    TotalGrowth(PhaseWeight, s.clients, woken, 2);
    TotalGrowth(RoundsLeft, s.clients, woken, 0);
    TotalGrowth(RoundsLeft, woken, s.clients, 0);
    TotalUpdate(PhaseWeight, woken, i, c);
    TotalUpdate(RoundsLeft, woken, i, c);
    Product(2 * |s.clients| + 4, Total(RoundsLeft, woken[i := c]));
  }

  function SpuriousCount(es: seq<Event>): nat {
    if |es| == 0 then 0 else SpuriousCount(es[..|es| - 1]) + if es[|es| - 1].Spurious? then 1 else 0
  }

  /** A run is no longer than its start allows, plus three steps for each spurious wakeup. */
  lemma {:induction false} RunIsBounded(s: State, es: seq<Event>, t: State)
    requires Exec(s, es) == Some(t)
    ensures |es| + Measure(t) <= Measure(s) + 3 * SpuriousCount(es)
  {
    if |es| > 0 {
      var before, e := Exec(s, es[..|es| - 1]).value, es[|es| - 1];
      RunIsBounded(s, es[..|es| - 1], before);
      if e.Return? {
        ReturnMeasure(before, e.i);
      } else {
        PhaseMeasure(before, e);
      }
    }
  }

  /** With at least one connection a run that is not complete can go on. */
  lemma ClientsProceed(s: State, es: seq<Event>, t: State)
    requires Fresh(s) && s.available != [] && Exec(s, es) == Some(t) && !Finished(t)
    ensures exists e :: Enabled(t, e) && !e.Spurious?
  {
    SoundRun(s, es, t);
    CountRun(s, es, t, s.available[0]);
    var e := CanProceed(t, s.available[0]);
  }

  /** When every client has finished, the pool holds its original connections again. */
  lemma PoolIsFullAgain(s: State, es: seq<Event>, t: State)
    requires Fresh(s) && Exec(s, es) == Some(t) && Finished(t)
    ensures multiset(t.available) == multiset(s.available)
  {
    SoundRun(s, es, t);
    forall c ensures multiset(t.available)[c] == multiset(s.available)[c] {
      PoolIsConserved(s, es, t, c);
      TotalOfEqual(UsesOf(c), t.clients, 0);
    }
  }

  lemma {:induction false} ExecAppend(s: State, es: seq<Event>, t: State, fs: seq<Event>)
    requires Exec(s, es) == Some(t)
    ensures Exec(s, es + fs) == Exec(t, fs)
  {
    if |fs| == 0 {
      assert es + fs == es;
    } else {
      ExecAppend(s, es, t, fs[..|fs| - 1]);
      assert (es + fs)[..|es + fs| - 1] == es + fs[..|fs| - 1];
    }
  }

  lemma {:induction false} Complete(s: State, conn: Conn) returns (es: seq<Event>, t: State)
    requires Sound(s) && Stocked(s, conn)
    ensures Exec(s, es) == Some(t) && Finished(t)
    decreases Measure(s)
  {
    if Finished(s) {
      es, t := [], s;
    } else {
      var e := CanProceed(s, conn);
      var next := Apply(s, e);
      if e.Return? {
        ReturnMeasure(s, e.i);
      } else {
        PhaseMeasure(s, e);
      }
      SoundStep(s, e);
      StepConserves(s, e, conn);
      es, t := Complete(next, conn);
      assert [e][..0] == [];
      ExecAppend(s, [e], next, es);
      es := [e] + es;
    }
  }

  lemma {:induction false} EmptyPoolServesNobody(s: State, es: seq<Event>, t: State, i: nat)
    requires Fresh(s) && s.available == [] && Exec(s, es) == Some(t) && i < |s.clients|
    ensures |t.clients| == |s.clients| && t.available == [] && t.clients[i].rounds == s.clients[i].rounds
    ensures forall j :: 0 <= j < |t.clients| ==> !t.clients[j].phase.Using?
  {
    if |es| > 0 {
      EmptyPoolServesNobody(s, es[..|es| - 1], Exec(s, es[..|es| - 1]).value, i);
    }
  }

  predicate Completes(s: State, es: seq<Event>) {
    var t := Exec(s, es);
    t.Some? && Finished(t.value)
  }

  /** All clients can finish exactly when the pool has a connection, or nobody wants one. */
  lemma CompletesExactlyWhen(s: State)
    requires Fresh(s)
    ensures (exists es :: Completes(s, es)) <==> s.available != [] || Finished(s)
  {
    if s.available != [] {
      var es, t := Complete(s, s.available[0]);
      assert Completes(s, es);
    } else if Finished(s) {
      assert Completes(s, []);
    } else {
      var i :| 0 <= i < |s.clients| && s.clients[i].rounds != 0;
      forall es ensures !Completes(s, es) {
        if Exec(s, es).Some? {
          EmptyPoolServesNobody(s, es, Exec(s, es).value, i);
        }
      }
    }
  }

  /** A spurious wakeup leads back to the same state, once the client has looked at the queue again. */
  lemma SpuriousIsHarmless(s: State, es: seq<Event>, t: State, i: nat)
    requires Fresh(s) && Exec(s, es) == Some(t) && i < |t.clients| && t.clients[i].phase.Asleep? && t.mutex.None?
    ensures Exec(t, [Spurious(i), Relock(i), Block(i)]) == Some(t)
  {
    SoundRun(s, es, t);
    var t1 := Apply(t, Spurious(i));
    var t2 := Apply(t1, Relock(i));
    assert Apply(t2, Block(i)).clients == t.clients;
    assert [Spurious(i), Relock(i), Block(i)][..2] == [Spurious(i), Relock(i)];
    assert [Spurious(i), Relock(i)][..1] == [Spurious(i)];
    assert [Spurious(i)][..0] == [];
    assert Exec(t, [Spurious(i)]) == Some(t1);
    assert Exec(t, [Spurious(i), Relock(i)]) == Some(t2);
  }
}
