// Two sessions at once: calls of executeTransaction overlap, and other sessions' broadcasts come
// between a session's "Mutex Locked" event and the chat message it announces.
module Overlap {
  import opened Accounting
  import opened Browser
  import opened Database
  import opened ServerMachine
  import opened Wrappers

  /** Nothing is queued and nobody is broadcasting. */
  predicate Calm(s: State) { MutexSound(s) && s.mutex.None? && s.queue == [] }

  /** Worker w has moved on, and no other. */
  predicate OnlyMoves(t: State, u: State, w: nat) {
    w < |t.workers| == |u.workers| && u.workers == t.workers[w := u.workers[w]]
  }

  /** One event that leaves the queue and the mutex alone. */
  lemma CalmStep(run: Runner, b: Backend, c: Control, s: State, es: seq<Event>, t: State, e: Event) returns (u: State)
    requires IsSerial(run, b, c) && run(s, es) == Some(t) && Calm(t) && Enabled(t, e)
    requires e.HandshakeDone? || e.Join? || e.Message? || (e.Query? && StartsAlone(t, e) && Works(c, t, e))
    ensures run(s, es + [e]) == Some(u) && Calm(u) && OnlyMoves(t, u, e.w)
    ensures u.workers[e.w] == Moved(t, e) && u.log == t.log && u.sessions == t.sessions && u.open == t.open
  {
    u := Apply(b, t, e);
    MutexStep(b, t, e);
    OneMore(run, b, c, s, es, t, e);
  }

  /** The session of worker w and its request are the same. */
  predicate SameSession(v: Worker, u: Worker) {
    v.Busy? && u.Busy? && u.sock == v.sock && u.session == v.session && u.request == v.request
  }

  /** A whole broadcast. */
  lemma WholeCast(run: Runner, b: Backend, c: Control, s: State, es: seq<Event>, t: State, w: nat, pc: Pc) returns (es': seq<Event>, u: State)
    requires IsSerial(run, b, c) && run(s, es) == Some(t) && Calm(t) && At(t, w, pc) && IsCast(pc) && !pc.KillCast?
    ensures run(s, es') == Some(u) && Calm(u) && OnlyMoves(t, u, w)
    ensures At(u, w, AfterCast(pc)) && SameSession(t.workers[w], u.workers[w])
    ensures u.log == t.log + [Entry(t.workers[w].session, MsgAt(w, pc, t.workers[w].request))]
    ensures u.sessions == t.sessions && u.open == t.open
  {
    var started := Apply(b, t, StartCast(w));
    OneMore(run, b, c, s, es, t, StartCast(w));
    MutexStep(b, t, StartCast(w));
    es', u := MutexComesFree(run, b, c, s, es + [StartCast(w)], started);
    forall i | 0 <= i < |t.workers| && i != w ensures u.workers[i] == t.workers[i] {
      assert started.workers[i] == t.workers[i] && !Sending(t.workers[i]);
    }
  }

  /** An idle worker takes up a new connection. */
  lemma NewSession(run: Runner, b: Backend, c: Control, s: State, es: seq<Event>, t: State, w: nat, h: Socket) returns (es': seq<Event>, u: State)
    requires IsSerial(run, b, c) && run(s, es) == Some(t) && Calm(t) && w < |t.workers| && t.workers[w].Idle? && h !in t.open
    ensures run(s, es') == Some(u) && Calm(u) && OnlyMoves(t, u, w)
    ensures u.workers[w] == Busy(h, t.sessions, Handshake, Request("", false), None, 0)
    ensures u.log == t.log && u.sessions == t.sessions + 1 && u.open == t.open + {h}
  {
    var accepted := Apply(b, t, Accept(h));
    OneMore(run, b, c, s, es, t, Accept(h));
    MutexStep(b, t, Accept(h));
    assert accepted.queue == [h];
    OneMore(run, b, c, s, es + [Accept(h)], accepted, Take(w));
    MutexStep(b, accepted, Take(w));
    es', u := es + [Accept(h)] + [Take(w)], Apply(b, accepted, Take(w));
  }

  /** The session of worker w, and where it is. */
  predicate Stands(t: State, w: nat, session: nat, pc: Pc) { At(t, w, pc) && t.workers[w].session == session }

  lemma ToReceive(run: Runner, b: Backend, c: Control, s: State, es: seq<Event>, t: State, w: nat, h: Socket) returns (es': seq<Event>, u: State)
    requires IsSerial(run, b, c) && run(s, es) == Some(t) && Calm(t) && w < |t.workers| && t.workers[w].Idle? && h !in t.open
    ensures run(s, es') == Some(u) && Calm(u) && OnlyMoves(t, u, w)
    ensures Stands(u, w, t.sessions, Receive) && u.sessions == t.sessions + 1 && u.open == t.open + {h}
  {
    es', u := NewSession(run, b, c, s, es, t, w, h);
    var v := CalmStep(run, b, c, s, es', u, HandshakeDone(w));
    es', u := WholeCast(run, b, c, s, es' + [HandshakeDone(w)], v, w, SpawnCast);
    v := CalmStep(run, b, c, s, es', u, Join(w));
    es', u := es' + [Join(w)], v;
    assert u.workers == t.workers[w := u.workers[w]];
  }

  /** An idle worker takes up a new connection and its first message, up to the call of executeTransaction. */
  lemma ToBegin(run: Runner, b: Backend, c: Control, s: State, es: seq<Event>, t: State, w: nat, h: Socket) returns (es': seq<Event>, u: State)
    requires IsSerial(run, b, c) && run(s, es) == Some(t) && Calm(t) && w < |t.workers| && t.workers[w].Idle? && h !in t.open
    ensures run(s, es') == Some(u) && Calm(u) && OnlyMoves(t, u, w)
    ensures Stands(u, w, t.sessions, TxBegin) && u.sessions == t.sessions + 1 && u.open == t.open + {h}
  {
    es', u := ToReceive(run, b, c, s, es, t, w, h);
    var request := Request("", false);
    var v := CalmStep(run, b, c, s, es', u, Message(w, request));
    es', u := WholeCast(run, b, c, s, es' + [Message(w, request)], v, w, BeginCast);
    es', u := WholeCast(run, b, c, s, es', u, w, InsertCast);
    assert u.workers == t.workers[w := u.workers[w]];
  }

  /** The whole call, if it can start alone. */
  lemma WholeCall(run: Runner, b: Backend, c: Control, s: State, es: seq<Event>, t: State, w: nat) returns (es': seq<Event>, u: State)
    requires IsSerial(run, b, c) && run(s, es) == Some(t) && Calm(t) && At(t, w, TxBegin) && StartsAlone(t, Query(w, true))
    ensures run(s, es') == Some(u) && Calm(u) && OnlyMoves(t, u, w)
    ensures Stands(u, w, t.workers[w].session, OutcomeCast(true))
    ensures u.log == t.log && u.sessions == t.sessions && u.open == t.open
  {
    u := CalmStep(run, b, c, s, es, t, Query(w, true));
    var v := CalmStep(run, b, c, s, es + [Query(w, true)], u, Query(w, true));
    u := CalmStep(run, b, c, s, es + [Query(w, true)] + [Query(w, true)], v, Query(w, true));
    es' := es + [Query(w, true)] + [Query(w, true)] + [Query(w, true)];
    assert u.workers == t.workers[w := u.workers[w]];
  }

  lemma CalmAtStart(n: nat, table: Table)
    ensures Calm(Initial(n, table))
  {
  }

  // ---------------------------------------------------------------- overlapping calls

  /** With two workers, a call of executeTransaction can be about to start while another is under way. */
  lemma OverlapReachable(b: Backend, c: Control, n: nat, table: Table) returns (es: seq<Event>, t: State)
    requires n >= 2
    ensures Reaches(b, c, Initial(n, table), es, t) && At(t, 1, TxBegin) && |t.workers| == n && InTx(t.workers[0])
  {
    var s, run := Initial(n, table), Serial(b, c);
    CalmAtStart(n, table);
    es, t := ToBegin(run, b, c, s, [], s, 0, 0);
    var u := CalmStep(run, b, c, s, es, t, Query(0, true));
    es, t := ToBegin(run, b, c, s, es + [Query(0, true)], u, 1, 1);
  }

  ghost predicate Overlaps(b: Backend, n: nat, table: Table, es: seq<Event>) {
    var t := SerialExec(b, WORKING, Initial(n, table), es);
    t.Some? && exists i, j :: AboutToOverlap(t.value, i, j)
  }

  predicate AboutToOverlap(t: State, i: nat, j: nat) { At(t, j, TxBegin) && i < |t.workers| && InTx(t.workers[i]) }

  lemma WorkersAre(b: Backend, n: nat, table: Table, es: seq<Event>, t: State)
    requires Reaches(b, WORKING, Initial(n, table), es, t)
    ensures |t.workers| == n
  {
    SerialIsARun(b, WORKING, Initial(n, table), es, t);
    WiredRun(b, n, table, es, t);
  }

  lemma OneCannotOverlap(t: State, i: nat, j: nat)
    requires |t.workers| < 2
    ensures !AboutToOverlap(t, i, j)
  {
  }

  lemma NoOverlap(b: Backend, n: nat, table: Table, es: seq<Event>)
    requires n < 2
    ensures !Overlaps(b, n, table, es)
  {
    var t := SerialExec(b, WORKING, Initial(n, table), es);
    if t.Some? {
      WorkersAre(b, n, table, es, t.value);
      forall i: nat, j: nat ensures !AboutToOverlap(t.value, i, j) {
        OneCannotOverlap(t.value, i, j);
      }
    }
  }

  /** Calls can come to overlap exactly when the pool has at least two workers. */
  lemma OverlapExactlyWhen(b: Backend, n: nat, table: Table)
    ensures (exists es :: Overlaps(b, n, table, es)) <==> n >= 2
  {
    if n >= 2 {
      var es, t := OverlapReachable(b, WORKING, n, table);
      assert AboutToOverlap(t, 0, 1);
      assert Overlaps(b, n, table, es);
    } else {
      forall es ensures !Overlaps(b, n, table, es) {
        NoOverlap(b, n, table, es);
      }
    }
  }

  // ---------------------------------------------------------------- the "Mutex Locked" event

  /** Entry r is the chat message announced by the event at p, and q, of another session, stands between them. */
  predicate Interrupted(log: seq<Entry>, p: nat, q: nat, r: nat) {
    && p < q < r < |log| && log[p].msg.MutexLocked? && log[r].msg.Chat?
    && log[r].session == log[p].session != log[q].session
    && forall x :: p < x < r ==> log[x].session != log[p].session
  }

  ghost predicate InterruptedAfter(b: Backend, n: nat, table: Table, es: seq<Event>) {
    var t := Exec(b, Initial(n, table), es);
    t.Some? && exists p, q, r :: Interrupted(t.value.log, p, q, r)
  }

  /** Worker 0 announces its chat message, worker 1 broadcasts its outcome, and then comes the message. */
  lemma InterruptionReachable(b: Backend, n: nat, table: Table) returns (es: seq<Event>, t: State, p: nat)
    requires n >= 2
    ensures Reaches(b, WORKING, Initial(n, table), es, t) && Interrupted(t.log, p, p + 1, p + 2)
    ensures t.log[p].msg == MutexLocked(0) && t.log[p + 1].msg == Committed
  {
    es, t, p := InterruptedRun(Serial(b, WORKING), b, WORKING, n, table);
  }

  lemma InterruptedRun(run: Runner, b: Backend, c: Control, n: nat, table: Table) returns (es: seq<Event>, t: State, p: nat)
    requires n >= 2 && IsSerial(run, b, c)
    ensures run(Initial(n, table), es) == Some(t) && Interrupted(t.log, p, p + 1, p + 2)
    ensures t.log[p].msg == MutexLocked(0) && t.log[p + 1].msg == Committed
  {
    var s := Initial(n, table);
    CalmAtStart(n, table);
    assert SerialExec(b, c, s, []) == Some(s);
    es, t := ToMutexCast(run, b, c, s, [], s, 0, 0);
    es, t := ToBegin(run, b, c, s, es, t, 1, 1);
    es, t, p := Interruption(run, b, c, s, es, t);
  }

  /** An idle worker takes up a new connection and its first message, up to the "Mutex Locked" event. */
  lemma ToMutexCast(run: Runner, b: Backend, c: Control, s: State, es: seq<Event>, t: State, w: nat, h: Socket)
    returns (es': seq<Event>, u: State)
    requires IsSerial(run, b, c) && run(s, es) == Some(t) && Calm(t) && w < |t.workers| && t.workers[w].Idle? && h !in t.open
    requires forall i :: 0 <= i < |t.workers| ==> !InTx(t.workers[i])
    ensures run(s, es') == Some(u) && Calm(u) && OnlyMoves(t, u, w)
    ensures Stands(u, w, t.sessions, MutexCast) && u.sessions == t.sessions + 1 && u.open == t.open + {h}
  {
    es', u := ToBegin(run, b, c, s, es, t, w, h);
    es', u := WholeCall(run, b, c, s, es', u, w);
    es', u := WholeCast(run, b, c, s, es', u, w, OutcomeCast(true));
    assert u.workers == t.workers[w := u.workers[w]];
  }

  lemma Interruption(run: Runner, b: Backend, c: Control, s: State, es: seq<Event>, t: State) returns (es': seq<Event>, u: State, p: nat)
    requires IsSerial(run, b, c) && run(s, es) == Some(t) && Calm(t) && |t.workers| > 1
    requires Stands(t, 0, 0, MutexCast) && Stands(t, 1, 1, TxBegin)
    requires forall i :: 0 <= i < |t.workers| ==> !InTx(t.workers[i])
    ensures run(s, es') == Some(u) && Interrupted(u.log, p, p + 1, p + 2)
    ensures u.log[p].msg == MutexLocked(0) && u.log[p + 1].msg == Committed
  {
    var called: State;
    es', called := WholeCall(run, b, c, s, es, t, 1);
    es', u := ThreeCasts(run, b, c, s, es', called);
    p := |called.log|;
    BetweenTheTwo(called.log, 0, Committed, called.workers[0].request.text);
  }

  /** Worker 0's event, worker 1's outcome, worker 0's chat message. */
  lemma ThreeCasts(run: Runner, b: Backend, c: Control, s: State, es: seq<Event>, t: State) returns (es': seq<Event>, u: State)
    requires IsSerial(run, b, c) && run(s, es) == Some(t) && Calm(t) && Stands(t, 0, 0, MutexCast) && Stands(t, 1, 1, OutcomeCast(true))
    ensures run(s, es') == Some(u)
    ensures u.log == t.log + [Entry(0, MutexLocked(0))] + [Entry(1, Committed)] + [Entry(0, Chat(0, t.workers[0].request.text))]
  {
    var locked, committed: State;
    es', locked := WholeCast(run, b, c, s, es, t, 0, MutexCast);
    assert Stands(locked, 0, 0, ChatCast) && locked.workers[1] == t.workers[1];
    es', committed := WholeCast(run, b, c, s, es', locked, 1, OutcomeCast(true));
    assert committed.workers[0] == locked.workers[0];
    es', u := WholeCast(run, b, c, s, es', committed, 0, ChatCast);
  }

  lemma BetweenTheTwo(log: seq<Entry>, i: nat, m: Msg, text: string)
    ensures var p := |log|;
            var longer := log + [Entry(0, MutexLocked(i))] + [Entry(1, m)] + [Entry(0, Chat(i, text))];
            Interrupted(longer, p, p + 1, p + 2) && longer[p].msg == MutexLocked(i) && longer[p + 1].msg == m
  {
  }

  /** One worker serves one session after the other. */
  predicate OneAfterTheOther(s: State) {
    && |s.workers| <= 1
    && (forall p, q :: 0 <= p < q < |s.log| ==> s.log[p].session <= s.log[q].session)
    && (forall p :: 0 <= p < |s.log| ==> s.log[p].session < s.sessions)
    && (forall i :: 0 <= i < |s.workers| && s.workers[i].Busy? ==> s.workers[i].session + 1 == s.sessions)
  }

  lemma {:induction false} OneAfterTheOtherRun(b: Backend, n: nat, table: Table, es: seq<Event>, t: State)
    requires n <= 1 && Exec(b, Initial(n, table), es) == Some(t)
    ensures OneAfterTheOther(t)
  {
    if |es| > 0 {
      var before, e := Exec(b, Initial(n, table), es[..|es| - 1]).value, es[|es| - 1];
      OneAfterTheOtherRun(b, n, table, es[..|es| - 1], before);
      OneAfterTheOtherStep(b, before, e);
    }
  }

  lemma OneAfterTheOtherStep(b: Backend, s: State, e: Event)
    requires OneAfterTheOther(s) && Enabled(s, e)
    ensures OneAfterTheOther(Apply(b, s, e))
  {
    if e.StartCast? {
      assert Apply(b, s, e).log[..|s.log|] == s.log;
    }
  }

  /**
   * The "Mutex Locked" event is no sign that the mutex is held until the message it announces: another
   * session's broadcast can come between the two exactly when the pool has at least two workers.
   */
  lemma LockEventIsNoLock(b: Backend, n: nat, table: Table)
    ensures (exists es :: InterruptedAfter(b, n, table, es)) <==> n >= 2
  {
    if n >= 2 {
      var es, t, p := InterruptionReachable(b, n, table);
      SerialIsARun(b, WORKING, Initial(n, table), es, t);
      assert InterruptedAfter(b, n, table, es);
    } else {
      forall es ensures !InterruptedAfter(b, n, table, es) {
        var t := Exec(b, Initial(n, table), es);
        if t.Some? {
          OneAfterTheOtherRun(b, n, table, es, t.value);
          forall p: nat, q: nat, r: nat ensures !Interrupted(t.value.log, p, q, r) {
          }
        }
      }
    }
  }
}
