// All interleavings of the accepting thread and the pool's workers running handleClient.
// Every socket send is a step of its own, made with clients_mutex held, and executeTransaction
// is split into its calls to the engine, which all sessions share.
module ServerMachine {
  import opened Browser
  import opened Database
  import opened Wrappers

  type Socket = nat

  datatype Request = Request(text: string, rollback: bool)

  /** Where a session is in handleClient; the pcs ending in Cast are calls of broadcastMessage. */
  datatype Pc = Handshake | SpawnCast | Joining | Receive | BeginCast | InsertCast
              | TxBegin | TxInsert | TxCommit | TxRollback | OutcomeCast(ok: bool) | MutexCast | ChatCast
              | Leaving | Closing | KillCast

  /**
   * A pool worker. While it broadcasts, `sent` counts the clients served so far. `session` numbers
   * the sessions in the order they start, and `spawnedAt` is where its first broadcast stands in the log.
   */
  datatype Worker = Idle | Busy(sock: Socket, session: nat, pc: Pc, request: Request, sent: Option<nat>, spawnedAt: nat)

  datatype Entry = Entry(session: nat, msg: Msg)

  /**
   * `open` are the sockets accepted and not yet closed. The rest of the fields after `engine` are
   * history: every broadcast in mutex order, the frames sent on each socket since it was accepted,
   * and the length of the log when a socket entered and left the client list.
   */
  datatype State = State(queue: seq<Socket>, workers: seq<Worker>, clients: seq<Socket>, mutex: Option<nat>,
                         open: set<Socket>, engine: Engine, log: seq<Entry>, inbox: map<Socket, seq<Msg>>,
                         joined: map<Socket, nat>, left: map<Socket, nat>, sessions: nat)

  datatype Event = Accept(h: Socket) | Take(w: nat) | HandshakeDone(w: nat) | HandshakeFailed(w: nat)
                 | StartCast(w: nat) | SendOne(w: nat) | EndCast(w: nat) | Join(w: nat)
                 | Message(w: nat, request: Request) | Disconnect(w: nat) | Leave(w: nat) | CloseSocket(w: nat)
                 | Query(w: nat, ok: bool)

  predicate IsCast(pc: Pc) {
    pc.SpawnCast? || pc.BeginCast? || pc.InsertCast? || pc.OutcomeCast? || pc.MutexCast? || pc.ChatCast? || pc.KillCast?
  }

  predicate IsTx(pc: Pc) { pc.TxBegin? || pc.TxInsert? || pc.TxCommit? || pc.TxRollback? }

  predicate At(s: State, w: nat, pc: Pc) {
    w < |s.workers| && s.workers[w].Busy? && s.workers[w].pc == pc && s.workers[w].sent.None?
  }

  predicate Sending(w: Worker) { w.Busy? && w.sent.Some? }

  predicate Enabled(s: State, e: Event) {
    match e
    case Accept(h) => h !in s.open
    case Take(w) => w < |s.workers| && s.workers[w].Idle? && s.queue != []
    case HandshakeDone(w) => At(s, w, Handshake)
    case HandshakeFailed(w) => At(s, w, Handshake)
    case StartCast(w) =>
      w < |s.workers| && s.workers[w].Busy? && s.workers[w].sent.None? && IsCast(s.workers[w].pc) && s.mutex.None?
    case SendOne(w) => w < |s.workers| && Sending(s.workers[w]) && s.workers[w].sent.value < |s.clients|
    case EndCast(w) => w < |s.workers| && Sending(s.workers[w]) && s.workers[w].sent.value == |s.clients|
    case Join(w) => At(s, w, Joining) && s.mutex.None?
    case Message(w, _) => At(s, w, Receive)
    case Disconnect(w) => At(s, w, Receive)
    case Leave(w) => At(s, w, Leaving) && s.mutex.None?
    case CloseSocket(w) => At(s, w, Closing)
    case Query(w, _) => At(s, w, TxBegin) || At(s, w, TxInsert) || At(s, w, TxCommit) || At(s, w, TxRollback)
  }

  /** The message a session broadcasts at a pc. */
  function MsgAt(thread: nat, pc: Pc, r: Request): Msg {
    match pc
    case SpawnCast => Spawned(thread)
    case BeginCast => Begun
    case InsertCast => Inserted(r.text)
    case OutcomeCast(ok) => if ok then Committed else RolledBack
    case MutexCast => MutexLocked(thread)
    case ChatCast => Chat(thread, r.text)
    case _ => Terminated(thread)
  }

  /** Where a session goes on after a broadcast; the chat message follows whatever the outcome was. */
  function AfterCast(pc: Pc): Pc {
    match pc
    case SpawnCast => Joining
    case BeginCast => InsertCast
    case InsertCast => TxBegin
    case OutcomeCast(_) => MutexCast
    case MutexCast => ChatCast
    case _ => Receive
  }

  /** Where executeTransaction goes on after a statement; only the result of the query itself is looked at. */
  function AfterQuery(pc: Pc, ok: bool): Pc {
    match pc
    case TxBegin => TxInsert
    case TxInsert => if ok then TxCommit else TxRollback
    case TxCommit => OutcomeCast(true)
    case _ => OutcomeCast(false)
  }

  /** What the statement of a request makes of the table it sees, when it succeeds. */
  type Backend = (Request, Table) -> Table

  /** Erases the first occurrence (lines 84-89). */
  function RemoveFirst(cs: seq<Socket>, c: Socket): seq<Socket> {
    if |cs| == 0 then [] else if cs[0] == c then cs[1..] else [cs[0]] + RemoveFirst(cs[1..], c)
  }

  function Sent(inbox: map<Socket, seq<Msg>>, c: Socket, m: Msg): map<Socket, seq<Msg>> {
    inbox[c := (if c in inbox then inbox[c] else []) + [m]]
  }

  /** The control flow of handleClient: the worker's own state after its event. */
  function Moved(s: State, e: Event): Worker
    requires Enabled(s, e) && !e.Accept?
  {
    var v := s.workers[e.w];
    match e
    case Take(_) => Busy(s.queue[0], s.sessions, Handshake, Request("", false), None, 0)
    case HandshakeDone(_) => v.(pc := SpawnCast)
    case HandshakeFailed(_) => Idle
    case StartCast(_) => v.(sent := Some(0), spawnedAt := if v.pc.SpawnCast? then |s.log| else v.spawnedAt)
    case SendOne(_) => v.(sent := Some(v.sent.value + 1))
    case EndCast(_) => if v.pc.KillCast? then Idle else v.(sent := None, pc := AfterCast(v.pc))
    case Join(_) => v.(pc := Receive)
    case Message(_, request) => v.(pc := BeginCast, request := request)
    case Disconnect(_) => v.(pc := Leaving)
    case Leave(_) => v.(pc := Closing)
    case CloseSocket(_) => v.(pc := KillCast)
    case Query(_, ok) => v.(pc := AfterQuery(v.pc, ok))
  }

  /** The calls of executeTransaction on the shared engine; `ok` is whether the engine carries the statement out. */
  function EngineAfter(b: Backend, e: Engine, pc: Pc, r: Request, ok: bool): Engine {
    match pc
    case TxBegin => Begin(e, ok)
    case TxInsert => if ok then Write(e, b(r, View(e))) else e
    case TxCommit => Commit(e, ok)
    case TxRollback => Rollback(e, ok)
    case _ => e
  }

  /** The effect of a worker's event on the data the sessions share. */
  function Apply(b: Backend, s: State, e: Event): State
    requires Enabled(s, e)
  {
    if e.Accept? then
      s.(open := s.open + {e.h}, queue := s.queue + [e.h], inbox := s.inbox[e.h := []],
         joined := s.joined - {e.h}, left := s.left - {e.h})
    else
      var v := s.workers[e.w];
      var t := s.(workers := s.workers[e.w := Moved(s, e)]);
      match e
      case Take(_) => t.(queue := s.queue[1..], sessions := s.sessions + 1)
      case HandshakeFailed(_) => t.(open := s.open - {v.sock})
      case StartCast(w) => t.(mutex := Some(w), log := s.log + [Entry(v.session, MsgAt(w, v.pc, v.request))])
      case SendOne(w) => t.(inbox := Sent(s.inbox, s.clients[v.sent.value], MsgAt(w, v.pc, v.request)))
      case EndCast(_) => t.(mutex := None)
      case Join(_) => t.(clients := s.clients + [v.sock], joined := s.joined[v.sock := |s.log|])
      case Leave(_) => t.(clients := RemoveFirst(s.clients, v.sock), left := s.left[v.sock := |s.log|])
      case CloseSocket(_) => t.(open := s.open - {v.sock})
      case Query(_, ok) => t.(engine := EngineAfter(b, s.engine, v.pc, v.request, ok))
      case _ => t
  }

  function Exec(b: Backend, s: State, es: seq<Event>): Option<State> {
    if |es| == 0 then Some(s)
    else
      var last, before := es[|es| - 1], Exec(b, s, es[..|es| - 1]);
      if before.Some? && Enabled(before.value, last) then Some(Apply(b, before.value, last)) else None
  }

  lemma ExecMore(b: Backend, s: State, es: seq<Event>, t: State, e: Event)
    requires Exec(b, s, es) == Some(t) && Enabled(t, e)
    ensures Exec(b, s, es + [e]) == Some(Apply(b, t, e))
  {
    assert (es + [e])[..|es|] == es;
  }

  /** The server before the first connection, with n pool workers and a table already filled. */
  function Initial(n: nat, table: Table): State {
    State([], seq(n, _ => Idle), [], None, {}, Engine(table, None), [], map[], map[], map[], 0)
  }

  // ---------------------------------------------------------------- sockets and the client list

  /** The session's socket is in the client list. */
  predicate Listed(v: Worker) {
    v.Busy? && !v.pc.Handshake? && !v.pc.SpawnCast? && !v.pc.Joining? && !v.pc.Closing? && !v.pc.KillCast?
  }

  /** The session's socket is open. */
  predicate Owns(v: Worker) { v.Busy? && !v.pc.KillCast? }

  predicate ListedAs(v: Worker, c: Socket) { Listed(v) && v.sock == c }

  predicate Distinct(cs: seq<Socket>) {
    forall i, j :: 0 <= i < j < |cs| ==> cs[i] != cs[j]
  }

  /** The worker in broadcastMessage holds the mutex, and it is at a broadcast. */
  predicate MutexSound(s: State) {
    && (s.mutex.Some? ==> s.mutex.value < |s.workers|)
    && (forall i :: 0 <= i < |s.workers| ==> (Sending(s.workers[i]) <==> s.mutex == Some(i)))
    && (forall i :: 0 <= i < |s.workers| && Sending(s.workers[i]) ==>
          IsCast(s.workers[i].pc) && s.workers[i].sent.value <= |s.clients|)
  }

  /** Every open socket in use has one owner: a place in the queue or a session. */
  predicate SocketsOwned(s: State) {
    && (forall i :: 0 <= i < |s.workers| && Owns(s.workers[i]) ==>
          s.workers[i].sock in s.open && s.workers[i].sock !in s.queue)
    && (forall i, j :: 0 <= i < j < |s.workers| && Owns(s.workers[i]) && Owns(s.workers[j]) ==>
          s.workers[i].sock != s.workers[j].sock)
    && (forall c <- s.queue :: c in s.open)
    && Distinct(s.queue)
  }

  /** The client list holds the socket of each joined session once, and nothing else. */
  ghost predicate ListSound(s: State) {
    && Distinct(s.clients)
    && (forall i :: 0 <= i < |s.workers| && Listed(s.workers[i]) ==> s.workers[i].sock in s.clients)
    && (forall c <- s.clients :: InSession(s.workers, c))
  }

  ghost predicate InSession(ws: seq<Worker>, c: Socket) {
    exists i :: 0 <= i < |ws| && ListedAs(ws[i], c)
  }

  ghost predicate Wired(s: State) { MutexSound(s) && SocketsOwned(s) && ListSound(s) }

  lemma MutexStep(b: Backend, s: State, e: Event)
    requires MutexSound(s) && Enabled(s, e)
    ensures MutexSound(Apply(b, s, e))
  {
    var t := Apply(b, s, e);
    if !e.Accept? {
      var u := t.workers[e.w];
      assert Sending(u) <==> e.StartCast? || e.SendOne?;
      assert !e.Join? && !e.Leave? ==> t.clients == s.clients;
      assert t.workers == s.workers[e.w := u];
    }
  }

  lemma OwnedTake(b: Backend, s: State, w: nat)
    requires SocketsOwned(s) && Enabled(s, Take(w))
    ensures SocketsOwned(Apply(b, s, Take(w)))
  {
    assert s.queue == [s.queue[0]] + s.queue[1..];
  }

  /** Worker w keeps its socket or gives it up, and then closes it. */
  predicate KeepsOrGivesUp(s: State, t: State, w: nat) {
    && w < |s.workers| == |t.workers| && t.workers == s.workers[w := t.workers[w]] && t.queue == s.queue
    && s.workers[w].Busy? && (Owns(t.workers[w]) ==> Owns(s.workers[w]) && t.workers[w].sock == s.workers[w].sock)
    && t.open == if Owns(s.workers[w]) && !Owns(t.workers[w]) then s.open - {s.workers[w].sock} else s.open
  }

  lemma OwnedMove(b: Backend, s: State, e: Event)
    requires Enabled(s, e) && !e.Accept? && !e.Take?
    ensures KeepsOrGivesUp(s, Apply(b, s, e), e.w)
  {
  }

  lemma OwnedKept(s: State, t: State, w: nat)
    requires SocketsOwned(s) && KeepsOrGivesUp(s, t, w)
    ensures SocketsOwned(t)
  {
    forall c | c in t.queue ensures c in t.open {
      assert Owns(s.workers[w]) ==> s.workers[w].sock != c;
    }
  }

  lemma OwnedStep(b: Backend, s: State, e: Event)
    requires SocketsOwned(s) && Enabled(s, e)
    ensures SocketsOwned(Apply(b, s, e))
  {
    if e.Take? {
      OwnedTake(b, s, e.w);
    } else if !e.Accept? {
      OwnedMove(b, s, e);
      OwnedKept(s, Apply(b, s, e), e.w);
    }
  }

  lemma {:induction false} RemoveFirstRemoves(cs: seq<Socket>, c: Socket)
    requires Distinct(cs)
    ensures var r := RemoveFirst(cs, c);
            Distinct(r) && forall d :: d in r <==> d in cs && d != c
  {
    if |cs| > 0 {
      var tail := cs[1..];
      assert cs == [cs[0]] + tail && cs[0] !in tail;
      RemoveFirstRemoves(tail, c);
    }
  }

  lemma SessionKept(ws: seq<Worker>, us: seq<Worker>, c: Socket)
    requires InSession(ws, c) && |us| == |ws|
    requires forall i :: 0 <= i < |ws| && ListedAs(ws[i], c) ==> ListedAs(us[i], c)
    ensures InSession(us, c)
  {
    var i :| 0 <= i < |ws| && ListedAs(ws[i], c);
    assert ListedAs(us[i], c);
  }

  lemma NotYetListed(s: State, w: nat)
    requires SocketsOwned(s) && ListSound(s) && At(s, w, Joining)
    ensures s.workers[w].sock !in s.clients
  {
    var c := s.workers[w].sock;
    forall i | 0 <= i < |s.workers| ensures !ListedAs(s.workers[i], c) {
      assert Owns(s.workers[w]) && (Listed(s.workers[i]) ==> Owns(s.workers[i]));
    }
    assert !InSession(s.workers, c);
  }

  lemma ListJoin(b: Backend, s: State, w: nat)
    requires SocketsOwned(s) && ListSound(s) && Enabled(s, Join(w))
    ensures ListSound(Apply(b, s, Join(w)))
  {
    var t := Apply(b, s, Join(w));
    NotYetListed(s, w);
    forall c | c in t.clients ensures InSession(t.workers, c) {
      if c == s.workers[w].sock {
        assert ListedAs(t.workers[w], c);
      } else {
        SessionKept(s.workers, t.workers, c);
      }
    }
  }

  lemma ListLeave(b: Backend, s: State, w: nat)
    requires SocketsOwned(s) && ListSound(s) && Enabled(s, Leave(w))
    ensures ListSound(Apply(b, s, Leave(w)))
  {
    var t, c0 := Apply(b, s, Leave(w)), s.workers[w].sock;
    RemoveFirstRemoves(s.clients, c0);
    forall c | c in t.clients ensures InSession(t.workers, c) {
      SessionKept(s.workers, t.workers, c);
    }
    forall i | 0 <= i < |t.workers| && Listed(t.workers[i]) ensures t.workers[i].sock in t.clients {
      assert Owns(s.workers[i]) && Owns(s.workers[w]);
    }
  }

  lemma ListOther(b: Backend, s: State, e: Event)
    requires Wired(s) && Enabled(s, e) && !e.Join? && !e.Leave?
    ensures ListSound(Apply(b, s, e))
  {
    var t := Apply(b, s, e);
    assert t.clients == s.clients;
    forall i | 0 <= i < |s.workers| && (Listed(s.workers[i]) || Listed(t.workers[i]))
      ensures Listed(s.workers[i]) && Listed(t.workers[i]) && t.workers[i].sock == s.workers[i].sock
    {
    }
    forall c | c in t.clients ensures InSession(t.workers, c) {
      SessionKept(s.workers, t.workers, c);
    }
  }

  lemma WiredStep(b: Backend, s: State, e: Event)
    requires Wired(s) && Enabled(s, e)
    ensures Wired(Apply(b, s, e)) && |Apply(b, s, e).workers| == |s.workers|
  {
    MutexStep(b, s, e);
    OwnedStep(b, s, e);
    if e.Join? {
      ListJoin(b, s, e.w);
    } else if e.Leave? {
      ListLeave(b, s, e.w);
    } else {
      ListOther(b, s, e);
    }
  }

  lemma {:induction false} WiredRun(b: Backend, n: nat, table: Table, es: seq<Event>, t: State)
    requires Exec(b, Initial(n, table), es) == Some(t)
    ensures Wired(t) && |t.workers| == n
  {
    if |es| > 0 {
      var before, e := Exec(b, Initial(n, table), es[..|es| - 1]).value, es[|es| - 1];
      WiredRun(b, n, table, es[..|es| - 1], before);
      WiredStep(b, before, e);
    }
  }

  // ---------------------------------------------------------------- every open socket is in use

  predicate OwnsAs(v: Worker, c: Socket) { Owns(v) && v.sock == c }

  /** The socket waits in the queue or belongs to a session that has not closed it. */
  ghost predicate InUse(s: State, c: Socket) {
    c in s.queue || exists i :: 0 <= i < |s.workers| && OwnsAs(s.workers[i], c)
  }

  ghost predicate OpenInUse(s: State) { forall c <- s.open :: InUse(s, c) }

  lemma OwnerKept(s: State, t: State, c: Socket)
    requires InUse(s, c) && |t.workers| == |s.workers| && (c in s.queue ==> InUse(t, c))
    requires forall i :: 0 <= i < |s.workers| && OwnsAs(s.workers[i], c) ==> OwnsAs(t.workers[i], c)
    ensures InUse(t, c)
  {
    if c !in s.queue {
      var i :| 0 <= i < |s.workers| && OwnsAs(s.workers[i], c);
      assert OwnsAs(t.workers[i], c);
    }
  }

  lemma InUseTake(b: Backend, s: State, w: nat)
    requires OpenInUse(s) && Enabled(s, Take(w))
    ensures OpenInUse(Apply(b, s, Take(w)))
  {
    var t := Apply(b, s, Take(w));
    assert s.queue == [s.queue[0]] + s.queue[1..] && OwnsAs(t.workers[w], s.queue[0]);
    forall c | c in t.open ensures InUse(t, c) {
      OwnerKept(s, t, c);
    }
  }

  lemma InUseKept(s: State, t: State, w: nat)
    requires OpenInUse(s) && KeepsOrGivesUp(s, t, w)
    ensures OpenInUse(t)
  {
    forall c | c in t.open ensures InUse(t, c) {
      assert OwnsAs(s.workers[w], c) ==> OwnsAs(t.workers[w], c);
      OwnerKept(s, t, c);
    }
  }

  lemma InUseAccept(b: Backend, s: State, h: Socket)
    requires OpenInUse(s) && Enabled(s, Accept(h))
    ensures OpenInUse(Apply(b, s, Accept(h)))
  {
    var t := Apply(b, s, Accept(h));
    forall c | c in t.open ensures InUse(t, c) {
      if c != h {
        OwnerKept(s, t, c);
      }
    }
  }

  lemma {:induction false} InUseRun(b: Backend, n: nat, table: Table, es: seq<Event>, t: State)
    requires Exec(b, Initial(n, table), es) == Some(t)
    ensures OpenInUse(t)
  {
    if |es| > 0 {
      var before, e := Exec(b, Initial(n, table), es[..|es| - 1]).value, es[|es| - 1];
      InUseRun(b, n, table, es[..|es| - 1], before);
      if e.Accept? {
        InUseAccept(b, before, e.h);
      } else if e.Take? {
        InUseTake(b, before, e.w);
      } else {
        OwnedMove(b, before, e);
        InUseKept(before, t, e.w);
      }
    }
  }

  /**
   * In every reachable state the open sockets are those that wait in the queue or belong to a session
   * that has not closed its socket: no session ends without closing it. A handle can be accepted
   * again exactly when it is none of them, and a server at rest has no socket open.
   */
  lemma OpenExactlyWhen(b: Backend, n: nat, table: Table, es: seq<Event>, t: State)
    requires Exec(b, Initial(n, table), es) == Some(t)
    ensures forall c :: c in t.open <==> c in t.queue || exists i :: 0 <= i < |t.workers| && OwnsAs(t.workers[i], c)
    ensures forall c :: Enabled(t, Accept(c)) <==> !InUse(t, c)
    ensures t.queue == [] && (forall v <- t.workers :: v.Idle?) ==> t.open == {}
  {
    WiredRun(b, n, table, es, t);
    InUseRun(b, n, table, es, t);
    forall c ensures c in t.open <==> InUse(t, c) {
    }
    if t.queue == [] && forall v <- t.workers :: v.Idle? {
      forall c ensures c !in t.open {
        assert forall i :: 0 <= i < |t.workers| ==> t.workers[i] in t.workers;
      }
    }
  }
}
