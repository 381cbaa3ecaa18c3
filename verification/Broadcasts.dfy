// Total-order broadcast: what each client is sent is a contiguous part of one global log.
module Broadcasts {
  import opened Browser
  import opened Database
  import opened ServerMachine
  import opened Wrappers

  /** The messages of the log from position a up to, but not including, position b. */
  function Segment(log: seq<Entry>, a: nat, b: nat): seq<Msg>
    requires a <= b <= |log|
  {
    seq(b - a, k requires 0 <= k < b - a => log[a + k].msg)
  }

  /** How many clients of the list have been sent the latest broadcast. */
  function Served(s: State): nat {
    if s.mutex.Some? && s.mutex.value < |s.workers| && Sending(s.workers[s.mutex.value])
    then s.workers[s.mutex.value].sent.value else |s.clients|
  }

  predicate HasSegment(s: State, c: Socket, b: int) {
    && c in s.joined && c in s.inbox && 0 <= s.joined[c] <= b <= |s.log|
    && s.inbox[c] == Segment(s.log, s.joined[c], b)
  }

  /** An open socket that is not yet, and was never since it was accepted, in the list. */
  predicate IsNew(s: State, c: Socket) {
    c in s.inbox && s.inbox[c] == [] && c !in s.joined && c !in s.left
  }

  predicate NotYetJoined(v: Worker) {
    v.Busy? && (v.pc.Handshake? || v.pc.SpawnCast? || v.pc.Joining?)
  }

  /** Clients served by the broadcast in progress have the whole log from their join; the others lack its last entry. */
  predicate ClientsUpToDate(s: State) {
    forall j :: 0 <= j < |s.clients| ==> HasSegment(s, s.clients[j], |s.log| - if j < Served(s) then 0 else 1)
  }

  predicate LeaversComplete(s: State) {
    forall c <- s.left :: c !in s.clients && HasSegment(s, c, s.left[c])
  }

  predicate NewcomersEmpty(s: State) {
    && (forall c <- s.queue :: IsNew(s, c))
    && (forall i :: 0 <= i < |s.workers| && NotYetJoined(s.workers[i]) ==> IsNew(s, s.workers[i].sock))
  }

  /** The broadcast in progress is the last entry of the log. */
  predicate CurrentIsLast(s: State) {
    forall i :: 0 <= i < |s.workers| && Sending(s.workers[i]) ==>
      |s.log| > 0 &&
      s.log[|s.log| - 1] == Entry(s.workers[i].session, MsgAt(i, s.workers[i].pc, s.workers[i].request))
  }

  predicate Delivered(s: State) {
    ClientsUpToDate(s) && LeaversComplete(s) && NewcomersEmpty(s) && CurrentIsLast(s)
  }

  lemma SegmentGrows(log: seq<Entry>, e: Entry, a: nat, b: nat)
    requires a <= b <= |log|
    ensures Segment(log + [e], a, b) == Segment(log, a, b)
  {
  }

  lemma SegmentOneMore(log: seq<Entry>, a: nat, b: nat)
    requires a <= b < |log|
    ensures Segment(log, a, b + 1) == Segment(log, a, b) + [log[b].msg]
  {
  }

  lemma ClientsAreOpen(s: State, c: Socket)
    requires Wired(s) && c in s.clients
    ensures c in s.open && c !in s.queue
    ensures forall i :: 0 <= i < |s.workers| && NotYetJoined(s.workers[i]) ==> s.workers[i].sock != c
  {
    assert InSession(s.workers, c);
    var k :| 0 <= k < |s.workers| && ListedAs(s.workers[k], c);
    assert Owns(s.workers[k]);
    forall i | 0 <= i < |s.workers| && NotYetJoined(s.workers[i]) ensures s.workers[i].sock != c {
      assert Owns(s.workers[i]);
    }
  }

  // ---------------------------------------------------------------- step by step

  lemma ServedWhenFree(s: State)
    requires s.mutex.None?
    ensures Served(s) == |s.clients|
  {
  }

  lemma DeliverAccept(b: Backend, s: State, h: Socket)
    requires Wired(s) && Delivered(s) && Enabled(s, Accept(h))
    ensures Delivered(Apply(b, s, Accept(h)))
  {
    var t := Apply(b, s, Accept(h));
    forall j | 0 <= j < |s.clients| ensures HasSegment(t, s.clients[j], |s.log| - if j < Served(s) then 0 else 1) {
      ClientsAreOpen(s, s.clients[j]);
    }
    forall i | 0 <= i < |s.workers| && NotYetJoined(s.workers[i]) ensures IsNew(t, s.workers[i].sock) {
      assert Owns(s.workers[i]) && IsNew(s, s.workers[i].sock);
    }
    forall c | c in t.queue ensures IsNew(t, c) {
      assert c == h || IsNew(s, c);
    }
    forall c | c in t.left ensures c !in t.clients && HasSegment(t, c, t.left[c]) {
      assert HasSegment(s, c, s.left[c]);
    }
  }

  lemma DeliverStart(b: Backend, s: State, w: nat)
    requires Wired(s) && Delivered(s) && Enabled(s, StartCast(w))
    ensures Delivered(Apply(b, s, StartCast(w)))
  {
    var t := Apply(b, s, StartCast(w));
    var e := t.log[|s.log|];
    ServedWhenFree(s);
    assert Served(t) == 0;
    forall j | 0 <= j < |t.clients| ensures HasSegment(t, t.clients[j], |t.log| - 1) {
      assert HasSegment(s, s.clients[j], |s.log|);
      SegmentGrows(s.log, e, s.joined[s.clients[j]], |s.log|);
    }
    forall c | c in t.left ensures c !in t.clients && HasSegment(t, c, t.left[c]) {
      assert HasSegment(s, c, s.left[c]);
      SegmentGrows(s.log, e, s.joined[c], s.left[c]);
    }
    forall i | 0 <= i < |t.workers| ensures Sending(t.workers[i]) <==> i == w {
      assert i != w ==> t.workers[i] == s.workers[i];
    }
    forall i | 0 <= i < |t.workers| && NotYetJoined(t.workers[i]) ensures IsNew(t, t.workers[i].sock) {
      assert IsNew(s, s.workers[i].sock);
    }
  }

  lemma DeliverSend(b: Backend, s: State, w: nat)
    requires Wired(s) && Delivered(s) && Enabled(s, SendOne(w))
    ensures Delivered(Apply(b, s, SendOne(w)))
  {
    var t := Apply(b, s, SendOne(w));
    var i, n := s.workers[w].sent.value, |s.log|;
    var c := s.clients[i];
    assert s.mutex == Some(w) && Served(s) == i && Served(t) == i + 1;
    assert HasSegment(s, c, n - 1);
    SegmentOneMore(s.log, s.joined[c], n - 1);
    forall j | 0 <= j < |t.clients| ensures HasSegment(t, t.clients[j], n - if j < i + 1 then 0 else 1) {
      assert HasSegment(s, s.clients[j], n - if j < i then 0 else 1);
      assert j != i ==> s.clients[j] != c;
    }
    forall d | d in t.left ensures d !in t.clients && HasSegment(t, d, t.left[d]) {
      assert HasSegment(s, d, s.left[d]) && d != c;
    }
    ClientsAreOpen(s, c);
    forall k | 0 <= k < |t.workers| && NotYetJoined(t.workers[k]) ensures IsNew(t, t.workers[k].sock) {
      assert NotYetJoined(s.workers[k]) && s.workers[k].sock == t.workers[k].sock;
    }
  }

  lemma DeliverEnd(b: Backend, s: State, w: nat)
    requires Wired(s) && Delivered(s) && Enabled(s, EndCast(w))
    ensures Delivered(Apply(b, s, EndCast(w)))
  {
    var t := Apply(b, s, EndCast(w));
    ServedWhenFree(t);
    assert s.mutex == Some(w) && Served(s) == |s.clients|;
    forall j | 0 <= j < |t.clients| ensures HasSegment(t, t.clients[j], |t.log|) {
      assert HasSegment(s, s.clients[j], |s.log|);
    }
    forall c | c in t.left ensures c !in t.clients && HasSegment(t, c, t.left[c]) {
      assert HasSegment(s, c, s.left[c]);
    }
    forall k | 0 <= k < |t.workers| && NotYetJoined(t.workers[k]) ensures IsNew(t, t.workers[k].sock) {
      assert NotYetJoined(s.workers[k]) && s.workers[k].sock == t.workers[k].sock;
    }
    forall i | 0 <= i < |t.workers| ensures !Sending(t.workers[i]) {
      assert i != w ==> t.workers[i] == s.workers[i];
    }
  }

  lemma DeliverJoin(b: Backend, s: State, w: nat)
    requires Wired(s) && Delivered(s) && Enabled(s, Join(w))
    ensures Delivered(Apply(b, s, Join(w)))
  {
    var t, c := Apply(b, s, Join(w)), s.workers[w].sock;
    NotYetListed(s, w);
    ServedWhenFree(s);
    ServedWhenFree(t);
    assert IsNew(s, c);
    forall j | 0 <= j < |t.clients| ensures HasSegment(t, t.clients[j], |t.log|) {
      if j < |s.clients| {
        assert HasSegment(s, s.clients[j], |s.log|) && s.clients[j] != c;
      } else {
        assert Segment(t.log, |t.log|, |t.log|) == [];
      }
    }
    forall d | d in t.left ensures d !in t.clients && HasSegment(t, d, t.left[d]) {
      assert HasSegment(s, d, s.left[d]) && d != c;
    }
    forall k | 0 <= k < |t.workers| && NotYetJoined(t.workers[k]) ensures IsNew(t, t.workers[k].sock) {
      assert k != w && IsNew(s, s.workers[k].sock) && Owns(s.workers[k]) && Owns(s.workers[w]);
    }
    forall d | d in t.queue ensures IsNew(t, d) {
      assert IsNew(s, d) && Owns(s.workers[w]);
    }
  }

  lemma DeliverLeave(b: Backend, s: State, w: nat)
    requires Wired(s) && Delivered(s) && Enabled(s, Leave(w))
    ensures Delivered(Apply(b, s, Leave(w)))
  {
    var t, c := Apply(b, s, Leave(w)), s.workers[w].sock;
    RemoveFirstRemoves(s.clients, c);
    ServedWhenFree(s);
    ServedWhenFree(t);
    forall d | d in s.clients ensures HasSegment(s, d, |s.log|) {
      var j :| 0 <= j < |s.clients| && s.clients[j] == d;
      assert HasSegment(s, s.clients[j], |s.log|);
    }
    assert Listed(s.workers[w]) && Owns(s.workers[w]);
    forall j | 0 <= j < |t.clients| ensures HasSegment(t, t.clients[j], |t.log|) {
      assert t.clients[j] in s.clients;
    }
    forall d | d in t.left ensures d !in t.clients && HasSegment(t, d, t.left[d]) {
      assert d == c || HasSegment(s, d, s.left[d]);
    }
    forall k | 0 <= k < |t.workers| && NotYetJoined(t.workers[k]) ensures IsNew(t, t.workers[k].sock) {
      assert IsNew(s, s.workers[k].sock) && Owns(s.workers[k]);
    }
  }

  /** Events that touch neither the list nor the log, the frames or the mutex. */
  predicate IsQuiet(e: Event) {
    !e.Accept? && !e.StartCast? && !e.SendOne? && !e.EndCast? && !e.Join? && !e.Leave?
  }

  /** One worker moves on its own; a newcomer's socket is one it had, or the front of the queue. */
  predicate QuietChange(s: State, t: State, w: nat) {
    && t.clients == s.clients && t.log == s.log && t.inbox == s.inbox && t.joined == s.joined
    && t.left == s.left && t.mutex == s.mutex
    && w < |s.workers| == |t.workers| && t.workers == s.workers[w := t.workers[w]]
    && !Sending(s.workers[w]) && !Sending(t.workers[w])
    && (NotYetJoined(t.workers[w]) ==>
          t.workers[w].sock in s.queue || (NotYetJoined(s.workers[w]) && s.workers[w].sock == t.workers[w].sock))
    && (forall c <- t.queue :: c in s.queue)
  }

  lemma QuietStep(b: Backend, s: State, e: Event)
    requires MutexSound(s) && Enabled(s, e) && IsQuiet(e)
    ensures QuietChange(s, Apply(b, s, e), e.w)
  {
  }

  lemma DeliverQuiet(s: State, t: State, w: nat)
    requires Delivered(s) && QuietChange(s, t, w)
    ensures Delivered(t)
  {
    assert Served(t) == Served(s);
    forall j | 0 <= j < |t.clients| ensures HasSegment(t, t.clients[j], |t.log| - if j < Served(t) then 0 else 1) {
      assert HasSegment(s, s.clients[j], |s.log| - if j < Served(s) then 0 else 1);
    }
    forall d | d in t.left ensures d !in t.clients && HasSegment(t, d, t.left[d]) {
      assert HasSegment(s, d, s.left[d]);
    }
    forall k | 0 <= k < |t.workers| && NotYetJoined(t.workers[k]) ensures IsNew(t, t.workers[k].sock) {
      assert IsNew(s, t.workers[k].sock);
    }
    forall d | d in t.queue ensures IsNew(t, d) {
      assert IsNew(s, d);
    }
  }

  lemma DeliverStep(b: Backend, s: State, e: Event)
    requires Wired(s) && Delivered(s) && Enabled(s, e)
    ensures Delivered(Apply(b, s, e))
  {
    match e
    case Accept(h) => DeliverAccept(b, s, h);
    case StartCast(w) => DeliverStart(b, s, w);
    case SendOne(w) => DeliverSend(b, s, w);
    case EndCast(w) => DeliverEnd(b, s, w);
    case Join(w) => DeliverJoin(b, s, w);
    case Leave(w) => DeliverLeave(b, s, w);
    case _ =>
      QuietStep(b, s, e);
      DeliverQuiet(s, Apply(b, s, e), e.w);
  }

  lemma {:induction false} DeliveredRun(b: Backend, n: nat, table: Table, es: seq<Event>, t: State)
    requires Exec(b, Initial(n, table), es) == Some(t)
    ensures Delivered(t) && Wired(t)
  {
    WiredRun(b, n, table, es, t);
    if |es| > 0 {
      var before, e := Exec(b, Initial(n, table), es[..|es| - 1]).value, es[|es| - 1];
      DeliveredRun(b, n, table, es[..|es| - 1], before);
      DeliverStep(b, before, e);
    }
  }

  // ---------------------------------------------------------------- the theorems

  /** Sends only go to open sockets, each listed once. */
  lemma SendsGoToOpenSockets(b: Backend, n: nat, table: Table, es: seq<Event>, t: State, j: nat)
    requires Exec(b, Initial(n, table), es) == Some(t) && j < |t.clients|
    ensures t.clients[j] in t.open && forall k :: 0 <= k < |t.clients| && t.clients[k] == t.clients[j] ==> k == j
  {
    WiredRun(b, n, table, es, t);
    ClientsAreOpen(t, t.clients[j]);
  }

  /**
   * A connected client has been sent exactly the broadcasts since it joined, but for the one in
   * progress; a client that has left, exactly those between its join and its leave.
   */
  lemma TotalOrderBroadcast(b: Backend, n: nat, table: Table, es: seq<Event>, t: State, c: Socket)
    requires Exec(b, Initial(n, table), es) == Some(t)
    ensures c in t.clients ==>
              HasSegment(t, c, |t.log|) || (t.mutex.Some? && |t.log| > 0 && HasSegment(t, c, |t.log| - 1))
    ensures c in t.left ==> HasSegment(t, c, t.left[c])
    ensures c in t.clients || c in t.left ==>
              c in t.joined && c in t.inbox && t.joined[c] <= EndOf(t, c) <= |t.log| && HasSegment(t, c, EndOf(t, c))
  {
    DeliveredRun(b, n, table, es, t);
    if c in t.clients {
      var j :| 0 <= j < |t.clients| && t.clients[j] == c;
      assert HasSegment(t, t.clients[j], |t.log| - if j < Served(t) then 0 else 1);
      if t.mutex.None? {
        ServedWhenFree(t);
      }
    }
  }

  /** The part of the log a socket was sent, by its end. */
  function EndOf(t: State, c: Socket): int
    requires c in t.joined && c in t.inbox
  {
    t.joined[c] + |t.inbox[c]|
  }

  /** Two sockets were sent the broadcasts they share in the same order: both hold log entry p at its offset from their join. */
  lemma SharedInSameOrder(b: Backend, n: nat, table: Table, es: seq<Event>, t: State, c: Socket, d: Socket, p: nat)
    requires Exec(b, Initial(n, table), es) == Some(t)
    requires (c in t.clients || c in t.left) && (d in t.clients || d in t.left)
    ensures c in t.joined && c in t.inbox && d in t.joined && d in t.inbox
    ensures t.joined[c] <= p < EndOf(t, c) && t.joined[d] <= p < EndOf(t, d) ==>
              p < |t.log| && t.inbox[c][p - t.joined[c]] == t.log[p].msg == t.inbox[d][p - t.joined[d]]
  {
    TotalOrderBroadcast(b, n, table, es, t, c);
    TotalOrderBroadcast(b, n, table, es, t, d);
    HoldsAtOffset(t, c, p);
    HoldsAtOffset(t, d, p);
  }

  lemma HoldsAtOffset(t: State, c: Socket, p: nat)
    requires c in t.joined && c in t.inbox && t.joined[c] <= EndOf(t, c) && HasSegment(t, c, EndOf(t, c))
    ensures t.joined[c] <= p < EndOf(t, c) ==> p < |t.log| && t.inbox[c][p - t.joined[c]] == t.log[p].msg
  {
  }

  // ---------------------------------------------------------------- the order of the list

  /** The sockets stand in the order of their numbers. */
  predicate InOrder(joined: map<Socket, nat>, cs: seq<Socket>) {
    && (forall c <- cs :: c in joined)
    && (forall i, j :: 0 <= i < j < |cs| ==> joined[cs[i]] <= joined[cs[j]])
  }

  lemma {:induction false} RemoveFirstInOrder(joined: map<Socket, nat>, cs: seq<Socket>, c: Socket)
    requires InOrder(joined, cs)
    ensures InOrder(joined, RemoveFirst(cs, c))
    ensures forall d <- RemoveFirst(cs, c) :: d in cs
  {
    if |cs| > 0 && cs[0] != c {
      var tail := cs[1..];
      assert forall d <- tail :: d in cs && joined[cs[0]] <= joined[d];
      RemoveFirstInOrder(joined, tail, c);
      var rest := RemoveFirst(tail, c);
      assert forall i :: 0 <= i < |rest| ==> rest[i] in tail;
    }
  }

  lemma InOrderSame(joined: map<Socket, nat>, after: map<Socket, nat>, cs: seq<Socket>)
    requires InOrder(joined, cs) && forall c <- cs :: c in after && after[c] == joined[c]
    ensures InOrder(after, cs)
  {
  }

  lemma OrderJoin(b: Backend, s: State, w: nat)
    requires Wired(s) && Delivered(s) && Enabled(s, Join(w)) && InOrder(s.joined, s.clients)
    ensures InOrder(Apply(b, s, Join(w)).joined, Apply(b, s, Join(w)).clients)
  {
    var t, c := Apply(b, s, Join(w)), s.workers[w].sock;
    NotYetListed(s, w);
    InOrderSame(s.joined, t.joined, s.clients);
    forall i | 0 <= i < |s.clients| ensures t.joined[s.clients[i]] <= t.joined[c] {
      assert HasSegment(s, s.clients[i], |s.log| - if i < Served(s) then 0 else 1);
    }
  }

  lemma OrderAccept(b: Backend, s: State, h: Socket)
    requires Wired(s) && Enabled(s, Accept(h)) && InOrder(s.joined, s.clients)
    ensures InOrder(Apply(b, s, Accept(h)).joined, Apply(b, s, Accept(h)).clients)
  {
    var t := Apply(b, s, Accept(h));
    forall c | c in s.clients ensures c != h {
      ClientsAreOpen(s, c);
    }
    InOrderSame(s.joined, t.joined, s.clients);
  }

  lemma OrderElse(b: Backend, s: State, e: Event)
    requires Enabled(s, e) && !e.Join? && !e.Accept? && !e.Leave?
    ensures Apply(b, s, e).joined == s.joined && Apply(b, s, e).clients == s.clients
  {
  }

  /** A broadcast goes to the clients in the order in which they joined, whoever has left in between. */
  lemma {:induction false} ServedInJoinOrder(b: Backend, n: nat, table: Table, es: seq<Event>, t: State)
    requires Exec(b, Initial(n, table), es) == Some(t)
    ensures InOrder(t.joined, t.clients)
  {
    if |es| > 0 {
      var before, e := Exec(b, Initial(n, table), es[..|es| - 1]).value, es[|es| - 1];
      ServedInJoinOrder(b, n, table, es[..|es| - 1], before);
      DeliveredRun(b, n, table, es[..|es| - 1], before);
      if e.Join? {
        OrderJoin(b, before, e.w);
      } else if e.Accept? {
        OrderAccept(b, before, e.h);
      } else if e.Leave? {
        RemoveFirstInOrder(before.joined, before.clients, before.workers[e.w].sock);
      } else {
        OrderElse(b, before, e);
      }
    }
  }
}
