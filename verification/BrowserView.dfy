// What a browser's activeThreads set means, in terms of the server's log and of its workers.
module BrowserView {
  import opened Broadcasts
  import opened Browser
  import opened Database
  import opened ServerMachine
  import opened Sessions
  import opened Wrappers

  /** The activeThreads of a page that was sent the log from a to b. */
  function View(log: seq<Entry>, a: nat, b: nat): set<nat>
    requires a <= b <= |log|
  {
    Consume(Segment(log, a, b)).activeThreads
  }

  /** Session k has broadcast "Thread Terminated" before position b of the log. */
  ghost predicate Over(log: seq<Entry>, b: nat, k: nat)
    requires b <= |log|
  {
    exists q :: 0 <= q < b && Ends(log[q], k)
  }

  predicate Ends(e: Entry, k: nat) { e.session == k && e.msg.Terminated? }

  /** Thread i has broadcast "Thread Spawned" between a and b, in a session not over by b. */
  ghost predicate Live(log: seq<Entry>, a: nat, b: nat, i: nat)
    requires a <= b <= |log|
  {
    exists p :: a <= p < b && log[p].msg == Spawned(i) && !Over(log, b, log[p].session)
  }

  /** The worker's session has broadcast its start and not yet its end. */
  predicate Announced(v: Worker) {
    v.Busy? && !v.pc.Handshake? && !(v.pc.SpawnCast? && v.sent.None?) && !Finishing(v)
  }

  predicate Finishing(v: Worker) { v.Busy? && v.pc.KillCast? && v.sent.Some? }

  /** The workers whose session was announced at position a of the log or later. */
  function Shown(s: State, a: nat): set<nat> {
    set i | 0 <= i < |s.workers| && Announced(s.workers[i]) && s.workers[i].spawnedAt >= a
  }

  ghost predicate ViewsAgree(s: State) {
    forall a: nat :: a <= |s.log| ==> View(s.log, a, |s.log|) == Shown(s, a)
  }

  /** The sessions running and those in the log have had their numbers given out. */
  predicate LogNumbered(s: State) {
    Numbered(s) && forall p :: 0 <= p < |s.log| ==> s.log[p].session < s.sessions
  }

  /** The announcement of every worker's session stands where the worker says. */
  predicate Stamped(s: State) {
    forall i :: 0 <= i < |s.workers| && Announced(s.workers[i]) ==>
      var v := s.workers[i];
      v.spawnedAt < |s.log| && s.log[v.spawnedAt] == Entry(v.session, Spawned(i))
  }

  ghost predicate NoneOver(s: State) {
    forall i :: 0 <= i < |s.workers| && s.workers[i].Busy? && !Finishing(s.workers[i]) ==>
      !Over(s.log, |s.log|, s.workers[i].session)
  }

  predicate IsAnnouncement(s: State, p: nat)
    requires p < |s.log| && s.log[p].msg.Spawned?
  {
    var i := s.log[p].msg.thread;
    i < |s.workers| && Announced(s.workers[i]) && s.workers[i].session == s.log[p].session && s.workers[i].spawnedAt == p
  }

  /** An announcement in the log is that of a worker's present session, or its session is over. */
  ghost predicate Matched(s: State) {
    forall p :: 0 <= p < |s.log| && s.log[p].msg.Spawned? ==>
      Over(s.log, |s.log|, s.log[p].session) || IsAnnouncement(s, p)
  }

  /** A connected session announced itself before it joined. */
  predicate AnnouncedFirst(s: State) {
    forall i :: 0 <= i < |s.workers| && Listed(s.workers[i]) ==>
      s.workers[i].sock in s.joined && s.workers[i].spawnedAt < s.joined[s.workers[i].sock]
  }

  ghost predicate Viewed(s: State) {
    ViewsAgree(s) && LogNumbered(s) && Stamped(s) && NoneOver(s) && Matched(s) && AnnouncedFirst(s)
  }

  // ---------------------------------------------------------------- step by step

  lemma ViewGrows(log: seq<Entry>, e: Entry, a: nat)
    requires a <= |log|
    ensures View(log + [e], a, |log| + 1) ==
            match e.msg
            case Spawned(i) => View(log, a, |log|) + {i}
            case Terminated(i) => View(log, a, |log|) - {i}
            case _ => View(log, a, |log|)
  {
    var longer := log + [e];
    SegmentGrows(log, e, a, |log|);
    SegmentOneMore(longer, a, |log|);
    ConsumeOne(Segment(log, a, |log|), e.msg);
  }

  lemma OverGrows(log: seq<Entry>, e: Entry, k: nat)
    ensures Over(log + [e], |log| + 1, k) <==> Over(log, |log|, k) || Ends(e, k)
  {
    var longer := log + [e];
    if Over(log, |log|, k) {
      var q :| 0 <= q < |log| && Ends(log[q], k);
      assert Ends(longer[q], k);
    }
    if Ends(e, k) {
      assert Ends(longer[|log|], k);
    }
  }

  lemma ViewsStart(b: Backend, s: State, w: nat)
    requires ViewsAgree(s) && Stamped(s) && Enabled(s, StartCast(w))
    ensures ViewsAgree(Apply(b, s, StartCast(w)))
  {
    var t, v := Apply(b, s, StartCast(w)), s.workers[w];
    var e := t.log[|s.log|];
    assert t.log == s.log + [e];
    forall a: nat | a <= |t.log| ensures View(t.log, a, |t.log|) == Shown(t, a) {
      if a <= |s.log| {
        ViewGrows(s.log, e, a);
        assert View(s.log, a, |s.log|) == Shown(s, a);
        forall i ensures i in Shown(t, a) <==> i in View(t.log, a, |t.log|) {
          assert i != w && 0 <= i < |s.workers| ==> t.workers[i] == s.workers[i];
        }
      } else {
        assert Segment(t.log, a, |t.log|) == [];
        forall i | 0 <= i < |t.workers| && Announced(t.workers[i]) ensures t.workers[i].spawnedAt < a {
          assert i != w ==> t.workers[i] == s.workers[i];
        }
      }
    }
  }

  lemma StampsStart(b: Backend, s: State, w: nat)
    requires LogNumbered(s) && Stamped(s) && NoneOver(s) && Matched(s) && Enabled(s, StartCast(w))
    ensures Stamped(Apply(b, s, StartCast(w))) && NoneOver(Apply(b, s, StartCast(w))) && LogNumbered(Apply(b, s, StartCast(w)))
  {
    var t, v := Apply(b, s, StartCast(w)), s.workers[w];
    var e := t.log[|s.log|];
    assert t.log == s.log + [e];
    forall i | 0 <= i < |t.workers| && t.workers[i].Busy? && !Finishing(t.workers[i])
      ensures !Over(t.log, |t.log|, t.workers[i].session)
    {
      OverGrows(s.log, e, t.workers[i].session);
      assert i != w ==> t.workers[i] == s.workers[i];
    }
  }

  lemma MatchStart(b: Backend, s: State, w: nat)
    requires LogNumbered(s) && Matched(s) && Enabled(s, StartCast(w))
    ensures Matched(Apply(b, s, StartCast(w)))
  {
    var t, v := Apply(b, s, StartCast(w)), s.workers[w];
    var e := t.log[|s.log|];
    assert t.log == s.log + [e];
    forall p | 0 <= p < |t.log| && t.log[p].msg.Spawned?
      ensures Over(t.log, |t.log|, t.log[p].session) || IsAnnouncement(t, p)
    {
      OverGrows(s.log, e, t.log[p].session);
      if p < |s.log| {
        assert t.log[p] == s.log[p];
      }
    }
  }

  lemma JoinedStart(b: Backend, s: State, w: nat)
    requires AnnouncedFirst(s) && Enabled(s, StartCast(w))
    ensures AnnouncedFirst(Apply(b, s, StartCast(w)))
  {
  }

  /** An event with no broadcast: who is announced, and where, does not change. */
  predicate Unannounced(s: State, t: State, w: nat) {
    && t.log == s.log && s.sessions <= t.sessions
    && w < |s.workers| == |t.workers| && t.workers == s.workers[w := t.workers[w]]
    && (Announced(t.workers[w]) <==> Announced(s.workers[w]))
    && (t.workers[w].Busy? ==>
          if s.workers[w].Busy?
          then t.workers[w].session == s.workers[w].session && t.workers[w].spawnedAt == s.workers[w].spawnedAt
            && (Finishing(s.workers[w]) ==> Finishing(t.workers[w]))
          else t.workers[w].session == s.sessions < t.sessions)
  }

  lemma UnannouncedStep(b: Backend, s: State, e: Event)
    requires MutexSound(s) && Enabled(s, e) && !e.Accept? && !e.StartCast?
    ensures Unannounced(s, Apply(b, s, e), e.w)
  {
  }

  lemma NumberedKept(s: State, t: State, w: nat)
    requires LogNumbered(s) && Unannounced(s, t, w)
    ensures LogNumbered(t)
  {
  }

  lemma ViewsKept(s: State, t: State, w: nat)
    requires ViewsAgree(s) && LogNumbered(s) && Stamped(s) && NoneOver(s) && Matched(s) && Unannounced(s, t, w)
    ensures ViewsAgree(t) && Stamped(t) && NoneOver(t) && Matched(t)
  {
    forall a: nat ensures Shown(t, a) == Shown(s, a) {
    }
    forall i | 0 <= i < |t.workers| && t.workers[i].Busy? && !Finishing(t.workers[i])
      ensures !Over(t.log, |t.log|, t.workers[i].session)
    {
      assert i != w ==> t.workers[i] == s.workers[i];
    }
    forall p | 0 <= p < |t.log| && t.log[p].msg.Spawned?
      ensures Over(t.log, |t.log|, t.log[p].session) || IsAnnouncement(t, p)
    {
      assert !Over(s.log, |s.log|, s.log[p].session) ==> IsAnnouncement(s, p);
    }
  }

  lemma JoinedAccept(b: Backend, s: State, h: Socket)
    requires SocketsOwned(s) && AnnouncedFirst(s) && Enabled(s, Accept(h))
    ensures AnnouncedFirst(Apply(b, s, Accept(h)))
  {
    forall i | 0 <= i < |s.workers| && Listed(s.workers[i]) ensures s.workers[i].sock != h {
      assert Owns(s.workers[i]);
    }
  }

  lemma JoinedJoin(b: Backend, s: State, w: nat)
    requires SocketsOwned(s) && Stamped(s) && AnnouncedFirst(s) && Enabled(s, Join(w))
    ensures AnnouncedFirst(Apply(b, s, Join(w)))
  {
    var t := Apply(b, s, Join(w));
    assert Announced(s.workers[w]);
    forall i | 0 <= i < |t.workers| && Listed(t.workers[i]) && i != w
      ensures t.workers[i].sock in t.joined && t.workers[i].spawnedAt < t.joined[t.workers[i].sock]
    {
      assert t.workers[i] == s.workers[i] && Owns(s.workers[i]) && Owns(s.workers[w]);
    }
  }

  lemma JoinedOther(b: Backend, s: State, e: Event)
    requires MutexSound(s) && AnnouncedFirst(s) && Enabled(s, e) && !e.Accept? && !e.StartCast? && !e.Join?
    ensures AnnouncedFirst(Apply(b, s, e))
  {
    var t := Apply(b, s, e);
    assert t.joined == s.joined;
    var v, u := s.workers[e.w], t.workers[e.w];
    assert Listed(u) ==> Listed(v) && u.sock == v.sock && u.spawnedAt == v.spawnedAt;
  }

  lemma ViewedStep(b: Backend, s: State, e: Event)
    requires Wired(s) && Viewed(s) && Enabled(s, e)
    ensures Viewed(Apply(b, s, e))
  {
    if e.Accept? {
      JoinedAccept(b, s, e.h);
      ViewsAccept(b, s, e.h);
    } else if e.StartCast? {
      ViewsStart(b, s, e.w);
      StampsStart(b, s, e.w);
      MatchStart(b, s, e.w);
      JoinedStart(b, s, e.w);
    } else {
      var t := Apply(b, s, e);
      UnannouncedStep(b, s, e);
      NumberedKept(s, t, e.w);
      ViewsKept(s, t, e.w);
      if e.Join? {
        JoinedJoin(b, s, e.w);
      } else {
        JoinedOther(b, s, e);
      }
    }
  }

  lemma ViewsAccept(b: Backend, s: State, h: Socket)
    requires ViewsAgree(s) && LogNumbered(s) && Stamped(s) && NoneOver(s) && Matched(s) && Enabled(s, Accept(h))
    ensures var t := Apply(b, s, Accept(h)); ViewsAgree(t) && LogNumbered(t) && Stamped(t) && NoneOver(t) && Matched(t)
  {
    var t := Apply(b, s, Accept(h));
    assert t.workers == s.workers && t.log == s.log;
    forall a: nat ensures Shown(t, a) == Shown(s, a) {
    }
    forall p | 0 <= p < |t.log| && t.log[p].msg.Spawned?
      ensures Over(t.log, |t.log|, t.log[p].session) || IsAnnouncement(t, p)
    {
      assert !Over(s.log, |s.log|, s.log[p].session) ==> IsAnnouncement(s, p);
    }
  }

  lemma {:induction false} ViewedRun(b: Backend, n: nat, table: Table, es: seq<Event>, t: State)
    requires Exec(b, Initial(n, table), es) == Some(t)
    ensures Viewed(t) && Wired(t)
  {
    WiredRun(b, n, table, es, t);
    if |es| > 0 {
      var before, e := Exec(b, Initial(n, table), es[..|es| - 1]).value, es[|es| - 1];
      ViewedRun(b, n, table, es[..|es| - 1], before);
      ViewedStep(b, before, e);
    } else {
      assert forall a: nat :: a <= |t.log| ==> Segment(t.log, a, |t.log|) == [];
    }
  }

  // ---------------------------------------------------------------- the theorems

  lemma LogGrowsByOne(b: Backend, s: State, e: Event)
    requires Enabled(s, e)
    ensures var l := Apply(b, s, e).log; l == s.log || (|l| == |s.log| + 1 && l[..|s.log|] == s.log)
  {
  }

  /** Every prefix of the log was the whole log at some earlier state of the run. */
  lemma {:induction false} EarlierLog(b: Backend, n: nat, table: Table, es: seq<Event>, t: State, k: nat)
    returns (before: seq<Event>, s: State)
    requires Exec(b, Initial(n, table), es) == Some(t) && k <= |t.log|
    ensures Exec(b, Initial(n, table), before) == Some(s) && s.log == t.log[..k]
  {
    if k == |t.log| {
      before, s := es, t;
      assert t.log[..k] == t.log;
    } else {
      var shorter := es[..|es| - 1];
      var u := Exec(b, Initial(n, table), shorter).value;
      LogGrowsByOne(b, u, es[|es| - 1]);
      before, s := EarlierLog(b, n, table, shorter, u, k);
      assert t.log[..|u.log|] == u.log && u.log[..k] == t.log[..k];
    }
  }

  lemma LiveIsShown(s: State, a: nat, i: nat)
    requires Viewed(s) && a <= |s.log|
    ensures Live(s.log, a, |s.log|, i) <==> i in Shown(s, a)
  {
    if i in Shown(s, a) {
      assert s.log[s.workers[i].spawnedAt].msg == Spawned(i);
    }
    if Live(s.log, a, |s.log|, i) {
      var p :| a <= p < |s.log| && s.log[p].msg == Spawned(i) && !Over(s.log, |s.log|, s.log[p].session);
      assert IsAnnouncement(s, p);
    }
  }

  lemma LiveInPrefix(log: seq<Entry>, a: nat, b: nat, i: nat)
    requires a <= b <= |log|
    ensures Live(log[..b], a, b, i) <==> Live(log, a, b, i)
  {
    forall k ensures Over(log[..b], b, k) <==> Over(log, b, k) {
      if Over(log, b, k) {
        var q :| 0 <= q < b && Ends(log[q], k);
        assert Ends(log[..b][q], k);
      }
    }
    if Live(log, a, b, i) {
      var p :| a <= p < b && log[p].msg == Spawned(i) && !Over(log, b, log[p].session);
      assert log[..b][p] == log[p];
    }
  }

  /** The page of client c has processed all the frames sent to it, whatever its user has sent meanwhile. */
  predicate Processed(t: State, c: Socket, inputs: seq<Input>) {
    c in t.inbox && FramesOf(inputs) == t.inbox[c]
  }

  /**
   * Such a page shows exactly the threads announced in that part of the log by a session whose end
   * has not been broadcast.
   */
  lemma PageShowsLiveThreads(b: Backend, n: nat, table: Table, es: seq<Event>, t: State, c: Socket, inputs: seq<Input>, i: nat)
    requires Exec(b, Initial(n, table), es) == Some(t) && (c in t.clients || c in t.left) && Processed(t, c, inputs)
    ensures c in t.joined && t.joined[c] <= EndOf(t, c) <= |t.log|
    ensures i in Show(inputs).activeThreads <==> Live(t.log, t.joined[c], EndOf(t, c), i)
  {
    TotalOrderBroadcast(b, n, table, es, t, c);
    SendingKeepsThreads(inputs);
    var from, to := t.joined[c], EndOf(t, c);
    var before, s := EarlierLog(b, n, table, es, t, to);
    ViewedRun(b, n, table, before, s);
    assert t.inbox[c] == Segment(s.log, from, to);
    LiveIsShown(s, from, i);
    LiveInPrefix(t.log, from, to, i);
    assert View(s.log, from, |s.log|) == Shown(s, from);
  }

  /** What a page displays of the broadcasts made since its client joined, panel by panel. */
  lemma PageShowsTheLog(b: Backend, n: nat, table: Table, es: seq<Event>, t: State, c: Socket, inputs: seq<Input>)
    requires Exec(b, Initial(n, table), es) == Some(t) && (c in t.clients || c in t.left) && Processed(t, c, inputs)
    ensures c in t.joined && t.joined[c] <= EndOf(t, c) <= |t.log|
    ensures var page, part := Show(inputs), Segment(t.log, t.joined[c], EndOf(t, c));
            BroadcastsIn(page.messages) == Select(IsChat, part) && OwnIn(page.messages) == SentOf(inputs) &&
            page.osLogs == Select(IsOsEvent, part) && page.dbLogs == Select(IsDbEvent, part)
  {
    TotalOrderBroadcast(b, n, table, es, t, c);
    PanelsHoldTheFrames(inputs);
  }

  /** A page that is up to date with the log shows the workers now in a session announced after it joined. */
  lemma PageShowsWorkers(b: Backend, n: nat, table: Table, es: seq<Event>, t: State, c: Socket, inputs: seq<Input>)
    requires Exec(b, Initial(n, table), es) == Some(t) && c in t.clients && Processed(t, c, inputs) && t.mutex.None?
    ensures c in t.joined && Show(inputs).activeThreads == Shown(t, t.joined[c])
  {
    TotalOrderBroadcast(b, n, table, es, t, c);
    SendingKeepsThreads(inputs);
    ViewedRun(b, n, table, es, t);
    assert View(t.log, t.joined[c], |t.log|) == Shown(t, t.joined[c]);
  }

  /** The last broadcast, if it is still being sent, does not end the session of a connected client. */
  lemma LastIsNotItsEnd(t: State, w: nat)
    requires MutexSound(t) && CurrentIsLast(t) && t.mutex.Some? && w < |t.workers| && Listed(t.workers[w]) && |t.log| > 0
    ensures t.log[|t.log| - 1].msg != Terminated(w)
  {
    assert Sending(t.workers[t.mutex.value]);
  }

  /**
   * While a client is connected its page never shows the thread of its own session: the session
   * announces its thread before its own socket joins the list.
   */
  lemma PageMissesItsOwnThread(b: Backend, n: nat, table: Table, es: seq<Event>, t: State, c: Socket, inputs: seq<Input>)
    returns (w: nat)
    requires Exec(b, Initial(n, table), es) == Some(t) && c in t.clients && Processed(t, c, inputs)
    ensures w < |t.workers| && ListedAs(t.workers[w], c) && w in Shown(t, 0)
    ensures w !in Show(inputs).activeThreads
  {
    TotalOrderBroadcast(b, n, table, es, t, c);
    DeliveredRun(b, n, table, es, t);
    ViewedRun(b, n, table, es, t);
    SendingKeepsThreads(inputs);
    assert InSession(t.workers, c);
    w :| 0 <= w < |t.workers| && ListedAs(t.workers[w], c);
    NotInView(t, c, w);
  }

  lemma NotInView(t: State, c: Socket, w: nat)
    requires Viewed(t) && MutexSound(t) && CurrentIsLast(t) && w < |t.workers| && ListedAs(t.workers[w], c)
    requires c in t.joined && c in t.inbox
    requires HasSegment(t, c, |t.log|) || (t.mutex.Some? && |t.log| > 0 && HasSegment(t, c, |t.log| - 1))
    ensures w !in Consume(t.inbox[c]).activeThreads
  {
    var from, n := t.joined[c], |t.log|;
    assert View(t.log, from, n) == Shown(t, from) && w !in Shown(t, from);
    if !HasSegment(t, c, n) {
      var before, e := t.log[..n - 1], t.log[n - 1];
      assert t.log == before + [e];
      SegmentGrows(before, e, from, n - 1);
      ViewGrows(before, e, from);
      LastIsNotItsEnd(t, w);
      assert View(before, from, n - 1) == Consume(t.inbox[c]).activeThreads;
    }
  }

  /** So between broadcasts the count on the page is always short. */
  lemma PageCountIsShort(b: Backend, n: nat, table: Table, es: seq<Event>, t: State, c: Socket, inputs: seq<Input>)
    requires Exec(b, Initial(n, table), es) == Some(t) && c in t.clients && Processed(t, c, inputs) && t.mutex.None?
    ensures |Show(inputs).activeThreads| < |Shown(t, 0)|
  {
    PageShowsWorkers(b, n, table, es, t, c, inputs);
    var w := PageMissesItsOwnThread(b, n, table, es, t, c, inputs);
    var page, all := Shown(t, t.joined[c]), Shown(t, 0);
    assert page <= all - {w};
    SmallerSet(page, all - {w});
  }

  /** The server with one client c, whose session is about to do what pc says. */
  function OneClient(table: Table, c: Socket, pc: Pc): State {
    State([], [Busy(c, 0, pc, Request("", false), None, 0)], [], None, {c}, Engine(table, None), [], map[c := []], map[], map[], 1)
  }

  lemma FirstClientAccepted(b: Backend, table: Table, c: Socket) returns (es: seq<Event>)
    ensures Exec(b, Initial(1, table), es) == Some(OneClient(table, c, SpawnCast))
  {
    var s := Initial(1, table);
    var s1 := Apply(b, s, Accept(c));
    ExecMore(b, s, [], s, Accept(c));
    ExecMore(b, s, [] + [Accept(c)], s1, Take(0));
    assert Apply(b, s1, Take(0)) == OneClient(table, c, Handshake);
    ExecMore(b, s, [] + [Accept(c)] + [Take(0)], OneClient(table, c, Handshake), HandshakeDone(0));
    assert Apply(b, OneClient(table, c, Handshake), HandshakeDone(0)).workers == OneClient(table, c, SpawnCast).workers;
    es := [] + [Accept(c)] + [Take(0)] + [HandshakeDone(0)];
  }

  /** The first client of a pool with one worker gets connected. */
  lemma FirstClientConnects(b: Backend, table: Table, c: Socket) returns (es: seq<Event>, t: State)
    ensures Exec(b, Initial(1, table), es) == Some(t) && t.clients == [c] && t.mutex.None?
    ensures Processed(t, c, []) && Shown(t, 0) == {0}
  {
    var s, s3 := Initial(1, table), OneClient(table, c, SpawnCast);
    es := FirstClientAccepted(b, table, c);
    var s4 := Apply(b, s3, StartCast(0));
    ExecMore(b, s, es, s3, StartCast(0));
    var s5 := Apply(b, s4, EndCast(0));
    ExecMore(b, s, es + [StartCast(0)], s4, EndCast(0));
    t := Apply(b, s5, Join(0));
    ExecMore(b, s, es + [StartCast(0)] + [EndCast(0)], s5, Join(0));
    es := es + [StartCast(0)] + [EndCast(0)] + [Join(0)];
  }

  lemma {:induction false} SmallerSet(x: set<nat>, y: set<nat>)
    requires x <= y
    ensures |x| <= |y|
  {
    if x != {} {
      var e :| e in x;
      SmallerSet(x - {e}, y - {e});
    }
  }
}
