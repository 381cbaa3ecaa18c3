// What one session says: the grammar of its broadcasts, and how many sessions are connected at once.
module Sessions {
  import opened Browser
  import opened Database
  import opened ServerMachine
  import opened Wrappers

  /** One received message and whether its transaction succeeded. */
  datatype Round = Round(text: string, ok: bool)

  function RoundOf(thread: nat, r: Round): seq<Msg> {
    [Begun, Inserted(r.text), Outcome(r.ok), MutexLocked(thread), Chat(thread, r.text)]
  }

  function Rounds(thread: nat, rs: seq<Round>): seq<Msg> {
    if |rs| == 0 then [] else Rounds(thread, rs[..|rs| - 1]) + RoundOf(thread, rs[|rs| - 1])
  }

  /** What a session has said after the rounds rs. */
  function Opened(thread: nat, rs: seq<Round>): seq<Msg> { [Spawned(thread)] + Rounds(thread, rs) }

  /** Everything a session broadcasts: Spawned (Begun Inserted (Committed | RolledBack) MutexLocked Chat)* Terminated. */
  function Script(thread: nat, rs: seq<Round>): seq<Msg> { Opened(thread, rs) + [Terminated(thread)] }

  lemma {:induction false} RoundsAt(thread: nat, rs: seq<Round>, i: nat)
    requires i < |rs|
    ensures |Rounds(thread, rs)| == 5 * |rs|
    ensures Rounds(thread, rs)[5 * i..5 * i + 5] ==
            [Begun, Inserted(rs[i].text), if rs[i].ok then Committed else RolledBack, MutexLocked(thread), Chat(thread, rs[i].text)]
  {
    var front, n := rs[..|rs| - 1], |rs| - 1;
    RoundsLength(thread, front);
    assert Rounds(thread, rs) == Rounds(thread, front) + RoundOf(thread, rs[n]);
    if i < n {
      RoundsAt(thread, front, i);
      SliceOfPrefix(Rounds(thread, front), RoundOf(thread, rs[n]), 5 * i, 5 * i + 5);
    }
  }

  lemma SliceOfPrefix<T>(x: seq<T>, y: seq<T>, i: nat, j: nat)
    requires i <= j <= |x|
    ensures (x + y)[i..j] == x[i..j]
  {
  }

  lemma {:induction false} RoundsLength(thread: nat, rs: seq<Round>)
    ensures |Rounds(thread, rs)| == 5 * |rs|
  {
    if |rs| > 0 {
      RoundsLength(thread, rs[..|rs| - 1]);
    }
  }

  /** A script message by message: its ends, and the five about each round. */
  lemma ScriptAt(thread: nat, rs: seq<Round>)
    ensures |Script(thread, rs)| == 5 * |rs| + 2
    ensures Script(thread, rs)[0] == Spawned(thread) && Script(thread, rs)[5 * |rs| + 1] == Terminated(thread)
    ensures forall i {:trigger rs[i]} :: 0 <= i < |rs| ==>
              Script(thread, rs)[5 * i + 1..5 * i + 6] ==
              [Begun, Inserted(rs[i].text), if rs[i].ok then Committed else RolledBack, MutexLocked(thread), Chat(thread, rs[i].text)]
  {
    RoundsLength(thread, rs);
    forall i {:trigger rs[i]} | 0 <= i < |rs|
      ensures Script(thread, rs)[5 * i + 1..5 * i + 6] ==
              [Begun, Inserted(rs[i].text), if rs[i].ok then Committed else RolledBack, MutexLocked(thread), Chat(thread, rs[i].text)]
    {
      RoundsAt(thread, rs, i);
      assert Script(thread, rs)[5 * i + 1..5 * i + 6] == Rounds(thread, rs)[5 * i..5 * i + 5];
    }
  }

  function Projection(log: seq<Entry>, k: nat): seq<Msg> {
    if |log| == 0 then []
    else
      var last, before := log[|log| - 1], Projection(log[..|log| - 1], k);
      if last.session == k then before + [last.msg] else before
  }

  predicate FollowsScript(ms: seq<Msg>, thread: nat, rs: seq<Round>) { ms <= Script(thread, rs) }

  // ---------------------------------------------------------------- a recogniser of the grammar

  /** What a session may broadcast next. */
  datatype Phase = Fresh | Ready(thread: nat) | Began(thread: nat) | Inserting(thread: nat, text: string)
                 | Reported(thread: nat, text: string) | Locked(thread: nat, text: string) | Ended(thread: nat) | Wrong

  function Next(p: Phase, m: Msg): Phase {
    match p
    case Fresh => if m.Spawned? then Ready(m.thread) else Wrong
    case Ready(i) => if m.Begun? then Began(i) else if m == Terminated(i) then Ended(i) else Wrong
    case Began(i) => if m.Inserted? then Inserting(i, m.text) else Wrong
    case Inserting(i, x) => if m.Committed? || m.RolledBack? then Reported(i, x) else Wrong
    case Reported(i, x) => if m == MutexLocked(i) then Locked(i, x) else Wrong
    case Locked(i, x) => if m == Chat(i, x) then Ready(i) else Wrong
    case _ => Wrong
  }

  function Scan(ms: seq<Msg>): Phase {
    if |ms| == 0 then Fresh else Next(Scan(ms[..|ms| - 1]), ms[|ms| - 1])
  }

  lemma ScanOne(ms: seq<Msg>, m: Msg)
    ensures Scan(ms + [m]) == Next(Scan(ms), m)
  {
    assert (ms + [m])[..|ms|] == ms;
  }

  function Outcome(ok: bool): Msg { if ok then Committed else RolledBack }

  /** The part of a round said when in phase p. */
  function Partial(p: Phase, ok: bool): seq<Msg> {
    match p
    case Began(_) => [Begun]
    case Inserting(_, x) => [Begun, Inserted(x)]
    case Reported(_, x) => [Begun, Inserted(x), Outcome(ok)]
    case Locked(i, x) => [Begun, Inserted(x), Outcome(ok), MutexLocked(i)]
    case _ => []
  }

  /** A sequence in phase p spelt out: the complete rounds, then part of one with outcome ok. */
  predicate SpelledOut(ms: seq<Msg>, p: Phase, rs: seq<Round>, ok: bool) {
    match p
    case Wrong => false
    case Fresh => ms == []
    case Ended(i) => ms == Script(i, rs)
    case _ => ms == Opened(p.thread, rs) + Partial(p, ok)
  }

  lemma OneMoreRound(thread: nat, rs: seq<Round>, r: Round)
    ensures Opened(thread, rs + [r]) == Opened(thread, rs) + RoundOf(thread, r)
  {
    assert (rs + [r])[..|rs|] == rs;
  }

  lemma PartialGrows(p: Phase, m: Msg, ok: bool)
    requires p.Ready? || p.Began? || p.Inserting? || p.Reported?
    requires !Next(p, m).Wrong? && !Next(p, m).Ended?
    ensures Partial(Next(p, m), if p.Inserting? then m.Committed? else ok) == Partial(p, ok) + [m]
  {
  }

  lemma SpelledOutStep(before: seq<Msg>, p: Phase, m: Msg, rs: seq<Round>, ok: bool) returns (rs': seq<Round>, ok': bool)
    requires SpelledOut(before, p, rs, ok) && !Next(p, m).Wrong?
    ensures SpelledOut(before + [m], Next(p, m), rs', ok')
    ensures rs' == if p.Fresh? then [] else if p.Locked? then rs + [Round(p.text, ok)] else rs
    ensures ok' == if p.Inserting? then m.Committed? else ok
  {
    rs', ok' := rs, ok;
    if p.Fresh? {
      rs' := [];
    } else if p.Locked? {
      var r := Round(p.text, ok);
      OneMoreRound(p.thread, rs, r);
      assert Partial(p, ok) + [m] == RoundOf(p.thread, r);
      rs' := rs + [r];
    } else if Next(p, m).Ended? {
      assert Partial(p, ok) == [];
    } else {
      PartialGrows(p, m, ok);
      ok' := if p.Inserting? then m.Committed? else ok;
      assert before + [m] == Opened(p.thread, rs) + (Partial(p, ok) + [m]);
    }
  }

  /** The recogniser's phase says what was accepted. */
  lemma {:induction false} SpellOut(ms: seq<Msg>) returns (rs: seq<Round>, ok: bool)
    requires !Scan(ms).Wrong?
    ensures SpelledOut(ms, Scan(ms), rs, ok)
  {
    rs, ok := [], true;
    if |ms| > 0 {
      rs, ok := SpellOut(ms[..|ms| - 1]);
      assert ms == ms[..|ms| - 1] + [ms[|ms| - 1]];
      rs, ok := SpelledOutStep(ms[..|ms| - 1], Scan(ms[..|ms| - 1]), ms[|ms| - 1], rs, ok);
    }
  }

  lemma ScriptOf(ms: seq<Msg>) returns (thread: nat, rs: seq<Round>)
    requires !Scan(ms).Wrong?
    ensures FollowsScript(ms, thread, rs)
    ensures Scan(ms).Ended? ==> ms == Script(thread, rs)
    ensures Scan(ms).Fresh? ==> ms == []
  {
    var p, ok := Scan(ms), true;
    rs, ok := SpellOut(ms);
    thread := if p.Fresh? then 0 else p.thread;
    if p.Began? || p.Inserting? || p.Reported? || p.Locked? {
      var r := Round(if p.Began? then "" else p.text, ok);
      OneMoreRound(thread, rs, r);
      assert Partial(p, ok) <= RoundOf(thread, r);
      rs := rs + [r];
    }
  }

  lemma ScanRound(ms: seq<Msg>, thread: nat, r: Round)
    requires Scan(ms) == Ready(thread)
    ensures Scan(ms + RoundOf(thread, r)) == Ready(thread)
  {
    var m1 := ms + [Begun];
    var m2 := m1 + [Inserted(r.text)];
    var m3 := m2 + [Outcome(r.ok)];
    var m4 := m3 + [MutexLocked(thread)];
    ScanOne(ms, Begun);
    ScanOne(m1, Inserted(r.text));
    ScanOne(m2, Outcome(r.ok));
    ScanOne(m3, MutexLocked(thread));
    ScanOne(m4, Chat(thread, r.text));
    assert ms + RoundOf(thread, r) == m4 + [Chat(thread, r.text)];
  }

  lemma {:induction false} ScanOpened(thread: nat, rs: seq<Round>)
    ensures Scan(Opened(thread, rs)) == Ready(thread)
  {
    if |rs| == 0 {
      assert Opened(thread, rs) == [] + [Spawned(thread)];
      ScanOne([], Spawned(thread));
    } else {
      var before := rs[..|rs| - 1];
      ScanOpened(thread, before);
      ScanRound(Opened(thread, before), thread, rs[|rs| - 1]);
      assert Opened(thread, rs) == Opened(thread, before) + RoundOf(thread, rs[|rs| - 1]);
    }
  }

  lemma {:induction false} PrefixAccepted(ms: seq<Msg>, k: nat)
    requires k <= |ms| && !Scan(ms).Wrong?
    ensures !Scan(ms[..k]).Wrong?
  {
    if k < |ms| {
      PrefixAccepted(ms[..|ms| - 1], k);
      assert ms[..|ms| - 1][..k] == ms[..k];
    } else {
      assert ms[..k] == ms;
    }
  }

  lemma PrefixOfScript(ms: seq<Msg>, thread: nat, rs: seq<Round>)
    requires FollowsScript(ms, thread, rs)
    ensures !Scan(ms).Wrong?
  {
    ScanOpened(thread, rs);
    ScanOne(Opened(thread, rs), Terminated(thread));
    PrefixAccepted(Script(thread, rs), |ms|);
    assert ms == Script(thread, rs)[..|ms|];
  }

  /** The recogniser accepts exactly the prefixes of scripts. */
  lemma RecogniserIsExact(ms: seq<Msg>)
    ensures !Scan(ms).Wrong? <==> exists thread, rs :: FollowsScript(ms, thread, rs)
  {
    if !Scan(ms).Wrong? {
      var thread, rs := ScriptOf(ms);
      assert FollowsScript(ms, thread, rs);
    } else {
      forall thread, rs ensures !FollowsScript(ms, thread, rs) {
        if FollowsScript(ms, thread, rs) {
          PrefixOfScript(ms, thread, rs);
          assert false;
        }
      }
    }
  }

  // ---------------------------------------------------------------- every session follows it

  /** The phase of a session about to act at a pc. */
  function PhaseBefore(thread: nat, pc: Pc, r: Request): Phase {
    match pc
    case Handshake => Fresh
    case SpawnCast => Fresh
    case InsertCast => Began(thread)
    case TxBegin => Inserting(thread, r.text)
    case TxInsert => Inserting(thread, r.text)
    case TxCommit => Inserting(thread, r.text)
    case TxRollback => Inserting(thread, r.text)
    case OutcomeCast(_) => Inserting(thread, r.text)
    case MutexCast => Reported(thread, r.text)
    case ChatCast => Locked(thread, r.text)
    case _ => Ready(thread)
  }

  function PhaseNow(thread: nat, v: Worker): Phase
    requires v.Busy?
  {
    var p := PhaseBefore(thread, v.pc, v.request);
    if v.sent.None? then p else Next(p, MsgAt(thread, v.pc, v.request))
  }

  predicate Numbered(s: State) {
    && (forall i :: 0 <= i < |s.workers| && s.workers[i].Busy? ==> s.workers[i].session < s.sessions)
    && (forall i, j :: 0 <= i < j < |s.workers| && s.workers[i].Busy? && s.workers[j].Busy? ==>
          s.workers[i].session != s.workers[j].session)
  }

  ghost predicate Running(ws: seq<Worker>, k: nat) {
    exists i :: 0 <= i < |ws| && Runs(ws[i], k)
  }

  predicate Runs(v: Worker, k: nat) { v.Busy? && v.session == k }

  predicate Settled(log: seq<Entry>, k: nat) {
    var p := Scan(Projection(log, k));
    p.Fresh? || p.Ended?
  }

  ghost predicate Tracked(s: State) {
    && (forall i :: 0 <= i < |s.workers| && s.workers[i].Busy? ==>
          Scan(Projection(s.log, s.workers[i].session)) == PhaseNow(i, s.workers[i]))
    && (forall k: nat :: Running(s.workers, k) || Settled(s.log, k))
    && (forall k: nat :: k >= s.sessions ==> Projection(s.log, k) == [])
  }

  lemma ProjectionGrows(log: seq<Entry>, e: Entry, k: nat)
    ensures Projection(log + [e], k) == if e.session == k then Projection(log, k) + [e.msg] else Projection(log, k)
  {
    assert (log + [e])[..|log|] == log;
  }

  /** Worker w goes on with its session or ends it, and none begins. */
  predicate KeepsSession(s: State, t: State, w: nat) {
    && w < |s.workers| == |t.workers| && t.workers == s.workers[w := t.workers[w]] && t.sessions == s.sessions
    && (t.workers[w].Busy? ==> s.workers[w].Busy? && t.workers[w].session == s.workers[w].session)
  }

  lemma NumberedMove(b: Backend, s: State, e: Event)
    requires Enabled(s, e) && !e.Accept? && !e.Take?
    ensures KeepsSession(s, Apply(b, s, e), e.w)
  {
  }

  lemma NumberedKept(s: State, t: State, w: nat)
    requires Numbered(s) && KeepsSession(s, t, w)
    ensures Numbered(t)
  {
  }

  lemma NumberedStep(b: Backend, s: State, e: Event)
    requires Numbered(s) && Enabled(s, e)
    ensures Numbered(Apply(b, s, e))
  {
    if !e.Accept? && !e.Take? {
      NumberedMove(b, s, e);
      NumberedKept(s, Apply(b, s, e), e.w);
    }
  }

  lemma StillRunning(ws: seq<Worker>, us: seq<Worker>, k: nat)
    requires Running(ws, k) && |us| == |ws|
    requires forall i :: 0 <= i < |ws| && Runs(ws[i], k) ==> Runs(us[i], k)
    ensures Running(us, k)
  {
    var i :| 0 <= i < |ws| && Runs(ws[i], k);
    assert Runs(us[i], k);
  }

  lemma TrackedStart(b: Backend, s: State, w: nat)
    requires MutexSound(s) && Numbered(s) && Tracked(s) && Enabled(s, StartCast(w))
    ensures Tracked(Apply(b, s, StartCast(w)))
  {
    var t, v := Apply(b, s, StartCast(w)), s.workers[w];
    var e := Entry(v.session, MsgAt(w, v.pc, v.request));
    assert t.log == s.log + [e];
    ScanOne(Projection(s.log, v.session), e.msg);
    forall k: nat ensures Projection(t.log, k) == if v.session == k then Projection(s.log, k) + [e.msg] else Projection(s.log, k) {
      ProjectionGrows(s.log, e, k);
    }
    forall k: nat ensures Running(t.workers, k) || Settled(t.log, k) {
      if k == v.session {
        assert Runs(t.workers[w], k);
      } else if Running(s.workers, k) {
        StillRunning(s.workers, t.workers, k);
      }
    }
    forall i | 0 <= i < |t.workers| && t.workers[i].Busy?
      ensures Scan(Projection(t.log, t.workers[i].session)) == PhaseNow(i, t.workers[i])
    {
      if i != w {
        assert t.workers[i] == s.workers[i];
      }
    }
  }

  /** An event that broadcasts nothing: one worker moves on in its phase, or starts or ends a session. */
  predicate Silent(s: State, t: State, w: nat) {
    && t.log == s.log && s.sessions <= t.sessions
    && w < |s.workers| == |t.workers| && t.workers == s.workers[w := t.workers[w]]
    && (t.workers[w].Busy? ==>
          if s.workers[w].Busy?
          then t.workers[w].session == s.workers[w].session && PhaseNow(w, t.workers[w]) == PhaseNow(w, s.workers[w])
          else t.workers[w].session == s.sessions && PhaseNow(w, t.workers[w]) == Fresh)
    && (t.workers[w].Idle? ==> s.workers[w].Busy? && (PhaseNow(w, s.workers[w]).Fresh? || PhaseNow(w, s.workers[w]).Ended?))
  }

  lemma SilentEnd(b: Backend, s: State, w: nat)
    requires MutexSound(s) && Enabled(s, EndCast(w))
    ensures Silent(s, Apply(b, s, EndCast(w)), w)
  {
    assert IsCast(s.workers[w].pc);
  }

  lemma SilentQuery(b: Backend, s: State, w: nat, ok: bool)
    requires Enabled(s, Query(w, ok))
    ensures Silent(s, Apply(b, s, Query(w, ok)), w)
  {
  }

  lemma SilentEdge(b: Backend, s: State, e: Event)
    requires Enabled(s, e) && (e.Take? || e.HandshakeFailed? || e.HandshakeDone?)
    ensures Silent(s, Apply(b, s, e), e.w)
  {
  }

  lemma SilentSend(b: Backend, s: State, w: nat)
    requires Enabled(s, SendOne(w))
    ensures Silent(s, Apply(b, s, SendOne(w)), w)
  {
  }

  lemma SilentMove(b: Backend, s: State, e: Event)
    requires Enabled(s, e) && (e.Join? || e.Leave? || e.CloseSocket?)
    ensures Silent(s, Apply(b, s, e), e.w)
  {
    var u := Apply(b, s, e).workers[e.w];
    assert PhaseNow(e.w, u) == Ready(e.w) == PhaseNow(e.w, s.workers[e.w]);
  }

  lemma SilentReceive(b: Backend, s: State, e: Event)
    requires Enabled(s, e) && (e.Message? || e.Disconnect?)
    ensures Silent(s, Apply(b, s, e), e.w)
  {
    var u := Apply(b, s, e).workers[e.w];
    assert PhaseNow(e.w, u) == Ready(e.w) == PhaseNow(e.w, s.workers[e.w]);
  }

  lemma SilentStep(b: Backend, s: State, e: Event)
    requires MutexSound(s) && Enabled(s, e) && !e.Accept? && !e.StartCast?
    ensures Silent(s, Apply(b, s, e), e.w)
  {
    if e.EndCast? {
      SilentEnd(b, s, e.w);
    } else if e.Query? {
      SilentQuery(b, s, e.w, e.ok);
    } else if e.Take? || e.HandshakeFailed? || e.HandshakeDone? {
      SilentEdge(b, s, e);
    } else if e.SendOne? {
      SilentSend(b, s, e.w);
    } else if e.Message? || e.Disconnect? {
      SilentReceive(b, s, e);
    } else {
      SilentMove(b, s, e);
    }
  }

  lemma TrackedSilent(s: State, t: State, w: nat)
    requires Tracked(s) && Silent(s, t, w)
    ensures Tracked(t)
  {
    forall k: nat ensures Running(t.workers, k) || Settled(t.log, k) {
      if !Settled(s.log, k) {
        assert Running(s.workers, k);
        forall i | 0 <= i < |s.workers| && Runs(s.workers[i], k) ensures Runs(t.workers[i], k) {
        }
        StillRunning(s.workers, t.workers, k);
      }
    }
  }

  lemma TrackedStep(b: Backend, s: State, e: Event)
    requires MutexSound(s) && Numbered(s) && Tracked(s) && Enabled(s, e)
    ensures Tracked(Apply(b, s, e))
  {
    match e
    case Accept(_) =>
    case StartCast(w) => TrackedStart(b, s, w);
    case _ =>
      SilentStep(b, s, e);
      TrackedSilent(s, Apply(b, s, e), e.w);
  }

  lemma {:induction false} TrackedRun(b: Backend, n: nat, table: Table, es: seq<Event>, t: State)
    requires Exec(b, Initial(n, table), es) == Some(t)
    ensures Numbered(t) && Tracked(t)
  {
    if |es| > 0 {
      var before, e := Exec(b, Initial(n, table), es[..|es| - 1]).value, es[|es| - 1];
      TrackedRun(b, n, table, es[..|es| - 1], before);
      WiredRun(b, n, table, es[..|es| - 1], before);
      NumberedStep(b, before, e);
      TrackedStep(b, before, e);
    }
  }

  lemma PhaseNowIsRight(i: nat, v: Worker)
    requires v.Busy? && (v.sent.Some? ==> IsCast(v.pc))
    ensures !PhaseNow(i, v).Wrong?
  {
  }

  lemma NeverWrong(t: State, k: nat)
    requires MutexSound(t) && Tracked(t)
    ensures !Scan(Projection(t.log, k)).Wrong?
  {
    if Running(t.workers, k) {
      var i :| 0 <= i < |t.workers| && Runs(t.workers[i], k);
      PhaseNowIsRight(i, t.workers[i]);
    } else {
      assert Settled(t.log, k);
    }
  }

  /**
   * In every reachable state the broadcasts of every session are a prefix of a script on one
   * thread; a session no worker runs has said nothing or all of it.
   */
  lemma SessionsFollowTheScript(b: Backend, n: nat, table: Table, es: seq<Event>, t: State, k: nat)
    requires Exec(b, Initial(n, table), es) == Some(t)
    ensures exists thread, rs :: FollowsScript(Projection(t.log, k), thread, rs)
    ensures !Running(t.workers, k) ==>
              Projection(t.log, k) == [] || exists thread, rs :: Projection(t.log, k) == Script(thread, rs)
  {
    TrackedRun(b, n, table, es, t);
    WiredRun(b, n, table, es, t);
    NeverWrong(t, k);
    var thread, rs := ScriptOf(Projection(t.log, k));
    assert FollowsScript(Projection(t.log, k), thread, rs);
    if !Running(t.workers, k) {
      assert Settled(t.log, k);
    }
  }

  // ---------------------------------------------------------------- connected clients

  lemma {:induction false} EachHasAWorker(cs: seq<Socket>, ws: seq<Worker>)
    requires Distinct(cs) && forall c <- cs :: InSession(ws, c)
    ensures |cs| <= |ws|
    decreases |ws|
  {
    if |ws| == 0 {
      assert |cs| > 0 ==> InSession(ws, cs[0]);
    } else {
      var last, rest := ws[|ws| - 1], ws[..|ws| - 1];
      var fewer := if Listed(last) then RemoveFirst(cs, last.sock) else cs;
      RemoveFirstRemoves(cs, if last.Busy? then last.sock else 0);
      forall c | c in fewer ensures InSession(rest, c) {
        assert InSession(ws, c);
        var i :| 0 <= i < |ws| && ListedAs(ws[i], c);
        assert ListedAs(rest[i], c);
      }
      EachHasAWorker(fewer, rest);
      if Listed(last) {
        RemoveFirstLength(cs, last.sock);
      }
    }
  }

  lemma {:induction false} RemoveFirstLength(cs: seq<Socket>, c: Socket)
    ensures |RemoveFirst(cs, c)| == if c in cs then |cs| - 1 else |cs|
  {
    if |cs| > 0 && cs[0] != c {
      RemoveFirstLength(cs[1..], c);
    }
  }

  /** No more clients are connected than the pool has workers. */
  lemma SessionBound(b: Backend, n: nat, table: Table, es: seq<Event>, t: State)
    requires Exec(b, Initial(n, table), es) == Some(t)
    ensures |t.clients| <= n
  {
    WiredRun(b, n, table, es, t);
    EachHasAWorker(t.clients, t.workers);
  }
}
