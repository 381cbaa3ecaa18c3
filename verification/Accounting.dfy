// Whether the table and the reports agree: all sessions share one engine, without a lock.
module Accounting {
  import opened Browser
  import opened Database
  import opened ServerMachine
  import opened Sessions
  import opened Totals
  import opened Wrappers

  /** A statement that succeeds adds the request's text as a row. */
  ghost predicate Stores(b: Backend) {
    forall r, t :: b(r, t) == t + [r.text]
  }

  /** Between its BEGIN and its COMMIT or ROLLBACK. */
  predicate InTx(v: Worker) { v.Busy? && (v.pc.TxInsert? || v.pc.TxCommit? || v.pc.TxRollback?) }

  ghost predicate SomeInTx(s: State) {
    exists i :: 0 <= i < |s.workers| && InTx(s.workers[i])
  }

  /** A call of executeTransaction starts only when no other is under way. */
  predicate StartsAlone(s: State, e: Event) {
    e.Query? && At(s, e.w, TxBegin) ==> forall i :: 0 <= i < |s.workers| ==> !InTx(s.workers[i])
  }

  /** The control statements that c says work do work. */
  predicate Works(c: Control, s: State, e: Event) {
    e.Query? && !e.ok ==>
      && (At(s, e.w, TxBegin) ==> !c.begin)
      && (At(s, e.w, TxCommit) ==> !c.commit)
      && (At(s, e.w, TxRollback) ==> !c.rollback)
  }

  /** As Exec, for the runs in which no two calls of executeTransaction overlap and c is kept to. */
  function SerialExec(b: Backend, c: Control, s: State, es: seq<Event>): Option<State> {
    if |es| == 0 then Some(s)
    else
      var last, before := es[|es| - 1], SerialExec(b, c, s, es[..|es| - 1]);
      if before.Some? && Enabled(before.value, last) && StartsAlone(before.value, last) && Works(c, before.value, last)
      then Some(Apply(b, before.value, last)) else None
  }

  predicate Reaches(b: Backend, c: Control, s: State, es: seq<Event>, t: State) { SerialExec(b, c, s, es) == Some(t) }

  lemma {:induction false} SerialIsARun(b: Backend, c: Control, s: State, es: seq<Event>, t: State)
    requires Reaches(b, c, s, es, t)
    ensures Exec(b, s, es) == Some(t)
  {
    if |es| > 0 {
      SerialIsARun(b, c, s, es[..|es| - 1], SerialExec(b, c, s, es[..|es| - 1]).value);
    }
  }

  // Rows, reports and debts are counted text by text, for any set of texts.
  type Texts = string -> bool

  function Everything(text: string): bool { true }

  function One(text: string, keep: Texts): nat { if keep(text) then 1 else 0 }

  function Rows(table: Table, keep: Texts): nat {
    if |table| == 0 then 0 else Rows(table[..|table| - 1], keep) + One(table[|table| - 1], keep)
  }

  /** A text the worker has committed and not yet reported. */
  function Owes(keep: Texts): Worker -> nat {
    (v: Worker) => if v.Busy? && v.pc == OutcomeCast(true) && v.sent.None? then One(v.request.text, keep) else 0
  }

  function Owing(s: State, keep: Texts): nat { Total(Owes(keep), s.workers) }

  /** The texts reported as committed: for each "[COMMIT]" the text its session last announced. */
  function Reported(log: seq<Entry>, keep: Texts): nat {
    if |log| == 0 then 0
    else Reported(log[..|log| - 1], keep) + Report(log[..|log| - 1], log[|log| - 1], keep)
  }

  function Report(before: seq<Entry>, e: Entry, keep: Texts): nat {
    if e.msg.Committed? then One(TextOf(Scan(Projection(before, e.session))), keep) else 0
  }

  function TextOf(p: Phase): string { if p.Inserting? then p.text else "" }

  function Commits(log: seq<Entry>): nat {
    if |log| == 0 then 0 else Commits(log[..|log| - 1]) + if log[|log| - 1].msg.Committed? then 1 else 0
  }

  /** The rows are those there at the start, those reported, and those about to be. */
  predicate Balanced(table: Table, s: State, keep: Texts) {
    Rows(s.engine.committed, keep) == Rows(table, keep) + Reported(s.log, keep) + Owing(s, keep)
  }

  ghost predicate BalancedForAll(table: Table, s: State) {
    forall keep :: Balanced(table, s, keep)
  }

  /** At most one call is under way, and a transaction left open holds its work and no other's. */
  ghost predicate OneTransaction(s: State) {
    && (forall i, j :: 0 <= i < j < |s.workers| ==> !(InTx(s.workers[i]) && InTx(s.workers[j])))
    && (SomeInTx(s) || s.engine.open.None? || s.engine.open == Some(s.engine.committed))
    && (forall i :: 0 <= i < |s.workers| && InTx(s.workers[i]) ==> s.engine.open == Some(Pending(s, s.workers[i])))
  }

  function Pending(s: State, v: Worker): Table
    requires v.Busy?
  {
    if v.pc.TxCommit? then s.engine.committed + [v.request.text] else s.engine.committed
  }

  // ---------------------------------------------------------------- step by step

  lemma RowsGrow(table: Table, text: string, keep: Texts)
    ensures Rows(table + [text], keep) == Rows(table, keep) + One(text, keep)
  {
    assert (table + [text])[..|table|] == table;
  }

  /** One worker moves: what is owed changes by what that worker owes. */
  lemma OwingMoves(s: State, t: State, w: nat, keep: Texts)
    requires w < |s.workers| == |t.workers| && t.workers == s.workers[w := t.workers[w]]
    ensures Owing(t, keep) + Owes(keep)(s.workers[w]) == Owing(s, keep) + Owes(keep)(t.workers[w])
  {
    TotalUpdate(Owes(keep), s.workers, w, t.workers[w]);
  }

  /** Neither the engine nor who is in a transaction changes. */
  predicate Elsewhere(s: State, t: State, w: nat) {
    && t.engine == s.engine && w < |s.workers| == |t.workers| && t.workers == s.workers[w := t.workers[w]]
    && !InTx(s.workers[w]) && !InTx(t.workers[w])
  }

  lemma ElsewhereStep(b: Backend, s: State, e: Event)
    requires MutexSound(s) && Enabled(s, e) && !e.Accept? && !e.Query?
    ensures Elsewhere(s, Apply(b, s, e), e.w)
  {
  }

  lemma DebtsKept(b: Backend, s: State, e: Event, keep: Texts)
    requires MutexSound(s) && Enabled(s, e) && !e.Accept? && !e.Query? && !e.StartCast?
    ensures var t := Apply(b, s, e);
            t.log == s.log && Owes(keep)(t.workers[e.w]) == Owes(keep)(s.workers[e.w])
  {
  }

  lemma OneKept(s: State, t: State, w: nat)
    requires OneTransaction(s) && Elsewhere(s, t, w)
    ensures OneTransaction(t)
  {
    if SomeInTx(s) {
      var i :| 0 <= i < |s.workers| && InTx(s.workers[i]);
      assert InTx(t.workers[i]);
    }
  }

  /** Reporting a commit settles the debt. */
  lemma BalancedStart(b: Backend, table: Table, s: State, w: nat, keep: Texts)
    requires Tracked(s) && Balanced(table, s, keep) && Enabled(s, StartCast(w))
    ensures Balanced(table, Apply(b, s, StartCast(w)), keep)
  {
    var t, v := Apply(b, s, StartCast(w)), s.workers[w];
    var e := Entry(v.session, MsgAt(w, v.pc, v.request));
    OwingMoves(s, t, w, keep);
    assert t.log == s.log + [e] && t.log[..|s.log|] == s.log && t.engine == s.engine;
    assert Scan(Projection(s.log, v.session)) == PhaseNow(w, v);
    assert Report(s.log, e, keep) == Owes(keep)(v);
  }

  /** Worker w has moved to a pc and the engine has changed, and nothing else. */
  function Moving(s: State, w: nat, pc: Pc, e: Engine): State
    requires w < |s.workers| && s.workers[w].Busy?
  {
    s.(engine := e, workers := s.workers[w := s.workers[w].(pc := pc)])
  }

  /** Worker w's next call to the engine, spelt out. */
  lemma QueryIs(b: Backend, s: State, w: nat, ok: bool, keep: Texts)
    requires Enabled(s, Query(w, ok))
    ensures var v, t := s.workers[w], Apply(b, s, Query(w, ok));
            t == Moving(s, w, AfterQuery(v.pc, ok), EngineAfter(b, s.engine, v.pc, v.request, ok)) &&
            Owing(t, keep) == Owing(s, keep) + if v.pc.TxCommit? then One(v.request.text, keep) else 0
  {
    OwingMoves(s, Apply(b, s, Query(w, ok)), w, keep);
  }

  /** What a call to the engine finds there, when the transaction it belongs to is the only one. */
  predicate FindsItsOwn(s: State, v: Worker)
    requires v.Busy?
  {
    s.engine.open == Some(Pending(s, v)) || (v.pc.TxBegin? && s.engine.open.None?)
  }

  lemma AloneFindsItsOwn(s: State, w: nat, ok: bool)
    requires OneTransaction(s) && Enabled(s, Query(w, ok)) && StartsAlone(s, Query(w, ok))
    ensures FindsItsOwn(s, s.workers[w])
  {
    if s.workers[w].pc.TxBegin? {
      assert !SomeInTx(s);
    } else {
      assert InTx(s.workers[w]);
    }
  }

  lemma BalancedQuery(b: Backend, c: Control, table: Table, s: State, w: nat, ok: bool, keep: Texts)
    requires Stores(b) && Balanced(table, s, keep) && Enabled(s, Query(w, ok)) && FindsItsOwn(s, s.workers[w])
    requires c.commit && Works(c, s, Query(w, ok))
    ensures Balanced(table, Apply(b, s, Query(w, ok)), keep)
  {
    QueryIs(b, s, w, ok, keep);
    RowsGrow(s.engine.committed, s.workers[w].request.text, keep);
  }

  /** What one call to the engine does, when the transaction it belongs to is the only one. */
  lemma OneQuery(b: Backend, c: Control, s: State, w: nat, ok: bool)
    requires Stores(b) && OneTransaction(s) && Enabled(s, Query(w, ok)) && StartsAlone(s, Query(w, ok))
    requires c.begin && c.commit && Works(c, s, Query(w, ok))
    ensures OneTransaction(Apply(b, s, Query(w, ok)))
  {
    var t, v := Apply(b, s, Query(w, ok)), s.workers[w];
    forall i | 0 <= i < |s.workers| && i != w ensures t.workers[i] == s.workers[i] && !InTx(s.workers[i]) {
    }
    AloneFindsItsOwn(s, w, ok);
    if InTx(t.workers[w]) {
      assert SomeInTx(t);
    }
  }

  lemma OneStep(b: Backend, c: Control, s: State, e: Event)
    requires Stores(b) && MutexSound(s) && OneTransaction(s) && Enabled(s, e) && StartsAlone(s, e)
    requires c.begin && c.commit && Works(c, s, e)
    ensures OneTransaction(Apply(b, s, e))
  {
    if e.Accept? {
      OneAccept(b, s, e.h);
    } else if e.Query? {
      OneQuery(b, c, s, e.w, e.ok);
    } else {
      ElsewhereStep(b, s, e);
      OneKept(s, Apply(b, s, e), e.w);
    }
  }

  lemma OneAccept(b: Backend, s: State, h: Socket)
    requires OneTransaction(s) && Enabled(s, Accept(h))
    ensures OneTransaction(Apply(b, s, Accept(h)))
  {
    assert Apply(b, s, Accept(h)).workers == s.workers;
  }

  lemma BalancedStep(b: Backend, c: Control, table: Table, s: State, e: Event, keep: Texts)
    requires Stores(b) && MutexSound(s) && Tracked(s) && OneTransaction(s) && Balanced(table, s, keep)
    requires Enabled(s, e) && StartsAlone(s, e) && c.commit && Works(c, s, e)
    ensures Balanced(table, Apply(b, s, e), keep)
  {
    if e.Query? {
      AloneFindsItsOwn(s, e.w, e.ok);
      BalancedQuery(b, c, table, s, e.w, e.ok, keep);
    } else if e.StartCast? {
      BalancedStart(b, table, s, e.w, keep);
    } else if !e.Accept? {
      var t := Apply(b, s, e);
      ElsewhereStep(b, s, e);
      DebtsKept(b, s, e, keep);
      OwingMoves(s, t, e.w, keep);
    }
  }

  ghost predicate Sound(table: Table, s: State) {
    Wired(s) && Numbered(s) && Tracked(s) && OneTransaction(s) && BalancedForAll(table, s)
  }

  lemma SoundAfter(b: Backend, c: Control, table: Table, s: State, e: Event)
    requires Stores(b) && Sound(table, s) && Enabled(s, e) && StartsAlone(s, e)
    requires c.begin && c.commit && Works(c, s, e)
    ensures Sound(table, Apply(b, s, e))
  {
    WiredStep(b, s, e);
    NumberedStep(b, s, e);
    TrackedStep(b, s, e);
    OneStep(b, c, s, e);
    forall keep ensures Balanced(table, Apply(b, s, e), keep) {
      BalancedStep(b, c, table, s, e, keep);
    }
  }

  lemma {:induction false} AccountRun(b: Backend, c: Control, table: Table, s: State, es: seq<Event>, t: State)
    requires Stores(b) && c.begin && c.commit && Sound(table, s) && Reaches(b, c, s, es, t)
    ensures Sound(table, t)
  {
    if |es| > 0 {
      var before, e := SerialExec(b, c, s, es[..|es| - 1]).value, es[|es| - 1];
      AccountRun(b, c, table, s, es[..|es| - 1], before);
      SoundAfter(b, c, table, before, e);
    }
  }

  lemma SoundAtStart(n: nat, table: Table)
    ensures Sound(table, Initial(n, table))
  {
    forall keep ensures Owing(Initial(n, table), keep) == 0 {
      TotalOfEqual(Owes(keep), Initial(n, table).workers, 0);
    }
  }

  lemma {:induction false} AllReported(log: seq<Entry>)
    ensures Reported(log, Everything) == Commits(log)
  {
    if |log| > 0 {
      AllReported(log[..|log| - 1]);
    }
  }

  lemma {:induction false} AllRows(table: Table)
    ensures Rows(table, Everything) == |table|
  {
    if |table| > 0 {
      AllRows(table[..|table| - 1]);
    }
  }

  // ---------------------------------------------------------------- the theorems

  function BackendOf(sql: Sql, statement: Request -> string): Backend {
    (r: Request, t: Table) => if sql(statement(r), t).Some? then sql(statement(r), t).value else t
  }

  lemma ExecThree(b: Backend, s: State, e1: Event, e2: Event, e3: Event, s1: State, s2: State)
    requires Enabled(s, e1) && s1 == Apply(b, s, e1)
    requires Enabled(s1, e2) && s2 == Apply(b, s1, e2) && Enabled(s2, e3)
    ensures Exec(b, s, [e1, e2, e3]) == Some(Apply(b, s2, e3))
  {
    ExecMore(b, s, [], s, e1);
    ExecMore(b, s, [] + [e1], s1, e2);
    ExecMore(b, s, [] + [e1] + [e2], s2, e3);
    assert [] + [e1] + [e2] + [e3] == [e1, e2, e3];
  }

  lemma MovingOn(b: Backend, s: State, w: nat, pc: Pc, e: Engine, ok: bool)
    requires w < |s.workers| && s.workers[w].Busy? && s.workers[w].sent.None? && IsTx(pc)
    ensures Enabled(Moving(s, w, pc, e), Query(w, ok))
    ensures Apply(b, Moving(s, w, pc, e), Query(w, ok)) ==
            Moving(s, w, AfterQuery(pc, ok), EngineAfter(b, e, pc, s.workers[w].request, ok))
  {
  }

  /** A worker's calls to the engine with nothing in between. */
  lemma ThreeQueries(b: Backend, c: Control, s: State, w: nat, ok: bool)
    requires At(s, w, TxBegin)
    ensures var r, e1 := s.workers[w].request, Begin(s.engine, c.begin);
            var ran := if ok then Write(e1, b(r, View(e1))) else e1;
            Exec(b, s, [Query(w, c.begin), Query(w, ok), Query(w, if ok then c.commit else c.rollback)]) ==
            Some(Moving(s, w, OutcomeCast(ok), Finish(ran, ok, c).0))
  {
    var e1 := Begin(s.engine, c.begin);
    var ran := if ok then Write(e1, b(s.workers[w].request, View(e1))) else e1;
    var last := if ok then TxCommit else TxRollback;
    assert s == Moving(s, w, TxBegin, s.engine);
    MovingOn(b, s, w, TxBegin, s.engine, c.begin);
    MovingOn(b, s, w, TxInsert, e1, ok);
    MovingOn(b, s, w, last, ran, if ok then c.commit else c.rollback);
    ExecThree(b, s, Query(w, c.begin), Query(w, ok), Query(w, if ok then c.commit else c.rollback),
      Moving(s, w, TxInsert, e1), Moving(s, w, last, ran));
  }

  /**
   * The engine calls of a session, taken without a break, are one call of executeTransaction,
   * whatever control statements work.
   */
  lemma QueriesAreOneCall(sql: Sql, statement: Request -> string, c: Control, s: State, w: nat)
    requires At(s, w, TxBegin)
    ensures var q := statement(s.workers[w].request);
            var (after, ok) := Transaction(sql, s.engine, [q], c);
            ok == sql(q, View(Begin(s.engine, c.begin))).Some? &&
            Exec(BackendOf(sql, statement), s, [Query(w, c.begin), Query(w, ok), Query(w, if ok then c.commit else c.rollback)]) ==
            Some(Moving(s, w, OutcomeCast(ok), after))
  {
    var q, e1 := statement(s.workers[w].request), Begin(s.engine, c.begin);
    RunOne(sql, e1, q);
    ThreeQueries(BackendOf(sql, statement), c, s, w, sql(q, View(e1)).Some?);
  }

  /**
   * When no two calls of executeTransaction overlap and no BEGIN or COMMIT is refused, the rows added
   * are in every reachable state those of the "[COMMIT]" broadcasts, text by text, and those of the
   * workers about to broadcast one. A refused ROLLBACK does no harm: a failed call has written nothing.
   */
  lemma ReportsAgree(b: Backend, c: Control, n: nat, table: Table, es: seq<Event>, t: State)
    requires Stores(b) && c.begin && c.commit && Reaches(b, c, Initial(n, table), es, t)
    ensures BalancedForAll(table, t)
    ensures |t.engine.committed| == |table| + Commits(t.log) + Owing(t, Everything)
  {
    SoundAtStart(n, table);
    AccountRun(b, c, table, Initial(n, table), es, t);
    AllReported(t.log);
    AllRows(t.engine.committed);
    AllRows(table);
    assert Balanced(table, t, Everything);
  }

  // ---------------------------------------------------------------- when the accounts go wrong

  /** Without a refused statement, a transaction is open only while a call is under way. */
  ghost predicate NothingLeftOpen(s: State) { s.engine.open.Some? ==> SomeInTx(s) }

  lemma NothingLeftOpenStep(b: Backend, s: State, e: Event)
    requires NothingLeftOpen(s) && MutexSound(s) && Enabled(s, e) && Works(WORKING, s, e)
    ensures NothingLeftOpen(Apply(b, s, e))
  {
    var t := Apply(b, s, e);
    if SomeInTx(s) {
      var i :| 0 <= i < |s.workers| && InTx(s.workers[i]);
      assert e.Accept? || e.w != i ==> t.workers[i] == s.workers[i];
      if InTx(t.workers[i]) {
        assert SomeInTx(t);
      }
    }
    if e.Query? && InTx(t.workers[e.w]) {
      assert SomeInTx(t);
    }
  }

  lemma {:induction false} NothingLeftOpenRun(b: Backend, n: nat, table: Table, es: seq<Event>, t: State)
    requires Reaches(b, WORKING, Initial(n, table), es, t)
    ensures NothingLeftOpen(t)
  {
    if |es| > 0 {
      var before := SerialExec(b, WORKING, Initial(n, table), es[..|es| - 1]).value;
      NothingLeftOpenRun(b, n, table, es[..|es| - 1], before);
      SerialIsARun(b, WORKING, Initial(n, table), es[..|es| - 1], before);
      WiredRun(b, n, table, es[..|es| - 1], before);
      NothingLeftOpenStep(b, before, es[|es| - 1]);
    }
  }

  /** A name for SerialExec that chains of steps can use without looking inside it. */
  type Runner = (State, seq<Event>) -> Option<State>

  ghost predicate IsSerial(run: Runner, b: Backend, c: Control) {
    forall s, es {:trigger SerialExec(b, c, s, es)} :: run(s, es) == SerialExec(b, c, s, es)
  }

  function Serial(b: Backend, c: Control): Runner { (s: State, es: seq<Event>) => SerialExec(b, c, s, es) }

  lemma OneMore(run: Runner, b: Backend, c: Control, s: State, es: seq<Event>, t: State, e: Event)
    requires IsSerial(run, b, c) && run(s, es) == Some(t) && Enabled(t, e) && StartsAlone(t, e) && Works(c, t, e)
    ensures run(s, es + [e]) == Some(Apply(b, t, e))
  {
    assert Reaches(b, c, s, es, t) && (es + [e])[..|es|] == es;
    assert Reaches(b, c, s, es + [e], Apply(b, t, e));
  }

  lemma NoStep(run: Runner, b: Backend, c: Control, s: State)
    requires IsSerial(run, b, c)
    ensures run(s, []) == Some(s)
  {
    assert Reaches(b, c, s, [], s);
  }

  /** One more call to the engine, other than BEGIN, with what it leaves behind. */
  lemma OneMoreQuery(run: Runner, b: Backend, c: Control, s: State, es: seq<Event>, t: State, w: nat, ok: bool)
    requires IsSerial(run, b, c) && run(s, es) == Some(t) && (At(t, w, TxInsert) || (ok && (At(t, w, TxCommit) || At(t, w, TxRollback))))
    ensures var v := t.workers[w];
            var u := Moving(t, w, AfterQuery(v.pc, ok), EngineAfter(b, t.engine, v.pc, v.request, ok));
            run(s, es + [Query(w, ok)]) == Some(u) &&
            Owing(u, Everything) == Owing(t, Everything) + if v.pc.TxCommit? then 1 else 0
  {
    OneMore(run, b, c, s, es, t, Query(w, ok));
    QueryIs(b, t, w, ok, Everything);
  }

  /** A row less in the table than the accounts ask for: worker w has been told it was committed. */
  predicate RowLost(s: State, t: State, w: nat) {
    && At(t, w, OutcomeCast(true)) && t.engine.committed == s.engine.committed && t.log == s.log
    && t.clients == s.clients && t.mutex == s.mutex && Owing(t, Everything) == Owing(s, Everything) + 1
  }

  /** Worker j's statement fails, and its ROLLBACK ends whatever transaction is open. */
  lemma FailsInside(run: Runner, b: Backend, c: Control, s: State, es: seq<Event>, u: State, j: nat) returns (t: State)
    requires IsSerial(run, b, c) && run(s, es) == Some(u) && At(u, j, TxInsert)
    ensures run(s, es + [Query(j, false)] + [Query(j, true)]) == Some(t)
    ensures t == Moving(u, j, OutcomeCast(false), Rollback(u.engine, true)) && Owing(t, Everything) == Owing(u, Everything)
  {
    var v := Moving(u, j, TxRollback, u.engine);
    OneMoreQuery(run, b, c, s, es, u, j, false);
    OneMoreQuery(run, b, c, s, es + [Query(j, false)], v, j, true);
    t := Moving(v, j, OutcomeCast(false), Rollback(u.engine, true));
    assert t.workers == u.workers[j := t.workers[j]];
  }

  /** A COMMIT outside a transaction changes nothing and is followed by success. */
  lemma CommitsNothing(run: Runner, b: Backend, c: Control, s: State, es: seq<Event>, u: State, i: nat) returns (t: State)
    requires IsSerial(run, b, c) && run(s, es) == Some(u) && At(u, i, TxCommit) && u.engine.open.None?
    ensures run(s, es + [Query(i, true)]) == Some(t) && RowLost(u, t, i)
  {
    OneMoreQuery(run, b, c, s, es, u, i, true);
    t := Moving(u, i, OutcomeCast(true), u.engine);
  }

  /** Worker j's statement fails inside worker i's transaction: i's row is rolled back. */
  lemma RollsBackTheOther(run: Runner, b: Backend, c: Control, s: State, es: seq<Event>, u: State, i: nat, j: nat)
    returns (es': seq<Event>, t: State)
    requires IsSerial(run, b, c) && run(s, es) == Some(u) && At(u, i, TxCommit) && At(u, j, TxInsert)
    ensures run(s, es') == Some(t) && RowLost(u, t, i)
  {
    var v := FailsInside(run, b, c, s, es, u, j);
    t := CommitsNothing(run, b, c, s, es + [Query(j, false)] + [Query(j, true)], v, i);
    es' := es + [Query(j, false)] + [Query(j, true)] + [Query(i, true)];
  }

  /** Worker j's statement succeeds inside worker i's transaction, which then rolls back. */
  lemma RolledBackByTheOther(run: Runner, b: Backend, c: Control, s: State, es: seq<Event>, u: State, i: nat, j: nat)
    returns (es': seq<Event>, t: State)
    requires IsSerial(run, b, c) && run(s, es) == Some(u) && At(u, i, TxRollback) && At(u, j, TxInsert) && u.engine.open.Some?
    ensures run(s, es') == Some(t) && RowLost(u, t, j)
  {
    var e := Write(u.engine, b(u.workers[j].request, View(u.engine)));
    var v := Moving(u, j, TxCommit, e);
    OneMoreQuery(run, b, c, s, es, u, j, true);
    var w := Moving(v, i, OutcomeCast(false), Rollback(e, true));
    OneMoreQuery(run, b, c, s, es + [Query(j, true)], v, i, true);
    t := CommitsNothing(run, b, c, s, es + [Query(j, true)] + [Query(i, true)], w, j);
    es' := es + [Query(j, true)] + [Query(i, true)] + [Query(j, true)];
  }

  /** Worker j is let into a transaction of worker i: one of the two may lose its row and be told it was committed. */
  lemma OverlapLoses(run: Runner, b: Backend, c: Control, s: State, i: nat, j: nat) returns (es: seq<Event>, t: State, w: nat)
    requires IsSerial(run, b, c)
    requires At(s, j, TxBegin) && i < |s.workers| && InTx(s.workers[i]) && s.workers[i].sent.None? && s.engine.open.Some?
    ensures run(Apply(b, s, Query(j, true)), es) == Some(t) && RowLost(s, t, w)
  {
    var v := s.workers[i];
    var u := Apply(b, s, Query(j, true));
    QueryIs(b, s, j, true, Everything);
    NoStep(run, b, c, u);
    assert u.engine == s.engine && u.workers[i] == v && At(u, j, TxInsert);
    if v.pc.TxRollback? {
      es, t := RolledBackByTheOther(run, b, c, u, [], u, i, j);
      w := j;
    } else if v.pc.TxCommit? {
      es, t := RollsBackTheOther(run, b, c, u, [], u, i, j);
      w := i;
    } else {
      var u1 := Moving(u, i, TxCommit, Write(u.engine, b(v.request, View(u.engine))));
      OneMoreQuery(run, b, c, u, [], u, i, true);
      es, t := RollsBackTheOther(run, b, c, u, [] + [Query(i, true)], u1, i, j);
      w := i;
    }
  }

  /** A call made alone whose COMMIT is refused returns true all the same. */
  lemma RefusedCommitLoses(run: Runner, b: Backend, c: Control, s: State, j: nat) returns (es: seq<Event>, t: State)
    requires IsSerial(run, b, c)
    requires At(s, j, TxBegin) && s.engine.open.None? && !c.commit
    ensures run(Apply(b, s, Query(j, true)), es) == Some(t) && RowLost(s, t, j)
  {
    var u := Apply(b, s, Query(j, true));
    QueryIs(b, s, j, true, Everything);
    NoStep(run, b, c, u);
    var v := Moving(u, j, TxCommit, Write(u.engine, b(u.workers[j].request, View(u.engine))));
    OneMoreQuery(run, b, c, u, [], u, j, true);
    QueryIs(b, v, j, false, Everything);
    OneMore(run, b, c, u, [] + [Query(j, true)], v, Query(j, false));
    es := [] + [Query(j, true)] + [Query(j, false)];
    t := Apply(b, v, Query(j, false));
  }

  /** A call made alone whose BEGIN is refused has its row in the table before it has returned. */
  lemma RefusedBeginAnticipates(run: Runner, b: Backend, c: Control, s: State, j: nat) returns (es: seq<Event>, t: State)
    requires IsSerial(run, b, c)
    requires Stores(b) && At(s, j, TxBegin) && s.engine.open.None?
    ensures run(Apply(b, s, Query(j, false)), es) == Some(t) && t.log == s.log
    ensures t.engine.committed == s.engine.committed + [s.workers[j].request.text]
    ensures Owing(t, Everything) == Owing(s, Everything)
  {
    var u := Apply(b, s, Query(j, false));
    QueryIs(b, s, j, false, Everything);
    NoStep(run, b, c, u);
    t := Moving(u, j, TxCommit, Write(u.engine, b(u.workers[j].request, View(u.engine))));
    OneMoreQuery(run, b, c, u, [], u, j, true);
    es := [] + [Query(j, true)];
  }

  /** All that may follow worker j's BEGIN without another overlap, while c is kept to, keeps the accounts. */
  ghost predicate SafeToBegin(b: Backend, c: Control, table: Table, s: State, j: nat)
    requires At(s, j, TxBegin)
  {
    forall ok, es, t :: Follows(b, c, s, j, ok, es, t) ==> BalancedForAll(table, t)
  }

  predicate Follows(b: Backend, c: Control, s: State, j: nat, ok: bool, es: seq<Event>, t: State)
    requires At(s, j, TxBegin)
  {
    Works(c, s, Query(j, ok)) && Reaches(b, c, Apply(b, s, Query(j, ok)), es, t)
  }

  lemma WhileInTx(table: Table, s: State, i: nat)
    requires Sound(table, s) && i < |s.workers| && InTx(s.workers[i])
    ensures s.workers[i].sent.None? && s.engine.open.Some?
  {
  }

  lemma Unbalanced(table: Table, s: State, t: State, w: nat)
    requires Balanced(table, s, Everything) && RowLost(s, t, w)
    ensures !BalancedForAll(table, t)
  {
    assert !Balanced(table, t, Everything);
  }

  lemma UnsafeInside(b: Backend, c: Control, table: Table, s: State, i: nat, j: nat)
    requires At(s, j, TxBegin) && i < |s.workers| && InTx(s.workers[i]) && s.workers[i].sent.None? && s.engine.open.Some?
    requires Balanced(table, s, Everything)
    ensures !SafeToBegin(b, c, table, s, j)
  {
    var es, t, w := OverlapLoses(Serial(b, c), b, c, s, i, j);
    Unbalanced(table, s, t, w);
    assert Follows(b, c, s, j, true, es, t);
  }

  lemma UnsafeWithoutCommit(b: Backend, c: Control, table: Table, s: State, j: nat)
    requires At(s, j, TxBegin) && s.engine.open.None? && !c.commit && Balanced(table, s, Everything)
    ensures !SafeToBegin(b, c, table, s, j)
  {
    var es, t := RefusedCommitLoses(Serial(b, c), b, c, s, j);
    Unbalanced(table, s, t, j);
    assert Follows(b, c, s, j, true, es, t);
  }

  lemma UnsafeWithoutBegin(b: Backend, c: Control, table: Table, s: State, j: nat)
    requires Stores(b) && At(s, j, TxBegin) && s.engine.open.None? && !c.begin && Balanced(table, s, Everything)
    ensures !SafeToBegin(b, c, table, s, j)
  {
    var es, t := RefusedBeginAnticipates(Serial(b, c), b, c, s, j);
    OneRowTooMany(table, s, t, s.workers[j].request.text);
    assert Follows(b, c, s, j, false, es, t);
  }

  lemma OneRowTooMany(table: Table, s: State, t: State, text: string)
    requires Balanced(table, s, Everything) && t.engine.committed == s.engine.committed + [text]
    requires t.log == s.log && Owing(t, Everything) == Owing(s, Everything)
    ensures !BalancedForAll(table, t)
  {
    RowsGrow(s.engine.committed, text, Everything);
    assert !Balanced(table, t, Everything);
  }

  lemma SafeAlone(b: Backend, c: Control, table: Table, s: State, j: nat)
    requires Stores(b) && Sound(table, s) && At(s, j, TxBegin) && !SomeInTx(s) && c.begin && c.commit
    ensures SafeToBegin(b, c, table, s, j)
  {
    forall ok, es, t | Follows(b, c, s, j, ok, es, t) ensures BalancedForAll(table, t) {
      SoundAfter(b, c, table, s, Query(j, ok));
      AccountRun(b, c, table, Apply(b, s, Query(j, ok)), es, t);
    }
  }

  lemma AfterCleanRun(b: Backend, n: nat, table: Table, es: seq<Event>, s: State)
    requires Stores(b) && Reaches(b, WORKING, Initial(n, table), es, s)
    ensures Sound(table, s) && NothingLeftOpen(s) && Balanced(table, s, Everything)
  {
    SoundAtStart(n, table);
    AccountRun(b, WORKING, table, Initial(n, table), es, s);
    NothingLeftOpenRun(b, n, table, es, s);
  }

  /**
   * After a run in which nothing was refused, starting a call keeps the accounts in all that may
   * follow exactly when no other call is between its BEGIN and its COMMIT or ROLLBACK, and BEGIN and
   * COMMIT will work.
   */
  lemma SafeExactlyWhen(b: Backend, c: Control, n: nat, table: Table, es: seq<Event>, s: State, j: nat)
    requires Stores(b) && Reaches(b, WORKING, Initial(n, table), es, s) && At(s, j, TxBegin)
    ensures SafeToBegin(b, c, table, s, j) <==> !SomeInTx(s) && c.begin && c.commit
  {
    AfterCleanRun(b, n, table, es, s);
    if SomeInTx(s) {
      var i :| 0 <= i < |s.workers| && InTx(s.workers[i]);
      WhileInTx(table, s, i);
      UnsafeInside(b, c, table, s, i, j);
    } else if c.begin && c.commit {
      SafeAlone(b, c, table, s, j);
    } else if c.begin {
      UnsafeWithoutCommit(b, c, table, s, j);
    } else {
      UnsafeWithoutBegin(b, c, table, s, j);
    }
  }

  // ---------------------------------------------------------------- the loss is reported

  lemma {:induction false} WiredAlong(b: Backend, c: Control, s: State, es: seq<Event>, t: State)
    requires Wired(s) && Reaches(b, c, s, es, t)
    ensures Wired(t)
  {
    if |es| > 0 {
      var before := SerialExec(b, c, s, es[..|es| - 1]).value;
      WiredAlong(b, c, s, es[..|es| - 1], before);
      WiredStep(b, before, es[|es| - 1]);
    }
  }

  /** A worker that has sent its broadcast to everybody. */
  function AfterBroadcast(v: Worker): Worker
    requires v.Busy?
  {
    if v.pc.KillCast? then Idle else v.(sent := None, pc := AfterCast(v.pc))
  }

  /** The broadcast in progress, if any, comes to its end; nobody else moves. */
  lemma {:induction false} MutexComesFree(run: Runner, b: Backend, c: Control, s: State, es: seq<Event>, t: State) returns (es': seq<Event>, u: State)
    requires IsSerial(run, b, c) && run(s, es) == Some(t) && MutexSound(t)
    ensures run(s, es') == Some(u) && MutexSound(u)
    ensures u == t.(mutex := None, workers := u.workers, inbox := u.inbox) && |u.workers| == |t.workers|
    ensures forall w :: 0 <= w < |t.workers| ==>
              u.workers[w] == if Sending(t.workers[w]) then AfterBroadcast(t.workers[w]) else t.workers[w]
    decreases if t.mutex.Some? && t.mutex.value < |t.workers| && Sending(t.workers[t.mutex.value])
              then |t.clients| - t.workers[t.mutex.value].sent.value else 0
  {
    if t.mutex.None? {
      es', u := es, t;
    } else {
      var i := t.mutex.value;
      assert Sending(t.workers[i]);
      var e := if t.workers[i].sent.value < |t.clients| then SendOne(i) else EndCast(i);
      var next := Apply(b, t, e);
      OneMore(run, b, c, s, es, t, e);
      MutexStep(b, t, e);
      if e.SendOne? {
        es', u := MutexComesFree(run, b, c, s, es + [e], next);
      } else {
        es', u := es + [e], next;
      }
    }
  }

  /** What a lost row leads to: "[COMMIT]" is broadcast, and the table is the one before. */
  lemma LossIsReported(run: Runner, b: Backend, c: Control, s: State, es: seq<Event>, t: State, w: nat) returns (es': seq<Event>, u: State)
    requires IsSerial(run, b, c) && Wired(s) && run(s, es) == Some(t) && At(t, w, OutcomeCast(true))
    ensures run(s, es') == Some(u) && u.engine == t.engine
    ensures u.log == t.log + [Entry(t.workers[w].session, Committed)]
  {
    assert Reaches(b, c, s, es, t);
    WiredAlong(b, c, s, es, t);
    var free: State;
    es', free := MutexComesFree(run, b, c, s, es, t);
    OneMore(run, b, c, s, es', free, StartCast(w));
    u := Apply(b, free, StartCast(w));
    es' := es' + [StartCast(w)];
  }

  /**
   * In every reachable state with a call under way, letting another one in can go on so that the
   * only thing added to the log is a "[COMMIT]", and to the table nothing.
   */
  lemma OverlapIsReported(b: Backend, c: Control, n: nat, table: Table, es: seq<Event>, s: State, i: nat, j: nat)
    returns (rest: seq<Event>, t: State, session: nat)
    requires Stores(b) && Reaches(b, WORKING, Initial(n, table), es, s)
    requires At(s, j, TxBegin) && i < |s.workers| && InTx(s.workers[i])
    ensures Reaches(b, c, Apply(b, s, Query(j, true)), rest, t)
    ensures t.log == s.log + [Entry(session, Committed)] && t.engine.committed == s.engine.committed
  {
    AfterCleanRun(b, n, table, es, s);
    WhileInTx(table, s, i);
    var after, lost, w := OverlapLoses(Serial(b, c), b, c, s, i, j);
    WiredStep(b, s, Query(j, true));
    session := lost.workers[w].session;
    rest, t := LossIsReported(Serial(b, c), b, c, Apply(b, s, Query(j, true)), after, lost, w);
  }
}
