// DBConnection::executeTransaction over an engine with one open transaction at a time.
module Database {
  import opened Wrappers

  type Row = string
  type Table = seq<Row>

  /** What the engine makes of a statement: the new contents, or an error that leaves them alone. */
  type Sql = (string, Table) -> Option<Table>

  /** The durable contents, and the contents seen inside the open transaction if there is one. */
  datatype Engine = Engine(committed: Table, open: Option<Table>)

  /** Whether the engine is able to carry out each control statement of one call. */
  datatype Control = Control(begin: bool, commit: bool, rollback: bool)

  const WORKING: Control := Control(true, true, true)

  /** BEGIN is refused inside a transaction. */
  function Begin(e: Engine, works: bool): Engine {
    if works && e.open.None? then e.(open := Some(e.committed)) else e
  }

  /** COMMIT and ROLLBACK are refused outside a transaction. */
  function Commit(e: Engine, works: bool): Engine {
    if works && e.open.Some? then Engine(e.open.value, None) else e
  }

  function Rollback(e: Engine, works: bool): Engine {
    if works then e.(open := None) else e
  }

  function View(e: Engine): Table {
    if e.open.Some? then e.open.value else e.committed
  }

  /** Outside a transaction a statement commits itself. */
  function Write(e: Engine, t: Table): Engine {
    if e.open.Some? then e.(open := Some(t)) else e.(committed := t)
  }

  function Run(sql: Sql, e: Engine, query: string): Option<Engine> {
    var r := sql(query, View(e));
    if r.Some? then Some(Write(e, r.value)) else None
  }

  /** The engine after the queries up to the first that fails, and whether none did. */
  function RunAll(sql: Sql, e: Engine, queries: seq<string>): (Engine, bool)
    decreases |queries|
  {
    if |queries| == 0 then (e, true)
    else
      var r := Run(sql, e, queries[0]);
      if r.None? then (e, false) else RunAll(sql, r.value, queries[1..])
  }

  /** The end of a call, and what it returns. */
  function Finish(ran: Engine, ok: bool, c: Control): (Engine, bool) {
    if ok then (Commit(ran, c.commit), true) else (Rollback(ran, c.rollback), false)
  }

  /** executeTransaction on an open handle: the results of BEGIN, COMMIT and ROLLBACK are not looked at. */
  function Transaction(sql: Sql, e: Engine, queries: seq<string>, c: Control): (Engine, bool) {
    var (ran, ok) := RunAll(sql, Begin(e, c.begin), queries);
    Finish(ran, ok, c)
  }

  /** The reference: all queries applied in order, or nothing. */
  function Fold(sql: Sql, t: Table, queries: seq<string>): Option<Table>
    decreases |queries|
  {
    if |queries| == 0 then Some(t)
    else
      var r := sql(queries[0], t);
      if r.None? then None else Fold(sql, r.value, queries[1..])
  }

  /** True means every query is durable; false means nothing has changed. */
  predicate AllOrNothing(sql: Sql, e: Engine, queries: seq<string>, c: Control) {
    var (after, ok) := Transaction(sql, e, queries, c);
    if ok then Fold(sql, e.committed, queries) == Some(after.committed) && after.open.None? else after == e
  }

  lemma {:induction false} RunAllInside(sql: Sql, e: Engine, queries: seq<string>)
    requires e.open.Some?
    decreases |queries|
    ensures var (after, ok) := RunAll(sql, e, queries);
            after.committed == e.committed && after.open.Some? &&
            Fold(sql, e.open.value, queries) == if ok then after.open else None
  {
    if |queries| > 0 {
      var r := Run(sql, e, queries[0]);
      if r.Some? {
        RunAllInside(sql, r.value, queries[1..]);
      }
    }
  }

  /** With no transaction left open and the control statements working, a call is all or nothing, and true means all. */
  lemma TransactionIsAtomic(sql: Sql, e: Engine, queries: seq<string>)
    requires e.open.None?
    ensures AllOrNothing(sql, e, queries, WORKING)
    ensures Transaction(sql, e, queries, WORKING).1 <==> Fold(sql, e.committed, queries).Some?
    ensures Transaction(sql, e, queries, WORKING).0.open.None?
  {
    RunAllInside(sql, Begin(e, true), queries);
  }

  /** A language with one good statement, which adds a row. */
  function Toy(query: string, t: Table): Option<Table> {
    if query == "good" then Some(t + [query]) else None
  }

  lemma ToyRuns(e: Engine)
    ensures RunAll(Toy, e, ["good"]) == (Write(e, View(e) + ["good"]), true)
    ensures RunAll(Toy, e, ["good", "bad"]) == (Write(e, View(e) + ["good"]), false)
  {
    var e1 := Write(e, View(e) + ["good"]);
    assert ["good"][1..] == [] && ["good", "bad"][1..] == ["bad"];
    assert Run(Toy, e, "good") == Some(e1);
    assert RunAll(Toy, e1, []) == (e1, true);
    assert RunAll(Toy, e1, ["bad"]) == (e1, false);
  }

  /** Every workload is all or nothing exactly when no transaction is open and all control statements work. */
  lemma AtomicExactlyWhen(e: Engine, c: Control)
    ensures (forall sql: Sql, queries :: AllOrNothing(sql, e, queries, c)) <==> e.open.None? && c == WORKING
  {
    if e.open.None? && c == WORKING {
      forall sql: Sql, queries ensures AllOrNothing(sql, e, queries, c) {
        TransactionIsAtomic(sql, e, queries);
      }
    } else {
      var b := Begin(e, c.begin);
      ToyRuns(b);
      assert View(b) + ["good"] != View(b);
      if e.open.None? && c.begin && c.rollback {
        assert !AllOrNothing(Toy, e, ["good"], c);
      } else {
        assert !AllOrNothing(Toy, e, ["good", "bad"], c);
      }
    }
  }

  /** A refused COMMIT is reported as success, and the next failing call then takes the rows away. */
  lemma FailedCommitLosesRows(t: Table)
    ensures var first := Transaction(Toy, Engine(t, None), ["good"], Control(true, false, true));
            first.1 && Transaction(Toy, first.0, ["bad"], WORKING) == (Engine(t, None), false)
  {
    ToyRuns(Begin(Engine(t, None), true));
    var e := Engine(t, Some(t + ["good"]));
    assert Begin(e, true) == e;
    assert RunAll(Toy, e, ["bad"]) == (e, false);
  }

  lemma RunOne(sql: Sql, e: Engine, query: string)
    ensures RunAll(sql, e, [query]) == if Run(sql, e, query).Some? then (Run(sql, e, query).value, true) else (e, false)
  {
    assert [query][1..] == [];
  }

  /**
   * A failing call made on the shared connection between another call's queries and its COMMIT: the
   * inner BEGIN is refused, the inner ROLLBACK takes the other call's row away, and the other call's
   * COMMIT, refused too, ends in true.
   */
  lemma InterleavingLosesRows(sql: Sql, t: Table, good: string, bad: string)
    requires sql(good, t).Some? && sql(bad, sql(good, t).value).None?
    ensures var (ran, ok) := RunAll(sql, Begin(Engine(t, None), true), [good]);
            var (after, innerOk) := Transaction(sql, ran, [bad], WORKING);
            !innerOk && Finish(after, ok, WORKING) == (Engine(t, None), true)
  {
    RunOne(sql, Begin(Engine(t, None), true), good);
    RunOne(sql, Begin(Run(sql, Begin(Engine(t, None), true), good).value, true), bad);
  }

  /** The database file that every handle opens. */
  class File {
    var rows: Table

    constructor (contents: Table)
      ensures rows == contents
    {
      rows := contents;
    }
  }

  /** A handle to an open database, with the transaction open on it. */
  class Sqlite {
    const file: File
    var open: Option<Table>

    constructor (file: File)
      ensures this.file == file && open.None?
    {
      this.file := file;
      open := None;
    }

    function Now(): Engine
      reads this, file
    {
      Engine(file.rows, open)
    }

    method Put(e: Engine)
      modifies this, file
      ensures Now() == e
    {
      file.rows := e.committed;
      open := e.open;
    }
  }

  class DBConnection {
    var db: Sqlite?

    constructor ()
      ensures db == null
    {
      db := null;
    }

    /** The handle is stored whatever the result code says. */
    method Connect(handle: Sqlite?, resultOk: bool) returns (ok: bool)
      modifies this
      ensures db == handle && ok == resultOk
    {
      db := handle;
      ok := resultOk;
    }

    method ExecuteTransaction(sql: Sql, queries: seq<string>, c: Control) returns (ok: bool)
      modifies if db == null then {} else {db, db.file}
      ensures db == null ==> !ok
      ensures db != null ==> (db.Now(), ok) == Transaction(sql, old(db.Now()), queries, c)
    {
      if db == null {
        return false;
      }
      db.Put(Begin(db.Now(), c.begin));
      ghost var begun := db.Now();
      for i := 0 to |queries|
        invariant RunAll(sql, begun, queries) == RunAll(sql, db.Now(), queries[i..])
      {
        var r := Run(sql, db.Now(), queries[i]);
        assert queries[i..][1..] == queries[i + 1..];
        if r.None? {
          db.Put(Rollback(db.Now(), c.rollback));
          return false;
        }
        db.Put(r.value);
      }
      db.Put(Commit(db.Now(), c.commit));
      return true;
    }

    method Close()
      modifies this
      ensures db == null
    {
      if db != null {
        db := null;
      }
    }
  }
}
