// ConnectionPool: a queue of connections behind one mutex and one condition variable.
module ConnectionPool {
  import opened Database
  import opened Wrappers

  class ConnectionPool {
    var available: seq<DBConnection>

    ghost predicate Distinct()
      reads this
    {
      forall i, j :: 0 <= i < j < |available| ==> available[i] != available[j]
    }

    /** Opens poolSize connections to one file; a failed connect is not noticed. */
    constructor (poolSize: nat, file: File, results: nat -> bool)
      ensures |available| == poolSize && Distinct()
      ensures forall c <- available :: fresh(c) && c.db != null && fresh(c.db) && c.db.file == file && c.db.open.None?
    {
      available := [];
      new;
      for i := 0 to poolSize
        invariant |available| == i && Distinct()
        invariant forall c <- available :: fresh(c) && c.db != null && fresh(c.db) && c.db.file == file && c.db.open.None?
      {
        var conn := new DBConnection();
        var handle := new Sqlite(file);
        var ok := conn.Connect(handle, results(i));
        available := available + [conn];
      }
    }

    /** One pass of the wait loop in getConnection: the front of the queue, or nothing. */
    method TryGet() returns (conn: DBConnection?)
      modifies this
      ensures conn == null <==> old(available) == []
      ensures old(available) == if conn == null then available else [conn] + available
    {
      if available == [] {
        return null;
      }
      conn := available[0];
      available := available[1..];
    }

    method ReleaseConnection(conn: DBConnection)
      modifies this
      ensures available == old(available) + [conn]
    {
      available := available + [conn];
    }

    /** The destructor: every connection still in the queue is closed, and no other. */
    method Destroy()
      modifies this, available
      ensures available == []
      ensures forall c <- old(available) :: c.db == null
    {
      ghost var all := available;
      ghost var closed := 0;
      while available != []
        invariant closed <= |all| && available == all[closed..]
        invariant forall k :: 0 <= k < closed ==> all[k].db == null
        decreases |available|
      {
        var conn := available[0];
        available := available[1..];
        conn.Close();
        closed := closed + 1;
      }
    }
  }
}
