// The server on its thread pool: the two machines run together, and each run of the pair is a run
// of both. The pool alone decides when a queued connection gets a worker.
module PooledServer {
  import opened Database
  import opened ServerMachine
  import opened Sessions
  import opened Wrappers
  import Pool = PoolMachine

  datatype System = System(pool: Pool.State, server: State)

  /** A step of the pool's own, an accepted connection submitted as a job, a job taken by a worker, a step of a session. */
  datatype Happening = Inside(p: Pool.Event) | Connection(h: Socket, woken: Option<nat>) | Dispatch(w: nat) | Session(e: Event)

  predicate Possible(x: System, a: Happening) {
    match a
    case Inside(p) => !p.Submit? && !p.Take? && !p.Complete? && Pool.Enabled(x.pool, p)
    case Connection(h, woken) => h !in x.server.open && Pool.Enabled(x.pool, Pool.Submit(h, woken))
    case Dispatch(w) => Pool.Enabled(x.pool, Pool.Take(w))
    case Session(e) => !e.Accept? && !e.Take? && Enabled(x.server, e)
  }

  /** The server's queue is the pool's, and a worker runs a session exactly while it runs a job. */
  predicate Linked(x: System) {
    && x.server.queue == x.pool.tasks && |x.server.workers| == |x.pool.workers|
    && forall i :: 0 <= i < |x.server.workers| ==> (x.server.workers[i].Busy? <==> x.pool.workers[i].Running?)
  }

  lemma JobIsASession(x: System, w: nat)
    requires Linked(x) && Pool.Enabled(x.pool, Pool.Take(w))
    ensures Enabled(x.server, Take(w))
  {
  }

  function Happen(b: Backend, x: System, a: Happening): System
    requires Linked(x) && Possible(x, a)
  {
    match a
    case Inside(p) => x.(pool := Pool.Apply(x.pool, p))
    case Connection(h, woken) => System(Pool.Apply(x.pool, Pool.Submit(h, woken)), Apply(b, x.server, Accept(h)))
    case Dispatch(w) =>
      JobIsASession(x, w);
      System(Pool.Apply(x.pool, Pool.Take(w)), Apply(b, x.server, Take(w)))
    case Session(e) =>
      if Moved(x.server, e).Idle? then System(Pool.Apply(x.pool, Pool.Complete(e.w)), Apply(b, x.server, e))
      else x.(server := Apply(b, x.server, e))
  }

  function Run(b: Backend, x: System, hs: seq<Happening>): Option<System> {
    if |hs| == 0 then Some(x)
    else
      var before, last := Run(b, x, hs[..|hs| - 1]), hs[|hs| - 1];
      if before.Some? && Linked(before.value) && Possible(before.value, last) then Some(Happen(b, before.value, last)) else None
  }

  function Start(n: nat, unlockFirst: bool, table: Table): System {
    System(Pool.Constructed(n, unlockFirst), Initial(n, table))
  }

  lemma LinkedInside(x: System, p: Pool.Event)
    requires Linked(x) && Possible(x, Inside(p))
    ensures var after := Pool.Apply(x.pool, p);
            after.tasks == x.pool.tasks && |after.workers| == |x.pool.workers| &&
            forall i :: 0 <= i < |after.workers| ==> (after.workers[i].Running? <==> x.pool.workers[i].Running?)
  {
    if p.Shutdown? {
      forall i | 0 <= i < |x.pool.workers| ensures Pool.WakeAll(x.pool.workers)[i] == Pool.Wake(x.pool.workers[i]) {
      }
    }
  }

  lemma LinkedConnection(b: Backend, x: System, h: Socket, woken: Option<nat>)
    requires Linked(x) && Possible(x, Connection(h, woken))
    ensures Linked(Happen(b, x, Connection(h, woken)))
  {
  }

  lemma LinkedDispatch(b: Backend, x: System, w: nat)
    requires Linked(x) && Possible(x, Dispatch(w))
    ensures Linked(Happen(b, x, Dispatch(w)))
  {
    JobIsASession(x, w);
  }

  lemma SessionKeepsQueue(b: Backend, s: State, e: Event)
    requires Enabled(s, e) && !e.Accept? && !e.Take?
    ensures var t := Apply(b, s, e);
            t.queue == s.queue && s.workers[e.w].Busy? && t.workers == s.workers[e.w := Moved(s, e)]
  {
  }

  lemma LinkedSession(b: Backend, x: System, e: Event)
    requires Linked(x) && Possible(x, Session(e))
    ensures Linked(Happen(b, x, Session(e)))
  {
    SessionKeepsQueue(b, x.server, e);
  }

  /** The link is never lost, so nothing but the two machines' own conditions ever holds a step up. */
  lemma StaysLinked(b: Backend, x: System, a: Happening)
    requires Linked(x) && Possible(x, a)
    ensures Linked(Happen(b, x, a))
  {
    match a
    case Inside(p) => LinkedInside(x, p);
    case Connection(h, woken) => LinkedConnection(b, x, h, woken);
    case Dispatch(w) => LinkedDispatch(b, x, w);
    case Session(e) => LinkedSession(b, x, e);
  }

  lemma PoolMore(s: Pool.State, es: seq<Pool.Event>, t: Pool.State, e: Pool.Event)
    requires Pool.Exec(s, es) == Some(t) && Pool.Enabled(t, e)
    ensures Pool.Exec(s, es + [e]) == Some(Pool.Apply(t, e))
  {
    assert (es + [e])[..|es|] == es;
  }

  /** The events of the pool and of the server that a step of the pair consists of. */
  function PoolPart(x: System, a: Happening): seq<Pool.Event>
    requires Linked(x) && Possible(x, a)
  {
    match a
    case Inside(p) => [p]
    case Connection(h, woken) => [Pool.Submit(h, woken)]
    case Dispatch(w) => [Pool.Take(w)]
    case Session(e) => if Moved(x.server, e).Idle? then [Pool.Complete(e.w)] else []
  }

  function ServerPart(a: Happening): seq<Event> {
    match a
    case Inside(_) => []
    case Connection(h, _) => [Accept(h)]
    case Dispatch(w) => [Take(w)]
    case Session(e) => [e]
  }

  lemma PoolStep(b: Backend, s: Pool.State, es: seq<Pool.Event>, x: System, a: Happening)
    requires Linked(x) && Possible(x, a) && Pool.Exec(s, es) == Some(x.pool)
    ensures Pool.Exec(s, es + PoolPart(x, a)) == Some(Happen(b, x, a).pool)
  {
    var part := PoolPart(x, a);
    if part == [] {
      assert es + part == es;
    } else {
      PoolMore(s, es, x.pool, part[0]);
      assert part == [part[0]];
    }
  }

  lemma ServerStep(b: Backend, s: State, es: seq<Event>, x: System, a: Happening)
    requires Linked(x) && Possible(x, a) && Exec(b, s, es) == Some(x.server)
    ensures Exec(b, s, es + ServerPart(a)) == Some(Happen(b, x, a).server)
  {
    var part := ServerPart(a);
    if part == [] {
      assert es + part == es;
    } else {
      if a.Dispatch? {
        JobIsASession(x, a.w);
      }
      ExecMore(b, s, es, x.server, part[0]);
      assert part == [part[0]];
    }
  }

  /** Every run of the pair is a run of the server's machine and a run of the pool's machine. */
  lemma {:induction false} RunsOfBoth(b: Backend, n: nat, unlockFirst: bool, table: Table, hs: seq<Happening>, x: System)
    returns (es: seq<Event>, ps: seq<Pool.Event>)
    requires Run(b, Start(n, unlockFirst, table), hs) == Some(x)
    ensures Linked(x) && Exec(b, Initial(n, table), es) == Some(x.server)
    ensures Pool.Exec(Pool.Constructed(n, unlockFirst), ps) == Some(x.pool)
  {
    if |hs| == 0 {
      es, ps := [], [];
    } else {
      var before, a := Run(b, Start(n, unlockFirst, table), hs[..|hs| - 1]).value, hs[|hs| - 1];
      es, ps := RunsOfBoth(b, n, unlockFirst, table, hs[..|hs| - 1], before);
      StaysLinked(b, before, a);
      PoolStep(b, Pool.Constructed(n, unlockFirst), ps, before, a);
      ServerStep(b, Initial(n, table), es, before, a);
      es, ps := es + ServerPart(a), ps + PoolPart(before, a);
    }
  }

  /**
   * No more clients are connected than the pool has workers, and connections get a worker in the order
   * they were accepted: those submitted are those taken and then those in the server's queue.
   */
  lemma PoolBoundsSessions(b: Backend, n: nat, unlockFirst: bool, table: Table, hs: seq<Happening>, x: System)
    requires Run(b, Start(n, unlockFirst, table), hs) == Some(x)
    ensures |x.server.clients| <= |x.pool.workers| == n
    ensures x.pool.submitted == x.pool.dequeued + x.server.queue
  {
    var es, ps := RunsOfBoth(b, n, unlockFirst, table, hs, x);
    SessionBound(b, n, table, es, x.server);
    Pool.ControlRun(n, unlockFirst, ps, x.pool);
    Pool.DispatchIsExactlyOnce(n, unlockFirst, ps, x.pool);
  }

  /** Once the pool's destructor as written has begun, no connection waiting in the queue is ever served. */
  lemma QueueIsStranded(b: Backend, n: nat, table: Table, hs: seq<Happening>, x: System, w: nat)
    requires n > 0 && Run(b, Start(n, false, table), hs) == Some(x) && x.pool.stop
    ensures !Possible(x, Dispatch(w))
  {
    var es, ps := RunsOfBoth(b, n, false, table, hs, x);
    Pool.ControlRun(n, false, ps, x.pool);
    Pool.DestructorNeverFinishes(n, ps, x.pool);
  }
}
