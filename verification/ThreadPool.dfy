// ThreadPool: a task queue, a stop flag, one mutex and one condition variable.
module ThreadPool {
  /** Stands for the std::function objects that are queued. */
  type Job = nat

  /** What a worker does once the mutex is locked. */
  datatype Turn = Sleep | Return | Run(job: Job)

  function TurnOf(tasks: seq<Job>, stop: bool): Turn {
    if tasks != [] then Run(tasks[0]) else if stop then Return else Sleep
  }

  /** The code run under queue_mutex, between one wait and the next. */
  class ThreadPool {
    var tasks: seq<Job>
    var stop: bool
    var workers: nat

    constructor (numThreads: nat)
      ensures workers == numThreads && tasks == [] && !stop
    {
      tasks, stop, workers := [], false, 0;
      new;
      for i := 0 to numThreads
        invariant workers == i && tasks == [] && !stop
      {
        workers := workers + 1;
      }
    }

    method SubmitTask(task: Job)
      modifies this`tasks
      ensures tasks == old(tasks) + [task]
    {
      tasks := tasks + [task];
    }

    /** Lines 38-43: the wait predicate, the exit test, and the dequeue. */
    method WorkerTurn() returns (turn: Turn)
      modifies this`tasks
      ensures turn == TurnOf(old(tasks), stop)
      ensures old(tasks) == if turn.Run? then [turn.job] + tasks else tasks
    {
      if !(tasks != [] || stop) {
        return Sleep;
      }
      if stop && tasks == [] {
        return Return;
      }
      turn := Run(tasks[0]);
      tasks := tasks[1..];
    }

    method BeginShutdown()
      modifies this`stop
      ensures stop
    {
      stop := true;
    }
  }
}
