/** The single-flight API queue (`apiQueue`, `isApiBusy`, `processApiQueue`).

    `processApiQueue` is split at its `await`: `Drain` is the part before the task runs
    and `Finish` is the `finally` block after it has settled. The one-second re-arm timer
    is returned as a flag instead of being scheduled. */
module Queue {
  import opened Wrappers
  import opened Roles

  /** The pause, in milliseconds, before the queue is drained again while work remains. */
  const CooldownMs: nat := 1000

  /** The closures pushed onto `apiQueue`, identified by what they call. */
  datatype Task =
    | InitialStatement(role: Role)
    | AiResponse(role: Role, question: string)

  class ApiQueue {
    /** `apiQueue`: the tasks not yet started, front first. */
    var pending: seq<Task>
    /** `isApiBusy`. */
    var busy: bool
    /** The task between `Drain` and `Finish`, if any. */
    ghost var running: Option<Task>
    /** Every task shifted off the queue so far, in the order they were started. */
    ghost var started: seq<Task>
    /** Every task ever pushed, in the order they were pushed. */
    ghost var enqueued: seq<Task>

    /** The tasks start in the order they were pushed, each once; at most one runs, and
        the queue is busy exactly while it runs. */
    ghost predicate Valid()
      reads this
    {
      && enqueued == started + pending
      && (busy <==> running.Some?)
      && (running.Some? ==> started != [] && running.value == started[|started| - 1])
    }

    constructor ()
      ensures Valid()
      ensures pending == [] && !busy && running == None && started == [] && enqueued == []
    {
      pending := [];
      busy := false;
      running := None;
      started := [];
      enqueued := [];
    }

    /** `apiQueue.push(task)`. */
    method Enqueue(t: Task)
      requires Valid()
      modifies this
      ensures Valid()
      ensures pending == old(pending) + [t] && enqueued == old(enqueued) + [t]
      ensures busy == old(busy) && running == old(running) && started == old(started)
    {
      pending := pending + [t];
      enqueued := enqueued + [t];
    }

    /** `processApiQueue` up to `await task()`: nothing happens while a task runs or when
        nothing is queued; otherwise the front task is shifted off and the queue is busy. */
    method Drain() returns (task: Option<Task>)
      requires Valid()
      modifies this
      ensures Valid()
      ensures enqueued == old(enqueued)
      ensures old(busy) || old(pending) == [] ==>
        task == None && pending == old(pending) && busy == old(busy)
        && running == old(running) && started == old(started)
      ensures !old(busy) && old(pending) != [] ==>
        && task == Some(old(pending)[0]) && pending == old(pending)[1..]
        && busy && running == task && started == old(started) + [old(pending)[0]]
    {
      if busy || |pending| == 0 {
        return None;
      }
      busy := true;
      var t := pending[0];
      pending := pending[1..];
      started := started + [t];
      running := Some(t);
      task := Some(t);
    }

    /** The `finally` block, reached whether the task returned or threw: the queue is idle
        again, and it is re-armed exactly when tasks are still waiting. */
    method Finish() returns (rearm: bool)
      requires Valid() && busy
      modifies this
      ensures Valid()
      ensures !busy && running == None
      ensures pending == old(pending) && started == old(started) && enqueued == old(enqueued)
      ensures rearm <==> pending != []
    {
      busy := false;
      running := None;
      rearm := |pending| > 0;
    }
  }
}
