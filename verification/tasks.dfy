/**
  The task lifecycle shared by the ETL executor and the AI-agent executor:
  a table of task records keyed by id, plus the process-local registry of
  running tasks (id -> start time). Each operation below is one atomic
  step; an executor is a sequence of such steps, and a cancel may fall
  between any two of them.

  No step checks the status it overwrites, so no status is terminal: a task
  cancelled while pending or running can still be started and completed by
  its executor, and a completed task can still be marked failed.
 */
module Tasks {
  import opened Wrappers

  datatype Status = Pending | Running | Completed | Failed | Cancelled

  /** One row of the task table: parameters of type P, result of type R. */
  datatype Task<P, R> = Task(
    id: nat,
    taskType: string,
    status: Status,
    parameters: P,
    result: Option<R>,
    errorMessage: Option<string>,
    userId: Option<nat>,
    createdAt: int,
    startedAt: Option<int>,
    completedAt: Option<int>)

  /** The task table, the registry of running tasks, and the next id the table hands out. */
  datatype Store<P, R> = Store(tasks: map<nat, Task<P, R>>, registry: map<nat, int>, nextId: nat)

  /**
    The invariant every reachable store keeps: each record sits under its
    own id, below the next fresh id; the registry only names existing
    tasks; a registered task is running or completed and the registry's
    start time is the task's start time.
   */
  predicate Valid<P(==), R(==)>(s: Store<P, R>) {
    && (forall id | id in s.tasks :: id < s.nextId && s.tasks[id].id == id)
    && (forall id | id in s.registry ::
          && id in s.tasks
          && s.tasks[id].status in {Running, Completed}
          && s.tasks[id].startedAt == Some(s.registry[id]))
  }

  function Empty<P(==), R(==)>(): (s: Store<P, R>)
    ensures Valid(s) && s.tasks == map[] && s.registry == map[]
  {
    Store(map[], map[], 0)
  }

  /** Two stores agree on every task except `id`, and on the registry except `id`. */
  predicate OthersUnchanged<P(==), R(==)>(s: Store<P, R>, t: Store<P, R>, id: nat) {
    && (forall k | k in s.tasks && k != id :: k in t.tasks && t.tasks[k] == s.tasks[k])
    && (forall k | k in t.tasks && k != id :: k in s.tasks)
    && (forall k | k in s.registry && k != id :: k in t.registry && t.registry[k] == s.registry[k])
    && (forall k | k in t.registry && k != id :: k in s.registry)
  }

  /**
    Insert a new pending task and return its id. The id is fresh, the new
    record carries exactly the given type, parameters and user, and no
    other record or registry entry changes.
   */
  function Create<P(==), R(==)>(s: Store<P, R>, taskType: string, parameters: P, userId: Option<nat>, now: int)
    : (r: (Store<P, R>, nat))
    ensures Valid(s) ==> Valid(r.0) && r.1 !in s.tasks
    ensures r.1 in r.0.tasks
    ensures var t := r.0.tasks[r.1];
      && t.id == r.1 && t.status == Pending && t.taskType == taskType
      && t.parameters == parameters && t.userId == userId
      && t.result == None && t.errorMessage == None
      && t.startedAt == None && t.completedAt == None && t.createdAt == now
    ensures r.0.registry == s.registry && r.0.tasks.Keys == s.tasks.Keys + {r.1}
    ensures Valid(s) ==> OthersUnchanged(s, r.0, r.1)
  {
    var id := s.nextId;
    var t := Task(id, taskType, Pending, parameters, None, None, userId, now, None, None);
    (Store(s.tasks[id := t], s.registry, s.nextId + 1), id)
  }

  /**
    The executor's first step: mark the task running, stamp its start and
    enter it in the registry, whatever status it had. A missing task leaves
    the store as it is (the executor returns).
   */
  function Start<P(==), R(==)>(s: Store<P, R>, id: nat, now: int): (r: Store<P, R>)
    ensures id !in s.tasks ==> r == s
    ensures id in s.tasks ==>
      && id in r.tasks && id in r.registry && r.registry[id] == now
      && r.tasks[id] == s.tasks[id].(status := Running, startedAt := Some(now))
    ensures Valid(s) ==> Valid(r)
    ensures OthersUnchanged(s, r, id) && r.tasks.Keys == s.tasks.Keys
  {
    if id !in s.tasks then s
    else
      var t := s.tasks[id].(status := Running, startedAt := Some(now));
      s.(tasks := s.tasks[id := t], registry := s.registry[id := now])
  }

  /**
    The executor's success step: the task is completed with its result and
    completion time. Its error message and its registry entry are left as
    they are.
   */
  function Succeed<P(==), R(==)>(s: Store<P, R>, id: nat, result: R, now: int): (r: Store<P, R>)
    ensures id !in s.tasks ==> r == s
    ensures id in s.tasks ==>
      && id in r.tasks
      && r.tasks[id] == s.tasks[id].(status := Completed, result := Some(result), completedAt := Some(now))
    ensures r.registry == s.registry
    ensures Valid(s) ==> Valid(r)
    ensures OthersUnchanged(s, r, id) && r.tasks.Keys == s.tasks.Keys
  {
    if id !in s.tasks then s
    else
      var t := s.tasks[id].(status := Completed, result := Some(result), completedAt := Some(now));
      s.(tasks := s.tasks[id := t])
  }

  /**
    The executor's failure handler: a fresh session marks the task failed
    with the exception text and completion time, and the registry entry is
    dropped. A result stored earlier stays.
   */
  function Fail<P(==), R(==)>(s: Store<P, R>, id: nat, message: string, now: int): (r: Store<P, R>)
    ensures id !in r.registry
    ensures id in s.tasks ==>
      && id in r.tasks
      && r.tasks[id] == s.tasks[id].(status := Failed, errorMessage := Some(message), completedAt := Some(now))
    ensures id !in s.tasks ==> r.tasks == s.tasks
    ensures Valid(s) ==> Valid(r)
    ensures OthersUnchanged(s, r, id) && r.tasks.Keys == s.tasks.Keys
  {
    var tasks := if id in s.tasks
      then s.tasks[id := s.tasks[id].(status := Failed, errorMessage := Some(message), completedAt := Some(now))]
      else s.tasks;
    s.(tasks := tasks, registry := s.registry - {id})
  }

  /** Cancellation of one record: status, completion time and the fixed message. */
  function MarkCancelled<P(==), R(==)>(s: Store<P, R>, id: nat, message: string, now: int): (r: Store<P, R>)
    ensures id in s.tasks ==>
      && id in r.tasks
      && r.tasks[id] == s.tasks[id].(status := Cancelled, errorMessage := Some(message), completedAt := Some(now))
    ensures id !in s.tasks ==> r.tasks == s.tasks
    ensures r.registry == s.registry - {id}
    ensures Valid(s) ==> Valid(r)
    ensures OthersUnchanged(s, r, id) && r.tasks.Keys == s.tasks.Keys
  {
    var tasks := if id in s.tasks
      then s.tasks[id := s.tasks[id].(status := Cancelled, errorMessage := Some(message), completedAt := Some(now))]
      else s.tasks;
    s.(tasks := tasks, registry := s.registry - {id})
  }

  /** The executor's last step: drop the registry entry. */
  function Retire<P(==), R(==)>(s: Store<P, R>, id: nat): (r: Store<P, R>)
    ensures id !in r.registry && r.tasks == s.tasks
    ensures Valid(s) ==> Valid(r)
    ensures OthersUnchanged(s, r, id)
  {
    s.(registry := s.registry - {id})
  }

  /** What a status query reports: the record, and the elapsed time while it is registered. */
  datatype StatusView<P, R> = StatusView(task: Task<P, R>, elapsed: Option<int>)

  function Query<P(==), R(==)>(s: Store<P, R>, id: nat, now: int): (r: Option<StatusView<P, R>>)
    ensures r.None? <==> id !in s.tasks
    ensures r.Some? ==> r.value.task == s.tasks[id]
    ensures r.Some? ==> (r.value.elapsed.Some? <==> id in s.registry)
    ensures r.Some? && Valid(s) && id in s.registry ==>
      s.tasks[id].startedAt.Some? && r.value.elapsed == Some(now - s.tasks[id].startedAt.value)
  {
    if id !in s.tasks then None
    else Some(StatusView(s.tasks[id], if id in s.registry then Some(now - s.registry[id]) else None))
  }

  // ---------------------------------------------------------------------
  // Interleavings: no status is final.

  /** A task cancelled while pending is still started by its executor. */
  lemma {:induction false} CancelledThenStarted<P, R>(s: Store<P, R>, id: nat, msg: string, t0: int, t1: int)
    requires id in s.tasks && s.tasks[id].status == Pending
    ensures var r := Start(MarkCancelled(s, id, msg, t0), id, t1);
      r.tasks[id].status == Running && id in r.registry
  {
  }

  /** A cancel between start and success is overwritten by the success step. */
  lemma {:induction false} CancelWhileRunningIsOverwritten<P, R>(s: Store<P, R>, id: nat, res: R, msg: string, t0: int, t1: int, t2: int)
    requires id in s.tasks
    ensures var r := Succeed(MarkCancelled(Start(s, id, t0), id, msg, t1), id, res, t2);
      && r.tasks[id].status == Completed
      && r.tasks[id].errorMessage == Some(msg)
      && id !in r.registry
  {
  }

  /** A completed task whose follow-up work fails ends failed, still holding its result. */
  lemma {:induction false} CompletedThenFailed<P, R>(s: Store<P, R>, id: nat, res: R, msg: string, t0: int, t1: int)
    requires id in s.tasks
    ensures var r := Fail(Succeed(s, id, res, t0), id, msg, t1);
      r.tasks[id].status == Failed && r.tasks[id].result == Some(res)
  {
  }
}
