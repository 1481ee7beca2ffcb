/** The download scheduler of services/queue_manager.py: a priority queue of
    pending tasks, a registry of running tasks, a registry of finished ones, a
    per-owner quota, retries with a capped linear back-off and a bounded
    history.

    A task object is shared between the collections in the source (a task that
    is retried sits in the pending queue and in the completed registry at the
    same time). The model therefore keeps one store `tasks` from task id to the
    task's current fields, and the collections hold ids. The asyncio task that
    runs `_execute_task` is a `Job` whose progress is driven by explicit event
    methods whose outcome is an input. */
module QueueManager {
  import opened Common

  type TaskId = string

  /** `Priority`: a smaller value is served first. */
  datatype Priority = Low | Normal | High | Urgent
  {
    function Value(): nat
    {
      match this
      case Low => 3
      case Normal => 2
      case High => 1
      case Urgent => 0
    }
  }

  datatype TaskStatus = Pending | Running | Completed | Failed | Cancelled

  /** `QueueTask`; times are seconds, `progress` is a percentage. The callback
      and the context dictionary are not modelled: the callback's verdict is
      the `Outcome` given to `CompleteAttempt`. */
  datatype QueueTask = QueueTask(
    id: TaskId,
    userId: int,
    url: string,
    priority: Priority,
    createdAt: int,
    startedAt: Option<int>,
    completedAt: Option<int>,
    status: TaskStatus,
    progress: int,
    errorMessage: Option<string>,
    retryCount: nat,
    maxRetries: nat)

  const DefaultMaxRetries: nat := 3
  /** `max_user_queue` in `add_task`. */
  const MaxUserQueue: nat := 5
  /** `MAX_CONCURRENT_DOWNLOADS` when the environment does not set it. */
  const DefaultMaxConcurrent: int := 3
  /** The completed registry is halved once it holds more than this. */
  const MaxCompletedKept: nat := 1000

  /** A freshly created task, as `add_task` builds it. */
  function NewTask(id: TaskId, userId: int, url: string, priority: Priority, now: int): QueueTask
  {
    QueueTask(id, userId, url, priority, now, None, None, Pending, 0, None, 0, DefaultMaxRetries)
  }

  /** `QueueTask.__lt__`: the heap order. */
  predicate Less(a: QueueTask, b: QueueTask)
  {
    if a.priority.Value() != b.priority.Value() then a.priority.Value() < b.priority.Value()
    else a.createdAt < b.createdAt
  }

  /** The heap order is a strict order, and two tasks that neither precedes have
      the same priority and creation time. The priorities are served URGENT,
      HIGH, NORMAL, LOW, whatever the creation times. */
  lemma LessIsStrictOrder(a: QueueTask, b: QueueTask, c: QueueTask)
    ensures Urgent.Value() < High.Value() < Normal.Value() < Low.Value()
    ensures a.priority.Value() < b.priority.Value() ==> Less(a, b)
    ensures !Less(a, a)
    ensures Less(a, b) ==> !Less(b, a)
    ensures Less(a, b) && Less(b, c) ==> Less(a, c)
    ensures !Less(a, b) && !Less(b, a) ==> a.priority == b.priority && a.createdAt == b.createdAt
  {
  }

  /** The delay before a failed task is queued again. */
  function BackoffDelay(retryCount: int): (d: int)
    ensures d <= 30
    ensures retryCount >= 0 ==> d >= 0
    ensures retryCount <= 6 ==> d == retryCount * 5
    ensures retryCount >= 6 ==> d == 30
  {
    Min(retryCount * 5, 30)
  }

  /** The `except Exception` handler of `_execute_task` on one task: the error is
      kept, the retry count rises, and the task is queued again while the new
      count is at most `max_retries`, or fails for good. */
  function AfterFailure(t: QueueTask, error: string): (r: QueueTask)
    ensures r.retryCount == t.retryCount + 1 && r.errorMessage == Some(error)
    ensures r.status == Pending <==> t.retryCount + 1 <= t.maxRetries
    ensures r.status != Pending ==> r.status == Failed && r.startedAt == t.startedAt
    ensures r.status == Pending ==> r.startedAt == None
    ensures r.(status := t.status, startedAt := t.startedAt, retryCount := t.retryCount, errorMessage := t.errorMessage) == t
  {
    var t' := t.(errorMessage := Some(error), retryCount := t.retryCount + 1);
    if t'.retryCount <= t'.maxRetries then t'.(status := Pending, startedAt := None)
    else t'.(status := Failed)
  }

  /** A task that fails on every attempt, one error per attempt. */
  function FailEveryTime(t: QueueTask, errors: seq<string>): QueueTask
    decreases |errors|
  {
    if |errors| == 0 then t else FailEveryTime(AfterFailure(t, errors[0]), errors[1..])
  }

  /** After `n` failed attempts the task has been retried `n` times, keeps the
      last error, and is still queued exactly while `n` stays within its retry
      budget. */
  lemma {:induction false} FailuresExhaustRetries(t: QueueTask, errors: seq<string>)
    requires |errors| > 0
    ensures FailEveryTime(t, errors).retryCount == t.retryCount + |errors|
    ensures FailEveryTime(t, errors).errorMessage == Some(errors[|errors| - 1])
    ensures FailEveryTime(t, errors).maxRetries == t.maxRetries
    ensures FailEveryTime(t, errors).status == (if t.retryCount + |errors| <= t.maxRetries then Pending else Failed)
    decreases |errors|
  {
    if |errors| > 1 {
      FailuresExhaustRetries(AfterFailure(t, errors[0]), errors[1..]);
    }
  }

  /** With the default budget a new task is attempted at most four times: three
      failures leave it queued, the fourth fails it. */
  lemma FourAttempts(t: QueueTask, errors: seq<string>)
    requires t.retryCount == 0 && t.maxRetries == DefaultMaxRetries
    requires 1 <= |errors| <= 4
    ensures FailEveryTime(t, errors).status == (if |errors| == 4 then Failed else Pending)
  {
    FailuresExhaustRetries(t, errors);
  }

  /** The scan of `pending_queue` for a task id: its index, or -1. */
  method IndexOf(s: seq<TaskId>, id: TaskId) returns (i: int)
    ensures -1 <= i < |s|
    ensures i >= 0 ==> s[i] == id
    ensures i < 0 <==> id !in s
  {
    i := 0;
    while i < |s|
      invariant 0 <= i <= |s|
      invariant id !in s[..i]
    {
      if s[i] == id {
        return i;
      }
      assert s[..i + 1] == s[..i] + [s[i]];
      i := i + 1;
    }
    assert s[..i] == s;
    return -1;
  }

  /** `[x]` when task `x` belongs to user `u`, else `[]`. */
  function OwnedHead(store: map<TaskId, QueueTask>, x: TaskId, u: int): (r: seq<TaskId>)
    ensures |r| <= 1 && forall id :: id in r ==> id == x && x in store && store[x].userId == u
  {
    if x in store && store[x].userId == u then [x] else []
  }

  /** The ids in `ids` whose task belongs to user `u`, in order. */
  function Owned(store: map<TaskId, QueueTask>, ids: seq<TaskId>, u: int): (r: seq<TaskId>)
    ensures |r| <= |ids|
    ensures forall id :: id in r ==> id in ids && id in store && store[id].userId == u
  {
    if |ids| == 0 then []
    else OwnedHead(store, ids[0], u) + Owned(store, ids[1..], u)
  }

  /** How many of `ids` belong to user `u`. */
  function Count(store: map<TaskId, QueueTask>, ids: seq<TaskId>, u: int): nat
  {
    |Owned(store, ids, u)|
  }

  /** One counting loop of `_get_user_pending_count`. */
  method CountOwned(store: map<TaskId, QueueTask>, ids: seq<TaskId>, u: int) returns (n: nat)
    ensures n == Count(store, ids, u)
  {
    n := 0;
    var i := 0;
    while i < |ids|
      invariant 0 <= i <= |ids|
      invariant n == Count(store, ids[..i], u)
    {
      assert ids[..i + 1] == ids[..i] + [ids[i]];
      OwnedAppend(store, ids[..i], ids[i], u);
      if ids[i] in store && store[ids[i]].userId == u {
        n := n + 1;
      }
      i := i + 1;
    }
    assert ids[..i] == ids;
  }

  lemma {:induction false} OwnedConcat(store: map<TaskId, QueueTask>, a: seq<TaskId>, b: seq<TaskId>, u: int)
    ensures Owned(store, a + b, u) == Owned(store, a, u) + Owned(store, b, u)
    decreases |a|
  {
    if |a| > 0 {
      assert (a + b)[0] == a[0] && (a + b)[1..] == a[1..] + b;
      OwnedConcat(store, a[1..], b, u);
      var h := OwnedHead(store, a[0], u);
      assert h + Owned(store, a[1..], u) + Owned(store, b, u) == h + (Owned(store, a[1..], u) + Owned(store, b, u));
    } else {
      assert a + b == b;
    }
  }

  /** Appending one id adds it to the owned ids exactly when it is owned. */
  lemma OwnedAppend(store: map<TaskId, QueueTask>, s: seq<TaskId>, x: TaskId, u: int)
    ensures Owned(store, s + [x], u) == Owned(store, s, u) + OwnedHead(store, x, u)
  {
    OwnedConcat(store, s, [x], u);
  }

  /** Only the owners of the listed tasks matter. */
  lemma {:induction false} OwnedFrame(t1: map<TaskId, QueueTask>, t2: map<TaskId, QueueTask>, ids: seq<TaskId>, u: int)
    requires forall id :: id in ids ==> (id in t1 <==> id in t2)
    requires forall id :: id in ids && id in t1 ==> t1[id].userId == t2[id].userId
    ensures Owned(t1, ids, u) == Owned(t2, ids, u)
    decreases |ids|
  {
    if |ids| > 0 {
      OwnedFrame(t1, t2, ids[1..], u);
    }
  }

  /** Deleting a present id lowers the count of its owner by one. */
  lemma {:induction false} CountRemove(store: map<TaskId, QueueTask>, s: seq<TaskId>, x: TaskId, u: int)
    requires NoDup(s) && x in s
    ensures Count(store, Remove(s, x), u) + (if x in store && store[x].userId == u then 1 else 0) == Count(store, s, u)
    decreases |s|
  {
    if s[0] == x {
      assert x !in s[1..];
    } else {
      CountRemove(store, s[1..], x, u);
      var t := Remove(s[1..], x);
      assert ([s[0]] + t)[1..] == t;
    }
  }

  /** No user has more than `MaxUserQueue` tasks running or pending. */
  ghost predicate WithinQuota(store: map<TaskId, QueueTask>, running: seq<TaskId>, pending: seq<TaskId>)
  {
    forall u :: Count(store, running, u) + Count(store, pending, u) <= MaxUserQueue
  }

  /** Updating fields other than the owner keeps the quota. */
  lemma QuotaFrame(before: map<TaskId, QueueTask>, after: map<TaskId, QueueTask>, running: seq<TaskId>, pending: seq<TaskId>)
    requires forall id :: id in before <==> id in after
    requires forall id :: id in before ==> before[id].userId == after[id].userId
    requires WithinQuota(before, running, pending)
    ensures WithinQuota(after, running, pending)
  {
    forall u
      ensures Count(after, running, u) + Count(after, pending, u) <= MaxUserQueue
    {
      assert Count(before, running, u) + Count(before, pending, u) <= MaxUserQueue;
      OwnedFrame(before, after, running, u);
      OwnedFrame(before, after, pending, u);
    }
  }

  /** Queuing a new task of a user below the quota keeps the quota. */
  lemma QuotaAdd(store: map<TaskId, QueueTask>, running: seq<TaskId>, pending: seq<TaskId>, t: QueueTask)
    requires WithinQuota(store, running, pending) && t.id !in store
    requires t.id !in running && t.id !in pending
    requires Count(store, running, t.userId) + Count(store, pending, t.userId) < MaxUserQueue
    ensures WithinQuota(store[t.id := t], running, pending + [t.id])
  {
    var after := store[t.id := t];
    forall u
      ensures Count(after, running, u) + Count(after, pending + [t.id], u) <= MaxUserQueue
    {
      assert Count(store, running, u) + Count(store, pending, u) <= MaxUserQueue;
      OwnedFrame(store, after, running, u);
      OwnedFrame(store, after, pending, u);
      OwnedAppend(after, pending, t.id, u);
    }
  }

  /** Dispatching a pending task keeps the quota. */
  lemma QuotaDispatch(store: map<TaskId, QueueTask>, running: seq<TaskId>, pending: seq<TaskId>, i: nat)
    requires WithinQuota(store, running, pending) && NoDup(pending) && i < |pending|
    ensures WithinQuota(store, running + [pending[i]], RemoveAt(pending, i))
  {
    RemoveAtIsRemove(pending, i);
    forall u
      ensures Count(store, running + [pending[i]], u) + Count(store, RemoveAt(pending, i), u) <= MaxUserQueue
    {
      assert Count(store, running, u) + Count(store, pending, u) <= MaxUserQueue;
      OwnedAppend(store, running, pending[i], u);
      CountRemove(store, pending, pending[i], u);
    }
  }

  /** Putting a running task back on the queue keeps the quota. */
  lemma QuotaRequeue(store: map<TaskId, QueueTask>, running: seq<TaskId>, pending: seq<TaskId>, id: TaskId)
    requires WithinQuota(store, running, pending) && NoDup(running) && id in running
    ensures WithinQuota(store, Remove(running, id), pending + [id])
  {
    forall u
      ensures Count(store, Remove(running, id), u) + Count(store, pending + [id], u) <= MaxUserQueue
    {
      assert Count(store, running, u) + Count(store, pending, u) <= MaxUserQueue;
      OwnedAppend(store, pending, id, u);
      CountRemove(store, running, id, u);
    }
  }

  /** Deleting a task from either collection keeps the quota. */
  lemma QuotaDrop(store: map<TaskId, QueueTask>, running: seq<TaskId>, pending: seq<TaskId>, id: TaskId)
    requires WithinQuota(store, running, pending) && NoDup(running) && NoDup(pending)
    ensures WithinQuota(store, Remove(running, id), pending)
    ensures WithinQuota(store, running, Remove(pending, id))
  {
    forall u
      ensures Count(store, Remove(running, id), u) + Count(store, pending, u) <= MaxUserQueue
      ensures Count(store, running, u) + Count(store, Remove(pending, id), u) <= MaxUserQueue
    {
      assert Count(store, running, u) + Count(store, pending, u) <= MaxUserQueue;
      if id in running { CountRemove(store, running, id, u); }
      if id in pending { CountRemove(store, pending, id, u); }
    }
  }

  /** The asyncio task running `_execute_task`: not yet started, awaiting the
      callback, or sleeping before the retry; `cancelRequested` records an
      asyncio `cancel()` not yet delivered. */
  datatype Phase = NotStarted | Executing | Backoff(resumeAt: int)
  datatype Job = Job(phase: Phase, cancelRequested: bool)

  /** What the awaited callback produced. */
  datatype Outcome = Success | Failure(error: string)

  datatype Stats = Stats(totalTasks: nat, completedTasks: nat, failedTasks: nat, cancelledTasks: nat)

  /** `completed_at or created_at` (a datetime is never false). */
  function CompletionTime(t: QueueTask): int
  {
    match t.completedAt
    case Some(c) => c
    case None => t.createdAt
  }

  /** Sorting on this key is `sort(key=completed_at or created_at, reverse=True)`;
      both keep equal keys in their original order. */
  function NewestFirst(t: QueueTask): int
  {
    -CompletionTime(t)
  }

  function CompletionKey(store: map<TaskId, QueueTask>, id: TaskId): int
  {
    if id in store then CompletionTime(store[id]) else 0
  }

  function Lookup(store: map<TaskId, QueueTask>, ids: seq<TaskId>): (r: seq<QueueTask>)
    requires forall id :: id in ids ==> id in store
    ensures |r| == |ids| && forall i :: 0 <= i < |ids| ==> r[i] == store[ids[i]]
  {
    seq(|ids|, i requires 0 <= i < |ids| => store[ids[i]])
  }

  lemma LookupAppend(store: map<TaskId, QueueTask>, ids: seq<TaskId>, x: TaskId)
    requires forall id :: id in ids ==> id in store
    requires x in store
    ensures Lookup(store, ids + [x]) == Lookup(store, ids) + [store[x]]
  {
  }

  /** One loop of `get_user_tasks`: the tasks of `ids` that belong to `u`. */
  method CollectOwned(store: map<TaskId, QueueTask>, ids: seq<TaskId>, u: int) returns (r: seq<QueueTask>)
    requires forall id :: id in ids ==> id in store
    ensures r == Lookup(store, Owned(store, ids, u))
  {
    r := [];
    var i := 0;
    while i < |ids|
      invariant 0 <= i <= |ids|
      invariant r == Lookup(store, Owned(store, ids[..i], u))
    {
      assert ids[..i + 1] == ids[..i] + [ids[i]];
      OwnedAppend(store, ids[..i], ids[i], u);
      if store[ids[i]].userId == u {
        LookupAppend(store, Owned(store, ids[..i], u), ids[i]);
        r := r + [store[ids[i]]];
      }
      i := i + 1;
    }
    assert ids[..i] == ids;
  }

  /** The last ten completed tasks of user `u`, most recent first. */
  function RecentCompleted(store: map<TaskId, QueueTask>, completed: seq<TaskId>, u: int): seq<QueueTask>
  {
    Take(SortBy(Lookup(store, Owned(store, completed, u)), NewestFirst), 10)
  }

  /** The recent list holds at most ten tasks, newest first. */
  lemma RecentCompletedNewestFirst(store: map<TaskId, QueueTask>, completed: seq<TaskId>, u: int)
    ensures var r := RecentCompleted(store, completed, u);
      && |r| <= 10
      && forall i, j :: 0 <= i < j < |r| ==> CompletionTime(r[j]) <= CompletionTime(r[i])
  {
    var sorted := SortBy(Lookup(store, Owned(store, completed, u)), NewestFirst);
    var r := RecentCompleted(store, completed, u);
    forall i, j | 0 <= i < j < |r| ensures CompletionTime(r[j]) <= CompletionTime(r[i]) {
      assert r[i] == sorted[i] && r[j] == sorted[j];
    }
  }

  /** Every task on the recent list belongs to the user and is the stored task
      of an id in the completed registry. */
  lemma RecentCompletedOwned(store: map<TaskId, QueueTask>, completed: seq<TaskId>, u: int)
    ensures forall t :: t in RecentCompleted(store, completed, u) ==>
      t.userId == u && exists id :: id in completed && id in store && store[id] == t
  {
    var ids := Owned(store, completed, u);
    var owned := Lookup(store, ids);
    var sorted := SortBy(owned, NewestFirst);
    forall t | t in RecentCompleted(store, completed, u)
      ensures t.userId == u && exists id :: id in completed && id in store && store[id] == t
    {
      assert t in sorted;
      assert t in multiset(owned);
      var k :| 0 <= k < |owned| && owned[k] == t;
      assert ids[k] in ids && store[ids[k]] == t;
    }
  }

  /** The tasks whose registry entries `_cleanup_completed_tasks` deletes: the
      older half, by completion time (creation time when never completed). */
  function OldestHalf(store: map<TaskId, QueueTask>, completed: seq<TaskId>): seq<TaskId>
  {
    Take(SortBy(completed, (id: TaskId) => CompletionKey(store, id)), |completed| / 2)
  }

  /** Every deleted entry is at least as old as every kept one, and exactly half
      of the entries (rounded down) is selected. */
  lemma OldestHalfIsOldest(store: map<TaskId, QueueTask>, completed: seq<TaskId>)
    ensures |OldestHalf(store, completed)| == |completed| / 2
    ensures forall v :: v in OldestHalf(store, completed) ==> v in completed
    ensures forall v, w :: v in OldestHalf(store, completed) && w in completed && w !in OldestHalf(store, completed) ==>
      CompletionKey(store, v) <= CompletionKey(store, w)
  {
    var key := (id: TaskId) => CompletionKey(store, id);
    var sorted := SortBy(completed, key);
    var half := OldestHalf(store, completed);
    assert half == sorted[..|completed| / 2];
    forall v | v in half ensures v in completed {
      assert v in multiset(sorted);
    }
    forall v, w | v in half && w in completed && w !in half
      ensures CompletionKey(store, v) <= CompletionKey(store, w)
    {
      assert w in multiset(sorted);
      var j :| 0 <= j < |sorted| && sorted[j] == w;
      var i :| 0 <= i < |half| && half[i] == v;
      assert j >= |completed| / 2;
    }
  }

  /** The first position holding a task that no other listed task precedes:
      the task `heappop` returns. */
  function MinPos(store: map<TaskId, QueueTask>, ids: seq<TaskId>): (i: nat)
    requires |ids| > 0 && forall id :: id in ids ==> id in store
    ensures i < |ids|
    ensures forall j :: 0 <= j < |ids| ==> !Less(store[ids[j]], store[ids[i]])
  {
    if |ids| == 1 then 0
    else
      var k := MinPos(store, ids[..|ids| - 1]);
      assert forall j :: 0 <= j < |ids| - 1 ==> ids[..|ids| - 1][j] == ids[j];
      if Less(store[ids[|ids| - 1]], store[ids[k]]) then |ids| - 1 else k
  }

  /** How the collections of a `DownloadQueue` fit together: no id is listed
      twice; every listed id is a stored task; a pending task has no job and is
      not running; a running task has a job not asked to stop; a job asked to
      stop belongs to a task no longer running. */
  ghost predicate Consistent(tasks: map<TaskId, QueueTask>, pending: seq<TaskId>, running: seq<TaskId>,
                             completed: seq<TaskId>, jobs: map<TaskId, Job>)
  {
    NoDup(pending) && NoDup(running) && NoDup(completed)
    && (forall id :: id in tasks ==> tasks[id].id == id)
    && (forall id :: id in pending ==> id in tasks && id !in running && id !in jobs)
    && (forall id :: id in running ==> id in tasks && id in jobs && !jobs[id].cancelRequested)
    && (forall id :: id in completed ==> id in tasks)
    && (forall id :: id in jobs ==> id in tasks && (jobs[id].cancelRequested <==> id !in running))
  }

  /** The invariant of a `DownloadQueue`: consistent collections, no more
      running tasks than `max_concurrent` allows, and the per-user quota. */
  ghost predicate Inv(tasks: map<TaskId, QueueTask>, pending: seq<TaskId>, running: seq<TaskId>,
                      completed: seq<TaskId>, jobs: map<TaskId, Job>, maxConcurrent: int)
  {
    Consistent(tasks, pending, running, completed, jobs)
    && |running| <= Max(0, maxConcurrent)
    && WithinQuota(tasks, running, pending)
  }

  /** `add_task` keeps the invariant. */
  lemma InvAdd(tasks: map<TaskId, QueueTask>, pending: seq<TaskId>, running: seq<TaskId>,
               completed: seq<TaskId>, jobs: map<TaskId, Job>, maxConcurrent: int, t: QueueTask)
    requires Inv(tasks, pending, running, completed, jobs, maxConcurrent) && t.id !in tasks
    requires Count(tasks, running, t.userId) + Count(tasks, pending, t.userId) < MaxUserQueue
    ensures Inv(tasks[t.id := t], pending + [t.id], running, completed, jobs, maxConcurrent)
  {
    QuotaAdd(tasks, running, pending, t);
  }

  /** The collections stay consistent when a pending task starts running. */
  lemma ConsistentDispatch(tasks: map<TaskId, QueueTask>, pending: seq<TaskId>, running: seq<TaskId>,
                           completed: seq<TaskId>, jobs: map<TaskId, Job>, i: nat, t: QueueTask)
    requires Consistent(tasks, pending, running, completed, jobs)
    requires i < |pending| && t.id == pending[i]
    ensures Consistent(tasks[t.id := t], RemoveAt(pending, i), running + [t.id], completed,
                       jobs[t.id := Job(NotStarted, false)])
  {
    var id := t.id;
    assert id in pending;
    RemoveAtIsRemove(pending, i);
    RemoveNoDup(pending, id);
    var pending', running', jobs' := RemoveAt(pending, i), running + [id], jobs[id := Job(NotStarted, false)];
    NoDupAppend(running, id);
    forall x | x in pending' ensures x in tasks && x !in running' && x !in jobs' {
      assert x in pending && x != id;
    }
    forall x | x in running' ensures x in tasks && x in jobs' && !jobs'[x].cancelRequested {
      if x != id { assert x in running; }
    }
    forall x | x in jobs' ensures x in tasks && (jobs'[x].cancelRequested <==> x !in running') {
      if x != id { assert x in jobs; }
    }
  }

  /** A dispatch keeps the invariant. */
  lemma InvDispatch(tasks: map<TaskId, QueueTask>, pending: seq<TaskId>, running: seq<TaskId>,
                    completed: seq<TaskId>, jobs: map<TaskId, Job>, maxConcurrent: int, i: nat, t: QueueTask)
    requires Inv(tasks, pending, running, completed, jobs, maxConcurrent)
    requires i < |pending| && |running| < maxConcurrent
    requires t.id == pending[i] && t.userId == tasks[pending[i]].userId
    ensures Inv(tasks[t.id := t], RemoveAt(pending, i), running + [t.id], completed,
                jobs[t.id := Job(NotStarted, false)], maxConcurrent)
  {
    ConsistentDispatch(tasks, pending, running, completed, jobs, i, t);
    QuotaDispatch(tasks, running, pending, i);
    QuotaFrame(tasks, tasks[t.id := t], running + [t.id], RemoveAt(pending, i));
  }

  /** The collections stay consistent when a job ends, its task leaving
      `running` for the completed registry. */
  lemma ConsistentFinish(tasks: map<TaskId, QueueTask>, pending: seq<TaskId>, running: seq<TaskId>,
                         completed: seq<TaskId>, jobs: map<TaskId, Job>, t: QueueTask)
    requires Consistent(tasks, pending, running, completed, jobs)
    requires t.id in jobs
    ensures Consistent(tasks[t.id := t], pending, Remove(running, t.id), AppendNew(completed, t.id), jobs - {t.id})
  {
    var id := t.id;
    RemoveNoDup(running, id);
    var running', jobs' := Remove(running, id), jobs - {id};
    forall x | x in running' ensures x in tasks && x in jobs' && !jobs'[x].cancelRequested {
      assert x in running;
    }
    forall x | x in jobs' ensures x in tasks && (jobs'[x].cancelRequested <==> x !in running') {
      assert x in jobs && x != id;
    }
  }

  /** The `finally` clause keeps the invariant. */
  lemma InvFinish(tasks: map<TaskId, QueueTask>, pending: seq<TaskId>, running: seq<TaskId>,
                  completed: seq<TaskId>, jobs: map<TaskId, Job>, maxConcurrent: int, t: QueueTask)
    requires Inv(tasks, pending, running, completed, jobs, maxConcurrent)
    requires t.id in jobs && t.userId == tasks[t.id].userId
    ensures Inv(tasks[t.id := t], pending, Remove(running, t.id), AppendNew(completed, t.id),
                jobs - {t.id}, maxConcurrent)
  {
    ConsistentFinish(tasks, pending, running, completed, jobs, t);
    QuotaFrame(tasks, tasks[t.id := t], running, pending);
    QuotaDrop(tasks[t.id := t], running, pending, t.id);
  }

  /** The collections stay consistent when a job ends by putting its task
      back on the queue. */
  lemma ConsistentRequeue(tasks: map<TaskId, QueueTask>, pending: seq<TaskId>, running: seq<TaskId>,
                          completed: seq<TaskId>, jobs: map<TaskId, Job>, t: QueueTask)
    requires Consistent(tasks, pending, running, completed, jobs)
    requires t.id in jobs && !jobs[t.id].cancelRequested
    ensures Consistent(tasks[t.id := t], pending + [t.id], Remove(running, t.id), AppendNew(completed, t.id),
                       jobs - {t.id})
  {
    var id := t.id;
    assert id in running && id !in pending;
    NoDupAppend(pending, id);
    RemoveNoDup(running, id);
    var pending', running', jobs' := pending + [id], Remove(running, id), jobs - {id};
    forall x | x in pending' ensures x in tasks && x !in running' && x !in jobs' {
      if x != id { assert x in pending; }
    }
    forall x | x in running' ensures x in tasks && x in jobs' && !jobs'[x].cancelRequested {
      assert x in running;
    }
    forall x | x in jobs' ensures x in tasks && (jobs'[x].cancelRequested <==> x !in running') {
      assert x in jobs && x != id;
    }
  }

  /** Re-queuing after the retry sleep, followed by the `finally` clause,
      keeps the invariant. */
  lemma InvRequeue(tasks: map<TaskId, QueueTask>, pending: seq<TaskId>, running: seq<TaskId>,
                   completed: seq<TaskId>, jobs: map<TaskId, Job>, maxConcurrent: int, t: QueueTask)
    requires Inv(tasks, pending, running, completed, jobs, maxConcurrent)
    requires t.id in jobs && !jobs[t.id].cancelRequested && t.userId == tasks[t.id].userId
    ensures Inv(tasks[t.id := t], pending + [t.id], Remove(running, t.id), AppendNew(completed, t.id),
                jobs - {t.id}, maxConcurrent)
  {
    ConsistentRequeue(tasks, pending, running, completed, jobs, t);
    QuotaFrame(tasks, tasks[t.id := t], running, pending);
    QuotaRequeue(tasks[t.id := t], running, pending, t.id);
  }

  /** The collections stay consistent when a running task is asked to stop. */
  lemma ConsistentStop(tasks: map<TaskId, QueueTask>, pending: seq<TaskId>, running: seq<TaskId>,
                       completed: seq<TaskId>, jobs: map<TaskId, Job>, id: TaskId)
    requires Consistent(tasks, pending, running, completed, jobs) && id in running
    ensures Consistent(tasks, pending, Remove(running, id), completed, jobs[id := jobs[id].(cancelRequested := true)])
  {
    RemoveNoDup(running, id);
    var running', jobs' := Remove(running, id), jobs[id := jobs[id].(cancelRequested := true)];
    forall x | x in pending ensures x in tasks && x !in running' && x !in jobs' {
      assert x != id;
    }
    forall x | x in running' ensures x in tasks && x in jobs' && !jobs'[x].cancelRequested {
      assert x in running && x != id;
    }
    forall x | x in jobs' ensures x in tasks && (jobs'[x].cancelRequested <==> x !in running') {
      assert x in jobs;
    }
  }

  /** Stopping a running task keeps the invariant. */
  lemma InvStop(tasks: map<TaskId, QueueTask>, pending: seq<TaskId>, running: seq<TaskId>,
                completed: seq<TaskId>, jobs: map<TaskId, Job>, maxConcurrent: int, id: TaskId)
    requires Inv(tasks, pending, running, completed, jobs, maxConcurrent) && id in running
    ensures Inv(tasks, pending, Remove(running, id), completed, jobs[id := jobs[id].(cancelRequested := true)],
                maxConcurrent)
  {
    ConsistentStop(tasks, pending, running, completed, jobs, id);
    QuotaDrop(tasks, running, pending, id);
  }

  /** Taking a task off the pending queue keeps the invariant. */
  lemma InvDequeue(tasks: map<TaskId, QueueTask>, pending: seq<TaskId>, running: seq<TaskId>,
                   completed: seq<TaskId>, jobs: map<TaskId, Job>, maxConcurrent: int, i: nat)
    requires Inv(tasks, pending, running, completed, jobs, maxConcurrent) && i < |pending|
    ensures Inv(tasks, RemoveAt(pending, i), running, completed, jobs, maxConcurrent)
  {
    QuotaDrop(tasks, running, pending, pending[i]);
    RemoveAtIsRemove(pending, i);
  }

  /** Recording a task in the completed registry keeps the invariant. */
  lemma InvRecord(tasks: map<TaskId, QueueTask>, pending: seq<TaskId>, running: seq<TaskId>,
                  completed: seq<TaskId>, jobs: map<TaskId, Job>, maxConcurrent: int, t: QueueTask)
    requires Inv(tasks, pending, running, completed, jobs, maxConcurrent)
    requires t.id in tasks && t.userId == tasks[t.id].userId
    ensures Inv(tasks[t.id := t], pending, running, AppendNew(completed, t.id), jobs, maxConcurrent)
  {
    QuotaFrame(tasks, tasks[t.id := t], running, pending);
  }

  /** Moving a job not asked to stop to another phase, and updating its task,
      keeps the invariant. */
  lemma InvAdvance(tasks: map<TaskId, QueueTask>, pending: seq<TaskId>, running: seq<TaskId>,
                   completed: seq<TaskId>, jobs: map<TaskId, Job>, maxConcurrent: int, t: QueueTask, p: Phase)
    requires Inv(tasks, pending, running, completed, jobs, maxConcurrent)
    requires t.id in jobs && !jobs[t.id].cancelRequested && t.userId == tasks[t.id].userId
    ensures Inv(tasks[t.id := t], pending, running, completed, jobs[t.id := Job(p, false)], maxConcurrent)
  {
    QuotaFrame(tasks, tasks[t.id := t], running, pending);
  }

  /** Forgetting a job that was asked to stop keeps the invariant. */
  lemma InvForget(tasks: map<TaskId, QueueTask>, pending: seq<TaskId>, running: seq<TaskId>,
                  completed: seq<TaskId>, jobs: map<TaskId, Job>, maxConcurrent: int, id: TaskId)
    requires Inv(tasks, pending, running, completed, jobs, maxConcurrent)
    requires id in jobs && jobs[id].cancelRequested
    ensures Inv(tasks, pending, running, completed, jobs - {id}, maxConcurrent)
  {
  }

  /** Deleting entries of the completed registry keeps the invariant. */
  lemma InvCleanup(tasks: map<TaskId, QueueTask>, pending: seq<TaskId>, running: seq<TaskId>,
                   completed: seq<TaskId>, jobs: map<TaskId, Job>, maxConcurrent: int, victims: seq<TaskId>)
    requires Inv(tasks, pending, running, completed, jobs, maxConcurrent)
    ensures Inv(tasks, pending, running, Without(completed, victims), jobs, maxConcurrent)
  {
  }

  class DownloadQueue {
    var maxConcurrent: int
    /** Every task ever created, by id, with its current fields. */
    var tasks: map<TaskId, QueueTask>
    /** `pending_queue`; the order of this sequence is not the heap's layout. */
    var pending: seq<TaskId>
    /** The keys of `running_tasks`, in insertion order. */
    var running: seq<TaskId>
    /** The keys of `completed_tasks`, in insertion order. */
    var completed: seq<TaskId>
    var jobs: map<TaskId, Job>
    var userQueues: map<int, seq<TaskId>>
    var stats: Stats

    ghost predicate Valid()
      reads this
    {
      Inv(tasks, pending, running, completed, jobs, maxConcurrent)
    }

    /** `DownloadQueue(max_concurrent)`; a missing or zero argument takes the
        configured default. */
    constructor (requested: int)
      ensures maxConcurrent == (if requested == 0 then DefaultMaxConcurrent else requested)
      ensures tasks == map[] && jobs == map[] && userQueues == map[]
      ensures pending == [] && running == [] && completed == []
      ensures stats == Stats(0, 0, 0, 0)
      ensures Valid()
    {
      maxConcurrent := if requested == 0 then DefaultMaxConcurrent else requested;
      tasks := map[];
      pending := [];
      running := [];
      completed := [];
      jobs := map[];
      userQueues := map[];
      stats := Stats(0, 0, 0, 0);
    }

    /** `_get_user_pending_count`: the user's running and pending tasks. */
    method GetUserPendingCount(userId: int) returns (count: nat)
      ensures count == Count(tasks, running, userId) + Count(tasks, pending, userId)
    {
      var inRunning := CountOwned(tasks, running, userId);
      var inPending := CountOwned(tasks, pending, userId);
      count := inRunning + inPending;
    }

    /** `add_task`. `id` stands for the fresh uuid. `None` is the exception
        raised when the user already has `MaxUserQueue` running or pending
        tasks, and then nothing changes. */
    method AddTask(id: TaskId, userId: int, url: string, priority: Priority, now: int) returns (r: Option<TaskId>)
      requires Valid()
      requires id !in tasks
      modifies this
      ensures Valid()
      ensures old(Count(tasks, running, userId) + Count(tasks, pending, userId)) >= MaxUserQueue ==>
        r == None && unchanged(this)
      ensures old(Count(tasks, running, userId) + Count(tasks, pending, userId)) < MaxUserQueue ==>
        && r == Some(id)
        && tasks == old(tasks)[id := NewTask(id, userId, url, priority, now)]
        && pending == old(pending) + [id]
        && userQueues == old(userQueues)[userId := (if userId in old(userQueues) then old(userQueues)[userId] else []) + [id]]
        && stats == old(stats).(totalTasks := old(stats).totalTasks + 1)
        && running == old(running) && completed == old(completed) && jobs == old(jobs)
        && maxConcurrent == old(maxConcurrent)
    {
      var count := GetUserPendingCount(userId);
      if count >= MaxUserQueue {
        return None;
      }
      var task := NewTask(id, userId, url, priority, now);
      InvAdd(tasks, pending, running, completed, jobs, maxConcurrent, task);
      tasks := tasks[id := task];
      pending := pending + [id];
      var queue := if userId in userQueues then userQueues[userId] else [];
      userQueues := userQueues[userId := queue + [id]];
      stats := stats.(totalTasks := stats.totalTasks + 1);
      r := Some(id);
    }

    /** One pass of `_process_pending_tasks`: when a slot is free and a task is
        pending, the task `heappop` returns starts running. No pending task
        precedes it in the heap order. */
    method ProcessPendingTasks(now: int)
      requires Valid()
      modifies this
      ensures Valid()
      ensures old(|running| >= maxConcurrent || |pending| == 0) ==> unchanged(this)
      ensures old(|running| < maxConcurrent && |pending| > 0) ==>
        var i := MinPos(old(tasks), old(pending));
        var id := old(pending)[i];
        && (forall j :: 0 <= j < old(|pending|) ==> !Less(old(tasks)[old(pending)[j]], old(tasks)[id]))
        && pending == RemoveAt(old(pending), i)
        && running == old(running) + [id]
        && tasks == old(tasks)[id := old(tasks)[id].(status := Running, startedAt := Some(now))]
        && jobs == old(jobs)[id := Job(NotStarted, false)]
        && completed == old(completed) && stats == old(stats) && userQueues == old(userQueues)
        && maxConcurrent == old(maxConcurrent)
    {
      if |running| >= maxConcurrent || |pending| == 0 {
        return;
      }
      var i := MinPos(tasks, pending);
      StartPending(i, now);
    }

    /** The `heappop` and the bookkeeping of `_process_pending_tasks` for the
        pending task at position `i`: it leaves the queue, is marked running
        now, and its job is created. */
    method StartPending(i: nat, now: int)
      requires Valid()
      requires i < |pending| && |running| < maxConcurrent
      modifies this
      ensures Valid()
      ensures var id := old(pending)[i];
        && pending == RemoveAt(old(pending), i)
        && running == old(running) + [id]
        && tasks == old(tasks)[id := old(tasks)[id].(status := Running, startedAt := Some(now))]
        && jobs == old(jobs)[id := Job(NotStarted, false)]
      ensures completed == old(completed) && stats == old(stats) && userQueues == old(userQueues)
      ensures maxConcurrent == old(maxConcurrent)
    {
      var id := pending[i];
      var task := tasks[id].(status := Running, startedAt := Some(now));
      InvDispatch(tasks, pending, running, completed, jobs, maxConcurrent, i, task);
      tasks, pending, running, jobs := tasks[id := task], RemoveAt(pending, i), running + [id], jobs[id := Job(NotStarted, false)];
    }

    /** The event loop first runs the coroutine created for a dispatched task. */
    method BeginExecution(id: TaskId)
      requires Valid()
      requires id in jobs && jobs[id] == Job(NotStarted, false)
      modifies this
      ensures Valid()
      ensures jobs == old(jobs)[id := Job(Executing, false)]
      ensures tasks == old(tasks) && pending == old(pending) && running == old(running)
      ensures completed == old(completed) && stats == old(stats) && userQueues == old(userQueues)
      ensures maxConcurrent == old(maxConcurrent)
    {
      InvAdvance(tasks, pending, running, completed, jobs, maxConcurrent, tasks[id], Executing);
      assert tasks[id := tasks[id]] == tasks;
      jobs := jobs[id := Job(Executing, false)];
    }

    /** `_execute_task` after the awaited work ends with `outcome`. Success and
        a final failure run the `finally` clause at once; a failure within the
        retry budget leaves the task in `running_tasks`, sleeping. */
    method CompleteAttempt(id: TaskId, outcome: Outcome, now: int)
      requires Valid()
      requires id in jobs && jobs[id] == Job(Executing, false)
      modifies this
      ensures Valid()
      ensures pending == old(pending) && userQueues == old(userQueues) && maxConcurrent == old(maxConcurrent)
      ensures outcome.Success? ==>
        && tasks == old(tasks)[id := old(tasks)[id].(status := Completed, progress := 100, completedAt := Some(now))]
        && stats == old(stats).(completedTasks := old(stats).completedTasks + 1)
        && running == Remove(old(running), id) && completed == AppendNew(old(completed), id)
        && jobs == old(jobs) - {id}
      ensures outcome.Failure? && AfterFailure(old(tasks)[id], outcome.error).status == Pending ==>
        && tasks == old(tasks)[id := AfterFailure(old(tasks)[id], outcome.error)]
        && jobs == old(jobs)[id := Job(Backoff(now + BackoffDelay(old(tasks)[id].retryCount + 1)), false)]
        && running == old(running) && completed == old(completed) && stats == old(stats)
      ensures outcome.Failure? && AfterFailure(old(tasks)[id], outcome.error).status == Failed ==>
        && tasks == old(tasks)[id := AfterFailure(old(tasks)[id], outcome.error).(completedAt := Some(now))]
        && stats == old(stats).(failedTasks := old(stats).failedTasks + 1)
        && running == Remove(old(running), id) && completed == AppendNew(old(completed), id)
        && jobs == old(jobs) - {id}
    {
      var task := tasks[id];
      if outcome.Success? {
        task := task.(status := Completed, progress := 100);
        stats := stats.(completedTasks := stats.completedTasks + 1);
      } else {
        task := AfterFailure(task, outcome.error);
        if task.status == Pending {
          var phase := Backoff(now + BackoffDelay(task.retryCount));
          InvAdvance(tasks, pending, running, completed, jobs, maxConcurrent, task, phase);
          tasks := tasks[id := task];
          jobs := jobs[id := Job(phase, false)];
          return;
        }
        stats := stats.(failedTasks := stats.failedTasks + 1);
      }
      Finish(task.(completedAt := Some(now)));
    }

    /** The retry sleep of a failed task ends: it is pushed back on the pending
        queue, then the `finally` clause runs. */
    method EndBackoff(id: TaskId, now: int)
      requires Valid()
      requires id in jobs && jobs[id].phase.Backoff? && !jobs[id].cancelRequested
      requires now >= jobs[id].phase.resumeAt
      modifies this
      ensures Valid()
      ensures pending == old(pending) + [id]
      ensures tasks == old(tasks)[id := old(tasks)[id].(completedAt := Some(now))]
      ensures running == Remove(old(running), id) && completed == AppendNew(old(completed), id)
      ensures jobs == old(jobs) - {id}
      ensures stats == old(stats) && userQueues == old(userQueues) && maxConcurrent == old(maxConcurrent)
    {
      var task := tasks[id].(completedAt := Some(now));
      InvRequeue(tasks, pending, running, completed, jobs, maxConcurrent, task);
      tasks := tasks[id := task];
      pending := pending + [id];
      running := Remove(running, id);
      completed := AppendNew(completed, id);
      jobs := jobs - {id};
    }

    /** A requested cancellation reaches the job. A job cancelled before it ran
        never enters its body; cancelled while awaiting the callback, the
        `CancelledError` handler counts the cancellation a second time; cancelled
        while sleeping before a retry, the handler is skipped. The last two run
        the `finally` clause. */
    method ObserveCancel(id: TaskId, now: int)
      requires Valid()
      requires id in jobs && jobs[id].cancelRequested
      modifies this
      ensures Valid()
      ensures pending == old(pending) && running == old(running)
      ensures jobs == old(jobs) - {id}
      ensures userQueues == old(userQueues) && maxConcurrent == old(maxConcurrent)
      ensures old(jobs[id].phase) == NotStarted ==>
        tasks == old(tasks) && completed == old(completed) && stats == old(stats)
      ensures old(jobs[id].phase) == Executing ==>
        && tasks == old(tasks)[id := old(tasks)[id].(status := Cancelled, completedAt := Some(now))]
        && stats == old(stats).(cancelledTasks := old(stats).cancelledTasks + 1)
        && completed == AppendNew(old(completed), id)
      ensures old(jobs[id].phase).Backoff? ==>
        && tasks == old(tasks)[id := old(tasks)[id].(completedAt := Some(now))]
        && stats == old(stats)
        && completed == AppendNew(old(completed), id)
    {
      var job := jobs[id];
      if job.phase == NotStarted {
        InvForget(tasks, pending, running, completed, jobs, maxConcurrent, id);
        jobs := jobs - {id};
        return;
      }
      var task := tasks[id];
      if job.phase == Executing {
        task := task.(status := Cancelled);
        stats := stats.(cancelledTasks := stats.cancelledTasks + 1);
      }
      assert Remove(running, id) == running;
      Finish(task.(completedAt := Some(now)));
    }

    /** The `finally` clause of `_execute_task`: the task leaves the running
        registry and is (re)recorded as completed. */
    method Finish(task: QueueTask)
      requires Valid()
      requires task.id in jobs && task.userId == tasks[task.id].userId
      modifies this
      ensures Valid()
      ensures tasks == old(tasks)[task.id := task]
      ensures running == Remove(old(running), task.id) && completed == AppendNew(old(completed), task.id)
      ensures jobs == old(jobs) - {task.id}
      ensures pending == old(pending) && stats == old(stats) && userQueues == old(userQueues)
      ensures maxConcurrent == old(maxConcurrent)
    {
      InvFinish(tasks, pending, running, completed, jobs, maxConcurrent, task);
      tasks := tasks[task.id := task];
      running := Remove(running, task.id);
      completed := AppendNew(completed, task.id);
      jobs := jobs - {task.id};
    }

    /** `cancel_task`. A non-zero `userId` must own the task. A running task is
        moved to the completed registry and its job is asked to stop; a pending
        task is taken off the queue and recorded as completed. Otherwise the
        result is false and nothing changes. */
    method CancelTask(id: TaskId, userId: int, now: int) returns (ok: bool)
      requires Valid()
      modifies this
      ensures Valid()
      ensures userQueues == old(userQueues) && maxConcurrent == old(maxConcurrent)
      ensures !ok ==> unchanged(this)
      ensures id !in old(running) && id !in old(pending) ==> !ok
      ensures (id in old(running) || id in old(pending)) ==>
        (ok <==> userId == 0 || old(tasks)[id].userId == userId)
      ensures ok ==>
        && tasks == old(tasks)[id := old(tasks)[id].(status := Cancelled, completedAt := Some(now))]
        && completed == AppendNew(old(completed), id)
        && stats == old(stats).(cancelledTasks := old(stats).cancelledTasks + 1)
      ensures ok && id in old(running) ==>
        && running == Remove(old(running), id) && pending == old(pending)
        && jobs == old(jobs)[id := old(jobs)[id].(cancelRequested := true)]
      ensures ok && id !in old(running) ==>
        pending == Remove(old(pending), id) && running == old(running) && jobs == old(jobs)
    {
      if id in running {
        if userId != 0 && tasks[id].userId != userId {
          return false;
        }
        StopRunning(id);
        RecordCancelled(id, now);
        return true;
      }
      var i := IndexOf(pending, id);
      if i < 0 {
        return false;
      }
      if userId != 0 && tasks[id].userId != userId {
        return false;
      }
      Dequeue(i);
      RecordCancelled(id, now);
      return true;
    }

    /** The running branch of `cancel_task`: the entry leaves `running_tasks` and
        its job is asked to stop. */
    method StopRunning(id: TaskId)
      requires Valid() && id in running
      modifies this
      ensures Valid()
      ensures running == Remove(old(running), id)
      ensures jobs == old(jobs)[id := old(jobs)[id].(cancelRequested := true)]
      ensures tasks == old(tasks) && pending == old(pending) && completed == old(completed)
      ensures stats == old(stats) && userQueues == old(userQueues) && maxConcurrent == old(maxConcurrent)
    {
      InvStop(tasks, pending, running, completed, jobs, maxConcurrent, id);
      jobs := jobs[id := jobs[id].(cancelRequested := true)];
      running := Remove(running, id);
    }

    /** The pending branch of `cancel_task`: `pop(i)` and `heapify`. */
    method Dequeue(i: nat)
      requires Valid() && i < |pending|
      modifies this
      ensures Valid()
      ensures pending == RemoveAt(old(pending), i) && pending == Remove(old(pending), old(pending)[i])
      ensures tasks == old(tasks) && running == old(running) && completed == old(completed) && jobs == old(jobs)
      ensures stats == old(stats) && userQueues == old(userQueues) && maxConcurrent == old(maxConcurrent)
    {
      InvDequeue(tasks, pending, running, completed, jobs, maxConcurrent, i);
      RemoveAtIsRemove(pending, i);
      pending := RemoveAt(pending, i);
    }

    /** What both branches of `cancel_task` record: the task is CANCELLED now,
        stored in `completed_tasks`, and counted. */
    method RecordCancelled(id: TaskId, now: int)
      requires Valid() && id in tasks
      modifies this
      ensures Valid()
      ensures tasks == old(tasks)[id := old(tasks)[id].(status := Cancelled, completedAt := Some(now))]
      ensures completed == AppendNew(old(completed), id)
      ensures stats == old(stats).(cancelledTasks := old(stats).cancelledTasks + 1)
      ensures pending == old(pending) && running == old(running) && jobs == old(jobs)
      ensures userQueues == old(userQueues) && maxConcurrent == old(maxConcurrent)
    {
      var cancelled := tasks[id].(status := Cancelled, completedAt := Some(now));
      InvRecord(tasks, pending, running, completed, jobs, maxConcurrent, cancelled);
      tasks := tasks[id := cancelled];
      completed := AppendNew(completed, id);
      stats := stats.(cancelledTasks := stats.cancelledTasks + 1);
    }

    /** `get_task_status`: the task when it is running, completed or pending. */
    method GetTaskStatus(id: TaskId) returns (r: Option<QueueTask>)
      requires Valid()
      ensures r.Some? <==> id in running || id in completed || id in pending
      ensures r.Some? ==> r.value == tasks[id] && r.value.id == id
    {
      if id in running {
        return Some(tasks[id]);
      }
      if id in completed {
        return Some(tasks[id]);
      }
      var i := IndexOf(pending, id);
      if i >= 0 {
        return Some(tasks[id]);
      }
      return None;
    }

    /** `get_user_tasks`: the user's running tasks, then pending ones, then the
        ten most recently completed. */
    method GetUserTasks(userId: int) returns (r: seq<QueueTask>)
      requires Valid()
      ensures r == Lookup(tasks, Owned(tasks, running, userId)) + Lookup(tasks, Owned(tasks, pending, userId))
        + RecentCompleted(tasks, completed, userId)
    {
      var mine := CollectOwned(tasks, running, userId);
      var queued := CollectOwned(tasks, pending, userId);
      r := mine + queued + RecentCompleted(tasks, completed, userId);
    }

    /** `_cleanup_completed_tasks`: above `MaxCompletedKept` entries, the older
        half of the completed registry is deleted. */
    method CleanupCompletedTasks()
      requires Valid()
      modifies this
      ensures Valid()
      ensures old(|completed|) <= MaxCompletedKept ==> unchanged(this)
      ensures old(|completed|) > MaxCompletedKept ==>
        completed == Without(old(completed), OldestHalf(old(tasks), old(completed)))
      ensures tasks == old(tasks) && pending == old(pending) && running == old(running) && jobs == old(jobs)
      ensures stats == old(stats) && userQueues == old(userQueues) && maxConcurrent == old(maxConcurrent)
    {
      if |completed| <= MaxCompletedKept {
        return;
      }
      var victims := OldestHalf(tasks, completed);
      var kept := DeleteAll(completed, victims);
      InvCleanup(tasks, pending, running, completed, jobs, maxConcurrent, victims);
      completed := kept;
    }
  }

  lemma DeleteStep(s: seq<TaskId>, victims: seq<TaskId>, i: nat)
    requires i < |victims|
    ensures Remove(Without(s, victims[..i]), victims[i]) == Without(s, victims[..i + 1])
  {
    RemoveWithout(s, victims[..i], victims[i]);
    assert victims[..i + 1] == victims[..i] + [victims[i]];
  }

  /** The deletion loop of `_cleanup_completed_tasks`. */
  method DeleteAll(s: seq<TaskId>, victims: seq<TaskId>) returns (kept: seq<TaskId>)
    ensures kept == Without(s, victims)
  {
    kept := s;
    WithoutNothing(s);
    assert victims[..0] == [];
    var i := 0;
    while i < |victims|
      invariant 0 <= i <= |victims|
      invariant kept == Without(s, victims[..i])
    {
      DeleteStep(s, victims, i);
      kept := Remove(kept, victims[i]);
      i := i + 1;
    }
    assert victims[..i] == victims;
  }
}
