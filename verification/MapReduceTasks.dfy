/** The scheduler's tables: tasks with their states, the queue of idle ids, the set in progress and the count of
    finished tasks, and what each single step does to them. src/MapReduce/master.cpp:37-48, 265-336. */
module MapReduceTasks {

  datatype TaskState = Idle | InProgress | Completed

  /** The names the master and the workers give to files, one constructor for each format. */
  datatype FileName = Input(file: nat) | Temp(wid: int, tid: nat, rid: nat) | Inter(mid: nat, rid: nat) | Out(rid: nat)
                    | OutTemp(wid: int, rid: nat)  // only with guard G12

  datatype Task = Task(id: nat, state: TaskState, params: seq<FileName>, results: seq<FileName>)

  /** inProgress holds exactly the tasks in progress, and every idle task is queued. */
  ghost predicate TaskOk(tasks: seq<Task>, idle: seq<nat>, inProgress: set<nat>, k: nat) {
    k < |tasks| ==>
      && tasks[k].id == k
      && (k in inProgress <==> tasks[k].state == InProgress)
      && (tasks[k].state == Idle ==> k in idle)
  }

  function CountCompleted(tasks: seq<Task>): nat {
    if tasks == [] then 0
    else CountCompleted(tasks[..|tasks| - 1]) + if tasks[|tasks| - 1].state == Completed then 1 else 0
  }

  ghost predicate Scheduled(tasks: seq<Task>, idle: seq<nat>, inProgress: set<nat>, count: nat) {
    && (forall k: nat {:trigger TaskOk(tasks, idle, inProgress, k)} :: TaskOk(tasks, idle, inProgress, k))
    && (forall id {:trigger id in inProgress} :: id in inProgress ==> id < |tasks|)
    && (forall id {:trigger id in idle} :: id in idle ==> id < |tasks|)
    && count == CountCompleted(tasks)
  }

  lemma {:induction false} CountUpdate(tasks: seq<Task>, k: nat, t: Task)
    requires k < |tasks|
    ensures CountCompleted(tasks[k := t]) + (if tasks[k].state == Completed then 1 else 0) ==
            CountCompleted(tasks) + (if t.state == Completed then 1 else 0)
  {
    var n := |tasks| - 1;
    if k < n {
      CountUpdate(tasks[..n], k, t);
      assert tasks[k := t][..n] == tasks[..n][k := t];
    } else {
      assert tasks[k := t][..n] == tasks[..n];
    }
  }

  /** The count reaches the number of tasks exactly when all are completed. */
  lemma {:induction false} CountFull(tasks: seq<Task>)
    ensures CountCompleted(tasks) <= |tasks|
    ensures CountCompleted(tasks) == |tasks| <==> forall k :: 0 <= k < |tasks| ==> tasks[k].state == Completed
  {
    if tasks != [] {
      CountFull(tasks[..|tasks| - 1]);
    }
  }

  /** An id in front of the queue whose task is not idle can be dropped. */
  lemma DropStale(tasks: seq<Task>, idle: seq<nat>, inProgress: set<nat>, count: nat)
    requires Scheduled(tasks, idle, inProgress, count) && idle != []
    requires idle[0] < |tasks| && tasks[idle[0]].state != Idle
    ensures Scheduled(tasks, idle[1..], inProgress, count)
  {
    var rest := idle[1..];
    assert forall id :: id in idle <==> id == idle[0] || id in rest;
    forall k: nat ensures TaskOk(tasks, rest, inProgress, k) {
      assert TaskOk(tasks, idle, inProgress, k);
    }
  }

  /** Taking the id in front of the queue when its task is idle. */
  lemma TakeIdle(tasks: seq<Task>, idle: seq<nat>, inProgress: set<nat>, count: nat)
    requires Scheduled(tasks, idle, inProgress, count) && idle != []
    requires idle[0] < |tasks| && tasks[idle[0]].state == Idle
    ensures Scheduled(tasks[idle[0] := tasks[idle[0]].(state := InProgress)], idle[1..], inProgress + {idle[0]}, count)
  {
    var id, rest := idle[0], idle[1..];
    var tasks', inProgress' := tasks[id := tasks[id].(state := InProgress)], inProgress + {id};
    assert forall i :: i in idle <==> i == id || i in rest;
    forall k: nat ensures TaskOk(tasks', rest, inProgress', k) {
      assert TaskOk(tasks, idle, inProgress, k);
    }
    CountUpdate(tasks, id, tasks'[id]);
  }

  lemma FinishTask(tasks: seq<Task>, idle: seq<nat>, inProgress: set<nat>, count: nat, id: nat, t: Task)
    requires Scheduled(tasks, idle, inProgress, count)
    requires id < |tasks| && tasks[id].state != Completed && t.id == id && t.state == Completed
    ensures Scheduled(tasks[id := t], idle, inProgress - {id}, count + 1)
  {
    var tasks', inProgress' := tasks[id := t], inProgress - {id};
    forall k: nat ensures TaskOk(tasks', idle, inProgress', k) {
      assert TaskOk(tasks, idle, inProgress, k);
    }
    CountUpdate(tasks, id, t);
  }

  lemma TimeOutTask(tasks: seq<Task>, idle: seq<nat>, inProgress: set<nat>, count: nat, id: nat)
    requires Scheduled(tasks, idle, inProgress, count) && id in inProgress
    ensures id < |tasks| && tasks[id].state == InProgress
    ensures Scheduled(tasks[id := tasks[id].(state := Idle)], idle + [id], inProgress - {id}, count)
  {
    assert TaskOk(tasks, idle, inProgress, id);
    var tasks', idle', inProgress' := tasks[id := tasks[id].(state := Idle)], idle + [id], inProgress - {id};
    forall k: nat ensures TaskOk(tasks', idle', inProgress', k) {
      assert TaskOk(tasks, idle, inProgress, k);
    }
    CountUpdate(tasks, id, tasks'[id]);
  }

  /** A task that goes back from completed to in progress breaks the count. */
  lemma RevertBreaksCount(tasks: seq<Task>, idle: seq<nat>, inProgress: set<nat>, count: nat, id: nat,
                          idle': seq<nat>, inProgress': set<nat>)
    requires Scheduled(tasks, idle, inProgress, count) && id < |tasks| && tasks[id].state == Completed
    ensures !Scheduled(tasks[id := tasks[id].(state := InProgress)], idle', inProgress', count)
  {
    CountUpdate(tasks, id, tasks[id].(state := InProgress));
  }

  /** The ids 0, ..., n - 1, and a fresh set of tasks for them. */
  function Range(n: nat): (r: seq<nat>)
    ensures |r| == n && forall k :: 0 <= k < n ==> r[k] == k
  {
    seq(n, k => k)
  }

  lemma {:induction false} NoneCompleted(tasks: seq<Task>)
    requires forall k :: 0 <= k < |tasks| ==> tasks[k].state == Idle
    ensures CountCompleted(tasks) == 0
  {
    if tasks != [] {
      NoneCompleted(tasks[..|tasks| - 1]);
    }
  }

  /** A phase starts well if and only if nothing in the queue is out of range for its tasks. */
  lemma StartPhase(tasks: seq<Task>, queued: seq<nat>)
    requires forall k :: 0 <= k < |tasks| ==> tasks[k].state == Idle && tasks[k].id == k
    ensures Scheduled(tasks, queued + Range(|tasks|), {}, 0) <==> forall id :: id in queued ==> id < |tasks|
  {
    var idle := queued + Range(|tasks|);
    NoneCompleted(tasks);
    forall k: nat ensures TaskOk(tasks, idle, {}, k) {
      assert k < |tasks| ==> Range(|tasks|)[k] in idle;
    }
    assert forall id :: id in idle <==> id in queued || id in Range(|tasks|);
  }
}
