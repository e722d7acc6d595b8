/** The state of the MapReduce master as a value, the scheduler invariant, and what handing out and committing do.
    src/MapReduce/master.cpp:56-346. */
module MapReduceState {
  import opened RaftTypes
  import opened MapReduceTasks

  datatype Phase = MapPhase | ReducePhase | CompletedPhase

  datatype Kind = WAIT | MAP_TASK | REDUCE_TASK | COMPLETED

  datatype Response = Response(id: int, kind: Kind, params: seq<FileName>, resultNum: nat)

  datatype TaskResult = TaskResult(id: int, kind: Kind, rsLoc: seq<FileName>)

  type Disk = map<FileName, string>

  datatype Master = Master(mapTasks: seq<Task>, reduceTasks: seq<Task>, idle: seq<nat>, inProgress: set<nat>,
                           phase: Phase, completedCnt: nat)

  function Current(m: Master): seq<Task> {
    if m.phase == MapPhase then m.mapTasks else m.reduceTasks
  }

  /** The files of map task j, and the files of reduce task i: row j and column i of one table. */
  function Row(j: nat, n: nat): (r: seq<FileName>)
    ensures |r| == n
  {
    seq(n, i requires 0 <= i < n => Inter(j, i))
  }

  function ColumnOf(i: nat, n: nat): (r: seq<FileName>)
    ensures |r| == n
  {
    seq(n, j requires 0 <= j < n => Inter(j, i))
  }

  ghost predicate MapEntry(m: Master, j: nat) {
    j < |m.mapTasks| ==>
      var t := m.mapTasks[j];
      && t.params == [Input(j)]
      && t.results == (if t.state == Completed then Row(j, |m.reduceTasks|) else [])
      && (m.phase != MapPhase ==> t.state == Completed)
  }

  ghost predicate ReduceEntry(m: Master, i: nat) {
    i < |m.reduceTasks| ==>
      var t := m.reduceTasks[i];
      if m.phase == MapPhase then t == Task(0, Idle, [], [])
      else t.params == ColumnOf(i, |m.mapTasks|) && t.results == if t.state == Completed then [Out(i)] else []
  }

  /** The scheduler invariant. */
  ghost predicate Ok(m: Master) {
    && Scheduled(Current(m), m.idle, m.inProgress, m.completedCnt)
    && (forall j: nat {:trigger MapEntry(m, j)} :: MapEntry(m, j))
    && (forall i: nat {:trigger ReduceEntry(m, i)} :: ReduceEntry(m, i))
    && m.reduceTasks != []
    && match m.phase
       case MapPhase => m.completedCnt < |m.mapTasks| || m.mapTasks == []
       case ReducePhase => m.completedCnt < |m.reduceTasks|
       case CompletedPhase => m.completedCnt == |m.reduceTasks|
  }

  /** What the reduce phase starts from: every map task has its results, and reduce task i gets column i. */
  lemma ReduceStartsComplete(m: Master)
    requires Ok(m) && m.phase != MapPhase
    ensures forall j {:trigger m.mapTasks[j]} :: 0 <= j < |m.mapTasks| ==> |m.mapTasks[j].results| == |m.reduceTasks|
    ensures forall i, j :: 0 <= i < |m.reduceTasks| && 0 <= j < |m.mapTasks| ==>
      |m.reduceTasks[i].params| == |m.mapTasks| && |m.mapTasks[j].results| == |m.reduceTasks| &&
      m.reduceTasks[i].params[j] == m.mapTasks[j].results[i]
  {
    forall j: nat | j < |m.mapTasks| ensures m.mapTasks[j].results == Row(j, |m.reduceTasks|) {
      assert MapEntry(m, j);
    }
    forall i: nat | i < |m.reduceTasks| ensures m.reduceTasks[i].params == ColumnOf(i, |m.mapTasks|) {
      assert ReduceEntry(m, i);
    }
  }

  // ----- handing out tasks -----

  /** The first queued id whose task is idle, and what is left of the queue. */
  function Pop(tasks: seq<Task>, idle: seq<nat>): (r: (Option<nat>, seq<nat>))
    requires forall k :: 0 <= k < |idle| ==> idle[k] < |tasks|
    ensures r.0.Some? ==> r.0.value < |tasks| && tasks[r.0.value].state == Idle
  {
    if idle == [] then (None, [])
    else if tasks[idle[0]].state == Idle then (Some(idle[0]), idle[1..])
    else Pop(tasks, idle[1..])
  }

  /** The id that the popping loop ends with when it has last as its value so far; G10 resets it after a stale id. */
  function PoppedId(tasks: seq<Task>, idle: seq<nat>, last: int, g10: bool): (r: int)
    requires forall k :: 0 <= k < |idle| ==> idle[k] < |tasks|
    ensures -1 <= last < |tasks| ==> -1 <= r < |tasks|
  {
    if idle == [] then last
    else if tasks[idle[0]].state == Idle then idle[0]
    else PoppedId(tasks, idle[1..], if g10 then -1 else idle[0], g10)
  }

  lemma {:induction false} PoppedIdIs(tasks: seq<Task>, idle: seq<nat>, last: int, g10: bool)
    requires forall k :: 0 <= k < |idle| ==> idle[k] < |tasks|
    ensures PoppedId(tasks, idle, last, g10) ==
            match Pop(tasks, idle).0
            case Some(k) => k
            case None => if idle == [] then last else if g10 then -1 else idle[|idle| - 1]
  {
    if idle != [] && tasks[idle[0]].state != Idle {
      PoppedIdIs(tasks, idle[1..], if g10 then -1 else idle[0], g10);
    }
  }

  /** Nothing is popped exactly when no task at all is idle. */
  lemma {:induction false} PopKeeps(tasks: seq<Task>, idle: seq<nat>, inProgress: set<nat>, count: nat)
    requires Scheduled(tasks, idle, inProgress, count)
    ensures forall k :: 0 <= k < |idle| ==> idle[k] < |tasks|
    ensures var (id, rest) := Pop(tasks, idle);
      match id
      case None => rest == [] && Scheduled(tasks, [], inProgress, count) &&
                   forall k :: 0 <= k < |tasks| ==> tasks[k].state != Idle
      case Some(k) =>
        Scheduled(tasks[k := tasks[k].(state := InProgress)], rest, inProgress + {k}, count)
  {
    assert forall k :: 0 <= k < |idle| ==> idle[k] in idle;
    if idle == [] {
      forall k: nat | k < |tasks| ensures tasks[k].state != Idle {
        assert TaskOk(tasks, idle, inProgress, k);
      }
    } else if tasks[idle[0]].state == Idle {
      TakeIdle(tasks, idle, inProgress, count);
    } else {
      DropStale(tasks, idle, inProgress, count);
      PopKeeps(tasks, idle[1..], inProgress, count);
    }
  }

  /** Task k of the current phase replaced. */
  function WithTask(m: Master, k: nat, t: Task): Master
    requires k < |Current(m)|
  {
    if m.phase == MapPhase then m.(mapTasks := m.mapTasks[k := t]) else m.(reduceTasks := m.reduceTasks[k := t])
  }

  function SetState(m: Master, k: nat, s: TaskState): Master
    requires k < |Current(m)|
  {
    WithTask(m, k, Current(m)[k].(state := s))
  }

  lemma ReplaceKeepsTables(m: Master, k: nat, s: TaskState, idle: seq<nat>, inProgress: set<nat>)
    requires Ok(m) && k < |Current(m)| && Current(m)[k].state != Completed && s != Completed
    requires Scheduled(Current(SetState(m, k, s)), idle, inProgress, m.completedCnt)
    ensures Ok(SetState(m, k, s).(idle := idle, inProgress := inProgress))
  {
    var m' := SetState(m, k, s).(idle := idle, inProgress := inProgress);
    forall j: nat ensures MapEntry(m', j) {
      assert MapEntry(m, j);
    }
    forall i: nat ensures ReduceEntry(m', i) {
      assert ReduceEntry(m, i);
    }
  }

  lemma QueueKeepsTables(m: Master, rest: seq<nat>)
    requires Ok(m) && Scheduled(Current(m), rest, m.inProgress, m.completedCnt)
    ensures Ok(m.(idle := rest))
  {
    var m' := m.(idle := rest);
    forall j: nat ensures MapEntry(m', j) {
      assert MapEntry(m, j);
    }
    forall i: nat ensures ReduceEntry(m', i) {
      assert ReduceEntry(m, i);
    }
  }

  // ----- committing -----

  /** The result is for a task of the phase the master is in. */
  predicate Matches(phase: Phase, kind: Kind) {
    (phase == MapPhase && kind == MAP_TASK) || (phase == ReducePhase && kind == REDUCE_TASK)
  }

  predicate Accepted(m: Master, r: TaskResult) {
    Matches(m.phase, r.kind) && 0 <= r.id < |Current(m)| && Current(m)[r.id].state != Completed
  }

  function Rename(disk: Disk, from: FileName, to: FileName): Disk {
    if from in disk then (disk - {from})[to := disk[from]] else disk
  }

  function RenameAll(disk: Disk, from: seq<FileName>, to: seq<FileName>): Disk
    requires |from| == |to|
  {
    if from == [] then disk
    else
      var n := |from| - 1;
      Rename(RenameAll(disk, from[..n], to[..n]), from[n], to[n])
  }

  function NameSet(names: seq<FileName>): set<FileName> {
    set f | f in names
  }

  /** The disk without the results of these tasks. */
  function Cleared(disk: Disk, tasks: seq<Task>): Disk {
    if tasks == [] then disk else Cleared(disk, tasks[..|tasks| - 1]) - NameSet(tasks[|tasks| - 1].results)
  }

  /** Task id finished with its final results. */
  function Finished(m: Master, id: nat): Task
    requires id < |Current(m)|
  {
    Current(m)[id].(state := Completed,
                    results := if m.phase == MapPhase then Row(id, |m.reduceTasks|) else [Out(id)])
  }

  function AfterFinish(m: Master, id: nat): Master
    requires id < |Current(m)|
  {
    WithTask(m, id, Finished(m, id)).(inProgress := m.inProgress - {id}, completedCnt := m.completedCnt + 1)
  }

  function ReduceTasks(maps: nat, n: nat): (r: seq<Task>)
    ensures |r| == n
  {
    seq(n, i requires 0 <= i < n => Task(i, Idle, ColumnOf(i, maps), []))
  }

  /** The phase switch; with guard G11 the queue is cleared first. */
  function Switched(m: Master, g11: bool): Master {
    if m.phase == MapPhase && m.completedCnt == |m.mapTasks| then
      m.(phase := ReducePhase, completedCnt := 0, reduceTasks := ReduceTasks(|m.mapTasks|, |m.reduceTasks|),
         idle := (if g11 then [] else m.idle) + Range(|m.reduceTasks|))
    else if m.phase == ReducePhase && m.completedCnt == |m.reduceTasks| then m.(phase := CompletedPhase)
    else m
  }

  /** The disk after an accepted commit. */
  function DiskAfter(disk: Disk, m: Master, r: TaskResult): Disk
    requires Accepted(m, r) && |r.rsLoc| == if m.phase == MapPhase then |m.reduceTasks| else 1
  {
    var named := RenameAll(disk, r.rsLoc, if m.phase == MapPhase then Row(r.id, |m.reduceTasks|) else [Out(r.id)]);
    if m.phase == ReducePhase && m.completedCnt + 1 == |m.reduceTasks| then Cleared(named, m.mapTasks) else named
  }

  lemma FinishKeeps(m: Master, id: nat)
    requires Ok(m) && m.phase != CompletedPhase && id < |Current(m)| && Current(m)[id].state != Completed
    ensures var m' := AfterFinish(m, id);
      && Scheduled(Current(m'), m'.idle, m'.inProgress, m'.completedCnt)
      && (forall j: nat {:trigger MapEntry(m', j)} :: MapEntry(m', j))
      && (forall i: nat {:trigger ReduceEntry(m', i)} :: ReduceEntry(m', i))
      && m'.completedCnt <= |Current(m')|
  {
    var m' := AfterFinish(m, id);
    assert TaskOk(Current(m), m.idle, m.inProgress, id);
    FinishTask(Current(m), m.idle, m.inProgress, m.completedCnt, id, Finished(m, id));
    forall j: nat ensures MapEntry(m', j) {
      assert MapEntry(m, j);
    }
    forall i: nat ensures ReduceEntry(m', i) {
      assert ReduceEntry(m, i);
    }
    CountFull(Current(m'));
  }

  /** The last map task is in. */
  predicate LastMap(m: Master) {
    m.phase == MapPhase && m.completedCnt + 1 == |m.mapTasks|
  }

  /** A commit keeps the invariant, but for the switch to the reduce phase without G11: there it does if and only if
      no stale map id in the queue is out of range for the reduce tasks. */
  lemma CommitKeeps(m: Master, id: nat, g11: bool)
    requires Ok(m) && m.phase != CompletedPhase && id < |Current(m)| && Current(m)[id].state != Completed
    ensures Ok(Switched(AfterFinish(m, id), g11)) <==>
            g11 || !LastMap(m) || forall q :: q in m.idle ==> q < |m.reduceTasks|
  {
    var a := AfterFinish(m, id);
    FinishKeeps(m, id);
    CountFull(Current(a));
    if LastMap(m) {
      SwitchKeeps(a, g11);
    } else if a.phase == ReducePhase && a.completedCnt == |a.reduceTasks| {
      var m' := Switched(a, g11);
      forall j: nat ensures MapEntry(m', j) {
        assert MapEntry(a, j);
      }
      forall i: nat ensures ReduceEntry(m', i) {
        assert ReduceEntry(a, i);
      }
    }
  }

  lemma SwitchKeeps(a: Master, g11: bool)
    requires a.phase == MapPhase && a.completedCnt == |a.mapTasks| == CountCompleted(a.mapTasks) && a.reduceTasks != []
    requires Scheduled(Current(a), a.idle, a.inProgress, a.completedCnt)
    requires forall j: nat {:trigger MapEntry(a, j)} :: MapEntry(a, j)
    ensures Ok(Switched(a, g11)) <==> g11 || forall q :: q in a.idle ==> q < |a.reduceTasks|
  {
    var m' := Switched(a, g11);
    CountFull(a.mapTasks);
    var queued := if g11 then [] else a.idle;
    StartPhase(m'.reduceTasks, queued);
    NobodyAtWork(a.mapTasks, a.idle, a.inProgress, a.completedCnt);
    forall j: nat ensures MapEntry(m', j) {
      assert MapEntry(a, j);
    }
    forall i: nat ensures ReduceEntry(m', i) {
    }
  }

  lemma NobodyAtWork(tasks: seq<Task>, idle: seq<nat>, inProgress: set<nat>, count: nat)
    requires Scheduled(tasks, idle, inProgress, count) && forall k :: 0 <= k < |tasks| ==> tasks[k].state == Completed
    ensures inProgress == {}
  {
    forall id: nat ensures id !in inProgress {
      assert TaskOk(tasks, idle, inProgress, id);
    }
  }
}
