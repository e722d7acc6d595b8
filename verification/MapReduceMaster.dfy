/** The MapReduce master: it hands out map tasks, then reduce tasks, and survives slow, lost and duplicate workers.
    Each method is proved against the functions of MapReduceState. src/MapReduce/master.cpp:56-346. */
module MapReduceMaster {
  import opened RaftTypes
  import opened MapReduceTasks
  import opened MapReduceState

  /** G10: a queue of stale ids only gives -1. G11: the queue is cleared when the phase switches. The source has
      neither. */
  datatype Guards = Guards(g10: bool, g11: bool)

  class MasterHandler {
    const guards: Guards
    var mapTasks: seq<Task>
    var reduceTasks: seq<Task>
    var idle: seq<nat>
    var inProgress: set<nat>
    var phase: Phase
    var completedCnt: nat
    var disk: Disk
    var fatal: bool

    /** The master as a value. */
    function State(): Master
      reads this
    {
      Master(mapTasks, reduceTasks, idle, inProgress, phase, completedCnt)
    }

    constructor (files: nat, reduceNumber: nat, guards: Guards, disk: Disk)
      requires reduceNumber > 0
      ensures Ok(State()) && !fatal && this.guards == guards && this.disk == disk
      ensures |mapTasks| == files && |reduceTasks| == reduceNumber && phase == MapPhase && idle == Range(files)
      ensures forall j :: 0 <= j < files ==> mapTasks[j].state == Idle
    {
      var tasks := seq(files, i requires 0 <= i < files => Task(i, Idle, [Input(i)], []));
      mapTasks, reduceTasks := tasks, seq(reduceNumber, _ => Task(0, Idle, [], []));
      idle, inProgress, completedCnt := Range(files), {}, 0;
      phase, this.disk, fatal, this.guards := MapPhase, disk, false, guards;
      new;
      StartPhase(mapTasks, []);
      assert [] + Range(files) == Range(files);
      forall j: nat ensures MapEntry(State(), j) {
      }
      forall i: nat ensures ReduceEntry(State(), i) {
      }
    }

    /** Ids are popped until one is idle. Without guard G10 the last stale id is returned when none is. */
    method TryToGetIdleTask() returns (tid: int)
      requires Ok(State())
      modifies this`idle
      ensures forall k :: 0 <= k < |old(idle)| ==> old(idle)[k] < |Current(State())|
      ensures var (id, rest) := Pop(Current(State()), old(idle));
        idle == rest && tid == match id
                               case Some(k) => k
                               case None => if guards.g10 || old(idle) == [] then -1 else old(idle)[|old(idle)| - 1]
    {
      ghost var tasks, all := Current(State()), idle;
      PopKeeps(tasks, all, inProgress, completedCnt);
      PoppedIdIs(tasks, all, -1, guards.g10);
      tid := -1;
      while idle != []
        invariant forall k :: 0 <= k < |idle| ==> idle[k] < |tasks|
        invariant Pop(tasks, all) == Pop(tasks, idle)
        invariant PoppedId(tasks, all, -1, guards.g10) == PoppedId(tasks, idle, tid, guards.g10)
        decreases |idle|
      {
        tid := idle[0];
        idle := idle[1..];
        if (if phase == MapPhase then mapTasks else reduceTasks)[tid].state == Idle {
          return;
        }
        if guards.g10 {
          tid := -1;
        }
      }
    }

    method SetTaskToInProgress(id: nat)
      requires id < |Current(State())|
      modifies this`inProgress, this`mapTasks, this`reduceTasks
      ensures State() == SetState(old(State()), id, InProgress).(inProgress := old(inProgress) + {id})
    {
      inProgress := inProgress + {id};
      if phase == MapPhase {
        mapTasks := mapTasks[id := mapTasks[id].(state := InProgress)];
      } else {
        reduceTasks := reduceTasks[id := reduceTasks[id].(state := InProgress)];
      }
    }

    /** A worker asks for work: it gets the first idle task of the queue, and WAIT only if no task is idle at all.
        As written the invariant is kept unless all queued ids are stale and the last of them is of a finished task,
        which is then handed out again. */
    method AssignTask() returns (r: Response)
      requires Ok(State())
      modifies this
      ensures disk == old(disk) && fatal == old(fatal) && phase == old(phase)
      ensures forall k :: 0 <= k < |old(idle)| ==> old(idle)[k] < |old(Current(State()))|
      ensures Ok(State()) <==>
              guards.g10 || old(idle) == [] || Pop(old(Current(State())), old(idle)).0.Some? ||
              old(Current(State()))[old(idle)[|old(idle)| - 1]].state != Completed
      ensures guards.g10 ==>
        (r.id == -1 <==> forall k :: 0 <= k < |old(Current(State()))| ==> old(Current(State()))[k].state != Idle)
      ensures r.id >= -1
      ensures r.id >= 0 ==> r.id < |old(Current(State()))| && r.params == old(Current(State()))[r.id].params
      ensures guards.g10 && r.id >= 0 ==> old(Current(State()))[r.id].state == Idle && r.id in inProgress
      ensures State() == if r.id == -1 then old(State()).(idle := idle)
                         else SetState(old(State()), r.id, InProgress)
                              .(idle := idle, inProgress := old(inProgress) + {r.id as nat})
      ensures r.kind == match phase
                        case MapPhase => if r.id == -1 then WAIT else MAP_TASK
                        case ReducePhase => if r.id == -1 then WAIT else REDUCE_TASK
                        case CompletedPhase => COMPLETED
      ensures r.resultNum == match phase
                             case MapPhase => |reduceTasks|
                             case ReducePhase => 1
                             case CompletedPhase => 0
    {
      ghost var m := State();
      PopKeeps(Current(m), idle, inProgress, completedCnt);
      var tid := TryToGetIdleTask();
      AssignKeeps(m, guards.g10, tid);
      var params := [];
      if tid != -1 {
        params := Current(State())[tid].params;
        SetTaskToInProgress(tid);
      }
      match phase {
        case MapPhase =>
          r := Response(tid, if tid == -1 then WAIT else MAP_TASK, params, |reduceTasks|);
        case ReducePhase =>
          r := Response(tid, if tid == -1 then WAIT else REDUCE_TASK, params, 1);
        case CompletedPhase =>
          r := Response(tid, COMPLETED, params, 0);
      }
    }

    method RemoveFiles(names: seq<FileName>)
      modifies this`disk
      ensures disk == old(disk) - NameSet(names)
    {
      for k := 0 to |names|
        invariant disk == old(disk) - NameSet(names[..k])
      {
        assert names[..k + 1] == names[..k] + [names[k]];
        disk := disk - {names[k]};
      }
      assert names[..|names|] == names;
    }

    /** Renames the worker's files to their final names, one by one. */
    method RenameFiles(from: seq<FileName>, to: seq<FileName>)
      requires |from| == |to|
      modifies this`disk
      ensures disk == RenameAll(old(disk), from, to)
    {
      for k := 0 to |from|
        invariant disk == RenameAll(old(disk), from[..k], to[..k])
      {
        assert from[..k + 1][..k] == from[..k] && to[..k + 1][..k] == to[..k];
        disk := Rename(disk, from[k], to[k]);
      }
      assert from[..|from|] == from && to[..|to|] == to;
    }

    method SwitchToReduceState()
      requires phase == MapPhase && completedCnt == |mapTasks|
      requires forall j :: 0 <= j < |mapTasks| ==> mapTasks[j].results == Row(j, |reduceTasks|)
      requires forall i :: 0 <= i < |reduceTasks| ==> reduceTasks[i] == Task(0, Idle, [], [])
      modifies this`completedCnt, this`phase, this`reduceTasks, this`idle
      ensures State() == Switched(old(State()), guards.g11)
    {
      completedCnt, phase := 0, ReducePhase;
      ghost var n := |reduceTasks|;
      ghost var queue := idle;
      for i := 0 to |reduceTasks|
        invariant |reduceTasks| == n && completedCnt == 0 && phase == ReducePhase && idle == queue
        invariant forall k :: 0 <= k < i ==> reduceTasks[k] == Task(k, Idle, ColumnOf(k, |mapTasks|), [])
        invariant forall k :: i <= k < n ==> reduceTasks[k] == Task(0, Idle, [], [])
      {
        var params := [];
        for j := 0 to |mapTasks|
          invariant params == ColumnOf(i, |mapTasks|)[..j]
        {
          params := params + [mapTasks[j].results[i]];
        }
        assert params == ColumnOf(i, |mapTasks|);
        reduceTasks := reduceTasks[i := Task(i, Idle, params, [])];
      }
      assert reduceTasks == ReduceTasks(|mapTasks|, n);
      if guards.g11 {
        idle := [];
      }
      ghost var queued := idle;
      for i := 0 to |reduceTasks|
        invariant idle == queued + Range(n)[..i] && completedCnt == 0 && phase == ReducePhase
        invariant reduceTasks == ReduceTasks(|mapTasks|, n)
      {
        idle := idle + [i];
      }
      assert Range(n)[..n] == Range(n);
    }

    method SwitchToCompletedState()
      requires phase == ReducePhase
      modifies this`phase, this`disk
      ensures phase == CompletedPhase && disk == Cleared(old(disk), mapTasks)
    {
      phase := CompletedPhase;
      for j := 0 to |mapTasks|
        invariant disk == Cleared(old(disk), mapTasks[..j]) && phase == CompletedPhase
      {
        assert mapTasks[..j + 1][..j] == mapTasks[..j];
        RemoveFiles(mapTasks[j].results);
      }
      assert mapTasks[..|mapTasks|] == mapTasks;
    }

    /** An accepted map result, from the mark as finished to the switch. */
    method CommitMapTask(result: TaskResult)
      requires Ok(State()) && phase == MapPhase && Accepted(State(), result) && |result.rsLoc| == |reduceTasks|
      modifies this
      ensures State() == Switched(AfterFinish(old(State()), result.id), guards.g11)
      ensures disk == old(DiskAfter(disk, State(), result)) && fatal == old(fatal)
    {
      ghost var m := State();
      var id: nat := result.id;
      FinishKeeps(m, id);
      inProgress := inProgress - {id};
      RenameFiles(result.rsLoc, Row(id, |reduceTasks|));
      mapTasks := mapTasks[id := mapTasks[id].(state := Completed, results := Row(id, |reduceTasks|))];
      completedCnt := completedCnt + 1;
      if completedCnt == |mapTasks| {
        RowsReady(State());
        SwitchToReduceState();
      }
    }

    /** An accepted reduce result; fatal is the stop when it is not one file. */
    method CommitReduceTask(result: TaskResult)
      requires Ok(State()) && phase == ReducePhase && Accepted(State(), result) && !fatal
      modifies this
      ensures fatal <==> |result.rsLoc| != 1
      ensures !fatal ==> State() == Switched(AfterFinish(old(State()), result.id), guards.g11)
      ensures !fatal ==> disk == old(DiskAfter(disk, State(), result))
    {
      ghost var m := State();
      var id: nat := result.id;
      assert ReduceEntry(m, id) && [] + [Out(id)] == [Out(id)];
      inProgress := inProgress - {id};
      if |result.rsLoc| != 1 {
        fatal := true;
        return;
      }
      RenameFiles(result.rsLoc, [Out(id)]);
      var done := reduceTasks[id].(state := Completed, results := reduceTasks[id].results + [Out(id)]);
      reduceTasks := reduceTasks[id := done];
      completedCnt := completedCnt + 1;
      if completedCnt == |reduceTasks| {
        SwitchToCompletedState();
      }
    }

    /** A worker reports. A result for another phase or for a finished task is thrown away with its files; the first
        result of a task finishes it for good. */
    method CommitTask(result: TaskResult)
      requires Ok(State()) && !fatal
      requires Matches(phase, result.kind) ==> 0 <= result.id < |Current(State())|
      requires Matches(phase, result.kind) && phase == MapPhase ==> |result.rsLoc| == |reduceTasks|
      modifies this
      ensures fatal <==> old(Accepted(State(), result)) && old(phase) == ReducePhase && |result.rsLoc| != 1
      ensures Matches(old(phase), result.kind) && !fatal ==>
        result.id < |if old(phase) == MapPhase then mapTasks else reduceTasks| &&
        (if old(phase) == MapPhase then mapTasks else reduceTasks)[result.id].state == Completed
      ensures !old(Accepted(State(), result)) ==>
        State() == old(State()) && disk == old(disk) - NameSet(result.rsLoc)
      ensures old(Accepted(State(), result)) && !fatal ==>
        && State() == Switched(AfterFinish(old(State()), result.id), guards.g11)
        && disk == old(DiskAfter(disk, State(), result))
      ensures !fatal ==>
        (Ok(State()) <==> guards.g11 || !old(Accepted(State(), result)) || !old(LastMap(State())) ||
                          forall q :: q in old(idle) ==> q < |old(reduceTasks)|)
    {
      if !Matches(phase, result.kind) {
        RemoveFiles(result.rsLoc);
        return;
      }
      var id: nat := result.id;
      if (if phase == MapPhase then mapTasks else reduceTasks)[id].state == Completed {
        RemoveFiles(result.rsLoc);
        return;
      }
      CommitKeeps(State(), id, guards.g11);
      if phase == MapPhase {
        CommitMapTask(result);
      } else {
        CommitReduceTask(result);
      }
    }

    /** One task back to the queue. */
    method Requeue(id: nat)
      requires Ok(State()) && id in inProgress
      modifies this`mapTasks, this`reduceTasks, this`idle, this`inProgress
      ensures Ok(State()) && id < |Current(old(State()))|
      ensures State() == SetState(old(State()), id, Idle)
                         .(idle := old(idle) + [id], inProgress := old(inProgress) - {id})
    {
      ghost var m := State();
      TimeOutTask(Current(m), idle, inProgress, completedCnt, id);
      ReplaceKeepsTables(m, id, Idle, idle + [id], inProgress - {id});
      idle := idle + [id];
      if phase == MapPhase {
        mapTasks := mapTasks[id := mapTasks[id].(state := Idle)];
      } else {
        reduceTasks := reduceTasks[id := reduceTasks[id].(state := Idle)];
      }
      inProgress := inProgress - {id};
    }

    /** Every task in progress that has taken too long goes back to the queue; which ones is up to the clock. */
    method DetectTimeoutTask(expired: set<nat>)
      requires Ok(State())
      modifies this`mapTasks, this`reduceTasks, this`idle, this`inProgress
      ensures Ok(State()) && inProgress == old(inProgress) - expired && old(idle) <= idle
      ensures Requeued(old(State()), State(), old(inProgress) * expired)
    {
      ghost var m := State();
      var rest := inProgress;
      ghost var done: set<nat> := {};
      while rest != {}
        invariant Ok(State()) && old(idle) <= idle && Requeued(m, State(), done)
        invariant Visited(m.inProgress, rest, expired, done, inProgress)
        decreases |rest|
      {
        var id :| id in rest;
        VisitNext(m.inProgress, rest, expired, done, inProgress, id);
        rest := rest - {id};
        if id in expired {
          ghost var before := State();
          Requeue(id);
          RequeueOne(m, before, done, id, State());
          done := done + {id};
        }
      }
      assert done == m.inProgress * expired;
    }
  }

  /** The ids still to visit, and those found expired so far. */
  ghost predicate Visited(before: set<nat>, rest: set<nat>, expired: set<nat>, done: set<nat>, now: set<nat>) {
    rest <= before && done == (before - rest) * expired && now == before - done
  }

  lemma VisitNext(before: set<nat>, rest: set<nat>, expired: set<nat>, done: set<nat>, now: set<nat>, id: nat)
    requires Visited(before, rest, expired, done, now) && id in rest
    ensures id in now
    ensures if id in expired then Visited(before, rest - {id}, expired, done + {id}, now - {id})
            else Visited(before, rest - {id}, expired, done, now)
  {
  }

  /** All of ids are idle again, all others are as they were. */
  ghost predicate Requeued(m: Master, m': Master, ids: set<nat>) {
    && m'.phase == m.phase && m'.completedCnt == m.completedCnt
    && |m'.mapTasks| == |m.mapTasks| && |m'.reduceTasks| == |m.reduceTasks|
    && (if m.phase == MapPhase then m'.reduceTasks == m.reduceTasks else m'.mapTasks == m.mapTasks)
    && forall k: nat {:trigger Current(m')[k]} :: k < |Current(m)| ==>
         Current(m')[k] == if k in ids then Current(m)[k].(state := Idle) else Current(m)[k]
  }

  lemma RequeueOne(m0: Master, m: Master, ids: set<nat>, id: nat, m': Master)
    requires Requeued(m0, m, ids) && id < |Current(m)|
    requires m' == SetState(m, id, Idle).(idle := m'.idle, inProgress := m'.inProgress)
    ensures Requeued(m0, m', ids + {id})
  {
  }

  /** When the last map task is in, every row is complete. */
  lemma RowsReady(a: Master)
    requires Scheduled(Current(a), a.idle, a.inProgress, a.completedCnt) && a.phase == MapPhase
    requires (forall j: nat {:trigger MapEntry(a, j)} :: MapEntry(a, j)) && a.completedCnt == |a.mapTasks|
    requires forall i: nat {:trigger ReduceEntry(a, i)} :: ReduceEntry(a, i)
    ensures forall j :: 0 <= j < |a.mapTasks| ==> a.mapTasks[j].results == Row(j, |a.reduceTasks|)
    ensures forall i :: 0 <= i < |a.reduceTasks| ==> a.reduceTasks[i] == Task(0, Idle, [], [])
  {
    CountFull(a.mapTasks);
    forall j: nat | j < |a.mapTasks| ensures a.mapTasks[j].results == Row(j, |a.reduceTasks|) {
      assert MapEntry(a, j);
    }
    forall i: nat | i < |a.reduceTasks| ensures a.reduceTasks[i] == Task(0, Idle, [], []) {
      assert ReduceEntry(a, i);
    }
  }

  /** What handing out tid means for the invariant. */
  lemma AssignKeeps(m: Master, g10: bool, tid: int)
    requires Ok(m) && forall k :: 0 <= k < |m.idle| ==> m.idle[k] < |Current(m)|
    requires var (id, rest) := Pop(Current(m), m.idle);
      tid == match id
             case Some(k) => k
             case None => if g10 || m.idle == [] then -1 else m.idle[|m.idle| - 1]
    ensures var (id, rest) := Pop(Current(m), m.idle);
      && -1 <= tid < |Current(m)|
      && (id.Some? ==> Ok(SetState(m, tid, InProgress).(idle := rest, inProgress := m.inProgress + {tid as nat})))
      && (id.None? && tid == -1 ==> Ok(m.(idle := rest)))
      && (id.None? && tid != -1 ==>
            (Ok(SetState(m, tid, InProgress).(idle := rest, inProgress := m.inProgress + {tid as nat}))
             <==> Current(m)[tid].state != Completed))
  {
    var (id, rest) := Pop(Current(m), m.idle);
    PopKeeps(Current(m), m.idle, m.inProgress, m.completedCnt);
    if id.Some? {
      ReplaceKeepsTables(m, tid, InProgress, rest, m.inProgress + {tid});
    } else if tid == -1 {
      QueueKeepsTables(m, rest);
    } else if Current(m)[tid].state == Completed {
      RevertBreaksCount(Current(m), m.idle, m.inProgress, m.completedCnt, tid, rest, m.inProgress + {tid});
    } else {
      assert TaskOk(Current(m), m.idle, m.inProgress, tid);
      assert m.inProgress + {tid} == m.inProgress;
      assert SetState(m, tid, InProgress) == m;
      QueueKeepsTables(m, rest);
    }
  }
}
