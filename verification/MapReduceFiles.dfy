/** The files behind the master's tables: what is on disk when a result counts as committed.
    src/MapReduce/master.cpp:131-231. */
module MapReduceFiles {
  import opened RaftTypes
  import opened Text
  import opened MapReduce
  import opened MapReduceWorker
  import opened MapReduceTasks
  import opened MapReduceState

  /** What the files are about: the map outputs, the hash and the reducer of the job. */
  datatype Job = Job(maps: seq<seq<KeyValue>>, hash: string -> nat, f: Reducer)

  ghost predicate GoodJob(job: Job, m: Master) {
    && |job.maps| == |m.mapTasks| && OrderInsensitive(job.f)
    && forall j {:trigger job.maps[j]} :: 0 <= j < |job.maps| ==> CleanPairs(job.maps[j])
  }

  function PartFile(job: Job, n: nat, j: nat, i: nat): string
    requires j < |job.maps| && n > 0
  {
    Lines(Part(job.maps[j], job.hash, n, i))
  }

  function ColumnOfJob(job: Job, n: nat, i: nat): seq<KeyValue>
    requires n > 0
  {
    Flatten(Column(job.maps, job.hash, n, i))
  }

  /** The file of reduce task i holds this output, which is the reduce of its column. */
  ghost predicate HoldsOutput(disk: Disk, job: Job, n: nat, i: nat, ans: seq<KeyValue>)
    requires n > 0
  {
    Out(i) in disk && IsOutput(disk[Out(i)], ColumnOfJob(job, n, i), job.f, ans)
  }

  ghost predicate IsReduced(job: Job, n: nat, i: nat, file: string)
    requires n > 0
  {
    exists ans :: IsOutput(file, ColumnOfJob(job, n, i), job.f, ans)
  }

  /** Every committed map result is on disk with its part of the map output. */
  ghost predicate MapFile(disk: Disk, m: Master, job: Job, j: nat, i: nat) {
    j < |m.mapTasks| && j < |job.maps| && i < |m.reduceTasks| && m.mapTasks[j].state == Completed ==>
      Inter(j, i) in disk && disk[Inter(j, i)] == PartFile(job, |m.reduceTasks|, j, i)
  }

  ghost predicate MapFiles(disk: Disk, m: Master, job: Job) {
    forall j: nat, i: nat {:trigger MapFile(disk, m, job, j, i)} :: MapFile(disk, m, job, j, i)
  }

  /** Every committed reduce result is on disk with the reduce of its column. */
  ghost predicate OutFile(disk: Disk, m: Master, job: Job, i: nat) {
    m.phase != MapPhase && i < |m.reduceTasks| && m.reduceTasks[i].state == Completed ==>
      Out(i) in disk && IsReduced(job, |m.reduceTasks|, i, disk[Out(i)])
  }

  ghost predicate OutFiles(disk: Disk, m: Master, job: Job) {
    forall i: nat {:trigger OutFile(disk, m, job, i)} :: OutFile(disk, m, job, i)
  }

  /** The names that worker wid gives to the parts of map task tid. */
  function TempRow(wid: int, tid: nat, n: nat): (r: seq<FileName>)
    ensures |r| == n
  {
    seq(n, i requires 0 <= i < n => Temp(wid, tid, i))
  }

  ghost predicate PartWritten(disk: Disk, job: Job, n: nat, wid: int, tid: nat, i: nat) {
    tid < |job.maps| && i < n ==> Temp(wid, tid, i) in disk && disk[Temp(wid, tid, i)] == PartFile(job, n, tid, i)
  }

  ghost predicate PartsWritten(disk: Disk, job: Job, n: nat, wid: int, tid: nat) {
    forall i: nat {:trigger PartWritten(disk, job, n, wid, tid, i)} :: PartWritten(disk, job, n, wid, tid, i)
  }

  /** Files that only one worker writes. */
  predicate IsTemp(f: FileName) {
    f.Temp? || f.OutTemp?
  }

  /** Renaming the worker's files to the final names. */
  lemma {:induction false} RenameAllGives(disk: Disk, wid: int, id: nat, n: nat, k: nat)
    requires k <= n && forall i: nat {:trigger Temp(wid, id, i)} :: i < n ==> Temp(wid, id, i) in disk
    ensures var r := RenameAll(disk, TempRow(wid, id, n)[..k], Row(id, n)[..k]);
      && (forall i: nat {:trigger Inter(id, i)} :: i < k ==>
            Inter(id, i) in r && r[Inter(id, i)] == disk[Temp(wid, id, i)])
      && (forall i: nat {:trigger Temp(wid, id, i)} :: k <= i < n ==>
            Temp(wid, id, i) in r && r[Temp(wid, id, i)] == disk[Temp(wid, id, i)])
      && (forall f: FileName {:trigger f in r} {:trigger f in disk} ::
            !(f.Inter? && f.mid == id) && !(f.Temp? && f.wid == wid && f.tid == id) ==>
              (f in r <==> f in disk) && (f in r ==> r[f] == disk[f]))
  {
    if k > 0 {
      RenameAllGives(disk, wid, id, n, k - 1);
      assert TempRow(wid, id, n)[..k][..k - 1] == TempRow(wid, id, n)[..k - 1];
      assert Row(id, n)[..k][..k - 1] == Row(id, n)[..k - 1];
    }
  }

  // ----- what each step does to the files -----

  /** An accepted map commit renames the parts into place and leaves every other file alone. */
  lemma MapCommitFiles(disk: Disk, m: Master, job: Job, wid: int, tid: nat, disk': Disk)
    requires Ok(m) && m.phase == MapPhase && GoodJob(job, m) && MapFiles(disk, m, job)
    requires tid < |m.mapTasks| && PartsWritten(disk, job, |m.reduceTasks|, wid, tid)
    requires disk' == RenameAll(disk, TempRow(wid, tid, |m.reduceTasks|), Row(tid, |m.reduceTasks|))
    ensures MapFiles(disk', AfterFinish(m, tid), job)
    ensures forall f: FileName {:trigger f in disk'} {:trigger f in disk} ::
              IsTemp(f) && !(f.Temp? && f.wid == wid && f.tid == tid) ==>
                (f in disk' <==> f in disk) && (f in disk' ==> disk'[f] == disk[f])
  {
    var n, m' := |m.reduceTasks|, AfterFinish(m, tid);
    forall i: nat {:trigger Temp(wid, tid, i)} | i < n ensures Temp(wid, tid, i) in disk {
      assert PartWritten(disk, job, n, wid, tid, i);
    }
    RenameAllGives(disk, wid, tid, n, n);
    assert TempRow(wid, tid, n)[..n] == TempRow(wid, tid, n) && Row(tid, n)[..n] == Row(tid, n);
    forall j: nat, i: nat ensures MapFile(disk', m', job, j, i) {
      assert MapFile(disk, m, job, j, i) && PartWritten(disk, job, n, wid, tid, i);
    }
  }

  /** The switch to the reduce phase finds all rows on disk and no outputs committed yet. */
  lemma SwitchFiles(disk: Disk, a: Master, job: Job, g11: bool)
    requires MapFiles(disk, a, job) && a.phase == MapPhase && a.completedCnt == |a.mapTasks|
    ensures MapFiles(disk, Switched(a, g11), job) && OutFiles(disk, Switched(a, g11), job)
  {
    var m' := Switched(a, g11);
    forall j: nat, i: nat ensures MapFile(disk, m', job, j, i) {
      assert MapFile(disk, a, job, j, i);
    }
    forall i: nat ensures OutFile(disk, m', job, i) {
    }
  }

  lemma RenameOne(disk: Disk, name: FileName, id: nat)
    ensures RenameAll(disk, [name], [Out(id)]) ==
            if name in disk then (disk - {name})[Out(id) := disk[name]] else disk
  {
    assert [name][..0] == [] && [Out(id)][..0] == [] && RenameAll(disk, [], []) == disk;
  }

  /** A reduce commit does not touch the map results. */
  lemma ReduceCommitMaps(disk: Disk, m: Master, job: Job, name: FileName, id: nat)
    requires m.phase == ReducePhase && id < |m.reduceTasks| && MapFiles(disk, m, job)
    requires IsTemp(name) || name == Out(id)
    ensures MapFiles(RenameAll(disk, [name], [Out(id)]), AfterFinish(m, id), job)
  {
    RenameOne(disk, name, id);
    forall j: nat, i: nat ensures MapFile(RenameAll(disk, [name], [Out(id)]), AfterFinish(m, id), job, j, i) {
      assert MapFile(disk, m, job, j, i);
    }
  }

  /** An accepted reduce commit has the output under its final name, whatever name the worker gave it. */
  lemma ReduceCommitOutputs(disk: Disk, m: Master, job: Job, name: FileName, id: nat)
    requires Ok(m) && m.phase == ReducePhase && id < |m.reduceTasks| && OutFiles(disk, m, job)
    requires IsTemp(name) || name == Out(id)
    requires name in disk && IsReduced(job, |m.reduceTasks|, id, disk[name])
    ensures OutFiles(RenameAll(disk, [name], [Out(id)]), AfterFinish(m, id), job)
  {
    RenameOne(disk, name, id);
    forall i: nat ensures OutFile(RenameAll(disk, [name], [Out(id)]), AfterFinish(m, id), job, i) {
      assert OutFile(disk, m, job, i);
    }
  }

  /** Some finished task's output is among the names. */
  ghost predicate NamesFinished(m: Master, names: seq<FileName>) {
    exists i: nat :: IsFinished(m, names, i)
  }

  predicate IsFinished(m: Master, names: seq<FileName>, i: nat) {
    i < |m.reduceTasks| && m.phase != MapPhase && m.reduceTasks[i].state == Completed && Out(i) in names
  }

  /** Removing the files of a result that is not accepted keeps the committed outputs if and only if none of them is
      among those files; committed map results always stay. */
  lemma RemoveKeeps(disk: Disk, m: Master, job: Job, names: seq<FileName>)
    requires OutFiles(disk, m, job) && forall f :: f in names ==> !f.Inter?
    ensures MapFiles(disk, m, job) ==> MapFiles(disk - NameSet(names), m, job)
    ensures OutFiles(disk - NameSet(names), m, job) <==> !NamesFinished(m, names)
  {
    var disk' := disk - NameSet(names);
    if MapFiles(disk, m, job) {
      forall j: nat, i: nat ensures MapFile(disk', m, job, j, i) {
        assert MapFile(disk, m, job, j, i);
      }
    }
    if NamesFinished(m, names) {
      var i: nat :| IsFinished(m, names, i);
      assert OutFile(disk', m, job, i) ==> Out(i) in disk';
    } else {
      forall i: nat ensures OutFile(disk', m, job, i) {
        assert OutFile(disk, m, job, i) && !IsFinished(m, names, i);
      }
    }
  }

  predicate InResults(tasks: seq<Task>, f: FileName) {
    exists j :: 0 <= j < |tasks| && f in tasks[j].results
  }

  /** Clearing removes exactly the results of the tasks. */
  lemma {:induction false} ClearedIs(disk: Disk, tasks: seq<Task>, f: FileName)
    ensures f in Cleared(disk, tasks) <==> f in disk && !InResults(tasks, f)
    ensures f in Cleared(disk, tasks) ==> Cleared(disk, tasks)[f] == disk[f]
  {
    if tasks != [] {
      var n := |tasks| - 1;
      ClearedIs(disk, tasks[..n], f);
      assert InResults(tasks, f) <==> InResults(tasks[..n], f) || f in tasks[n].results by {
        assert f in tasks[n].results ==> InResults(tasks, f);
        if InResults(tasks[..n], f) {
          var j :| 0 <= j < n && f in tasks[..n][j].results;
          assert f in tasks[j].results;
        }
        if InResults(tasks, f) {
          var j :| 0 <= j < |tasks| && f in tasks[j].results;
          assert j < n ==> f in tasks[..n][j].results;
        }
      }
    }
  }

  /** At the end exactly the intermediate files are removed. */
  lemma ClearsIntermediate(disk: Disk, m: Master, f: FileName)
    requires Ok(m) && m.phase != MapPhase
    ensures f in Cleared(disk, m.mapTasks) <==>
              f in disk && !(f.Inter? && f.mid < |m.mapTasks| && f.rid < |m.reduceTasks|)
    ensures f in Cleared(disk, m.mapTasks) ==> Cleared(disk, m.mapTasks)[f] == disk[f]
  {
    ClearedIs(disk, m.mapTasks, f);
    forall j: nat | j < |m.mapTasks| ensures m.mapTasks[j].results == Row(j, |m.reduceTasks|) {
      assert MapEntry(m, j);
    }
    if f.Inter? && f.mid < |m.mapTasks| && f.rid < |m.reduceTasks| {
      assert Row(f.mid, |m.reduceTasks|)[f.rid] == f && f in m.mapTasks[f.mid].results;
    }
  }

  /** Everything committed is on disk; the intermediate files only until the job is done. */
  ghost predicate FilesOk(disk: Disk, m: Master, job: Job) {
    (m.phase != CompletedPhase ==> MapFiles(disk, m, job)) && OutFiles(disk, m, job)
  }

  /** The phase switch after an accepted map result. */
  lemma AcceptedMapFiles(disk: Disk, m: Master, job: Job, tid: nat, g11: bool)
    requires m.phase == MapPhase && tid < |m.mapTasks| && MapFiles(disk, AfterFinish(m, tid), job)
    ensures FilesOk(disk, Switched(AfterFinish(m, tid), g11), job)
  {
    var a := AfterFinish(m, tid);
    if a.completedCnt == |a.mapTasks| {
      SwitchFiles(disk, a, job, g11);
    } else {
      forall i: nat ensures OutFile(disk, a, job, i) {
      }
    }
  }

  /** When the master has seen every reduce task finish, the output files together are the sequential result: a pair
      is in one of them exactly when it is the reducer's result for its key on all values of all map tasks, and no key
      is in two files. */
  lemma JobDone(disk: Disk, m: Master, job: Job) returns (outs: seq<seq<KeyValue>>)
    requires Ok(m) && m.phase == CompletedPhase && OutFiles(disk, m, job)
    ensures |outs| == |m.reduceTasks| > 0
    ensures forall i {:trigger outs[i]} :: 0 <= i < |outs| ==> HoldsOutput(disk, job, |outs|, i, outs[i])
    ensures forall x {:trigger InSome(outs, x)} :: InSome(outs, x) <==> Emits(Flatten(job.maps), job.f, x)
    ensures forall i, j, x, y {:trigger x in outs[i], y in outs[j]} ::
      0 <= i < |outs| && 0 <= j < |outs| && x in outs[i] && y in outs[j] && x.key == y.key ==> i == j && x == y
  {
    var n := |m.reduceTasks|;
    CountFull(m.reduceTasks);
    outs := [];
    while |outs| < n
      invariant |outs| <= n
      invariant forall i {:trigger outs[i]} :: 0 <= i < |outs| ==> HoldsOutput(disk, job, n, i, outs[i])
    {
      var i := |outs|;
      assert OutFile(disk, m, job, i);
      var ans :| IsOutput(disk[Out(i)], ColumnOfJob(job, n, i), job.f, ans);
      assert HoldsOutput(disk, job, n, i, ans);
      outs := outs + [ans];
    }
    assert forall i {:trigger outs[i]} :: 0 <= i < n ==> HoldsOutput(disk, job, n, i, outs[i]);
    DistributedEqualsSequential(job.maps, job.hash, n, job.f, outs);
  }
}
