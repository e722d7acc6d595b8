/** Whole runs of a MapReduce job: any interleaving of assignments, timeouts, workers' reads and writes and commits,
    late and duplicate ones included. src/MapReduce/master.cpp:101-183, 265-336 and
    src/MapReduce/worker.cpp:61-153. */
module MapReduceRun {
  import opened RaftTypes
  import opened Text
  import opened MapReduce
  import opened MapReduceWorker
  import opened MapReduceTasks
  import opened MapReduceState
  import opened MapReduceFiles

  /** G10 and G11 are the master's. G12: a reduce worker writes under a name of its own, which the commit renames; the
      source writes under the final name. */
  datatype Guards = Guards(g10: bool, g11: bool, g12: bool)

  const ALL: Guards := Guards(true, true, true)

  /** The master, the files, and where the workers are: which tasks were ever handed out, the parts of map results and
      the reduce outputs that are written and not yet reported, and what a reduce worker has read so far. */
  datatype System = System(m: Master, disk: Disk, maps: set<nat>, reduces: set<nat>, parts: set<(int, nat, nat)>,
                           reading: map<(int, nat), seq<string>>, written: set<(int, nat)>)

  datatype Event =
    | Assign
    | TimeOut(id: nat)
    | WritePart(wid: int, tid: nat, rid: nat)
    | CommitMap(wid: int, tid: nat)
    | StartReduce(wid: int, rid: nat)
    | ReadNext(wid: int, rid: nat)
    | WriteOutput(wid: int, rid: nat, content: string)
    | CommitReduce(wid: int, rid: nat)

  function OutName(g12: bool, wid: int, rid: nat): FileName {
    if g12 then OutTemp(wid, rid) else Out(rid)
  }

  function MapResult(m: Master, wid: int, tid: nat): TaskResult {
    TaskResult(tid, MAP_TASK, TempRow(wid, tid, |m.reduceTasks|))
  }

  function ReduceResult(g12: bool, wid: int, rid: nat): TaskResult {
    TaskResult(rid, REDUCE_TASK, [OutName(g12, wid, rid)])
  }

  /** The reducer's output for what was read. */
  ghost predicate OutputOf(content: string, files: seq<string>, f: Reducer) {
    exists ans :: IsOutput(content, ReadColumn(files), f, ans)
  }

  ghost predicate Possible(s: System, job: Job, e: Event) {
    match e
    case Assign => forall k :: 0 <= k < |s.m.idle| ==> s.m.idle[k] < |Current(s.m)|
    case TimeOut(id) => id in s.m.inProgress && id < |Current(s.m)|
    case WritePart(_, tid, rid) => tid in s.maps && tid < |job.maps| && rid < |s.m.reduceTasks|
    case CommitMap(wid, tid) => tid in s.maps && forall i: nat :: i < |s.m.reduceTasks| ==> (wid, tid, i) in s.parts
    case StartReduce(_, rid) => rid in s.reduces
    case ReadNext(wid, rid) =>
      && (wid, rid) in s.reading && rid < |s.m.reduceTasks|
      && |s.reading[(wid, rid)]| < |s.m.reduceTasks[rid].params|
    case WriteOutput(wid, rid, content) =>
      && (wid, rid) in s.reading && rid < |s.m.reduceTasks|
      && |s.reading[(wid, rid)]| == |s.m.reduceTasks[rid].params|
      && OutputOf(content, s.reading[(wid, rid)], job.f)
    case CommitReduce(wid, rid) => (wid, rid) in s.written
  }

  /** What an input stream finds in a file: nothing when it does not exist. */
  function Content(disk: Disk, name: FileName): string {
    if name in disk then disk[name] else ""
  }

  function AfterAssign(s: System, g: Guards): System
    requires forall k :: 0 <= k < |s.m.idle| ==> s.m.idle[k] < |Current(s.m)|
  {
    var m := s.m.(idle := Pop(Current(s.m), s.m.idle).1);
    var id := PoppedId(Current(s.m), s.m.idle, -1, g.g10);
    if id == -1 then s.(m := m)
    else
      s.(m := SetState(m, id, InProgress).(inProgress := m.inProgress + {id as nat}),
         maps := if m.phase == MapPhase then s.maps + {id as nat} else s.maps,
         reduces := if m.phase == ReducePhase then s.reduces + {id as nat} else s.reduces)
  }

  function AfterCommit(s: System, g: Guards, r: TaskResult): System
    requires r.kind == MAP_TASK ==> |r.rsLoc| == |s.m.reduceTasks|
    requires r.kind == REDUCE_TASK ==> |r.rsLoc| == 1
  {
    if Accepted(s.m, r) then s.(m := Switched(AfterFinish(s.m, r.id), g.g11), disk := DiskAfter(s.disk, s.m, r))
    else s.(disk := s.disk - NameSet(r.rsLoc))
  }

  ghost function Next(s: System, job: Job, g: Guards, e: Event): System
    requires Possible(s, job, e)
  {
    match e
    case Assign => AfterAssign(s, g)
    case TimeOut(id) =>
      s.(m := SetState(s.m, id, Idle).(idle := s.m.idle + [id], inProgress := s.m.inProgress - {id}))
    case WritePart(wid, tid, rid) =>
      s.(disk := s.disk[Temp(wid, tid, rid) := PartFile(job, |s.m.reduceTasks|, tid, rid)],
         parts := s.parts + {(wid, tid, rid)})
    case CommitMap(wid, tid) =>
      AfterCommit(s, g, MapResult(s.m, wid, tid))
      .(parts := set p | p in s.parts && !(p.0 == wid && p.1 == tid))
    case StartReduce(wid, rid) => s.(reading := s.reading[(wid, rid) := []])
    case ReadNext(wid, rid) =>
      var sofar := s.reading[(wid, rid)];
      s.(reading := s.reading[(wid, rid) := sofar + [Content(s.disk, s.m.reduceTasks[rid].params[|sofar|])]])
    case WriteOutput(wid, rid, content) =>
      s.(disk := s.disk[OutName(g.g12, wid, rid) := content], reading := s.reading - {(wid, rid)},
         written := s.written + {(wid, rid)})
    case CommitReduce(wid, rid) =>
      AfterCommit(s, g, ReduceResult(g.g12, wid, rid)).(written := s.written - {(wid, rid)})
  }

  /** The events take the system from first to last. */
  ghost predicate Ran(first: System, job: Job, g: Guards, events: seq<Event>, last: System)
    decreases events
  {
    if events == [] then last == first
    else Possible(first, job, events[0]) && Ran(Next(first, job, g, events[0]), job, g, events[1..], last)
  }

  /** A step more at the end of a run. */
  lemma {:induction false} OneMore(first: System, job: Job, g: Guards, events: seq<Event>, s: System, e: Event)
    requires Ran(first, job, g, events, s) && Possible(s, job, e)
    ensures Ran(first, job, g, events + [e], Next(s, job, g, e))
    decreases events
  {
    if events == [] {
      assert [e][1..] == [];
    } else {
      OneMore(Next(first, job, g, events[0]), job, g, events[1..], s, e);
      assert (events + [e])[0] == events[0] && (events + [e])[1..] == events[1..] + [e];
    }
  }

  /** A master for these files and reducers, whatever is on disk. */
  predicate SetUp(s: System, files: nat, n: nat) {
    && s.m == Master(seq(files, i requires 0 <= i < files => Task(i, Idle, [Input(i)], [])),
                     seq(n, _ => Task(0, Idle, [], [])), Range(files), {}, MapPhase, 0)
    && s.maps == {} && s.reduces == {} && s.parts == {} && s.reading == map[] && s.written == {}
  }

  // ----- what every run keeps -----

  ghost predicate PartOk(s: System, job: Job, p: (int, nat, nat)) {
    && p.1 < |job.maps| && p.2 < |s.m.reduceTasks|
    && PartWritten(s.disk, job, |s.m.reduceTasks|, p.0, p.1, p.2)
  }

  /** What a reduce worker has read: the right parts, and after the end of the job nothing. */
  ghost predicate ReadOk(job: Job, n: nat, phase: Phase, rid: nat, files: seq<string>)
    requires n > 0
  {
    && |files| <= |job.maps|
    && exists k: nat :: k <= |files| && ReadUpTo(job, n, rid, files, k) && (phase == ReducePhase ==> k == |files|)
  }

  predicate ReadUpTo(job: Job, n: nat, rid: nat, files: seq<string>, k: nat)
    requires n > 0 && |files| <= |job.maps|
  {
    forall j: nat :: j < |files| ==> files[j] == if j < k then PartFile(job, n, j, rid) else ""
  }

  ghost predicate ReadingOk(s: System, job: Job, key: (int, nat)) {
    key in s.reading && s.m.reduceTasks != [] ==>
      key.1 < |s.m.reduceTasks| && ReadOk(job, |s.m.reduceTasks|, s.m.phase, key.1, s.reading[key])
  }

  /** While the phase is reduce, an output not yet reported is right; as written, until its task is finished. */
  ghost predicate WrittenOk(s: System, job: Job, g12: bool, key: (int, nat)) {
    key in s.written && s.m.reduceTasks != [] ==>
      && key.1 < |s.m.reduceTasks|
      && (s.m.phase == ReducePhase && (g12 || s.m.reduceTasks[key.1].state != Completed) ==>
            var name := OutName(g12, key.0, key.1);
            name in s.disk && IsReduced(job, |s.m.reduceTasks|, key.1, s.disk[name]))
  }

  ghost predicate WorkersOk(s: System, job: Job, g12: bool) {
    && (forall t {:trigger t in s.maps} :: t in s.maps ==> t < |s.m.mapTasks|)
    && (forall t {:trigger t in s.reduces} :: t in s.reduces ==> t < |s.m.reduceTasks|)
    && (forall p {:trigger PartOk(s, job, p)} :: p in s.parts ==> PartOk(s, job, p))
    && (forall k {:trigger ReadingOk(s, job, k)} :: ReadingOk(s, job, k))
    && (forall k {:trigger WrittenOk(s, job, g12, k)} :: WrittenOk(s, job, g12, k))
    && (s.m.phase == MapPhase ==> s.reduces == {} && s.reading == map[] && s.written == {})
  }

  ghost predicate NoInter(disk: Disk, m: Master) {
    forall j: nat, i: nat {:trigger Inter(j, i)} :: j < |m.mapTasks| && i < |m.reduceTasks| ==> Inter(j, i) !in disk
  }

  /** The intermediate files are there until the job is done, and then they are gone. */
  ghost predicate IntermediateOk(disk: Disk, m: Master, job: Job) {
    (m.phase != CompletedPhase ==> MapFiles(disk, m, job)) && (m.phase == CompletedPhase ==> NoInter(disk, m))
  }

  /** True of every run with G10 and G11, with or without G12. */
  ghost predicate Core(s: System, job: Job, g12: bool) {
    Ok(s.m) && GoodJob(job, s.m) && IntermediateOk(s.disk, s.m, job) && WorkersOk(s, job, g12)
  }

  predicate Later(a: Phase, b: Phase) {
    a == b || a == MapPhase || b == CompletedPhase
  }

  /** Tasks that were finished are still finished, with the results they had. */
  ghost predicate StillDone(before: seq<Task>, after: seq<Task>) {
    |before| == |after| &&
    forall k {:trigger after[k]} :: 0 <= k < |before| && before[k].state == Completed ==> after[k] == before[k]
  }

  ghost predicate Settled(m: Master, m': Master) {
    && Later(m.phase, m'.phase) && StillDone(m.mapTasks, m'.mapTasks) && |m.reduceTasks| == |m'.reduceTasks|
    && (m.phase != MapPhase ==> StillDone(m.reduceTasks, m'.reduceTasks))
  }

  lemma StartIsGood(s: System, files: nat, n: nat, job: Job, g12: bool)
    requires SetUp(s, files, n) && n > 0 && GoodJob(job, s.m)
    ensures Core(s, job, g12) && OutFiles(s.disk, s.m, job)
  {
    StartPhase(s.m.mapTasks, []);
    assert [] + Range(files) == Range(files);
    NoneCompleted(s.m.mapTasks);
    forall j: nat ensures MapEntry(s.m, j) {
    }
    forall i: nat ensures ReduceEntry(s.m, i) {
    }
    forall j: nat, i: nat ensures MapFile(s.disk, s.m, job, j, i) {
    }
    forall i: nat ensures OutFile(s.disk, s.m, job, i) {
    }
  }

  // ----- steps of the master -----

  predicate Unchanged(disk: Disk, disk': Disk, f: FileName) {
    (f in disk' <==> f in disk) && (f in disk' ==> disk'[f] == disk[f])
  }

  /** What a worker has written and not reported stays; as written, until the task is finished. */
  predicate OutputStays(s: System, s': System, g12: bool, key: (int, nat)) {
    key in s.written && key.1 < |s.m.reduceTasks| == |s'.m.reduceTasks|
    && s'.m.phase == ReducePhase && (g12 || s'.m.reduceTasks[key.1].state != Completed) ==>
      && s.m.phase == ReducePhase && (g12 || s.m.reduceTasks[key.1].state != Completed)
      && Unchanged(s.disk, s'.disk, OutName(g12, key.0, key.1))
  }

  /** The master moves on; the workers' own files stay, except those reported. */
  ghost predicate MasterMoves(s: System, s': System, g12: bool) {
    && |s'.m.mapTasks| == |s.m.mapTasks| && |s'.m.reduceTasks| == |s.m.reduceTasks|
    && (s'.m.phase == s.m.phase || (s.m.phase == MapPhase && s'.m.phase == ReducePhase)
        || (s.m.phase == ReducePhase && s'.m.phase == CompletedPhase))
    && (forall t {:trigger t in s'.maps} :: t in s'.maps && t !in s.maps ==> t < |s.m.mapTasks|)
    && (forall t {:trigger t in s'.reduces} :: t in s'.reduces && t !in s.reduces ==>
          t < |s.m.reduceTasks| && s'.m.phase != MapPhase)
    && s'.parts <= s.parts && s'.reading == s.reading && s'.written <= s.written
    && (forall p: (int, nat, nat) {:trigger p in s'.parts} :: p in s'.parts ==>
          Unchanged(s.disk, s'.disk, Temp(p.0, p.1, p.2)))
    && (s.m.phase == MapPhase ==> s.written == {})
    && (forall k: (int, nat) {:trigger k in s'.written} :: k in s'.written ==> OutputStays(s, s', g12, k))
  }

  lemma WorkersKept(s: System, s': System, job: Job, g12: bool)
    requires WorkersOk(s, job, g12) && MasterMoves(s, s', g12)
    ensures WorkersOk(s', job, g12)
  {
    forall p | p in s'.parts ensures PartOk(s', job, p) {
      assert PartOk(s, job, p);
    }
    forall k ensures ReadingOk(s', job, k) {
      assert ReadingOk(s, job, k);
    }
    forall k ensures WrittenOk(s', job, g12, k) {
      assert WrittenOk(s, job, g12, k);
    }
  }

  lemma FilesOfTables(disk: Disk, m: Master, m': Master, job: Job)
    requires IntermediateOk(disk, m, job) && m'.phase == m.phase && |m'.reduceTasks| == |m.reduceTasks|
    requires |m'.mapTasks| == |m.mapTasks|
    requires forall j: nat :: j < |m.mapTasks| && m'.mapTasks[j].state == Completed ==> m.mapTasks[j].state == Completed
    requires forall i: nat :: i < |m.reduceTasks| && m'.reduceTasks[i].state == Completed ==>
               m.reduceTasks[i].state == Completed
    ensures IntermediateOk(disk, m', job) && (OutFiles(disk, m, job) ==> OutFiles(disk, m', job))
  {
    if m.phase != CompletedPhase {
      forall j: nat, i: nat ensures MapFile(disk, m', job, j, i) {
        assert MapFile(disk, m, job, j, i);
      }
    }
    if OutFiles(disk, m, job) {
      forall i: nat ensures OutFile(disk, m', job, i) {
        assert OutFile(disk, m, job, i);
      }
    }
  }

  ghost predicate OnlyRestates(m: Master, m': Master) {
    && m'.phase == m.phase && |m'.mapTasks| == |m.mapTasks| && |m'.reduceTasks| == |m.reduceTasks|
    && (forall j: nat :: j < |m.mapTasks| && m'.mapTasks[j].state == Completed ==> m.mapTasks[j].state == Completed)
    && (forall i: nat :: i < |m.reduceTasks| && m'.reduceTasks[i].state == Completed ==>
          m.reduceTasks[i].state == Completed)
  }

  lemma HandsOut(m: Master, k: nat, rest: seq<nat>, m': Master)
    requires Ok(m) && k < |Current(m)| && Current(m)[k].state == Idle
    requires m' == SetState(m, k, InProgress).(idle := rest, inProgress := m.inProgress + {k})
    requires Scheduled(Current(SetState(m, k, InProgress)), rest, m.inProgress + {k}, m.completedCnt)
    ensures Ok(m') && Settled(m, m') && OnlyRestates(m, m')
  {
    ReplaceKeepsTables(m, k, InProgress, rest, m.inProgress + {k});
  }

  lemma AssignTables(m: Master, m': Master, s: System, g: Guards)
    requires Ok(m) && s.m == m && g.g10 && forall k :: 0 <= k < |m.idle| ==> m.idle[k] < |Current(m)|
    requires m' == AfterAssign(s, g).m
    ensures Ok(m') && Settled(m, m') && OnlyRestates(m, m')
  {
    var (id, rest) := Pop(Current(m), m.idle);
    PopKeeps(Current(m), m.idle, m.inProgress, m.completedCnt);
    PoppedIdIs(Current(m), m.idle, -1, true);
    if id.Some? {
      HandsOut(m, id.value, rest, m');
    } else {
      QueueKeepsTables(m, rest);
    }
  }

  lemma AssignKeeps(s: System, job: Job, g: Guards)
    requires Core(s, job, g.g12) && g.g10 && Possible(s, job, Assign)
    ensures var s' := Next(s, job, g, Assign);
      Core(s', job, g.g12) && Settled(s.m, s'.m) && (OutFiles(s.disk, s.m, job) ==> OutFiles(s'.disk, s'.m, job))
  {
    var s' := AfterAssign(s, g);
    AssignTables(s.m, s'.m, s, g);
    FilesOfTables(s.disk, s.m, s'.m, job);
    WorkersKept(s, s', job, g.g12);
  }

  lemma TimeOutKeeps(s: System, job: Job, g: Guards, id: nat)
    requires Core(s, job, g.g12) && Possible(s, job, TimeOut(id))
    ensures var s' := Next(s, job, g, TimeOut(id));
      Core(s', job, g.g12) && Settled(s.m, s'.m) && (OutFiles(s.disk, s.m, job) ==> OutFiles(s'.disk, s'.m, job))
  {
    var m, s' := s.m, Next(s, job, g, TimeOut(id));
    TimeOutTask(Current(m), m.idle, m.inProgress, m.completedCnt, id);
    ReplaceKeepsTables(m, id, Idle, m.idle + [id], m.inProgress - {id});
    FilesOfTables(s.disk, m, s'.m, job);
    WorkersKept(s, s', job, g.g12);
  }

  // ----- commits -----

  /** A result that is not accepted loses its files, which are the worker's own or a final output. */
  lemma IgnoredKeeps(s: System, job: Job, names: seq<FileName>)
    requires IntermediateOk(s.disk, s.m, job) && forall f :: f in names ==> !f.Inter?
    ensures IntermediateOk(s.disk - NameSet(names), s.m, job)
    ensures OutFiles(s.disk, s.m, job) && (forall f :: f in names ==> IsTemp(f)) ==>
              OutFiles(s.disk - NameSet(names), s.m, job)
  {
    if s.m.phase != CompletedPhase {
      forall j: nat, i: nat ensures MapFile(s.disk - NameSet(names), s.m, job, j, i) {
        assert MapFile(s.disk, s.m, job, j, i);
      }
    }
    if OutFiles(s.disk, s.m, job) && forall f :: f in names ==> IsTemp(f) {
      RemoveKeeps(s.disk, s.m, job, names);
      assert !NamesFinished(s.m, names);
    }
  }

  lemma AcceptedMapCommit(s: System, job: Job, g: Guards, wid: int, tid: nat, s': System)
    requires Core(s, job, g.g12) && g.g11 && Possible(s, job, CommitMap(wid, tid))
    requires s' == Next(s, job, g, CommitMap(wid, tid)) && Accepted(s.m, MapResult(s.m, wid, tid))
    ensures Ok(s'.m) && IntermediateOk(s'.disk, s'.m, job) && MasterMoves(s, s', g.g12) && Settled(s.m, s'.m)
    ensures OutFiles(s'.disk, s'.m, job)
  {
    var n := |s.m.reduceTasks|;
    forall i: nat ensures PartWritten(s.disk, job, n, wid, tid, i) {
      assert i < n ==> PartOk(s, job, (wid, tid, i));
    }
    MapCommitFiles(s.disk, s.m, job, wid, tid, s'.disk);
    AcceptedMapFiles(s'.disk, s.m, job, tid, g.g11);
    CommitKeeps(s.m, tid, g.g11);
  }

  lemma MapCommitKeeps(s: System, job: Job, g: Guards, wid: int, tid: nat)
    requires Core(s, job, g.g12) && g.g11 && Possible(s, job, CommitMap(wid, tid))
    ensures var s' := Next(s, job, g, CommitMap(wid, tid));
      Core(s', job, g.g12) && Settled(s.m, s'.m) && (OutFiles(s.disk, s.m, job) ==> OutFiles(s'.disk, s'.m, job))
  {
    var s' := Next(s, job, g, CommitMap(wid, tid));
    if Accepted(s.m, MapResult(s.m, wid, tid)) {
      AcceptedMapCommit(s, job, g, wid, tid, s');
    } else {
      IgnoredKeeps(s, job, TempRow(wid, tid, |s.m.reduceTasks|));
    }
    WorkersKept(s, s', job, g.g12);
  }

  /** The disk after the end of the job, or before it, given the one with the output in place. */
  function EndDisk(named: Disk, m: Master): Disk {
    if m.completedCnt + 1 == |m.reduceTasks| then Cleared(named, m.mapTasks) else named
  }

  lemma EndFiles(named: Disk, m: Master, job: Job, rid: nat, g11: bool)
    requires Ok(m) && m.phase == ReducePhase && rid < |m.reduceTasks| && m.reduceTasks[rid].state != Completed
    requires MapFiles(named, AfterFinish(m, rid), job)
    ensures var m', disk' := Switched(AfterFinish(m, rid), g11), EndDisk(named, m);
      && IntermediateOk(disk', m', job)
      && (OutFiles(named, AfterFinish(m, rid), job) ==> OutFiles(disk', m', job))
  {
    var a, m', disk' := AfterFinish(m, rid), Switched(AfterFinish(m, rid), g11), EndDisk(named, m);
    if m.completedCnt + 1 == |m.reduceTasks| {
      forall f ensures f in disk' <==> f in named && !(f.Inter? && f.mid < |m.mapTasks| && f.rid < |m.reduceTasks|)
        ensures f in disk' ==> disk'[f] == named[f]
      {
        ClearsIntermediate(named, m, f);
      }
      if OutFiles(named, a, job) {
        forall i: nat ensures OutFile(disk', m', job, i) {
          assert OutFile(named, a, job, i);
        }
      }
    }
  }

  lemma AcceptedReduceCommit(s: System, job: Job, g: Guards, wid: int, rid: nat, s': System)
    requires Core(s, job, g.g12) && g.g11 && Possible(s, job, CommitReduce(wid, rid))
    requires s' == Next(s, job, g, CommitReduce(wid, rid)) && Accepted(s.m, ReduceResult(g.g12, wid, rid))
    ensures Ok(s'.m) && IntermediateOk(s'.disk, s'.m, job) && Settled(s.m, s'.m)
    ensures OutFiles(s.disk, s.m, job) ==> OutFiles(s'.disk, s'.m, job)
  {
    var name := OutName(g.g12, wid, rid);
    var named := RenameAll(s.disk, [name], [Out(rid)]);
    assert WrittenOk(s, job, g.g12, (wid, rid));
    ReduceCommitMaps(s.disk, s.m, job, name, rid);
    EndFiles(named, s.m, job, rid, g.g11);
    CommitKeeps(s.m, rid, g.g11);
    if OutFiles(s.disk, s.m, job) {
      ReduceCommitOutputs(s.disk, s.m, job, name, rid);
    }
  }

  /** A reduce commit leaves every other worker's files alone. */
  lemma ReduceCommitLeaves(s: System, rid: nat, name: FileName)
    requires Ok(s.m) && s.m.phase == ReducePhase && rid < |s.m.reduceTasks|
    ensures forall f: FileName {:trigger Unchanged(s.disk, EndDisk(RenameAll(s.disk, [name], [Out(rid)]), s.m), f)} ::
              !f.Inter? && f != name && f != Out(rid) ==>
                Unchanged(s.disk, EndDisk(RenameAll(s.disk, [name], [Out(rid)]), s.m), f)
  {
    var named := RenameAll(s.disk, [name], [Out(rid)]);
    RenameOne(s.disk, name, rid);
    forall f: FileName | !f.Inter? && f != name && f != Out(rid) ensures Unchanged(s.disk, EndDisk(named, s.m), f) {
      ClearsIntermediate(named, s.m, f);
    }
  }

  lemma ReduceCommitMoves(s: System, job: Job, g: Guards, wid: int, rid: nat, s': System)
    requires Core(s, job, g.g12) && g.g11 && Possible(s, job, CommitReduce(wid, rid))
    requires s' == Next(s, job, g, CommitReduce(wid, rid))
    ensures MasterMoves(s, s', g.g12)
  {
    var name := OutName(g.g12, wid, rid);
    if Accepted(s.m, ReduceResult(g.g12, wid, rid)) {
      ReduceCommitLeaves(s, rid, name);
      assert s'.disk == EndDisk(RenameAll(s.disk, [name], [Out(rid)]), s.m);
    } else {
      IgnoredMoves(s, wid, rid, g.g12, s');
    }
  }

  lemma IgnoredMoves(s: System, wid: int, rid: nat, g12: bool, s': System)
    requires s.m.phase == MapPhase ==> s.written == {}
    requires !Accepted(s.m, ReduceResult(g12, wid, rid))
    requires s' == s.(disk := s.disk - NameSet([OutName(g12, wid, rid)]), written := s.written - {(wid, rid)})
    ensures MasterMoves(s, s', g12)
  {
  }

  lemma ReduceCommitKeeps(s: System, job: Job, g: Guards, wid: int, rid: nat)
    requires Core(s, job, g.g12) && g.g11 && Possible(s, job, CommitReduce(wid, rid))
    ensures var s' := Next(s, job, g, CommitReduce(wid, rid));
      && Core(s', job, g.g12) && Settled(s.m, s'.m)
      && (g.g12 && OutFiles(s.disk, s.m, job) ==> OutFiles(s'.disk, s'.m, job))
  {
    var s' := Next(s, job, g, CommitReduce(wid, rid));
    if Accepted(s.m, ReduceResult(g.g12, wid, rid)) {
      AcceptedReduceCommit(s, job, g, wid, rid, s');
    } else {
      IgnoredKeeps(s, job, [OutName(g.g12, wid, rid)]);
    }
    ReduceCommitMoves(s, job, g, wid, rid, s');
    WorkersKept(s, s', job, g.g12);
  }

  // ----- steps of the workers -----

  /** A file written that is not an intermediate one. */
  lemma WriteKeepsIntermediate(disk: Disk, m: Master, job: Job, name: FileName, content: string)
    requires IntermediateOk(disk, m, job) && !name.Inter?
    ensures IntermediateOk(disk[name := content], m, job)
    ensures IsTemp(name) && OutFiles(disk, m, job) ==> OutFiles(disk[name := content], m, job)
  {
    var disk' := disk[name := content];
    if m.phase != CompletedPhase {
      forall j: nat, i: nat ensures MapFile(disk', m, job, j, i) {
        assert MapFile(disk, m, job, j, i);
      }
    }
    if IsTemp(name) && OutFiles(disk, m, job) {
      forall i: nat ensures OutFile(disk', m, job, i) {
        assert OutFile(disk, m, job, i);
      }
    }
  }

  lemma WritePartKeeps(s: System, job: Job, g: Guards, wid: int, tid: nat, rid: nat)
    requires Core(s, job, g.g12) && Possible(s, job, WritePart(wid, tid, rid))
    ensures var s' := Next(s, job, g, WritePart(wid, tid, rid));
      Core(s', job, g.g12) && s'.m == s.m && (OutFiles(s.disk, s.m, job) ==> OutFiles(s'.disk, s'.m, job))
  {
    var s' := Next(s, job, g, WritePart(wid, tid, rid));
    WriteKeepsIntermediate(s.disk, s.m, job, Temp(wid, tid, rid), PartFile(job, |s.m.reduceTasks|, tid, rid));
    forall p | p in s'.parts ensures PartOk(s', job, p) {
      assert p in s.parts ==> PartOk(s, job, p);
    }
    forall k ensures ReadingOk(s', job, k) {
      assert ReadingOk(s, job, k);
    }
    forall k ensures WrittenOk(s', job, g.g12, k) {
      assert WrittenOk(s, job, g.g12, k);
    }
  }

  /** A worker's step that only changes what it has read. */
  lemma ReadingKeeps(s: System, s': System, job: Job, g12: bool, key: (int, nat))
    requires Core(s, job, g12) && s'.reading.Keys <= s.reading.Keys + {key}
    requires s' == s.(reading := s'.reading) && ReadingOk(s', job, key) && s.m.phase != MapPhase
    requires forall k :: k in s'.reading && k != key ==> s'.reading[k] == s.reading[k]
    ensures Core(s', job, g12)
  {
    forall p | p in s'.parts ensures PartOk(s', job, p) {
      assert PartOk(s, job, p);
    }
    forall k ensures ReadingOk(s', job, k) {
      assert ReadingOk(s, job, k);
    }
    forall k ensures WrittenOk(s', job, g12, k) {
      assert WrittenOk(s, job, g12, k);
    }
  }

  lemma StartReduceKeeps(s: System, job: Job, g: Guards, wid: int, rid: nat)
    requires Core(s, job, g.g12) && Possible(s, job, StartReduce(wid, rid))
    ensures Core(Next(s, job, g, StartReduce(wid, rid)), job, g.g12)
  {
    var s' := Next(s, job, g, StartReduce(wid, rid));
    assert ReadUpTo(job, |s.m.reduceTasks|, rid, [], 0);
    assert ReadOk(job, |s.m.reduceTasks|, s.m.phase, rid, []);
    assert ReadingOk(s', job, (wid, rid));
    ReadingKeeps(s, s', job, g.g12, (wid, rid));
  }

  /** The next file a reduce worker reads: the right part until the end of the job, and then nothing. */
  lemma ReadsPart(s: System, job: Job, g12: bool, rid: nat, k: nat)
    requires Core(s, job, g12) && rid < |s.m.reduceTasks| && s.m.phase != MapPhase && k < |s.m.reduceTasks[rid].params|
    ensures |s.m.reduceTasks[rid].params| == |job.maps|
    ensures Content(s.disk, s.m.reduceTasks[rid].params[k]) ==
            if s.m.phase == ReducePhase then PartFile(job, |s.m.reduceTasks|, k, rid) else ""
  {
    assert ReduceEntry(s.m, rid) && MapEntry(s.m, k);
    assert s.m.phase == ReducePhase ==> MapFile(s.disk, s.m, job, k, rid);
  }

  lemma OneMoreRead(job: Job, n: nat, phase: Phase, rid: nat, files: seq<string>, next: string)
    requires n > 0 && ReadOk(job, n, phase, rid, files) && |files| < |job.maps| && phase != MapPhase
    requires next == if phase == ReducePhase then PartFile(job, n, |files|, rid) else ""
    ensures ReadOk(job, n, phase, rid, files + [next])
  {
    var k: nat :| k <= |files| && ReadUpTo(job, n, rid, files, k) && (phase == ReducePhase ==> k == |files|);
    assert ReadUpTo(job, n, rid, files + [next], if phase == ReducePhase then k + 1 else k);
  }

  lemma ReadNextKeeps(s: System, job: Job, g: Guards, wid: int, rid: nat)
    requires Core(s, job, g.g12) && Possible(s, job, ReadNext(wid, rid))
    ensures Core(Next(s, job, g, ReadNext(wid, rid)), job, g.g12)
  {
    var s', files := Next(s, job, g, ReadNext(wid, rid)), s.reading[(wid, rid)];
    assert ReadingOk(s, job, (wid, rid));
    ReadsPart(s, job, g.g12, rid, |files|);
    OneMoreRead(job, |s.m.reduceTasks|, s.m.phase, rid, files, Content(s.disk, s.m.reduceTasks[rid].params[|files|]));
    assert ReadingOk(s', job, (wid, rid));
    ReadingKeeps(s, s', job, g.g12, (wid, rid));
  }

  /** Reading the first k parts of a column and nothing more. */
  lemma ColumnUpTo(job: Job, m: Master, rid: nat, files: seq<string>, k: nat)
    requires GoodJob(job, m) && m.reduceTasks != [] && |files| == |job.maps| && k <= |files|
    requires ReadUpTo(job, |m.reduceTasks|, rid, files, k)
    ensures ReadColumn(files) == Flatten(Column(job.maps, job.hash, |m.reduceTasks|, rid)[..k])
  {
    var n := |m.reduceTasks|;
    var column := Column(job.maps, job.hash, n, rid);
    assert files == files[..k] + files[k..];
    forall j: nat | j < k ensures files[..k][j] == Lines(column[..k][j]) && CleanPairs(column[..k][j]) {
      assert CleanPairs(job.maps[j]);
      forall x | x in column[j] ensures CleanPair(x) {
        PartMembers(job.maps[j], job.hash, n, rid, x);
      }
    }
    ColumnBack(files[..k], column[..k]);
    NothingMore(files, k);
  }

  lemma {:induction false} NothingMore(files: seq<string>, k: nat)
    requires k <= |files| && forall j :: k <= j < |files| ==> files[j] == ""
    ensures ReadColumn(files) == ReadColumn(files[..k])
    decreases |files|
  {
    if k < |files| {
      NothingMore(files[..|files| - 1], k);
      assert files[..|files| - 1][..k] == files[..k];
      PairsAtEnd();
    } else {
      assert files[..k] == files;
    }
  }

  lemma WriteOutputKeeps(s: System, job: Job, g: Guards, wid: int, rid: nat, content: string)
    requires Core(s, job, g.g12) && Possible(s, job, WriteOutput(wid, rid, content))
    ensures var s' := Next(s, job, g, WriteOutput(wid, rid, content));
      && Core(s', job, g.g12) && s'.m == s.m
      && (g.g12 && OutFiles(s.disk, s.m, job) ==> OutFiles(s'.disk, s'.m, job))
  {
    var s', key := Next(s, job, g, WriteOutput(wid, rid, content)), (wid, rid);
    WriteKeepsIntermediate(s.disk, s.m, job, OutName(g.g12, wid, rid), content);
    assert ReadingOk(s, job, key);
    if s.m.phase == ReducePhase {
      WritesReduced(s, job, g.g12, wid, rid, content);
    }
    forall p | p in s'.parts ensures PartOk(s', job, p) {
      assert PartOk(s, job, p);
    }
    forall k ensures ReadingOk(s', job, k) {
      assert ReadingOk(s, job, k);
    }
    forall k ensures WrittenOk(s', job, g.g12, k) {
      assert WrittenOk(s, job, g.g12, k);
    }
  }

  /** While the phase is reduce, what a worker writes is the reduce of its column. */
  lemma WritesReduced(s: System, job: Job, g12: bool, wid: int, rid: nat, content: string)
    requires Core(s, job, g12) && Possible(s, job, WriteOutput(wid, rid, content)) && s.m.phase == ReducePhase
    ensures IsReduced(job, |s.m.reduceTasks|, rid, content)
  {
    var n, files := |s.m.reduceTasks|, s.reading[(wid, rid)];
    assert ReadingOk(s, job, (wid, rid)) && ReduceEntry(s.m, rid);
    ColumnUpTo(job, s.m, rid, files, |files|);
    assert Column(job.maps, job.hash, n, rid)[..|files|] == Column(job.maps, job.hash, n, rid);
    var ans :| IsOutput(content, ReadColumn(files), job.f, ans);
    assert IsOutput(content, ColumnOfJob(job, n, rid), job.f, ans);
  }

  // ----- runs -----

  lemma SettledSame(m: Master)
    ensures Settled(m, m)
  {
  }

  lemma NextKeeps(s: System, job: Job, g: Guards, e: Event)
    requires Core(s, job, g.g12) && g.g10 && g.g11 && Possible(s, job, e)
    ensures var s' := Next(s, job, g, e);
      && Core(s', job, g.g12) && Settled(s.m, s'.m)
      && (g.g12 && OutFiles(s.disk, s.m, job) ==> OutFiles(s'.disk, s'.m, job))
  {
    SettledSame(s.m);
    match e {
      case Assign => AssignKeeps(s, job, g);
      case TimeOut(id) => TimeOutKeeps(s, job, g, id);
      case WritePart(wid, tid, rid) => WritePartKeeps(s, job, g, wid, tid, rid);
      case CommitMap(wid, tid) => MapCommitKeeps(s, job, g, wid, tid);
      case StartReduce(wid, rid) => StartReduceKeeps(s, job, g, wid, rid);
      case ReadNext(wid, rid) => ReadNextKeeps(s, job, g, wid, rid);
      case WriteOutput(wid, rid, content) => WriteOutputKeeps(s, job, g, wid, rid, content);
      case CommitReduce(wid, rid) => ReduceCommitKeeps(s, job, g, wid, rid);
    }
  }

  lemma SettledTransitive(a: Master, b: Master, c: Master)
    requires Settled(a, b) && Settled(b, c)
    ensures Settled(a, c)
  {
    forall k {:trigger c.mapTasks[k]} | 0 <= k < |a.mapTasks| && a.mapTasks[k].state == Completed
      ensures c.mapTasks[k] == a.mapTasks[k]
    {
      assert b.mapTasks[k] == a.mapTasks[k];
    }
    if a.phase != MapPhase {
      forall k {:trigger c.reduceTasks[k]} | 0 <= k < |a.reduceTasks| && a.reduceTasks[k].state == Completed
        ensures c.reduceTasks[k] == a.reduceTasks[k]
      {
        assert b.reduceTasks[k] == a.reduceTasks[k];
      }
    }
  }

  /** Over every run with G10 and G11 the scheduler invariant holds, committed map results are on disk until the end,
      phases only go forward, and a finished task never reverts and never changes its results; with G12 committed
      outputs stay on disk as well. */
  lemma {:induction false} RunKeeps(first: System, job: Job, g: Guards, events: seq<Event>, last: System)
    requires Core(first, job, g.g12) && g.g10 && g.g11 && Ran(first, job, g, events, last)
    ensures Core(last, job, g.g12) && Settled(first.m, last.m)
    ensures g.g12 && OutFiles(first.disk, first.m, job) ==> OutFiles(last.disk, last.m, job)
    decreases events
  {
    if events == [] {
      SettledSame(first.m);
    } else {
      var s := Next(first, job, g, events[0]);
      NextKeeps(first, job, g, events[0]);
      RunKeeps(s, job, g, events[1..], last);
      SettledTransitive(first.m, s.m, last.m);
    }
  }

  /** The job from its start to its end, whatever is on disk before and whatever the workers' delays, losses and
      repeats: when the master is done the output files are there and together they are the sequential result, each key
      in one file only. */
  lemma RunGivesSequential(first: System, files: nat, n: nat, job: Job, events: seq<Event>, last: System)
    returns (outs: seq<seq<KeyValue>>)
    requires SetUp(first, files, n) && n > 0 && GoodJob(job, first.m)
    requires Ran(first, job, ALL, events, last) && last.m.phase == CompletedPhase
    ensures |outs| == n
    ensures forall i {:trigger outs[i]} :: 0 <= i < n ==> HoldsOutput(last.disk, job, n, i, outs[i])
    ensures forall x {:trigger InSome(outs, x)} :: InSome(outs, x) <==> Emits(Flatten(job.maps), job.f, x)
    ensures forall i, j, x, y {:trigger x in outs[i], y in outs[j]} ::
      0 <= i < n && 0 <= j < n && x in outs[i] && y in outs[j] && x.key == y.key ==> i == j && x == y
  {
    StartIsGood(first, files, n, job, true);
    RunKeeps(first, job, ALL, events, last);
    outs := JobDone(last.disk, last.m, job);
  }
}
