/** MapReduce as the source has it: exactly when a reduce worker that comes late spoils a finished job (G12), and runs
    in which each of the guards G10, G11 and G12 is missing. src/MapReduce/master.cpp:140-157, 219-292 and
    src/MapReduce/worker.cpp:130-153. */
module MapReduceLate {
  import opened RaftTypes
  import opened Text
  import opened MapReduce
  import opened MapReduceWorker
  import opened MapReduceTasks
  import opened MapReduceState
  import opened MapReduceFiles
  import opened MapReduceRun

  /** The source but for the first two guards. */
  const UNNAMED: Guards := Guards(true, true, false)

  /** s is reached by a run from a fresh master. */
  ghost predicate Reaches(first: System, files: nat, n: nat, job: Job, g: Guards, events: seq<Event>, s: System) {
    SetUp(first, files, n) && n > 0 && GoodJob(job, first.m) && Ran(first, job, g, events, s)
  }

  // ----- G12: a late commit -----

  /** As written, in every reachable state: a reduce worker's commit keeps the committed outputs exactly when it is the
      first for its task. Every later one deletes the task's output. */
  lemma LateCommit(first: System, files: nat, n: nat, job: Job, events: seq<Event>, s: System, wid: int, rid: nat)
    requires Reaches(first, files, n, job, UNNAMED, events, s)
    requires OutFiles(s.disk, s.m, job) && Possible(s, job, CommitReduce(wid, rid))
    ensures var s' := Next(s, job, UNNAMED, CommitReduce(wid, rid));
      OutFiles(s'.disk, s'.m, job) <==> Accepted(s.m, ReduceResult(false, wid, rid))
  {
    StartIsGood(first, files, n, job, false);
    RunKeeps(first, job, UNNAMED, events, s);
    if Accepted(s.m, ReduceResult(false, wid, rid)) {
      AcceptedReduceCommit(s, job, UNNAMED, wid, rid, Next(s, job, UNNAMED, CommitReduce(wid, rid)));
    } else {
      assert WrittenOk(s, job, false, (wid, rid));
      CountFull(s.m.reduceTasks);
      RemoveKeeps(s.disk, s.m, job, [Out(rid)]);
      assert IsFinished(s.m, [Out(rid)], rid);
    }
  }

  // ----- G12: a late write -----

  /** The same results for the same keys. */
  ghost predicate SameEmissions(a: seq<KeyValue>, b: seq<KeyValue>, f: Reducer) {
    forall x {:trigger Emits(a, f, x)} {:trigger Emits(b, f, x)} :: Emits(a, f, x) <==> Emits(b, f, x)
  }

  /** The reducer's results are words, as those of word count are. */
  ghost predicate WordResults(f: Reducer) {
    forall key, vals {:trigger f(key, vals)} :: f(key, vals) != [] ==> Clean(f(key, vals)[0])
  }

  lemma OutputIsClean(ans: seq<KeyValue>, kvs: seq<KeyValue>, f: Reducer)
    requires Reduces(ans, kvs, f) && CleanPairs(kvs) && WordResults(f)
    ensures CleanPairs(ans)
  {
    forall x | x in ans ensures CleanPair(x) {
      assert Emits(kvs, f, x);
      var y :| y in kvs && y.key == x.key;
      assert CleanPair(y);
    }
  }

  /** A file that is the output for one column is the output for another exactly when they emit the same. */
  lemma OutputFor(file: string, ans: seq<KeyValue>, a: seq<KeyValue>, b: seq<KeyValue>, f: Reducer)
    requires IsOutput(file, a, f, ans) && CleanPairs(a) && CleanPairs(b) && (a == [] || WordResults(f))
    ensures (exists other :: IsOutput(file, b, f, other)) <==> SameEmissions(a, b, f)
  {
    if SameEmissions(a, b, f) {
      forall x ensures x in ans <==> Emits(b, f, x) {
        assert x in ans <==> Emits(a, f, x);
      }
      assert IsOutput(file, b, f, ans);
    }
    forall other | IsOutput(file, b, f, other) ensures SameEmissions(a, b, f) {
      SameAnswer(ans, other, a, b, f);
      forall x ensures Emits(a, f, x) <==> Emits(b, f, x) {
        assert x in ans <==> Emits(a, f, x);
        assert x in other <==> Emits(b, f, x);
      }
    }
  }

  lemma SameAnswer(ans: seq<KeyValue>, other: seq<KeyValue>, a: seq<KeyValue>, b: seq<KeyValue>, f: Reducer)
    requires Reduces(ans, a, f) && Reduces(other, b, f) && Lines(ans) == Lines(other)
    requires CleanPairs(a) && CleanPairs(b) && (a == [] || WordResults(f))
    ensures ans == other
  {
    if a == [] {
      assert ans != [] ==> ans[0] in ans && Emits(a, f, ans[0]);
    } else {
      OutputIsClean(ans, a, f);
      OutputIsClean(other, b, f);
      LinesRoundTrip(ans);
      LinesRoundTrip(other);
    }
  }

  lemma {:induction false} FlattenClean(lists: seq<seq<KeyValue>>)
    requires forall j {:trigger lists[j]} :: 0 <= j < |lists| ==> CleanPairs(lists[j])
    ensures CleanPairs(Flatten(lists))
  {
    if lists != [] {
      FlattenClean(lists[..|lists| - 1]);
      assert CleanPairs(lists[|lists| - 1]);
    }
  }

  lemma ColumnClean(job: Job, m: Master, rid: nat, k: nat)
    requires GoodJob(job, m) && m.reduceTasks != [] && k <= |job.maps|
    ensures CleanPairs(Flatten(Column(job.maps, job.hash, |m.reduceTasks|, rid)[..k]))
  {
    var column := Column(job.maps, job.hash, |m.reduceTasks|, rid);
    forall j | 0 <= j < k ensures CleanPairs(column[..k][j]) {
      assert CleanPairs(job.maps[j]);
      forall x | x in column[j] ensures CleanPair(x) {
        PartMembers(job.maps[j], job.hash, |m.reduceTasks|, rid, x);
      }
    }
    FlattenClean(column[..k]);
  }

  /** The parts of its column that the worker read before the job was done. */
  ghost predicate ReadInTime(s: System, job: Job, wid: int, rid: nat, k: nat) {
    && (wid, rid) in s.reading && s.m.reduceTasks != []
    && k <= |s.reading[(wid, rid)]| == |job.maps|
    && ReadUpTo(job, |s.m.reduceTasks|, rid, s.reading[(wid, rid)], k)
  }

  /** Overwriting the output of a finished task keeps the outputs exactly when the new content is right too. */
  lemma Overwritten(disk: Disk, m: Master, job: Job, rid: nat, content: string)
    requires OutFiles(disk, m, job) && m.phase == CompletedPhase
    requires rid < |m.reduceTasks| && m.reduceTasks[rid].state == Completed
    ensures OutFiles(disk[Out(rid) := content], m, job) <==> IsReduced(job, |m.reduceTasks|, rid, content)
  {
    var disk' := disk[Out(rid) := content];
    if IsReduced(job, |m.reduceTasks|, rid, content) {
      forall i: nat ensures OutFile(disk', m, job, i) {
        assert OutFile(disk, m, job, i);
      }
    } else {
      assert !OutFile(disk', m, job, rid);
    }
  }

  /** What a late write leaves of the outputs, given how much was read in time. */
  lemma LateWriteFiles(s: System, job: Job, wid: int, rid: nat, content: string, k: nat)
    requires Core(s, job, false) && OutFiles(s.disk, s.m, job) && s.m.phase == CompletedPhase
    requires Possible(s, job, WriteOutput(wid, rid, content)) && ReadInTime(s, job, wid, rid, k)
    requires k == 0 || WordResults(job.f)
    ensures OutFiles(s.disk[Out(rid) := content], s.m, job) <==>
              SameEmissions(Flatten(Column(job.maps, job.hash, |s.m.reduceTasks|, rid)[..k]),
                            ColumnOfJob(job, |s.m.reduceTasks|, rid), job.f)
  {
    var n, column := |s.m.reduceTasks|, Column(job.maps, job.hash, |s.m.reduceTasks|, rid);
    var files := s.reading[(wid, rid)];
    ColumnUpTo(job, s.m, rid, files, k);
    ColumnClean(job, s.m, rid, k);
    ColumnClean(job, s.m, rid, |job.maps|);
    assert column[..|job.maps|] == column && (k == 0 ==> column[..k] == []);
    var ans :| IsOutput(content, ReadColumn(files), job.f, ans);
    OutputFor(content, ans, ReadColumn(files), ColumnOfJob(job, n, rid), job.f);
    CountFull(s.m.reduceTasks);
    Overwritten(s.disk, s.m, job, rid, content);
  }

  /** As written, in every reachable state: a write while the phase is reduce does no harm. After the job is done there
      is a number k of parts that the worker read in time. If it read nothing, its write keeps the outputs exactly when
      the column emits nothing. If it read something and the reducer's results are words, exactly when the reducer emits
      the same for those k parts as for the whole column. */
  lemma LateWrite(first: System, files: nat, n: nat, job: Job, events: seq<Event>, s: System, wid: int, rid: nat,
                  content: string) returns (k: nat)
    requires Reaches(first, files, n, job, UNNAMED, events, s)
    requires OutFiles(s.disk, s.m, job) && Possible(s, job, WriteOutput(wid, rid, content))
    ensures |s.m.reduceTasks| == n > 0 && ReadInTime(s, job, wid, rid, k)
    ensures var s' := Next(s, job, UNNAMED, WriteOutput(wid, rid, content));
      && (s.m.phase != CompletedPhase ==> k == |job.maps| && OutFiles(s'.disk, s'.m, job))
      && (s.m.phase == CompletedPhase && (k == 0 || WordResults(job.f)) ==>
            (OutFiles(s'.disk, s'.m, job) <==>
               SameEmissions(Flatten(Column(job.maps, job.hash, n, rid)[..k]), ColumnOfJob(job, n, rid), job.f)))
      && (s.m.phase == CompletedPhase && k == 0 ==>
            (OutFiles(s'.disk, s'.m, job) <==> forall x :: !Emits(ColumnOfJob(job, n, rid), job.f, x)))
  {
    StartIsGood(first, files, n, job, false);
    RunKeeps(first, job, UNNAMED, events, s);
    assert ReadingOk(s, job, (wid, rid)) && ReduceEntry(s.m, rid);
    var read := s.reading[(wid, rid)];
    k :| k <= |read| && ReadUpTo(job, n, rid, read, k) && (s.m.phase == ReducePhase ==> k == |read|);
    if s.m.phase == CompletedPhase {
      if k == 0 || WordResults(job.f) {
        LateWriteFiles(s, job, wid, rid, content, k);
      }
      NothingEmits(Column(job.maps, job.hash, n, rid)[..0], job.f);
    } else {
      WriteInTime(s, job, wid, rid, content);
    }
  }

  lemma NothingEmits(lists: seq<seq<KeyValue>>, f: Reducer)
    requires lists == []
    ensures forall x {:trigger Emits(Flatten(lists), f, x)} :: !Emits(Flatten(lists), f, x)
  {
  }

  lemma WriteInTime(s: System, job: Job, wid: int, rid: nat, content: string)
    requires Core(s, job, false) && OutFiles(s.disk, s.m, job) && s.m.phase == ReducePhase
    requires Possible(s, job, WriteOutput(wid, rid, content))
    ensures OutFiles(s.disk[Out(rid) := content], s.m, job)
  {
    var disk' := s.disk[Out(rid) := content];
    WritesReduced(s, job, false, wid, rid, content);
    forall i: nat ensures OutFile(disk', s.m, job, i) {
      assert OutFile(s.disk, s.m, job, i);
    }
  }

  // ----- a run without G12 -----

  /** One file, one reducer: the master in the reduce phase, with its reduce task in this state. */
  function Reducing(state: TaskState): Master {
    Master([Task(0, Completed, [Input(0)], [Inter(0, 0)])], [Task(0, state, [Inter(0, 0)], [])],
           if state == Idle then [0] else [], if state == InProgress then {0} else {}, ReducePhase, 0)
  }

  function AllDone(): Master {
    Master([Task(0, Completed, [Input(0)], [Inter(0, 0)])], [Task(0, Completed, [Inter(0, 0)], [Out(0)])], [], {},
           CompletedPhase, 1)
  }

  lemma SingleParts()
    ensures TempRow(1, 0, 1) == [Temp(1, 0, 0)] && Row(0, 1) == [Inter(0, 0)] && ColumnOf(0, 1) == [Inter(0, 0)]
    ensures Range(1) == [0] && [] + Range(1) == [0]
  {
  }

  lemma RenamesOne(disk: Disk, from: FileName, to: FileName)
    requires from in disk
    ensures RenameAll(disk, [from], [to]) == (disk - {from})[to := disk[from]]
  {
    assert [from][..0] == [] && [to][..0] == [] && RenameAll(disk, [], []) == disk;
  }

  /** The worker of the only map task hands in its part. */
  lemma MapDone(first: System, job: Job, g: Guards) returns (events: seq<Event>, s: System)
    requires SetUp(first, 1, 1) && |job.maps| == 1
    ensures Ran(first, job, g, events, s) && s.m == Reducing(Idle)
    ensures Inter(0, 0) in s.disk && s.disk[Inter(0, 0)] == PartFile(job, 1, 0, 0)
    ensures s.reading == map[] && s.written == {}
  {
    SingleParts();
    var part := PartFile(job, 1, 0, 0);
    var s1 := Next(first, job, g, Assign);
    assert s1.m == Master([Task(0, InProgress, [Input(0)], [])], [Task(0, Idle, [], [])], [], {0}, MapPhase, 0);
    OneMore(first, job, g, [], first, Assign);
    var s2 := Next(s1, job, g, WritePart(1, 0, 0));
    OneMore(first, job, g, [Assign], s1, WritePart(1, 0, 0));
    RenamesOne(s2.disk, Temp(1, 0, 0), Inter(0, 0));
    assert s2.parts == {(1, 0, 0)};
    s := Next(s2, job, g, CommitMap(1, 0));
    assert s.m == Reducing(Idle);
    events := [Assign] + [WritePart(1, 0, 0)] + [CommitMap(1, 0)];
    OneMore(first, job, g, [Assign] + [WritePart(1, 0, 0)], s2, CommitMap(1, 0));
  }

  /** The reduce task is handed to worker 1, times out, and is handed to worker 2. */
  lemma HandedTwice(first: System, job: Job, g: Guards) returns (events: seq<Event>, s: System)
    requires SetUp(first, 1, 1) && |job.maps| == 1
    ensures Ran(first, job, g, events, s) && s.m == Reducing(InProgress) && 0 in s.reduces
    ensures Inter(0, 0) in s.disk && s.disk[Inter(0, 0)] == PartFile(job, 1, 0, 0)
    ensures s.reading == map[] && s.written == {}
  {
    var s0;
    events, s0 := MapDone(first, job, g);
    var s1 := Next(s0, job, g, Assign);
    assert s1.m == Reducing(InProgress);
    OneMore(first, job, g, events, s0, Assign);
    var s2 := Next(s1, job, g, TimeOut(0));
    assert s2.m == Reducing(Idle);
    OneMore(first, job, g, events + [Assign], s1, TimeOut(0));
    s := Next(s2, job, g, Assign);
    OneMore(first, job, g, events + [Assign] + [TimeOut(0)], s2, Assign);
    events := events + [Assign] + [TimeOut(0)] + [Assign];
  }

  /** Worker wid reads the only file of its column. */
  lemma ReadsOne(first: System, job: Job, g: Guards, events: seq<Event>, s: System, wid: int)
    returns (events': seq<Event>, s': System)
    requires Ran(first, job, g, events, s) && 0 in s.reduces
    requires |s.m.reduceTasks| == 1 && s.m.reduceTasks[0].params == [Inter(0, 0)]
    ensures Ran(first, job, g, events', s')
    ensures s' == s.(reading := s.reading[(wid, 0) := [Content(s.disk, Inter(0, 0))]])
  {
    var s1 := Next(s, job, g, StartReduce(wid, 0));
    OneMore(first, job, g, events, s, StartReduce(wid, 0));
    s' := Next(s1, job, g, ReadNext(wid, 0));
    OneMore(first, job, g, events + [StartReduce(wid, 0)], s1, ReadNext(wid, 0));
    var read := Content(s.disk, Inter(0, 0));
    assert [] + [read] == [read];
    assert s'.reading == s.reading[(wid, 0) := [read]];
    events' := events + [StartReduce(wid, 0)] + [ReadNext(wid, 0)];
  }

  lemma ClearsOne(disk: Disk)
    ensures Cleared(disk, [Task(0, Completed, [Input(0)], [Inter(0, 0)])]) == disk - {Inter(0, 0)}
  {
    var tasks := [Task(0, Completed, [Input(0)], [Inter(0, 0)])];
    assert tasks[..0] == [] && Cleared(disk, []) == disk;
    assert NameSet([Inter(0, 0)]) == {Inter(0, 0)};
  }

  /** Worker 2 finishes the job with this output; worker 1 has not started. */
  lemma SecondFinishes(first: System, job: Job, content: string) returns (events: seq<Event>, s: System)
    requires SetUp(first, 1, 1) && |job.maps| == 1 && OutputOf(content, [PartFile(job, 1, 0, 0)], job.f)
    ensures Ran(first, job, UNNAMED, events, s) && s.m == AllDone() && 0 in s.reduces
    ensures Out(0) in s.disk && s.disk[Out(0)] == content && Inter(0, 0) !in s.disk
  {
    var s0, s1;
    events, s0 := HandedTwice(first, job, UNNAMED);
    events, s1 := ReadsOne(first, job, UNNAMED, events, s0, 2);
    var write := WriteOutput(2, 0, content);
    var s2 := Next(s1, job, UNNAMED, write);
    OneMore(first, job, UNNAMED, events, s1, write);
    RenamesOne(s2.disk, Out(0), Out(0));
    ClearsOne((s2.disk - {Out(0)})[Out(0) := content]);
    s := Next(s2, job, UNNAMED, CommitReduce(2, 0));
    assert s2.m == Reducing(InProgress);
    assert s.m == AllDone();
    assert s.disk == (s2.disk - {Out(0)})[Out(0) := content] - {Inter(0, 0)};
    OneMore(first, job, UNNAMED, events + [write], s2, CommitReduce(2, 0));
    events := events + [write] + [CommitReduce(2, 0)];
  }

  /** As written there is a run, for every job of one file and one reducer, in which the job is done with the right
      output, and then the worker that timed out reads a file that is gone and empties the output; its commit deletes
      it. */
  lemma LateWorkerEmptiesOutput(first: System, job: Job, content: string)
    returns (events: seq<Event>, done: System, emptied: System, deleted: System)
    requires SetUp(first, 1, 1) && |job.maps| == 1 && OutputOf(content, [PartFile(job, 1, 0, 0)], job.f)
    ensures Ran(first, job, UNNAMED, events, emptied) && done.m == emptied.m == deleted.m == AllDone()
    ensures Out(0) in done.disk && done.disk[Out(0)] == content
    ensures Out(0) in emptied.disk && emptied.disk[Out(0)] == ""
    ensures Possible(emptied, job, CommitReduce(1, 0))
    ensures deleted == Next(emptied, job, UNNAMED, CommitReduce(1, 0)) && Out(0) !in deleted.disk
  {
    var read;
    events, done := SecondFinishes(first, job, content);
    events, read := ReadsOne(first, job, UNNAMED, events, done, 1);
    NothingRead(job.f);
    var write := WriteOutput(1, 0, "");
    emptied := Next(read, job, UNNAMED, write);
    OneMore(first, job, UNNAMED, events, read, write);
    events := events + [write];
    deleted := Next(emptied, job, UNNAMED, CommitReduce(1, 0));
    assert Out(0) in NameSet([Out(0)]);
  }

  lemma NothingRead(f: Reducer)
    ensures OutputOf("", [""], f)
  {
    PairsAtEnd();
    assert [""][..0] == [];
    assert ReadColumn([""]) == [];
    var none: seq<KeyValue> := [];
    assert IsOutput("", ReadColumn([""]), f, none);
  }

  // ----- runs without G10 and G11 -----

  /** Two files, one reducer, both map tasks handed out. */
  function TwoMaps(a: TaskState, b: TaskState, idle: seq<nat>, inProgress: set<nat>, count: nat): Master {
    Master([Task(0, a, [Input(0)], if a == Completed then [Inter(0, 0)] else []),
            Task(1, b, [Input(1)], if b == Completed then [Inter(1, 0)] else [])],
           [Task(0, Idle, [], [])], idle, inProgress, MapPhase, count)
  }

  lemma BothHandedOut(first: System, job: Job, g: Guards) returns (events: seq<Event>, s: System)
    requires SetUp(first, 2, 1) && |job.maps| == 2
    ensures Ran(first, job, g, events, s) && s.m == TwoMaps(InProgress, InProgress, [], {0, 1}, 0)
    ensures s.maps == {0, 1} && s.parts == {}
  {
    var s1 := Next(first, job, g, Assign);
    assert Range(2) == [0, 1];
    assert first.m == TwoMaps(Idle, Idle, [0, 1], {}, 0);
    assert s1.m == TwoMaps(InProgress, Idle, [1], {0}, 0);
    OneMore(first, job, g, [], first, Assign);
    s := Next(s1, job, g, Assign);
    assert s.m == TwoMaps(InProgress, InProgress, [], {0, 1}, 0);
    OneMore(first, job, g, [Assign], s1, Assign);
    events := [Assign] + [Assign];
  }

  /** Worker 1 hands in map task tid. */
  lemma HandsIn(first: System, job: Job, g: Guards, events: seq<Event>, s: System, tid: nat)
    returns (events': seq<Event>, s': System)
    requires Ran(first, job, g, events, s) && tid in s.maps && tid < |job.maps| == |s.m.mapTasks|
    requires |s.m.reduceTasks| == 1 && s.m.phase == MapPhase && s.m.mapTasks[tid].state != Completed && s.parts == {}
    ensures Ran(first, job, g, events', s')
    ensures s'.m == Switched(AfterFinish(s.m, tid), g.g11) && s'.maps == s.maps && s'.parts == {}
  {
    var s1 := Next(s, job, g, WritePart(1, tid, 0));
    OneMore(first, job, g, events, s, WritePart(1, tid, 0));
    s' := Next(s1, job, g, CommitMap(1, tid));
    OneMore(first, job, g, events + [WritePart(1, tid, 0)], s1, CommitMap(1, tid));
    events' := events + [WritePart(1, tid, 0)] + [CommitMap(1, tid)];
  }

  /** Without G10: task 0 times out, is committed late, and its stale id is the only one queued; the next worker that
      asks gets it, and a finished task is in progress again. */
  lemma StaleIdReverts(first: System, job: Job, g11: bool, g12: bool)
    returns (events: seq<Event>, s: System, reverted: System)
    requires SetUp(first, 2, 1) && |job.maps| == 2
    ensures var g := Guards(false, g11, g12);
      && Ran(first, job, g, events, s) && s.m == TwoMaps(Completed, InProgress, [0], {1}, 1)
      && Possible(s, job, Assign) && reverted == Next(s, job, g, Assign)
      && |reverted.m.mapTasks| == 2 && reverted.m.mapTasks[0].state == InProgress && !Ok(reverted.m)
  {
    var g, s0 := Guards(false, g11, g12), first;
    events, s0 := BothHandedOut(first, job, g);
    var s1 := Next(s0, job, g, TimeOut(0));
    assert s1.m == TwoMaps(Idle, InProgress, [0], {1}, 0);
    OneMore(first, job, g, events, s0, TimeOut(0));
    events, s := HandsIn(first, job, g, events + [TimeOut(0)], s1, 0);
    assert Row(0, 1) == [Inter(0, 0)];
    assert s.m == TwoMaps(Completed, InProgress, [0], {1}, 1);
    reverted := Next(s, job, g, Assign);
    CountOfTwo(reverted.m.mapTasks);
  }

  lemma CountOfTwo(tasks: seq<Task>)
    requires |tasks| == 2
    ensures CountCompleted(tasks) == (if tasks[0].state == Completed then 1 else 0)
                                     + (if tasks[1].state == Completed then 1 else 0)
  {
    assert tasks[..1] == [tasks[0]] && [tasks[0]][..0] == [];
    assert CountCompleted([tasks[0]]) == if tasks[0].state == Completed then 1 else 0;
  }

  /** Without G11: task 1 times out and both tasks are committed late; its id stays queued when the reduce phase starts,
      and there is only one reduce task. */
  lemma StaleIdOutOfRange(first: System, job: Job, g10: bool, g12: bool) returns (events: seq<Event>, s: System)
    requires SetUp(first, 2, 1) && |job.maps| == 2
    ensures Ran(first, job, Guards(g10, false, g12), events, s)
    ensures s.m.phase == ReducePhase && s.m.idle == [1, 0] && |s.m.reduceTasks| == 1 && !Ok(s.m)
  {
    var g, s0 := Guards(g10, false, g12), first;
    events, s0 := BothHandedOut(first, job, g);
    var s1 := Next(s0, job, g, TimeOut(1));
    assert s1.m == TwoMaps(InProgress, Idle, [1], {0}, 0);
    OneMore(first, job, g, events, s0, TimeOut(1));
    var s2;
    events, s2 := HandsIn(first, job, g, events + [TimeOut(1)], s1, 0);
    assert Row(0, 1) == [Inter(0, 0)] && Row(1, 1) == [Inter(1, 0)];
    assert s2.m == TwoMaps(Completed, Idle, [1], {}, 1);
    events, s := HandsIn(first, job, g, events, s2, 1);
    assert Range(1) == [0] && [1] + [0] == [1, 0];
    assert s.m.idle == [1, 0] && s.m.idle[0] in s.m.idle;
  }
}
