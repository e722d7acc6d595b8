/** From every reachable state a job of one file or more can still be finished, whatever was lost or late before; a job
    of no files never is. src/MapReduce/master.cpp:101-183, 265-336 and src/MapReduce/worker.cpp:61-153. */
module MapReduceProgress {
  import opened RaftTypes
  import opened Text
  import opened MapReduce
  import opened MapReduceWorker
  import opened MapReduceTasks
  import opened MapReduceState
  import opened MapReduceFiles
  import opened MapReduceRun

  /** The state of a run that goes on: s was reached by events, and all that every run keeps holds there. */
  ghost predicate At(first: System, job: Job, g: Guards, events: seq<Event>, s: System) {
    Ran(first, job, g, events, s) && Core(s, job, g.g12) && g.g10 && g.g11
  }

  lemma Goes(first: System, job: Job, g: Guards, events: seq<Event>, s: System, e: Event)
    requires At(first, job, g, events, s) && Possible(s, job, e)
    ensures At(first, job, g, events + [e], Next(s, job, g, e))
  {
    OneMore(first, job, g, events, s, e);
    NextKeeps(s, job, g, e);
  }

  // ----- some task is idle, and is handed out -----

  /** What handing out leaves as it is. */
  predicate SameTables(s: System, s': System) {
    && s'.m.phase == s.m.phase && s'.m.completedCnt == s.m.completedCnt
    && |s'.m.mapTasks| == |s.m.mapTasks| && |s'.m.reduceTasks| == |s.m.reduceTasks|
  }

  predicate IsIdle(m: Master, k: nat) {
    k < |Current(m)| && Current(m)[k].state == Idle
  }

  /** Unless all tasks are finished one is idle, or is in progress and can be given up. */
  lemma GetsIdle(first: System, job: Job, g: Guards, events: seq<Event>, s: System)
    returns (events': seq<Event>, s': System, k: nat)
    requires At(first, job, g, events, s) && s.m.completedCnt < |Current(s.m)|
    ensures At(first, job, g, events', s') && SameTables(s, s') && IsIdle(s'.m, k)
  {
    CountFull(Current(s.m));
    k :| k < |Current(s.m)| && Current(s.m)[k].state != Completed;
    if Current(s.m)[k].state == Idle {
      events', s' := events, s;
    } else {
      assert TaskOk(Current(s.m), s.m.idle, s.m.inProgress, k);
      Goes(first, job, g, events, s, TimeOut(k));
      events', s' := events + [TimeOut(k)], Next(s, job, g, TimeOut(k));
    }
  }

  /** The next worker that asks gets a task. */
  lemma HandsOut(first: System, job: Job, g: Guards, events: seq<Event>, s: System, i: nat)
    returns (s': System, k: nat)
    requires At(first, job, g, events, s) && IsIdle(s.m, i)
    ensures At(first, job, g, events + [Assign], s') && SameTables(s, s')
    ensures k < |Current(s'.m)| && Current(s'.m)[k].state == InProgress
    ensures s.m.phase == MapPhase ==> k in s'.maps
    ensures s.m.phase == ReducePhase ==> k in s'.reduces
  {
    PopKeeps(Current(s.m), s.m.idle, s.m.inProgress, s.m.completedCnt);
    PoppedIdIs(Current(s.m), s.m.idle, -1, g.g10);
    k := Pop(Current(s.m), s.m.idle).0.value;
    Goes(first, job, g, events, s, Assign);
    s' := Next(s, job, g, Assign);
  }

  lemma GivesOut(first: System, job: Job, g: Guards, events: seq<Event>, s: System)
    returns (events': seq<Event>, s': System, k: nat)
    requires At(first, job, g, events, s) && s.m.completedCnt < |Current(s.m)|
    ensures At(first, job, g, events', s') && SameTables(s, s')
    ensures k < |Current(s'.m)| && Current(s'.m)[k].state == InProgress
    ensures s.m.phase == MapPhase ==> k in s'.maps
    ensures s.m.phase == ReducePhase ==> k in s'.reduces
  {
    var i, idle;
    events', idle, i := GetsIdle(first, job, g, events, s);
    s', k := HandsOut(first, job, g, events', idle, i);
    events' := events' + [Assign];
  }

  // ----- a map task -----

  /** Worker 0 writes its parts, one after the other. */
  lemma {:induction false} WritesParts(first: System, job: Job, g: Guards, events: seq<Event>, s: System, k: nat,
                                       n: nat)
    returns (events': seq<Event>, s': System)
    requires At(first, job, g, events, s) && k in s.maps && n <= |s.m.reduceTasks|
    ensures At(first, job, g, events', s') && s'.m == s.m && s'.maps == s.maps
    ensures forall i: nat :: i < n ==> (0, k, i) in s'.parts
  {
    if n == 0 {
      events', s' := events, s;
    } else {
      events', s' := WritesParts(first, job, g, events, s, k, n - 1);
      var e := WritePart(0, k, n - 1);
      assert k < |s.m.mapTasks|;
      Goes(first, job, g, events', s', e);
      events', s' := events' + [e], Next(s', job, g, e);
    }
  }

  /** A map task more is finished. */
  lemma MapRound(first: System, job: Job, g: Guards, events: seq<Event>, s: System)
    returns (events': seq<Event>, s': System)
    requires At(first, job, g, events, s) && s.m.phase == MapPhase && s.m.mapTasks != []
    ensures At(first, job, g, events', s') && |s'.m.mapTasks| == |s.m.mapTasks|
    ensures if s.m.completedCnt + 1 < |s.m.mapTasks|
            then s'.m.phase == MapPhase && s'.m.completedCnt == s.m.completedCnt + 1
            else s'.m.phase == ReducePhase
  {
    var given, written, k;
    events', given, k := GivesOut(first, job, g, events, s);
    events', written := WritesParts(first, job, g, events', given, k, |given.m.reduceTasks|);
    var e := CommitMap(0, k);
    Goes(first, job, g, events', written, e);
    events', s' := events' + [e], Next(written, job, g, e);
  }

  lemma {:induction false} MapsFinish(first: System, job: Job, g: Guards, events: seq<Event>, s: System)
    returns (events': seq<Event>, s': System)
    requires At(first, job, g, events, s) && s.m.phase == MapPhase && s.m.mapTasks != []
    ensures At(first, job, g, events', s') && s'.m.phase == ReducePhase
    decreases |s.m.mapTasks| - s.m.completedCnt
  {
    events', s' := MapRound(first, job, g, events, s);
    if s'.m.phase == MapPhase {
      events', s' := MapsFinish(first, job, g, events', s');
    }
  }

  // ----- a reduce task -----

  lemma {:induction false} LastKey(keys: set<string>) returns (last: string)
    requires keys != {}
    ensures last in keys && forall key :: key in keys ==> key == last || Less(key, last)
  {
    last :| last in keys;
    if keys != {last} {
      var other := LastKey(keys - {last});
      LessTotal(last, other);
      if Less(last, other) {
        forall key | key in keys ensures key == other || Less(key, other) {
        }
        last := other;
      } else {
        forall key | key in keys && key != last ensures Less(key, last) {
          if key != other {
            LessTransitive(key, other, last);
          }
        }
      }
    }
  }

  /** Every column has an output. */
  lemma {:induction false} SomeOutput(kvs: seq<KeyValue>, f: Reducer, keys: set<string>) returns (ans: seq<KeyValue>)
    requires keys <= Keys(kvs)
    ensures StrictlyAscending(ans)
    ensures forall x {:trigger Emits(kvs, f, x)} {:trigger x in ans} :: x in ans <==> x.key in keys && Emits(kvs, f, x)
    decreases keys
  {
    if keys == {} {
      ans := [];
    } else {
      var last := LastKey(keys);
      var before := SomeOutput(kvs, f, keys - {last});
      ans := before + Result(last, Values(kvs, last), f);
      forall j, k | 0 <= j < k < |ans| ensures Before(ans[j], ans[k]) {
        if k < |before| {
          assert Before(before[j], before[k]);
        } else {
          assert before[j] in before;
        }
      }
    }
  }

  lemma OutputExists(files: seq<string>, f: Reducer) returns (content: string)
    ensures OutputOf(content, files, f)
  {
    var ans := SomeOutput(ReadColumn(files), f, Keys(ReadColumn(files)));
    content := Lines(ans);
    assert IsOutput(content, ReadColumn(files), f, ans);
  }

  /** Worker 0 reads the files of its column, one after the other. */
  lemma {:induction false} ReadsFiles(first: System, job: Job, g: Guards, events: seq<Event>, s: System, k: nat, n: nat)
    returns (events': seq<Event>, s': System)
    requires At(first, job, g, events, s) && k in s.reduces
    requires k < |s.m.reduceTasks| && n <= |s.m.reduceTasks[k].params|
    ensures At(first, job, g, events', s') && s'.m == s.m
    ensures (0, k) in s'.reading && |s'.reading[(0, k)]| == n
  {
    if n == 0 {
      Goes(first, job, g, events, s, StartReduce(0, k));
      events', s' := events + [StartReduce(0, k)], Next(s, job, g, StartReduce(0, k));
    } else {
      events', s' := ReadsFiles(first, job, g, events, s, k, n - 1);
      Goes(first, job, g, events', s', ReadNext(0, k));
      events', s' := events' + [ReadNext(0, k)], Next(s', job, g, ReadNext(0, k));
    }
  }

  lemma WritesOutput(first: System, job: Job, g: Guards, events: seq<Event>, s: System, k: nat)
    returns (events': seq<Event>, s': System)
    requires At(first, job, g, events, s) && k in s.reduces && k < |s.m.reduceTasks|
    ensures At(first, job, g, events', s') && s'.m == s.m && (0, k) in s'.written
  {
    var read;
    events', read := ReadsFiles(first, job, g, events, s, k, |s.m.reduceTasks[k].params|);
    var content := OutputExists(read.reading[(0, k)], job.f);
    var e := WriteOutput(0, k, content);
    Goes(first, job, g, events', read, e);
    events', s' := events' + [e], Next(read, job, g, e);
  }

  /** A reduce task more is finished. */
  lemma ReduceRound(first: System, job: Job, g: Guards, events: seq<Event>, s: System)
    returns (events': seq<Event>, s': System)
    requires At(first, job, g, events, s) && s.m.phase == ReducePhase
    ensures At(first, job, g, events', s') && |s'.m.reduceTasks| == |s.m.reduceTasks|
    ensures if s.m.completedCnt + 1 < |s.m.reduceTasks|
            then s'.m.phase == ReducePhase && s'.m.completedCnt == s.m.completedCnt + 1
            else s'.m.phase == CompletedPhase
  {
    var given, written, k;
    events', given, k := GivesOut(first, job, g, events, s);
    events', written := WritesOutput(first, job, g, events', given, k);
    var e := CommitReduce(0, k);
    Goes(first, job, g, events', written, e);
    events', s' := events' + [e], Next(written, job, g, e);
  }

  lemma {:induction false} ReducesFinish(first: System, job: Job, g: Guards, events: seq<Event>, s: System)
    returns (events': seq<Event>, s': System)
    requires At(first, job, g, events, s) && s.m.phase == ReducePhase
    ensures At(first, job, g, events', s') && s'.m.phase == CompletedPhase
    decreases |s.m.reduceTasks| - s.m.completedCnt
  {
    events', s' := ReduceRound(first, job, g, events, s);
    if s'.m.phase == ReducePhase {
      events', s' := ReducesFinish(first, job, g, events', s');
    }
  }

  // ----- the job -----

  ghost predicate Ends(s: System, job: Job, g: Guards, more: seq<Event>, s': System) {
    Ran(s, job, g, more, s') && s'.m.phase == CompletedPhase
  }

  /** Whatever has happened before, the job can be brought to its end. */
  lemma Finishes(s: System, job: Job, g: Guards) returns (more: seq<Event>, s': System)
    requires Core(s, job, g.g12) && g.g10 && g.g11 && s.m.mapTasks != []
    ensures Ran(s, job, g, more, s') && s'.m.phase == CompletedPhase
  {
    more, s' := [], s;
    if s'.m.phase == MapPhase {
      more, s' := MapsFinish(s, job, g, more, s');
    }
    if s'.m.phase == ReducePhase {
      more, s' := ReducesFinish(s, job, g, more, s');
    }
  }

  /** Without a file the master waits for ever. */
  lemma {:induction false} NoFilesNoEnd(first: System, job: Job, g: Guards, events: seq<Event>, s: System)
    requires Core(first, job, g.g12) && g.g10 && g.g11 && Ran(first, job, g, events, s)
    requires first.m.phase == MapPhase && first.m.mapTasks == []
    ensures s.m.phase == MapPhase
    decreases events
  {
    if events != [] {
      var next := Next(first, job, g, events[0]);
      NextKeeps(first, job, g, events[0]);
      StaysEmpty(first, job, g, events[0]);
      NoFilesNoEnd(next, job, g, events[1..], s);
    }
  }

  lemma StaysEmpty(s: System, job: Job, g: Guards, e: Event)
    requires Core(s, job, g.g12) && Possible(s, job, e) && s.m.phase == MapPhase && s.m.mapTasks == []
    ensures Next(s, job, g, e).m.phase == MapPhase && Next(s, job, g, e).m.mapTasks == []
  {
  }

  /** From every reachable state, after whatever losses, delays and repeats, the run can go on to the end of the job
      exactly if the job has a file. */
  lemma FinishesExactly(first: System, files: nat, n: nat, job: Job, g: Guards, events: seq<Event>, s: System)
    requires SetUp(first, files, n) && n > 0 && GoodJob(job, first.m) && g.g10 && g.g11
    requires Ran(first, job, g, events, s)
    ensures (exists more, s' :: Ends(s, job, g, more, s')) <==> files > 0
  {
    StartIsGood(first, files, n, job, g.g12);
    RunKeeps(first, job, g, events, s);
    if files > 0 {
      var more, s' := Finishes(s, job, g);
      assert Ends(s, job, g, more, s');
    } else {
      NoFilesNoEnd(first, job, g, events, s);
      forall more, s' | Ran(s, job, g, more, s') ensures !Ends(s, job, g, more, s') {
        NoFilesNoEnd(s, job, g, more, s');
      }
    }
  }
}
