/** The handlers of src/raft/raft.cpp as they update the server in place, each proved against the function of
    RaftServer that the run-level proofs use. */
module RaftHandler {
  import opened RaftTypes
  import opened RaftServer
  import opened Median

  datatype StartCode = SUCCEED | ERR_WRONG_LEADER

  class RaftHandler {
    const me: Host
    const check: PrevCheck
    var currentTerm: nat
    var votedFor: Host
    var logs: Log
    var commitIndex: nat
    var lastApplied: nat
    var nextIndex: seq<nat>
    var matchIndex: seq<nat>
    var state: Role
    var electionTerm: nat
    var batch: seq<LogEntry>
    var batchSize: nat
    var applied: seq<LogEntry>
    var disk: Metadata
    var fatal: Fatal

    /** The server as a value. */
    function State(): Server
      reads this
    {
      Server(currentTerm, votedFor, logs, commitIndex, lastApplied, nextIndex, matchIndex, state, electionTerm,
             batch, batchSize, applied, disk, fatal)
    }

    constructor (peers: nat, me: Host, check: PrevCheck, disk: Metadata, diskLogs: Log)
      ensures this.me == me && this.check == check
      ensures State() == Restarted(Fresh(peers).(disk := disk), diskLogs)
    {
      this.me, this.check := me, check;
      currentTerm, votedFor, logs := disk.term, disk.voteFor, diskLogs;
      commitIndex, lastApplied := 0, 0;
      nextIndex, matchIndex := Fill(peers, 0), Fill(peers, 0);
      state, electionTerm := Follower, 0;
      batch, batchSize, applied := [], 0, [];
      this.disk, fatal := disk, Running;
    }

    method SaveTermAndVote(term: nat, host: Host)
      modifies this`disk
      ensures disk == Metadata(term, host)
    {
      disk := Metadata(term, host);
    }

    method RequestVote(p: VoteParams) returns (r: VoteResult)
      modifies this
      ensures (State(), r) == RaftServer.RequestVote(old(State()), p)
    {
      if p.term > currentTerm {
        state := Follower;
        currentTerm := p.term;
        votedFor := NULL_HOST;
      }
      if p.term < currentTerm {
        return VoteResult(currentTerm, false);
      }
      if p.term == currentTerm && votedFor != NULL_HOST && votedFor != p.candidateId {
        return VoteResult(currentTerm, false);
      }
      if !UpToDate(p.lastLogIndex, p.lastLogTerm, logs) {  // G1
        return VoteResult(currentTerm, false);
      }
      votedFor := p.candidateId;
      r := VoteResult(currentTerm, true);
      SaveTermAndVote(currentTerm, votedFor);
    }

    method StartElection() returns (p: VoteParams)
      modifies this
      ensures State() == RaftServer.StartElection(old(State()), me)
      ensures p == ElectionParams(State(), me)
    {
      currentTerm := currentTerm + 1;
      votedFor := me;
      SaveTermAndVote(currentTerm, votedFor);
      electionTerm := currentTerm;
      p := VoteParams(currentTerm, me, LastIndex(logs), LastTerm(logs));
    }

    method SwitchToLeader()
      modifies this
      ensures State() == RaftServer.SwitchToLeader(old(State()))
    {
      state := Leader;
      nextIndex := Fill(|nextIndex|, LastIndex(logs) + 1);
      matchIndex := Fill(|matchIndex|, 0);
    }

    /** Pops entries off the back while their index is at least i. */
    method PopLogsFrom(i: nat)
      modifies this`logs
      ensures logs == PopFrom(old(logs), i)
    {
      while logs != [] && logs[|logs| - 1].index >= i
        invariant PopFrom(logs, i) == PopFrom(old(logs), i)
        decreases |logs|
      {
        logs := logs[..|logs| - 1];
      }
    }

    /** The two loops of appendEntries: skip what is there, truncate at a conflict, append the rest. */
    method MergeEntries(entries: seq<LogEntry>) returns (ok: bool)
      modifies this`logs, this`fatal
      ensures ok == Merge(old(logs), entries).Some?
      ensures match Merge(old(logs), entries)
              case Some(merged) => logs == merged && fatal == old(fatal)
              case None => fatal == BadLogIndex && logs == old(logs)
    {
      ok := true;
      var i := 0;
      while i < |entries|
        invariant 0 <= i <= |entries| && logs == old(logs) && fatal == old(fatal)
        invariant Scan(logs, entries, i) == Scan(logs, entries, 0)
      {
        if entries[i].index > LastIndex(logs) {
          break;
        }
        match GetLog(logs, entries[i].index)
        case None =>
          fatal := BadLogIndex;
          return false;
        case Some(entry) =>
          if entries[i].term != entry.term {
            PopLogsFrom(entries[i].index);
            break;
          }
          i := i + 1;
      }
      assert Merge(old(logs), entries) == Some(logs + entries[i..]);
      ghost var base, first := logs, i;
      while i < |entries|
        invariant first <= i <= |entries| && logs == base + entries[first..i] && fatal == old(fatal)
      {
        logs := logs + [entries[i]];
        i := i + 1;
      }
      assert entries[first..i] == entries[first..];
    }

    method UpdateCommitIndex(newIndex: nat)
      modifies this`commitIndex
      ensures State() == RaftServer.UpdateCommitIndex(old(State()), newIndex)
    {
      if newIndex > commitIndex {
        commitIndex := newIndex;
      }
    }

    method AppendEntries(p: AppendParams) returns (r: AppendResult)
      modifies this
      ensures r == RaftServer.AppendEntries(check, old(State()), p).1
      ensures State() == RaftServer.AppendEntries(check, old(State()), p).0
    {
      r := AppendResult(currentTerm, false);
      if p.term < currentTerm {
        return;
      }
      if p.term == currentTerm && state != Follower {
        if state == Leader {
          fatal := TwoLeaders;
          return;
        }
        state := Follower;
      }
      if p.term > currentTerm {
        currentTerm := p.term;
        votedFor := NULL_HOST;
        state := Follower;
      }
      if p.prevLogIndex > LastIndex(logs) {
        return;
      }
      if !PrevMatches(check, logs, p.prevLogIndex, p.prevLogTerm) {  // G2
        if check == PrevEntry {
          PopLogsFrom(p.prevLogIndex);
        }
        return;
      }
      var ok := MergeEntries(p.entries);
      if !ok {
        return;
      }
      UpdateCommitIndex(Min(p.leaderCommit, p.prevLogIndex + |p.entries|));  // G3
      r := AppendResult(r.term, true);
    }

    method Start(command: string) returns (code: StartCode, expectedLogIndex: nat)
      modifies this
      ensures State() == RaftServer.Start(old(State()), command)
      ensures code == if old(state) == Leader then SUCCEED else ERR_WRONG_LEADER
      ensures code == SUCCEED ==> logs != [] && expectedLogIndex == LastIndex(logs) == old(LastIndex(logs)) + 1
    {
      expectedLogIndex := 0;
      if state != Leader {
        return ERR_WRONG_LEADER, expectedLogIndex;
      }
      var log := LogEntry(currentTerm, command, LastIndex(logs) + 1);
      logs := logs + [log];
      return SUCCEED, log.index;
    }

    /** gatherLogsFor, with the loop that copies one entry after the other. */
    method GatherLogsFor(peer: nat) returns (entries: seq<LogEntry>)
      requires peer < |nextIndex|
      modifies this`fatal
      ensures match GatherLogs(old(State()), peer)
              case Some(es) => entries == es && fatal == old(fatal)
              case None => fatal == BadLogIndex
    {
      entries := [];
      var target := LastIndex(logs);
      if nextIndex[peer] > target {
        return;
      }
      var logsNum := Min(target - nextIndex[peer] + 1, MAX_LOGS_PER_REQUEST);
      var j := 0;
      while j < logsNum
        invariant 0 <= j <= logsNum && fatal == old(fatal)
        invariant Slice(logs, nextIndex[peer], j) == Some(entries)
      {
        match GetLog(logs, j + nextIndex[peer])
        case None =>
          SliceStops(logs, nextIndex[peer], j + 1, logsNum);
          fatal := BadLogIndex;
          return;
        case Some(e) => entries := entries + [e];
          j := j + 1;
      }
    }

    method HandleReplicateResultFor(peer: nat, prevLogIndex: nat, matchedIndex: nat, success: bool)
      requires peer < |nextIndex| == |matchIndex|
      modifies this
      ensures State() == HandleReplicateResult(old(State()), peer, prevLogIndex, matchedIndex, success)
    {
      if success {
        nextIndex := nextIndex[peer := matchedIndex + 1];
        matchIndex := matchIndex[peer := matchedIndex];
        ghost var s := State();
        assert s == old(State()).(nextIndex := nextIndex, matchIndex := matchIndex);
        var matchI := matchIndex + [LastIndex(logs)];
        var agreeIndex := MiddleOf(matchI);
        if agreeIndex != commitIndex {
          match GetLog(logs, agreeIndex)
          case None => fatal := BadLogIndex;
          case Some(e) =>
            if e.term == currentTerm {
              UpdateCommitIndex(agreeIndex);
            }
        }
      } else {
        nextIndex := nextIndex[peer := Min(nextIndex[peer], prevLogIndex)];
      }
    }

    /** The first locked region of async_applyMsg: copy the next committed entries. */
    method GatherForApply()
      requires batchSize == 0
      modifies this
      ensures State() == GatherBatch(old(State()))
    {
      ghost var s := State();
      var upto := Min(lastApplied + 20, commitIndex);
      var queue: seq<LogEntry> := [];
      var i := lastApplied + 1;
      while i <= upto
        invariant State() == s
        invariant i == lastApplied + 1 + |queue| && (i <= upto + 1 || queue == [])
        invariant Slice(logs, lastApplied + 1, |queue|) == Some(queue)
        decreases upto + 1 - i
      {
        match GetLog(logs, i)
        case None =>
          SliceStops(logs, lastApplied + 1, |queue| + 1, upto - lastApplied);
          fatal := BadLogIndex;
          return;
        case Some(e) => queue := queue + [e];
          i := i + 1;
      }
      batch, batchSize := queue, |queue|;
    }

    /** The unlocked loop body of async_applyMsg: hand one entry to the state machine. */
    method ApplyNext() returns (entry: LogEntry)
      requires batch != []
      modifies this
      ensures State() == ApplyOne(old(State())) && entry == old(batch)[0]
    {
      entry := batch[0];
      batch := batch[1..];
      applied := applied + [entry];
    }

    method FinishApply()
      modifies this
      ensures State() == AdvanceApplied(old(State()))
    {
      lastApplied := lastApplied + batchSize;
      batchSize := 0;
    }

    /** The apply thread has caught up with its own count and is between two batches. */
    ghost predicate Between()
      reads this
    {
      && batch == [] && batchSize == 0 && Consecutive(logs)
      && lastApplied <= commitIndex <= |logs| && applied == logs[..lastApplied]
    }

    /** The loop of lines 759-768. */
    method ApplyQueue()
      modifies this
      ensures State() == old(State()).(batch := [], applied := old(applied) + old(batch))
    {
      while batch != []
        invariant State() == old(State()).(batch := batch, applied := applied)
        invariant applied + batch == old(applied) + old(batch)
        decreases |batch|
      {
        var _ := ApplyNext();
      }
      assert applied == old(applied) + old(batch);
    }

    /** One turn of the loop of lines 745-774: up to twenty entries, and none only if all committed ones are applied. */
    method ApplyBatch() returns (more: bool)
      requires Between()
      modifies this
      ensures Between() && more == (old(lastApplied) < commitIndex)
      ensures State() == old(State()).(lastApplied := lastApplied, applied := applied)
      ensures lastApplied == Min(old(lastApplied) + 20, commitIndex)
    {
      SliceOfLog(logs, lastApplied + 1, Min(lastApplied + 20, commitIndex) - lastApplied);
      GatherForApply();
      if batch == [] {
        return false;
      }
      ApplyQueue();
      FinishApply();
      return true;
    }

    /** That loop, when nothing is committed meanwhile: the state machine is given exactly the committed entries. */
    method ApplyCommitted()
      requires Between()
      modifies this
      ensures Between()
      ensures State() == old(State()).(lastApplied := commitIndex, applied := logs[..commitIndex])
    {
      var more := true;
      while more
        invariant Between() && State() == old(State()).(lastApplied := lastApplied, applied := applied)
        invariant !more ==> lastApplied == commitIndex
        decreases commitIndex - lastApplied, if more then 1 else 0
      {
        more := ApplyBatch();
      }
    }
  }

  /** A slice that cannot be taken up to n cannot be taken further. */
  lemma {:induction false} SliceStops(logs: Log, first: nat, n: nat, count: nat)
    requires n <= count && Slice(logs, first, n) == None
    ensures Slice(logs, first, count) == None
  {
    if n < count {
      SliceStops(logs, first, n, count - 1);
    }
  }
}
