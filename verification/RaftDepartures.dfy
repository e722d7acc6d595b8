/** Where the source does something else than its comments, its documentation or the Raft paper say: what it does
    as written, an input on which that fails, and exactly when it does not matter. */
module RaftDepartures {
  import opened RaftTypes
  import opened RaftServer
  import opened RaftMerge
  import opened Median

  // ----- G1: the vote check logs and goes on (src/raft/raft.cpp:132-140) -----

  function RequestVoteAsWritten(s: Server, p: VoteParams): (Server, VoteResult) {
    var s := AdoptTerm(s, p.term);
    if p.term < s.currentTerm || (s.votedFor != NULL_HOST && s.votedFor != p.candidateId) then
      (s, VoteResult(s.currentTerm, false))
    else
      (s.(votedFor := p.candidateId, disk := Metadata(s.currentTerm, p.candidateId)),
       VoteResult(s.currentTerm, true))
  }

  /** The source answers as the stated rule would exactly when the request is of an old term, the vote of its term is
      given to somebody else, or the candidate's log is up-to-date. */
  lemma VoteAsWritten(s: Server, p: VoteParams)
    ensures RequestVoteAsWritten(s, p) == RequestVote(s, p) <==>
              || p.term < s.currentTerm
              || (p.term == s.currentTerm && s.votedFor != NULL_HOST && s.votedFor != p.candidateId)
              || UpToDate(p.lastLogIndex, p.lastLogTerm, s.logs)
    ensures RequestVote(s, p).1.voteGranted <==>
              RequestVoteAsWritten(s, p).1.voteGranted && UpToDate(p.lastLogIndex, p.lastLogTerm, s.logs)
  {
  }

  /** A voter with an entry of term 1 votes for a candidate with an empty log. */
  lemma VoteAsWrittenFails(candidate: Host, command: string)
    ensures var s := Fresh(2).(logs := [LogEntry(1, command, 1)], currentTerm := 1);
      var p := VoteParams(2, candidate, 0, 0);
      RequestVoteAsWritten(s, p).1.voteGranted && !UpToDate(p.lastLogIndex, p.lastLogTerm, s.logs)
  {
  }

  // ----- what a message has to do with its leader's log -----

  /** The message is a slice of the leader's log, which the follower shares up to prevLogIndex, and where both logs have
      an entry of one index and term they agree up to it: what the check of the previous entry and log matching give. */
  ghost predicate FromLeader(logs: Log, leader: Log, p: AppendParams) {
    && Fits(logs, p.prevLogIndex, p.entries)
    && p.prevLogIndex + |p.entries| <= |leader| && p.leaderCommit <= |leader|
    && p.entries == leader[p.prevLogIndex..p.prevLogIndex + |p.entries|]
    && logs[..p.prevLogIndex] == leader[..p.prevLogIndex]
    && Matching(logs, leader)
  }

  ghost predicate Matching(a: Log, b: Log) {
    forall i {:trigger a[i].term} :: 0 <= i < |a| && i < |b| && a[i].term == b[i].term ==> a[..i + 1] == b[..i + 1]
  }

  lemma MatchingEntry(a: Log, b: Log, i: nat)
    requires Matching(a, b) && i < |a| && i < |b| && a[i].term == b[i].term
    ensures a[i] == b[i]
  {
    assert a[i] == a[..i + 1][i] && b[i] == b[..i + 1][i];
  }

  // ----- G2: the mismatch branch truncates and goes on (src/raft/raft.cpp:185-214) -----

  function FollowAsWritten(logs: Log, p: AppendParams): Option<Log> {
    Merge(if p.prevLogTerm != LastTerm(logs) then PopFrom(logs, p.prevLogIndex) else logs, p.entries)
  }

  /** The source keeps the log up to prevLogIndex exactly when its test passes or there is nothing to keep;
      otherwise it drops the entry at prevLogIndex and puts the new entries in its place. */
  lemma FollowAsWrittenKeeps(logs: Log, p: AppendParams)
    requires Fits(logs, p.prevLogIndex, p.entries)
    ensures FollowAsWritten(logs, p).Some?
    ensures logs[..p.prevLogIndex] <= FollowAsWritten(logs, p).value <==>
              p.prevLogTerm == LastTerm(logs) || p.prevLogIndex == 0
  {
    var prev := p.prevLogIndex;
    if p.prevLogTerm == LastTerm(logs) {
      var merged := MergeAgrees(logs, prev, p.entries);
    } else if prev == 0 {
      PopAll(logs);
      var merged := MergeAgrees([], 0, p.entries);
    } else {
      var short := logs[..prev - 1];
      ShortOfPrev(logs, p);
      if p.entries != [] {
        assert (short + p.entries)[prev - 1] == p.entries[0];
        assert logs[..prev][prev - 1] == logs[prev - 1];
      }
    }
  }

  lemma {:induction false} PopAll(logs: Log)
    ensures PopFrom(logs, 0) == []
  {
    if logs != [] {
      PopAll(logs[..|logs| - 1]);
    }
  }

  /** Merging the first entries of the leader's log: they replace the whole log, unless the log is longer and agrees. */
  lemma MergeFromStart(logs: Log, leader: Log, p: AppendParams)
    requires FromLeader(logs, leader, p) && p.prevLogIndex == 0
    ensures Merge(logs, p.entries) == Some(p.entries) <==>
              |logs| <= |p.entries| || !NoConflict(logs, 0, p.entries)
  {
    var merged := MergeAgrees(logs, 0, p.entries);
    CoveredFromLeader(logs, leader, p, merged);
    MergedLength(logs, 0, p.entries, merged);
    assert leader[0..|p.entries|] == leader[..|p.entries|] == p.entries;
    assert merged[..|merged|] == merged;
  }

  /** On a log that agrees with the leader's up to prevLogIndex, the source does what a plain merge does exactly when
      its test passes, or the message starts at the first entry and either reaches the end of the log or conflicts
      with it. In every other case it drops entries that nothing conflicts with. */
  lemma FollowAsWrittenExact(logs: Log, leader: Log, p: AppendParams)
    requires FromLeader(logs, leader, p)
    ensures FollowAsWritten(logs, p) == Merge(logs, p.entries) <==>
              || p.prevLogTerm == LastTerm(logs)
              || (p.prevLogIndex == 0 && (|logs| <= |p.entries| || !NoConflict(logs, 0, p.entries)))
  {
    if p.prevLogTerm != LastTerm(logs) {
      if p.prevLogIndex == 0 {
        PopAll(logs);
        var none: Log := [];
        assert Scan(none, p.entries, 0) == Present(0) && none + p.entries[0..] == p.entries;
        MergeFromStart(logs, leader, p);
      } else {
        var merged := MergeAgrees(logs, p.prevLogIndex, p.entries);
        ShortOfPrev(logs, p);
      }
    }
  }

  /** What the mismatch branch leaves when there is a previous entry. */
  lemma ShortOfPrev(logs: Log, p: AppendParams)
    requires Fits(logs, p.prevLogIndex, p.entries) && p.prevLogIndex > 0 && p.prevLogTerm != LastTerm(logs)
    ensures FollowAsWritten(logs, p) == Some(logs[..p.prevLogIndex - 1] + p.entries)
  {
    var short := logs[..p.prevLogIndex - 1];
    PopFromConsecutive(logs, p.prevLogIndex);
    assert LastIndex(short) == p.prevLogIndex - 1 by {
      if short != [] { assert short[p.prevLogIndex - 2].index == p.prevLogIndex - 1; }
    }
    assert Scan(short, p.entries, 0) == Present(0);
  }

  /** A heartbeat for entry 1 of a log the follower holds in full erases all of it. */
  lemma FollowAsWrittenFails(leader: Host, command: string)
    ensures var logs := [LogEntry(1, command, 1), LogEntry(2, command, 2)];
      FollowAsWritten(logs, AppendParams(3, leader, 1, 1, [], 0)) == Some([])
  {
    var logs := [LogEntry(1, command, 1), LogEntry(2, command, 2)];
    PopFromConsecutive(logs, 1);
    assert logs[..0] == [];
    var none: Log := [];
    assert none + none[0..] == none;
    assert Merge(none, none) == Some(none);
  }

  // ----- G3: the follower's commit bound (src/raft/raft.cpp:216) -----

  /** The commit index the source sets after the merge. */
  function BoundAsWritten(p: AppendParams, merged: Log): int {
    Min(p.leaderCommit, LastIndex(merged))
  }

  lemma CoveredFromLeader(logs: Log, leader: Log, p: AppendParams, merged: Log)
    requires FromLeader(logs, leader, p) && Holds(logs, p.prevLogIndex, p.entries, merged)
    ensures merged[..p.prevLogIndex + |p.entries|] == leader[..p.prevLogIndex + |p.entries|]
  {
    var prev := p.prevLogIndex;
    forall i | 0 <= i < prev + |p.entries| ensures merged[i] == leader[i] {
      if i < prev {
        assert merged[..prev][i] == logs[..prev][i] == leader[..prev][i];
      } else {
        assert merged[prev + (i - prev)].term == p.entries[i - prev].term && p.entries[i - prev] == leader[i];
        if merged[i] != leader[i] {
          MatchingEntry(logs, leader, i);
        }
      }
    }
  }

  /** Beyond the message the merged log has the follower's own entries, if there were more and nothing conflicted. */
  lemma MergedLength(logs: Log, prev: nat, entries: seq<LogEntry>, merged: Log)
    requires Fits(logs, prev, entries) && Merge(logs, entries) == Some(merged)
    ensures var covered := prev + |entries|;
      && |merged| == (if NoConflict(logs, prev, entries) && |logs| > covered then |logs| else covered)
      && (|merged| > covered ==> merged == logs)
  {
    var k := ConflictOrNot(logs, prev, entries);
    if k.Some? {
      MergeReplaces(logs, prev, entries, k.value);
      assert !NoConflict(logs, prev, entries);
    } else {
      MergeExtends(logs, prev, entries);
    }
  }

  /** With G3 a follower only commits entries the leader has. As written it does so exactly when the leader has
      committed nothing beyond the message, the follower's log is no longer than that, the message conflicts with the
      log, or the last entry that gets committed has the term that the leader has there. */
  lemma BoundAsWrittenExact(logs: Log, leader: Log, p: AppendParams)
    requires FromLeader(logs, leader, p)
    ensures Merge(logs, p.entries).Some?
    ensures var merged, covered := Merge(logs, p.entries).value, p.prevLogIndex + |p.entries|;
      && 0 <= Min(p.leaderCommit, covered) <= |merged| && merged[..Min(p.leaderCommit, covered)] <= leader
      && 0 <= BoundAsWritten(p, merged) <= |merged|
      && (merged[..BoundAsWritten(p, merged)] <= leader <==>
            || p.leaderCommit <= covered || |logs| <= covered || !NoConflict(logs, p.prevLogIndex, p.entries)
            || TermAt(logs, Min(p.leaderCommit, |logs|)) == TermAt(leader, Min(p.leaderCommit, |logs|)))
  {
    var merged := MergeAgrees(logs, p.prevLogIndex, p.entries);
    GetLogConsecutive(merged, 1);
    CoveredFromLeader(logs, leader, p, merged);
    MergedLength(logs, p.prevLogIndex, p.entries, merged);
    var covered, bound := p.prevLogIndex + |p.entries|, BoundAsWritten(p, merged);
    ShorterPrefix(merged, leader, covered, Min(p.leaderCommit, covered));
    if bound <= covered {
      ShorterPrefix(merged, leader, covered, bound);
    } else {
      LastTermDecides(logs, leader, bound);
    }
  }

  lemma ShorterPrefix(a: Log, b: Log, n: nat, bound: nat)
    requires bound <= n <= |a| && n <= |b| && a[..n] == b[..n]
    ensures a[..bound] <= b
  {
    assert a[..bound] == a[..n][..bound] && b[..bound] == b[..n][..bound];
  }

  lemma LastTermDecides(a: Log, b: Log, n: nat)
    requires Matching(a, b) && 0 < n <= |a| && n <= |b|
    ensures a[..n] <= b <==> TermAt(a, n) == TermAt(b, n)
  {
    if TermAt(a, n) == TermAt(b, n) {
      assert a[n - 1].term == b[n - 1].term;
    } else {
      assert a[..n][n - 1] == a[n - 1];
    }
  }

  /** A heartbeat passes the source's test and commits entry 2 of a follower that has another entry there than the
      leader. */
  lemma BoundAsWrittenFails(sender: Host, x: string, y: string)
    ensures var leader := [LogEntry(1, x, 1), LogEntry(3, y, 2)];
      var logs := [LogEntry(1, x, 1), LogEntry(1, x, 2)];
      var p := AppendParams(3, sender, 1, TermAt(leader, 1), [], 2);
      && PrevMatches(LastEntry, logs, p.prevLogIndex, p.prevLogTerm) && Merge(logs, p.entries) == Some(logs)
      && BoundAsWritten(p, logs) == 2 && logs[1] != leader[1]
  {
    var logs := [LogEntry(1, x, 1), LogEntry(1, x, 2)];
    assert logs + [] == logs;
  }

  // ----- log indices the source cannot look up (src/raft/raft.cpp:368-375) -----

  /** A successful reply makes the leader look up entry 0, and stop, exactly when a majority has matched nothing of
      its log yet while it already has a commit index: a new leader in an established cluster. */
  lemma ReplyStopsLeader(s: Server, i: nat, prev: nat, matched: nat)
    requires Consecutive(s.logs) && i < |s.nextIndex| == |s.matchIndex| && s.fatal == Running
    requires matched <= |s.logs| && forall j :: 0 <= j < |s.matchIndex| ==> s.matchIndex[j] <= |s.logs|
    ensures HandleReplicateResult(s, i, prev, matched, true).fatal == BadLogIndex <==>
              MiddleOf(s.matchIndex[i := matched] + [|s.logs|]) == 0 && s.commitIndex > 0
  {
    var vals := s.matchIndex[i := matched] + [|s.logs|];
    GetLogConsecutive(s.logs, MiddleOf(vals));
    if MiddleOf(vals) > |s.logs| {
      MiddleIsReached(vals);
      CountNone(vals, MiddleOf(vals));
    }
  }

  lemma MiddleIsReached(s: seq<nat>)
    requires s != []
    ensures CountAtLeast(s, MiddleOf(s)) > 0
  {
    SortedContents(s);
    CountFrom(Sorted(s), |s| / 2, MiddleOf(s));
    CountOfRearrangement(s, Sorted(s), MiddleOf(s));
  }

  /** With three servers the first success puts the middle at 1 or more. */
  lemma ThreeServersNeverStop(s: Server, i: nat, prev: nat, matched: nat)
    requires Consecutive(s.logs) && |s.nextIndex| == |s.matchIndex| == 2 && i < 2 && s.fatal == Running
    requires 0 < matched <= |s.logs| && forall j :: 0 <= j < |s.matchIndex| ==> s.matchIndex[j] <= |s.logs|
    ensures HandleReplicateResult(s, i, prev, matched, true).fatal == Running
  {
    var m := s.matchIndex[i := matched];
    var vals := m + [|s.logs|];
    ReplyStopsLeader(s, i, prev, matched);
    CountWithout(m, i, 1);
    CountConcat(m, [|s.logs|], 1);
    CountAll([|s.logs|], 1);
    assert CountAtLeast(vals, 1) >= 2;
    if MiddleOf(vals) == 0 {
      NothingAboveMiddle(vals, 1);
    }
  }

  /** A leader that builds a message with entries stops exactly when refusals have driven nextIndex to 0. */
  lemma SendStopsLeader(s: Server, me: Host, i: nat)
    requires Consecutive(s.logs) && i < |s.nextIndex| && s.nextIndex[i] <= |s.logs| + 1
    ensures BuildWithLogs(s, me, i) == None <==> s.nextIndex[i] == 0
  {
    var next: int := s.nextIndex[i];
    GetLogConsecutive(s.logs, next - 1);
    if next <= |s.logs| {
      SliceOfLog(s.logs, next, Min(|s.logs| - next + 1, MAX_LOGS_PER_REQUEST));
    }
  }
}
