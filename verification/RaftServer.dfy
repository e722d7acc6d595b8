/** One server of src/raft/raft.cpp as a value, and each region the source runs under raftLock_ as a function
    from server to server. RaftHandler.dfy proves the imperative handlers against these functions. */
module RaftServer {
  import opened RaftTypes
  import opened Median

  datatype Role = Follower | Candidate | Leader

  datatype Metadata = Metadata(term: nat, voteFor: Host)

  /** Why a server stopped: the LOG(FATAL) calls of the source. */
  datatype Fatal = Running | TwoLeaders | BadLogIndex

  /** How a follower checks the entry before the new ones (guard G2).
      LastEntry is the test the source makes, with the mismatch answered by a refusal;
      PrevEntry is the test the documentation prints, which also truncates, followed by a return. */
  datatype PrevCheck = LastEntry | PrevEntry

  datatype Server = Server(
    currentTerm: nat,
    votedFor: Host,
    logs: Log,
    commitIndex: nat,
    lastApplied: nat,
    nextIndex: seq<nat>,
    matchIndex: seq<nat>,
    role: Role,
    electionTerm: nat,       // params.term of the running election thread, 0 when there is none
    batch: seq<LogEntry>,    // logsForApply of the apply thread
    batchSize: nat,          // N of the apply thread
    applied: seq<LogEntry>,  // what the state machine was given since the last start
    disk: Metadata,          // the saved term and vote
    fatal: Fatal)

  datatype VoteParams = VoteParams(term: nat, candidateId: Host, lastLogIndex: nat, lastLogTerm: nat)

  datatype VoteResult = VoteResult(term: nat, voteGranted: bool)

  datatype AppendParams = AppendParams(
    term: nat, leaderId: Host, prevLogIndex: nat, prevLogTerm: nat, entries: seq<LogEntry>, leaderCommit: nat)

  datatype AppendResult = AppendResult(term: nat, success: bool)

  function Fill(n: nat, v: nat): seq<nat> {
    seq(n, _ => v)
  }

  function Fresh(peers: nat): Server {
    Server(0, NULL_HOST, [], 0, 0, Fill(peers, 0), Fill(peers, 0), Follower, 0, [], 0, [],
           Metadata(0, NULL_HOST), Running)
  }

  function Min(a: int, b: int): int {
    if a <= b then a else b
  }

  // ----- elections -----

  /** The rule the source states in its comment (guard G1): a voter refuses a log less up-to-date than its own. */
  predicate UpToDate(lastLogIndex: nat, lastLogTerm: nat, logs: Log) {
    LastTerm(logs) < lastLogTerm || (LastTerm(logs) == lastLogTerm && LastIndex(logs) <= lastLogIndex)
  }

  function SwitchToCandidate(s: Server): Server {
    s.(role := Candidate)
  }

  function StartElection(s: Server, me: Host): Server {
    s.(currentTerm := s.currentTerm + 1,
       votedFor := me,
       disk := Metadata(s.currentTerm + 1, me),
       electionTerm := s.currentTerm + 1)
  }

  function ElectionParams(s: Server, me: Host): VoteParams {
    VoteParams(s.currentTerm, me, LastIndex(s.logs), LastTerm(s.logs))
  }

  function AdoptTerm(s: Server, term: nat): Server {
    if term > s.currentTerm then s.(role := Follower, currentTerm := term, votedFor := NULL_HOST) else s
  }

  function RequestVote(s: Server, p: VoteParams): (Server, VoteResult) {
    var s := AdoptTerm(s, p.term);
    if p.term < s.currentTerm then
      (s, VoteResult(s.currentTerm, false))
    else if s.votedFor != NULL_HOST && s.votedFor != p.candidateId then
      (s, VoteResult(s.currentTerm, false))
    else if !UpToDate(p.lastLogIndex, p.lastLogTerm, s.logs) then  // G1
      (s, VoteResult(s.currentTerm, false))
    else
      (s.(votedFor := p.candidateId, disk := Metadata(s.currentTerm, p.candidateId)),
       VoteResult(s.currentTerm, true))
  }

  function SwitchToLeader(s: Server): Server {
    s.(role := Leader,
       nextIndex := Fill(|s.nextIndex|, LastIndex(s.logs) + 1),
       matchIndex := Fill(|s.matchIndex|, 0))
  }

  // ----- log replication, follower side -----

  /** Result of comparing new entries with the log, starting at entry i. */
  datatype Scanned = Present(i: nat) | Conflict(i: nat) | Unexpected

  function Scan(logs: Log, entries: seq<LogEntry>, i: nat): (r: Scanned)
    requires i <= |entries|
    ensures r.Present? ==> i <= r.i <= |entries|
    ensures r.Conflict? ==> i <= r.i < |entries|
    decreases |entries| - i
  {
    if i == |entries| || entries[i].index > LastIndex(logs) then Present(i)
    else
      match GetLog(logs, entries[i].index)
      case None => Unexpected
      case Some(e) =>
        if e.term != entries[i].term then Conflict(i) else Scan(logs, entries, i + 1)
  }

  /** The scan, truncate and append loops of appendEntries. */
  function Merge(logs: Log, entries: seq<LogEntry>): Option<Log> {
    match Scan(logs, entries, 0)
    case Present(i) => Some(logs + entries[i..])
    case Conflict(i) => Some(PopFrom(logs, entries[i].index) + entries[i..])
    case Unexpected => None
  }

  predicate PrevMatches(check: PrevCheck, logs: Log, prevLogIndex: nat, prevLogTerm: nat) {
    match check
    case LastEntry => prevLogTerm == LastTerm(logs)
    case PrevEntry =>
      prevLogTerm == (match GetLog(logs, prevLogIndex) case Some(e) => e.term case None => 0)
  }

  function UpdateCommitIndex(s: Server, newIndex: nat): Server {
    if newIndex > s.commitIndex then s.(commitIndex := newIndex) else s
  }

  /** The follower's log after the check of the previous entry and the merge, and whether it accepted;
      None is where the source stops. */
  function Follow(check: PrevCheck, logs: Log, p: AppendParams): (Option<Log>, bool) {
    if p.prevLogIndex > LastIndex(logs) then
      (Some(logs), false)
    else if !PrevMatches(check, logs, p.prevLogIndex, p.prevLogTerm) then  // G2
      (Some(if check == PrevEntry then PopFrom(logs, p.prevLogIndex) else logs), false)
    else
      (Merge(logs, p.entries), true)
  }

  function AppendEntries(check: PrevCheck, s: Server, p: AppendParams): (Server, AppendResult) {
    var term := s.currentTerm;
    if p.term < s.currentTerm then
      (s, AppendResult(term, false))
    else if p.term == s.currentTerm && s.role == Leader then
      (s.(fatal := TwoLeaders), AppendResult(term, false))
    else
      var s := s.(role := Follower,
                  votedFor := if p.term > s.currentTerm then NULL_HOST else s.votedFor,
                  currentTerm := p.term);
      match Follow(check, s.logs, p)
      case (None, _) => (s.(fatal := BadLogIndex), AppendResult(term, false))
      case (Some(logs), false) => (s.(logs := logs), AppendResult(term, false))
      case (Some(logs), true) =>
        var bound := Min(p.leaderCommit, p.prevLogIndex + |p.entries|);  // G3
        (UpdateCommitIndex(s.(logs := logs), bound), AppendResult(term, true))
  }

  // ----- log replication, leader side -----

  function Start(s: Server, command: string): Server {
    if s.role != Leader then s
    else s.(logs := s.logs + [LogEntry(s.currentTerm, command, LastIndex(s.logs) + 1)])
  }

  /** buildAppendEntriesParamsFor: a message without entries for peer i; None where the source stops. */
  function BuildParams(s: Server, me: Host, i: nat): Option<AppendParams>
    requires i < |s.nextIndex|
  {
    var next: int := s.nextIndex[i];
    var prev := next - 1;
    if s.logs != [] && prev >= s.logs[0].index then
      match GetLog(s.logs, prev)
      case Some(e) => Some(AppendParams(s.currentTerm, me, e.index, e.term, [], s.commitIndex))
      case None => None
    else
      Some(AppendParams(s.currentTerm, me, 0, 0, [], s.commitIndex))
  }

  /** Entries first, first + 1, ..., first + count - 1 of the log; None where the source stops. */
  function Slice(logs: Log, first: nat, count: nat): (r: Option<seq<LogEntry>>)
    ensures r.Some? ==> |r.value| == count
  {
    if count == 0 then Some([])
    else
      match (Slice(logs, first, count - 1), GetLog(logs, first + count - 1))
      case (Some(es), Some(e)) => Some(es + [e])
      case _ => None
  }

  lemma {:induction false} SliceOfLog(logs: Log, first: nat, count: nat)
    requires Consecutive(logs)
    ensures Slice(logs, first, count) ==
            if count == 0 then Some([])
            else if 1 <= first && first + count - 1 <= |logs| then Some(logs[first - 1..first - 1 + count])
            else None
  {
    if count > 0 {
      SliceOfLog(logs, first, count - 1);
      GetLogConsecutive(logs, first + count - 1);
      if 1 <= first && first + count - 1 <= |logs| {
        OneMoreEntry(logs, first - 1, first + count - 2);
      }
    }
  }

  lemma OneMoreEntry(logs: Log, from: nat, to: nat)
    requires from <= to < |logs|
    ensures logs[from..to + 1] == logs[from..to] + [logs[to]]
  {
  }

  /** gatherLogsFor: at most MAX_LOGS_PER_REQUEST entries from nextIndex_[i] on. */
  function GatherLogs(s: Server, i: nat): Option<seq<LogEntry>>
    requires i < |s.nextIndex|
  {
    var target := LastIndex(s.logs);
    if s.nextIndex[i] > target then Some([])
    else Slice(s.logs, s.nextIndex[i], Min(target - s.nextIndex[i] + 1, MAX_LOGS_PER_REQUEST))
  }

  /** The message async_replicateLogTo builds: the slice from nextIndex_[i] after its previous entry. */
  function BuildWithLogs(s: Server, me: Host, i: nat): Option<AppendParams>
    requires i < |s.nextIndex|
  {
    match (BuildParams(s, me, i), GatherLogs(s, i))
    case (Some(p), Some(es)) => Some(p.(entries := es))
    case _ => None
  }

  function HandleReplicateResult(s: Server, i: nat, prevLogIndex: nat, matchedIndex: nat, success: bool): Server
    requires i < |s.nextIndex| == |s.matchIndex|
  {
    if success then
      var s := s.(nextIndex := s.nextIndex[i := matchedIndex + 1], matchIndex := s.matchIndex[i := matchedIndex]);
      var agree := MiddleOf(s.matchIndex + [LastIndex(s.logs)]);
      if agree == s.commitIndex then s
      else
        match GetLog(s.logs, agree)
        case None => s.(fatal := BadLogIndex)
        case Some(e) => if e.term == s.currentTerm then UpdateCommitIndex(s, agree) else s
    else
      s.(nextIndex := s.nextIndex[i := Min(s.nextIndex[i], prevLogIndex)])
  }

  // ----- apply thread -----

  /** Copies at most 20 committed entries, entries lastApplied + 1 up to upto. */
  function GatherBatch(s: Server): Server {
    var upto := Min(s.lastApplied + 20, s.commitIndex);
    if upto <= s.lastApplied then s.(batch := [], batchSize := 0)
    else
      match Slice(s.logs, s.lastApplied + 1, upto - s.lastApplied)
      case None => s.(fatal := BadLogIndex)
      case Some(es) => s.(batch := es, batchSize := |es|)
  }

  function ApplyOne(s: Server): Server
    requires s.batch != []
  {
    s.(batch := s.batch[1..], applied := s.applied + [s.batch[0]])
  }

  function AdvanceApplied(s: Server): Server {
    s.(lastApplied := s.lastApplied + s.batchSize, batchSize := 0)
  }

  // ----- restart -----

  /** A new process: term and vote come from the saved metadata, the log from the chunk files. */
  function Restarted(s: Server, diskLogs: Log): Server {
    Fresh(|s.nextIndex|).(currentTerm := s.disk.term, votedFor := s.disk.voteFor, logs := diskLogs, disk := s.disk)
  }
}
