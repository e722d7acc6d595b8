/** Where a server can stop in a run whose restarts lose nothing, and the read one past the end of the log that the
    lookup lets through (src/raft/raft.cpp:160-163, 368-375). */
module RaftStops {
  import opened RaftTypes
  import opened RaftServer
  import opened RaftCluster
  import opened RaftElection
  import opened RaftMerge
  import opened RaftLogs
  import opened RaftLogInv
  import opened RaftLogSteps
  import opened RaftKeeping
  import opened RaftCommit
  import opened RaftSafety
  import opened RaftDepartures
  import opened Median

  // ----- what the source keeps about nextIndex -----

  /** At most one past the log, and 0 only if there is a log. */
  predicate InRange(logs: Log, next: nat) {
    next <= |logs| + 1 && (next == 0 ==> logs != [])
  }

  predicate NextOk(s: Server) {
    s.role == Leader ==> forall i :: 0 <= i < |s.nextIndex| ==> InRange(s.logs, s.nextIndex[i])
  }

  /** A reply is about entries that the leader of its term has. */
  predicate ReplyOk(ll: LeaderLogs, m: Message) {
    m.AppendReply? ==> m.term in ll && m.prevLogIndex + m.count <= |ll[m.term]|
  }

  ghost predicate NextInv(st: Cluster) {
    && (forall h {:trigger NextOk(st.servers[h])} :: h in st.servers ==> NextOk(st.servers[h]))
    && (forall m {:trigger ReplyOk(st.leaderLogs, m)} :: m in st.net ==> ReplyOk(st.leaderLogs, m))
  }

  predicate NextKept(o: Server, s: Server) {
    s.role == Leader ==> o.role == Leader && s.nextIndex == o.nextIndex && o.logs <= s.logs
  }

  ghost predicate OnlyOldReplies(net: set<Message>, net': set<Message>) {
    forall m {:trigger m in net'} :: m in net' && m.AppendReply? ==> m in net
  }

  lemma NextStays(o: Server, s: Server)
    requires NextOk(o) && NextKept(o, s)
    ensures NextOk(s)
  {
  }

  lemma EvolutionKeepsNext(c: Config, st: Cluster, h: Host, st': Cluster)
    requires NextInv(st) && Evolves(c, st, h, st') && NextOk(st'.servers[h])
    requires forall m {:trigger ReplyOk(st'.leaderLogs, m)} ::
               m in st'.net && m !in st.net ==> ReplyOk(st'.leaderLogs, m)
    ensures NextInv(st')
  {
    forall k | k in st'.servers ensures NextOk(st'.servers[k]) {
      assert k != h ==> st'.servers[k] == st.servers[k];
    }
    forall m | m in st'.net ensures ReplyOk(st'.leaderLogs, m) {
      assert m in st.net ==> ReplyOk(st.leaderLogs, m);
    }
  }

  /** Steps that neither touch nextIndex nor reply to entries. */
  lemma QuietKeepsNext(c: Config, st: Cluster, h: Host, st': Cluster)
    requires NextInv(st) && h in st.servers && Evolves(c, st, h, st')
    requires NextKept(st.servers[h], st'.servers[h]) && OnlyOldReplies(st.net, st'.net)
    ensures NextInv(st')
  {
    NextStays(st.servers[h], st'.servers[h]);
    EvolutionKeepsNext(c, st, h, st');
  }

  lemma WinKeepsNext(c: Config, st: Cluster, h: Host, voters: set<Host>, st': Cluster)
    requires NextInv(st) && LogInv(c, st) && h in c.members && Evolves(c, st, h, st')
    requires st' == AfterWin(st, h, voters, SwitchToLeader(st.servers[h]))
    ensures NextInv(st')
  {
    assert ServerLogOk(st.leaderLogs, st.candidateLogs, st.matched, h, st.servers[h]);
    RootedConsecutive(st.leaderLogs, st.servers[h].logs);
    EvolutionKeepsNext(c, st, h, st');
  }

  lemma BeginKeepsNext(c: Config, st: Cluster, h: Host, s: Server, st': Cluster)
    requires NextInv(st) && h in c.peers && Evolves(c, st, h, st') && st.servers[h].role == Candidate
    requires s == StartElection(st.servers[h], h) && st' == AfterBegin(c, st, h, s)
    ensures NextInv(st')
  {
    QuietKeepsNext(c, st, h, st');
  }

  lemma VoteKeepsNext(c: Config, st: Cluster, h: Host, p: VoteParams, s: Server, r: VoteResult, st': Cluster)
    requires NextInv(st) && h in st.servers && Evolves(c, st, h, st')
    requires RequestVote(st.servers[h], p) == (s, r) && st' == AfterVote(st, h, p, s, r.voteGranted)
    ensures NextInv(st')
  {
    QuietKeepsNext(c, st, h, st');
  }

  lemma VotingKeepsNext(c: Config, st: Cluster, step: Step, st': Cluster)
    requires ValidConfig(c) && NextInv(st) && LogInv(c, st) && Enabled(c, st, step) && st' == Do(c, st, step)
    requires step.BeginElection? || step.DeliverVoteRequest? || step.WinElection?
    requires Evolves(c, st, Actor(step), st')
    ensures NextInv(st')
  {
    var h := Actor(step);
    if step.BeginElection? {
      BeginKeepsNext(c, st, h, StartElection(st.servers[h], h), st');
    } else if step.DeliverVoteRequest? {
      var (s, r) := RequestVote(st.servers[h], step.m.vote);
      VoteKeepsNext(c, st, h, step.m.vote, s, r, st');
    } else {
      WinKeepsNext(c, st, h, step.voters, st');
    }
  }

  lemma SendKeepsNext(c: Config, st: Cluster, h: Host, to: Host, p: Option<AppendParams>, st': Cluster)
    requires NextInv(st) && h in st.servers && Evolves(c, st, h, st') && st' == AfterSend(st, h, to, p)
    ensures NextInv(st')
  {
    QuietKeepsNext(c, st, h, st');
  }

  lemma StartKeepsNext(c: Config, st: Cluster, h: Host, command: string, st': Cluster)
    requires NextInv(st) && h in st.servers && Evolves(c, st, h, st')
    requires st' == AfterStart(st, h, Start(st.servers[h], command))
    ensures NextInv(st')
  {
    QuietKeepsNext(c, st, h, st');
  }

  lemma AppendKeepsNext(c: Config, st: Cluster, h: Host, p: AppendParams, s: Server, success: bool, st': Cluster)
    requires ElectionInv(c, st) && LogInv(c, st) && NextInv(st) && AppendRequest(h, p) in st.net && h in c.members
    requires st' == AfterAppend(st, h, p, s, success) && Evolves(c, st, h, st')
    requires if p.term < st.servers[h].currentTerm then s == st.servers[h] else s.role == Follower
    ensures NextInv(st')
  {
    assert MessageLogOk(st.leaderLogs, st.candidateLogs, st.matched, AppendRequest(h, p));
    assert NextOk(st.servers[h]);
    EvolutionKeepsNext(c, st, h, st');
  }

  lemma AppendStepKeepsNext(c: Config, st: Cluster, step: Step, st': Cluster)
    requires ValidConfig(c) && ElectionInv(c, st) && LogInv(c, st) && NextInv(st) && Enabled(c, st, step)
    requires step.DeliverAppendRequest? && st' == Do(c, st, step) && Evolves(c, st, Actor(step), st')
    ensures NextInv(st')
  {
    var h, p := step.m.to, step.m.append;
    var (s, r) := AppendEntries(c.check, st.servers[h], p);
    NoRival(c, st, h, p);
    AppendFacts(c.check, st.servers[h], p);
    AppendKeepsNext(c, st, h, p, s, r.success, st');
  }

  /** The leader has what a reply of its term is about. */
  lemma ReplyIsInside(c: Config, st: Cluster, m: Message)
    requires LogInv(c, st) && NextInv(st) && m in st.net && m.AppendReply? && m.to in c.members
    requires st.servers[m.to].role == Leader && st.servers[m.to].currentTerm == m.term
    ensures m.prevLogIndex + m.count <= |st.servers[m.to].logs|
  {
    assert ServerLogOk(st.leaderLogs, st.candidateLogs, st.matched, m.to, st.servers[m.to]);
    assert ReplyOk(st.leaderLogs, m);
  }

  lemma ReplyNext(s: Server, i: nat, prev: nat, count: nat, success: bool)
    requires NextOk(s) && i < |s.nextIndex| == |s.matchIndex| && prev + count <= |s.logs| && count > 0
    ensures NextOk(HandleReplicateResult(s, i, prev, prev + count, success))
  {
  }

  lemma ReplyKeepsNext(c: Config, st: Cluster, m: Message, peer: nat, s: Server, st': Cluster)
    requires LogInv(c, st) && NextInv(st) && Enabled(c, st, DeliverAppendReply(m, peer))
    requires s == HandleReplicateResult(st.servers[m.to], peer, m.prevLogIndex, m.prevLogIndex + m.count, m.success)
    requires st' == SetServer(st, m.to, s) && Evolves(c, st, m.to, st')
    ensures NextInv(st')
  {
    ReplyIsInside(c, st, m);
    assert NextOk(st.servers[m.to]);
    ReplyNext(st.servers[m.to], peer, m.prevLogIndex, m.count, m.success);
    EvolutionKeepsNext(c, st, m.to, st');
  }

  lemma QuietLocal(c: Config, st: Cluster, step: Step)
    requires Enabled(c, st, step) && IsLocal(step) && !step.DeliverAppendReply?
    ensures NextKept(st.servers[Actor(step)], LocalResult(c, st, step))
  {
  }

  lemma ServerKeepsNext(c: Config, st: Cluster, h: Host, s: Server, st': Cluster)
    requires NextInv(st) && h in st.servers && st' == SetServer(st, h, s) && Evolves(c, st, h, st')
    requires NextKept(st.servers[h], s)
    ensures NextInv(st')
  {
    QuietKeepsNext(c, st, h, st');
  }

  lemma LocalKeepsNext(c: Config, st: Cluster, step: Step, h: Host, s: Server, st': Cluster)
    requires LogInv(c, st) && NextInv(st) && Enabled(c, st, step) && IsLocal(step)
    requires h == Actor(step) && s == LocalResult(c, st, step)
    requires st' == SetServer(st, h, s) && Evolves(c, st, h, st')
    ensures NextInv(st')
  {
    if step.DeliverAppendReply? {
      ReplyKeepsNext(c, st, step.m, step.peer, s, st');
    } else {
      QuietLocal(c, st, step);
      ServerKeepsNext(c, st, h, s, st');
    }
  }

  lemma DoesLocally(c: Config, st: Cluster, step: Step, st': Cluster)
    requires ValidConfig(c) && st.servers.Keys == c.members && Enabled(c, st, step) && IsLocal(step)
    requires st' == Do(c, st, step)
    ensures st' == SetServer(st, Actor(step), LocalResult(c, st, step))
  {
  }

  lemma LocalStepKeepsNext(c: Config, st: Cluster, step: Step, st': Cluster)
    requires ValidConfig(c) && st.servers.Keys == c.members
    requires LogInv(c, st) && NextInv(st) && Enabled(c, st, step) && IsLocal(step)
    requires st' == Do(c, st, step) && Evolves(c, st, Actor(step), st')
    ensures NextInv(st')
  {
    DoesLocally(c, st, step, st');
    LocalKeepsNext(c, st, step, Actor(step), LocalResult(c, st, step), st');
  }

  lemma LogStepKeepsNext(c: Config, st: Cluster, step: Step, st': Cluster)
    requires ValidConfig(c) && SafeInv(c, st) && NextInv(st) && Enabled(c, st, step)
    requires step.SendHeartbeat? || step.SendLogs? || step.ClientStart? || step.DeliverAppendRequest?
    requires st' == Do(c, st, step) && Evolves(c, st, Actor(step), st')
    ensures NextInv(st')
  {
    if step.DeliverAppendRequest? {
      AppendStepKeepsNext(c, st, step, st');
    } else if step.ClientStart? {
      StartKeepsNext(c, st, step.h, step.command, st');
    } else {
      var p := SendFacts(c, st, step);
      SendKeepsNext(c, st, step.h, c.peers[step.h][step.peer], p, st');
    }
  }

  lemma StepKeepsNext(c: Config, st: Cluster, step: Step, st': Cluster)
    requires ValidConfig(c) && SafeInv(c, st) && NextInv(st) && Enabled(c, st, step)
    requires st' == Do(c, st, step) && Evolves(c, st, Actor(step), st')
    ensures NextInv(st')
  {
    if IsLocal(step) {
      LocalStepKeepsNext(c, st, step, st');
    } else if step.BeginElection? || step.DeliverVoteRequest? || step.WinElection? {
      VotingKeepsNext(c, st, step, st');
    } else {
      LogStepKeepsNext(c, st, step, st');
    }
  }

  lemma {:induction false} RunKeepsNext(c: Config, steps: seq<Step>, st: Cluster)
    requires ValidConfig(c) && |c.members| % 2 == 1 && IsRun(c, steps, false, st)
    ensures SafeInv(c, st) && NextInv(st)
  {
    RunKeepsSafe(c, steps, st);
    if steps == [] {
      EmptyRun(c, false, st);
    } else {
      var n := |steps| - 1;
      var before := LastStep(c, steps, false, st);
      RunKeepsNext(c, steps[..n], before);
      StepEvolves(c, before, steps[n]);
      StepKeepsNext(c, before, steps[n], st);
    }
  }

  // ----- the stops -----

  /** What the leader's middle match index will be. */
  function NextMiddle(s: Server, peer: nat, matched: nat): nat
    requires peer < |s.matchIndex|
  {
    MiddleOf(s.matchIndex[peer := matched] + [LastIndex(s.logs)])
  }

  /** The only two ways: refusals have driven nextIndex to 0 and a message is built, or something is committed but the
      middle of what this leader has had confirmed is still 0. */
  ghost predicate Stops(c: Config, st: Cluster, step: Step)
    requires Enabled(c, st, step)
  {
    match step
    case SendLogs(h, peer) => st.servers[h].nextIndex[peer] == 0
    case DeliverAppendReply(m, peer) =>
      && m.success && st.servers[m.to].commitIndex > 0
      && NextMiddle(st.servers[m.to], peer, m.prevLogIndex + m.count) == 0
    case _ => false
  }

  lemma MatchIndexInside(c: Config, st: Cluster, h: Host)
    requires LogInv(c, st) && CommitInv(c, st) && h in c.members && st.servers[h].role == Leader
    ensures forall j :: 0 <= j < |st.servers[h].matchIndex| ==> st.servers[h].matchIndex[j] <= |st.servers[h].logs|
  {
    var s := st.servers[h];
    assert MatchIndexOk(c, st.matched, h, s) && ServerLogOk(st.leaderLogs, st.candidateLogs, st.matched, h, s);
    forall j | 0 <= j < |s.matchIndex| ensures s.matchIndex[j] <= |s.logs| {
      var key := (c.peers[h][j], s.currentTerm);
      assert key in st.matched ==> MatchedOk(st.leaderLogs, st.servers, key, st.matched[key]);
    }
  }

  lemma LogIsConsecutive(c: Config, st: Cluster, h: Host)
    requires LogInv(c, st) && h in c.members
    ensures Consecutive(st.servers[h].logs) && LastIndex(st.servers[h].logs) == |st.servers[h].logs|
  {
    assert ServerLogOk(st.leaderLogs, st.candidateLogs, st.matched, h, st.servers[h]);
    RootedConsecutive(st.leaderLogs, st.servers[h].logs);
  }

  lemma ReplyStops(c: Config, st: Cluster, m: Message, peer: nat)
    requires SafeInv(c, st) && NextInv(st) && Enabled(c, st, DeliverAppendReply(m, peer))
    ensures LocalResult(c, st, DeliverAppendReply(m, peer)).fatal != Running <==>
              Stops(c, st, DeliverAppendReply(m, peer))
  {
    LogIsConsecutive(c, st, m.to);
    MatchIndexInside(c, st, m.to);
    ReplyIsInside(c, st, m);
    ReplyStopsLeader(st.servers[m.to], peer, m.prevLogIndex, m.prevLogIndex + m.count);
  }

  lemma SendStops(c: Config, st: Cluster, h: Host, peer: nat)
    requires LogInv(c, st) && NextInv(st) && h in c.members && st.servers[h].role == Leader
    requires peer < |st.servers[h].nextIndex|
    ensures BuildParams(st.servers[h], h, peer).Some?
    ensures BuildWithLogs(st.servers[h], h, peer) == None <==> st.servers[h].nextIndex[peer] == 0
  {
    LogIsConsecutive(c, st, h);
    assert NextOk(st.servers[h]);
    GetLogConsecutive(st.servers[h].logs, st.servers[h].nextIndex[peer] as int - 1);
    SendStopsLeader(st.servers[h], h, peer);
  }

  lemma ApplyRuns(c: Config, st: Cluster, h: Host)
    requires SafeInv(c, st) && h in c.members && st.servers[h].batchSize == 0
    ensures GatherBatch(st.servers[h]).fatal == st.servers[h].fatal
  {
    LogIsConsecutive(c, st, h);
    assert ServerCommitOk(c, st, st.servers[h]);
    GatherFacts(st.servers[h]);
  }

  lemma LocalResultStops(c: Config, st: Cluster, step: Step)
    requires SafeInv(c, st) && NextInv(st) && Enabled(c, st, step) && IsLocal(step)
    ensures LocalResult(c, st, step).fatal != Running <==> Stops(c, st, step)
  {
    if step.DeliverAppendReply? {
      ReplyStops(c, st, step.m, step.peer);
    } else if step.GatherForApply? {
      ApplyRuns(c, st, step.h);
    }
  }

  lemma LocalStops(c: Config, st: Cluster, step: Step, st': Cluster)
    requires ValidConfig(c) && SafeInv(c, st) && NextInv(st) && Enabled(c, st, step) && st' == Do(c, st, step)
    requires IsLocal(step)
    ensures !Alive(st', Actor(step)) <==> Stops(c, st, step)
  {
    LocalResultStops(c, st, step);
  }

  lemma AppendRuns(c: Config, st: Cluster, step: Step, st': Cluster)
    requires ValidConfig(c) && SafeInv(c, st) && Enabled(c, st, step) && step.DeliverAppendRequest?
    requires st' == Do(c, st, step)
    ensures Alive(st', step.m.to)
  {
    AppendStepEvolves(c, st, step.m.to, step.m.append);
  }

  lemma VotingRuns(c: Config, st: Cluster, step: Step, st': Cluster)
    requires ValidConfig(c) && st.servers.Keys == c.members && Enabled(c, st, step) && st' == Do(c, st, step)
    requires step.BeginElection? || step.DeliverVoteRequest? || step.WinElection?
    ensures Alive(st', Actor(step))
  {
  }

  lemma SentOrStopped(st: Cluster, h: Host, to: Host, p: Option<AppendParams>, st': Cluster)
    requires Alive(st, h) && st' == AfterSend(st, h, to, p)
    ensures Alive(st', h) <==> p.Some?
  {
  }

  lemma SendingStops(c: Config, st: Cluster, step: Step, st': Cluster)
    requires ValidConfig(c) && LogInv(c, st) && NextInv(st) && Enabled(c, st, step) && st' == Do(c, st, step)
    requires step.SendHeartbeat? || step.SendLogs?
    ensures !Alive(st', step.h) <==> Stops(c, st, step)
  {
    var h, s, to := step.h, st.servers[step.h], c.peers[step.h][step.peer];
    SendStops(c, st, h, step.peer);
    if step.SendHeartbeat? {
      SentOrStopped(st, h, to, BuildParams(s, h, step.peer), st');
    } else {
      SentOrStopped(st, h, to, BuildWithLogs(s, h, step.peer), st');
    }
  }

  lemma StartRuns(c: Config, st: Cluster, step: Step, st': Cluster)
    requires ValidConfig(c) && st.servers.Keys == c.members && Enabled(c, st, step) && st' == Do(c, st, step)
    requires step.ClientStart?
    ensures Alive(st', Actor(step))
  {
  }

  lemma OthersRun(c: Config, st: Cluster, step: Step, st': Cluster)
    requires ValidConfig(c) && SafeInv(c, st) && Enabled(c, st, step) && st' == Do(c, st, step)
    requires !IsLocal(step) && !step.SendHeartbeat? && !step.SendLogs?
    ensures Alive(st', Actor(step)) && !Stops(c, st, step)
  {
    if step.DeliverAppendRequest? {
      AppendRuns(c, st, step, st');
    } else if step.ClientStart? {
      StartRuns(c, st, step, st');
    } else {
      VotingRuns(c, st, step, st');
    }
  }

  /** In every run whose restarts lose nothing: a step stops the server that takes it exactly in these two cases. No
      follower ever stops, the apply thread never does, and no server meets a second leader of its term. */
  lemma StopsExactly(c: Config, steps: seq<Step>, st: Cluster, step: Step, st': Cluster)
    requires ValidConfig(c) && |c.members| % 2 == 1 && IsRun(c, steps, false, st)
    requires st.servers.Keys == c.members && Enabled(c, st, step) && st' == Do(c, st, step)
    ensures !Alive(st', Actor(step)) <==> Stops(c, st, step)
  {
    RunKeepsNext(c, steps, st);
    if IsLocal(step) {
      LocalStops(c, st, step, st');
    } else if step.SendHeartbeat? || step.SendLogs? {
      SendingStops(c, st, step, st');
    } else {
      OthersRun(c, st, step, st');
    }
  }

  // ----- the read one past the end -----

  /** The lookup of i passes the bound of the source and reads the entry after the last. */
  predicate OnePast(logs: Log, i: int) {
    i - (if logs == [] then 0 else logs[0].index) == |logs|
  }

  /** The previous entry of a message. */
  predicate LooksUpPrev(s: Server, peer: nat, i: int)
    requires peer < |s.nextIndex|
  {
    s.logs != [] && i + 1 == s.nextIndex[peer] && i >= s.logs[0].index
  }

  predicate LooksUpEntry(s: Server, peer: nat, i: int)
    requires peer < |s.nextIndex|
  {
    s.nextIndex[peer] <= i <= LastIndex(s.logs)
  }

  /** The step may look up the entry with index i. */
  ghost predicate LooksUp(c: Config, st: Cluster, step: Step, i: int)
    requires Enabled(c, st, step)
  {
    match step
    case SendHeartbeat(h, peer) => LooksUpPrev(st.servers[h], peer, i)
    case SendLogs(h, peer) => LooksUpPrev(st.servers[h], peer, i) || LooksUpEntry(st.servers[h], peer, i)
    case DeliverAppendRequest(m) =>
      i <= LastIndex(st.servers[m.to].logs) && exists e :: e in m.append.entries && e.index == i
    case DeliverAppendReply(m, peer) =>
      && m.success && i == NextMiddle(st.servers[m.to], peer, m.prevLogIndex + m.count)
      && i != st.servers[m.to].commitIndex
    case GatherForApply(h) => st.servers[h].lastApplied < i <= st.servers[h].commitIndex
    case _ => false
  }

  lemma EntriesFromOne(c: Config, st: Cluster, h: Host, p: AppendParams, e: LogEntry)
    requires LogInv(c, st) && AppendRequest(h, p) in st.net && e in p.entries
    ensures e.index >= 1
  {
    assert MessageLogOk(st.leaderLogs, st.candidateLogs, st.matched, AppendRequest(h, p));
    assert LeaderLogOk(st.leaderLogs, p.term);
    RootedConsecutive(st.leaderLogs, st.leaderLogs[p.term]);
    var k :| 0 <= k < |p.entries| && p.entries[k] == e;
    assert e == st.leaderLogs[p.term][p.prevLogIndex + k];
  }

  lemma MiddleInside(s: Server, peer: nat, matched: nat)
    requires Consecutive(s.logs) && peer < |s.matchIndex| && matched <= |s.logs|
    requires forall j :: 0 <= j < |s.matchIndex| ==> s.matchIndex[j] <= |s.logs|
    ensures NextMiddle(s, peer, matched) <= |s.logs|
  {
    var vals := s.matchIndex[peer := matched] + [LastIndex(s.logs)];
    MiddleIsReached(vals);
    if MiddleOf(vals) > |s.logs| {
      CountNone(vals, MiddleOf(vals));
    }
  }

  lemma SendLooksInside(c: Config, st: Cluster, h: Host, peer: nat, i: int)
    requires LogInv(c, st) && NextInv(st) && h in c.members && st.servers[h].role == Leader
    requires peer < |st.servers[h].nextIndex|
    requires LooksUpPrev(st.servers[h], peer, i) || LooksUpEntry(st.servers[h], peer, i)
    ensures !OnePast(st.servers[h].logs, i)
  {
    LogIsConsecutive(c, st, h);
    assert NextOk(st.servers[h]) && InRange(st.servers[h].logs, st.servers[h].nextIndex[peer]);
  }

  lemma InsideIsNotPast(logs: Log, i: int)
    requires Consecutive(logs) && 1 <= i <= |logs|
    ensures !OnePast(logs, i)
  {
  }

  lemma AppendLooksInside(c: Config, st: Cluster, m: Message, i: int)
    requires LogInv(c, st) && m in st.net && m.AppendRequest? && m.to in c.members
    requires i <= LastIndex(st.servers[m.to].logs) && exists e :: e in m.append.entries && e.index == i
    ensures !OnePast(st.servers[m.to].logs, i)
  {
    var e :| e in m.append.entries && e.index == i;
    LogIsConsecutive(c, st, m.to);
    EntriesFromOne(c, st, m.to, m.append, e);
    InsideIsNotPast(st.servers[m.to].logs, i);
  }

  lemma ReplyLooksInside(c: Config, st: Cluster, m: Message, peer: nat)
    requires SafeInv(c, st) && NextInv(st) && Enabled(c, st, DeliverAppendReply(m, peer))
    ensures !OnePast(st.servers[m.to].logs, NextMiddle(st.servers[m.to], peer, m.prevLogIndex + m.count))
  {
    LogIsConsecutive(c, st, m.to);
    ReplyIsInside(c, st, m);
    MatchIndexInside(c, st, m.to);
    MiddleInside(st.servers[m.to], peer, m.prevLogIndex + m.count);
  }

  lemma GatherLooksInside(c: Config, st: Cluster, h: Host, i: int)
    requires SafeInv(c, st) && h in c.members && 0 < i <= st.servers[h].commitIndex
    ensures !OnePast(st.servers[h].logs, i)
  {
    LogIsConsecutive(c, st, h);
    assert ServerCommitOk(c, st, st.servers[h]);
    InsideIsNotPast(st.servers[h].logs, i);
  }

  lemma SendingLooksInside(c: Config, st: Cluster, step: Step, i: int)
    requires ValidConfig(c) && LogInv(c, st) && NextInv(st) && Enabled(c, st, step)
    requires (step.SendHeartbeat? || step.SendLogs?) && LooksUp(c, st, step, i)
    ensures !OnePast(st.servers[step.h].logs, i)
  {
    SendLooksInside(c, st, step.h, step.peer, i);
  }

  lemma OthersLookInside(c: Config, st: Cluster, step: Step, i: int)
    requires ValidConfig(c) && SafeInv(c, st) && NextInv(st) && Enabled(c, st, step)
    requires !step.SendHeartbeat? && !step.SendLogs? && LooksUp(c, st, step, i)
    ensures !OnePast(st.servers[Actor(step)].logs, i)
  {
    if step.DeliverAppendRequest? {
      AppendLooksInside(c, st, step.m, i);
    } else if step.DeliverAppendReply? {
      ReplyLooksInside(c, st, step.m, step.peer);
    } else {
      GatherLooksInside(c, st, step.h, i);
    }
  }

  /** In every run whose restarts lose nothing no lookup reads past the end. */
  lemma NeverOnePast(c: Config, steps: seq<Step>, st: Cluster, step: Step, i: int)
    requires ValidConfig(c) && |c.members| % 2 == 1 && IsRun(c, steps, false, st)
    requires st.servers.Keys == c.members && Enabled(c, st, step) && LooksUp(c, st, step, i)
    ensures !OnePast(st.servers[Actor(step)].logs, i)
  {
    RunKeepsNext(c, steps, st);
    if step.SendHeartbeat? || step.SendLogs? {
      SendingLooksInside(c, st, step, i);
    } else {
      OthersLookInside(c, st, step, i);
    }
  }
}
