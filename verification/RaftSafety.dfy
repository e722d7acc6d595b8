/** The main results over all runs whose restarts lose nothing, of a cluster with an odd number of servers: Leader
    Completeness, State Machine Safety and exactly-once in-order application. */
module RaftSafety {
  import opened RaftTypes
  import opened RaftServer
  import opened RaftCluster
  import opened RaftElection
  import opened RaftLogs
  import opened RaftLogInv
  import opened RaftLogSteps
  import opened RaftKeeping
  import opened RaftCommit

  ghost predicate SafeInv(c: Config, st: Cluster) {
    FullInv(c, st) && CommitInv(c, st)
  }

  /** What the remaining lemmas need of a step of server h, besides Evolves. */
  ghost predicate StepOk(c: Config, st: Cluster, h: Host, st': Cluster) {
    && h in st.servers && h in st'.servers
    && Moves(st, h, st') && CommitsOk(c, st, h, st')
    && st.servers[h].commitIndex <= st'.servers[h].commitIndex
  }

  lemma QuietStepOk(c: Config, st: Cluster, h: Host, st': Cluster)
    requires CommitInv(c, st) && Evolves(c, st, h, st') && KeepsCommits(st.servers[h], st'.servers[h])
    requires NewConfirmations(st, h, st', st'.servers[h])
    requires NewVotes(st, h, st', st.servers[h], st'.servers[h])
    requires forall m {:trigger m in st'.net} :: m in st'.net && m !in st.net ==> MessageCommitOk(c, st', m)
    ensures StepOk(c, st, h, st')
  {
    QuietCommits(c, st, h, st');
  }

  lemma BeginStepOk(c: Config, st: Cluster, h: Host, s: Server, st': Cluster)
    requires CommitInv(c, st) && Evolves(c, st, h, st') && st.servers[h].role == Candidate
    requires h in c.peers && s == StartElection(st.servers[h], h) && st' == AfterBegin(c, st, h, s)
    ensures StepOk(c, st, h, st')
  {
    QuietStepOk(c, st, h, st');
  }

  lemma VoteStepOk(c: Config, st: Cluster, h: Host, p: VoteParams, s: Server, r: VoteResult, st': Cluster)
    requires CommitInv(c, st) && Evolves(c, st, h, st')
    requires RequestVote(st.servers[h], p) == (s, r) && st' == AfterVote(st, h, p, s, r.voteGranted)
    ensures StepOk(c, st, h, st')
  {
    VoteFacts(st.servers[h], p, s, r);
    QuietStepOk(c, st, h, st');
  }

  lemma WinStepOk(c: Config, st: Cluster, h: Host, voters: set<Host>, s: Server, st': Cluster)
    requires CommitInv(c, st) && Evolves(c, st, h, st')
    requires s == SwitchToLeader(st.servers[h]) && st' == AfterWin(st, h, voters, s)
    ensures StepOk(c, st, h, st')
  {
    QuietStepOk(c, st, h, st');
  }

  lemma StartIsQuiet(st: Cluster, h: Host, s: Server, st': Cluster)
    requires h in st.servers && st' == AfterStart(st, h, s)
    requires s == st.servers[h].(logs := s.logs) && st.servers[h].logs <= s.logs
    ensures h in st'.servers && KeepsCommits(st.servers[h], st'.servers[h]) && st'.net == st.net
  {
  }

  lemma StartIsNews(st: Cluster, h: Host, s: Server, st': Cluster)
    requires h in st.servers && st' == AfterStart(st, h, s)
    ensures h in st'.servers && st'.servers[h] == s && st'.voteLogs == st.voteLogs
    ensures NewConfirmations(st, h, st', s)
  {
  }

  lemma StartStepOk(c: Config, st: Cluster, h: Host, s: Server, st': Cluster)
    requires CommitInv(c, st) && Evolves(c, st, h, st') && st' == AfterStart(st, h, s)
    requires s == st.servers[h].(logs := s.logs) && st.servers[h].logs <= s.logs
    ensures StepOk(c, st, h, st')
  {
    StartIsQuiet(st, h, s, st');
    StartIsNews(st, h, s, st');
    QuietStepOk(c, st, h, st');
  }

  lemma VotingStepOk(c: Config, st: Cluster, step: Step, st': Cluster)
    requires ValidConfig(c) && CommitInv(c, st) && Enabled(c, st, step) && st' == Do(c, st, step)
    requires step.BeginElection? || step.DeliverVoteRequest? || step.WinElection?
    requires Evolves(c, st, Actor(step), st')
    ensures StepOk(c, st, Actor(step), st')
  {
    var h := Actor(step);
    if step.BeginElection? {
      BeginStepOk(c, st, h, StartElection(st.servers[h], h), st');
    } else if step.DeliverVoteRequest? {
      var (s, r) := RequestVote(st.servers[h], step.m.vote);
      VoteStepOk(c, st, h, step.m.vote, s, r, st');
    } else {
      WinStepOk(c, st, h, step.voters, SwitchToLeader(st.servers[h]), st');
    }
  }

  lemma SendStepOk(c: Config, st: Cluster, h: Host, to: Host, p: Option<AppendParams>, st': Cluster)
    requires SafeInv(c, st) && h in c.members && st.servers[h].role == Leader
    requires st' == AfterSend(st, h, to, p) && Evolves(c, st, h, st')
    requires p.Some? ==> p.value.term == st.servers[h].currentTerm && p.value.leaderCommit == st.servers[h].commitIndex
    ensures StepOk(c, st, h, st')
  {
    QuietCommits(c, st, h, st');
    if p.Some? {
      assert ServerLogOk(st.leaderLogs, st.candidateLogs, st.matched, h, st.servers[h]);
      assert ServerCommitOk(c, st', st'.servers[h]);
      assert MessageCommitOk(c, st', AppendRequest(to, p.value));
    }
    QuietStepOk(c, st, h, st');
  }

  lemma SendFacts(c: Config, st: Cluster, step: Step) returns (p: Option<AppendParams>)
    requires ValidConfig(c) && SafeInv(c, st) && Enabled(c, st, step) && (step.SendHeartbeat? || step.SendLogs?)
    ensures Do(c, st, step) == AfterSend(st, step.h, c.peers[step.h][step.peer], p)
    ensures p.Some? ==> p.value.term == st.servers[step.h].currentTerm
                        && p.value.leaderCommit == st.servers[step.h].commitIndex
  {
    var h, s := step.h, st.servers[step.h];
    assert ServerLogOk(st.leaderLogs, st.candidateLogs, st.matched, h, s);
    p := if step.SendHeartbeat? then BuildParams(s, h, step.peer) else BuildWithLogs(s, h, step.peer);
    if p.Some? {
      if step.SendHeartbeat? {
        HeartbeatIsSlice(st.leaderLogs, s, h, step.peer, p.value);
      } else {
        LogsAreSlice(st.leaderLogs, s, h, step.peer, p.value);
      }
    }
  }

  lemma RefusedStepOk(c: Config, st: Cluster, h: Host, p: AppendParams, s: Server, st': Cluster)
    requires CommitInv(c, st) && h in c.members && s == st.servers[h]
    requires st' == AfterAppend(st, h, p, s, false) && Evolves(c, st, h, st')
    ensures StepOk(c, st, h, st')
  {
    QuietStepOk(c, st, h, st');
  }

  lemma AppendMoves(st: Cluster, h: Host, p: AppendParams, s: Server, success: bool, st': Cluster)
    requires h in st.servers && st' == AfterAppend(st, h, p, s, success) && s.currentTerm == p.term
    requires p.term in st.leaderLogs && AcceptEffect(st.servers[h], p, s, success, st.leaderLogs[p.term])
    ensures Moves(st, h, st') && st.servers[h].commitIndex <= s.commitIndex
  {
  }

  lemma AppendStepOk(c: Config, st: Cluster, h: Host, p: AppendParams, s: Server, success: bool, st': Cluster)
    requires FullInv(c, st) && CommitInv(c, st) && h in c.members && AppendRequest(h, p) in st.net
    requires st' == AfterAppend(st, h, p, s, success) && Evolves(c, st, h, st')
    requires SliceOf(st.leaderLogs, p) && AppendEffect(st.servers[h], p, s) && p.term >= st.servers[h].currentTerm
    requires AcceptEffect(st.servers[h], p, s, success, st.leaderLogs[p.term])
    ensures StepOk(c, st, h, st')
  {
    AppendMoves(st, h, p, s, success, st');
    FollowerCommits(c, st, h, p, st', success);
    assert MatchIndexOk(c, st.matched, h, st.servers[h]);
  }

  lemma ReplyStepOk(c: Config, st: Cluster, h: Host, peer: nat, m: Message, s: Server, st': Cluster)
    requires ValidConfig(c) && |c.members| % 2 == 1 && SafeInv(c, st) && h in c.members
    requires m in st.net && m.AppendReply? && m.to == h && st.servers[h].role == Leader
    requires m.term == st.servers[h].currentTerm
    requires peer < |c.peers[h]| == |st.servers[h].matchIndex| && c.peers[h][peer] == m.from
    requires ReplicateEffect(st.servers[h], peer, m.prevLogIndex + m.count, m.success, s)
    requires st' == SetServer(st, h, s) && Evolves(c, st, h, st')
    ensures StepOk(c, st, h, st')
  {
    MatchIndexStays(c, st, h, peer, s, m.prevLogIndex, m.count, m.success);
    LeaderCommits(c, st, h, peer, m.prevLogIndex + m.count, m.success, s);
    SameLogMoves(st, h, s, st');
  }

  lemma SameLogMoves(st: Cluster, h: Host, s: Server, st': Cluster)
    requires h in st.servers && st' == SetServer(st, h, s)
    requires s.logs == st.servers[h].logs && s.currentTerm == st.servers[h].currentTerm
    ensures Moves(st, h, st')
  {
  }

  lemma ReplyEffect(c: Config, st: Cluster, h: Host, peer: nat, prev: nat, matched: nat, success: bool, s: Server)
    requires LogInv(c, st) && h in c.members && peer < |st.servers[h].nextIndex| == |st.servers[h].matchIndex|
    requires s == HandleReplicateResult(st.servers[h], peer, prev, matched, success)
    ensures ReplicateEffect(st.servers[h], peer, matched, success, s)
  {
    assert ServerLogOk(st.leaderLogs, st.candidateLogs, st.matched, h, st.servers[h]);
    RootedConsecutive(st.leaderLogs, st.servers[h].logs);
    ReplicateFacts(st.servers[h], peer, prev, matched, success);
  }

  lemma GatherFacts(s: Server)
    requires Consecutive(s.logs) && ApplyOk(s) && s.batchSize == 0
    ensures ApplyOk(GatherBatch(s))
    ensures GatherBatch(s).fatal == s.fatal
  {
    var upto := Min(s.lastApplied + 20, s.commitIndex);
    if upto > s.lastApplied {
      SliceOfLog(s.logs, s.lastApplied + 1, upto - s.lastApplied);
    }
  }

  lemma ApplyFacts(s: Server)
    requires ApplyOk(s)
    ensures s.batch != [] ==> ApplyOk(ApplyOne(s))
    ensures s.batch == [] ==> ApplyOk(AdvanceApplied(s))
  {
    if s.batch != [] {
      var s' := ApplyOne(s);
      assert s'.applied == s.logs[..|s.applied| + 1];
    }
  }

  /** Timeouts and the apply thread leave log, term and indices alone. */
  predicate ApplyEffect(o: Server, s: Server) {
    && s == o.(role := s.role, batch := s.batch, batchSize := s.batchSize, applied := s.applied,
               lastApplied := s.lastApplied, fatal := s.fatal)
    && (s.role == o.role || s.role == Candidate) && ApplyOk(s)
  }

  lemma ApplyThreadResult(c: Config, st: Cluster, step: Step, o: Server, s: Server)
    requires Enabled(c, st, step) && IsLocal(step) && !step.DeliverAppendReply? && !step.Restart?
    requires o == st.servers[Actor(step)] && s == LocalResult(c, st, step)
    requires ApplyOk(o)
    requires o.batchSize == 0 ==> ApplyOk(GatherBatch(o))
    requires o.batch != [] ==> ApplyOk(ApplyOne(o))
    requires o.batch == [] ==> ApplyOk(AdvanceApplied(o))
    ensures ApplyEffect(o, s)
  {
  }

  lemma ApplyStepOk(c: Config, st: Cluster, h: Host, s: Server, st': Cluster)
    requires CommitInv(c, st) && h in c.members && st' == SetServer(st, h, s) && Evolves(c, st, h, st')
    requires ApplyEffect(st.servers[h], s)
    ensures StepOk(c, st, h, st')
  {
    assert ServerCommitOk(c, st, st.servers[h]) && MatchIndexOk(c, st.matched, h, st.servers[h]);
    var done := s.logs[..s.commitIndex];
    SettledStays(c, st, h, st', done, done, s.currentTerm, s.currentTerm);
  }

  lemma ApplyThreadOk(c: Config, st: Cluster, h: Host)
    requires LogInv(c, st) && CommitInv(c, st) && h in c.members
    ensures ApplyOk(st.servers[h])
    ensures st.servers[h].batchSize == 0 ==> ApplyOk(GatherBatch(st.servers[h]))
    ensures st.servers[h].batch != [] ==> ApplyOk(ApplyOne(st.servers[h]))
    ensures st.servers[h].batch == [] ==> ApplyOk(AdvanceApplied(st.servers[h]))
  {
    var s := st.servers[h];
    assert ServerLogOk(st.leaderLogs, st.candidateLogs, st.matched, h, s);
    assert ServerCommitOk(c, st, s);
    RootedConsecutive(st.leaderLogs, s.logs);
    if s.batchSize == 0 {
      GatherFacts(s);
    }
    ApplyFacts(s);
  }

  lemma ReplyLocal(c: Config, st: Cluster, step: Step)
    requires LogInv(c, st) && st.servers.Keys == c.members && Enabled(c, st, step) && step.DeliverAppendReply?
    ensures var h, m := Actor(step), step.m;
      ReplicateEffect(st.servers[h], step.peer, m.prevLogIndex + m.count, m.success, LocalResult(c, st, step))
  {
    var m := step.m;
    ReplyEffect(c, st, m.to, step.peer, m.prevLogIndex, m.prevLogIndex + m.count, m.success, LocalResult(c, st, step));
  }

  lemma ReplyDispatch(c: Config, st: Cluster, step: Step, st': Cluster)
    requires ValidConfig(c) && |c.members| % 2 == 1 && SafeInv(c, st) && Enabled(c, st, step)
    requires step.DeliverAppendReply? && st' == SetServer(st, Actor(step), LocalResult(c, st, step))
    requires Evolves(c, st, Actor(step), st')
    ensures StepOk(c, st, Actor(step), st')
  {
    ReplyLocal(c, st, step);
    ReplyStepOk(c, st, Actor(step), step.peer, step.m, LocalResult(c, st, step), st');
  }

  lemma ApplyDispatch(c: Config, st: Cluster, step: Step, st': Cluster)
    requires ValidConfig(c) && SafeInv(c, st) && Enabled(c, st, step)
    requires IsLocal(step) && !step.DeliverAppendReply? && !step.Restart?
    requires st' == SetServer(st, Actor(step), LocalResult(c, st, step)) && Evolves(c, st, Actor(step), st')
    ensures StepOk(c, st, Actor(step), st')
  {
    ApplyThreadOk(c, st, Actor(step));
    ApplyThreadResult(c, st, step, st.servers[Actor(step)], LocalResult(c, st, step));
    ApplyStepOk(c, st, Actor(step), LocalResult(c, st, step), st');
  }

  lemma OneStepOk(c: Config, st: Cluster, step: Step, st': Cluster)
    requires ValidConfig(c) && |c.members| % 2 == 1 && SafeInv(c, st) && Enabled(c, st, step) && !step.Restart?
    requires st' == Do(c, st, step) && Evolves(c, st, Actor(step), st')
    ensures StepOk(c, st, Actor(step), st')
  {
    if step.DeliverAppendReply? {
      ReplyDispatch(c, st, step, st');
    } else if IsLocal(step) {
      ApplyDispatch(c, st, step, st');
    } else if step.SendHeartbeat? || step.SendLogs? {
      var p := SendFacts(c, st, step);
      SendStepOk(c, st, step.h, c.peers[step.h][step.peer], p, st');
    } else if step.ClientStart? {
      StartStepOk(c, st, step.h, Start(st.servers[step.h], step.command), st');
    } else if step.DeliverAppendRequest? {
      AppendDispatch(c, st, step, st');
    } else {
      VotingStepOk(c, st, step, st');
    }
  }

  lemma AppendDispatch(c: Config, st: Cluster, step: Step, st': Cluster)
    requires ValidConfig(c) && SafeInv(c, st) && Enabled(c, st, step) && step.DeliverAppendRequest?
    requires st' == Do(c, st, step) && Evolves(c, st, Actor(step), st')
    ensures StepOk(c, st, Actor(step), st')
  {
    var h, p := step.m.to, step.m.append;
    AppendStepEvolves(c, st, h, p);
    var (s, r) := AppendEntries(c.check, st.servers[h], p);
    if p.term < st.servers[h].currentTerm {
      RefusedStepOk(c, st, h, p, s, st');
    } else {
      AppendStepOk(c, st, h, p, s, r.success, st');
    }
  }

  /** A restart that loses nothing starts over with the commit index and the state machine, and keeps the rest. */
  lemma RestartIsOk(c: Config, st: Cluster, h: Host, diskLogs: Log, st': Cluster)
    requires ElectionInv(c, st) && CommitInv(c, st) && h in c.members && diskLogs == st.servers[h].logs
    requires Evolves(c, st, h, st') && st' == SetServer(st, h, Restarted(st.servers[h], diskLogs))
    requires st.servers[h].disk.term == st.servers[h].currentTerm
    ensures Moves(st, h, st') && CommitsOk(c, st, h, st')
  {
    var s := Restarted(st.servers[h], diskLogs);
    assert ServerOk(c, st.ballots, st.reigns, h, st.servers[h]);
    assert MatchIndexOk(c, st.matched, h, st.servers[h]);
    assert s.logs[..0] == [] && Settled(c, st', [], s.currentTerm);
    assert ApplyOk(s);
    assert ServerCommitOk(c, st', s);
  }

  lemma StepKeepsSafe(c: Config, st: Cluster, step: Step, st': Cluster)
    requires ValidConfig(c) && |c.members| % 2 == 1 && SafeInv(c, st) && Enabled(c, st, step)
    requires Lossless(st, step) && st' == Do(c, st, step)
    ensures SafeInv(c, st')
  {
    var h := Actor(step);
    StepKeepsElection(c, st, step);
    StepEvolves(c, st, step);
    EvolutionKeeps(c, st, h, st');
    if step.Restart? {
      RestartIsOk(c, st, h, st.servers[h].logs, st');
    } else {
      OneStepOk(c, st, step, st');
    }
    EvolutionKeepsConfirmed(c, st, h, st');
    EvolutionKeepsCommits(c, st, h, st');
  }

  lemma {:induction false} RunKeepsSafe(c: Config, steps: seq<Step>, st: Cluster)
    requires ValidConfig(c) && |c.members| % 2 == 1 && IsRun(c, steps, false, st)
    ensures SafeInv(c, st)
  {
    if steps == [] {
      EmptyRun(c, false, st);
      InitElection(c);
      InitLogs(c);
    } else {
      var n := |steps| - 1;
      var before := LastStep(c, steps, false, st);
      RunKeepsSafe(c, steps[..n], before);
      StepKeepsSafe(c, before, steps[n], st);
    }
  }

  // ----- the theorems -----

  /** Leader Completeness: an entry committed in a term is in the log of every leader of a later term. */
  lemma CommittedReachesLeaders(c: Config, steps: seq<Step>, st: Cluster, term: nat, k: nat, h: Host)
    requires ValidConfig(c) && |c.members| % 2 == 1 && IsRun(c, steps, false, st) && h in c.members
    requires Committed(c, st, term, k)
    ensures st.servers.Keys == c.members
    ensures st.servers[h].role == Leader && st.servers[h].currentTerm >= term ==>
              st.leaderLogs[term][..k] <= st.servers[h].logs
  {
    RunKeepsSafe(c, steps, st);
    var s := st.servers[h];
    if s.role == Leader && s.currentTerm >= term {
      assert ServerLogOk(st.leaderLogs, st.candidateLogs, st.matched, h, s);
      assert SettledBy(c, st, st.leaderLogs[term][..k], term, term, k);
      LeaderHasSettled(c, st, st.leaderLogs[term][..k], term, s.currentTerm);
    }
  }

  /** Whatever any server has committed is at the front of the log of every leader of its term or a later one. */
  lemma CommitsReachLeaders(c: Config, steps: seq<Step>, st: Cluster, a: Host, b: Host)
    requires ValidConfig(c) && |c.members| % 2 == 1 && IsRun(c, steps, false, st) && a in c.members && b in c.members
    ensures st.servers.Keys == c.members && st.servers[a].commitIndex <= |st.servers[a].logs|
    ensures st.servers[b].role == Leader && st.servers[b].currentTerm >= st.servers[a].currentTerm ==>
              st.servers[a].logs[..st.servers[a].commitIndex] <= st.servers[b].logs
  {
    RunKeepsSafe(c, steps, st);
    var x, y := st.servers[a], st.servers[b];
    assert ServerCommitOk(c, st, x);
    if y.role == Leader && y.currentTerm >= x.currentTerm {
      assert ServerLogOk(st.leaderLogs, st.candidateLogs, st.matched, b, y);
      LeaderHasSettled(c, st, x.logs[..x.commitIndex], x.currentTerm, y.currentTerm);
    }
  }

  /** State Machine Safety: the committed parts of any two logs are one history, and so is what the two state
      machines were given. */
  lemma StateMachineSafety(c: Config, steps: seq<Step>, st: Cluster, a: Host, b: Host)
    requires ValidConfig(c) && |c.members| % 2 == 1 && IsRun(c, steps, false, st)
    requires a in c.members && b in c.members
    ensures st.servers.Keys == c.members
    ensures var x, y := st.servers[a], st.servers[b];
      && x.commitIndex <= |x.logs| && y.commitIndex <= |y.logs|
      && (forall i :: 0 <= i < x.commitIndex && i < y.commitIndex ==> x.logs[i] == y.logs[i])
      && (forall i :: 0 <= i < |x.applied| && i < |y.applied| ==> x.applied[i] == y.applied[i])
  {
    RunKeepsSafe(c, steps, st);
    var x, y := st.servers[a], st.servers[b];
    assert ServerCommitOk(c, st, x) && ServerCommitOk(c, st, y);
    var p, q := x.logs[..x.commitIndex], y.logs[..y.commitIndex];
    SettledAgree(c, st, p, q, x.currentTerm, y.currentTerm);
    forall i | 0 <= i < x.commitIndex && i < y.commitIndex ensures x.logs[i] == y.logs[i] {
      assert p[i] == q[i];
    }
    forall i | 0 <= i < |x.applied| && i < |y.applied| ensures x.applied[i] == y.applied[i] {
      assert x.applied[i] == x.logs[i] && y.applied[i] == y.logs[i];
    }
  }

  /** Exactly-once in-order application: the state machine gets entries 1, 2, 3, ... of the log, all committed, with
      no gap and no repeat, however gathering and applying interleave with commits. */
  lemma AppliedInOrder(c: Config, steps: seq<Step>, st: Cluster, h: Host)
    requires ValidConfig(c) && |c.members| % 2 == 1 && IsRun(c, steps, false, st) && h in c.members
    ensures st.servers.Keys == c.members
    ensures var s := st.servers[h];
      && s.lastApplied <= |s.applied| <= s.commitIndex
      && s.applied <= s.logs
      && (forall i :: 0 <= i < |s.applied| ==> s.applied[i].index == i + 1)
      && (s.batchSize == 0 ==> |s.applied| == s.lastApplied)
  {
    RunKeepsSafe(c, steps, st);
    SafeApply(c, st, h);
    AppliedAreEntries(st.leaderLogs, st.servers[h]);
  }

  lemma SafeApply(c: Config, st: Cluster, h: Host)
    requires SafeInv(c, st) && h in c.members
    ensures h in st.servers && Rooted(st.leaderLogs, st.servers[h].logs)
    ensures st.servers[h].commitIndex <= |st.servers[h].logs| && ApplyOk(st.servers[h])
  {
    assert ServerCommitOk(c, st, st.servers[h]);
    assert ServerLogOk(st.leaderLogs, st.candidateLogs, st.matched, h, st.servers[h]);
  }

  lemma AppliedAreEntries(ll: LeaderLogs, s: Server)
    requires Rooted(ll, s.logs) && s.commitIndex <= |s.logs| && ApplyOk(s)
    ensures s.lastApplied <= |s.applied| <= s.commitIndex && s.applied <= s.logs
    ensures forall i :: 0 <= i < |s.applied| ==> s.applied[i].index == i + 1
    ensures s.batchSize == 0 ==> |s.applied| == s.lastApplied
  {
    RootedConsecutive(ll, s.logs);
    forall i | 0 <= i < |s.applied| ensures s.applied[i].index == i + 1 {
      assert s.applied[i] == s.logs[i];
    }
  }

  /** Commit indices never fall and committed entries never change, on any server. */
  lemma CommittedPrefixStable(c: Config, steps: seq<Step>, st: Cluster, step: Step, st': Cluster, h: Host)
    requires ValidConfig(c) && |c.members| % 2 == 1 && IsRun(c, steps, false, st) && h in c.members
    requires st.servers.Keys == c.members && Enabled(c, st, step) && !step.Restart? && st' == Do(c, st, step)
    ensures st'.servers.Keys == c.members
    ensures st.servers[h].commitIndex <= st'.servers[h].commitIndex && st.servers[h].commitIndex <= |st.servers[h].logs|
    ensures st.servers[h].logs[..st.servers[h].commitIndex] <= st'.servers[h].logs
  {
    RunKeepsSafe(c, steps, st);
    StepKeepsSafe(c, st, step, st');
    StepEvolves(c, st, step);
    OneStepOk(c, st, step, st');
    PrefixStable(c, st, Actor(step), st', h);
  }

  lemma PrefixStable(c: Config, st: Cluster, h: Host, st': Cluster, k: Host)
    requires SafeInv(c, st) && SafeInv(c, st') && Evolves(c, st, h, st') && k in c.members
    requires st.servers[k].commitIndex <= st'.servers[k].commitIndex
    ensures st.servers[k].commitIndex <= |st.servers[k].logs|
    ensures st.servers[k].logs[..st.servers[k].commitIndex] <= st'.servers[k].logs
  {
    var s, s' := st.servers[k], st'.servers[k];
    assert ServerCommitOk(c, st, s) && ServerCommitOk(c, st', s');
    var done := s.logs[..s.commitIndex];
    SettledStays(c, st, h, st', done, done, s.currentTerm, s'.currentTerm);
    SettledAgree(c, st', done, s'.logs[..s'.commitIndex], s'.currentTerm, s'.currentTerm);
  }
}
