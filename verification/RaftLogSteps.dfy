/** Every step of a run whose restarts lose nothing keeps the log invariant; Log Matching over all such runs. */
module RaftLogSteps {
  import opened RaftTypes
  import opened RaftServer
  import opened RaftCluster
  import opened RaftElection
  import opened RaftLogs
  import opened RaftLogInv

  /** A new election is in a term in which the candidate has neither stood nor voted. */
  lemma NewCandidacy(c: Config, st: Cluster, h: Host)
    requires ElectionInv(c, st) && LogInv(c, st) && h in c.members
    ensures var key := (h, st.servers[h].currentTerm + 1); key !in st.candidateLogs && key !in st.voteLogs
  {
    var key := (h, st.servers[h].currentTerm + 1);
    TermsOf(c, st, h);
    assert key in st.candidateLogs ==> CandidateLogOk(st.leaderLogs, st.servers, key, st.candidateLogs[key]);
    assert key in st.voteLogs ==> VoteLogOk(st.leaderLogs, st.servers, key, st.voteLogs[key]);
  }

  lemma BeginEvolves(c: Config, st: Cluster, h: Host, s: Server)
    requires ValidConfig(c) && ElectionInv(c, st) && LogInv(c, st) && h in c.members
    requires s == StartElection(st.servers[h], h) && st.servers[h].role == Candidate
    ensures Evolves(c, st, h, AfterBegin(c, st, h, s)) && AdditionsOk(st, h, AfterBegin(c, st, h, s))
  {
    TermsOf(c, st, h);
    NewCandidacy(c, st, h);
    BeginGrows(c, st, h, s);
    BeginAdds(c, st, h, s);
  }

  lemma BeginGrows(c: Config, st: Cluster, h: Host, s: Server)
    requires ValidConfig(c) && LogInv(c, st) && h in c.members
    requires s == StartElection(st.servers[h], h) && st.servers[h].disk.term <= s.disk.term
    requires (h, s.currentTerm) !in st.candidateLogs && (h, s.currentTerm) !in st.voteLogs
    ensures Evolves(c, st, h, AfterBegin(c, st, h, s))
  {
    var st' := AfterBegin(c, st, h, s);
    assert st'.matched == st.matched && st'.reigns == st.reigns && st'.leaderLogs == st.leaderLogs;
    assert st'.servers == st.servers[h := s];
  }

  lemma BeginAdds(c: Config, st: Cluster, h: Host, s: Server)
    requires ValidConfig(c) && LogInv(c, st) && h in c.members
    requires s == StartElection(st.servers[h], h) && st.servers[h].role == Candidate
    requires (h, s.currentTerm) !in st.candidateLogs && (h, s.currentTerm) !in st.voteLogs
    ensures AdditionsOk(st, h, AfterBegin(c, st, h, s))
  {
    var st' := AfterBegin(c, st, h, s);
    assert ServerLogOk(st.leaderLogs, st.candidateLogs, st.matched, h, st.servers[h]);
    RootedConsecutive(st.leaderLogs, s.logs);
    assert LeaderLogsOk(st'.leaderLogs);
    forall m | m in st'.net && m !in st.net
      ensures MessageLogOk(st'.leaderLogs, st'.candidateLogs, st'.matched, m)
    {
    }
  }

  /** A step that changes server h, adds messages and confirmations, and nothing else. */
  lemma QuietEvolves(c: Config, st: Cluster, h: Host, s: Server, net: set<Message>, matched: Matched)
    requires LogInv(c, st) && h in c.members
    requires st.servers[h].currentTerm <= s.currentTerm && st.servers[h].disk.term <= s.disk.term
    requires ServerLogOk(st.leaderLogs, st.candidateLogs, matched, h, s)
    requires MatchedGrows(h, st.matched, matched)
    requires forall k {:trigger k in matched} :: k in matched && !(k in st.matched && st.matched[k] == matched[k]) ==>
               MatchedOk(st.leaderLogs, st.servers[h := s], k, matched[k])
    requires forall m {:trigger m in net} :: m in net && m !in st.net ==>
               MessageLogOk(st.leaderLogs, st.candidateLogs, matched, m)
    ensures var st' := SetServer(st, h, s).(net := net, matched := matched);
      Evolves(c, st, h, st') && AdditionsOk(st, h, st')
  {
    var st' := SetServer(st, h, s).(net := net, matched := matched);
    assert LeaderLogsOk(st'.leaderLogs);
  }

  /** A server that grants a vote in a term it has voted in before repeats that vote. */
  lemma VoteOnce(c: Config, st: Cluster, h: Host, p: VoteParams, s: Server, r: VoteResult)
    requires ElectionInv(c, st) && LogInv(c, st) && VoteRequest(h, p) in st.net && h in c.members
    requires RequestVote(st.servers[h], p) == (s, r) && r.voteGranted
    ensures (h, p.term) in st.voteLogs ==> Ballot(h, p.term, p.candidateId) in st.ballots
  {
    if (h, p.term) in st.voteLogs {
      assert VoteLogOk(st.leaderLogs, st.servers, (h, p.term), st.voteLogs[(h, p.term)]);
      assert ServerOk(c, st.ballots, st.reigns, h, st.servers[h]);
      assert MessageOk(c, st.ballots, st.reigns, VoteRequest(h, p));
    }
  }

  lemma VoteEvolves(c: Config, st: Cluster, h: Host, p: VoteParams, s: Server, r: VoteResult)
    requires ValidConfig(c) && ElectionInv(c, st) && LogInv(c, st) && VoteRequest(h, p) in st.net && h in c.members
    requires RequestVote(st.servers[h], p) == (s, r)
    ensures Evolves(c, st, h, AfterVote(st, h, p, s, r.voteGranted))
    ensures AdditionsOk(st, h, AfterVote(st, h, p, s, r.voteGranted))
  {
    VoteServerLogs(c, st, h, p, s, r);
    if r.voteGranted {
      VoteOnce(c, st, h, p, s, r);
      GrantEvolves(c, st, h, p, s);
    } else {
      QuietEvolves(c, st, h, s, st.net + {VoteReply(h, p.candidateId, p.term, false)}, st.matched);
    }
  }

  lemma VoteServerLogs(c: Config, st: Cluster, h: Host, p: VoteParams, s: Server, r: VoteResult)
    requires ValidConfig(c) && ElectionInv(c, st) && LogInv(c, st) && VoteRequest(h, p) in st.net && h in c.members
    requires RequestVote(st.servers[h], p) == (s, r)
    ensures ServerLogOk(st.leaderLogs, st.candidateLogs, st.matched, h, s)
    ensures s.logs == st.servers[h].logs && Rooted(st.leaderLogs, s.logs)
    ensures st.servers[h].currentTerm <= s.currentTerm && st.servers[h].disk.term <= s.disk.term
    ensures r.voteGranted ==> p.term == s.disk.term && UpToDate(p.lastLogIndex, p.lastLogTerm, s.logs)
  {
    TermsOf(c, st, h);
    VoteFacts(st.servers[h], p, s, r);
    assert ServerOk(c, st.ballots, st.reigns, h, st.servers[h]);
    assert MessageOk(c, st.ballots, st.reigns, VoteRequest(h, p));
    assert ServerLogOk(st.leaderLogs, st.candidateLogs, st.matched, h, st.servers[h]);
  }

  lemma GrantEvolves(c: Config, st: Cluster, h: Host, p: VoteParams, s: Server)
    requires LogInv(c, st) && VoteRequest(h, p) in st.net && h in c.members
    requires ServerLogOk(st.leaderLogs, st.candidateLogs, st.matched, h, s) && Rooted(st.leaderLogs, s.logs)
    requires st.servers[h].currentTerm <= s.currentTerm && st.servers[h].disk.term <= s.disk.term == p.term
    requires UpToDate(p.lastLogIndex, p.lastLogTerm, s.logs)
    requires (h, p.term) in st.voteLogs ==> Ballot(h, p.term, p.candidateId) in st.ballots
    ensures Evolves(c, st, h, AfterVote(st, h, p, s, true)) && AdditionsOk(st, h, AfterVote(st, h, p, s, true))
  {
    var st' := AfterVote(st, h, p, s, true);
    assert MessageLogOk(st.leaderLogs, st.candidateLogs, st.matched, VoteRequest(h, p));
    assert LeaderLogsOk(st'.leaderLogs);
  }

  /** A term is won once, so its log is new. */
  lemma NewReign(c: Config, st: Cluster, h: Host, voters: set<Host>, s: Server)
    requires ElectionInv(c, st) && LogInv(c, st) && Winning(c, st, h, voters, s)
    requires st.servers[h].role == Candidate
    ensures s.currentTerm !in st.leaderLogs && Reign(s.currentTerm, h) !in st.reigns
  {
    var st' := AfterWin(st, h, voters, s);
    var mine := Reign(s.currentTerm, h);
    assert mine in st.reigns ==> ReignOk(c, st.servers, st.ballots, mine, st.reigns[mine]);
    if s.currentTerm in st.leaderLogs {
      assert HasLeader(st.reigns, s.currentTerm);
      var r :| r in st.reigns && r.term == s.currentTerm;
      WinKeeps(c, st, h, voters, s);
      OneLeaderPerTerm(c, st', r, mine);
    }
  }

  lemma NewLeaderLog(ll: LeaderLogs, term: nat, g: Log)
    requires LeaderLogsOk(ll) && term > 0 && TermsUpTo(g, term)
    requires term in ll ==> ll[term] <= g
    requires Rooted(ll, g) || (term in ll && Rooted(ll, ll[term]) && |g| == |ll[term]| + 1
                               && g[|g| - 1].index == |g| && g[|g| - 1].term == term)
    ensures Grows(ll, ll[term := g]) && LeaderLogsOk(ll[term := g])
  {
    var ll' := ll[term := g];
    forall t | t in ll' ensures LeaderLogOk(ll', t) {
      if t != term {
        assert LeaderLogOk(ll, t);
        RootedGrows(ll, ll', ll[t]);
      } else if Rooted(ll, g) {
        RootedGrows(ll, ll', g);
      } else {
        RootedGrows(ll, ll', ll[term]);
        forall i | 0 <= i < |g| ensures EntryRooted(ll', g, i) {
          if i < |g| - 1 {
            assert EntryRooted(ll', ll[term], i);
            assert g[i] == ll[term][i] && g[..i + 1] == ll[term][..i + 1];
          }
        }
      }
    }
  }

  lemma WinEvolves(c: Config, st: Cluster, h: Host, voters: set<Host>, s: Server)
    requires ElectionInv(c, st) && LogInv(c, st) && Winning(c, st, h, voters, s)
    requires st.servers[h].role == Candidate
    ensures Evolves(c, st, h, AfterWin(st, h, voters, s)) && AdditionsOk(st, h, AfterWin(st, h, voters, s))
  {
    var key := (h, s.currentTerm);
    NewReign(c, st, h, voters, s);
    WinAdds(c, st, h, voters, s);
    assert key in st.matched ==> MatchedOk(st.leaderLogs, st.servers, key, st.matched[key]);
    assert Reign(s.currentTerm, h) in AfterWin(st, h, voters, s).reigns;
  }

  lemma WinAdds(c: Config, st: Cluster, h: Host, voters: set<Host>, s: Server)
    requires ElectionInv(c, st) && LogInv(c, st) && Winning(c, st, h, voters, s)
    requires st.servers[h].role == Candidate && s.currentTerm !in st.leaderLogs
    ensures LeaderLogsOk(AfterWin(st, h, voters, s).leaderLogs) && AdditionsOk(st, h, AfterWin(st, h, voters, s))
  {
    assert ServerLogOk(st.leaderLogs, st.candidateLogs, st.matched, h, st.servers[h]);
    NewLeaderLog(st.leaderLogs, s.currentTerm, s.logs);
    RootedGrows(st.leaderLogs, AfterWin(st, h, voters, s).leaderLogs, s.logs);
    assert Reign(s.currentTerm, h) in AfterWin(st, h, voters, s).reigns;
  }

  lemma StartEvolves(c: Config, st: Cluster, h: Host, command: string, s: Server)
    requires ElectionInv(c, st) && LogInv(c, st) && h in c.members && s == Start(st.servers[h], command)
    ensures Evolves(c, st, h, AfterStart(st, h, s)) && AdditionsOk(st, h, AfterStart(st, h, s))
  {
    var o := st.servers[h];
    assert ServerLogOk(st.leaderLogs, st.candidateLogs, st.matched, h, o);
    assert ServerOk(c, st.ballots, st.reigns, h, o);
    if o.role != Leader {
      QuietEvolves(c, st, h, s, st.net, st.matched);
    } else {
      assert ReignOk(c, st.servers, st.ballots, Reign(o.currentTerm, h), st.reigns[Reign(o.currentTerm, h)]);
      RootedConsecutive(st.leaderLogs, o.logs);
      LeaderAppends(c, st, h, s);
    }
  }

  lemma LeaderAppends(c: Config, st: Cluster, h: Host, s: Server)
    requires LogInv(c, st) && h in c.members && st.servers[h].role == Leader && s.currentTerm > 0
    requires Reign(s.currentTerm, h) in st.reigns
    requires s == st.servers[h].(logs := s.logs) && s.logs != [] && s.logs[..|s.logs| - 1] == st.servers[h].logs
    requires s.logs[|s.logs| - 1].index == |s.logs| && s.logs[|s.logs| - 1].term == s.currentTerm
    ensures Evolves(c, st, h, AfterStart(st, h, s)) && AdditionsOk(st, h, AfterStart(st, h, s))
  {
    var st', key := AfterStart(st, h, s), (h, s.currentTerm);
    assert ServerLogOk(st.leaderLogs, st.candidateLogs, st.matched, h, st.servers[h]);
    assert MatchedOk(st.leaderLogs, st.servers, key, st.matched[key]);
    assert TermsUpTo(s.logs, s.currentTerm);
    NewLeaderLog(st.leaderLogs, s.currentTerm, s.logs);
    assert LeaderLogOk(st'.leaderLogs, s.currentTerm);
  }

  // ----- what a leader sends -----

  lemma HeartbeatIsSlice(ll: LeaderLogs, s: Server, me: Host, i: nat, p: AppendParams)
    requires Rooted(ll, s.logs) && s.currentTerm in ll && ll[s.currentTerm] == s.logs
    requires i < |s.nextIndex| && BuildParams(s, me, i) == Some(p)
    ensures SliceOf(ll, p) && p.term == s.currentTerm && p.leaderId == me && p.entries == []
    ensures p.leaderCommit == s.commitIndex
    ensures s.nextIndex[i] >= 1 && s.nextIndex[i] <= |s.logs| + 1 ==> p.prevLogIndex == s.nextIndex[i] - 1
  {
    RootedConsecutive(ll, s.logs);
    GetLogConsecutive(s.logs, s.nextIndex[i] as int - 1);
  }

  lemma LogsAreSlice(ll: LeaderLogs, s: Server, me: Host, i: nat, p: AppendParams)
    requires Rooted(ll, s.logs) && s.currentTerm in ll && ll[s.currentTerm] == s.logs
    requires i < |s.nextIndex| && BuildWithLogs(s, me, i) == Some(p)
    ensures SliceOf(ll, p) && p.term == s.currentTerm && p.leaderId == me
    ensures p.leaderCommit == s.commitIndex
  {
    RootedConsecutive(ll, s.logs);
    var next, target := s.nextIndex[i], LastIndex(s.logs);
    HeartbeatIsSlice(ll, s, me, i, BuildParams(s, me, i).value);
    if next <= target {
      SliceOfLog(s.logs, next, Min(target - next + 1, MAX_LOGS_PER_REQUEST));
    }
  }

  lemma SendEvolves(c: Config, st: Cluster, h: Host, to: Host, p: Option<AppendParams>)
    requires ElectionInv(c, st) && LogInv(c, st) && h in c.members
    requires p.Some? ==> SliceOf(st.leaderLogs, p.value)
    ensures Evolves(c, st, h, AfterSend(st, h, to, p)) && AdditionsOk(st, h, AfterSend(st, h, to, p))
  {
    var st' := AfterSend(st, h, to, p);
    assert st.servers[h := st.servers[h]] == st.servers;
    assert ServerLogOk(st.leaderLogs, st.candidateLogs, st.matched, h, st.servers[h]);
    QuietEvolves(c, st, h, st'.servers[h], st'.net, st.matched);
  }

  // ----- what a follower does -----

  /** The new log of the follower is rooted whenever it is Replaced. */
  lemma ReplacedRooted(ll: LeaderLogs, logs: Log, merged: Log, leader: Log)
    requires Rooted(ll, logs) && Rooted(ll, leader) && Replaced(logs, merged, leader)
    ensures Rooted(ll, merged)
  {
    if merged <= leader {
      RootedPrefix(ll, leader, merged);
    } else {
      RootedPrefix(ll, logs, merged);
    }
  }

  /** What appendEntries does to log and commit index, for a slice of the leader's log that is not outdated. */
  ghost predicate AcceptEffect(s: Server, p: AppendParams, s': Server, success: bool, leader: Log) {
    var hi := p.prevLogIndex + |p.entries|;
    && s'.fatal == s.fatal && Replaced(s.logs, s'.logs, leader)
    && s'.applied == s.applied && s'.batch == s.batch && s'.batchSize == s.batchSize
    && s'.lastApplied == s.lastApplied
    && (success ==>
          && hi <= |leader| && leader[..hi] <= s'.logs
          && s'.commitIndex == Max(s.commitIndex, Min(p.leaderCommit, hi)))
    && (!success ==> s'.commitIndex == s.commitIndex)
  }

  /** The refusals: nothing changes, or the test at prevLogIndex cuts the log where it differs. */
  lemma FollowRefuses(check: PrevCheck, ll: LeaderLogs, logs: Log, leader: Log, prev: nat) returns (logs': Log)
    requires Rooted(ll, logs) && Rooted(ll, leader) && prev <= |logs| && prev <= |leader|
    requires !PrevMatches(check, logs, prev, TermAt(leader, prev))
    ensures logs' == (if check == PrevEntry then PopFrom(logs, prev) else logs) && Replaced(logs, logs', leader)
  {
    logs' := logs;
    if check == PrevEntry {
      RootedConsecutive(ll, logs);
      PrevCheckSound(check, ll, logs, leader, prev);
      PopFromConsecutive(logs, prev);
      logs' := logs[..prev - 1];
      assert DisagreeAt(logs, leader, prev - 1);
    }
  }

  lemma FollowFacts(check: PrevCheck, ll: LeaderLogs, logs: Log, p: AppendParams) returns (logs': Log, ok: bool)
    requires LeaderLogsOk(ll) && Rooted(ll, logs) && SliceOf(ll, p)
    ensures Follow(check, logs, p) == (Some(logs'), ok) && Replaced(logs, logs', ll[p.term])
    ensures ok ==> ll[p.term][..p.prevLogIndex + |p.entries|] <= logs'
  {
    var leader, prev := ll[p.term], p.prevLogIndex;
    assert LeaderLogOk(ll, p.term);
    assert LastIndex(logs) == |logs| by { RootedConsecutive(ll, logs); }
    if prev > |logs| {
      return logs, false;
    }
    if !PrevMatches(check, logs, prev, p.prevLogTerm) {
      logs' := FollowRefuses(check, ll, logs, leader, prev);
      return logs', false;
    }
    assert logs[..prev] == leader[..prev] by { PrevCheckSound(check, ll, logs, leader, prev); }
    logs' := MergeSlice(ll, logs, leader, prev, prev + |p.entries|);
    ok := true;
  }

  lemma AcceptFacts(check: PrevCheck, ll: LeaderLogs, s: Server, p: AppendParams, s': Server, r: AppendResult)
    requires LeaderLogsOk(ll) && Rooted(ll, s.logs) && SliceOf(ll, p)
    requires p.term >= s.currentTerm && !(p.term == s.currentTerm && s.role == Leader)
    requires AppendEntries(check, s, p) == (s', r)
    ensures AcceptEffect(s, p, s', r.success, ll[p.term])
  {
    var logs', ok := FollowFacts(check, ll, s.logs, p);
    assert s'.logs == logs' && r.success == ok;
  }

  lemma AppendEvolves(c: Config, st: Cluster, h: Host, p: AppendParams, s: Server, success: bool)
    requires ElectionInv(c, st) && LogInv(c, st) && AppendRequest(h, p) in st.net && h in c.members
    requires AppendEffect(st.servers[h], p, s)
    requires if p.term < st.servers[h].currentTerm then !success
             else p.term in st.leaderLogs && AcceptEffect(st.servers[h], p, s, success, st.leaderLogs[p.term])
    ensures Evolves(c, st, h, AfterAppend(st, h, p, s, success))
    ensures AdditionsOk(st, h, AfterAppend(st, h, p, s, success))
  {
    var ll, o, st' := st.leaderLogs, st.servers[h], AfterAppend(st, h, p, s, success);
    assert ServerLogOk(ll, st.candidateLogs, st.matched, h, o);
    NoRival(c, st, h, p);
    if p.term >= o.currentTerm {
      assert LeaderLogOk(ll, p.term);
      ReplacedRooted(ll, o.logs, s.logs, ll[p.term]);
      ReplacedTerms(o.logs, s.logs, ll[p.term], p.term);
      assert (h, p.term) in st.matched ==> MatchedOk(ll, st.servers, (h, p.term), st.matched[(h, p.term)]);
    }
    QuietEvolves(c, st, h, s, st'.net, st'.matched);
  }

  lemma ReplacedTerms(logs: Log, merged: Log, leader: Log, term: nat)
    requires Replaced(logs, merged, leader) && TermsUpTo(logs, term) && TermsUpTo(leader, term)
    ensures TermsUpTo(merged, term)
  {
  }

  lemma LocalEvolves(c: Config, st: Cluster, step: Step)
    requires ValidConfig(c) && ElectionInv(c, st) && LogInv(c, st) && Enabled(c, st, step)
    requires IsLocal(step) && Lossless(st, step)
    ensures var st' := SetServer(st, Actor(step), LocalResult(c, st, step));
      Evolves(c, st, Actor(step), st') && AdditionsOk(st, Actor(step), st')
  {
    var h := Actor(step);
    var o, s := st.servers[h], LocalResult(c, st, step);
    assert ServerOk(c, st.ballots, st.reigns, h, o);
    LocalFacts(c, st, step, o, s);
    assert ServerLogOk(st.leaderLogs, st.candidateLogs, st.matched, h, o);
    QuietEvolves(c, st, h, s, st.net, st.matched);
  }

  // ----- all steps, all runs -----

  lemma VotingStepEvolves(c: Config, st: Cluster, step: Step)
    requires ValidConfig(c) && ElectionInv(c, st) && LogInv(c, st) && Enabled(c, st, step)
    requires step.BeginElection? || step.DeliverVoteRequest? || step.WinElection?
    ensures Evolves(c, st, Actor(step), Do(c, st, step)) && AdditionsOk(st, Actor(step), Do(c, st, step))
  {
    var h := Actor(step);
    var s := st.servers[h];
    match step
    case BeginElection(_) => BeginEvolves(c, st, h, StartElection(s, h));
    case DeliverVoteRequest(m) =>
      var (s', r) := RequestVote(s, m.vote);
      VoteEvolves(c, st, h, m.vote, s', r);
    case WinElection(_, voters) =>
      VotesCounted(c, st, h, voters);
      assert ServerOk(c, st.ballots, st.reigns, h, s);
      WinEvolves(c, st, h, voters, SwitchToLeader(s));
  }

  lemma SendStepEvolves(c: Config, st: Cluster, step: Step)
    requires ValidConfig(c) && ElectionInv(c, st) && LogInv(c, st) && Enabled(c, st, step)
    requires step.SendHeartbeat? || step.SendLogs?
    ensures Evolves(c, st, Actor(step), Do(c, st, step)) && AdditionsOk(st, Actor(step), Do(c, st, step))
  {
    var h := Actor(step);
    var s := st.servers[h];
    assert ServerLogOk(st.leaderLogs, st.candidateLogs, st.matched, h, s);
    var p := if step.SendHeartbeat? then BuildParams(s, h, step.peer) else BuildWithLogs(s, h, step.peer);
    if p.Some? {
      if step.SendHeartbeat? {
        HeartbeatIsSlice(st.leaderLogs, s, h, step.peer, p.value);
      } else {
        LogsAreSlice(st.leaderLogs, s, h, step.peer, p.value);
      }
    }
    SendEvolves(c, st, h, c.peers[h][step.peer], p);
  }

  lemma AppendStepEvolves(c: Config, st: Cluster, h: Host, p: AppendParams)
    requires ValidConfig(c) && ElectionInv(c, st) && LogInv(c, st) && h in c.members
    requires AppendRequest(h, p) in st.net
    ensures var (s, r) := AppendEntries(c.check, st.servers[h], p); var st' := AfterAppend(st, h, p, s, r.success);
      Evolves(c, st, h, st') && AdditionsOk(st, h, st')
    ensures var (s, r) := AppendEntries(c.check, st.servers[h], p);
      if p.term < st.servers[h].currentTerm then s == st.servers[h] && !r.success
      else SliceOf(st.leaderLogs, p) && AppendEffect(st.servers[h], p, s)
           && AcceptEffect(st.servers[h], p, s, r.success, st.leaderLogs[p.term])
  {
    var (s, r) := AppendEntries(c.check, st.servers[h], p);
    NoRival(c, st, h, p);
    AppendFacts(c.check, st.servers[h], p);
    assert MessageLogOk(st.leaderLogs, st.candidateLogs, st.matched, AppendRequest(h, p));
    assert ServerLogOk(st.leaderLogs, st.candidateLogs, st.matched, h, st.servers[h]);
    if p.term >= st.servers[h].currentTerm {
      AcceptFacts(c.check, st.leaderLogs, st.servers[h], p, s, r);
    }
    AppendEvolves(c, st, h, p, s, r.success);
  }

  lemma StepEvolves(c: Config, st: Cluster, step: Step)
    requires ValidConfig(c) && ElectionInv(c, st) && LogInv(c, st) && Enabled(c, st, step) && Lossless(st, step)
    ensures Evolves(c, st, Actor(step), Do(c, st, step)) && AdditionsOk(st, Actor(step), Do(c, st, step))
  {
    if IsLocal(step) {
      LocalEvolves(c, st, step);
    } else if step.SendHeartbeat? || step.SendLogs? {
      SendStepEvolves(c, st, step);
    } else if step.ClientStart? {
      StartEvolves(c, st, step.h, step.command, Start(st.servers[step.h], step.command));
    } else if step.DeliverAppendRequest? {
      AppendStepEvolves(c, st, step.m.to, step.m.append);
    } else {
      VotingStepEvolves(c, st, step);
    }
  }

  lemma InitLogs(c: Config)
    requires ValidConfig(c)
    ensures LogInv(c, Init(c))
  {
  }

  lemma {:induction false} RunKeepsLogs(c: Config, steps: seq<Step>, st: Cluster)
    requires ValidConfig(c) && IsRun(c, steps, false, st)
    ensures ElectionInv(c, st) && LogInv(c, st)
  {
    if steps == [] {
      EmptyRun(c, false, st);
      InitElection(c);
      InitLogs(c);
    } else {
      var n := |steps| - 1;
      var before := LastStep(c, steps, false, st);
      RunKeepsLogs(c, steps[..n], before);
      StepKeepsElection(c, before, steps[n]);
      StepEvolves(c, before, steps[n]);
      EvolutionKeeps(c, before, Actor(steps[n]), st);
    }
  }

  /** Log Matching over all runs whose restarts lose nothing: entries with the same index and term are preceded by the
      same entries; indices count up from 1 and terms never decrease. */
  lemma LogMatchingAlways(c: Config, steps: seq<Step>, st: Cluster, a: Host, b: Host, i: nat)
    requires ValidConfig(c) && IsRun(c, steps, false, st) && a in c.members && b in c.members
    ensures st.servers.Keys == c.members
    ensures i < |st.servers[a].logs| && i < |st.servers[b].logs|
            && st.servers[a].logs[i].term == st.servers[b].logs[i].term ==>
              st.servers[a].logs[..i + 1] == st.servers[b].logs[..i + 1]
    ensures Consecutive(st.servers[a].logs)
    ensures forall j :: 0 <= j <= i < |st.servers[a].logs| ==>
              0 < st.servers[a].logs[j].term <= st.servers[a].logs[i].term <= st.servers[a].currentTerm
  {
    RunKeepsLogs(c, steps, st);
    var x, y := st.servers[a], st.servers[b];
    assert ServerLogOk(st.leaderLogs, st.candidateLogs, st.matched, a, x);
    assert ServerLogOk(st.leaderLogs, st.candidateLogs, st.matched, b, y);
    RootedConsecutive(st.leaderLogs, x.logs);
    if i < |x.logs| && i < |y.logs| && x.logs[i].term == y.logs[i].term {
      LogMatching(st.leaderLogs, x.logs, y.logs, i);
    }
    forall j | 0 <= j <= i < |x.logs| ensures 0 < x.logs[j].term <= x.logs[i].term {
      TermsAscend(st.leaderLogs, x.logs, j, i);
    }
  }

  /** The accept shortcut over all such runs: a follower that has prevLogIndex and whose last term is
      prevLogTerm holds an entry of that term at prevLogIndex, and the leader's entries before it. */
  lemma AcceptShortcutAlways(c: Config, steps: seq<Step>, st: Cluster, h: Host, p: AppendParams)
    requires ValidConfig(c) && IsRun(c, steps, false, st) && h in c.members && AppendRequest(h, p) in st.net
    ensures st.servers.Keys == c.members
    ensures var logs := st.servers[h].logs;
      p.prevLogIndex <= LastIndex(logs) && p.prevLogTerm == LastTerm(logs) ==>
        && p.prevLogIndex <= |logs| && TermAt(logs, p.prevLogIndex) == p.prevLogTerm
        && p.term in st.leaderLogs && logs[..p.prevLogIndex] <= st.leaderLogs[p.term]
  {
    RunKeepsLogs(c, steps, st);
    var ll, logs := st.leaderLogs, st.servers[h].logs;
    assert ServerLogOk(ll, st.candidateLogs, st.matched, h, st.servers[h]);
    assert MessageLogOk(ll, st.candidateLogs, st.matched, AppendRequest(h, p));
    assert LeaderLogOk(ll, p.term);
    RootedConsecutive(ll, logs);
    if p.prevLogIndex <= LastIndex(logs) && p.prevLogTerm == LastTerm(logs) {
      AcceptShortcut(ll, logs, ll[p.term], p.prevLogIndex);
    }
  }
}
