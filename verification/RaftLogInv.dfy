/** What every run whose restarts lose nothing keeps about logs: they are rooted in the logs of the leaders, and every
    message carries a slice of one. */
module RaftLogInv {
  import opened RaftTypes
  import opened RaftServer
  import opened RaftCluster
  import opened RaftElection
  import opened RaftLogs

  type HostLogs = map<(Host, nat), Log>
  type Matched = map<(Host, nat), nat>

  ghost predicate ServerLogOk(ll: LeaderLogs, cl: HostLogs, matched: Matched, h: Host, s: Server) {
    && Rooted(ll, s.logs) && TermsUpTo(s.logs, s.currentTerm)
    && (s.role == Leader ==>
          && s.currentTerm in ll && ll[s.currentTerm] == s.logs
          && (h, s.currentTerm) in matched && matched[(h, s.currentTerm)] == |s.logs|)
    && (s.electionTerm > 0 ==> (h, s.electionTerm) in cl)
    && (s.electionTerm == s.currentTerm > 0 && s.currentTerm !in ll ==> s.logs == cl[(h, s.currentTerm)])
  }

  /** A candidate's log has older terms only. */
  ghost predicate CandidateLogOk(ll: LeaderLogs, servers: Servers, key: (Host, nat), g: Log) {
    && Rooted(ll, g) && key.1 > 0 && TermsUpTo(g, key.1 - 1)
    && key.0 in servers && key.1 <= servers[key.0].currentTerm
  }

  ghost predicate VoteLogOk(ll: LeaderLogs, servers: Servers, key: (Host, nat), g: Log) {
    Rooted(ll, g) && key.0 in servers && key.1 <= servers[key.0].disk.term
  }

  /** Who voted had a log no more up-to-date than the candidate's. */
  predicate BallotLogOk(vl: HostLogs, cl: HostLogs, b: Ballot) {
    && (b.voter, b.term) in vl && (b.candidate, b.term) in cl
    && UpToDate(|cl[(b.candidate, b.term)]|, LastTerm(cl[(b.candidate, b.term)]), vl[(b.voter, b.term)])
  }

  /** A leader started from its candidate's log. */
  predicate ReignLogOk(ll: LeaderLogs, cl: HostLogs, matched: Matched, r: Reign) {
    && r.term in ll && (r.leader, r.term) in cl && cl[(r.leader, r.term)] <= ll[r.term]
    && (r.leader, r.term) in matched
  }

  predicate MatchedOk(ll: LeaderLogs, servers: Servers, key: (Host, nat), n: nat) {
    && key.0 in servers && key.1 <= servers[key.0].currentTerm
    && key.1 in ll && n <= |ll[key.1]|
  }

  /** The message carries entries of its leader's log, right after its previous entry. */
  predicate SliceOf(ll: LeaderLogs, p: AppendParams) {
    && p.term in ll
    && p.prevLogIndex + |p.entries| <= |ll[p.term]|
    && p.prevLogTerm == TermAt(ll[p.term], p.prevLogIndex)
    && p.entries == ll[p.term][p.prevLogIndex..p.prevLogIndex + |p.entries|]
  }

  predicate MessageLogOk(ll: LeaderLogs, cl: HostLogs, matched: Matched, m: Message) {
    match m
    case VoteRequest(_, v) =>
      && (v.candidateId, v.term) in cl
      && v.lastLogIndex == |cl[(v.candidateId, v.term)]|
      && v.lastLogTerm == LastTerm(cl[(v.candidateId, v.term)])
    case VoteReply(_, _, _, _) => true
    case AppendRequest(_, p) => SliceOf(ll, p)
    case AppendReply(from, _, term, prev, count, success) =>
      success ==> (from, term) in matched && prev + count <= matched[(from, term)]
  }

  ghost predicate HasLeader(reigns: Reigns, term: nat) {
    exists r :: r in reigns && r.term == term
  }

  ghost predicate LogInv(c: Config, st: Cluster) {
    && st.servers.Keys == c.members
    && LeaderLogsOk(st.leaderLogs)
    && (forall t {:trigger HasLeader(st.reigns, t)} :: t in st.leaderLogs ==> HasLeader(st.reigns, t))
    && (forall h {:trigger ServerLogOk(st.leaderLogs, st.candidateLogs, st.matched, h, st.servers[h])} ::
          h in c.members ==> ServerLogOk(st.leaderLogs, st.candidateLogs, st.matched, h, st.servers[h]))
    && (forall k {:trigger CandidateLogOk(st.leaderLogs, st.servers, k, st.candidateLogs[k])} ::
          k in st.candidateLogs ==> CandidateLogOk(st.leaderLogs, st.servers, k, st.candidateLogs[k]))
    && (forall k {:trigger VoteLogOk(st.leaderLogs, st.servers, k, st.voteLogs[k])} ::
          k in st.voteLogs ==> VoteLogOk(st.leaderLogs, st.servers, k, st.voteLogs[k]))
    && (forall b {:trigger BallotLogOk(st.voteLogs, st.candidateLogs, b)} ::
          b in st.ballots ==> BallotLogOk(st.voteLogs, st.candidateLogs, b))
    && (forall r {:trigger ReignLogOk(st.leaderLogs, st.candidateLogs, st.matched, r)} ::
          r in st.reigns ==> ReignLogOk(st.leaderLogs, st.candidateLogs, st.matched, r))
    && (forall k {:trigger MatchedOk(st.leaderLogs, st.servers, k, st.matched[k])} ::
          k in st.matched ==> MatchedOk(st.leaderLogs, st.servers, k, st.matched[k]))
    && (forall m {:trigger MessageLogOk(st.leaderLogs, st.candidateLogs, st.matched, m)} ::
          m in st.net ==> MessageLogOk(st.leaderLogs, st.candidateLogs, st.matched, m))
  }

  // ----- steps only add to the record -----

  predicate SameOrMore(a: HostLogs, b: HostLogs) {
    forall k {:trigger k in b} :: k in a ==> k in b && a[k] == b[k]
  }

  /** Confirmations are never taken back, and only h's own change. */
  ghost predicate MatchedGrows(h: Host, a: Matched, b: Matched) {
    forall k {:trigger k in b} :: k in a ==> k in b && a[k] <= b[k] && (k.0 != h ==> a[k] == b[k])
  }

  /** Server h takes a step: terms and votes move forward, the record grows, and only h's own reign and
      confirmations change. */
  ghost predicate Evolves(c: Config, st: Cluster, h: Host, st': Cluster) {
    && h in c.members && st.servers.Keys == st'.servers.Keys == c.members
    && st'.servers == st.servers[h := st'.servers[h]]
    && st.servers[h].currentTerm <= st'.servers[h].currentTerm
    && st.servers[h].disk.term <= st'.servers[h].disk.term
    && Grows(st.leaderLogs, st'.leaderLogs)
    && (forall t {:trigger t in st'.leaderLogs} ::
          t in st.leaderLogs && st'.leaderLogs[t] != st.leaderLogs[t] ==> Reign(t, h) in st.reigns)
    && SameOrMore(st.candidateLogs, st'.candidateLogs)
    && SameOrMore(st.voteLogs, st'.voteLogs)
    && MatchedGrows(h, st.matched, st'.matched)
    && (forall r {:trigger r in st'.reigns} :: r in st.reigns ==> r in st'.reigns && st.reigns[r] == st'.reigns[r])
  }

  /** What the step adds fits the record. */
  ghost predicate AdditionsOk(st: Cluster, h: Host, st': Cluster)
    requires h in st'.servers
  {
    && LeaderLogsOk(st'.leaderLogs)
    && ServerLogOk(st'.leaderLogs, st'.candidateLogs, st'.matched, h, st'.servers[h])
    && (forall t {:trigger HasLeader(st'.reigns, t)} ::
          t in st'.leaderLogs && t !in st.leaderLogs ==> HasLeader(st'.reigns, t))
    && (forall k {:trigger CandidateLogOk(st'.leaderLogs, st'.servers, k, st'.candidateLogs[k])} ::
          k in st'.candidateLogs && k !in st.candidateLogs ==>
            CandidateLogOk(st'.leaderLogs, st'.servers, k, st'.candidateLogs[k]))
    && (forall k {:trigger VoteLogOk(st'.leaderLogs, st'.servers, k, st'.voteLogs[k])} ::
          k in st'.voteLogs && k !in st.voteLogs ==> VoteLogOk(st'.leaderLogs, st'.servers, k, st'.voteLogs[k]))
    && (forall b {:trigger BallotLogOk(st'.voteLogs, st'.candidateLogs, b)} ::
          b in st'.ballots && b !in st.ballots ==> BallotLogOk(st'.voteLogs, st'.candidateLogs, b))
    && (forall r {:trigger ReignLogOk(st'.leaderLogs, st'.candidateLogs, st'.matched, r)} ::
          r in st'.reigns && r !in st.reigns ==> ReignLogOk(st'.leaderLogs, st'.candidateLogs, st'.matched, r))
    && (forall k {:trigger MatchedOk(st'.leaderLogs, st'.servers, k, st'.matched[k])} ::
          k in st'.matched && !(k in st.matched && st.matched[k] == st'.matched[k]) ==>
            MatchedOk(st'.leaderLogs, st'.servers, k, st'.matched[k]))
    && (forall m {:trigger MessageLogOk(st'.leaderLogs, st'.candidateLogs, st'.matched, m)} ::
          m in st'.net && m !in st.net ==> MessageLogOk(st'.leaderLogs, st'.candidateLogs, st'.matched, m))
  }

  lemma OtherServerLogs(c: Config, st: Cluster, h: Host, st': Cluster, k: Host)
    requires ElectionInv(c, st) && LogInv(c, st) && Evolves(c, st, h, st') && k in c.members && k != h
    ensures ServerLogOk(st'.leaderLogs, st'.candidateLogs, st'.matched, k, st'.servers[k])
  {
    var s := st.servers[k];
    assert ServerLogOk(st.leaderLogs, st.candidateLogs, st.matched, k, s);
    assert ServerOk(c, st.ballots, st.reigns, k, s);
    RootedGrows(st.leaderLogs, st'.leaderLogs, s.logs);
    if s.role == Leader {
      assert s.currentTerm in st'.leaderLogs && (k, s.currentTerm) in st'.matched;
      if Reign(s.currentTerm, h) in st.reigns {
        OneLeaderPerTerm(c, st, Reign(s.currentTerm, h), Reign(s.currentTerm, k));
      }
    }
    assert s.electionTerm > 0 ==> (k, s.electionTerm) in st'.candidateLogs;
    assert s.currentTerm in st.leaderLogs ==> s.currentTerm in st'.leaderLogs;
  }

  lemma OldMessage(c: Config, st: Cluster, h: Host, st': Cluster, m: Message)
    requires LogInv(c, st) && Evolves(c, st, h, st') && m in st.net
    ensures MessageLogOk(st'.leaderLogs, st'.candidateLogs, st'.matched, m)
  {
    assert MessageLogOk(st.leaderLogs, st.candidateLogs, st.matched, m);
    match m
    case VoteRequest(_, v) => assert (v.candidateId, v.term) in st'.candidateLogs;
    case VoteReply(_, _, _, _) =>
    case AppendRequest(_, p) =>
      assert p.term in st'.leaderLogs;
      SliceGrows(st.leaderLogs, st'.leaderLogs, p);
    case AppendReply(from, _, term, _, _, _) => assert (from, term) in st.matched ==> (from, term) in st'.matched;
  }

  lemma SliceGrows(ll: LeaderLogs, ll': LeaderLogs, p: AppendParams)
    requires SliceOf(ll, p) && p.term in ll' && ll[p.term] <= ll'[p.term]
    ensures SliceOf(ll', p)
  {
  }

  lemma OldBallot(c: Config, st: Cluster, h: Host, st': Cluster, b: Ballot)
    requires LogInv(c, st) && Evolves(c, st, h, st') && b in st.ballots
    ensures BallotLogOk(st'.voteLogs, st'.candidateLogs, b)
  {
    assert BallotLogOk(st.voteLogs, st.candidateLogs, b);
    assert (b.voter, b.term) in st'.voteLogs;
    assert (b.candidate, b.term) in st'.candidateLogs;
  }

  lemma OldReign(c: Config, st: Cluster, h: Host, st': Cluster, r: Reign)
    requires LogInv(c, st) && Evolves(c, st, h, st') && r in st.reigns
    ensures ReignLogOk(st'.leaderLogs, st'.candidateLogs, st'.matched, r)
  {
    assert ReignLogOk(st.leaderLogs, st.candidateLogs, st.matched, r);
    var key := (r.leader, r.term);
    assert key in st.candidateLogs;
    assert SameOrMore(st.candidateLogs, st'.candidateLogs);
    assert key in st'.candidateLogs;
    assert MatchedGrows(h, st.matched, st'.matched);
    assert key in st'.matched;
    assert r.term in st'.leaderLogs;
  }

  lemma OldRecords(c: Config, st: Cluster, h: Host, st': Cluster)
    requires LogInv(c, st) && Evolves(c, st, h, st')
    ensures forall k :: k in st.candidateLogs ==>
              k in st'.candidateLogs && CandidateLogOk(st'.leaderLogs, st'.servers, k, st'.candidateLogs[k])
    ensures forall k :: k in st.voteLogs ==>
              k in st'.voteLogs && VoteLogOk(st'.leaderLogs, st'.servers, k, st'.voteLogs[k])
    ensures forall k :: k in st.matched ==>
              k in st'.matched && MatchedOk(st'.leaderLogs, st'.servers, k, st.matched[k])
  {
    forall k | k in st.candidateLogs
      ensures k in st'.candidateLogs && CandidateLogOk(st'.leaderLogs, st'.servers, k, st'.candidateLogs[k])
    {
      assert CandidateLogOk(st.leaderLogs, st.servers, k, st.candidateLogs[k]);
      assert k in st'.candidateLogs;
      RootedGrows(st.leaderLogs, st'.leaderLogs, st.candidateLogs[k]);
    }
    forall k | k in st.voteLogs
      ensures k in st'.voteLogs && VoteLogOk(st'.leaderLogs, st'.servers, k, st'.voteLogs[k])
    {
      assert VoteLogOk(st.leaderLogs, st.servers, k, st.voteLogs[k]);
      assert k in st'.voteLogs;
      RootedGrows(st.leaderLogs, st'.leaderLogs, st.voteLogs[k]);
    }
    forall k | k in st.matched
      ensures k in st'.matched && MatchedOk(st'.leaderLogs, st'.servers, k, st.matched[k])
    {
      assert MatchedOk(st.leaderLogs, st.servers, k, st.matched[k]);
      assert k in st'.matched && k.1 in st'.leaderLogs;
    }
  }

  lemma EvolutionKeeps(c: Config, st: Cluster, h: Host, st': Cluster)
    requires ElectionInv(c, st) && LogInv(c, st) && Evolves(c, st, h, st') && AdditionsOk(st, h, st')
    ensures LogInv(c, st')
  {
    forall t | t in st'.leaderLogs ensures HasLeader(st'.reigns, t) {
      if t in st.leaderLogs {
        assert HasLeader(st.reigns, t);
        var r :| r in st.reigns && r.term == t;
        assert r in st'.reigns;
      }
    }
    forall k | k in c.members && k != h
      ensures ServerLogOk(st'.leaderLogs, st'.candidateLogs, st'.matched, k, st'.servers[k])
    {
      OtherServerLogs(c, st, h, st', k);
    }
    forall m | m in st.net ensures MessageLogOk(st'.leaderLogs, st'.candidateLogs, st'.matched, m) {
      OldMessage(c, st, h, st', m);
    }
    forall b | b in st.ballots ensures BallotLogOk(st'.voteLogs, st'.candidateLogs, b) {
      OldBallot(c, st, h, st', b);
    }
    forall r | r in st.reigns ensures ReignLogOk(st'.leaderLogs, st'.candidateLogs, st'.matched, r) {
      OldReign(c, st, h, st', r);
    }
    OldRecords(c, st, h, st');
  }
}
