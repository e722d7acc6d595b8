/** Three checks the source leaves out: that counted votes are for the candidate's present term, that a reply belongs
    to the leader's present term (both G4), and that a server still leads when it builds a message with entries (G13).
    Each is tied, in every reachable state, to what it protects. The last part does the same for the message that a
    follower accepts (G3). src/raft/raft.cpp:179-216, 398-418, 461-465, 628-631, 697-715. */
module RaftGuards {
  import opened RaftTypes
  import opened RaftServer
  import opened RaftCluster
  import opened RaftElection
  import opened RaftLogs
  import opened RaftLogInv
  import opened RaftLogSteps
  import opened RaftCommit
  import opened RaftSafety
  import opened RaftDepartures

  // ----- what the terms of a server and the record of votes say about each other -----

  /** Votes are only given to servers that stood, and so voted for themselves. */
  predicate Stood(ballots: Ballots, term: nat, candidate: Host) {
    Ballot(candidate, term, candidate) in ballots
  }

  /** A server that stood in its present term is still in that election, unless it restarted. */
  predicate StandingOk(ballots: Ballots, h: Host, s: Server) {
    Stood(ballots, s.currentTerm, h) ==> s.electionTerm == 0 || s.electionTerm == s.currentTerm
  }

  /** Only a server that stood asks for votes, and only the leader of its term is answered. */
  predicate AskedOk(ballots: Ballots, reigns: Reigns, m: Message) {
    match m
    case VoteRequest(_, vote) => Stood(ballots, vote.term, vote.candidateId)
    case AppendReply(_, to, term, _, _, _) => Reign(term, to) in reigns
    case _ => true
  }

  ghost predicate StandingInv(c: Config, st: Cluster) {
    && st.servers.Keys == c.members
    && (forall b {:trigger b in st.ballots} :: b in st.ballots ==> Stood(st.ballots, b.term, b.candidate))
    && (forall m {:trigger AskedOk(st.ballots, st.reigns, m)} :: m in st.net ==> AskedOk(st.ballots, st.reigns, m))
    && (forall h {:trigger StandingOk(st.ballots, h, st.servers[h])} ::
          h in c.members ==> StandingOk(st.ballots, h, st.servers[h]))
  }

  /** A server that was elected in its present term is still in that election, and it does not stand in the next one:
      it has to hear of a later term first. */
  predicate ReigningOk(servers: Servers, ballots: Ballots, r: Reign) {
    && r.leader in servers
    && (r.term == servers[r.leader].currentTerm ==> servers[r.leader].electionTerm == r.term)
    && !Stood(ballots, r.term + 1, r.leader)
  }

  /** True as long as nobody restarts. */
  ghost predicate ReigningInv(st: Cluster) {
    forall r {:trigger ReigningOk(st.servers, st.ballots, r)} ::
      r in st.reigns ==> ReigningOk(st.servers, st.ballots, r)
  }

  /** What a step of server h, from o to s, does to its terms and to the record of votes. */
  ghost predicate TermStep(c: Config, st: Cluster, h: Host, o: Server, s: Server, restart: bool, st': Cluster) {
    && h in c.members && st.servers.Keys == c.members && st.servers[h] == o && st'.servers == st.servers[h := s]
    && (|| (s.currentTerm == o.currentTerm && s.electionTerm == o.electionTerm)
        || s.currentTerm > o.currentTerm
        || (restart && s.electionTerm == 0))
    && st.ballots <= st'.ballots
    && (forall b {:trigger b in st'.ballots} :: b in st'.ballots && b !in st.ballots ==>
          Stood(st'.ballots, b.term, b.candidate)
          && (b.candidate == b.voter ==>
                b == Ballot(h, o.currentTerm + 1, h) && o.role == Candidate
                && s.electionTerm == s.currentTerm == o.currentTerm + 1))
    && (forall m {:trigger m in st'.net} :: m in st'.net && m !in st.net ==> AskedOk(st'.ballots, st'.reigns, m))
    && st.reigns.Keys <= st'.reigns.Keys
    && (forall r {:trigger r in st'.reigns} :: r in st'.reigns && r !in st.reigns ==>
          r == Reign(s.currentTerm, h) && s.electionTerm == s.currentTerm)
  }

  lemma StandingStays(c: Config, st: Cluster, h: Host, o: Server, s: Server, restart: bool, st': Cluster)
    requires ElectionInv(c, st) && StandingInv(c, st) && TermStep(c, st, h, o, s, restart, st')
    ensures StandingInv(c, st')
  {
    TermsOf(c, st, h);
    forall k | k in c.members ensures StandingOk(st'.ballots, k, st'.servers[k]) {
      assert StandingOk(st.ballots, k, st.servers[k]);
      var own := Ballot(k, st'.servers[k].currentTerm, k);
      if own in st.ballots {
        assert BallotOk(c, st.servers, own);
      }
    }
    forall m | m in st'.net ensures AskedOk(st'.ballots, st'.reigns, m) {
      if m in st.net {
        assert AskedOk(st.ballots, st.reigns, m);
      }
    }
    forall b | b in st'.ballots ensures Stood(st'.ballots, b.term, b.candidate) {
      assert b in st.ballots ==> Stood(st.ballots, b.term, b.candidate);
    }
  }

  lemma ReigningStays(c: Config, st: Cluster, h: Host, o: Server, s: Server, st': Cluster)
    requires ElectionInv(c, st) && ReigningInv(st) && TermStep(c, st, h, o, s, false, st')
    ensures ReigningInv(st')
  {
    TermsOf(c, st, h);
    forall r | r in st'.reigns ensures ReigningOk(st'.servers, st'.ballots, r) {
      var next := Ballot(r.leader, r.term + 1, r.leader);
      if r in st.reigns {
        assert ReignOk(c, st.servers, st.ballots, r, st.reigns[r]) && ReigningOk(st.servers, st.ballots, r);
      } else {
        assert next in st.ballots ==> BallotOk(c, st.servers, next);
      }
    }
  }

  lemma VoteTerms(c: Config, st: Cluster, m: Message, s: Server, r: VoteResult, st': Cluster)
    requires ElectionInv(c, st) && StandingInv(c, st) && m in st.net && m.VoteRequest? && m.to in c.members
    requires RequestVote(st.servers[m.to], m.vote) == (s, r)
    requires st' == AfterVote(st, m.to, m.vote, s, r.voteGranted)
    ensures TermStep(c, st, m.to, st.servers[m.to], s, false, st')
  {
    assert MessageOk(c, st.ballots, st.reigns, m) && AskedOk(st.ballots, st.reigns, m);
    assert ServerOk(c, st.ballots, st.reigns, m.to, st.servers[m.to]);
    VoteFacts(st.servers[m.to], m.vote, s, r);
  }

  lemma BeginTerms(c: Config, st: Cluster, h: Host, st': Cluster)
    requires ElectionInv(c, st) && StandingInv(c, st) && h in c.members && st.servers[h].role == Candidate
    requires st' == AfterBegin(c, st, h, StartElection(st.servers[h], h))
    ensures TermStep(c, st, h, st.servers[h], st'.servers[h], false, st')
  {
  }

  lemma VotingTerms(c: Config, st: Cluster, step: Step, st': Cluster)
    requires ValidConfig(c) && ElectionInv(c, st) && StandingInv(c, st) && Enabled(c, st, step)
    requires step.BeginElection? || step.DeliverVoteRequest? || step.WinElection?
    requires st' == Do(c, st, step)
    ensures TermStep(c, st, Actor(step), st.servers[Actor(step)], st'.servers[Actor(step)], false, st')
  {
    if step.DeliverVoteRequest? {
      var (s, r) := RequestVote(st.servers[step.m.to], step.m.vote);
      VoteTerms(c, st, step.m, s, r, st');
    } else if step.BeginElection? {
      BeginTerms(c, st, step.h, st');
    }
  }

  lemma AppendTerms(c: Config, st: Cluster, h: Host, p: AppendParams, s: Server, success: bool, st': Cluster)
    requires ElectionInv(c, st) && AppendRequest(h, p) in st.net && h in c.members
    requires AppendEffect(st.servers[h], p, s) && st' == AfterAppend(st, h, p, s, success)
    ensures TermStep(c, st, h, st.servers[h], s, false, st')
  {
    assert MessageOk(c, st.ballots, st.reigns, AppendRequest(h, p));
  }

  lemma StartTerms(c: Config, st: Cluster, h: Host, s: Server, st': Cluster)
    requires st.servers.Keys == c.members && h in c.members && s == st.servers[h].(logs := s.logs)
    requires st' == AfterStart(st, h, s)
    ensures TermStep(c, st, h, st.servers[h], s, false, st')
  {
  }

  lemma SendTerms(c: Config, st: Cluster, h: Host, to: Host, p: Option<AppendParams>, st': Cluster)
    requires st.servers.Keys == c.members && h in c.members && st' == AfterSend(st, h, to, p)
    ensures st'.servers.Keys == c.members
    ensures TermStep(c, st, h, st.servers[h], st'.servers[h], false, st')
  {
  }

  lemma LocalTerms(c: Config, st: Cluster, step: Step, s: Server)
    requires ValidConfig(c) && ElectionInv(c, st) && Enabled(c, st, step) && IsLocal(step)
    requires s == LocalResult(c, st, step)
    ensures TermStep(c, st, Actor(step), st.servers[Actor(step)], s, step.Restart?, SetServer(st, Actor(step), s))
  {
    var h := Actor(step);
    assert ServerOk(c, st.ballots, st.reigns, h, st.servers[h]);
    LocalFacts(c, st, step, st.servers[h], s);
  }

  lemma SendOf(c: Config, st: Cluster, step: Step) returns (p: Option<AppendParams>)
    requires ValidConfig(c) && st.servers.Keys == c.members && Enabled(c, st, step)
    requires step.SendHeartbeat? || step.SendLogs?
    ensures Do(c, st, step) == AfterSend(st, step.h, c.peers[step.h][step.peer], p)
  {
    var s := st.servers[step.h];
    p := if step.SendHeartbeat? then BuildParams(s, step.h, step.peer) else BuildWithLogs(s, step.h, step.peer);
  }

  ghost predicate TermInv(c: Config, st: Cluster, restarts: bool) {
    ElectionInv(c, st) && StandingInv(c, st) && (!restarts ==> ReigningInv(st))
  }

  lemma TermStepKeeps(c: Config, st: Cluster, h: Host, s: Server, restart: bool, restarts: bool, st': Cluster)
    requires TermInv(c, st, restarts) && (restart ==> restarts) && h in st.servers
    requires TermStep(c, st, h, st.servers[h], s, restart, st') && ElectionInv(c, st')
    ensures TermInv(c, st', restarts)
  {
    StandingStays(c, st, h, st.servers[h], s, restart, st');
    if !restarts {
      ReigningStays(c, st, h, st.servers[h], s, st');
    }
  }

  lemma ServerKeepsTerms(c: Config, st: Cluster, step: Step, h: Host, s: Server, restarts: bool, st': Cluster)
    requires ValidConfig(c) && TermInv(c, st, restarts) && Enabled(c, st, step) && (step.Restart? ==> restarts)
    requires IsLocal(step) && h == Actor(step) && s == LocalResult(c, st, step)
    requires st' == SetServer(st, h, s) && ElectionInv(c, st')
    ensures TermInv(c, st', restarts)
  {
    LocalTerms(c, st, step, s);
    TermStepKeeps(c, st, h, s, step.Restart?, restarts, st');
  }

  lemma LocalKeepsTerms(c: Config, st: Cluster, step: Step, restarts: bool, st': Cluster)
    requires ValidConfig(c) && TermInv(c, st, restarts) && Enabled(c, st, step) && (step.Restart? ==> restarts)
    requires IsLocal(step) && st' == Do(c, st, step) && ElectionInv(c, st')
    ensures TermInv(c, st', restarts)
  {
    ServerKeepsTerms(c, st, step, Actor(step), LocalResult(c, st, step), restarts, st');
  }

  lemma SendKeepsTerms(c: Config, st: Cluster, step: Step, restarts: bool, st': Cluster)
    requires ValidConfig(c) && TermInv(c, st, restarts) && Enabled(c, st, step)
    requires (step.SendHeartbeat? || step.SendLogs?) && st' == Do(c, st, step) && ElectionInv(c, st')
    ensures TermInv(c, st', restarts)
  {
    var p := SendOf(c, st, step);
    SendTerms(c, st, step.h, c.peers[step.h][step.peer], p, st');
    TermStepKeeps(c, st, step.h, st'.servers[step.h], false, restarts, st');
  }

  lemma StartKeepsTerms(c: Config, st: Cluster, h: Host, command: string, restarts: bool, st': Cluster)
    requires TermInv(c, st, restarts) && h in c.members && ElectionInv(c, st')
    requires st' == AfterStart(st, h, Start(st.servers[h], command))
    ensures TermInv(c, st', restarts)
  {
    var s := Start(st.servers[h], command);
    StartTerms(c, st, h, s, st');
    TermStepKeeps(c, st, h, s, false, restarts, st');
  }

  lemma AppendKeepsTerms(c: Config, st: Cluster, h: Host, p: AppendParams, s: Server, success: bool, restarts: bool,
                         st': Cluster)
    requires TermInv(c, st, restarts) && AppendRequest(h, p) in st.net && h in c.members && ElectionInv(c, st')
    requires AppendEntries(c.check, st.servers[h], p).0 == s && st' == AfterAppend(st, h, p, s, success)
    ensures TermInv(c, st', restarts)
  {
    NoRival(c, st, h, p);
    AppendFacts(c.check, st.servers[h], p);
    AppendTerms(c, st, h, p, s, success, st');
    TermStepKeeps(c, st, h, s, false, restarts, st');
  }

  lemma VotingKeepsTerms(c: Config, st: Cluster, step: Step, restarts: bool, st': Cluster)
    requires ValidConfig(c) && TermInv(c, st, restarts) && Enabled(c, st, step)
    requires step.BeginElection? || step.DeliverVoteRequest? || step.WinElection?
    requires st' == Do(c, st, step) && ElectionInv(c, st')
    ensures TermInv(c, st', restarts)
  {
    VotingTerms(c, st, step, st');
    TermStepKeeps(c, st, Actor(step), st'.servers[Actor(step)], false, restarts, st');
  }

  lemma LogKeepsTerms(c: Config, st: Cluster, step: Step, restarts: bool, st': Cluster)
    requires ValidConfig(c) && TermInv(c, st, restarts) && Enabled(c, st, step)
    requires (step.ClientStart? || step.DeliverAppendRequest?) && st' == Do(c, st, step) && ElectionInv(c, st')
    ensures TermInv(c, st', restarts)
  {
    if step.ClientStart? {
      StartKeepsTerms(c, st, step.h, step.command, restarts, st');
    } else {
      var (s, r) := AppendEntries(c.check, st.servers[step.m.to], step.m.append);
      AppendKeepsTerms(c, st, step.m.to, step.m.append, s, r.success, restarts, st');
    }
  }

  lemma StepKeepsTerms(c: Config, st: Cluster, step: Step, restarts: bool, st': Cluster)
    requires ValidConfig(c) && TermInv(c, st, restarts) && Enabled(c, st, step) && (step.Restart? ==> restarts)
    requires st' == Do(c, st, step) && ElectionInv(c, st')
    ensures TermInv(c, st', restarts)
  {
    if IsLocal(step) {
      LocalKeepsTerms(c, st, step, restarts, st');
    } else if step.SendHeartbeat? || step.SendLogs? {
      SendKeepsTerms(c, st, step, restarts, st');
    } else if step.ClientStart? || step.DeliverAppendRequest? {
      LogKeepsTerms(c, st, step, restarts, st');
    } else {
      VotingKeepsTerms(c, st, step, restarts, st');
    }
  }

  lemma FewerSteps(steps: seq<Step>)
    requires steps != []
    ensures NoRestart(steps) ==> NoRestart(steps[..|steps| - 1]) && !steps[|steps| - 1].Restart?
    ensures steps[|steps| - 1].Restart? ==> !NoRestart(steps)
  {
  }

  lemma {:induction false} RunKeepsTerms(c: Config, steps: seq<Step>, restarts: bool, st: Cluster)
    requires ValidConfig(c) && IsRun(c, steps, restarts, st)
    ensures TermInv(c, st, !NoRestart(steps))
  {
    if steps == [] {
      EmptyRun(c, restarts, st);
      InitElection(c);
    } else {
      var n := |steps| - 1;
      var before := LastStep(c, steps, restarts, st);
      RunKeepsTerms(c, steps[..n], restarts, before);
      FewerSteps(steps);
      StepKeepsElection(c, before, steps[n]);
      StepKeepsTerms(c, before, steps[n], !NoRestart(steps), st);
    }
  }

  // ----- G4: votes -----

  /** What the source asks for at the end of an election. */
  predicate WinsAsWritten(c: Config, st: Cluster, h: Host, voters: set<Host>) {
    && Alive(st, h) && st.servers[h].role == Candidate && st.servers[h].electionTerm > 0
    && Majority(c, voters)
    && (forall v :: v in voters && v != h ==> VoteReply(v, h, st.servers[h].electionTerm, true) in st.net)
  }

  /** In every reachable state, restarts included: the votes a winner counts are votes of the term it becomes leader of
      exactly when that is the term it asked for them in. */
  lemma CountedVotes(c: Config, steps: seq<Step>, restarts: bool, st: Cluster, h: Host, voters: set<Host>)
    requires ValidConfig(c) && IsRun(c, steps, restarts, st) && WinsAsWritten(c, st, h, voters)
    ensures (forall v :: v in voters ==> Ballot(v, st.servers[h].currentTerm, h) in st.ballots) <==>
              st.servers[h].electionTerm == st.servers[h].currentTerm
  {
    RunKeepsTerms(c, steps, restarts, st);
    var s := st.servers[h];
    assert ServerOk(c, st.ballots, st.reigns, h, s) && StandingOk(st.ballots, h, s);
    if s.electionTerm == s.currentTerm {
      VotesCounted(c, st, h, voters);
    } else {
      assert voters != {};
      var v :| v in voters;
      assert Ballot(v, s.currentTerm, h) in st.ballots ==> Stood(st.ballots, s.currentTerm, h);
    }
  }

  // ----- G13: messages with entries -----

  /** In every reachable state of a run without restart: what a server builds names a term it was elected in exactly
      when it is still leader. */
  lemma BuiltMessages(c: Config, steps: seq<Step>, st: Cluster, h: Host, peer: nat, p: AppendParams)
    requires ValidConfig(c) && IsRun(c, steps, false, st) && NoRestart(steps) && h in c.members
    requires st.servers.Keys == c.members && peer < |st.servers[h].nextIndex|
    requires BuildParams(st.servers[h], h, peer) == Some(p) || BuildWithLogs(st.servers[h], h, peer) == Some(p)
    ensures Reign(p.term, p.leaderId) in st.reigns <==> st.servers[h].role == Leader
  {
    RunKeepsTerms(c, steps, false, st);
    var s, r := st.servers[h], Reign(p.term, p.leaderId);
    assert r == Reign(s.currentTerm, h);
    assert ServerOk(c, st.ballots, st.reigns, h, s);
    if r in st.reigns {
      assert ReignOk(c, st.servers, st.ballots, r, st.reigns[r]) && ReigningOk(st.servers, st.ballots, r);
    }
  }

  // ----- G4: replies -----

  /** A reply the source acts on: by a peer, to a message with entries. */
  predicate RepliesAsWritten(c: Config, st: Cluster, m: Message, peer: nat) {
    && m in st.net && m.AppendReply? && m.count > 0 && Alive(st, m.to)
    && ValidPeer(c, st, m.to, peer) && c.peers[m.to][peer] == m.from
  }

  /** The peer has confirmed that much to h as the leader of its present term. */
  predicate Confirms(c: Config, st: Cluster, h: Host, s: Server, peer: nat)
    requires h in c.peers && peer < |c.peers[h]| == |s.matchIndex|
  {
    && s.role == Leader && (c.peers[h][peer], s.currentTerm) in st.matched
    && s.matchIndex[peer] <= st.matched[(c.peers[h][peer], s.currentTerm)]
  }

  lemma SuccessSets(s: Server, i: nat, prev: nat, matched: nat, s': Server)
    requires i < |s.nextIndex| == |s.matchIndex| && s' == HandleReplicateResult(s, i, prev, matched, true)
    ensures s'.matchIndex == s.matchIndex[i := matched] && s'.role == s.role && s'.currentTerm == s.currentTerm
  {
  }

  /** The leader of a term was not the leader of the term before. */
  lemma NotTwiceRunning(c: Config, st: Cluster, h: Host, term: nat)
    requires ElectionInv(c, st) && StandingInv(c, st) && ReigningInv(st) && h in c.members
    requires st.servers[h].role == Leader && Reign(term, h) in st.reigns
    ensures st.servers[h].currentTerm != term + 1
  {
    var r := Reign(st.servers[h].currentTerm, h);
    assert ServerOk(c, st.ballots, st.reigns, h, st.servers[h]);
    assert ReignOk(c, st.servers, st.ballots, r, st.reigns[r]);
    assert st.reigns[r] != {};
    var v :| v in st.reigns[r];
    assert Ballot(v, r.term, h) in st.ballots && Stood(st.ballots, r.term, h);
    assert ReigningOk(st.servers, st.ballots, Reign(term, h));
  }

  /** A reply of the present term finds a leader; in a run without restart a leader's older replies are at least two
      terms old. */
  lemma ReplyTerms(c: Config, st: Cluster, m: Message)
    requires ElectionInv(c, st) && StandingInv(c, st) && ReigningInv(st)
    requires m in st.net && m.AppendReply? && m.to in c.members
    ensures m.term == st.servers[m.to].currentTerm ==> st.servers[m.to].role == Leader
    ensures st.servers[m.to].role == Leader && m.term != st.servers[m.to].currentTerm ==>
              st.servers[m.to].currentTerm >= m.term + 2
  {
    var r := Reign(m.term, m.to);
    TermsOf(c, st, m.to);
    assert AskedOk(st.ballots, st.reigns, m);
    assert ReignOk(c, st.servers, st.ballots, r, st.reigns[r]) && ReigningOk(st.servers, st.ballots, r);
    if st.servers[m.to].role == Leader {
      NotTwiceRunning(c, st, m.to, m.term);
    }
  }

  lemma SuccessConfirms(c: Config, st: Cluster, m: Message, peer: nat, s: Server)
    requires LogInv(c, st) && RepliesAsWritten(c, st, m, peer) && m.success
    requires s == HandleReplicateResult(st.servers[m.to], peer, m.prevLogIndex, m.prevLogIndex + m.count, true)
    ensures |s.matchIndex| == |c.peers[m.to]|
    ensures s.role == st.servers[m.to].role && s.currentTerm == st.servers[m.to].currentTerm
    ensures s.role == Leader && m.term == s.currentTerm ==> Confirms(c, st, m.to, s, peer)
  {
    SuccessSets(st.servers[m.to], peer, m.prevLogIndex, m.prevLogIndex + m.count, s);
    assert MessageLogOk(st.leaderLogs, st.candidateLogs, st.matched, m);
  }

  /** In every reachable state of a run without restart: a success to a message of the present term finds a leader and
      makes matchIndex a confirmation in that term, so testing the term is enough; and a leader can only be misled by a
      reply that is two terms old or older. */
  lemma ReplyConfirms(c: Config, steps: seq<Step>, st: Cluster, m: Message, peer: nat, s: Server)
    requires ValidConfig(c) && IsRun(c, steps, false, st) && NoRestart(steps)
    requires RepliesAsWritten(c, st, m, peer) && m.success
    requires s == HandleReplicateResult(st.servers[m.to], peer, m.prevLogIndex, m.prevLogIndex + m.count, true)
    ensures |s.matchIndex| == |c.peers[m.to]|
    ensures m.term == s.currentTerm ==> s.role == Leader && Confirms(c, st, m.to, s, peer)
    ensures s.role == Leader && !Confirms(c, st, m.to, s, peer) ==> s.currentTerm >= m.term + 2
  {
    RunKeepsTerms(c, steps, false, st);
    RunKeepsLogs(c, steps, st);
    SuccessConfirms(c, st, m, peer, s);
    ReplyTerms(c, st, m);
  }

  // ----- G3: the follower's commit bound -----

  /** In every reachable state of a run whose restarts lose nothing: a message that passes the check of the previous
      entry is what FollowAsWrittenExact and BoundAsWrittenExact ask for. */
  lemma AcceptedFromLeader(c: Config, steps: seq<Step>, st: Cluster, h: Host, p: AppendParams)
    requires ValidConfig(c) && |c.members| % 2 == 1 && IsRun(c, steps, false, st)
    requires h in c.members && AppendRequest(h, p) in st.net && st.servers.Keys == c.members
    requires var logs := st.servers[h].logs;
      p.prevLogIndex <= LastIndex(logs) && PrevMatches(c.check, logs, p.prevLogIndex, p.prevLogTerm)
    ensures p.term in st.leaderLogs && FromLeader(st.servers[h].logs, st.leaderLogs[p.term], p)
  {
    RunKeepsSafe(c, steps, st);
    var ll, logs := st.leaderLogs, st.servers[h].logs;
    assert ServerLogOk(ll, st.candidateLogs, st.matched, h, st.servers[h]);
    assert MessageLogOk(ll, st.candidateLogs, st.matched, AppendRequest(h, p));
    assert MessageCommitOk(c, st, AppendRequest(h, p));
    assert LeaderLogOk(ll, p.term);
    SliceIsFromLeader(c.check, ll, logs, p);
  }

  lemma SliceIsFromLeader(check: PrevCheck, ll: LeaderLogs, logs: Log, p: AppendParams)
    requires SliceOf(ll, p) && Rooted(ll, logs) && Rooted(ll, ll[p.term]) && p.leaderCommit <= |ll[p.term]|
    requires p.prevLogIndex <= LastIndex(logs) && PrevMatches(check, logs, p.prevLogIndex, p.prevLogTerm)
    ensures FromLeader(logs, ll[p.term], p)
  {
    var leader := ll[p.term];
    RootedConsecutive(ll, logs);
    PrevCheckSound(check, ll, logs, leader, p.prevLogIndex);
    SliceFits(ll, logs, leader, p.prevLogIndex, p.prevLogIndex + |p.entries|);
    RootedMatch(ll, logs, leader);
  }

  lemma RootedMatch(ll: LeaderLogs, a: Log, b: Log)
    requires Rooted(ll, a) && Rooted(ll, b)
    ensures Matching(a, b)
  {
    forall i {:trigger a[i].term} | 0 <= i < |a| && i < |b| && a[i].term == b[i].term
      ensures a[..i + 1] == b[..i + 1]
    {
      LogMatching(ll, a, b, i);
    }
  }
}
