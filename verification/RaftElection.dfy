/** Election Safety: over every run, with restarts and every behaviour of the network, a term has at most one
    leader, so the "Two leader in the same term!" stop is unreachable. */
module RaftElection {
  import opened RaftTypes
  import opened RaftServer
  import opened RaftCluster

  type Servers = map<Host, Server>
  type Ballots = set<Ballot>
  type Reigns = map<Reign, set<Host>>

  /** The saved vote is the vote of the last term the server voted in; later terms were adopted without a vote. */
  predicate SavedVote(s: Server) {
    && s.disk.term <= s.currentTerm
    && (s.disk.term == s.currentTerm ==> s.votedFor == s.disk.voteFor)
    && (s.disk.term < s.currentTerm ==> s.votedFor == NULL_HOST)
    && (s.disk.term > 0 ==> s.disk.voteFor != NULL_HOST)
  }

  /** A running election has its candidate's own vote, and a leader was elected. */
  predicate ServerOk(c: Config, ballots: Ballots, reigns: Reigns, h: Host, s: Server)
    requires h in c.peers
  {
    && |s.nextIndex| == |s.matchIndex| == |c.peers[h]|
    && SavedVote(s)
    && (s.electionTerm > 0 ==> Ballot(h, s.electionTerm, h) in ballots)
    && (s.disk.term > 0 ==> Ballot(h, s.disk.term, s.disk.voteFor) in ballots)
    && (s.role == Leader ==> Reign(s.currentTerm, h) in reigns)
    && s.fatal != TwoLeaders
  }

  /** Every vote ever granted is no later than the saved one, and equal to it in the same term. */
  predicate BallotOk(c: Config, servers: Servers, b: Ballot) {
    && b.voter in c.members && b.voter in servers
    && b.candidate in c.members
    && b.term <= servers[b.voter].disk.term
    && (b.term == servers[b.voter].disk.term ==> b.candidate == servers[b.voter].disk.voteFor)
  }

  predicate Agree(a: Ballot, b: Ballot) {
    a.voter == b.voter && a.term == b.term ==> a.candidate == b.candidate
  }

  ghost predicate OneVotePerTerm(ballots: Ballots) {
    forall a, b {:trigger Agree(a, b)} :: a in ballots && b in ballots ==> Agree(a, b)
  }

  predicate MessageOk(c: Config, ballots: Ballots, reigns: Reigns, m: Message) {
    match m
    case VoteRequest(to, vote) =>
      to in c.members && vote.candidateId in c.members && vote.candidateId != to && vote.term > 0
    case VoteReply(from, to, term, granted) => granted ==> Ballot(from, term, to) in ballots
    case AppendRequest(to, append) =>
      to in c.members && append.leaderId != to && Reign(append.term, append.leaderId) in reigns
    case AppendReply(from, to, _, _, _, _) => from in c.members && to in c.members
  }

  /** What a server knows of the elections it won: they are no later than its saved vote and not won again. */
  predicate WonOk(s: Server, term: nat) {
    0 < term <= s.disk.term && (term == s.electionTerm == s.currentTerm ==> s.role == Leader)
  }

  /** Going from o to s keeps WonOk. */
  predicate KeepsWins(o: Server, s: Server) {
    && o.disk.term <= s.disk.term
    && (0 < s.electionTerm == s.currentTerm <= o.disk.term ==>
          o.electionTerm == o.currentTerm == s.currentTerm && (o.role == Leader ==> s.role == Leader))
  }

  /** A leader had the votes of a majority. */
  ghost predicate ReignOk(c: Config, servers: Servers, ballots: Ballots, r: Reign, voters: set<Host>) {
    && r.leader in c.members && r.leader in servers
    && WonOk(servers[r.leader], r.term)
    && Majority(c, voters)
    && (forall v :: v in voters ==> Ballot(v, r.term, r.leader) in ballots)
  }

  ghost predicate ElectionInv(c: Config, st: Cluster) {
    && st.servers.Keys == c.members == c.peers.Keys
    && (forall h {:trigger ServerOk(c, st.ballots, st.reigns, h, st.servers[h])} ::
          h in c.members ==> ServerOk(c, st.ballots, st.reigns, h, st.servers[h]))
    && (forall b {:trigger BallotOk(c, st.servers, b)} :: b in st.ballots ==> BallotOk(c, st.servers, b))
    && OneVotePerTerm(st.ballots)
    && (forall m {:trigger MessageOk(c, st.ballots, st.reigns, m)} ::
          m in st.net ==> MessageOk(c, st.ballots, st.reigns, m))
    && (forall r {:trigger ReignOk(c, st.servers, st.ballots, r, st.reigns[r])} ::
          r in st.reigns ==> ReignOk(c, st.servers, st.ballots, r, st.reigns[r]))
  }

  lemma {:induction false} Smaller(a: set<Host>, b: set<Host>)
    requires a <= b
    ensures |a| <= |b|
  {
    if a != {} {
      var x :| x in a;
      Smaller(a - {x}, b - {x});
    }
  }

  /** Two majorities of the same members share a member. */
  lemma MajoritiesMeet(c: Config, a: set<Host>, b: set<Host>) returns (h: Host)
    requires Majority(c, a) && Majority(c, b)
    ensures h in a && h in b
  {
    if a * b == {} {
      assert |a + b| == |a| + |b|;
      Smaller(a + b, c.members);
    }
    h :| h in a * b;
  }

  /** Election Safety in one state. */
  lemma OneLeaderPerTerm(c: Config, st: Cluster, a: Reign, b: Reign)
    requires ElectionInv(c, st)
    requires a in st.reigns && b in st.reigns && a.term == b.term
    ensures a == b
  {
    assert ReignOk(c, st.servers, st.ballots, a, st.reigns[a]) && ReignOk(c, st.servers, st.ballots, b, st.reigns[b]);
    var v := MajoritiesMeet(c, st.reigns[a], st.reigns[b]);
    assert Agree(Ballot(v, a.term, a.leader), Ballot(v, a.term, b.leader));
  }

  lemma InitElection(c: Config)
    requires ValidConfig(c)
    ensures ElectionInv(c, Init(c))
  {
  }

  /** A step that changes server h alone, without a vote or a won election. */
  lemma QuietStepKeeps(c: Config, st: Cluster, h: Host, s: Server, net: set<Message>)
    requires ElectionInv(c, st) && h in c.members
    requires ServerOk(c, st.ballots, st.reigns, h, s) && s.disk == st.servers[h].disk
    requires KeepsWins(st.servers[h], s)
    requires forall m {:trigger MessageOk(c, st.ballots, st.reigns, m)} ::
               m in net && m !in st.net ==> MessageOk(c, st.ballots, st.reigns, m)
    ensures ElectionInv(c, SetServer(st, h, s).(net := net))
  {
    var st' := SetServer(st, h, s).(net := net);
    forall b | b in st'.ballots ensures BallotOk(c, st'.servers, b) {
      assert BallotOk(c, st.servers, b);
    }
    forall r | r in st'.reigns ensures ReignOk(c, st'.servers, st'.ballots, r, st'.reigns[r]) {
      assert ReignOk(c, st.servers, st.ballots, r, st.reigns[r]);
    }
  }

  /** A step in which server h votes and saves the vote, in a new term or again in the saved one. */
  lemma BallotStepKeeps(c: Config, st: Cluster, h: Host, s: Server, candidate: Host, net: set<Message>)
    requires ElectionInv(c, st) && h in c.members && candidate in c.members
    requires s.disk == Metadata(s.currentTerm, candidate)
    requires s.currentTerm > st.servers[h].disk.term || s.disk == st.servers[h].disk
    requires ServerOk(c, st.ballots + {Ballot(h, s.currentTerm, candidate)}, st.reigns, h, s)
    requires KeepsWins(st.servers[h], s)
    requires forall m {:trigger m in net} :: m in net && m !in st.net ==>
               MessageOk(c, st.ballots + {Ballot(h, s.currentTerm, candidate)}, st.reigns, m)
    ensures ElectionInv(c, SetServer(st, h, s).(net := net,
                                                ballots := st.ballots + {Ballot(h, s.currentTerm, candidate)}))
  {
    var b := Ballot(h, s.currentTerm, candidate);
    var st' := SetServer(st, h, s).(net := net, ballots := st.ballots + {b});
    forall a | a in st'.ballots
      ensures BallotOk(c, st'.servers, a) && Agree(a, b) && Agree(b, a)
    {
      assert a in st.ballots ==> BallotOk(c, st.servers, a);
    }
    forall a, a' | a in st.ballots && a' in st.ballots ensures Agree(a, a') {
    }
    forall k | k in c.members && k != h ensures ServerOk(c, st'.ballots, st'.reigns, k, st'.servers[k]) {
      assert ServerOk(c, st.ballots, st.reigns, k, st.servers[k]);
    }
    forall m | m in st.net ensures MessageOk(c, st'.ballots, st'.reigns, m) {
      assert MessageOk(c, st.ballots, st.reigns, m);
    }
    forall r | r in st'.reigns ensures ReignOk(c, st'.servers, st'.ballots, r, st'.reigns[r]) {
      assert ReignOk(c, st.servers, st.ballots, r, st.reigns[r]);
    }
  }

  /** What the invariant says about the terms of one server. */
  lemma TermsOf(c: Config, st: Cluster, h: Host)
    requires ElectionInv(c, st) && h in c.members
    ensures st.servers[h].electionTerm <= st.servers[h].disk.term <= st.servers[h].currentTerm
  {
    var s := st.servers[h];
    assert ServerOk(c, st.ballots, st.reigns, h, s);
    if s.electionTerm > 0 {
      assert BallotOk(c, st.servers, Ballot(h, s.electionTerm, h));
    }
  }

  lemma BeginKeeps(c: Config, st: Cluster, h: Host)
    requires ValidConfig(c) && ElectionInv(c, st) && h in c.members && st.servers[h].role == Candidate
    ensures ElectionInv(c, AfterBegin(c, st, h, StartElection(st.servers[h], h)))
  {
    TermsOf(c, st, h);
    var s := StartElection(st.servers[h], h);
    assert ServerOk(c, st.ballots, st.reigns, h, st.servers[h]);
    BallotStepKeeps(c, st, h, s, h, AfterBegin(c, st, h, s).net);
  }

  /** requestVote never changes the role without a new term, and a granted vote is the saved one. */
  lemma VoteFacts(s: Server, p: VoteParams, s': Server, r: VoteResult)
    requires RequestVote(s, p) == (s', r)
    ensures |s'.nextIndex| == |s.nextIndex| && |s'.matchIndex| == |s.matchIndex|
    ensures s'.fatal == s.fatal && s'.electionTerm == s.electionTerm && s'.logs == s.logs
    ensures s'.commitIndex == s.commitIndex && s'.applied == s.applied
    ensures s'.currentTerm == Max(s.currentTerm, p.term)
    ensures s'.currentTerm == s.currentTerm ==> s'.role == s.role
    ensures s'.currentTerm > s.currentTerm ==> s'.role == Follower
    ensures SavedVote(s) && p.candidateId != NULL_HOST && p.term > 0 ==> SavedVote(s')
    ensures r.voteGranted ==> s'.currentTerm == p.term && s'.disk == Metadata(p.term, p.candidateId)
    ensures r.voteGranted && SavedVote(s) && p.term > 0 ==> p.term > s.disk.term || s'.disk == s.disk
    ensures r.voteGranted ==> UpToDate(p.lastLogIndex, p.lastLogTerm, s.logs)
    ensures !r.voteGranted ==> s'.disk == s.disk
  {
  }

  lemma VoteKeeps(c: Config, st: Cluster, m: Message, s: Server, r: VoteResult)
    requires ValidConfig(c) && ElectionInv(c, st) && m in st.net && m.VoteRequest? && m.to in c.members
    requires RequestVote(st.servers[m.to], m.vote) == (s, r)
    ensures ElectionInv(c, AfterVote(st, m.to, m.vote, s, r.voteGranted))
  {
    var h, net := m.to, st.net + {VoteReply(m.to, m.vote.candidateId, m.vote.term, r.voteGranted)};
    TermsOf(c, st, h);
    assert MessageOk(c, st.ballots, st.reigns, m);
    assert ServerOk(c, st.ballots, st.reigns, h, st.servers[h]);
    VoteFacts(st.servers[h], m.vote, s, r);
    if r.voteGranted {
      BallotStepKeeps(c, st, h, s, m.vote.candidateId, net);
    } else {
      QuietStepKeeps(c, st, h, s, net);
    }
  }

  /** Each vote the candidate counted was granted to it in this term. */
  lemma VotesCounted(c: Config, st: Cluster, h: Host, voters: set<Host>)
    requires ValidConfig(c) && ElectionInv(c, st) && Enabled(c, st, WinElection(h, voters))
    ensures forall v :: v in voters ==> Ballot(v, st.servers[h].currentTerm, h) in st.ballots
  {
    assert ServerOk(c, st.ballots, st.reigns, h, st.servers[h]);
    forall v | v in voters && v != h ensures Ballot(v, st.servers[h].currentTerm, h) in st.ballots {
      assert MessageOk(c, st.ballots, st.reigns, VoteReply(v, h, st.servers[h].currentTerm, true));
    }
  }

  /** s is server h become leader with these voters. */
  ghost predicate Winning(c: Config, st: Cluster, h: Host, voters: set<Host>, s: Server) {
    && h in c.members && h in st.servers && h in c.peers && Majority(c, voters)
    && s == st.servers[h].(role := Leader, nextIndex := s.nextIndex, matchIndex := s.matchIndex)
    && |s.nextIndex| == |s.matchIndex| == |c.peers[h]|
    && s.electionTerm == s.currentTerm > 0
    && (forall v :: v in voters ==> Ballot(v, s.currentTerm, h) in st.ballots)
  }

  lemma WinReigns(c: Config, st: Cluster, h: Host, voters: set<Host>, s: Server, r: Reign)
    requires ElectionInv(c, st) && Winning(c, st, h, voters, s)
    requires r in st.reigns || r == Reign(s.currentTerm, h)
    ensures var st' := AfterWin(st, h, voters, s);
      ReignOk(c, st'.servers, st'.ballots, r, st'.reigns[r])
  {
    TermsOf(c, st, h);
    assert r in st.reigns ==> ReignOk(c, st.servers, st.ballots, r, st.reigns[r]);
  }

  lemma WinKeeps(c: Config, st: Cluster, h: Host, voters: set<Host>, s: Server)
    requires ElectionInv(c, st) && Winning(c, st, h, voters, s)
    ensures ElectionInv(c, AfterWin(st, h, voters, s))
  {
    var st' := AfterWin(st, h, voters, s);
    forall b | b in st'.ballots ensures BallotOk(c, st'.servers, b) {
      assert BallotOk(c, st.servers, b);
    }
    forall k | k in c.members ensures ServerOk(c, st'.ballots, st'.reigns, k, st'.servers[k]) {
      assert ServerOk(c, st.ballots, st.reigns, k, st.servers[k]);
    }
    forall m | m in st'.net ensures MessageOk(c, st'.ballots, st'.reigns, m) {
      assert MessageOk(c, st.ballots, st.reigns, m);
    }
    forall r | r in st'.reigns ensures ReignOk(c, st'.servers, st'.ballots, r, st'.reigns[r]) {
      WinReigns(c, st, h, voters, s, r);
    }
  }

  lemma SendKeeps(c: Config, st: Cluster, h: Host, peer: nat, p: Option<AppendParams>)
    requires ValidConfig(c) && ElectionInv(c, st) && h in c.members && ValidPeer(c, st, h, peer)
    requires st.servers[h].role == Leader
    requires p.Some? ==> p.value.term == st.servers[h].currentTerm && p.value.leaderId == h
    ensures ElectionInv(c, AfterSend(st, h, c.peers[h][peer], p))
  {
    var st' := AfterSend(st, h, c.peers[h][peer], p);
    TermsOf(c, st, h);
    assert ServerOk(c, st.ballots, st.reigns, h, st.servers[h]);
    assert c.peers[h][peer] in c.peers[h];
    assert st'.servers == st.servers[h := st'.servers[h]];
    QuietStepKeeps(c, st, h, st'.servers[h], st'.net);
  }

  /** What appendEntries does to term, vote and role, unless two leaders meet. */
  predicate AppendEffect(s: Server, p: AppendParams, s': Server) {
    && |s'.nextIndex| == |s.nextIndex| && |s'.matchIndex| == |s.matchIndex|
    && s'.disk == s.disk && s'.electionTerm == s.electionTerm
    && (s'.fatal == s.fatal || s'.fatal == BadLogIndex)
    && (p.term < s.currentTerm ==> s' == s)
    && (p.term >= s.currentTerm ==>
          s'.currentTerm == p.term && s'.role == Follower
          && s'.votedFor == (if p.term > s.currentTerm then NULL_HOST else s.votedFor))
  }

  lemma AppendFacts(check: PrevCheck, s: Server, p: AppendParams)
    requires !(p.term == s.currentTerm && s.role == Leader)
    ensures AppendEffect(s, p, AppendEntries(check, s, p).0)
  {
  }

  /** A leader never meets another leader of its own term. */
  lemma NoRival(c: Config, st: Cluster, h: Host, p: AppendParams)
    requires ElectionInv(c, st) && AppendRequest(h, p) in st.net && h in c.members
    ensures p.term > 0 && !(p.term == st.servers[h].currentTerm && st.servers[h].role == Leader)
  {
    var sender := Reign(p.term, p.leaderId);
    assert MessageOk(c, st.ballots, st.reigns, AppendRequest(h, p));
    assert ServerOk(c, st.ballots, st.reigns, h, st.servers[h]);
    assert ReignOk(c, st.servers, st.ballots, sender, st.reigns[sender]);
    if p.term == st.servers[h].currentTerm && st.servers[h].role == Leader {
      OneLeaderPerTerm(c, st, sender, Reign(p.term, h));
    }
  }

  lemma AppendKeeps(c: Config, st: Cluster, h: Host, p: AppendParams, s: Server, success: bool)
    requires ValidConfig(c) && ElectionInv(c, st) && AppendRequest(h, p) in st.net && h in c.members
    requires AppendEffect(st.servers[h], p, s)
    ensures ElectionInv(c, AfterAppend(st, h, p, s, success))
  {
    NoRival(c, st, h, p);
    TermsOf(c, st, h);
    assert MessageOk(c, st.ballots, st.reigns, AppendRequest(h, p));
    assert ReignOk(c, st.servers, st.ballots, Reign(p.term, p.leaderId), st.reigns[Reign(p.term, p.leaderId)]);
    assert ServerOk(c, st.ballots, st.reigns, h, st.servers[h]);
    QuietStepKeeps(c, st, h, s, AfterAppend(st, h, p, s, success).net);
  }

  /** The local steps change neither term, vote nor role, except that a timeout makes a candidate and a restart
      makes a follower with the saved term and vote. */
  lemma LocalFacts(c: Config, st: Cluster, step: Step, o: Server, s: Server)
    requires ValidConfig(c) && Enabled(c, st, step) && IsLocal(step)
    requires o == st.servers[Actor(step)] && s == LocalResult(c, st, step)
    requires |o.nextIndex| == |o.matchIndex| && o.fatal != TwoLeaders
    ensures s.fatal != TwoLeaders && s.disk == o.disk
    ensures |s.nextIndex| == |s.matchIndex| == |o.nextIndex|
    ensures
      || (step.Timeout? && s == SwitchToCandidate(o) && o.role != Leader)
      || (step.Restart? && s == Restarted(o, s.logs))
      || (s.currentTerm == o.currentTerm && s.votedFor == o.votedFor && s.role == o.role
          && s.electionTerm == o.electionTerm && s.logs == o.logs)
  {
  }

  lemma LocalKeeps(c: Config, st: Cluster, step: Step)
    requires ValidConfig(c) && ElectionInv(c, st) && Enabled(c, st, step) && IsLocal(step)
    ensures ElectionInv(c, SetServer(st, Actor(step), LocalResult(c, st, step)))
  {
    var h := Actor(step);
    var o, s := st.servers[h], LocalResult(c, st, step);
    TermsOf(c, st, h);
    assert ServerOk(c, st.ballots, st.reigns, h, o);
    LocalFacts(c, st, step, o, s);
    QuietStepKeeps(c, st, h, s, st.net);
  }

  lemma VotingStepKeeps(c: Config, st: Cluster, step: Step)
    requires ValidConfig(c) && ElectionInv(c, st) && Enabled(c, st, step)
    requires step.BeginElection? || step.DeliverVoteRequest? || step.WinElection?
    ensures ElectionInv(c, Do(c, st, step))
  {
    var h := Actor(step);
    var s := st.servers[h];
    match step
    case BeginElection(_) => BeginKeeps(c, st, h);
    case DeliverVoteRequest(m) =>
      var (s', r) := RequestVote(s, m.vote);
      VoteKeeps(c, st, m, s', r);
    case WinElection(_, voters) =>
      VotesCounted(c, st, h, voters);
      assert ServerOk(c, st.ballots, st.reigns, h, s);
      WinKeeps(c, st, h, voters, SwitchToLeader(s));
  }

  lemma LogStepKeeps(c: Config, st: Cluster, step: Step)
    requires ValidConfig(c) && ElectionInv(c, st) && Enabled(c, st, step)
    requires step.ClientStart? || step.SendHeartbeat? || step.SendLogs? || step.DeliverAppendRequest?
    ensures ElectionInv(c, Do(c, st, step))
  {
    var h := Actor(step);
    var s := st.servers[h];
    match step
    case ClientStart(_, command) => StartKeeps(c, st, h, Start(s, command));
    case SendHeartbeat(_, peer) => SendKeeps(c, st, h, peer, BuildParams(s, h, peer));
    case SendLogs(_, peer) => SendKeeps(c, st, h, peer, BuildWithLogs(s, h, peer));
    case DeliverAppendRequest(m) =>
      var (s', r) := AppendEntries(c.check, s, m.append);
      NoRival(c, st, h, m.append);
      AppendFacts(c.check, s, m.append);
      AppendKeeps(c, st, h, m.append, s', r.success);
  }

  lemma LocalStepKeeps(c: Config, st: Cluster, step: Step)
    requires ValidConfig(c) && ElectionInv(c, st) && Enabled(c, st, step) && IsLocal(step)
    ensures ElectionInv(c, Do(c, st, step))
  {
    LocalKeeps(c, st, step);
  }

  lemma StepKeepsElection(c: Config, st: Cluster, step: Step)
    requires ValidConfig(c) && ElectionInv(c, st) && Enabled(c, st, step)
    ensures ElectionInv(c, Do(c, st, step))
  {
    if IsLocal(step) {
      LocalStepKeeps(c, st, step);
    } else if step.BeginElection? || step.DeliverVoteRequest? || step.WinElection? {
      VotingStepKeeps(c, st, step);
    } else {
      LogStepKeeps(c, st, step);
    }
  }

  lemma StartKeeps(c: Config, st: Cluster, h: Host, s: Server)
    requires ValidConfig(c) && ElectionInv(c, st) && h in c.members
    requires s == st.servers[h].(logs := s.logs)
    ensures ElectionInv(c, AfterStart(st, h, s))
  {
    TermsOf(c, st, h);
    assert ServerOk(c, st.ballots, st.reigns, h, st.servers[h]);
    QuietStepKeeps(c, st, h, s, st.net);
  }

  lemma {:induction false} RunKeepsElection(c: Config, steps: seq<Step>, restarts: bool, st: Cluster)
    requires ValidConfig(c) && IsRun(c, steps, restarts, st)
    ensures ElectionInv(c, st)
  {
    if steps == [] {
      EmptyRun(c, restarts, st);
      InitElection(c);
    } else {
      var n := |steps| - 1;
      var before := LastStep(c, steps, restarts, st);
      RunKeepsElection(c, steps[..n], restarts, before);
      StepKeepsElection(c, before, steps[n]);
    }
  }

  /** Election Safety over all runs, restarts included. */
  lemma ElectionSafety(c: Config, steps: seq<Step>, restarts: bool, st: Cluster)
    requires ValidConfig(c) && IsRun(c, steps, restarts, st)
    ensures forall a, b :: a in st.reigns && b in st.reigns && a.term == b.term ==> a == b
    ensures st.servers.Keys == c.members
    ensures forall h :: h in c.members && st.servers[h].role == Leader ==>
              Reign(st.servers[h].currentTerm, h) in st.reigns
    ensures forall h :: h in c.members ==> st.servers[h].fatal != TwoLeaders
  {
    RunKeepsElection(c, steps, restarts, st);
    forall a, b | a in st.reigns && b in st.reigns && a.term == b.term ensures a == b {
      OneLeaderPerTerm(c, st, a, b);
    }
    forall h | h in c.members
      ensures ServerOk(c, st.ballots, st.reigns, h, st.servers[h])
    {
    }
  }
}
