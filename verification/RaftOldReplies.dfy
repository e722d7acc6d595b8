/** How old a reply must be to mislead a leader that does not look at its term (G4, src/raft/raft.cpp:461-465), in a
    cluster of any size. */
module RaftOldReplies {
  import opened RaftTypes
  import opened RaftServer
  import opened RaftCluster
  import opened RaftCommit
  import opened RaftElection
  import opened RaftLogInv
  import opened RaftLogSteps
  import opened RaftGuards
  import opened RaftProgress
  import R = RaftRuns

  /** A reply that, handled as written, gives a leader a matchIndex that the peer has not confirmed to it in its
      present term; the reply is lag terms old. */
  ghost predicate MisledBy(c: Config, steps: seq<Step>, st: Cluster, m: Message, peer: nat, lag: nat)
    requires ValidConfig(c)
  {
    && IsRun(c, steps, false, st) && NoRestart(steps) && RepliesAsWritten(c, st, m, peer) && m.success
    && |c.peers[m.to]| == |st.servers[m.to].matchIndex|
    && st.servers[m.to].role == Leader && st.servers[m.to].currentTerm == m.term + lag
    && !Confirms(c, st, m.to, HandleReplicateResult(st.servers[m.to], peer, m.prevLogIndex, m.prevLogIndex + m.count,
                                                    true), peer)
  }

  // ----- the states of the run, with n peers -----

  function First(n: nat, a: Host): Server {
    R.NewLeader(Fresh(n), a)
  }

  function Elector(n: nat, a: Host): Server {
    Fresh(n).(currentTerm := 1, votedFor := a, disk := Metadata(1, a))
  }

  /** b with a's entry. */
  function Taker(n: nat, x: string): Server {
    Fresh(n).(currentTerm := 1, logs := [Entry(x)])
  }

  /** a, deposed in term t. */
  function DeposedIn(n: nat, a: Host, x: string, t: nat): Server {
    First(n, a).(logs := [Entry(x)], role := Follower, currentTerm := t, votedFor := NULL_HOST)
  }

  lemma FirstValues(n: nat, a: Host, x: string)
    requires a != NULL_HOST
    ensures R.Campaign(SwitchToCandidate(Fresh(n)), a, 1) == R.Candidacy(Fresh(n), a)
    ensures ElectionParams(R.Candidacy(Fresh(n), a), a) == VoteParams(1, a, 0, 0)
    ensures RequestVote(Fresh(n), VoteParams(1, a, 0, 0)) == (Elector(n, a), VoteResult(1, true))
    ensures Start(First(n, a), x) == First(n, a).(logs := [Entry(x)])
  {
    R.CampaignIs(SwitchToCandidate(Fresh(n)), a, 1);
    assert [] + [Entry(x)] == [Entry(x)];
  }

  lemma SentValues(n: nat, a: Host, x: string, i: nat)
    requires i < n
    ensures BuildWithLogs(First(n, a).(logs := [Entry(x)]), a, i) == Some(FirstMessage(a, x))
  {
    SliceOfLog([Entry(x)], 1, 1);
    assert [Entry(x)][0..1] == [Entry(x)];
  }

  lemma TakenValues(n: nat, a: Host, x: string, check: PrevCheck)
    ensures AppendEntries(check, Fresh(n), FirstMessage(a, x)).0 == Taker(n, x)
    ensures AppendEntries(check, Fresh(n), FirstMessage(a, x)).1.success
  {
    assert [] + [Entry(x)][0..] == [Entry(x)];
    assert Scan([], [Entry(x)], 0) == Present(0);
  }

  /** d, an elector of term 1, after it stood until term t. */
  function Stander(n: nat, a: Host, d: Host, t: nat): Server
    requires t >= 2
  {
    R.Campaign(SwitchToCandidate(Elector(n, a)), d, t - 1)
  }

  lemma LaterValues(n: nat, a: Host, d: Host, x: string, t: nat)
    requires a != NULL_HOST && t >= 2
    ensures Stander(n, a, d, t).fatal == Running && ElectionParams(Stander(n, a, d, t), d) == VoteParams(t, d, 0, 0)
    ensures RequestVote(First(n, a).(logs := [Entry(x)]), VoteParams(t, d, 0, 0)).0 == DeposedIn(n, a, x, t)
    ensures var s := R.Campaign(SwitchToCandidate(DeposedIn(n, a, x, t)), a, 1);
      && ElectionParams(s, a) == VoteParams(t + 1, a, 1, 1) && s.currentTerm == t + 1
      && |s.nextIndex| == |s.matchIndex| == n && s.fatal == Running
    ensures RequestVote(Stander(n, a, d, t), VoteParams(t + 1, a, 1, 1)).1.voteGranted
    ensures RequestVote(Elector(n, a), VoteParams(t + 1, a, 1, 1)).1.voteGranted
  {
    R.CampaignIs(SwitchToCandidate(Elector(n, a)), d, t - 1);
    R.CampaignIs(SwitchToCandidate(DeposedIn(n, a, x, t)), a, 1);
  }

  // ----- the run -----

  /** a, b and d are three of the members, and b is peer i of a. */
  ghost predicate Chosen(c: Config, a: Host, b: Host, d: Host, i: nat, n: nat) {
    && ValidConfig(c) && a in c.members && b in c.members && d in c.members && a != b && a != d && b != d
    && n == |c.members| - 1 && |c.peers[a]| == n && i < n && c.peers[a][i] == b && Majority(c, c.members - {b})
  }

  lemma Choose(c: Config) returns (a: Host, b: Host, d: Host, n: nat)
    requires ValidConfig(c) && |c.members| >= 3
    ensures Chosen(c, a, b, d, 0, n)
  {
    a :| a in c.members;
    ClusterSize(c, a);
    n := |c.peers[a]|;
    b, d := c.peers[a][0], c.peers[a][1];
    assert b in c.peers[a] && d in c.peers[a] && b in c.members;
    assert |c.members - {b}| == |c.members| - 1;
  }

  lemma FreshPeers(c: Config, a: Host, b: Host, d: Host, i: nat, n: nat, h: Host)
    requires Chosen(c, a, b, d, i, n) && h in c.members
    ensures |c.peers[h]| == n && (h != a ==> h in c.peers[a]) && a != NULL_HOST
  {
    ClusterSize(c, h);
  }

  function Others(c: Config, a: Host, b: Host): set<Host> {
    c.members - {a, b}
  }

  lemma OthersElect(c: Config, a: Host, b: Host, d: Host, i: nat, n: nat)
    requires Chosen(c, a, b, d, i, n)
    ensures Majority(c, Others(c, a, b) + {a})
  {
    assert Others(c, a, b) + {a} == c.members - {b};
  }

  /** Everybody but b elects a in term 1. */
  lemma FirstElection(c: Config, a: Host, b: Host, d: Host, i: nat, n: nat)
    returns (servers: R.Servers, net: set<Message>)
    requires Chosen(c, a, b, d, i, n)
    ensures R.Reached(c, servers, net) && servers[a] == First(n, a) && servers[b] == Fresh(n)
    ensures forall h {:trigger servers[h]} :: h in Others(c, a, b) ==> servers[h] == Elector(n, a)
  {
    FirstValues(n, a, "");
    OthersElect(c, a, b, d, i, n);
    var start := R.Begins(c);
    forall h | h in c.members ensures start[h] == Fresh(n) && (h != a ==> h in c.peers[a]) {
      FreshPeers(c, a, b, d, i, n, h);
    }
    servers, net := R.ElectsWith(c, start, {}, a, 1, R.Candidacy(Fresh(n), a), Others(c, a, b));
  }

  lemma CanSendFirst(c: Config, a: Host, b: Host, d: Host, i: nat, n: nat, x: string, servers: R.Servers)
    requires Chosen(c, a, b, d, i, n) && a in servers && b in servers
    requires servers[a] == First(n, a).(logs := [Entry(x)]) && servers[b] == Fresh(n)
    ensures R.CanExchange(c, servers, a, i, FirstMessage(a, x), Taker(n, x), true)
  {
    SentValues(n, a, x, i);
    TakenValues(n, a, x, c.check);
  }

  /** b takes a's entry, and its reply is on its way. */
  lemma ReplyOnItsWay(c: Config, a: Host, b: Host, d: Host, i: nat, n: nat, x: string)
    returns (servers: R.Servers, net: set<Message>)
    requires Chosen(c, a, b, d, i, n)
    ensures R.Reached(c, servers, net) && AppendReply(b, a, 1, 0, 1, true) in net
    ensures servers[a] == First(n, a).(logs := [Entry(x)]) && servers[b] == Taker(n, x)
    ensures forall h {:trigger servers[h]} :: h in Others(c, a, b) ==> servers[h] == Elector(n, a)
  {
    FirstValues(n, a, x);
    servers, net := FirstElection(c, a, b, d, i, n);
    servers := R.Starts(c, servers, net, a, x);
    CanSendFirst(c, a, b, d, i, n, x, servers);
    servers, net := R.SendsAndGets(c, servers, net, a, i, FirstMessage(a, x), Taker(n, x), true);
  }

  /** d stands until term t, and a hears of it. */
  lemma Deposes(c: Config, a: Host, b: Host, d: Host, i: nat, n: nat, x: string, t: nat)
    returns (servers: R.Servers, net: set<Message>)
    requires Chosen(c, a, b, d, i, n) && t >= 2
    ensures R.Reached(c, servers, net) && AppendReply(b, a, 1, 0, 1, true) in net
    ensures servers[a] == DeposedIn(n, a, x, t) && servers[b] == Taker(n, x)
    ensures forall h {:trigger servers[h]} :: h in Others(c, a, b) ==>
              servers[h] == if h == d then Stander(n, a, d, t) else Elector(n, a)
  {
    FreshPeers(c, a, b, d, i, n, a);
    LaterValues(n, a, d, x, t);
    servers, net := ReplyOnItsWay(c, a, b, d, i, n, x);
    servers, net := R.StandsAgain(c, servers, net, d, t - 1);
    assert a in c.peers[d];
    servers, net := R.Votes(c, servers, net, a, VoteParams(t, d, 0, 0));
  }

  /** Everybody but b elects a again, in term t + 1. */
  lemma LeadsAgain(c: Config, a: Host, b: Host, d: Host, i: nat, n: nat, x: string, t: nat)
    returns (servers: R.Servers, net: set<Message>)
    requires Chosen(c, a, b, d, i, n) && t >= 2
    ensures R.Reached(c, servers, net) && AppendReply(b, a, 1, 0, 1, true) in net
    ensures a in servers && servers[a].role == Leader && servers[a].currentTerm == t + 1
    ensures servers[a].fatal == Running && |servers[a].nextIndex| == |servers[a].matchIndex| == n
    ensures b in servers && servers[b].currentTerm == 1
  {
    var before;
    before, net := Deposes(c, a, b, d, i, n, x, t);
    LaterValues(n, a, d, x, t);
    FreshPeers(c, a, b, d, i, n, a);
    OthersElect(c, a, b, d, i, n);
    var s := R.Campaign(SwitchToCandidate(DeposedIn(n, a, x, t)), a, 1);
    forall v {:trigger v in Others(c, a, b)} | v in Others(c, a, b)
      ensures v in c.peers[a] && R.Up(before, v) && RequestVote(before[v], ElectionParams(s, a)).1.voteGranted
    {
      FreshPeers(c, a, b, d, i, n, v);
    }
    servers, net := R.ElectsWith(c, before, net, a, 1, s, Others(c, a, b));
  }

  lemma BehindConfirmsNothing(c: Config, steps: seq<Step>, st: Cluster, peer: Host, term: nat)
    requires ValidConfig(c) && IsRun(c, steps, false, st) && peer in st.servers && st.servers[peer].currentTerm < term
    ensures (peer, term) !in st.matched
  {
    RunKeepsLogs(c, steps, st);
    var key := (peer, term);
    assert key in st.matched ==> MatchedOk(st.leaderLogs, st.servers, key, st.matched[key]);
  }

  /** At the end of that run the old reply misleads a. */
  lemma ReplyMisleads(c: Config, steps: seq<Step>, st: Cluster, a: Host, b: Host, i: nat, lag: nat)
    requires ValidConfig(c) && IsRun(c, steps, false, st) && NoRestart(steps)
    requires a in st.servers && b in st.servers && a in c.peers
    requires i < |c.peers[a]| == |st.servers[a].nextIndex| == |st.servers[a].matchIndex| && c.peers[a][i] == b
    requires st.servers[a].role == Leader && st.servers[a].fatal == Running && st.servers[a].currentTerm == 1 + lag
    requires st.servers[b].currentTerm == 1 && lag > 0 && AppendReply(b, a, 1, 0, 1, true) in st.net
    ensures MisledBy(c, steps, st, AppendReply(b, a, 1, 0, 1, true), i, lag)
  {
    BehindConfirmsNothing(c, steps, st, b, 1 + lag);
    SuccessSets(st.servers[a], i, 0, 1, HandleReplicateResult(st.servers[a], i, 0, 1, true));
  }

  lemma LeaderMisled(c: Config, lag: nat) returns (steps: seq<Step>, st: Cluster, m: Message)
    requires ValidConfig(c) && |c.members| >= 3 && lag >= 2
    ensures MisledBy(c, steps, st, m, 0, lag)
  {
    var a, b, d, n := Choose(c);
    var servers, net := LeadsAgain(c, a, b, d, 0, n, "", lag);
    m := AppendReply(b, a, 1, 0, 1, true);
    steps, st :| R.IsAt(c, steps, st, servers, net);
    ReplyMisleads(c, steps, st, a, b, 0, lag);
  }

  /** In every cluster of three servers or more replies mislead a leader exactly when they may be two or more terms
      old. */
  lemma MisledExactly(c: Config, lag: nat)
    requires ValidConfig(c) && |c.members| >= 3
    ensures (exists steps, st, m, peer :: MisledBy(c, steps, st, m, peer, lag)) <==> lag >= 2
  {
    if lag >= 2 {
      var steps, st, m := LeaderMisled(c, lag);
    }
    forall steps, st, m, peer | MisledBy(c, steps, st, m, peer, lag) ensures lag >= 2 {
      ReplyConfirms(c, steps, st, m, peer, HandleReplicateResult(st.servers[m.to], peer, m.prevLogIndex,
                                                                 m.prevLogIndex + m.count, true));
    }
  }
}
