/** Runs of three servers that show what three checks are for: refusing on a mismatch (G2, src/raft/raft.cpp:185-190),
    tying votes to their term (G4, src/raft/raft.cpp:628-631), and sending entries only while still leader (G13,
    src/raft/raft.cpp:697-715); and one in which a leader stops on its own. The servers are a, b and d; peer 0 of a is b
    and peer 1 is d. */
module RaftScenarios {
  import opened RaftTypes
  import opened RaftServer
  import opened RaftCluster
  import opened RaftDepartures
  import opened RaftGuards
  import opened RaftRuns
  import opened RaftProgress
  import opened Median

  /** d after it stood n times from the start. */
  function Campaigner(d: Host, n: nat): Server {
    Campaign(SwitchToCandidate(Fresh(2)), d, n)
  }

  lemma CampaignsFromStart(c: Config, servers: Servers, net: set<Message>, d: Host, n: nat)
    returns (servers': Servers, net': set<Message>)
    requires Reached(c, servers, net) && d in servers && servers[d] == Fresh(2) && n > 0
    ensures servers' == servers[d := Campaigner(d, n)] && Reached(c, servers', net') && net <= net'
    ensures forall p {:trigger p in c.peers[d]} :: p in c.peers[d] ==> VoteRequest(p, VoteParams(n, d, 0, 0)) in net'
  {
    CampaignIs(SwitchToCandidate(Fresh(2)), d, n);
    servers', net' := StandsAgain(c, servers, net, d, n);
  }

  lemma SecondVotes(c: Config, servers: Servers, net: set<Message>, a: Host, b: Host, d: Host)
    returns (servers': Servers, net': set<Message>)
    requires Reached(c, servers, net) && d in c.peers && b in c.peers[d] && a in c.peers[d] && b != d
    requires b in servers && d in servers && servers[b] == Voter(a) && servers[d] == Fresh(2) && a != b && a != d
    ensures Reached(c, servers', net') && net <= net' && a in servers
    ensures servers'[a] == servers[a] && servers'[d] == Campaigner(d, 2)
    ensures VoteRequest(a, VoteParams(2, d, 0, 0)) in net' && VoteReply(b, d, 2, true) in net'
  {
    CampaignIs(SwitchToCandidate(Fresh(2)), d, 2);
    var stood;
    stood, net' := CampaignsFromStart(c, servers, net, d, 2);
    servers', net' := Votes(c, stood, net', b, VoteParams(2, d, 0, 0));
  }

  /** d is elected by b in term 2, and a is asked. */
  lemma SecondLeader(c: Config, servers: Servers, net: set<Message>, a: Host, b: Host, d: Host, check: PrevCheck)
    returns (servers': Servers, net': set<Message>)
    requires Different([a, b, d]) && c == Three(a, b, d, check) && Reached(c, servers, net)
    requires servers[b] == Voter(a) && servers[d] == Fresh(2)
    ensures Reached(c, servers', net') && net <= net'
    ensures servers'[a] == servers[a] && servers'[d] == SwitchToLeader(Campaigner(d, 2))
    ensures VoteRequest(a, VoteParams(2, d, 0, 0)) in net'
  {
    ThreeDiffer(a, b, d);
    CampaignIs(SwitchToCandidate(Fresh(2)), d, 2);
    assert a in c.peers[d] && b in c.peers[d];
    var voted;
    voted, net' := SecondVotes(c, servers, net, a, b, d);
    assert |{d, b}| == 2;
    servers' := Wins(c, voted, net', d, {d, b});
  }

  // ----- votes and their term -----

  /** a asks for votes in term 1 and gets b's; before it hears of it, d is elected in term 2 by b, a votes for it too
      and times out again. */
  lemma LateVote(a: Host, b: Host, d: Host, check: PrevCheck) returns (servers: Servers, net: set<Message>)
    requires Different([a, b, d])
    ensures Reached(Three(a, b, d, check), servers, net) && VoteReply(b, a, 1, true) in net
    ensures servers[a] == Candidacy(Fresh(2), a).(currentTerm := 2, votedFor := d, disk := Metadata(2, d))
    ensures servers[d] == SwitchToLeader(Campaigner(d, 2))
  {
    ThreeDiffer(a, b, d);
    var c := Three(a, b, d, check);
    servers, net := AsksOnce(a, b, d, check);
    servers, net := SecondLeader(c, servers, net, a, b, d, check);
    servers, net := Votes(c, servers, net, a, VoteParams(2, d, 0, 0));
    servers := TimesOut(c, servers, net, a);
  }

  /** Then b's old vote arrives: as written that makes a second leader of term 2. */
  lemma LateVotesMakeTwoLeaders(a: Host, b: Host, d: Host, check: PrevCheck) returns (steps: seq<Step>, st: Cluster)
    requires Different([a, b, d])
    ensures var c := Three(a, b, d, check);
      && ValidConfig(c) && IsRun(c, steps, false, st) && st.servers.Keys == c.members
      && WinsAsWritten(c, st, a, {a, b}) && st.servers[a].currentTerm == 2
      && st.servers[d].role == Leader && st.servers[d].currentTerm == 2
  {
    ThreeDiffer(a, b, d);
    CampaignIs(SwitchToCandidate(Fresh(2)), d, 2);
    var c := Three(a, b, d, check);
    var servers, net := LateVote(a, b, d, check);
    steps, st :| IsAt(c, steps, st, servers, net);
    assert |{a, b}| == 2;
  }

  lemma AsksOnce(a: Host, b: Host, d: Host, check: PrevCheck) returns (servers: Servers, net: set<Message>)
    requires Different([a, b, d])
    ensures Reached(Three(a, b, d, check), servers, net) && VoteReply(b, a, 1, true) in net
    ensures servers[a] == Candidacy(Fresh(2), a) && servers[b] == Voter(a) && servers[d] == Fresh(2)
  {
    ThreeIsValid(a, b, d, check);
    ThreeDiffer(a, b, d);
    ElectionValues(a);
    var c := Three(a, b, d, check);
    servers := Begins(c);
    assert b in c.peers[a];
    servers, net := StandsAndGets(c, servers, {}, a, b);
  }

  // ----- sending after the lock was let go -----

  /** a, deposed in term 2. */
  function Deposed(a: Host, x: string): Server {
    Leading(a).(logs := [Entry(x)], role := Follower, currentTerm := 2, votedFor := NULL_HOST)
  }

  lemma DeposedValues(a: Host, d: Host, x: string)
    ensures RequestVote(Leading(a).(logs := [Entry(x)]), VoteParams(2, d, 0, 0)).0 == Deposed(a, x)
    ensures BuildWithLogs(Deposed(a, x), a, 1) == Some(AppendParams(2, a, 0, 0, [Entry(x)], 0))
  {
    var s := Deposed(a, x);
    assert GetLog(s.logs, 1) == Some(Entry(x));
    SliceOfLog(s.logs, 1, 1);
    assert s.logs[0..1] == s.logs;
  }

  lemma LateSend(a: Host, b: Host, d: Host, check: PrevCheck, x: string) returns (servers: Servers, net: set<Message>)
    requires Different([a, b, d])
    ensures Reached(Three(a, b, d, check), servers, net)
    ensures servers[a] == Deposed(a, x) && servers[d] == SwitchToLeader(Campaigner(d, 2))
  {
    ThreeDiffer(a, b, d);
    DeposedValues(a, d, x);
    var c := Three(a, b, d, check);
    servers, net := Elects(a, b, d, check, x);
    servers, net := SecondLeader(c, servers, net, a, b, d, check);
    servers, net := Votes(c, servers, net, a, VoteParams(2, d, 0, 0));
  }

  /** a is elected by b in term 1 and takes a command; its replication thread sees that it is leader and lets go of the
      lock. d is elected by b in term 2 and a learns of that. Then the thread builds its message for d: as written it
      claims term 2 for a, and the leader of term 2 stops on it with "Two leader in the same term!". */
  lemma LateSendStopsLeader(a: Host, b: Host, d: Host, check: PrevCheck, x: string)
    returns (steps: seq<Step>, st: Cluster, p: AppendParams)
    requires Different([a, b, d])
    ensures var c := Three(a, b, d, check);
      && ValidConfig(c) && IsRun(c, steps, false, st) && st.servers.Keys == c.members
      && |st.servers[a].nextIndex| == 2 && BuildWithLogs(st.servers[a], a, 1) == Some(p)
      && st.servers[d].fatal == Running && AppendEntries(check, st.servers[d], p).0.fatal == TwoLeaders
  {
    DeposedValues(a, d, x);
    CampaignIs(SwitchToCandidate(Fresh(2)), d, 2);
    var servers, net := LateSend(a, b, d, check, x);
    steps, st :| IsAt(Three(a, b, d, check), steps, st, servers, net);
    p := AppendParams(2, a, 0, 0, [Entry(x)], 0);
  }

  // ----- an old heartbeat -----

  function EmptyHeartbeat(a: Host): AppendParams {
    AppendParams(1, a, 0, 0, [], 0)
  }

  /** a sends b a heartbeat while its log is empty, then takes a command and commits it with b. */
  lemma HeartbeatOvertaken(a: Host, b: Host, d: Host, check: PrevCheck, x: string)
    returns (servers: Servers, net: set<Message>)
    requires Different([a, b, d])
    ensures Reached(Three(a, b, d, check), servers, net) && AppendRequest(b, EmptyHeartbeat(a)) in net
    ensures servers[a] == Committing(a, x) && servers[b] == Voter(a).(logs := [Entry(x)]) && servers[d] == Fresh(2)
  {
    ThreeDiffer(a, b, d);
    MessageValues(a, x);
    RaftProgress.CommitValues(a, x);
    var c := Three(a, b, d, check);
    servers, net := ElectsFirst(a, b, d, check);
    net := SendsHeartbeat(c, servers, net, a, 0, EmptyHeartbeat(a));
    servers := Starts(c, servers, net, a, x);
    ExchangeValues(a, b, d, check, x, servers);
    servers, net := Exchanges(c, servers, net, a, 0, FirstMessage(a, x), Voter(a).(logs := [Entry(x)]), true);
  }

  /** The heartbeat arrives last: as written it erases the committed entry from b, and only a still has it. With G2 it
      leaves b's log alone, whichever test is made. */
  lemma OldHeartbeatErases(a: Host, b: Host, d: Host, check: PrevCheck, x: string)
    returns (steps: seq<Step>, st: Cluster)
    requires Different([a, b, d])
    ensures var c, p := Three(a, b, d, check), EmptyHeartbeat(a);
      && ValidConfig(c) && IsRun(c, steps, false, st) && st.servers.Keys == c.members
      && Enabled(c, st, DeliverAppendRequest(AppendRequest(b, p)))
      && st.servers[a].commitIndex == 1 && st.servers[b].currentTerm == p.term
      && st.servers[a].logs == st.servers[b].logs == [Entry(x)] && st.servers[d].logs == []
      && FollowAsWritten(st.servers[b].logs, p) == Some([])
      && Follow(check, st.servers[b].logs, p).0 == Some([Entry(x)])
  {
    var servers, net := HeartbeatOvertaken(a, b, d, check, x);
    steps, st :| IsAt(Three(a, b, d, check), steps, st, servers, net);
    PopAll([Entry(x)]);
    var none: Log := [];
    assert none + none[0..] == none && [Entry(x)] + none[0..] == [Entry(x)];
    assert Merge(none, none) == Some(none);
  }

  // ----- a refusal that stops the leader -----

  /** a after d refused its first entry. */
  function Refused(a: Host, x: string): Server {
    Leading(a).(logs := [Entry(x)], nextIndex := [1, 0])
  }

  lemma RefusedValues(a: Host, x: string)
    ensures HandleReplicateResult(Leading(a).(logs := [Entry(x)]), 1, 0, 1, false) == Refused(a, x)
    ensures BuildWithLogs(Refused(a, x), a, 1) == None
  {
    assert [1, 1][1 := 0] == [1, 0];
    SendStopsLeader(Refused(a, x), a, 1);
  }

  /** a sends its first entry to d, which has gone on to term 2 alone and refuses. */
  lemma RefusedOnce(a: Host, b: Host, d: Host, check: PrevCheck, x: string)
    returns (servers: Servers, net: set<Message>)
    requires Different([a, b, d])
    ensures Reached(Three(a, b, d, check), servers, net) && servers[a] == Refused(a, x)
  {
    ThreeDiffer(a, b, d);
    MessageValues(a, x);
    RefusedValues(a, x);
    CampaignIs(SwitchToCandidate(Fresh(2)), d, 2);
    var c, p := Three(a, b, d, check), FirstMessage(a, x);
    servers, net := Elects(a, b, d, check, x);
    assert c.peers[a] == [b, d];
    net := Sends(c, servers, net, a, 1, p);
    servers, net := CampaignsFromStart(c, servers, net, d, 2);
    servers, net := Appends(c, servers, net, d, p);
    servers := HandlesReply(c, servers, net, a, 1, ReplyTo(d, p, false));
  }

  /** There is a run, all guards kept, in which a leader stops on building its next message: a refusal of its first
      entry has driven the next index of the peer to 0. */
  lemma RefusalStopsLeader(a: Host, b: Host, d: Host, check: PrevCheck, x: string)
    returns (steps: seq<Step>, st: Cluster)
    requires Different([a, b, d])
    ensures var c := Three(a, b, d, check);
      && ValidConfig(c) && IsRun(c, steps, false, st) && st.servers.Keys == c.members
      && st.servers[a].role == Leader && st.servers[a].nextIndex == [1, 0] && st.servers[a].fatal == BadLogIndex
  {
    RefusedValues(a, x);
    var servers, net := RefusedOnce(a, b, d, check, x);
    servers := SendStops(Three(a, b, d, check), servers, net, a, 1);
    steps, st :| IsAt(Three(a, b, d, check), steps, st, servers, net);
  }
}
