/** What a restart may lose (G6). One that keeps the log and the term is among the steps over which every result about
    logs and commits is proved. The two runs here lose one of the two: the log, which is on disk only once committed and
    flushed (src/raft/raft.cpp:356-365, src/raft/Persister.cpp:65-80), and the term, which is saved with a vote only
    (src/raft/raft.cpp:136-140, 166-174). */
module RaftRestarts {
  import opened RaftTypes
  import opened RaftServer
  import opened RaftCluster
  import opened RaftRuns
  import opened RaftProgress
  import opened RaftScenarios
  import opened RaftFive
  import opened Median

  // ----- the log is lost -----

  lemma EmptiedValues(a: Host, d: Host, x: string)
    requires a != NULL_HOST && d != NULL_HOST
    ensures Restarted(Voter(a).(logs := [Entry(x)]), []) == Voter(a)
    ensures RequestVote(Voter(a), VoteParams(2, d, 0, 0)).1.voteGranted
    ensures var s := SwitchToLeader(Campaigner(d, 2)); s.role == Leader && s.currentTerm == 2 && s.logs == []
  {
    CampaignIs(SwitchToCandidate(Fresh(2)), d, 2);
  }

  lemma RestartsEmpty(a: Host, b: Host, d: Host, check: PrevCheck, x: string)
    returns (servers: Servers, net: set<Message>)
    requires Different([a, b, d])
    ensures Reached(Three(a, b, d, check), servers, net, true)
    ensures servers[a] == Committing(a, x) && servers[b] == Voter(a) && servers[d] == Campaigner(d, 2)
    ensures VoteRequest(b, VoteParams(2, d, 0, 0)) in net
  {
    ThreeDiffer(a, b, d);
    EmptiedValues(a, d, x);
    var c := Three(a, b, d, check);
    servers, net := Commits(a, b, d, check, x);
    servers, net := CampaignsFromStart(c, servers, net, d, 2);
    assert b in c.peers[d];
    servers := Restarts(c, servers, net, b, []);
  }

  /** a commits an entry that b has confirmed. b restarts with its vote but without the entry, which it had not yet
      committed, and d is elected in term 2 by b without it. */
  lemma LogLost(a: Host, b: Host, d: Host, check: PrevCheck, x: string) returns (steps: seq<Step>, st: Cluster)
    requires Different([a, b, d])
    ensures var c := Three(a, b, d, check);
      && ValidConfig(c) && IsRun(c, steps, true, st) && st.servers.Keys == c.members
      && st.servers[a].commitIndex == 1 && st.servers[a].logs == [Entry(x)]
      && st.servers[d].role == Leader && st.servers[d].currentTerm == 2 && st.servers[d].logs == []
  {
    ThreeDiffer(a, b, d);
    EmptiedValues(a, d, x);
    var c := Three(a, b, d, check);
    var servers, net := RestartsEmpty(a, b, d, check, x);
    CampaignIs(SwitchToCandidate(Fresh(2)), d, 2);
    servers, net := Votes(c, servers, net, b, VoteParams(2, d, 0, 0), true);
    assert |{d, b}| == 2;
    servers := Wins(c, servers, net, d, {d, b}, true);
    steps, st :| IsAt(c, steps, st, servers, net, true);
  }

  // ----- the term is lost -----

  /** b, leader of term 2 with an entry. */
  function Second(b: Host, y: string, next: seq<nat>, matched: seq<nat>, commit: nat): Server {
    Lead2(b, y).(nextIndex := next, matchIndex := matched, commitIndex := commit)
  }

  function YEntry(y: string): LogEntry {
    LogEntry(2, y, 1)
  }

  /** d with that entry. */
  function Holder(y: string, commit: nat): Server {
    Fresh(4).(currentTerm := 2, logs := [YEntry(y)], commitIndex := commit)
  }

  lemma SecondValues(b: Host, y: string)
    ensures New(y, y)[..1] == [YEntry(y)]
    ensures Lead2(b, y) == Second(b, y, [1, 1, 1, 1], [0, 0, 0, 0], 0)
    ensures Lead2(b, y).role == Leader && Lead2(b, y).currentTerm == 2 && Lead2(b, y).fatal == Running
    ensures Lead2(b, y).logs == [YEntry(y)] && Lead2(b, y).commitIndex == 0
  {
    CampaignIs(SwitchToCandidate(Fresh(4)), b, 2);
    assert Lead2(b, y).nextIndex == [1, 1, 1, 1] && Lead2(b, y).matchIndex == [0, 0, 0, 0];
  }

  lemma SecondIsBuilt(b: Host, y: string, next: seq<nat>, matched: seq<nat>, i: nat)
    requires i < |next| && next[i] == 1
    ensures BuildWithLogs(Second(b, y, next, matched, 0), b, i) == Some(YMessage(b, y))
  {
    SecondValues(b, y);
    SliceOfLog([YEntry(y)], 1, 1);
    assert [YEntry(y)][0..1] == [YEntry(y)];
  }

  lemma SecondIsTaken(b: Host, y: string)
    ensures AppendEntries(PrevEntry, Fresh(4), YMessage(b, y)).0 == Holder(y, 0)
    ensures AppendEntries(PrevEntry, Fresh(4), YMessage(b, y)).1.success
    ensures AppendEntries(PrevEntry, EmptyVoter(2, b), YMessage(b, y)).0 == EmptyVoter(2, b).(logs := [YEntry(y)])
    ensures AppendEntries(PrevEntry, EmptyVoter(2, b), YMessage(b, y)).1.success
  {
    SecondValues(b, y);
    assert [] + [YEntry(y)][0..] == [YEntry(y)];
    assert Scan([], [YEntry(y)], 0) == Present(0);
  }

  lemma SecondReplies(b: Host, y: string)
    ensures HandleReplicateResult(Second(b, y, [1, 1, 1, 1], [0, 0, 0, 0], 0), 1, 0, 1, true) ==
            Second(b, y, [1, 2, 1, 1], [0, 1, 0, 0], 0)
  {
    SecondValues(b, y);
    assert [1, 1, 1, 1][1 := 2] == [1, 2, 1, 1] && [0, 0, 0, 0][1 := 1] == [0, 1, 0, 0];
    FewHaveIt();
  }

  lemma FewHaveIt()
    ensures MiddleOf([0, 1, 0, 0] + [1]) == 0
  {
    assert [0, 1, 0, 0] + [1] == [0, 1, 0, 0, 1];
    TwoOfFive([0, 1, 0, 0] + [1], 1);
  }

  lemma ThirdReply(b: Host, y: string)
    ensures HandleReplicateResult(Second(b, y, [1, 2, 1, 1], [0, 1, 0, 0], 0), 2, 0, 1, true) ==
            Second(b, y, [1, 2, 2, 1], [0, 1, 1, 0], 1)
  {
    SecondValues(b, y);
    assert [1, 2, 1, 1][2 := 2] == [1, 2, 2, 1] && [0, 1, 0, 0][2 := 1] == [0, 1, 1, 0];
    MostHaveIt();
  }

  lemma MostHaveIt()
    ensures MiddleOf([0, 1, 1, 0] + [1]) == 1
  {
    assert [0, 1, 1, 0] + [1] == [0, 1, 1, 0, 1];
    ThreeReachMiddle([0, 1, 1, 0] + [1], 1);
  }

  lemma OldSender(a: Host, b: Host, d: Host, e: Host, f: Host, x: string)
    returns (servers: Servers, net: set<Message>)
    requires Different([a, b, d, e, f])
    ensures Reached(Five(a, b, d, e, f, PrevEntry), servers, net)
    ensures servers[a] == Start(Lead1(a), x) && servers[b] == Fresh(4) && servers[d] == Fresh(4)
    ensures servers[e] == Vote1(a) && servers[f] == Vote1(a)
  {
    FiveDiffer(a, b, d, e, f);
    servers, net := FirstLeader(a, b, d, e, f, PrevEntry, e, f);
    servers := Starts(Five(a, b, d, e, f, PrevEntry), servers, net, a, x);
  }

  lemma OldCanSend(a: Host, b: Host, d: Host, e: Host, f: Host, x: string, servers: Servers)
    requires a in servers && servers[a] == Start(Lead1(a), x) && Different([a, b, d, e, f])
    ensures CanSend(Five(a, b, d, e, f, PrevEntry), servers, a, 1)
    ensures BuildWithLogs(servers[a], a, 1) == Some(XMessage(a, x))
    ensures servers[a] == Lead1(a).(logs := [Entry(x)])
    ensures Five(a, b, d, e, f, PrevEntry).peers[a][1] == d
  {
    FiveDiffer(a, b, d, e, f);
    FirstReplies(a, x);
    XIsBuilt(a, x, [1, 1, 1, 1], [0, 0, 0, 0], 1);
  }

  /** a, elected in term 1 by e and f, sends d an entry, which is under way. */
  lemma OldMessageUnderWay(a: Host, b: Host, d: Host, e: Host, f: Host, x: string)
    returns (servers: Servers, net: set<Message>)
    requires Different([a, b, d, e, f])
    ensures Reached(Five(a, b, d, e, f, PrevEntry), servers, net) && AppendRequest(d, XMessage(a, x)) in net
    ensures servers[a] == Lead1(a).(logs := [Entry(x)]) && servers[b] == Fresh(4) && servers[d] == Fresh(4)
    ensures servers[e] == Vote1(a) && servers[f] == Vote1(a)
  {
    servers, net := OldSender(a, b, d, e, f, x);
    OldCanSend(a, b, d, e, f, x, servers);
    net := Sends(Five(a, b, d, e, f, PrevEntry), servers, net, a, 1, XMessage(a, x));
  }

  /** b, elected in term 2 by e and f, takes a command. */
  lemma SecondLeads(a: Host, b: Host, d: Host, e: Host, f: Host, x: string, y: string)
    returns (servers: Servers, net: set<Message>)
    requires Different([a, b, d, e, f])
    ensures Reached(Five(a, b, d, e, f, PrevEntry), servers, net) && AppendRequest(d, XMessage(a, x)) in net
    ensures servers[a] == Lead1(a).(logs := [Entry(x)]) && servers[b] == Second(b, y, [1, 1, 1, 1], [0, 0, 0, 0], 0)
    ensures servers[d] == Fresh(4) && servers[e] == EmptyVoter(2, b) && servers[f] == EmptyVoter(2, b)
  {
    FiveDiffer(a, b, d, e, f);
    TermTwoValues(a, b, y);
    SecondValues(b, y);
    var c, s := Five(a, b, d, e, f, PrevEntry), Campaign(SwitchToCandidate(Fresh(4)), b, 2);
    servers, net := OldMessageUnderWay(a, b, d, e, f, x);
    servers, net := ElectsAfter(c, servers, net, b, 2, s, e, f);
    servers := Starts(c, servers, net, b, y);
  }

  lemma CanSendSecond(a: Host, b: Host, d: Host, e: Host, f: Host, y: string, next: seq<nat>, matched: seq<nat>, i: nat,
                      s: Server, servers: Servers)
    requires Different([a, b, d, e, f]) && b in servers && d in servers && e in servers
    requires |next| == |matched| == 4 && 1 <= i <= 2 && next[i] == 1 && servers[b] == Second(b, y, next, matched, 0)
    requires if i == 1 then servers[d] == Fresh(4) && s == Holder(y, 0)
             else servers[e] == EmptyVoter(2, b) && s == EmptyVoter(2, b).(logs := [YEntry(y)])
    ensures CanExchange(Five(a, b, d, e, f, PrevEntry), servers, b, i, YMessage(b, y), s, true)
  {
    FiveDiffer(a, b, d, e, f);
    SecondValues(b, y);
    SecondIsBuilt(b, y, next, matched, i);
    SecondIsTaken(b, y);
  }

  lemma FirstCopy(a: Host, b: Host, d: Host, e: Host, f: Host, x: string, y: string)
    returns (servers: Servers, net: set<Message>)
    requires Different([a, b, d, e, f])
    ensures Reached(Five(a, b, d, e, f, PrevEntry), servers, net) && AppendRequest(d, XMessage(a, x)) in net
    ensures servers[a] == Lead1(a).(logs := [Entry(x)]) && servers[b] == Second(b, y, [1, 2, 1, 1], [0, 1, 0, 0], 0)
    ensures servers[d] == Holder(y, 0) && servers[e] == EmptyVoter(2, b) && servers[f] == EmptyVoter(2, b)
  {
    FiveDiffer(a, b, d, e, f);
    SecondReplies(b, y);
    servers, net := SecondLeads(a, b, d, e, f, x, y);
    CanSendSecond(a, b, d, e, f, y, [1, 1, 1, 1], [0, 0, 0, 0], 1, Holder(y, 0), servers);
    servers, net := Exchanges(Five(a, b, d, e, f, PrevEntry), servers, net, b, 1, YMessage(b, y), Holder(y, 0), true);
  }

  lemma SecondCopy(a: Host, b: Host, d: Host, e: Host, f: Host, x: string, y: string)
    returns (servers: Servers, net: set<Message>)
    requires Different([a, b, d, e, f])
    ensures Reached(Five(a, b, d, e, f, PrevEntry), servers, net) && AppendRequest(d, XMessage(a, x)) in net
    ensures servers[a] == Lead1(a).(logs := [Entry(x)]) && servers[b] == Second(b, y, [1, 2, 2, 1], [0, 1, 1, 0], 1)
    ensures servers[d] == Holder(y, 0) && servers[f] == EmptyVoter(2, b)
  {
    FiveDiffer(a, b, d, e, f);
    ThirdReply(b, y);
    var s := EmptyVoter(2, b).(logs := [YEntry(y)]);
    servers, net := FirstCopy(a, b, d, e, f, x, y);
    CanSendSecond(a, b, d, e, f, y, [1, 2, 1, 1], [0, 1, 0, 0], 2, s, servers);
    servers, net := Exchanges(Five(a, b, d, e, f, PrevEntry), servers, net, b, 2, YMessage(b, y), s, true);
  }

  function CommitNews(b: Host): AppendParams {
    AppendParams(2, b, 1, 2, [], 1)
  }

  lemma NewsValues(b: Host, y: string)
    ensures Second(b, y, [1, 2, 2, 1], [0, 1, 1, 0], 1).role == Leader
    ensures Second(b, y, [1, 2, 2, 1], [0, 1, 1, 0], 1).fatal == Running
    ensures BuildParams(Second(b, y, [1, 2, 2, 1], [0, 1, 1, 0], 1), b, 1) == Some(CommitNews(b))
    ensures AppendEntries(PrevEntry, Holder(y, 0), CommitNews(b)).0 == Holder(y, 1)
  {
    SecondValues(b, y);
    assert GetLog([YEntry(y)], 1) == Some(YEntry(y));
    assert [YEntry(y)] + [] == [YEntry(y)];
  }

  lemma RestartedHolder(y: string)
    ensures Restarted(Holder(y, 1), [YEntry(y)]) == Fresh(4).(logs := [YEntry(y)])
  {
  }

  lemma ForgottenValues(a: Host, x: string, y: string)
    ensures AppendEntries(PrevEntry, Fresh(4).(logs := [YEntry(y)]), XMessage(a, x)).0 ==
            Fresh(4).(currentTerm := 1, logs := [Entry(x)])
  {
    var logs, entries := [YEntry(y)], [Entry(x)];
    assert GetLog(logs, 1) == Some(YEntry(y)) && Scan(logs, entries, 0) == Conflict(0);
    PopFromConsecutive(logs, 1);
    assert logs[..0] + entries[0..] == entries;
  }

  /** d learns that the entry is committed. */
  lemma Learns(a: Host, b: Host, d: Host, e: Host, f: Host, x: string, y: string)
    returns (servers: Servers, net: set<Message>)
    requires Different([a, b, d, e, f])
    ensures Reached(Five(a, b, d, e, f, PrevEntry), servers, net) && AppendRequest(d, XMessage(a, x)) in net
    ensures servers[a] == Lead1(a).(logs := [Entry(x)]) && servers[b] == Second(b, y, [1, 2, 2, 1], [0, 1, 1, 0], 1)
    ensures servers[d] == Holder(y, 1) && servers[f] == EmptyVoter(2, b)
  {
    FiveDiffer(a, b, d, e, f);
    NewsValues(b, y);
    var c := Five(a, b, d, e, f, PrevEntry);
    servers, net := SecondCopy(a, b, d, e, f, x, y);
    net := SendsHeartbeat(c, servers, net, b, 1, CommitNews(b));
    servers, net := Appends(c, servers, net, d, CommitNews(b));
  }

  /** It restarts with its whole log but in term 0, */
  lemma RestartsInTermZero(a: Host, b: Host, d: Host, e: Host, f: Host, x: string, y: string)
    returns (servers: Servers, net: set<Message>)
    requires Different([a, b, d, e, f])
    ensures Reached(Five(a, b, d, e, f, PrevEntry), servers, net, true) && AppendRequest(d, XMessage(a, x)) in net
    ensures servers[a] == Lead1(a).(logs := [Entry(x)]) && servers[b] == Second(b, y, [1, 2, 2, 1], [0, 1, 1, 0], 1)
    ensures servers[d] == Fresh(4).(logs := [YEntry(y)]) && servers[f] == EmptyVoter(2, b)
  {
    FiveDiffer(a, b, d, e, f);
    RestartedHolder(y);
    servers, net := Learns(a, b, d, e, f, x, y);
    servers := Restarts(Five(a, b, d, e, f, PrevEntry), servers, net, d, [YEntry(y)]);
  }

  /** and takes the old message. */
  lemma Forgets(a: Host, b: Host, d: Host, e: Host, f: Host, x: string, y: string)
    returns (servers: Servers, net: set<Message>)
    requires Different([a, b, d, e, f])
    ensures Reached(Five(a, b, d, e, f, PrevEntry), servers, net, true)
    ensures servers[a] == Lead1(a).(logs := [Entry(x)]) && servers[b] == Second(b, y, [1, 2, 2, 1], [0, 1, 1, 0], 1)
    ensures servers[d] == Fresh(4).(currentTerm := 1, logs := [Entry(x)]) && servers[f] == EmptyVoter(2, b)
  {
    FiveDiffer(a, b, d, e, f);
    ForgottenValues(a, x, y);
    servers, net := RestartsInTermZero(a, b, d, e, f, x, y);
    servers, net := Appends(Five(a, b, d, e, f, PrevEntry), servers, net, d, XMessage(a, x), true);
  }

  lemma LastElection(a: Host, b: Host, d: Host, x: string)
    requires a != NULL_HOST && b != NULL_HOST && d != NULL_HOST
    ensures var s := Campaign(SwitchToCandidate(Fresh(4).(currentTerm := 1, logs := [Entry(x)])), d, 2);
      && ElectionParams(s, d) == VoteParams(3, d, 1, 1) && SwitchToLeader(s).role == Leader
      && SwitchToLeader(s).currentTerm == 3 && SwitchToLeader(s).logs == [Entry(x)]
    ensures RequestVote(Lead1(a).(logs := [Entry(x)]), VoteParams(3, d, 1, 1)).1.voteGranted
    ensures RequestVote(EmptyVoter(2, b), VoteParams(3, d, 1, 1)).1.voteGranted
  {
    CampaignIs(SwitchToCandidate(Fresh(4).(currentTerm := 1, logs := [Entry(x)])), d, 2);
  }

  /** b commits an entry of term 2, and d commits it too. d restarts with its whole log but without its term, which it
      had only heard of. A message of term 1 replaces the entry, and d is elected in term 3 without it. */
  lemma TermLost(a: Host, b: Host, d: Host, e: Host, f: Host, x: string, y: string)
    returns (steps: seq<Step>, st: Cluster)
    requires Different([a, b, d, e, f])
    ensures var c := Five(a, b, d, e, f, PrevEntry);
      && ValidConfig(c) && IsRun(c, steps, true, st) && st.servers.Keys == c.members
      && st.servers[b].commitIndex == 1 && st.servers[b].logs == [LogEntry(2, y, 1)]
      && st.servers[d].role == Leader && st.servers[d].currentTerm == 3 && st.servers[d].logs == [LogEntry(1, x, 1)]
  {
    FiveDiffer(a, b, d, e, f);
    LastElection(a, b, d, x);
    SecondValues(b, y);
    var c := Five(a, b, d, e, f, PrevEntry);
    var s := Campaign(SwitchToCandidate(Fresh(4).(currentTerm := 1, logs := [Entry(x)])), d, 2);
    var servers, net := Forgets(a, b, d, e, f, x, y);
    servers, net := ElectsAfter(c, servers, net, d, 2, s, a, f, true);
    steps, st :| IsAt(c, steps, st, servers, net, true);
  }
}
