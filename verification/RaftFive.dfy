/** Two runs of five servers. In the first a reply from an old term makes a leader commit an entry that two servers
    hold and that the next leader does not have (G4, src/raft/raft.cpp:461-465). In the second the first reply to a new
    leader of an established cluster stops it (src/raft/raft.cpp:411-412). The servers are a, b, d, e and f. */
module RaftFive {
  import opened RaftTypes
  import opened RaftServer
  import opened RaftCluster
  import opened RaftGuards
  import opened RaftRuns
  import opened RaftProgress
  import opened Median

  lemma TwoOfFive(s: seq<nat>, v: nat)
    requires multiset(s) == multiset{0, 0, 0, v, v}
    ensures s != [] && MiddleOf(s) == 0
  {
    assert |multiset(s)| == 5;
    assert Ascending([0, 0, 0, v, v]);
    assert multiset([0, 0, 0, v, v]) == multiset{0, 0, 0, v, v};
    MiddleOfAnySort(s, [0, 0, 0, v, v]);
  }

  lemma ThreeReachMiddle(s: seq<nat>, v: nat)
    requires multiset(s) == multiset{0, 0, v, v, v}
    ensures s != [] && MiddleOf(s) == v
  {
    assert |multiset(s)| == 5;
    assert Ascending([0, 0, v, v, v]);
    assert multiset([0, 0, v, v, v]) == multiset{0, 0, v, v, v};
    MiddleOfAnySort(s, [0, 0, v, v, v]);
  }

  /** What a leader of term 1 and its voters are after the election. */
  function Lead1(a: Host): Server {
    NewLeader(Fresh(4), a)
  }

  function Vote1(a: Host): Server {
    Fresh(4).(currentTerm := 1, votedFor := a, disk := Metadata(1, a))
  }

  lemma Vote1Values(a: Host)
    requires a != NULL_HOST
    ensures Asks(Fresh(4), a) == VoteParams(1, a, 0, 0)
    ensures RequestVote(Fresh(4), VoteParams(1, a, 0, 0)) == (Vote1(a), VoteResult(1, true))
  {
  }

  lemma BeginsFive(a: Host, b: Host, d: Host, e: Host, f: Host, check: PrevCheck) returns (servers: Servers)
    requires Different([a, b, d, e, f])
    ensures Reached(Five(a, b, d, e, f, check), servers, {})
    ensures forall h {:trigger servers[h]} :: h in [a, b, d, e, f] ==> servers[h] == Fresh(4)
  {
    FiveIsValid(a, b, d, e, f, check);
    servers := Begins(Five(a, b, d, e, f, check));
  }

  /** a is elected by v and w in term 1. */
  lemma FirstLeader(a: Host, b: Host, d: Host, e: Host, f: Host, check: PrevCheck, v: Host, w: Host)
    returns (servers: Servers, net: set<Message>)
    requires Different([a, b, d, e, f]) && v in [b, d, e, f] && w in [b, d, e, f] && v != w
    ensures Reached(Five(a, b, d, e, f, check), servers, net) && servers[a] == Lead1(a)
    ensures forall h {:trigger servers[h]} :: h in [b, d, e, f] ==>
              servers[h] == if h == v || h == w then Vote1(a) else Fresh(4)
  {
    FiveDiffer(a, b, d, e, f);
    Vote1Values(a);
    var fresh_ := BeginsFive(a, b, d, e, f, check);
    servers, net := ElectsWithTwo(Five(a, b, d, e, f, check), fresh_, {}, a, v, w);
  }

  // ----- a reply from an old term -----

  /** Two entries of term 1, and the log of the leader of term 3. */
  function Old(x: string): Log {
    [LogEntry(1, x, 1), LogEntry(1, x, 2)]
  }

  function New(y: string, z: string): Log {
    [LogEntry(2, y, 1), LogEntry(3, z, 2)]
  }

  lemma StartValues(s: Server, x: string)
    requires s.role == Leader
    ensures s.currentTerm == 1 && s.logs == [] ==> Start(Start(s, x), x) == s.(logs := Old(x))
    ensures s.currentTerm == 2 && s.logs == [] ==> Start(s, x) == s.(logs := New(x, x)[..1])
    ensures forall y :: s.currentTerm == 3 && s.logs == New(y, x)[..1] ==> Start(s, x) == s.(logs := New(y, x))
  {
  }

  function OldMessage(a: Host, x: string): AppendParams {
    AppendParams(1, a, 0, 0, Old(x), 0)
  }

  lemma OldIsBuilt(a: Host, x: string)
    ensures BuildWithLogs(Lead1(a).(logs := Old(x)), a, 0) == Some(OldMessage(a, x))
  {
    SliceOfLog(Old(x), 1, 2);
    assert Old(x)[0..2] == Old(x);
  }

  lemma OldIsTaken(a: Host, x: string)
    ensures AppendEntries(PrevEntry, Vote1(a), OldMessage(a, x)) ==
            (Vote1(a).(logs := Old(x)), AppendResult(1, true))
  {
    assert [] + Old(x)[0..] == Old(x);
    assert Scan([], Old(x), 0) == Present(0);
  }

  lemma OldValues(a: Host, b: Host, d: Host, e: Host, f: Host, x: string, servers: Servers)
    requires Different([a, b, d, e, f]) && a in servers && b in servers
    requires servers[a] == Lead1(a).(logs := Old(x)) && servers[b] == Vote1(a)
    ensures CanExchange(Five(a, b, d, e, f, PrevEntry), servers, a, 0, OldMessage(a, x), Vote1(a).(logs := Old(x)),
                        true)
  {
    FiveDiffer(a, b, d, e, f);
    OldIsBuilt(a, x);
    OldIsTaken(a, x);
  }

  /** Term 1: a takes two commands, and b's answer about them is on its way. */
  lemma TermOne(a: Host, b: Host, d: Host, e: Host, f: Host, x: string) returns (servers: Servers, net: set<Message>)
    requires Different([a, b, d, e, f])
    ensures Reached(Five(a, b, d, e, f, PrevEntry), servers, net) && AppendReply(b, a, 1, 0, 2, true) in net
    ensures servers[a] == Lead1(a).(logs := Old(x)) && servers[b] == Vote1(a).(logs := Old(x))
    ensures servers[d] == Fresh(4) && servers[e] == Vote1(a) && servers[f] == Fresh(4)
  {
    FiveDiffer(a, b, d, e, f);
    StartValues(Lead1(a), x);
    var c := Five(a, b, d, e, f, PrevEntry);
    servers, net := FirstLeader(a, b, d, e, f, PrevEntry, b, e);
    servers := Starts(c, servers, net, a, x);
    servers := Starts(c, servers, net, a, x);
    OldValues(a, b, d, e, f, x, servers);
    servers, net := SendsAndGets(c, servers, net, a, 0, OldMessage(a, x), Vote1(a).(logs := Old(x)), true);
  }

  /** d, leader of term 2 with one entry, and a after it took that entry for its own two. */
  function Lead2(d: Host, y: string): Server {
    SwitchToLeader(Campaign(SwitchToCandidate(Fresh(4)), d, 2)).(logs := New(y, y)[..1])
  }

  function Overruled(a: Host, y: string): Server {
    Lead1(a).(logs := New(y, y)[..1], role := Follower, currentTerm := 2, votedFor := NULL_HOST)
  }

  function EmptyVoter(term: nat, leader: Host): Server {
    Fresh(4).(currentTerm := term, votedFor := leader, disk := Metadata(term, leader))
  }

  lemma TermTwoValues(a: Host, d: Host, y: string)
    requires a != NULL_HOST && d != NULL_HOST
    ensures var s := Campaign(SwitchToCandidate(Fresh(4)), d, 2);
      && Start(SwitchToLeader(s), y) == Lead2(d, y) && ElectionParams(s, d) == VoteParams(2, d, 0, 0)
      && s.fatal == Running
    ensures RequestVote(Vote1(a), VoteParams(2, d, 0, 0)) == (EmptyVoter(2, d), VoteResult(2, true))
    ensures RequestVote(Fresh(4), VoteParams(2, d, 0, 0)) == (EmptyVoter(2, d), VoteResult(2, true))
  {
    CampaignIs(SwitchToCandidate(Fresh(4)), d, 2);
    StartValues(SwitchToLeader(Campaign(SwitchToCandidate(Fresh(4)), d, 2)), y);
  }

  /** Term 2: d, elected by e and f, takes a command. */
  lemma TermTwo(a: Host, b: Host, d: Host, e: Host, f: Host, x: string, y: string)
    returns (servers: Servers, net: set<Message>)
    requires Different([a, b, d, e, f])
    ensures Reached(Five(a, b, d, e, f, PrevEntry), servers, net) && AppendReply(b, a, 1, 0, 2, true) in net
    ensures servers[a] == Lead1(a).(logs := Old(x)) && servers[b] == Vote1(a).(logs := Old(x))
    ensures servers[d] == Lead2(d, y) && servers[e] == EmptyVoter(2, d) && servers[f] == EmptyVoter(2, d)
  {
    FiveDiffer(a, b, d, e, f);
    TermTwoValues(a, d, y);
    var c, s := Five(a, b, d, e, f, PrevEntry), Campaign(SwitchToCandidate(Fresh(4)), d, 2);
    servers, net := TermOne(a, b, d, e, f, x);
    servers, net := ElectsAfter(c, servers, net, d, 2, s, e, f);
    servers := Starts(c, servers, net, d, y);
  }

  function YMessage(d: Host, y: string): AppendParams {
    AppendParams(2, d, 0, 0, New(y, y)[..1], 0)
  }

  lemma YIsBuilt(d: Host, y: string)
    ensures |Lead2(d, y).nextIndex| == |Lead2(d, y).matchIndex| == 4 && Lead2(d, y).role == Leader
    ensures Lead2(d, y).currentTerm == 2 && Lead2(d, y).fatal == Running
    ensures BuildWithLogs(Lead2(d, y), d, 0) == Some(YMessage(d, y))
  {
    CampaignIs(SwitchToCandidate(Fresh(4)), d, 2);
    var logs := New(y, y)[..1];
    SliceOfLog(logs, 1, 1);
    assert logs[0..1] == logs;
  }

  lemma YIsTaken(a: Host, d: Host, x: string, y: string)
    ensures AppendEntries(PrevEntry, Lead1(a).(logs := Old(x)), YMessage(d, y)) ==
            (Overruled(a, y), AppendResult(1, true))
  {
    var entries := New(y, y)[..1];
    PopFromConsecutive(Old(x), 1);
    assert entries[0] == LogEntry(2, y, 1) && GetLog(Old(x), 1) == Some(LogEntry(1, x, 1));
    assert Scan(Old(x), entries, 0) == Conflict(0);
    assert Old(x)[..0] + entries[0..] == entries;
  }

  lemma YValues(a: Host, b: Host, d: Host, e: Host, f: Host, x: string, y: string, servers: Servers)
    requires Different([a, b, d, e, f]) && a in servers && d in servers
    requires servers[a] == Lead1(a).(logs := Old(x)) && servers[d] == Lead2(d, y)
    ensures CanExchange(Five(a, b, d, e, f, PrevEntry), servers, d, 0, YMessage(d, y), Overruled(a, y), true)
  {
    FiveDiffer(a, b, d, e, f);
    YIsBuilt(d, y);
    YIsTaken(a, d, x, y);
  }

  /** a, leader of term 3, and d after it took a's new entry. */
  function Lead3(a: Host, y: string, z: string): Server {
    NewLeader(Overruled(a, y), a).(logs := New(y, z))
  }

  function Taker(a: Host, d: Host, y: string, z: string): Server {
    Lead2(d, y).(role := Follower, currentTerm := 3, votedFor := NULL_HOST, logs := New(y, z))
  }

  lemma TermThreeValues(a: Host, d: Host, y: string, z: string)
    requires a != NULL_HOST && d != NULL_HOST
    ensures Asks(Overruled(a, y), a) == VoteParams(3, a, 1, 2)
    ensures RequestVote(EmptyVoter(2, d), VoteParams(3, a, 1, 2)) == (EmptyVoter(3, a), VoteResult(3, true))
    ensures Start(NewLeader(Overruled(a, y), a), z) == Lead3(a, y, z)
  {
    StartValues(NewLeader(Overruled(a, y), a), z);
    assert New(y, y)[..1] == New(y, z)[..1];
  }

  /** Term 3: a takes d's entry for its own, is elected by e and f, and takes a command. */
  lemma TermThree(a: Host, b: Host, d: Host, e: Host, f: Host, x: string, y: string, z: string)
    returns (servers: Servers, net: set<Message>)
    requires Different([a, b, d, e, f])
    ensures Reached(Five(a, b, d, e, f, PrevEntry), servers, net) && AppendReply(b, a, 1, 0, 2, true) in net
    ensures servers[a] == Lead3(a, y, z) && servers[b] == Vote1(a).(logs := Old(x)) && servers[d] == Lead2(d, y)
    ensures servers[e] == EmptyVoter(3, a) && servers[f] == EmptyVoter(3, a)
  {
    FiveDiffer(a, b, d, e, f);
    TermThreeValues(a, d, y, z);
    var c := Five(a, b, d, e, f, PrevEntry);
    servers, net := TermTwo(a, b, d, e, f, x, y);
    YValues(a, b, d, e, f, x, y, servers);
    servers, net := SendsAndGets(c, servers, net, d, 0, YMessage(d, y), Overruled(a, y), true);
    servers, net := ElectsWithTwo(c, servers, net, a, e, f);
    servers := Starts(c, servers, net, a, z);
  }

  function ZMessage(a: Host, z: string): AppendParams {
    AppendParams(3, a, 1, 2, [LogEntry(3, z, 2)], 0)
  }

  lemma ZIsBuilt(a: Host, y: string, z: string)
    ensures BuildWithLogs(Lead3(a, y, z), a, 1) == Some(ZMessage(a, z))
  {
    SliceOfLog(New(y, z), 2, 1);
    assert New(y, z)[1..2] == [LogEntry(3, z, 2)];
  }

  lemma ZIsTaken(a: Host, d: Host, y: string, z: string)
    ensures AppendEntries(PrevEntry, Lead2(d, y), ZMessage(a, z)).0 == Taker(a, d, y, z)
    ensures AppendEntries(PrevEntry, Lead2(d, y), ZMessage(a, z)).1.success && Taker(a, d, y, z).fatal == Running
  {
    CampaignIs(SwitchToCandidate(Fresh(4)), d, 2);
    var logs, entries := New(y, y)[..1], [LogEntry(3, z, 2)];
    assert logs == [LogEntry(2, y, 1)] && logs + entries[0..] == New(y, z);
    assert Scan(logs, entries, 0) == Present(0);
    assert GetLog(logs, 1) == Some(LogEntry(2, y, 1));
  }

  lemma ZValues(a: Host, b: Host, d: Host, e: Host, f: Host, y: string, z: string, servers: Servers)
    requires Different([a, b, d, e, f]) && a in servers && d in servers
    requires servers[a] == Lead3(a, y, z) && servers[d] == Lead2(d, y)
    ensures CanExchange(Five(a, b, d, e, f, PrevEntry), servers, a, 1, ZMessage(a, z), Taker(a, d, y, z), true)
  {
    FiveDiffer(a, b, d, e, f);
    ZIsBuilt(a, y, z);
    ZIsTaken(a, d, y, z);
  }

  /** a after d's answer: two of five have its entry, so nothing is committed. */
  function Waiting(a: Host, y: string, z: string): Server {
    Lead3(a, y, z).(nextIndex := [2, 3, 2, 2], matchIndex := [0, 2, 0, 0])
  }

  lemma WaitingValues(a: Host, y: string, z: string)
    ensures HandleReplicateResult(Lead3(a, y, z), 1, 1, 2, true) == Waiting(a, y, z)
  {
    var s := Lead3(a, y, z);
    assert s.nextIndex == [2, 2, 2, 2] && s.matchIndex == [0, 0, 0, 0];
    assert s.nextIndex[1 := 3] == [2, 3, 2, 2] && s.matchIndex[1 := 2] == [0, 2, 0, 0];
    assert [0, 2, 0, 0] + [2] == [0, 2, 0, 0, 2];
    TwoOfFive([0, 2, 0, 0] + [2], 2);
  }

  /** As written, the old answer commits the entry. */
  lemma CommitValues(a: Host, y: string, z: string)
    ensures var s := HandleReplicateResult(Waiting(a, y, z), 0, 0, 2, true);
      s.commitIndex == 2 && s.logs == New(y, z) && s.role == Leader && s.currentTerm == 3
  {
    assert [0, 2, 0, 0][0 := 2] == [2, 2, 0, 0];
    assert [2, 2, 0, 0] + [2] == [2, 2, 0, 0, 2];
    ThreeReachMiddle([2, 2, 0, 0] + [2], 2);
  }

  // ----- term 4 -----

  /** b, leader of term 4 with the entries of term 1. */
  function Lead4(a: Host, b: Host, x: string): Server {
    SwitchToLeader(Campaign(SwitchToCandidate(Vote1(a).(logs := Old(x))), b, 3))
  }

  lemma TermFourValues(a: Host, b: Host, x: string)
    requires a != NULL_HOST && b != NULL_HOST
    ensures ElectionParams(Campaign(SwitchToCandidate(Vote1(a).(logs := Old(x))), b, 3), b) == VoteParams(4, b, 2, 1)
    ensures RequestVote(EmptyVoter(3, a), VoteParams(4, b, 2, 1)).1.voteGranted
    ensures Lead4(a, b, x).role == Leader && Lead4(a, b, x).currentTerm == 4 && Lead4(a, b, x).logs == Old(x)
  {
    CampaignIs(SwitchToCandidate(Vote1(a).(logs := Old(x))), b, 3);
  }

  lemma NextLeader(a: Host, b: Host, d: Host, e: Host, f: Host, x: string, y: string, z: string)
    returns (servers: Servers, net: set<Message>)
    requires Different([a, b, d, e, f])
    ensures Reached(Five(a, b, d, e, f, PrevEntry), servers, net) && AppendReply(b, a, 1, 0, 2, true) in net
    ensures servers[a] == Waiting(a, y, z) && servers[b] == Lead4(a, b, x)
    ensures servers[e].logs == servers[f].logs == []
  {
    FiveDiffer(a, b, d, e, f);
    WaitingValues(a, y, z);
    TermFourValues(a, b, x);
    var c, s := Five(a, b, d, e, f, PrevEntry), Campaign(SwitchToCandidate(Vote1(a).(logs := Old(x))), b, 3);
    servers, net := TermThree(a, b, d, e, f, x, y, z);
    ZValues(a, b, d, e, f, y, z, servers);
    servers, net := Exchanges(c, servers, net, a, 1, ZMessage(a, z), Taker(a, d, y, z), true);
    servers, net := ElectsAfter(c, servers, net, b, 3, s, e, f);
  }

  lemma OldReplyIsOpen(c: Config, st: Cluster, a: Host, b: Host, y: string, z: string)
    requires a in c.peers && |c.peers[a]| == 4 && c.peers[a][0] == b
    requires a in st.servers && st.servers[a] == Waiting(a, y, z) && AppendReply(b, a, 1, 0, 2, true) in st.net
    ensures RepliesAsWritten(c, st, AppendReply(b, a, 1, 0, 2, true), 0)
    ensures !Enabled(c, st, DeliverAppendReply(AppendReply(b, a, 1, 0, 2, true), 0))
  {
    assert ValidPeer(c, st, a, 0);
  }

  /** There is a run at whose end a leads term 3 with b's answer of term 1 still to come, b leads term 4, and only a and
      d have a's entry of term 3. As written the answer makes a commit that entry, at an index where the leader of
      term 4 has another one; with G4 it is not looked at. */
  lemma OldReplyCommits(a: Host, b: Host, d: Host, e: Host, f: Host, x: string, y: string, z: string)
    returns (steps: seq<Step>, st: Cluster)
    requires Different([a, b, d, e, f])
    ensures var c, m := Five(a, b, d, e, f, PrevEntry), AppendReply(b, a, 1, 0, 2, true);
      && ValidConfig(c) && IsRun(c, steps, false, st) && st.servers.Keys == c.members
      && RepliesAsWritten(c, st, m, 0) && !Enabled(c, st, DeliverAppendReply(m, 0))
      && var s := HandleReplicateResult(st.servers[a], 0, 0, 2, true);
      && s.commitIndex == 2 && |s.logs| == 2 && s.logs[1] == LogEntry(3, z, 2)
      && s.role == Leader && s.currentTerm == 3
      && st.servers[b].role == Leader && st.servers[b].currentTerm == 4
      && st.servers[b].logs == [LogEntry(1, x, 1), LogEntry(1, x, 2)]
      && st.servers[e].logs == [] && st.servers[f].logs == []
  {
    CommitValues(a, y, z);
    TermFourValues(a, b, x);
    var c := Five(a, b, d, e, f, PrevEntry);
    var servers, net := NextLeader(a, b, d, e, f, x, y, z);
    steps, st :| IsAt(c, steps, st, servers, net);
    OldReplyIsOpen(c, st, a, b, y, z);
  }

  // ----- the first reply to a new leader -----

  function XMessage(a: Host, x: string): AppendParams {
    AppendParams(1, a, 0, 0, [Entry(x)], 0)
  }

  /** a with its entry and these match indices. */
  function Sender(a: Host, x: string, next: seq<nat>, matched: seq<nat>, commit: nat): Server {
    Lead1(a).(logs := [Entry(x)], nextIndex := next, matchIndex := matched, commitIndex := commit)
  }

  lemma XIsBuilt(a: Host, x: string, next: seq<nat>, matched: seq<nat>, i: nat)
    requires i < |next| && next[i] == 1
    ensures BuildWithLogs(Sender(a, x, next, matched, 0), a, i) == Some(XMessage(a, x))
  {
    SliceOfLog([Entry(x)], 1, 1);
    assert [Entry(x)][0..1] == [Entry(x)];
  }

  lemma XIsTaken(check: PrevCheck, a: Host, x: string)
    ensures AppendEntries(check, Vote1(a), XMessage(a, x)) == (Vote1(a).(logs := [Entry(x)]), AppendResult(1, true))
  {
    assert [] + [Entry(x)][0..] == [Entry(x)];
    assert Scan([], [Entry(x)], 0) == Present(0);
  }

  lemma XValues(a: Host, b: Host, d: Host, e: Host, f: Host, check: PrevCheck, x: string, next: seq<nat>,
                matched: seq<nat>, i: nat, servers: Servers)
    requires Different([a, b, d, e, f]) && a in servers && |next| == |matched| == 4 && i < 2 && next[i] == 1
    requires b in servers && d in servers
    requires servers[a] == Sender(a, x, next, matched, 0) && servers[[b, d][i]] == Vote1(a)
    ensures CanExchange(Five(a, b, d, e, f, check), servers, a, i, XMessage(a, x), Vote1(a).(logs := [Entry(x)]), true)
  {
    FiveDiffer(a, b, d, e, f);
    XIsBuilt(a, x, next, matched, i);
    XIsTaken(check, a, x);
  }

  lemma FirstReplies(a: Host, x: string)
    ensures Start(Lead1(a), x) == Sender(a, x, [1, 1, 1, 1], [0, 0, 0, 0], 0)
    ensures HandleReplicateResult(Sender(a, x, [1, 1, 1, 1], [0, 0, 0, 0], 0), 0, 0, 1, true) ==
            Sender(a, x, [2, 1, 1, 1], [1, 0, 0, 0], 0)
  {
    assert Lead1(a).nextIndex == [1, 1, 1, 1] && Lead1(a).matchIndex == [0, 0, 0, 0];
    assert [1, 1, 1, 1][0 := 2] == [2, 1, 1, 1] && [0, 0, 0, 0][0 := 1] == [1, 0, 0, 0];
    FirstMiddle();
  }

  lemma FirstMiddle()
    ensures MiddleOf([1, 0, 0, 0] + [1]) == 0
  {
    assert [1, 0, 0, 0] + [1] == [1, 0, 0, 0, 1];
    TwoOfFive([1, 0, 0, 0] + [1], 1);
  }

  lemma SecondReply(a: Host, x: string)
    ensures HandleReplicateResult(Sender(a, x, [2, 1, 1, 1], [1, 0, 0, 0], 0), 1, 0, 1, true) ==
            Sender(a, x, [2, 2, 1, 1], [1, 1, 0, 0], 1)
  {
    assert [2, 1, 1, 1][1 := 2] == [2, 2, 1, 1] && [1, 0, 0, 0][1 := 1] == [1, 1, 0, 0];
    SecondMiddle();
  }

  lemma SecondMiddle()
    ensures MiddleOf([1, 1, 0, 0] + [1]) == 1
  {
    assert [1, 1, 0, 0] + [1] == [1, 1, 0, 0, 1];
    ThreeReachMiddle([1, 1, 0, 0] + [1], 1);
  }

  lemma HasCommand(a: Host, b: Host, d: Host, e: Host, f: Host, check: PrevCheck, x: string)
    returns (servers: Servers, net: set<Message>)
    requires Different([a, b, d, e, f])
    ensures Reached(Five(a, b, d, e, f, check), servers, net)
    ensures servers[a] == Sender(a, x, [1, 1, 1, 1], [0, 0, 0, 0], 0)
    ensures servers[b] == Vote1(a) && servers[d] == Vote1(a) && servers[e] == Fresh(4)
  {
    FiveDiffer(a, b, d, e, f);
    FirstReplies(a, x);
    servers, net := FirstLeader(a, b, d, e, f, check, b, d);
    servers := Starts(Five(a, b, d, e, f, check), servers, net, a, x);
  }

  lemma OneHasIt(a: Host, b: Host, d: Host, e: Host, f: Host, check: PrevCheck, x: string)
    returns (servers: Servers, net: set<Message>)
    requires Different([a, b, d, e, f])
    ensures Reached(Five(a, b, d, e, f, check), servers, net)
    ensures servers[a] == Sender(a, x, [2, 1, 1, 1], [1, 0, 0, 0], 0)
    ensures servers[b] == Vote1(a).(logs := [Entry(x)]) && servers[d] == Vote1(a) && servers[e] == Fresh(4)
  {
    FiveDiffer(a, b, d, e, f);
    FirstReplies(a, x);
    servers, net := HasCommand(a, b, d, e, f, check, x);
    XValues(a, b, d, e, f, check, x, [1, 1, 1, 1], [0, 0, 0, 0], 0, servers);
    servers, net := Exchanges(Five(a, b, d, e, f, check), servers, net, a, 0, XMessage(a, x),
                              Vote1(a).(logs := [Entry(x)]), true);
  }

  /** a commits an entry that b and d have. */
  lemma Established(a: Host, b: Host, d: Host, e: Host, f: Host, check: PrevCheck, x: string)
    returns (servers: Servers, net: set<Message>)
    requires Different([a, b, d, e, f])
    ensures Reached(Five(a, b, d, e, f, check), servers, net)
    ensures servers[a] == Sender(a, x, [2, 2, 1, 1], [1, 1, 0, 0], 1)
    ensures servers[b] == Vote1(a).(logs := [Entry(x)]) && servers[d] == Vote1(a).(logs := [Entry(x)])
    ensures servers[e] == Fresh(4)
  {
    FiveDiffer(a, b, d, e, f);
    SecondReply(a, x);
    servers, net := OneHasIt(a, b, d, e, f, check, x);
    XValues(a, b, d, e, f, check, x, [2, 1, 1, 1], [1, 0, 0, 0], 1, servers);
    servers, net := Exchanges(Five(a, b, d, e, f, check), servers, net, a, 1, XMessage(a, x),
                              Vote1(a).(logs := [Entry(x)]), true);
  }

  /** b after it learned of the commit. */
  function Informed(a: Host, x: string): Server {
    Vote1(a).(logs := [Entry(x)], commitIndex := 1)
  }

  function Heartbeat1(a: Host): AppendParams {
    AppendParams(1, a, 1, 1, [], 1)
  }

  lemma HeartbeatValues(check: PrevCheck, a: Host, x: string)
    ensures BuildParams(Sender(a, x, [2, 2, 1, 1], [1, 1, 0, 0], 1), a, 0) == Some(Heartbeat1(a))
    ensures AppendEntries(check, Vote1(a).(logs := [Entry(x)]), Heartbeat1(a)).0 == Informed(a, x)
  {
    assert [Entry(x)] + [] == [Entry(x)];
    assert GetLog([Entry(x)], 1) == Some(Entry(x));
  }

  /** b, leader of term 2 with another entry, and d after it took that. */
  function Successor(a: Host, b: Host, x: string, y: string): Server {
    NewLeader(Informed(a, x), b).(logs := [Entry(x), LogEntry(2, y, 2)])
  }

  function Follower2(b: Host, x: string, y: string): Server {
    Fresh(4).(currentTerm := 2, votedFor := b, disk := Metadata(2, b), logs := [Entry(x), LogEntry(2, y, 2)],
              commitIndex := 1)
  }

  lemma SuccessorValues(a: Host, b: Host, x: string, y: string)
    requires a != NULL_HOST && b != NULL_HOST
    ensures Asks(Informed(a, x), b) == VoteParams(2, b, 1, 1)
    ensures RequestVote(Vote1(a).(logs := [Entry(x)]), VoteParams(2, b, 1, 1)) ==
            (EmptyVoter(2, b).(logs := [Entry(x)]), VoteResult(2, true))
    ensures RequestVote(Fresh(4), VoteParams(2, b, 1, 1)).1.voteGranted
    ensures Start(NewLeader(Informed(a, x), b), y) == Successor(a, b, x, y)
  {
    assert [Entry(x)] + [LogEntry(2, y, 2)] == [Entry(x), LogEntry(2, y, 2)];
  }

  /** b is elected in term 2 and takes a command. */
  lemma Succeeds(a: Host, b: Host, d: Host, e: Host, f: Host, check: PrevCheck, x: string, y: string)
    returns (servers: Servers, net: set<Message>)
    requires Different([a, b, d, e, f])
    ensures Reached(Five(a, b, d, e, f, check), servers, net)
    ensures servers[b] == Successor(a, b, x, y) && servers[d] == EmptyVoter(2, b).(logs := [Entry(x)])
  {
    FiveDiffer(a, b, d, e, f);
    HeartbeatValues(check, a, x);
    SuccessorValues(a, b, x, y);
    var c := Five(a, b, d, e, f, check);
    servers, net := Established(a, b, d, e, f, check, x);
    net := SendsHeartbeat(c, servers, net, a, 0, Heartbeat1(a));
    servers, net := Appends(c, servers, net, b, Heartbeat1(a));
    servers, net := ElectsWithTwo(c, servers, net, b, d, e);
    servers := Starts(c, servers, net, b, y);
  }

  function SuccessorMessage(b: Host, y: string): AppendParams {
    AppendParams(2, b, 1, 1, [LogEntry(2, y, 2)], 1)
  }

  lemma SuccessorIsBuilt(a: Host, b: Host, x: string, y: string)
    ensures BuildWithLogs(Successor(a, b, x, y), b, 1) == Some(SuccessorMessage(b, y))
  {
    var logs := [Entry(x), LogEntry(2, y, 2)];
    SliceOfLog(logs, 2, 1);
    assert logs[1..2] == [LogEntry(2, y, 2)];
    assert Successor(a, b, x, y).nextIndex[1] == 2;
  }

  lemma SuccessorIsTaken(check: PrevCheck, b: Host, x: string, y: string)
    ensures AppendEntries(check, EmptyVoter(2, b).(logs := [Entry(x)]), SuccessorMessage(b, y)) ==
            (Follower2(b, x, y), AppendResult(2, true))
  {
    var logs, entries := [Entry(x)], [LogEntry(2, y, 2)];
    assert logs + entries[0..] == [Entry(x), LogEntry(2, y, 2)];
    assert Scan(logs, entries, 0) == Present(0);
    assert GetLog(logs, 1) == Some(Entry(x));
  }

  lemma SuccessorExchange(a: Host, b: Host, d: Host, e: Host, f: Host, check: PrevCheck, x: string, y: string,
                          servers: Servers)
    requires Different([a, b, d, e, f]) && b in servers && d in servers
    requires servers[b] == Successor(a, b, x, y) && servers[d] == EmptyVoter(2, b).(logs := [Entry(x)])
    ensures CanExchange(Five(a, b, d, e, f, check), servers, b, 1, SuccessorMessage(b, y), Follower2(b, x, y), true)
  {
    FiveDiffer(a, b, d, e, f);
    SuccessorIsBuilt(a, b, x, y);
    SuccessorIsTaken(check, b, x, y);
  }

  lemma StopValues(a: Host, b: Host, x: string, y: string)
    ensures var s := HandleReplicateResult(Successor(a, b, x, y), 1, 1, 2, true);
      s.fatal == BadLogIndex && s.role == Leader && s.currentTerm == 2
  {
    var s := Successor(a, b, x, y);
    assert s.matchIndex == [0, 0, 0, 0] && [0, 0, 0, 0][1 := 2] == [0, 2, 0, 0];
    assert [0, 2, 0, 0] + [2] == [0, 2, 0, 0, 2];
    TwoOfFive([0, 2, 0, 0] + [2], 2);
  }

  /** There is a run, all guards kept, in which a leads term 1 and commits an entry, b leads term 2 and stops on the
      first answer to it: two of five have its new entry, so the middle index is 0. */
  lemma FiveServersStop(a: Host, b: Host, d: Host, e: Host, f: Host, check: PrevCheck, x: string, y: string)
    returns (steps: seq<Step>, st: Cluster)
    requires Different([a, b, d, e, f])
    ensures var c := Five(a, b, d, e, f, check);
      && ValidConfig(c) && IsRun(c, steps, false, st) && st.servers.Keys == c.members
      && st.servers[b].role == Leader && st.servers[b].currentTerm == 2 && st.servers[b].fatal == BadLogIndex
  {
    StopValues(a, b, x, y);
    var c := Five(a, b, d, e, f, check);
    var servers, net := Succeeds(a, b, d, e, f, check, x, y);
    SuccessorExchange(a, b, d, e, f, check, x, y, servers);
    servers, net := Exchanges(c, servers, net, b, 1, SuccessorMessage(b, y), Follower2(b, x, y), true);
    steps, st :| IsAt(c, steps, st, servers, net);
  }
}
