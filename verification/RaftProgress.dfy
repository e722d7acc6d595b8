/** The step system is not empty: three servers elect a leader, replicate a command, commit it and apply it.
    src/raft/raft.cpp:96-270, 377-432, 557-639, 733-778. */
module RaftProgress {
  import opened RaftTypes
  import opened RaftServer
  import opened RaftCluster
  import opened RaftRuns
  import opened Median

  /** a after it has been elected in term 1. */
  function Leading(a: Host): Server {
    NewLeader(Fresh(2), a).(nextIndex := [1, 1], matchIndex := [0, 0])
  }

  function Entry(x: string): LogEntry {
    LogEntry(1, x, 1)
  }

  function FirstMessage(a: Host, x: string): AppendParams {
    AppendParams(1, a, 0, 0, [Entry(x)], 0)
  }

  function Voter(a: Host): Server {
    Fresh(2).(currentTerm := 1, votedFor := a, disk := Metadata(1, a))
  }

  lemma ElectionValues(a: Host)
    requires a != NULL_HOST
    ensures NewLeader(Fresh(2), a) == Leading(a)
    ensures RequestVote(Fresh(2), Asks(Fresh(2), a)) == (Voter(a), VoteResult(1, true))
  {
    assert Fill(2, 1) == [1, 1] && Fill(2, 0) == [0, 0];
  }

  lemma MessageValues(a: Host, x: string)
    ensures BuildWithLogs(Start(Leading(a), x), a, 0) == Some(FirstMessage(a, x))
    ensures BuildWithLogs(Start(Leading(a), x), a, 1) == Some(FirstMessage(a, x))
    ensures Start(Leading(a), x) == Leading(a).(logs := [Entry(x)])
  {
    var s := Start(Leading(a), x);
    assert s.logs == [Entry(x)];
    assert GetLog(s.logs, 1) == Some(Entry(x));
    assert Slice(s.logs, 1, 0) == Some([]) && [] + [Entry(x)] == [Entry(x)];
    assert Slice(s.logs, 1, 1) == Some([Entry(x)]);
  }

  lemma AcceptValues(check: PrevCheck, a: Host, x: string)
    ensures AppendEntries(check, Voter(a), FirstMessage(a, x)) ==
            (Voter(a).(logs := [Entry(x)]), AppendResult(1, true))
  {
    assert [] + [Entry(x)][0..] == [Entry(x)];
    assert Scan([], [Entry(x)], 0) == Present(0);
  }

  lemma MiddleIsOne()
    ensures MiddleOf([1, 0] + [1]) == 1
  {
    assert [1, 0] + [1] == [1, 0, 1];
    assert multiset([1, 0, 1]) == multiset([0, 1, 1]);
    MiddleOfAnySort([1, 0, 1], [0, 1, 1]);
  }

  /** a when its entry is committed. */
  function Committing(a: Host, x: string): Server {
    Leading(a).(logs := [Entry(x)], nextIndex := [2, 1], matchIndex := [1, 0], commitIndex := 1)
  }

  lemma CommitValues(a: Host, x: string)
    ensures HandleReplicateResult(Leading(a).(logs := [Entry(x)]), 0, 0, 1, true) == Committing(a, x)
  {
    MiddleIsOne();
    assert [0, 0][0 := 1] == [1, 0] && [1, 1][0 := 2] == [2, 1];
  }

  lemma GatherValues(s: Server, x: string)
    requires s.logs == [Entry(x)] && s.commitIndex == 1 && s.lastApplied == 0
    ensures GatherBatch(s) == s.(batch := [Entry(x)], batchSize := 1)
  {
    assert Slice(s.logs, 1, 0) == Some([]) && [] + [Entry(x)] == [Entry(x)];
    assert Slice(s.logs, 1, 1) == Some([Entry(x)]);
  }

  lemma ElectsFirst(a: Host, b: Host, d: Host, check: PrevCheck) returns (servers: Servers, net: set<Message>)
    requires Different([a, b, d])
    ensures Reached(Three(a, b, d, check), servers, net)
    ensures servers[a] == Leading(a) && servers[b] == Voter(a) && servers[d] == Fresh(2)
  {
    ThreeIsValid(a, b, d, check);
    ThreeDiffer(a, b, d);
    ElectionValues(a);
    var c := Three(a, b, d, check);
    servers := Begins(c);
    assert b in c.peers[a];
    servers, net := ElectsWithOne(c, servers, {}, a, b);
  }

  /** A leader is elected and takes a command. */
  lemma Elects(a: Host, b: Host, d: Host, check: PrevCheck, x: string) returns (servers: Servers, net: set<Message>)
    requires Different([a, b, d])
    ensures Reached(Three(a, b, d, check), servers, net)
    ensures servers[a] == Leading(a).(logs := [Entry(x)]) && servers[b] == Voter(a) && servers[d] == Fresh(2)
  {
    ThreeDiffer(a, b, d);
    MessageValues(a, x);
    servers, net := ElectsFirst(a, b, d, check);
    servers := Starts(Three(a, b, d, check), servers, net, a, x);
  }

  lemma ExchangeValues(a: Host, b: Host, d: Host, check: PrevCheck, x: string, servers: map<Host, Server>)
    requires Different([a, b, d]) && a in servers && b in servers
    requires servers[a] == Leading(a).(logs := [Entry(x)]) && servers[b] == Voter(a)
    ensures CanExchange(Three(a, b, d, check), servers, a, 0, FirstMessage(a, x), Voter(a).(logs := [Entry(x)]), true)
  {
    ThreeDiffer(a, b, d);
    MessageValues(a, x);
    AcceptValues(check, a, x);
  }

  /** b takes the entry, and its answer commits it. */
  lemma Commits(a: Host, b: Host, d: Host, check: PrevCheck, x: string) returns (servers: Servers, net: set<Message>)
    requires Different([a, b, d])
    ensures Reached(Three(a, b, d, check), servers, net) && servers[a] == Committing(a, x)
    ensures servers[b] == Voter(a).(logs := [Entry(x)]) && servers[d] == Fresh(2)
  {
    ThreeDiffer(a, b, d);
    CommitValues(a, x);
    servers, net := Elects(a, b, d, check, x);
    ExchangeValues(a, b, d, check, x, servers);
    servers, net := Exchanges(Three(a, b, d, check), servers, net, a, 0, FirstMessage(a, x),
                              Voter(a).(logs := [Entry(x)]), true);
  }

  /** There is a run in which a command is committed and applied. */
  lemma CommandsGetApplied(a: Host, b: Host, d: Host, check: PrevCheck, x: string)
    returns (steps: seq<Step>, st: Cluster)
    requires Different([a, b, d])
    ensures ValidConfig(Three(a, b, d, check)) && IsRun(Three(a, b, d, check), steps, false, st)
    ensures a in st.servers && st.servers[a].commitIndex == 1 && st.servers[a].applied == [LogEntry(1, x, 1)]
  {
    var c, s := Three(a, b, d, check), Committing(a, x);
    var servers, net := Commits(a, b, d, check, x);
    GatherValues(s, x);
    servers := GathersForApply(c, servers, net, a);
    servers := Applies(c, servers, net, a);
    assert [] + [Entry(x)] == [Entry(x)];
    steps, st :| IsAt(c, steps, st, servers, net);
  }
}
