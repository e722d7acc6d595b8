/** Figure 8 of the Raft paper as a run of three servers: what the term test before a leader commits is for
    (section 5.4.2). src/raft/raft.cpp:412. */
module RaftTermTest {
  import opened RaftTypes
  import opened RaftServer
  import opened RaftCluster
  import opened RaftRuns
  import opened RaftProgress
  import opened Median

  /** HandleReplicateResult without the test that the entry is of the leader's own term. */
  function HandleUntested(s: Server, i: nat, matchedIndex: nat): Server
    requires i < |s.nextIndex| == |s.matchIndex|
  {
    var s := s.(nextIndex := s.nextIndex[i := matchedIndex + 1], matchIndex := s.matchIndex[i := matchedIndex]);
    var agree := MiddleOf(s.matchIndex + [LastIndex(s.logs)]);
    match GetLog(s.logs, agree)
    case None => s.(fatal := BadLogIndex)
    case Some(_) => UpdateCommitIndex(s, agree)
  }

  // ----- twenty commands -----

  function StartMany(s: Server, command: string, n: nat): Server {
    if n == 0 then s else Start(StartMany(s, command, n - 1), command)
  }

  function Entries(term: nat, command: string, n: nat): (r: Log)
    ensures |r| == n && Consecutive(r) && forall k :: 0 <= k < n ==> r[k] == LogEntry(term, command, k + 1)
  {
    seq(n, k requires 0 <= k < n => LogEntry(term, command, k + 1))
  }

  lemma {:induction false} StartManyGives(s: Server, command: string, n: nat)
    requires s.role == Leader && s.logs == []
    ensures StartMany(s, command, n) == s.(logs := Entries(s.currentTerm, command, n))
  {
    if n > 0 {
      StartManyGives(s, command, n - 1);
      var before := Entries(s.currentTerm, command, n - 1);
      assert LastIndex(before) == n - 1;
      assert before + [LogEntry(s.currentTerm, command, n)] == Entries(s.currentTerm, command, n);
    } else {
      assert Entries(s.currentTerm, command, 0) == [];
    }
  }

  lemma StartsOneMore(servers: Servers, h: Host, x: string, n: nat)
    requires Up(servers, h) && servers[h].role == Leader && servers[h].logs == [] && n > 0
    ensures var before := servers[h := StartMany(servers[h], x, n - 1)];
      Up(before, h) && before[h := Start(before[h], x)] == servers[h := StartMany(servers[h], x, n)]
  {
    StartManyGives(servers[h], x, n - 1);
  }

  lemma {:induction false} StartsMany(c: Config, servers: Servers, net: set<Message>, h: Host, x: string, n: nat)
    returns (servers': Servers)
    requires Reached(c, servers, net) && Up(servers, h) && servers[h].role == Leader && servers[h].logs == []
    ensures servers' == servers[h := StartMany(servers[h], x, n)] && Reached(c, servers', net)
  {
    if n == 0 {
      servers' := servers;
    } else {
      StartsOneMore(servers, h, x, n);
      var before := StartsMany(c, servers, net, h, x, n - 1);
      servers' := Starts(c, before, net, h, x);
    }
  }

  // ----- terms 1 and 2 -----

  /** a, deposed in term 2 with its twenty entries. */
  function Holder(a: Host, x: string): Server {
    Leading(a).(logs := Entries(1, x, 20), role := Follower, currentTerm := 2, votedFor := NULL_HOST)
  }

  /** b, leader of term 2 with one entry. */
  function Second(a: Host, b: Host, y: string): Server {
    NewLeader(Voter(a), b).(logs := [LogEntry(2, y, 1)])
  }

  function EmptyVoter(term: nat, leader: Host): Server {
    Fresh(2).(currentTerm := term, votedFor := leader, disk := Metadata(term, leader))
  }

  lemma SecondValues(a: Host, b: Host, x: string, y: string)
    requires a != NULL_HOST && b != NULL_HOST
    ensures StartMany(Leading(a), x, 20) == Leading(a).(logs := Entries(1, x, 20))
    ensures Asks(Voter(a), b) == VoteParams(2, b, 0, 0)
    ensures RequestVote(Fresh(2), VoteParams(2, b, 0, 0)) == (EmptyVoter(2, b), VoteResult(2, true))
    ensures RequestVote(Leading(a).(logs := Entries(1, x, 20)), VoteParams(2, b, 0, 0)).0 == Holder(a, x)
    ensures Start(NewLeader(Voter(a), b), y) == Second(a, b, y)
  {
    StartManyGives(Leading(a), x, 20);
    assert [] + [LogEntry(2, y, 1)] == [LogEntry(2, y, 1)];
  }

  /** a is elected by b and takes twenty commands, then b is elected by d and takes one; a hears of term 2. */
  lemma FirstTerms(a: Host, b: Host, d: Host, check: PrevCheck, x: string, y: string)
    returns (servers: Servers, net: set<Message>)
    requires Different([a, b, d])
    ensures Reached(Three(a, b, d, check), servers, net)
    ensures servers[a] == Holder(a, x) && servers[b] == Second(a, b, y) && servers[d] == EmptyVoter(2, b)
  {
    ThreeDiffer(a, b, d);
    SecondValues(a, b, x, y);
    var c := Three(a, b, d, check);
    servers, net := ElectsFirst(a, b, d, check);
    servers := StartsMany(c, servers, net, a, x, 20);
    assert d in c.peers[b] && a in c.peers[b];
    servers, net := ElectsWithOne(c, servers, net, b, d);
    servers, net := Votes(c, servers, net, a, VoteParams(2, b, 0, 0));
    servers := Starts(c, servers, net, b, y);
  }

  // ----- term 3 -----

  /** The leader of term 3: twenty entries of term 1, one of its own term, and nothing yet at peer 1. */
  function ThirdLeader(me: Host, x: string, z: string, next: nat): Server {
    Server(3, me, Entries(1, x, 20) + [LogEntry(3, z, 21)], 0, 0, [21, next], [0, 0], Leader, 3, [], 0, [],
           Metadata(3, me), Running)
  }

  lemma ThirdValues(a: Host, b: Host, x: string, y: string, z: string)
    requires a != NULL_HOST && b != NULL_HOST
    ensures Asks(Holder(a, x), a) == VoteParams(3, a, 20, 1)
    ensures Start(NewLeader(Holder(a, x), a), z) == ThirdLeader(a, x, z, 21)
    ensures RequestVote(EmptyVoter(2, b), VoteParams(3, a, 20, 1)) == (EmptyVoter(3, a), VoteResult(3, true))
    ensures RequestVote(Second(a, b, y), VoteParams(3, a, 20, 1)).0 ==
            Second(a, b, y).(role := Follower, currentTerm := 3, votedFor := NULL_HOST)
  {
    assert Fill(2, 21) == [21, 21] && Fill(2, 0) == [0, 0];
  }

  lemma ThirdTerm(a: Host, b: Host, d: Host, check: PrevCheck, x: string, y: string, z: string)
    returns (servers: Servers, net: set<Message>)
    requires Different([a, b, d])
    ensures Reached(Three(a, b, d, check), servers, net)
    ensures servers[a] == ThirdLeader(a, x, z, 21) && servers[d] == EmptyVoter(3, a)
    ensures servers[b] == Second(a, b, y).(role := Follower, currentTerm := 3, votedFor := NULL_HOST)
  {
    ThreeDiffer(a, b, d);
    ThirdValues(a, b, x, y, z);
    var c := Three(a, b, d, check);
    servers, net := FirstTerms(a, b, d, check, x, y);
    assert d in c.peers[a] && b in c.peers[a];
    servers, net := ElectsWithOne(c, servers, net, a, d);
    servers, net := Votes(c, servers, net, b, VoteParams(3, a, 20, 1));
    servers := Starts(c, servers, net, a, z);
  }

  lemma ThirdLogs(x: string, z: string)
    ensures var logs := Entries(1, x, 20) + [LogEntry(3, z, 21)];
      |logs| == 21 && Consecutive(logs) && (forall k :: 0 <= k < 20 ==> logs[k].term == 1) && LastIndex(logs) == 21
  {
  }

  lemma ThirdPrev(me: Host, x: string, z: string, n: nat)
    requires 1 <= n <= 21
    ensures BuildParams(ThirdLeader(me, x, z, n), me, 1) ==
            Some(AppendParams(3, me, n - 1, if n == 1 then 0 else 1, [], 0))
  {
    var s := ThirdLeader(me, x, z, n);
    ThirdLogs(x, z);
    GetLogConsecutive(s.logs, n - 1);
    assert s.logs[0].index == 1 && s.nextIndex[1] == n;
  }

  lemma ThirdSlice(me: Host, x: string, z: string, n: nat)
    requires 1 <= n <= 21
    ensures var s := ThirdLeader(me, x, z, n); var count := if n == 1 then 20 else 22 - n;
      GatherLogs(s, 1) == Some(s.logs[n - 1..n - 1 + count])
  {
    var s := ThirdLeader(me, x, z, n);
    ThirdLogs(x, z);
    assert s.nextIndex[1] == n;
    SliceOfLog(s.logs, n, if n == 1 then 20 else 22 - n);
  }

  /** The message for a peer whose next index is n: at most twenty entries. */
  function ThirdMessage(me: Host, x: string, z: string, n: nat): AppendParams
    requires 1 <= n <= 21
  {
    AppendParams(3, me, n - 1, if n == 1 then 0 else 1,
                 ThirdLeader(me, x, z, n).logs[n - 1..n - 1 + if n == 1 then 20 else 22 - n], 0)
  }

  lemma ThirdMessageIsBuilt(me: Host, x: string, z: string, n: nat)
    requires 1 <= n <= 21
    ensures BuildWithLogs(ThirdLeader(me, x, z, n), me, 1) == Some(ThirdMessage(me, x, z, n))
  {
    ThirdPrev(me, x, z, n);
    ThirdSlice(me, x, z, n);
  }

  lemma RefusalValues(a: Host, b: Host, d: Host, check: PrevCheck, x: string, z: string, n: nat, servers: Servers)
    requires Different([a, b, d]) && 1 < n <= 21 && a in servers && d in servers
    requires servers[a] == ThirdLeader(a, x, z, n) && servers[d] == EmptyVoter(3, a)
    ensures CanExchange(Three(a, b, d, check), servers, a, 1, ThirdMessage(a, x, z, n), EmptyVoter(3, a), false)
    ensures HandleReplicateResult(ThirdLeader(a, x, z, n), 1, n - 1, 21, false) == ThirdLeader(a, x, z, n - 1)
  {
    ThreeDiffer(a, b, d);
    ThirdMessageIsBuilt(a, x, z, n);
    assert [21, n][1 := n - 1] == [21, n - 1];
  }

  /** An empty follower refuses until the leader is back at its first entry. */
  lemma {:induction false} Refusals(a: Host, b: Host, d: Host, check: PrevCheck, x: string, z: string, n: nat,
                                    servers: Servers, net: set<Message>)
    returns (servers': Servers, net': set<Message>)
    requires Different([a, b, d]) && Reached(Three(a, b, d, check), servers, net) && 1 <= n <= 21
    requires servers[a] == ThirdLeader(a, x, z, n) && servers[d] == EmptyVoter(3, a)
    ensures Reached(Three(a, b, d, check), servers', net')
    ensures servers'[a] == ThirdLeader(a, x, z, 1) && servers'[d] == EmptyVoter(3, a) && servers'[b] == servers[b]
    decreases n
  {
    servers', net' := servers, net;
    if n > 1 {
      ThreeDiffer(a, b, d);
      RefusalValues(a, b, d, check, x, z, n, servers);
      var next, more := Exchanges(Three(a, b, d, check), servers, net, a, 1, ThirdMessage(a, x, z, n),
                                  EmptyVoter(3, a), false);
      servers', net' := Refusals(a, b, d, check, x, z, n - 1, next, more);
    }
  }

  lemma AcceptedValues(a: Host, b: Host, d: Host, check: PrevCheck, x: string, z: string, servers: Servers)
    requires Different([a, b, d]) && a in servers && d in servers
    requires servers[a] == ThirdLeader(a, x, z, 1) && servers[d] == EmptyVoter(3, a)
    ensures CanExchange(Three(a, b, d, check), servers, a, 1, ThirdMessage(a, x, z, 1),
                        EmptyVoter(3, a).(logs := Entries(1, x, 20)), true)
  {
    ThreeDiffer(a, b, d);
    ThirdMessageIsBuilt(a, x, z, 1);
    var p, old_ := ThirdMessage(a, x, z, 1), Entries(1, x, 20);
    assert p.entries == old_;
    assert Scan([], old_, 0) == Present(0) && [] + old_[0..] == old_;
    assert Merge([], old_) == Some(old_);
  }

  /** a brings its first twenty entries to d, and d's answer is on its way. */
  lemma OldEntriesArrive(a: Host, b: Host, d: Host, check: PrevCheck, x: string, y: string, z: string)
    returns (servers: Servers, net: set<Message>)
    requires Different([a, b, d])
    ensures Reached(Three(a, b, d, check), servers, net) && AppendReply(d, a, 3, 0, 20, true) in net
    ensures servers[a] == ThirdLeader(a, x, z, 1)
    ensures servers[b] == Second(a, b, y).(role := Follower, currentTerm := 3, votedFor := NULL_HOST)
    ensures servers[d] == EmptyVoter(3, a).(logs := Entries(1, x, 20))
  {
    ThreeDiffer(a, b, d);
    servers, net := ThirdTerm(a, b, d, check, x, y, z);
    servers, net := Refusals(a, b, d, check, x, z, 21, servers, net);
    AcceptedValues(a, b, d, check, x, z, servers);
    servers, net := SendsAndGets(Three(a, b, d, check), servers, net, a, 1, ThirdMessage(a, x, z, 1),
                                 EmptyVoter(3, a).(logs := Entries(1, x, 20)), true);
  }

  // ----- term 4 -----

  lemma FourthValues(a: Host, b: Host, x: string, y: string)
    requires a != NULL_HOST && b != NULL_HOST
    ensures var s := Second(a, b, y).(role := Follower, currentTerm := 3, votedFor := NULL_HOST);
      && RequestVote(EmptyVoter(3, a).(logs := Entries(1, x, 20)), Asks(s, b)).1.voteGranted
      && NewLeader(s, b).role == Leader && NewLeader(s, b).currentTerm == 4
      && NewLeader(s, b).logs == [LogEntry(2, y, 1)] && s.fatal == Running
  {
  }

  lemma ReplyValues(a: Host, x: string, z: string)
    ensures var s := ThirdLeader(a, x, z, 1);
      && HandleUntested(s, 1, 20).commitIndex == 20 && HandleReplicateResult(s, 1, 0, 20, true).commitIndex == 0
  {
    var s := ThirdLeader(a, x, z, 1);
    assert [0, 0][1 := 20] == [0, 20] && [0, 20] + [21] == [0, 20, 21];
    assert Ascending([0, 20, 21]);
    MiddleOfAnySort([0, 20, 21], [0, 20, 21]);
    ThirdLogs(x, z);
    GetLogConsecutive(s.logs, 20);
  }

  /** There is a run at whose end a leads term 3 with d's answer about its old entries still to come, while b has been
      elected in term 4 without them. Without the test a commits twenty entries that b does not have; with it a commits
      nothing. */
  lemma TermTestNeeded(a: Host, b: Host, d: Host, check: PrevCheck, x: string, y: string, z: string)
    returns (steps: seq<Step>, st: Cluster)
    requires Different([a, b, d])
    ensures var c, m := Three(a, b, d, check), AppendReply(d, a, 3, 0, 20, true);
      && ValidConfig(c) && IsRun(c, steps, false, st) && st.servers.Keys == c.members
      && Enabled(c, st, DeliverAppendReply(m, 1))
      && HandleUntested(st.servers[a], 1, 20).commitIndex == 20
      && LocalResult(c, st, DeliverAppendReply(m, 1)).commitIndex == 0
      && st.servers[a].logs[0] == LogEntry(1, x, 1)
      && st.servers[b].role == Leader && st.servers[b].currentTerm == 4 && st.servers[b].logs == [LogEntry(2, y, 1)]
  {
    ThreeDiffer(a, b, d);
    FourthValues(a, b, x, y);
    ReplyValues(a, x, z);
    var c := Three(a, b, d, check);
    var servers, net := OldEntriesArrive(a, b, d, check, x, y, z);
    assert d in c.peers[b] && c.peers[a] == [b, d];
    servers, net := ElectsWithOne(c, servers, net, b, d);
    steps, st :| IsAt(c, steps, st, servers, net);
    assert ValidPeer(c, st, a, 1);
  }
}
