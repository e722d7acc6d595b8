/** Building runs of the cluster step by step: what each step needs of the servers and messages reached so far, and
    what it leaves. */
module RaftRuns {
  import opened RaftTypes
  import opened RaftServer
  import opened RaftCluster

  type Servers = map<Host, Server>

  ghost predicate Different(hosts: seq<Host>) {
    NULL_HOST !in hosts && Distinct(hosts)
  }

  /** Three members that know each other. */
  function Three(a: Host, b: Host, d: Host, check: PrevCheck): Config {
    Config({a, b, d}, map[a := [b, d], b := [a, d], d := [a, b]], check)
  }

  function Five(a: Host, b: Host, d: Host, e: Host, f: Host, check: PrevCheck): Config {
    Config({a, b, d, e, f},
           map[a := [b, d, e, f], b := [a, d, e, f], d := [a, b, e, f], e := [a, b, d, f], f := [a, b, d, e]], check)
  }

  /** Every one of the hosts knows the others. */
  lemma KnowOthers(c: Config, hosts: seq<Host>)
    requires Different(hosts) && c.members == (set h | h in hosts) && c.peers.Keys == c.members
    requires forall i {:trigger hosts[i]} :: 0 <= i < |hosts| ==> c.peers[hosts[i]] == hosts[..i] + hosts[i + 1..]
    ensures ValidConfig(c)
  {
    forall h | h in c.members
      ensures Distinct(c.peers[h]) && h !in c.peers[h] && forall p :: p in c.members <==> p == h || p in c.peers[h]
    {
      var i :| 0 <= i < |hosts| && hosts[i] == h;
      Others(hosts, i);
    }
  }

  lemma Others(hosts: seq<Host>, i: nat)
    requires Distinct(hosts) && i < |hosts|
    ensures var others := hosts[..i] + hosts[i + 1..];
      Distinct(others) && hosts[i] !in others && forall p :: p in hosts <==> p == hosts[i] || p in others
  {
    var others := hosts[..i] + hosts[i + 1..];
    assert forall k :: 0 <= k < |others| ==> others[k] == hosts[if k < i then k else k + 1];
    forall p | p in hosts ensures p == hosts[i] || p in others {
      var k :| 0 <= k < |hosts| && hosts[k] == p;
      assert k < i ==> others[k] == p;
      assert k > i ==> others[k - 1] == p;
    }
  }

  lemma ThreePeers(a: Host, b: Host, d: Host, check: PrevCheck, i: nat)
    requires Different([a, b, d]) && i < 3
    ensures var hosts := [a, b, d]; Three(a, b, d, check).peers[hosts[i]] == hosts[..i] + hosts[i + 1..]
  {
    var hosts := [a, b, d];
    assert hosts[0] == a && hosts[1] == b && hosts[2] == d;
  }

  lemma ThreeIsValid(a: Host, b: Host, d: Host, check: PrevCheck)
    requires Different([a, b, d])
    ensures ValidConfig(Three(a, b, d, check)) && |Three(a, b, d, check).members| == 3
  {
    var c, hosts := Three(a, b, d, check), [a, b, d];
    forall i {:trigger hosts[i]} | 0 <= i < |hosts| ensures c.peers[hosts[i]] == hosts[..i] + hosts[i + 1..] {
      ThreePeers(a, b, d, check, i);
    }
    ThreeDiffer(a, b, d);
    assert c.members == (set h | h in hosts);
    KnowOthers(c, hosts);
  }

  lemma ThreeDiffer(a: Host, b: Host, d: Host)
    requires Different([a, b, d])
    ensures a != b && a != d && b != d && |{a, b, d}| == 3
  {
    var hosts := [a, b, d];
    assert hosts[0] == a && hosts[1] == b && hosts[2] == d;
    assert |{a, b}| == 2 && {a, b, d} == {a, b} + {d};
  }

  lemma FivePeers(a: Host, b: Host, d: Host, e: Host, f: Host, check: PrevCheck, i: nat)
    requires Different([a, b, d, e, f]) && i < 5
    ensures var hosts := [a, b, d, e, f]; Five(a, b, d, e, f, check).peers[hosts[i]] == hosts[..i] + hosts[i + 1..]
  {
    var hosts := [a, b, d, e, f];
    FiveDiffer(a, b, d, e, f);
  }

  lemma FiveIsValid(a: Host, b: Host, d: Host, e: Host, f: Host, check: PrevCheck)
    requires Different([a, b, d, e, f])
    ensures ValidConfig(Five(a, b, d, e, f, check)) && |Five(a, b, d, e, f, check).members| == 5
  {
    var c, hosts := Five(a, b, d, e, f, check), [a, b, d, e, f];
    forall i {:trigger hosts[i]} | 0 <= i < |hosts| ensures c.peers[hosts[i]] == hosts[..i] + hosts[i + 1..] {
      FivePeers(a, b, d, e, f, check, i);
    }
    FiveMembers(a, b, d, e, f, check);
    KnowOthers(c, hosts);
  }

  lemma FiveMembers(a: Host, b: Host, d: Host, e: Host, f: Host, check: PrevCheck)
    requires Different([a, b, d, e, f])
    ensures var c := Five(a, b, d, e, f, check);
      c.members == (set h | h in [a, b, d, e, f]) && c.peers.Keys == c.members && |c.members| == 5
  {
    FiveDiffer(a, b, d, e, f);
  }

  lemma FiveDiffer(a: Host, b: Host, d: Host, e: Host, f: Host)
    requires Different([a, b, d, e, f])
    ensures a != b && a != d && a != e && a != f && b != d && b != e && b != f && d != e && d != f && e != f
    ensures |{a, b, d, e, f}| == 5
  {
    var hosts := [a, b, d, e, f];
    assert hosts[0] == a && hosts[1] == b && hosts[2] == d && hosts[3] == e && hosts[4] == f;
    assert |{a, b}| == 2 && |{a, b, d}| == 3 && |{a, b, d, e}| == 4;
    assert {a, b, d, e, f} == {a, b, d, e} + {f};
  }

  ghost predicate IsAt(c: Config, steps: seq<Step>, st: Cluster, servers: Servers, net: set<Message>,
                       restarts: bool := false)
    requires ValidConfig(c)
  {
    IsRun(c, steps, restarts, st) && (!restarts ==> NoRestart(steps)) && st.servers == servers && net <= st.net
  }

  /** Some run leads to these servers, with at least these messages in the network. It is one without restart, or with
      restarts of any kind. */
  ghost predicate Reached(c: Config, servers: Servers, net: set<Message>, restarts: bool := false) {
    ValidConfig(c) && servers.Keys == c.members && exists steps, st :: IsAt(c, steps, st, servers, net, restarts)
  }

  lemma Begins(c: Config) returns (servers: Servers)
    requires ValidConfig(c)
    ensures Reached(c, servers, {}) && forall h :: h in c.members ==> servers[h] == Fresh(|c.peers[h]|)
  {
    servers := Init(c).servers;
    EmptyRun(c, false, Init(c));
    assert IsAt(c, [], Init(c), servers, {});
  }

  lemma Continues(c: Config, steps: seq<Step>, st: Cluster, step: Step, servers: Servers, net: set<Message>,
                  restarts: bool)
    requires ValidConfig(c) && IsRun(c, steps, restarts, st) && (!restarts ==> NoRestart(steps))
    requires st.servers.Keys == c.members && Enabled(c, st, step) && (step.Restart? ==> restarts)
    requires Do(c, st, step).servers == servers && servers.Keys == c.members && net <= Do(c, st, step).net
    ensures Reached(c, servers, net, restarts)
  {
    OneMore(c, steps, restarts, st, step);
    assert IsAt(c, steps + [step], Do(c, st, step), servers, net, restarts);
  }

  lemma {:induction false} RestartsAllowed(c: Config, steps: seq<Step>, st: Cluster)
    requires ValidConfig(c) && IsRun(c, steps, false, st)
    ensures IsRun(c, steps, true, st)
  {
    if steps == [] {
      EmptyRun(c, false, st);
      EmptyRun(c, true, st);
    } else {
      var n := |steps| - 1;
      var before := LastStep(c, steps, false, st);
      RestartsAllowed(c, steps[..n], before);
      OneMore(c, steps[..n], true, before, steps[n]);
      assert steps[..n] + [steps[n]] == steps;
    }
  }

  /** Server h restarts with this log on disk. */
  lemma Restarts(c: Config, servers: Servers, net: set<Message>, h: Host, diskLogs: Log) returns (servers': Servers)
    requires Reached(c, servers, net) && h in servers && Consecutive(diskLogs)
    ensures servers' == servers[h := Restarted(servers[h], diskLogs)] && Reached(c, servers', net, true)
  {
    var steps, st :| IsAt(c, steps, st, servers, net);
    RestartsAllowed(c, steps, st);
    servers' := servers[h := Restarted(servers[h], diskLogs)];
    Continues(c, steps, st, Restart(h, diskLogs), servers', net, true);
  }

  predicate Up(servers: Servers, h: Host) {
    h in servers && servers[h].fatal == Running
  }

  lemma TimesOut(c: Config, servers: Servers, net: set<Message>, h: Host,
                 restarts: bool := false)
    returns (servers': Servers)
    requires Reached(c, servers, net, restarts) && Up(servers, h) && servers[h].role != Leader
    ensures servers' == servers[h := SwitchToCandidate(servers[h])] && Reached(c, servers', net, restarts)
  {
    var steps, st :| IsAt(c, steps, st, servers, net, restarts);
    servers' := servers[h := SwitchToCandidate(servers[h])];
    Continues(c, steps, st, Timeout(h), servers', net, restarts);
  }

  /** A candidate asks everybody for votes in the next term. */
  lemma BeginsElection(c: Config, servers: Servers, net: set<Message>, h: Host, restarts: bool := false)
    returns (servers': Servers, net': set<Message>)
    requires Reached(c, servers, net, restarts) && Up(servers, h) && servers[h].role == Candidate
    ensures servers' == servers[h := StartElection(servers[h], h)]
    ensures Reached(c, servers', net', restarts) && net <= net'
    ensures forall p {:trigger p in c.peers[h]} :: p in c.peers[h] ==>
              VoteRequest(p, ElectionParams(servers'[h], h)) in net'
  {
    var steps, st :| IsAt(c, steps, st, servers, net, restarts);
    servers' := servers[h := StartElection(servers[h], h)];
    net' := net + (set p | p in c.peers[h] :: VoteRequest(p, ElectionParams(servers'[h], h)));
    Continues(c, steps, st, BeginElection(h), servers', net', restarts);
  }

  function Candidacy(s: Server, me: Host): Server {
    StartElection(SwitchToCandidate(s), me)
  }

  lemma Stands(c: Config, servers: Servers, net: set<Message>, h: Host) returns (servers': Servers, net': set<Message>)
    requires Reached(c, servers, net) && Up(servers, h) && servers[h].role != Leader
    ensures servers' == servers[h := Candidacy(servers[h], h)] && Reached(c, servers', net') && net <= net'
    ensures forall p {:trigger p in c.peers[h]} :: p in c.peers[h] ==>
              VoteRequest(p, ElectionParams(servers'[h], h)) in net'
  {
    var candidate := TimesOut(c, servers, net, h);
    servers', net' := BeginsElection(c, candidate, net, h);
    assert servers' == servers[h := Candidacy(servers[h], h)];
  }

  lemma Votes(c: Config, servers: Servers, net: set<Message>, v: Host, p: VoteParams, restarts: bool := false)
    returns (servers': Servers, net': set<Message>)
    requires Reached(c, servers, net, restarts) && Up(servers, v) && VoteRequest(v, p) in net
    ensures servers' == servers[v := RequestVote(servers[v], p).0]
    ensures Reached(c, servers', net', restarts) && net <= net'
    ensures VoteReply(v, p.candidateId, p.term, RequestVote(servers[v], p).1.voteGranted) in net'
  {
    var steps, st :| IsAt(c, steps, st, servers, net, restarts);
    servers' := servers[v := RequestVote(servers[v], p).0];
    net' := net + {VoteReply(v, p.candidateId, p.term, RequestVote(servers[v], p).1.voteGranted)};
    Continues(c, steps, st, DeliverVoteRequest(VoteRequest(v, p)), servers', net', restarts);
  }

  lemma Wins(c: Config, servers: Servers, net: set<Message>, h: Host, voters: set<Host>,
             restarts: bool := false)
    returns (servers': Servers)
    requires Reached(c, servers, net, restarts) && Up(servers, h) && servers[h].role == Candidate
    requires servers[h].electionTerm == servers[h].currentTerm > 0 && Majority(c, voters)
    requires forall v :: v in voters && v != h ==> VoteReply(v, h, servers[h].electionTerm, true) in net
    ensures servers' == servers[h := SwitchToLeader(servers[h])] && Reached(c, servers', net, restarts)
  {
    var steps, st :| IsAt(c, steps, st, servers, net, restarts);
    servers' := servers[h := SwitchToLeader(servers[h])];
    Continues(c, steps, st, WinElection(h, voters), servers', net, restarts);
  }

  lemma Starts(c: Config, servers: Servers, net: set<Message>, h: Host, x: string) returns (servers': Servers)
    requires Reached(c, servers, net) && Up(servers, h)
    ensures servers' == servers[h := Start(servers[h], x)] && Reached(c, servers', net)
  {
    var steps, st :| IsAt(c, steps, st, servers, net);
    servers' := servers[h := Start(servers[h], x)];
    Continues(c, steps, st, ClientStart(h, x), servers', net, false);
  }

  ghost predicate CanSend(c: Config, servers: Servers, h: Host, peer: nat) {
    && Up(servers, h) && servers[h].role == Leader && h in c.peers
    && peer < |c.peers[h]| == |servers[h].nextIndex| == |servers[h].matchIndex|
  }

  lemma Sends(c: Config, servers: Servers, net: set<Message>, h: Host, peer: nat, p: AppendParams)
    returns (net': set<Message>)
    requires Reached(c, servers, net) && CanSend(c, servers, h, peer) && BuildWithLogs(servers[h], h, peer) == Some(p)
    ensures Reached(c, servers, net') && net' == net + {AppendRequest(c.peers[h][peer], p)}
  {
    var steps, st :| IsAt(c, steps, st, servers, net);
    net' := net + {AppendRequest(c.peers[h][peer], p)};
    Continues(c, steps, st, SendLogs(h, peer), servers, net', false);
  }

  /** A message that cannot be built stops the leader. */
  lemma SendStops(c: Config, servers: Servers, net: set<Message>, h: Host, peer: nat) returns (servers': Servers)
    requires Reached(c, servers, net) && CanSend(c, servers, h, peer) && BuildWithLogs(servers[h], h, peer) == None
    ensures servers' == servers[h := servers[h].(fatal := BadLogIndex)] && Reached(c, servers', net)
  {
    var steps, st :| IsAt(c, steps, st, servers, net);
    servers' := servers[h := servers[h].(fatal := BadLogIndex)];
    Continues(c, steps, st, SendLogs(h, peer), servers', net, false);
  }

  lemma SendsHeartbeat(c: Config, servers: Servers, net: set<Message>, h: Host, peer: nat, p: AppendParams)
    returns (net': set<Message>)
    requires Reached(c, servers, net) && CanSend(c, servers, h, peer) && BuildParams(servers[h], h, peer) == Some(p)
    ensures Reached(c, servers, net') && net' == net + {AppendRequest(c.peers[h][peer], p)}
  {
    var steps, st :| IsAt(c, steps, st, servers, net);
    net' := net + {AppendRequest(c.peers[h][peer], p)};
    Continues(c, steps, st, SendHeartbeat(h, peer), servers, net', false);
  }

  lemma Appends(c: Config, servers: Servers, net: set<Message>, v: Host, p: AppendParams, restarts: bool := false)
    returns (servers': Servers, net': set<Message>)
    requires Reached(c, servers, net, restarts) && Up(servers, v) && AppendRequest(v, p) in net
    requires AppendEntries(c.check, servers[v], p).0.fatal == Running
    ensures servers' == servers[v := AppendEntries(c.check, servers[v], p).0] && Reached(c, servers', net', restarts)
    ensures net' == net + {AppendReply(v, p.leaderId, p.term, p.prevLogIndex, |p.entries|,
                                       AppendEntries(c.check, servers[v], p).1.success)}
  {
    var steps, st :| IsAt(c, steps, st, servers, net, restarts);
    servers' := servers[v := AppendEntries(c.check, servers[v], p).0];
    net' := net + {AppendReply(v, p.leaderId, p.term, p.prevLogIndex, |p.entries|,
                               AppendEntries(c.check, servers[v], p).1.success)};
    Continues(c, steps, st, DeliverAppendRequest(AppendRequest(v, p)), servers', net', restarts);
  }

  /** The message with the reply of a follower to it. */
  function ReplyTo(v: Host, p: AppendParams, success: bool): Message {
    AppendReply(v, p.leaderId, p.term, p.prevLogIndex, |p.entries|, success)
  }

  lemma HandlesReply(c: Config, servers: Servers, net: set<Message>, h: Host, peer: nat, m: Message)
    returns (servers': Servers)
    requires Reached(c, servers, net) && CanSend(c, servers, h, peer)
    requires m in net && m.AppendReply? && m.to == h && m.from == c.peers[h][peer] && m.count > 0
    requires m.term == servers[h].currentTerm
    ensures servers' == servers[h := HandleReplicateResult(servers[h], peer, m.prevLogIndex,
                                                           m.prevLogIndex + m.count, m.success)]
    ensures Reached(c, servers', net)
  {
    var steps, st :| IsAt(c, steps, st, servers, net);
    servers' := servers[h := HandleReplicateResult(servers[h], peer, m.prevLogIndex, m.prevLogIndex + m.count,
                                                   m.success)];
    ReplyEffect(c, st, h, peer, m);
    Continues(c, steps, st, DeliverAppendReply(m, peer), servers', net, false);
  }

  lemma ReplyEffect(c: Config, st: Cluster, h: Host, peer: nat, m: Message)
    requires ValidConfig(c) && st.servers.Keys == c.members && CanSend(c, st.servers, h, peer)
    requires m in st.net && m.AppendReply? && m.to == h && m.from == c.peers[h][peer] && m.count > 0
    requires m.term == st.servers[h].currentTerm
    ensures Enabled(c, st, DeliverAppendReply(m, peer))
    ensures Do(c, st, DeliverAppendReply(m, peer)) ==
            SetServer(st, h, HandleReplicateResult(st.servers[h], peer, m.prevLogIndex, m.prevLogIndex + m.count,
                                                   m.success))
  {
    assert ValidPeer(c, st, h, peer);
  }

  lemma GathersForApply(c: Config, servers: Servers, net: set<Message>, h: Host) returns (servers': Servers)
    requires Reached(c, servers, net) && Up(servers, h) && servers[h].batchSize == 0
    ensures servers' == servers[h := GatherBatch(servers[h])] && Reached(c, servers', net)
  {
    var steps, st :| IsAt(c, steps, st, servers, net);
    servers' := servers[h := GatherBatch(servers[h])];
    Continues(c, steps, st, GatherForApply(h), servers', net, false);
  }

  lemma Applies(c: Config, servers: Servers, net: set<Message>, h: Host) returns (servers': Servers)
    requires Reached(c, servers, net) && Up(servers, h) && servers[h].batch != []
    ensures servers' == servers[h := ApplyOne(servers[h])] && Reached(c, servers', net)
  {
    var steps, st :| IsAt(c, steps, st, servers, net);
    servers' := servers[h := ApplyOne(servers[h])];
    Continues(c, steps, st, ApplyEntry(h), servers', net, false);
  }

  // ----- a whole exchange -----

  /** The leader has message p for the peer, which becomes s on it and answers. */
  ghost predicate CanExchange(c: Config, servers: Servers, h: Host, peer: nat, p: AppendParams, s: Server,
                              success: bool) {
    && CanSend(c, servers, h, peer) && c.peers[h][peer] != h && Up(servers, c.peers[h][peer])
    && BuildWithLogs(servers[h], h, peer) == Some(p)
    && p.entries != [] && p.term == servers[h].currentTerm && p.leaderId == h
    && AppendEntries(c.check, servers[c.peers[h][peer]], p).0 == s
    && AppendEntries(c.check, servers[c.peers[h][peer]], p).1.success == success
    && s.fatal == Running
  }

  lemma SendsAndGets(c: Config, servers: Servers, net: set<Message>, h: Host, peer: nat, p: AppendParams, s: Server,
                     success: bool)
    returns (servers': Servers, net': set<Message>)
    requires Reached(c, servers, net) && CanExchange(c, servers, h, peer, p, s, success)
    ensures servers' == servers[c.peers[h][peer] := s] && Reached(c, servers', net') && net <= net'
    ensures ReplyTo(c.peers[h][peer], p, success) in net' && CanSend(c, servers', h, peer)
  {
    net' := Sends(c, servers, net, h, peer, p);
    servers', net' := Appends(c, servers, net', c.peers[h][peer], p);
  }

  lemma HandlesAnswer(c: Config, servers: Servers, net: set<Message>, h: Host, peer: nat, p: AppendParams,
                      success: bool)
    returns (servers': Servers)
    requires Reached(c, servers, net) && CanSend(c, servers, h, peer)
    requires p.entries != [] && p.leaderId == h && p.term == servers[h].currentTerm
    requires ReplyTo(c.peers[h][peer], p, success) in net
    ensures var l := HandleReplicateResult(servers[h], peer, p.prevLogIndex, p.prevLogIndex + |p.entries|, success);
      servers' == servers[h := l] && Reached(c, servers', net)
  {
    servers' := HandlesReply(c, servers, net, h, peer, ReplyTo(c.peers[h][peer], p, success));
  }

  /** The leader sends peer what it thinks is next and handles the answer. */
  lemma Exchanges(c: Config, servers: Servers, net: set<Message>, h: Host, peer: nat, p: AppendParams, s: Server,
                  success: bool)
    returns (servers': Servers, net': set<Message>)
    requires Reached(c, servers, net) && CanExchange(c, servers, h, peer, p, s, success)
    ensures var l := HandleReplicateResult(servers[h], peer, p.prevLogIndex, p.prevLogIndex + |p.entries|, success);
      servers' == servers[c.peers[h][peer] := s][h := l] && Reached(c, servers', net') && net <= net'
  {
    var answered;
    answered, net' := SendsAndGets(c, servers, net, h, peer, p, s, success);
    assert answered[h] == servers[h];
    servers' := HandlesAnswer(c, answered, net', h, peer, p, success);
  }

  /** Server h stands and wins: what it is then. */
  function NewLeader(s: Server, me: Host): Server {
    SwitchToLeader(Candidacy(s, me))
  }

  function Asks(s: Server, me: Host): VoteParams {
    ElectionParams(Candidacy(s, me), me)
  }

  ghost predicate CanElect(c: Config, servers: Servers, h: Host, v: Host) {
    && h in c.peers && v in c.peers[h] && v != h && Up(servers, h) && Up(servers, v) && servers[h].role != Leader
    && RequestVote(servers[v], Asks(servers[h], h)).1.voteGranted
  }

  /** A candidate that stood n more times. */
  function Campaign(s: Server, me: Host, n: nat): Server {
    if n == 0 then s else StartElection(Campaign(s, me, n - 1), me)
  }

  lemma {:induction false} CampaignIs(s: Server, me: Host, n: nat)
    requires n > 0
    ensures Campaign(s, me, n) == s.(currentTerm := s.currentTerm + n, votedFor := me,
                                     disk := Metadata(s.currentTerm + n, me), electionTerm := s.currentTerm + n)
  {
    if n > 1 {
      CampaignIs(s, me, n - 1);
    }
  }

  lemma {:induction false} Campaigns(c: Config, servers: Servers, net: set<Message>, h: Host, n: nat,
                                     restarts: bool := false)
    returns (servers': Servers, net': set<Message>)
    requires Reached(c, servers, net, restarts) && Up(servers, h) && servers[h].role == Candidate && n > 0
    ensures servers' == servers[h := Campaign(servers[h], h, n)] && Reached(c, servers', net', restarts) && net <= net'
    ensures forall p {:trigger p in c.peers[h]} :: p in c.peers[h] ==>
              VoteRequest(p, ElectionParams(servers'[h], h)) in net'
  {
    if n == 1 {
      servers', net' := BeginsElection(c, servers, net, h, restarts);
    } else {
      CampaignIs(servers[h], h, n - 1);
      var before;
      before, net' := Campaigns(c, servers, net, h, n - 1, restarts);
      servers', net' := BeginsElection(c, before, net', h, restarts);
      assert servers' == servers[h := Campaign(servers[h], h, n)];
    }
  }

  /** A server that hears from nobody stands n times in a row. */
  lemma StandsAgain(c: Config, servers: Servers, net: set<Message>, h: Host, n: nat, restarts: bool := false)
    returns (servers': Servers, net': set<Message>)
    requires Reached(c, servers, net, restarts) && Up(servers, h) && servers[h].role != Leader && n > 0
    ensures servers' == servers[h := Campaign(SwitchToCandidate(servers[h]), h, n)]
    ensures Reached(c, servers', net', restarts) && net <= net'
    ensures forall p {:trigger p in c.peers[h]} :: p in c.peers[h] ==>
              VoteRequest(p, ElectionParams(servers'[h], h)) in net'
  {
    var candidate := TimesOut(c, servers, net, h, restarts);
    servers', net' := Campaigns(c, candidate, net, h, n, restarts);
    assert servers' == servers[h := Campaign(SwitchToCandidate(servers[h]), h, n)];
  }

  lemma StandsAndGets(c: Config, servers: Servers, net: set<Message>, h: Host, v: Host)
    returns (servers': Servers, net': set<Message>)
    requires Reached(c, servers, net) && CanElect(c, servers, h, v)
    ensures servers' == servers[h := Candidacy(servers[h], h)][v := RequestVote(servers[v], Asks(servers[h], h)).0]
    ensures Reached(c, servers', net') && net <= net'
    ensures forall p {:trigger p in c.peers[h]} :: p in c.peers[h] ==> VoteRequest(p, Asks(servers[h], h)) in net'
    ensures VoteReply(v, h, servers'[h].currentTerm, true) in net'
  {
    var stood;
    stood, net' := Stands(c, servers, net, h);
    assert v in c.peers[h];
    servers', net' := Votes(c, stood, net', v, Asks(servers[h], h));
  }

  lemma TwoOfThree(c: Config, h: Host, v: Host)
    requires ValidConfig(c) && |c.members| == 3 && h in c.peers && v in c.peers[h] && v != h
    ensures Majority(c, {h, v})
  {
    assert |{h, v}| == 2;
  }

  lemma WithOneVote(servers: Servers, h: Host, v: Host, y: Server)
    requires Up(servers, h) && h != v
    ensures var voted := servers[h := Candidacy(servers[h], h)][v := y];
      && Up(voted, h) && voted[h].role == Candidate && voted[h].electionTerm == voted[h].currentTerm > 0
      && voted[h := SwitchToLeader(voted[h])] == servers[h := NewLeader(servers[h], h)][v := y]
  {
  }

  /** One vote elects a leader among three servers; everybody was asked. */
  lemma ElectsWithOne(c: Config, servers: Servers, net: set<Message>, h: Host, v: Host)
    returns (servers': Servers, net': set<Message>)
    requires Reached(c, servers, net) && CanElect(c, servers, h, v) && |c.members| == 3
    ensures servers' == servers[h := NewLeader(servers[h], h)][v := RequestVote(servers[v], Asks(servers[h], h)).0]
    ensures Reached(c, servers', net') && net <= net'
    ensures forall p {:trigger p in c.peers[h]} :: p in c.peers[h] ==> VoteRequest(p, Asks(servers[h], h)) in net'
  {
    var voted;
    voted, net' := StandsAndGets(c, servers, net, h, v);
    TwoOfThree(c, h, v);
    WithOneVote(servers, h, v, RequestVote(servers[v], Asks(servers[h], h)).0);
    servers' := Wins(c, voted, net', h, {h, v});
  }

  lemma StandsAndGetsTwo(c: Config, servers: Servers, net: set<Message>, h: Host, v: Host, w: Host)
    returns (servers': Servers, net': set<Message>)
    requires Reached(c, servers, net) && CanElect(c, servers, h, v) && CanElect(c, servers, h, w) && v != w
    ensures servers' == servers[h := Candidacy(servers[h], h)]
                               [v := RequestVote(servers[v], Asks(servers[h], h)).0]
                               [w := RequestVote(servers[w], Asks(servers[h], h)).0]
    ensures Reached(c, servers', net') && net <= net'
    ensures forall p {:trigger p in c.peers[h]} :: p in c.peers[h] ==> VoteRequest(p, Asks(servers[h], h)) in net'
    ensures VoteReply(v, h, servers'[h].currentTerm, true) in net'
    ensures VoteReply(w, h, servers'[h].currentTerm, true) in net'
  {
    var once;
    once, net' := StandsAndGets(c, servers, net, h, v);
    assert w in c.peers[h];
    servers', net' := Votes(c, once, net', w, Asks(servers[h], h));
  }

  lemma Overwrites(servers: Servers, h: Host, v: Host, w: Host, x: Server, y: Server, z: Server, x': Server)
    requires h != v && h != w
    ensures servers[h := x][v := y][w := z][h := x'] == servers[h := x'][v := y][w := z]
  {
  }

  lemma ThreeOfFive(c: Config, h: Host, v: Host, w: Host)
    requires ValidConfig(c) && |c.members| == 5 && h in c.members && v in c.peers[h] && w in c.peers[h] && v != w
    ensures Majority(c, {h, v, w})
  {
    assert |{h, v}| == 2 && {h, v, w} == {h, v} + {w};
  }

  /** Two votes do among five. */
  lemma ElectsWithTwo(c: Config, servers: Servers, net: set<Message>, h: Host, v: Host, w: Host)
    returns (servers': Servers, net': set<Message>)
    requires Reached(c, servers, net) && CanElect(c, servers, h, v) && CanElect(c, servers, h, w) && v != w
    requires |c.members| == 5
    ensures servers' == servers[h := NewLeader(servers[h], h)]
                               [v := RequestVote(servers[v], Asks(servers[h], h)).0]
                               [w := RequestVote(servers[w], Asks(servers[h], h)).0]
    ensures Reached(c, servers', net') && net <= net'
    ensures forall p {:trigger p in c.peers[h]} :: p in c.peers[h] ==> VoteRequest(p, Asks(servers[h], h)) in net'
  {
    var twice;
    twice, net' := StandsAndGetsTwo(c, servers, net, h, v, w);
    ThreeOfFive(c, h, v, w);
    servers' := Wins(c, twice, net', h, {h, v, w});
    Overwrites(servers, h, v, w, Candidacy(servers[h], h), twice[v], twice[w], servers'[h]);
  }

  /** A server that stood n times in a row wins with two votes of five. */
  lemma ElectsAfter(c: Config, servers: Servers, net: set<Message>, h: Host, n: nat, s: Server, v: Host, w: Host,
                    restarts: bool := false)
    returns (servers': Servers, net': set<Message>)
    requires Reached(c, servers, net, restarts) && |c.members| == 5
    requires Up(servers, h) && servers[h].role != Leader && n > 0
    requires s == Campaign(SwitchToCandidate(servers[h]), h, n)
    requires h in c.peers && v in c.peers[h] && w in c.peers[h] && v != w && v != h && w != h
    requires Up(servers, v) && RequestVote(servers[v], ElectionParams(s, h)).1.voteGranted
    requires Up(servers, w) && RequestVote(servers[w], ElectionParams(s, h)).1.voteGranted
    ensures servers' == servers[h := SwitchToLeader(s)]
                               [v := RequestVote(servers[v], ElectionParams(s, h)).0]
                               [w := RequestVote(servers[w], ElectionParams(s, h)).0]
    ensures Reached(c, servers', net', restarts) && net <= net'
  {
    var twice;
    twice, net' := TwoVotes(c, servers, net, h, n, s, v, w, restarts);
    CampaignIs(SwitchToCandidate(servers[h]), h, n);
    ThreeOfFive(c, h, v, w);
    servers' := Wins(c, twice, net', h, {h, v, w}, restarts);
    Overwrites(servers, h, v, w, s, twice[v], twice[w], servers'[h]);
  }

  lemma TwoVotes(c: Config, servers: Servers, net: set<Message>, h: Host, n: nat, s: Server, v: Host, w: Host,
                 restarts: bool := false)
    returns (servers': Servers, net': set<Message>)
    requires Reached(c, servers, net, restarts) && Up(servers, h) && servers[h].role != Leader && n > 0
    requires s == Campaign(SwitchToCandidate(servers[h]), h, n)
    requires h in c.peers && v in c.peers[h] && w in c.peers[h] && v != w && v != h && w != h
    requires Up(servers, v) && RequestVote(servers[v], ElectionParams(s, h)).1.voteGranted
    requires Up(servers, w) && RequestVote(servers[w], ElectionParams(s, h)).1.voteGranted
    ensures servers' == servers[h := s][v := RequestVote(servers[v], ElectionParams(s, h)).0]
                               [w := RequestVote(servers[w], ElectionParams(s, h)).0]
    ensures Reached(c, servers', net', restarts) && net <= net'
    ensures VoteReply(v, h, s.currentTerm, true) in net' && VoteReply(w, h, s.currentTerm, true) in net'
  {
    var stood, once;
    stood, net' := StandsAgain(c, servers, net, h, n, restarts);
    once, net' := Votes(c, stood, net', v, ElectionParams(s, h), restarts);
    servers', net' := Votes(c, once, net', w, ElectionParams(s, h), restarts);
  }

  // ----- elections in a cluster of any size -----

  ghost predicate AllGrant(servers: Servers, net: set<Message>, voters: set<Host>, p: VoteParams) {
    forall v {:trigger v in voters} :: v in voters ==>
      Up(servers, v) && VoteRequest(v, p) in net && RequestVote(servers[v], p).1.voteGranted
  }

  /** servers' is servers after these voters have voted. */
  ghost predicate Voted(servers: Servers, voters: set<Host>, p: VoteParams, servers': Servers) {
    && servers'.Keys == servers.Keys
    && forall h {:trigger servers'[h]} :: h in servers ==>
         servers'[h] == if h in voters then RequestVote(servers[h], p).0 else servers[h]
  }

  ghost predicate AllReplied(net: set<Message>, voters: set<Host>, p: VoteParams) {
    forall v {:trigger v in voters} :: v in voters ==> VoteReply(v, p.candidateId, p.term, true) in net
  }

  lemma {:induction false} AllVote(c: Config, servers: Servers, net: set<Message>, voters: set<Host>, p: VoteParams)
    returns (servers': Servers, net': set<Message>)
    requires Reached(c, servers, net) && AllGrant(servers, net, voters, p)
    ensures Reached(c, servers', net') && net <= net'
    ensures Voted(servers, voters, p, servers') && AllReplied(net', voters, p)
    decreases |voters|
  {
    if voters == {} {
      servers', net' := servers, net;
    } else {
      var v :| v in voters;
      var once;
      once, net' := AllVote(c, servers, net, voters - {v}, p);
      servers', net' := Votes(c, once, net', v, p);
      VotedOne(servers, voters, p, v, once, servers');
    }
  }

  lemma VotedOne(servers: Servers, voters: set<Host>, p: VoteParams, v: Host, once: Servers, servers': Servers)
    requires Voted(servers, voters - {v}, p, once) && v in voters && v in servers
    requires servers' == once[v := RequestVote(once[v], p).0]
    ensures Voted(servers, voters, p, servers')
  {
  }

  lemma VotedThenLeads(servers: Servers, h: Host, s: Server, voters: set<Host>, p: VoteParams, voted: Servers)
    requires h in servers && h !in voters && Voted(servers[h := s], voters, p, voted)
    ensures voted[h] == s && Voted(servers[h := SwitchToLeader(s)], voters, p, voted[h := SwitchToLeader(s)])
  {
  }

  lemma CampaignedCandidate(s: Server, me: Host, n: nat)
    requires n > 0
    ensures var c := Campaign(SwitchToCandidate(s), me, n);
      c.role == Candidate && c.electionTerm == c.currentTerm > 0 && c.fatal == s.fatal
      && ElectionParams(c, me).term == c.currentTerm && ElectionParams(c, me).candidateId == me
  {
    CampaignIs(SwitchToCandidate(s), me, n);
  }

  /** A server that stood n times in a row wins with these votes. */
  lemma ElectsWith(c: Config, servers: Servers, net: set<Message>, h: Host, n: nat, s: Server, voters: set<Host>)
    returns (servers': Servers, net': set<Message>)
    requires Reached(c, servers, net) && Up(servers, h) && servers[h].role != Leader && n > 0 && h in c.peers
    requires s == Campaign(SwitchToCandidate(servers[h]), h, n)
    requires h !in voters && Majority(c, voters + {h})
    requires forall v {:trigger v in voters} :: v in voters ==>
               v in c.peers[h] && Up(servers, v) && RequestVote(servers[v], ElectionParams(s, h)).1.voteGranted
    ensures Reached(c, servers', net') && net <= net'
    ensures Voted(servers[h := SwitchToLeader(s)], voters, ElectionParams(s, h), servers')
  {
    var voted;
    voted, net' := StandsAndGetsAll(c, servers, net, h, n, s, voters);
    CampaignedCandidate(servers[h], h, n);
    VotedThenLeads(servers, h, s, voters, ElectionParams(s, h), voted);
    servers' := Wins(c, voted, net', h, voters + {h});
  }

  lemma StandsAndGetsAll(c: Config, servers: Servers, net: set<Message>, h: Host, n: nat, s: Server,
                         voters: set<Host>)
    returns (servers': Servers, net': set<Message>)
    requires Reached(c, servers, net) && Up(servers, h) && servers[h].role != Leader && n > 0 && h in c.peers
    requires s == Campaign(SwitchToCandidate(servers[h]), h, n) && h !in voters
    requires forall v {:trigger v in voters} :: v in voters ==>
               v in c.peers[h] && Up(servers, v) && RequestVote(servers[v], ElectionParams(s, h)).1.voteGranted
    ensures Reached(c, servers', net') && net <= net'
    ensures Voted(servers[h := s], voters, ElectionParams(s, h), servers')
    ensures AllReplied(net', voters, ElectionParams(s, h))
  {
    var stood;
    stood, net' := StandsAgain(c, servers, net, h, n);
    servers', net' := AllVote(c, stood, net', voters, ElectionParams(s, h));
  }
}
