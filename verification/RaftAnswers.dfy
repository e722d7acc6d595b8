/** What a server has to do, not only what it may do: votes it must give, messages it must accept, entries it must
    commit and send. src/raft/raft.cpp:96-226, 377-432. */
module RaftAnswers {
  import opened RaftTypes
  import opened RaftServer
  import opened RaftCluster
  import opened RaftElection
  import opened RaftLogs
  import opened RaftLogInv
  import opened RaftLogSteps
  import opened RaftKeeping
  import opened RaftCommit
  import opened RaftSafety
  import opened RaftStops
  import opened RaftDepartures
  import opened Median

  // ----- votes -----

  /** The rule of lines 128-131: the log with the later last term wins, and of equal last terms the longer one. */
  predicate Beats(a: Log, b: Log) {
    LastTerm(a) > LastTerm(b) || (LastTerm(a) == LastTerm(b) && LastIndex(a) > LastIndex(b))
  }

  /** The request is of the present term or a later one, and the vote of that term is not somebody else's. */
  predicate Free(s: Server, p: VoteParams) {
    p.term > s.currentTerm
    || (p.term == s.currentTerm && (s.votedFor == NULL_HOST || s.votedFor == p.candidateId))
  }

  predicate Asks(p: VoteParams, candidate: Log) {
    p.lastLogIndex == LastIndex(candidate) && p.lastLogTerm == LastTerm(candidate)
  }

  /** A free vote is given exactly to the candidates whose log the voter's own does not beat. */
  lemma VoteExactly(s: Server, p: VoteParams, candidate: Log)
    requires Asks(p, candidate)
    ensures RequestVote(s, p).1.voteGranted <==> Free(s, p) && !Beats(s.logs, candidate)
    ensures RequestVote(s, p).1.term == Max(s.currentTerm, p.term)
  {
  }

  ghost predicate Ordered(logs: Log) {
    Consecutive(logs) && forall i, j :: 0 <= i <= j < |logs| ==> logs[i].term <= logs[j].term
  }

  /** A log that has all of the voter's entries gets the vote. */
  lemma ExtensionGetsVote(s: Server, p: VoteParams, candidate: Log)
    requires Asks(p, candidate) && Free(s, p) && Ordered(candidate) && s.logs <= candidate
    ensures RequestVote(s, p).1.voteGranted
  {
    if s.logs != [] {
      assert s.logs[|s.logs| - 1] == candidate[|s.logs| - 1];
    }
  }

  /** Of two logs at least one is up-to-date for the other, and both are exactly if they end in the same place. */
  lemma OneOfTwo(a: Log, b: Log)
    ensures UpToDate(LastIndex(a), LastTerm(a), b) || UpToDate(LastIndex(b), LastTerm(b), a)
    ensures UpToDate(LastIndex(a), LastTerm(a), b) && UpToDate(LastIndex(b), LastTerm(b), a) <==>
              LastIndex(a) == LastIndex(b) && LastTerm(a) == LastTerm(b)
  {
  }

  lemma {:induction false} BestLog(servers: map<Host, Server>, voters: set<Host>) returns (h: Host)
    requires voters != {} && voters <= servers.Keys
    ensures h in voters && forall v :: v in voters ==> !Beats(servers[v].logs, servers[h].logs)
  {
    var x :| x in voters;
    h := x;
    if voters != {x} {
      var best := BestLog(servers, voters - {x});
      h := if Beats(servers[x].logs, servers[best].logs) then x else best;
    }
  }

  /** Among any servers there is one that all of them vote for in every new term. */
  lemma SomeoneWins(servers: map<Host, Server>, voters: set<Host>) returns (h: Host)
    requires voters != {} && voters <= servers.Keys
    ensures h in voters
    ensures forall v, term: nat :: v in voters && term > servers[v].currentTerm ==>
              RequestVote(servers[v], ElectionParams(servers[h].(currentTerm := term), h)).1.voteGranted
  {
    h := BestLog(servers, voters);
    forall v, term: nat | v in voters && term > servers[v].currentTerm
      ensures RequestVote(servers[v], ElectionParams(servers[h].(currentTerm := term), h)).1.voteGranted
    {
      VoteExactly(servers[v], ElectionParams(servers[h].(currentTerm := term), h), servers[h].logs);
    }
  }

  // ----- appends -----

  /** When a message that is not outdated has to be accepted: the test at prevLogIndex passes exactly if the follower
      has the leader's entries up to there, the test of the source exactly if its last entry is of prevLogTerm. */
  predicate MustAccept(check: PrevCheck, logs: Log, leader: Log, p: AppendParams)
    requires p.prevLogIndex <= |leader|
  {
    && p.prevLogIndex <= |logs|
    && match check
       case PrevEntry => logs[..p.prevLogIndex] == leader[..p.prevLogIndex]
       case LastEntry => LastTerm(logs) == p.prevLogTerm
  }

  lemma PrevMatchesExactly(check: PrevCheck, ll: LeaderLogs, logs: Log, leader: Log, prev: nat)
    requires Rooted(ll, logs) && Rooted(ll, leader) && prev <= |logs| && prev <= |leader|
    ensures PrevMatches(check, logs, prev, TermAt(leader, prev)) <==>
              match check
              case PrevEntry => logs[..prev] == leader[..prev]
              case LastEntry => LastTerm(logs) == TermAt(leader, prev)
  {
    PrevCheckSound(check, ll, logs, leader, prev);
    if prev > 0 && logs[..prev] == leader[..prev] {
      assert logs[prev - 1] == logs[..prev][prev - 1] == leader[..prev][prev - 1] == leader[prev - 1];
    }
  }

  /** A follower answers with success exactly when it must. Then it has everything the message covers and commits as
      much of it as the leader has; otherwise its commit index stays. */
  lemma AcceptsExactly(check: PrevCheck, ll: LeaderLogs, s: Server, p: AppendParams)
    requires LeaderLogsOk(ll) && Rooted(ll, s.logs) && SliceOf(ll, p)
    requires p.term >= s.currentTerm && !(p.term == s.currentTerm && s.role == Leader)
    ensures var (s', r) := AppendEntries(check, s, p);
      && r == AppendResult(s.currentTerm, MustAccept(check, s.logs, ll[p.term], p))
      && s'.role == Follower && s'.currentTerm == p.term && s'.fatal == s.fatal
      && (r.success ==> ll[p.term][..p.prevLogIndex + |p.entries|] <= s'.logs)
      && s'.commitIndex == if r.success then Max(s.commitIndex, Min(p.leaderCommit, p.prevLogIndex + |p.entries|))
                           else s.commitIndex
  {
    var (s', r) := AppendEntries(check, s, p);
    AcceptFacts(check, ll, s, p, s', r);
    AppendFacts(check, s, p);
    assert LeaderLogOk(ll, p.term);
    RootedConsecutive(ll, s.logs);
    if p.prevLogIndex <= |s.logs| {
      PrevMatchesExactly(check, ll, s.logs, ll[p.term], p.prevLogIndex);
    }
    var followed, ok := FollowFacts(check, ll, s.logs, p);
  }

  /** A message of an old term changes nothing and is refused with the present term. */
  lemma OldTermRefused(check: PrevCheck, s: Server, p: AppendParams)
    requires p.term < s.currentTerm
    ensures AppendEntries(check, s, p) == (s, AppendResult(s.currentTerm, false))
  {
  }

  // ----- commits -----

  lemma {:induction false} CountFalls(s: seq<nat>, low: nat, high: nat)
    requires low <= high
    ensures CountAtLeast(s, high) <= CountAtLeast(s, low)
  {
    if s != [] {
      CountFalls(s[..|s| - 1], low, high);
    }
  }

  /** With an odd number of servers the middle is the last index that most of them reach. */
  lemma MiddleDecides(vals: seq<nat>, k: nat)
    requires |vals| % 2 == 1
    ensures k <= MiddleOf(vals) <==> 2 * CountAtLeast(vals, k) > |vals|
  {
    if k > MiddleOf(vals) {
      NothingAboveMiddle(vals, k);
    } else {
      MiddleIsMajority(vals);
      CountFalls(vals, k, MiddleOf(vals));
    }
  }

  predicate MostReach(s: Server, k: nat) {
    2 * CountAtLeast(s.matchIndex + [|s.logs|], k) > |s.matchIndex| + 1
  }

  lemma CommitsMiddle(s: Server, peer: nat, prev: nat, matched: nat, s': Server)
    requires peer < |s.nextIndex| == |s.matchIndex| && s.fatal == s'.fatal == Running && Consecutive(s.logs)
    requires s' == HandleReplicateResult(s, peer, prev, matched, true)
    ensures s'.logs == s.logs && |s'.matchIndex| == |s.matchIndex|
    ensures var middle := MiddleOf(s'.matchIndex + [|s.logs|]);
      && (middle == s.commitIndex || 1 <= middle <= |s.logs|)
      && s'.commitIndex == if middle > s.commitIndex && s.logs[middle - 1].term == s.currentTerm then middle
                           else s.commitIndex
  {
    GetLogConsecutive(s.logs, MiddleOf(s.matchIndex[peer := matched] + [|s.logs|]));
  }

  /** After a success that does not stop the leader an entry of its term is committed exactly when it was before or a
      majority has reached it. */
  lemma CommitsExactly(s: Server, peer: nat, prev: nat, matched: nat, k: nat, s': Server)
    requires peer < |s.nextIndex| == |s.matchIndex| && |s.matchIndex| % 2 == 0 && s.fatal == s'.fatal == Running
    requires Ordered(s.logs) && TermsUpTo(s.logs, s.currentTerm)
    requires 1 <= k <= |s.logs| && s.logs[k - 1].term == s.currentTerm
    requires s' == HandleReplicateResult(s, peer, prev, matched, true)
    ensures k <= s'.commitIndex <==> k <= s.commitIndex || MostReach(s', k)
  {
    CommitsMiddle(s, peer, prev, matched, s');
    MiddleDecides(s'.matchIndex + [|s.logs|], k);
    var middle := MiddleOf(s'.matchIndex + [|s.logs|]);
    assert k <= middle <= |s.logs| ==> s.logs[k - 1].term <= s.logs[middle - 1].term;
  }

  lemma RootedOrdered(ll: LeaderLogs, g: Log)
    requires LeaderLogsOk(ll) && Rooted(ll, g)
    ensures Ordered(g)
  {
    RootedConsecutive(ll, g);
    forall i, j | 0 <= i <= j < |g| ensures g[i].term <= g[j].term {
      TermsAscend(ll, g, i, j);
    }
  }

  lemma OrderedAlways(c: Config, st: Cluster, h: Host)
    requires ValidConfig(c) && |c.members| % 2 == 1 && SafeInv(c, st) && h in c.members
    ensures Ordered(st.servers[h].logs) && TermsUpTo(st.servers[h].logs, st.servers[h].currentTerm)
    ensures |st.servers[h].matchIndex| % 2 == 0
  {
    assert ServerLogOk(st.leaderLogs, st.candidateLogs, st.matched, h, st.servers[h]);
    assert MatchIndexOk(c, st.matched, h, st.servers[h]);
    RootedOrdered(st.leaderLogs, st.servers[h].logs);
    ClusterSize(c, h);
  }

  /** In every run whose restarts lose nothing: once a leader has handled a success, an entry of its term is committed
      exactly when it was before or a majority has reached it. */
  lemma ReplyCommits(c: Config, steps: seq<Step>, st: Cluster, h: Host, peer: nat, prev: nat, matched: nat, k: nat,
                     s': Server)
    requires ValidConfig(c) && |c.members| % 2 == 1 && IsRun(c, steps, false, st)
    requires h in c.members && h in st.servers
    requires var s := st.servers[h];
      && peer < |s.nextIndex| == |s.matchIndex| && s.fatal == s'.fatal == Running
      && 1 <= k <= |s.logs| && s.logs[k - 1].term == s.currentTerm
      && s' == HandleReplicateResult(s, peer, prev, matched, true)
    ensures k <= s'.commitIndex <==> k <= st.servers[h].commitIndex || MostReach(s', k)
  {
    RunKeepsSafe(c, steps, st);
    OrderedAlways(c, st, h);
    CommitsExactly(st.servers[h], peer, prev, matched, k, s');
  }

  // ----- messages -----

  lemma HeartbeatExactly(s: Server, me: Host, i: nat)
    requires Consecutive(s.logs) && i < |s.nextIndex| && 1 <= s.nextIndex[i] <= |s.logs| + 1
    ensures var prev := s.nextIndex[i] - 1;
      BuildParams(s, me, i) == Some(AppendParams(s.currentTerm, me, prev, TermAt(s.logs, prev), [], s.commitIndex))
  {
    GetLogConsecutive(s.logs, s.nextIndex[i] - 1);
  }

  lemma EntriesExactly(s: Server, i: nat)
    requires Consecutive(s.logs) && i < |s.nextIndex| && 1 <= s.nextIndex[i] <= |s.logs| + 1
    ensures var prev := s.nextIndex[i] - 1;
      GatherLogs(s, i) == Some(s.logs[prev..Min(|s.logs|, prev + MAX_LOGS_PER_REQUEST)])
  {
    var next := s.nextIndex[i];
    GetLogConsecutive(s.logs, 1);
    if next <= |s.logs| {
      SliceOfLog(s.logs, next, Min(|s.logs| - next + 1, MAX_LOGS_PER_REQUEST));
    } else {
      assert s.logs[next - 1..|s.logs|] == [];
    }
  }

  /** A leader's message for a peer names the entry before nextIndex and carries all entries from nextIndex on, up to
      twenty; a heartbeat names the same entry. */
  lemma SendsExactly(s: Server, me: Host, i: nat)
    requires Consecutive(s.logs) && i < |s.nextIndex| && 1 <= s.nextIndex[i] <= |s.logs| + 1
    ensures var prev := s.nextIndex[i] - 1;
      var p := AppendParams(s.currentTerm, me, prev, TermAt(s.logs, prev), [], s.commitIndex);
      && BuildParams(s, me, i) == Some(p)
      && BuildWithLogs(s, me, i) ==
         Some(p.(entries := s.logs[prev..Min(|s.logs|, prev + MAX_LOGS_PER_REQUEST)]))
  {
    HeartbeatExactly(s, me, i);
    EntriesExactly(s, i);
  }

  /** A new leader starts with every peer right after its own last entry and with nothing confirmed. */
  lemma NewLeaderSends(s: Server, me: Host, i: nat)
    requires Consecutive(s.logs) && i < |s.nextIndex| == |s.matchIndex|
    ensures var s' := SwitchToLeader(s);
      && s'.matchIndex[i] == 0
      && BuildWithLogs(s', me, i) ==
         Some(AppendParams(s.currentTerm, me, |s.logs|, LastTerm(s.logs), [], s.commitIndex))
  {
    GetLogConsecutive(s.logs, 1);
    SendsExactly(SwitchToLeader(s), me, i);
    assert s.logs[|s.logs|..] == [];
  }
}
