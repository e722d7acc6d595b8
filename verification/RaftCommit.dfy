/** Commit indices and the apply thread in runs whose restarts lose nothing, of a cluster with an odd number of servers:
    State Machine Safety, and exactly-once in-order application. */
module RaftCommit {
  import opened RaftTypes
  import opened RaftServer
  import opened RaftCluster
  import opened RaftElection
  import opened RaftLogs
  import opened RaftLogInv
  import opened RaftLogSteps
  import opened RaftKeeping
  import opened Median

  /** g is made of entries committed in terms up to bound. */
  ghost predicate Settled(c: Config, st: Cluster, g: Log, bound: nat) {
    g == [] || exists t: nat, k: nat :: SettledBy(c, st, g, bound, t, k)
  }

  predicate SettledBy(c: Config, st: Cluster, g: Log, bound: nat, t: nat, k: nat) {
    t <= bound && Committed(c, st, t, k) && g <= st.leaderLogs[t][..k]
  }

  /** The state machine has had the log's entries from the first on; the rest of the batch comes next. */
  predicate ApplyOk(s: Server) {
    var upto := s.lastApplied + s.batchSize;
    && s.lastApplied <= |s.applied| <= upto <= s.commitIndex <= |s.logs|
    && s.applied == s.logs[..|s.applied|]
    && s.batch == s.logs[|s.applied|..upto]
  }

  ghost predicate ServerCommitOk(c: Config, st: Cluster, s: Server) {
    s.commitIndex <= |s.logs| && Settled(c, st, s.logs[..s.commitIndex], s.currentTerm) && ApplyOk(s)
  }

  /** A leader's matchIndex entries are 0 or confirmed by the peer. */
  predicate MatchIndexOk(c: Config, matched: Matched, h: Host, s: Server)
    requires h in c.peers
  {
    && |s.matchIndex| == |c.peers[h]|
    && (s.role == Leader ==>
          forall i :: 0 <= i < |s.matchIndex| ==>
            s.matchIndex[i] == 0
            || ((c.peers[h][i], s.currentTerm) in matched
                && s.matchIndex[i] <= matched[(c.peers[h][i], s.currentTerm)]))
  }

  ghost predicate MessageCommitOk(c: Config, st: Cluster, m: Message) {
    m.AppendRequest? ==>
      var p := m.append;
      p.term in st.leaderLogs && p.leaderCommit <= |st.leaderLogs[p.term]|
      && Settled(c, st, st.leaderLogs[p.term][..p.leaderCommit], p.term)
  }

  ghost predicate CommitInv(c: Config, st: Cluster) {
    && st.servers.Keys == c.members == c.peers.Keys
    && (forall h {:trigger ServerCommitOk(c, st, st.servers[h])} ::
          h in c.members ==> ServerCommitOk(c, st, st.servers[h]))
    && (forall h {:trigger MatchIndexOk(c, st.matched, h, st.servers[h])} ::
          h in c.members ==> MatchIndexOk(c, st.matched, h, st.servers[h]))
    && (forall m {:trigger MessageCommitOk(c, st, m)} :: m in st.net ==> MessageCommitOk(c, st, m))
  }

  // ----- steps only add to what is committed -----

  lemma CommittedStays(c: Config, st: Cluster, h: Host, st': Cluster, t: nat, k: nat)
    requires Evolves(c, st, h, st') && Committed(c, st, t, k)
    ensures Committed(c, st', t, k) && st'.leaderLogs[t][..k] == st.leaderLogs[t][..k]
  {
    assert t in st'.leaderLogs;
    var a, b := Confirmers(c, st, t, k), Confirmers(c, st', t, k);
    assert MatchedGrows(h, st.matched, st'.matched);
    forall x | x in a ensures x in b {
      assert (x, t) in st'.matched;
    }
    Smaller(a, b);
    assert st'.leaderLogs[t][k - 1] == st.leaderLogs[t][k - 1];
  }

  lemma SettledStays(c: Config, st: Cluster, h: Host, st': Cluster, g: Log, g': Log, bound: nat, bound': nat)
    requires Evolves(c, st, h, st') && Settled(c, st, g, bound) && g' <= g && bound <= bound'
    ensures Settled(c, st', g', bound')
  {
    if g' != [] {
      var t: nat, k: nat :| SettledBy(c, st, g, bound, t, k);
      CommittedStays(c, st, h, st', t, k);
      assert SettledBy(c, st', g', bound', t, k);
    }
  }

  /** The leader of a term no older than bound has everything settled by bound. */
  lemma LeaderHasSettled(c: Config, st: Cluster, g: Log, bound: nat, leader: nat)
    requires FullInv(c, st) && Settled(c, st, g, bound) && bound <= leader && leader in st.leaderLogs
    ensures g <= st.leaderLogs[leader]
  {
    if g != [] {
      var t: nat, k: nat :| SettledBy(c, st, g, bound, t, k);
      if t < leader {
        LeaderCompleteness(c, st, t, k, leader);
      }
      assert g <= st.leaderLogs[leader][..k];
    }
  }

  /** Whatever is settled, by whichever leaders, is one history. */
  lemma SettledAgree(c: Config, st: Cluster, a: Log, b: Log, x: nat, y: nat)
    requires FullInv(c, st) && Settled(c, st, a, x) && Settled(c, st, b, y)
    ensures a <= b || b <= a
  {
    if a != [] && b != [] {
      var t: nat, k: nat :| SettledBy(c, st, a, x, t, k);
      var u: nat, n: nat :| SettledBy(c, st, b, y, u, n);
      var last := Max(t, u);
      assert SettledBy(c, st, a, t, t, k) && SettledBy(c, st, b, u, u, n);
      LeaderHasSettled(c, st, a, t, last);
      LeaderHasSettled(c, st, b, u, last);
    }
  }

  /** A follower never loses a settled entry to the leader whose log it takes over. */
  lemma SettledSurvives(g: Log, logs: Log, merged: Log, leader: Log)
    requires Replaced(logs, merged, leader) && g <= logs && g <= leader
    ensures g <= merged
  {
    if !(logs <= merged) {
      var j: nat :| DisagreeAt(logs, leader, j) && j <= |merged| && merged[..j] == logs[..j];
      PrefixOfBoth(g, logs, merged, j);
      SharedPrefixIsShort(g, logs, leader, j);
    }
  }

  lemma SharedPrefixIsShort(g: Log, a: Log, b: Log, j: nat)
    requires g <= a && g <= b && DisagreeAt(a, b, j)
    ensures |g| <= j
  {
  }

  /** The effect of a step on server h, beyond what Moves says. */
  ghost predicate CommitsOk(c: Config, st: Cluster, h: Host, st': Cluster) {
    && h in st'.servers && h in c.peers
    && ServerCommitOk(c, st', st'.servers[h])
    && MatchIndexOk(c, st'.matched, h, st'.servers[h])
    && (forall m {:trigger m in st'.net} :: m in st'.net && m !in st.net ==> MessageCommitOk(c, st', m))
  }

  lemma OldMessageCommit(c: Config, st: Cluster, h: Host, st': Cluster, m: Message)
    requires CommitInv(c, st) && Evolves(c, st, h, st') && m in st.net
    ensures MessageCommitOk(c, st', m)
  {
    assert MessageCommitOk(c, st, m);
    if m.AppendRequest? {
      var p := m.append;
      assert p.term in st'.leaderLogs;
      assert st'.leaderLogs[p.term][..p.leaderCommit] == st.leaderLogs[p.term][..p.leaderCommit];
      SettledStays(c, st, h, st', st.leaderLogs[p.term][..p.leaderCommit],
                   st'.leaderLogs[p.term][..p.leaderCommit], p.term, p.term);
    }
  }

  lemma OtherServerCommit(c: Config, st: Cluster, h: Host, st': Cluster, k: Host)
    requires CommitInv(c, st) && Evolves(c, st, h, st') && k in c.members && k != h
    ensures ServerCommitOk(c, st', st'.servers[k]) && MatchIndexOk(c, st'.matched, k, st'.servers[k])
  {
    var s := st.servers[k];
    assert ServerCommitOk(c, st, s) && MatchIndexOk(c, st.matched, k, s);
    var done := s.logs[..s.commitIndex];
    SettledStays(c, st, h, st', done, done, s.currentTerm, s.currentTerm);
    forall i | 0 <= i < |s.matchIndex| && (c.peers[k][i], s.currentTerm) in st.matched
      ensures (c.peers[k][i], s.currentTerm) in st'.matched
      ensures st.matched[(c.peers[k][i], s.currentTerm)] <= st'.matched[(c.peers[k][i], s.currentTerm)]
    {
    }
  }

  lemma EvolutionKeepsCommits(c: Config, st: Cluster, h: Host, st': Cluster)
    requires CommitInv(c, st) && Evolves(c, st, h, st') && CommitsOk(c, st, h, st')
    ensures CommitInv(c, st')
  {
    forall k | k in c.members
      ensures ServerCommitOk(c, st', st'.servers[k]) && MatchIndexOk(c, st'.matched, k, st'.servers[k])
    {
      if k != h {
        OtherServerCommit(c, st, h, st', k);
      }
    }
    forall m | m in st'.net ensures MessageCommitOk(c, st', m) {
      if m in st.net {
        OldMessageCommit(c, st, h, st', m);
      }
    }
  }

  /** A step that keeps the committed prefix, the commit index and the apply thread of h. */
  predicate KeepsCommits(s: Server, s': Server) {
    && s.logs <= s'.logs && s'.commitIndex == s.commitIndex
    && s'.applied == s.applied && s'.batch == s.batch
    && s'.batchSize == s.batchSize && s'.lastApplied == s.lastApplied
    && |s'.matchIndex| == |s.matchIndex|
    && (s'.role == Leader ==>
          (s.role == Leader && s'.matchIndex == s.matchIndex && s'.currentTerm == s.currentTerm)
          || forall i :: 0 <= i < |s'.matchIndex| ==> s'.matchIndex[i] == 0)
  }

  lemma QuietCommits(c: Config, st: Cluster, h: Host, st': Cluster)
    requires CommitInv(c, st) && Evolves(c, st, h, st') && KeepsCommits(st.servers[h], st'.servers[h])
    ensures ServerCommitOk(c, st', st'.servers[h]) && MatchIndexOk(c, st'.matched, h, st'.servers[h])
  {
    var s, s' := st.servers[h], st'.servers[h];
    assert ServerCommitOk(c, st, s) && MatchIndexOk(c, st.matched, h, s);
    assert s'.logs[..s.commitIndex] == s.logs[..s.commitIndex];
    SettledStays(c, st, h, st', s.logs[..s.commitIndex], s'.logs[..s.commitIndex], s.currentTerm, s'.currentTerm);
    if s'.role == Leader && s'.currentTerm == s.currentTerm && s'.matchIndex == s.matchIndex && s.role == Leader {
      forall i | 0 <= i < |s.matchIndex| && (c.peers[h][i], s.currentTerm) in st.matched
        ensures (c.peers[h][i], s.currentTerm) in st'.matched
        ensures st.matched[(c.peers[h][i], s.currentTerm)] <= st'.matched[(c.peers[h][i], s.currentTerm)]
      {
      }
    }
  }

  // ----- the follower's commit index (guard G3) -----

  lemma FollowerCommits(c: Config, st: Cluster, h: Host, p: AppendParams, st': Cluster, success: bool)
    requires FullInv(c, st) && CommitInv(c, st) && Evolves(c, st, h, st') && AppendRequest(h, p) in st.net
    requires var s, s' := st.servers[h], st'.servers[h];
      p.term in st.leaderLogs && AcceptEffect(s, p, s', success, st.leaderLogs[p.term])
      && s'.currentTerm == p.term >= s.currentTerm
    ensures ServerCommitOk(c, st', st'.servers[h])
  {
    var s, s', leader := st.servers[h], st'.servers[h], st.leaderLogs[p.term];
    assert ServerCommitOk(c, st, s);
    assert MessageCommitOk(c, st, AppendRequest(h, p));
    var done := s.logs[..s.commitIndex];
    LeaderHasSettled(c, st, done, s.currentTerm, p.term);
    SettledSurvives(done, s.logs, s'.logs, leader);
    assert s'.logs[..s.commitIndex] == done;
    if s'.commitIndex == s.commitIndex {
      SettledStays(c, st, h, st', done, done, s.currentTerm, p.term);
    } else {
      var known := leader[..p.leaderCommit];
      assert s'.logs[..s'.commitIndex] == leader[..s'.commitIndex] == known[..s'.commitIndex];
      SettledStays(c, st, h, st', known, s'.logs[..s'.commitIndex], p.term, p.term);
    }
    ApplyKept(s, s');
  }

  lemma ApplyKept(s: Server, s': Server)
    requires ApplyOk(s) && s.commitIndex <= s'.commitIndex <= |s'.logs|
    requires s'.logs[..s.commitIndex] == s.logs[..s.commitIndex]
    requires s'.applied == s.applied && s'.batch == s.batch
    requires s'.batchSize == s.batchSize && s'.lastApplied == s.lastApplied
    ensures ApplyOk(s')
  {
    var upto := s.lastApplied + s.batchSize;
    assert s'.logs[..upto] == s'.logs[..s.commitIndex][..upto] == s.logs[..upto];
    assert s.logs[..upto][..|s.applied|] == s.logs[..|s.applied|];
    assert s'.logs[..upto][..|s.applied|] == s'.logs[..|s.applied|];
    assert s.logs[..upto][|s.applied|..] == s.logs[|s.applied|..upto];
    assert s'.logs[..upto][|s.applied|..] == s'.logs[|s.applied|..upto];
  }

  // ----- the leader's commit index (guard G5) -----

  /** The hosts whose value is at least v. */
  ghost function Reaching(hosts: seq<Host>, vals: seq<nat>, v: nat): set<Host>
    requires |hosts| == |vals|
  {
    if vals == [] then {}
    else
      var n := |vals| - 1;
      Reaching(hosts[..n], vals[..n], v) + (if vals[n] >= v then {hosts[n]} else {})
  }

  lemma {:induction false} ReachingCount(hosts: seq<Host>, vals: seq<nat>, v: nat)
    requires |hosts| == |vals| && Distinct(hosts)
    ensures |Reaching(hosts, vals, v)| == CountAtLeast(vals, v)
    ensures forall h :: h in Reaching(hosts, vals, v) ==>
              exists i :: 0 <= i < |hosts| && hosts[i] == h && vals[i] >= v
  {
    if vals != [] {
      var n := |vals| - 1;
      ReachingCount(hosts[..n], vals[..n], v);
      assert hosts[n] !in Reaching(hosts[..n], vals[..n], v);
      forall h | h in Reaching(hosts, vals, v) ensures exists i :: 0 <= i < |hosts| && hosts[i] == h && vals[i] >= v {
        if h in Reaching(hosts[..n], vals[..n], v) {
          var i :| 0 <= i < n && hosts[..n][i] == h && vals[..n][i] >= v;
          assert hosts[i] == h && vals[i] >= v;
        }
      }
    }
  }

  lemma {:induction false} DistinctCount(hosts: seq<Host>)
    requires Distinct(hosts)
    ensures |set h | h in hosts| == |hosts|
  {
    if hosts == [] {
      assert (set h | h in hosts) == {};
    } else {
      var n := |hosts| - 1;
      DistinctCount(hosts[..n]);
      assert (set h | h in hosts) == (set h | h in hosts[..n]) + {hosts[n]};
    }
  }

  lemma ClusterSize(c: Config, h: Host)
    requires ValidConfig(c) && h in c.members
    ensures Distinct(c.peers[h] + [h]) && |c.members| == |c.peers[h]| + 1
  {
    var nodes := c.peers[h] + [h];
    DistinctCount(nodes);
    assert (set x | x in nodes) == c.members;
  }

  lemma ReacherConfirms(c: Config, st: Cluster, h: Host, s: Server, v: nat, i: nat)
    requires ValidConfig(c) && h in c.members && MatchIndexOk(c, st.matched, h, s) && s.role == Leader && v > 0
    requires (h, s.currentTerm) in st.matched && st.matched[(h, s.currentTerm)] == |s.logs|
    requires i <= |c.peers[h]| && (s.matchIndex + [|s.logs|])[i] >= v
    ensures (c.peers[h] + [h])[i] in Confirmers(c, st, s.currentTerm, v)
  {
    if i < |c.peers[h]| {
      assert c.peers[h][i] in c.peers[h];
    }
  }

  /** A value that a strict majority of the match indices and the leader's own last index reach is confirmed by a
      majority of the cluster. */
  lemma MajorityConfirms(c: Config, st: Cluster, h: Host, s: Server, v: nat)
    requires ValidConfig(c) && h in c.members && MatchIndexOk(c, st.matched, h, s) && s.role == Leader && v > 0
    requires (h, s.currentTerm) in st.matched && st.matched[(h, s.currentTerm)] == |s.logs|
    requires 2 * CountAtLeast(s.matchIndex + [|s.logs|], v) > |s.matchIndex| + 1
    ensures Majority(c, Confirmers(c, st, s.currentTerm, v))
  {
    ClusterSize(c, h);
    var nodes, vals := c.peers[h] + [h], s.matchIndex + [|s.logs|];
    ReachingCount(nodes, vals, v);
    var few, all := Reaching(nodes, vals, v), Confirmers(c, st, s.currentTerm, v);
    forall x | x in few ensures x in all {
      var i :| 0 <= i < |nodes| && nodes[i] == x && vals[i] >= v;
      ReacherConfirms(c, st, h, s, v, i);
    }
    Smaller(few, all);
  }

  /** What a replication reply does to the leader: only the peer's indices and the commit index move, and the
      commit index only forward, to a middle index whose entry is of the current term. */
  predicate ReplicateEffect(s: Server, peer: nat, matched: nat, success: bool, s': Server)
    requires peer < |s.matchIndex|
  {
    && s'.logs == s.logs && s'.currentTerm == s.currentTerm && s'.role == s.role
    && s'.applied == s.applied && s'.batch == s.batch
    && s'.batchSize == s.batchSize && s'.lastApplied == s.lastApplied
    && s'.matchIndex == (if success then s.matchIndex[peer := matched] else s.matchIndex)
    && s.commitIndex <= s'.commitIndex
    && (s.commitIndex < s'.commitIndex ==>
          && s'.commitIndex == MiddleOf(s'.matchIndex + [|s.logs|])
          && s'.commitIndex <= |s.logs|
          && s.logs[s'.commitIndex - 1].term == s.currentTerm)
  }

  lemma ReplicateFacts(s: Server, peer: nat, prev: nat, matched: nat, success: bool)
    requires Consecutive(s.logs) && peer < |s.nextIndex| == |s.matchIndex|
    ensures ReplicateEffect(s, peer, matched, success, HandleReplicateResult(s, peer, prev, matched, success))
  {
    var agree := MiddleOf(s.matchIndex[peer := matched] + [LastIndex(s.logs)]);
    GetLogConsecutive(s.logs, agree);
  }

  lemma MatchIndexStays(c: Config, st: Cluster, h: Host, peer: nat, s: Server, prev: nat, count: nat, success: bool)
    requires LogInv(c, st) && CommitInv(c, st) && h in c.members && st.servers[h].role == Leader
    requires peer < |c.peers[h]|
    requires AppendReply(c.peers[h][peer], h, st.servers[h].currentTerm, prev, count, success) in st.net
    requires |st.servers[h].matchIndex| == |c.peers[h]|
    requires ReplicateEffect(st.servers[h], peer, prev + count, success, s)
    ensures MatchIndexOk(c, st.matched, h, s)
  {
    assert MatchIndexOk(c, st.matched, h, st.servers[h]);
    assert MessageLogOk(st.leaderLogs, st.candidateLogs, st.matched,
                        AppendReply(c.peers[h][peer], h, st.servers[h].currentTerm, prev, count, success));
  }

  lemma MiddleCommits(c: Config, st: Cluster, h: Host, peer: nat, matched: nat, success: bool, s: Server)
    requires ValidConfig(c) && |c.members| % 2 == 1
    requires FullInv(c, st) && h in c.members && st.servers[h].role == Leader && peer < |st.servers[h].matchIndex|
    requires ReplicateEffect(st.servers[h], peer, matched, success, s) && s.commitIndex != st.servers[h].commitIndex
    requires MatchIndexOk(c, st.matched, h, s) && Evolves(c, st, h, SetServer(st, h, s))
    ensures s.commitIndex <= |s.logs| && Settled(c, SetServer(st, h, s), s.logs[..s.commitIndex], s.currentTerm)
  {
    var st' := SetServer(st, h, s);
    assert ServerLogOk(st.leaderLogs, st.candidateLogs, st.matched, h, st.servers[h]);
    ClusterSize(c, h);
    MiddleIsMajority(s.matchIndex + [|s.logs|]);
    MajorityConfirms(c, st', h, s, s.commitIndex);
    assert SettledBy(c, st', s.logs[..s.commitIndex], s.currentTerm, s.currentTerm, s.commitIndex);
  }

  /** handleReplicateResultFor commits only what a majority has confirmed, in the current term. */
  lemma LeaderCommits(c: Config, st: Cluster, h: Host, peer: nat, matched: nat, success: bool, s: Server)
    requires ValidConfig(c) && |c.members| % 2 == 1
    requires FullInv(c, st) && CommitInv(c, st) && h in c.members && st.servers[h].role == Leader
    requires peer < |st.servers[h].matchIndex|
    requires ReplicateEffect(st.servers[h], peer, matched, success, s)
    requires MatchIndexOk(c, st.matched, h, s) && Evolves(c, st, h, SetServer(st, h, s))
    ensures ServerCommitOk(c, SetServer(st, h, s), s)
  {
    var o, st' := st.servers[h], SetServer(st, h, s);
    assert ServerCommitOk(c, st, o);
    if s.commitIndex == o.commitIndex {
      var done := s.logs[..s.commitIndex];
      SettledStays(c, st, h, st', done, done, s.currentTerm, s.currentTerm);
    } else {
      MiddleCommits(c, st, h, peer, matched, success, s);
    }
    ApplyKept(o, s);
  }
}
