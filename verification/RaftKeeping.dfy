/** What servers confirmed stays, and Leader Completeness: an entry committed in a term is in the log of the leader
    of every later term. Runs whose restarts lose nothing. */
module RaftKeeping {
  import opened RaftTypes
  import opened RaftServer
  import opened RaftCluster
  import opened RaftElection
  import opened RaftLogs
  import opened RaftLogInv
  import opened RaftLogSteps

  /** The two logs differ somewhere among their first m entries. */
  ghost predicate PartWays(a: Log, b: Log, m: nat) {
    exists j: nat :: j < m && DisagreeAt(a, b, j)
  }

  /** A leader of a later term before bound has other entries among the first m. */
  ghost predicate Overruled(ll: LeaderLogs, term: nat, m: nat, bound: nat)
    requires term in ll
  {
    exists t :: t in ll && term < t < bound && PartWays(ll[t], ll[term], m)
  }

  /** g still has the first m entries of the leader of term, unless a later leader before bound overruled them. */
  ghost predicate Kept(ll: LeaderLogs, term: nat, m: nat, g: Log, bound: nat) {
    term in ll && m <= |ll[term]| && (ll[term][..m] <= g || Overruled(ll, term, m, bound))
  }

  ghost predicate AllKept(ll: LeaderLogs, term: nat, n: nat, g: Log, bound: nat) {
    forall m: nat {:trigger Kept(ll, term, m, g, bound)} :: m <= n ==> Kept(ll, term, m, g, bound)
  }

  ghost predicate ConfirmedKept(ll: LeaderLogs, servers: Servers, k: (Host, nat), n: nat) {
    k.0 in servers && AllKept(ll, k.1, n, servers[k.0].logs, servers[k.0].currentTerm + 1)
  }

  /** A vote granted when the term already had a leader elected without it. */
  ghost predicate LateVote(reigns: Reigns, voter: Host, term: nat) {
    exists r :: r in reigns && r.term == term && voter !in reigns[r]
  }

  ghost predicate VoteKept(ll: LeaderLogs, reigns: Reigns, k: (Host, nat), n: nat, v: (Host, nat), g: Log) {
    k.0 == v.0 && k.1 < v.1 ==> AllKept(ll, k.1, n, g, v.1) || LateVote(reigns, v.0, v.1)
  }

  ghost predicate KeepInv(st: Cluster) {
    && (forall k {:trigger ConfirmedKept(st.leaderLogs, st.servers, k, st.matched[k])} ::
          k in st.matched ==> ConfirmedKept(st.leaderLogs, st.servers, k, st.matched[k]))
    && (forall k, v {:trigger VoteKept(st.leaderLogs, st.reigns, k, st.matched[k], v, st.voteLogs[v])} ::
          k in st.matched && v in st.voteLogs ==>
            VoteKept(st.leaderLogs, st.reigns, k, st.matched[k], v, st.voteLogs[v]))
  }

  // ----- steps keep it -----

  lemma OverruledGrows(ll: LeaderLogs, ll': LeaderLogs, term: nat, m: nat, bound: nat, bound': nat)
    requires Grows(ll, ll') && term in ll && m <= |ll[term]| && bound <= bound' && Overruled(ll, term, m, bound)
    ensures term in ll' && Overruled(ll', term, m, bound')
  {
    var t :| t in ll && term < t < bound && PartWays(ll[t], ll[term], m);
    var j: nat :| j < m && DisagreeAt(ll[t], ll[term], j);
    assert t in ll' && term in ll' && DisagreeAt(ll'[t], ll'[term], j);
  }

  lemma AllKeptGrows(ll: LeaderLogs, ll': LeaderLogs, term: nat, n: nat, g: Log, g': Log, bound: nat, bound': nat)
    requires Grows(ll, ll') && AllKept(ll, term, n, g, bound) && g <= g' && bound <= bound'
    ensures AllKept(ll', term, n, g', bound')
  {
    forall m: nat | m <= n ensures Kept(ll', term, m, g', bound') {
      assert Kept(ll, term, m, g, bound);
      assert term in ll' && ll'[term][..m] == ll[term][..m];
      if !(ll[term][..m] <= g) {
        OverruledGrows(ll, ll', term, m, bound, bound');
      }
    }
  }

  lemma PrefixOfBoth(p: Log, a: Log, b: Log, n: nat)
    requires p <= a && n <= |a| && n <= |b| && a[..n] == b[..n]
    ensures |p| <= n ==> p <= b
  {
  }

  /** A follower that moves to the log of a leader loses only what that leader overrules. */
  lemma AllKeptReplaced(ll: LeaderLogs, term: nat, n: nat, g: Log, g': Log, leader: nat, bound: nat)
    requires AllKept(ll, term, n, g, bound) && leader in ll && term <= leader && bound <= leader + 1
    requires Replaced(g, g', ll[leader])
    ensures AllKept(ll, term, n, g', leader + 1)
  {
    var bound' := leader + 1;
    forall m: nat | m <= n ensures Kept(ll, term, m, g', bound') {
      assert Kept(ll, term, m, g, bound);
      if !(ll[term][..m] <= g) {
        OverruledGrows(ll, ll, term, m, bound, bound');
      } else if !(ll[term][..m] <= g') {
        var j: nat :| DisagreeAt(g, ll[leader], j) && j <= |g'| && g'[..j] == g[..j];
        PrefixOfBoth(ll[term][..m], g, g', j);
        assert ll[term][j] == ll[term][..m][j] == g[j];
        assert DisagreeAt(ll[leader], ll[term], j);
        assert PartWays(ll[leader], ll[term], m);
      }
    }
  }

  lemma AllKeptOfPrefix(ll: LeaderLogs, term: nat, n: nat, g: Log, bound: nat)
    requires term in ll && n <= |ll[term]| && ll[term][..n] <= g
    ensures AllKept(ll, term, n, g, bound)
  {
    forall m: nat | m <= n ensures Kept(ll, term, m, g, bound) {
      assert ll[term][..m] == ll[term][..n][..m];
    }
  }

  /** A new confirmation is by h, in its term, of entries it has. */
  ghost predicate NewConfirmations(st: Cluster, h: Host, st': Cluster, s': Server) {
    forall k {:trigger k in st'.matched} ::
      k in st'.matched && !(k in st.matched && st.matched[k] == st'.matched[k]) ==>
        k == (h, s'.currentTerm) && k.1 in st'.leaderLogs && st'.matched[k] <= |st'.leaderLogs[k.1]|
        && st'.leaderLogs[k.1][..st'.matched[k]] <= s'.logs
  }

  /** A new vote is by h, in its term, with its log. */
  predicate NewVotes(st: Cluster, h: Host, st': Cluster, s: Server, s': Server) {
    forall v {:trigger v in st'.voteLogs} :: v in st'.voteLogs && v !in st.voteLogs ==>
      v == (h, s'.currentTerm) && st'.voteLogs[v] == s.logs
  }

  /** How the step changes the log of h, what h confirms and how h votes. */
  ghost predicate Moves(st: Cluster, h: Host, st': Cluster)
    requires h in st.servers && h in st'.servers
  {
    var s, s' := st.servers[h], st'.servers[h];
    && (s.logs <= s'.logs
        || (s'.currentTerm in st'.leaderLogs && Replaced(s.logs, s'.logs, st'.leaderLogs[s'.currentTerm])))
    && NewConfirmations(st, h, st', s')
    && NewVotes(st, h, st', s, s')
  }

  lemma ConfirmedStays(c: Config, st: Cluster, h: Host, st': Cluster, k: (Host, nat))
    requires LogInv(c, st) && KeepInv(st) && Evolves(c, st, h, st') && Moves(st, h, st') && k in st'.matched
    ensures ConfirmedKept(st'.leaderLogs, st'.servers, k, st'.matched[k])
  {
    var ll, ll' := st.leaderLogs, st'.leaderLogs;
    if k in st.matched && st.matched[k] == st'.matched[k] {
      assert ConfirmedKept(ll, st.servers, k, st.matched[k]);
      assert MatchedOk(ll, st.servers, k, st.matched[k]);
      var s, s', n := st.servers[k.0], st'.servers[k.0], st.matched[k];
      if s.logs <= s'.logs {
        AllKeptGrows(ll, ll', k.1, n, s.logs, s'.logs, s.currentTerm + 1, s'.currentTerm + 1);
      } else {
        AllKeptGrows(ll, ll', k.1, n, s.logs, s.logs, s.currentTerm + 1, s.currentTerm + 1);
        AllKeptReplaced(ll', k.1, n, s.logs, s'.logs, s'.currentTerm, s.currentTerm + 1);
      }
    } else {
      AllKeptOfPrefix(ll', k.1, st'.matched[k], st'.servers[h].logs, st'.servers[h].currentTerm + 1);
    }
  }

  /** A new vote in a term that has a leader came too late for it. */
  lemma NewVoteIsLate(c: Config, st: Cluster, v: (Host, nat))
    requires ElectionInv(c, st) && LogInv(c, st) && v !in st.voteLogs && v.1 in st.leaderLogs
    ensures LateVote(st.reigns, v.0, v.1)
  {
    assert HasLeader(st.reigns, v.1);
    var r :| r in st.reigns && r.term == v.1;
    assert ReignOk(c, st.servers, st.ballots, r, st.reigns[r]);
    var b := Ballot(v.0, v.1, r.leader);
    assert b in st.ballots ==> BallotLogOk(st.voteLogs, st.candidateLogs, b);
  }

  lemma LateVoteStays(c: Config, st: Cluster, h: Host, st': Cluster, voter: Host, term: nat)
    requires Evolves(c, st, h, st') && LateVote(st.reigns, voter, term)
    ensures LateVote(st'.reigns, voter, term)
  {
    var r :| r in st.reigns && r.term == term && voter !in st.reigns[r];
    assert r in st'.reigns;
  }

  lemma OldVoteStays(c: Config, st: Cluster, h: Host, st': Cluster, k: (Host, nat), v: (Host, nat))
    requires KeepInv(st) && Evolves(c, st, h, st')
    requires k in st.matched && k in st'.matched && st.matched[k] == st'.matched[k] && v in st.voteLogs
    ensures v in st'.voteLogs && VoteKept(st'.leaderLogs, st'.reigns, k, st'.matched[k], v, st'.voteLogs[v])
  {
    assert v in st'.voteLogs;
    var g := st.voteLogs[v];
    assert VoteKept(st.leaderLogs, st.reigns, k, st.matched[k], v, g);
    if k.0 == v.0 && k.1 < v.1 {
      if LateVote(st.reigns, v.0, v.1) {
        LateVoteStays(c, st, h, st', v.0, v.1);
      } else {
        AllKeptGrows(st.leaderLogs, st'.leaderLogs, k.1, st.matched[k], g, g, v.1, v.1);
      }
    }
  }

  /** The log a server votes with still has all it confirmed. */
  lemma NewVoteKept(c: Config, st: Cluster, h: Host, st': Cluster, k: (Host, nat), v: (Host, nat))
    requires ElectionInv(c, st) && LogInv(c, st) && KeepInv(st) && Evolves(c, st, h, st') && Moves(st, h, st')
    requires k in st.matched && k in st'.matched && st.matched[k] == st'.matched[k]
    requires v in st'.voteLogs && v !in st.voteLogs
    ensures VoteKept(st'.leaderLogs, st'.reigns, k, st'.matched[k], v, st'.voteLogs[v])
  {
    var s, ll, n := st.servers[h], st.leaderLogs, st.matched[k];
    if k.0 == v.0 && k.1 < v.1 {
      assert ConfirmedKept(ll, st.servers, k, n);
      if v.1 in ll {
        NewVoteIsLate(c, st, v);
        LateVoteStays(c, st, h, st', v.0, v.1);
      } else {
        forall m: nat | m <= n ensures Kept(ll, k.1, m, s.logs, v.1) {
          assert Kept(ll, k.1, m, s.logs, s.currentTerm + 1);
          if !(ll[k.1][..m] <= s.logs) {
            var t :| t in ll && k.1 < t < s.currentTerm + 1 && PartWays(ll[t], ll[k.1], m);
            assert t < v.1;
          }
        }
        AllKeptGrows(ll, st'.leaderLogs, k.1, n, s.logs, s.logs, v.1, v.1);
      }
    }
  }

  lemma EvolutionKeepsConfirmed(c: Config, st: Cluster, h: Host, st': Cluster)
    requires ElectionInv(c, st) && LogInv(c, st) && KeepInv(st) && LogInv(c, st') && ElectionInv(c, st')
    requires Evolves(c, st, h, st') && Moves(st, h, st')
    ensures KeepInv(st')
  {
    forall k | k in st'.matched ensures ConfirmedKept(st'.leaderLogs, st'.servers, k, st'.matched[k]) {
      ConfirmedStays(c, st, h, st', k);
    }
    forall k, v | k in st'.matched && v in st'.voteLogs
      ensures VoteKept(st'.leaderLogs, st'.reigns, k, st'.matched[k], v, st'.voteLogs[v])
    {
      if k in st.matched && st.matched[k] == st'.matched[k] {
        if v in st.voteLogs {
          OldVoteStays(c, st, h, st', k, v);
        } else {
          NewVoteKept(c, st, h, st', k, v);
        }
      } else {
        assert VoteLogOk(st'.leaderLogs, st'.servers, v, st'.voteLogs[v]);
        TermsOf(c, st', v.0);
      }
    }
  }

  // ----- Leader Completeness -----

  function Confirmers(c: Config, st: Cluster, term: nat, k: nat): set<Host> {
    set h | h in c.members && (h, term) in st.matched && st.matched[(h, term)] >= k
  }

  /** The first k entries of the leader of term are on a majority, and entry k is of that very term: the test
      handleReplicateResultFor makes before it commits. */
  predicate Committed(c: Config, st: Cluster, term: nat, k: nat) {
    && term in st.leaderLogs && 0 < k <= |st.leaderLogs[term]|
    && st.leaderLogs[term][k - 1].term == term
    && Majority(c, Confirmers(c, st, term, k))
  }

  ghost predicate FullInv(c: Config, st: Cluster) {
    ElectionInv(c, st) && LogInv(c, st) && KeepInv(st)
  }

  /** Some voter of the later leader confirmed the entries and, if earlier leaders have them, voted with them. */
  lemma VoterHasThem(c: Config, st: Cluster, term: nat, k: nat, later: nat) returns (r: Reign, voter: Host)
    requires FullInv(c, st) && Committed(c, st, term, k) && term < later && later in st.leaderLogs
    requires !Overruled(st.leaderLogs, term, k, later)
    ensures r in st.reigns && r.term == later && Ballot(voter, later, r.leader) in st.ballots
    ensures (voter, later) in st.voteLogs && st.leaderLogs[term][..k] <= st.voteLogs[(voter, later)]
  {
    assert HasLeader(st.reigns, later);
    r :| r in st.reigns && r.term == later;
    assert ReignOk(c, st.servers, st.ballots, r, st.reigns[r]);
    voter := MajoritiesMeet(c, Confirmers(c, st, term, k), st.reigns[r]);
    var key, v := (voter, term), (voter, later);
    assert BallotLogOk(st.voteLogs, st.candidateLogs, Ballot(voter, later, r.leader));
    assert VoteKept(st.leaderLogs, st.reigns, key, st.matched[key], v, st.voteLogs[v]);
    if LateVote(st.reigns, voter, later) {
      var other :| other in st.reigns && other.term == later && voter !in st.reigns[other];
      OneLeaderPerTerm(c, st, r, other);
    }
    assert Kept(st.leaderLogs, term, k, st.voteLogs[v], later);
  }

  /** A log at least as up-to-date as one with the committed entries has them too. */
  lemma UpToDateHasThem(ll: LeaderLogs, term: nat, k: nat, voted: Log, candidate: Log)
    requires LeaderLogsOk(ll) && Rooted(ll, voted) && Rooted(ll, candidate)
    requires term in ll && 0 < k <= |ll[term]| && ll[term][k - 1].term == term && ll[term][..k] <= voted
    requires UpToDate(|candidate|, LastTerm(candidate), voted)
    requires LastTerm(candidate) > term ==>
               LastTerm(candidate) in ll && k <= |ll[LastTerm(candidate)]|
               && ll[LastTerm(candidate)][..k] == ll[term][..k]
    ensures ll[term][..k] <= candidate
  {
    RootedConsecutive(ll, voted);
    assert voted[k - 1] == ll[term][..k][k - 1];
    TermsAscend(ll, voted, k - 1, |voted| - 1);
    WholeLog(ll, voted);
    WholeLog(ll, candidate);
    var t, i := LastTerm(candidate), |candidate| - 1;
    if t == LastTerm(voted) {
      assert voted == ll[t][..|voted|] == candidate[..|voted|];
    } else {
      PrefixOfBoth(candidate, ll[t], ll[term], k);
      assert candidate <= ll[term] ==> ll[term][i] == candidate[i];
      assert LeaderLogOk(ll, term);
      assert candidate[..k] == ll[t][..k];
    }
  }

  /** Leader Completeness: the leader of every later term has the committed entries. */
  lemma {:induction false} LeaderCompleteness(c: Config, st: Cluster, term: nat, k: nat, later: nat)
    requires FullInv(c, st) && Committed(c, st, term, k) && term < later && later in st.leaderLogs
    ensures k <= |st.leaderLogs[later]| && st.leaderLogs[later][..k] == st.leaderLogs[term][..k]
    decreases later
  {
    var ll := st.leaderLogs;
    forall t | t in ll && term < t < later ensures !PartWays(ll[t], ll[term], k) {
      LeaderCompleteness(c, st, term, k, t);
      forall j: nat | j < k ensures !DisagreeAt(ll[t], ll[term], j) {
        assert ll[t][j] == ll[t][..k][j] == ll[term][..k][j];
      }
    }
    var r, voter := VoterHasThem(c, st, term, k, later);
    var v, key := (voter, later), (r.leader, later);
    assert BallotLogOk(st.voteLogs, st.candidateLogs, Ballot(voter, later, r.leader));
    assert VoteLogOk(ll, st.servers, v, st.voteLogs[v]);
    assert CandidateLogOk(ll, st.servers, key, st.candidateLogs[key]);
    assert ReignLogOk(ll, st.candidateLogs, st.matched, r);
    var candidate := st.candidateLogs[key];
    var t := LastTerm(candidate);
    if t > term {
      WholeLog(ll, candidate);
      LeaderCompleteness(c, st, term, k, t);
    }
    UpToDateHasThem(ll, term, k, st.voteLogs[v], candidate);
  }
}
