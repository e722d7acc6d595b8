/** The loop of async_replicateLogTo between one leader and one follower, with nothing in between: when it ends with the
    leader's whole log on the follower. src/raft/raft.cpp:176-214, 377-432, 694-725. */
module RaftRepair {
  import opened RaftTypes
  import opened RaftServer
  import opened RaftCluster
  import opened RaftElection
  import opened RaftLogs
  import opened RaftLogInv
  import opened RaftLogSteps
  import opened RaftSafety
  import opened RaftStops
  import opened RaftDepartures
  import opened RaftAnswers

  datatype Pair = Pair(leader: Server, follower: Server)

  predicate HasPeer(s: Server, i: nat) {
    i < |s.nextIndex| == |s.matchIndex|
  }

  /** One turn: the leader sends what is next for peer i, the follower handles it, and the leader the reply. */
  function Turn(check: PrevCheck, me: Host, i: nat, p: Pair): (r: Pair)
    requires HasPeer(p.leader, i)
    ensures HasPeer(r.leader, i)
  {
    match BuildWithLogs(p.leader, me, i)
    case None => p.(leader := p.leader.(fatal := BadLogIndex))
    case Some(m) =>
      var (f, r) := AppendEntries(check, p.follower, m);
      Pair(HandleReplicateResult(p.leader, i, m.prevLogIndex, m.prevLogIndex + |m.entries|, r.success), f)
  }

  /** n turns, or fewer if the leader stops or has nothing left to send. */
  function Turns(check: PrevCheck, me: Host, i: nat, p: Pair, n: nat): (r: Pair)
    requires HasPeer(p.leader, i)
    ensures HasPeer(r.leader, i)
    decreases n
  {
    if n == 0 || p.leader.fatal != Running || p.leader.nextIndex[i] > LastIndex(p.leader.logs) then p
    else Turns(check, me, i, Turn(check, me, i, p), n - 1)
  }

  /** A leader and a follower of a term up to its own, as in every reachable state. */
  ghost predicate Facing(ll: LeaderLogs, i: nat, p: Pair) {
    && LeaderLogsOk(ll) && p.leader.currentTerm in ll && ll[p.leader.currentTerm] == p.leader.logs
    && Rooted(ll, p.follower.logs) && HasPeer(p.leader, i) && p.leader.fatal == Running
    && (forall j :: 0 <= j < |p.leader.matchIndex| ==> p.leader.matchIndex[j] <= |p.leader.logs|)
    && p.follower.currentTerm <= p.leader.currentTerm
    && (p.follower.currentTerm == p.leader.currentTerm ==> p.follower.role != Leader)
  }

  function Next(i: nat, p: Pair): nat
    requires HasPeer(p.leader, i)
  {
    p.leader.nextIndex[i]
  }

  /** The last index that the next message covers. */
  function Reach(i: nat, p: Pair): nat
    requires HasPeer(p.leader, i) && 1 <= Next(i, p) <= |p.leader.logs|
  {
    Min(|p.leader.logs|, Next(i, p) - 1 + MAX_LOGS_PER_REQUEST)
  }

  function NextMessage(me: Host, i: nat, p: Pair): AppendParams
    requires HasPeer(p.leader, i) && 1 <= Next(i, p) <= |p.leader.logs|
  {
    var prev := Next(i, p) - 1;
    AppendParams(p.leader.currentTerm, me, prev, TermAt(p.leader.logs, prev), p.leader.logs[prev..Reach(i, p)],
                 p.leader.commitIndex)
  }

  predicate Accepts(check: PrevCheck, me: Host, i: nat, p: Pair)
    requires HasPeer(p.leader, i) && 1 <= Next(i, p) <= |p.leader.logs|
  {
    MustAccept(check, p.follower.logs, p.leader.logs, NextMessage(me, i, p))
  }

  /** A log that reaches beyond an accepted message is the one the follower had. */
  lemma NothingBeyond(check: PrevCheck, ll: LeaderLogs, logs: Log, p: AppendParams, merged: Log)
    requires LeaderLogsOk(ll) && Rooted(ll, logs) && SliceOf(ll, p)
    requires Follow(check, logs, p) == (Some(merged), true) && |merged| > p.prevLogIndex + |p.entries|
    ensures merged == logs
  {
    assert LeaderLogOk(ll, p.term);
    RootedConsecutive(ll, logs);
    SliceFits(ll, logs, ll[p.term], p.prevLogIndex, p.prevLogIndex + |p.entries|);
    MergedLength(logs, p.prevLogIndex, p.entries, merged);
  }

  /** What the follower makes of the message. */
  lemma FollowerTurn(check: PrevCheck, ll: LeaderLogs, me: Host, i: nat, p: Pair)
    requires Facing(ll, i, p) && 1 <= Next(i, p) <= |p.leader.logs|
    ensures var (f, r) := AppendEntries(check, p.follower, NextMessage(me, i, p));
      && r.success == Accepts(check, me, i, p)
      && f.role == Follower && f.currentTerm == p.leader.currentTerm && Rooted(ll, f.logs)
      && (r.success ==> p.leader.logs[..Reach(i, p)] <= f.logs
                        && (|f.logs| > Reach(i, p) ==> f.logs == p.follower.logs))
      && (!r.success && check == LastEntry ==> f.logs == p.follower.logs)
  {
    var m := NextMessage(me, i, p);
    var (f, r) := AppendEntries(check, p.follower, m);
    assert LeaderLogOk(ll, p.leader.currentTerm);
    AcceptsExactly(check, ll, p.follower, m);
    AcceptFacts(check, ll, p.follower, m, f, r);
    ReplacedRooted(ll, p.follower.logs, f.logs, p.leader.logs);
    if r.success && |f.logs| > Reach(i, p) {
      NothingBeyond(check, ll, p.follower.logs, m, f.logs);
    }
  }

  /** And the leader of the reply. */
  lemma LeaderTurn(s: Server, i: nat, prev: nat, hi: nat, success: bool)
    requires HasPeer(s, i) && Consecutive(s.logs) && prev < hi <= |s.logs| && s.nextIndex[i] == prev + 1
    requires s.fatal == Running && forall j :: 0 <= j < |s.matchIndex| ==> s.matchIndex[j] <= |s.logs|
    ensures var s' := HandleReplicateResult(s, i, prev, hi, success);
      && s'.logs == s.logs && s'.currentTerm == s.currentTerm && HasPeer(s', i)
      && |s'.matchIndex| == |s.matchIndex|
      && (forall j :: 0 <= j < |s'.matchIndex| ==> s'.matchIndex[j] <= |s'.logs|)
      && (success ==> s'.nextIndex[i] == hi + 1 && s'.matchIndex[i] == hi
                      && (|s.matchIndex| == 2 ==> s'.fatal == Running))
      && (!success ==> s'.nextIndex[i] == prev && s'.fatal == Running && s'.matchIndex == s.matchIndex)
  {
    if success && |s.matchIndex| == 2 {
      ThreeServersNeverStop(s, i, prev, hi);
    }
  }

  lemma TurnIs(check: PrevCheck, ll: LeaderLogs, me: Host, i: nat, p: Pair)
    requires Facing(ll, i, p) && 1 <= Next(i, p) <= |p.leader.logs|
    ensures var (f, r) := AppendEntries(check, p.follower, NextMessage(me, i, p));
      Turn(check, me, i, p) == Pair(HandleReplicateResult(p.leader, i, Next(i, p) - 1, Reach(i, p), r.success), f)
    ensures Consecutive(p.leader.logs)
  {
    assert LeaderLogOk(ll, p.leader.currentTerm);
    RootedConsecutive(ll, p.leader.logs);
    SendsExactly(p.leader, me, i);
  }

  /** What an accepted message changes: the peer's indices move past it, and the follower has it. */
  predicate Advanced(i: nat, p: Pair, q: Pair)
    requires HasPeer(p.leader, i) && HasPeer(q.leader, i) && 1 <= Next(i, p) <= |p.leader.logs|
  {
    && Next(i, q) == Reach(i, p) + 1 && q.leader.matchIndex[i] == Reach(i, p)
    && p.leader.logs[..Reach(i, p)] <= q.follower.logs
    && (|q.follower.logs| > Reach(i, p) ==> q.follower.logs == p.follower.logs)
    && (|p.leader.matchIndex| == 2 ==> q.leader.fatal == Running)
  }

  /** A refusal only lowers nextIndex; with the test of the source the follower keeps its log. */
  predicate BackedUp(check: PrevCheck, i: nat, p: Pair, q: Pair)
    requires HasPeer(p.leader, i) && HasPeer(q.leader, i)
  {
    && Next(i, q) == Next(i, p) - 1 && q.leader.fatal == Running
    && (check == LastEntry ==> q.follower.logs == p.follower.logs)
  }

  lemma TurnFacts(check: PrevCheck, ll: LeaderLogs, me: Host, i: nat, p: Pair, q: Pair)
    requires Facing(ll, i, p) && 1 <= Next(i, p) <= |p.leader.logs| && q == Turn(check, me, i, p)
    ensures q.leader.fatal == Running ==> Facing(ll, i, q)
    ensures q.leader.logs == p.leader.logs && |q.leader.matchIndex| == |p.leader.matchIndex|
    ensures if Accepts(check, me, i, p) then Advanced(i, p, q) else BackedUp(check, i, p, q)
  {
    TurnIs(check, ll, me, i, p);
    FollowerTurn(check, ll, me, i, p);
    LeaderTurn(p.leader, i, Next(i, p) - 1, Reach(i, p), Accepts(check, me, i, p));
  }

  /** Once a message is accepted so is the next. */
  lemma AcceptedAgain(check: PrevCheck, ll: LeaderLogs, me: Host, i: nat, p: Pair, q: Pair)
    requires Facing(ll, i, p) && Facing(ll, i, q) && q.leader.logs == p.leader.logs
    requires 1 <= Next(i, p) <= |p.leader.logs| && Accepts(check, me, i, p)
    requires Next(i, q) == Reach(i, p) + 1 <= |p.leader.logs| && p.leader.logs[..Reach(i, p)] <= q.follower.logs
    requires |q.follower.logs| > Reach(i, p) ==> q.follower.logs == p.follower.logs
    ensures Accepts(check, me, i, q)
  {
    var L, f, hi := p.leader.logs, q.follower.logs, Reach(i, p);
    assert LeaderLogOk(ll, p.leader.currentTerm);
    assert f[..hi] == L[..hi];
    assert f[hi - 1] == f[..hi][hi - 1] == L[..hi][hi - 1] == L[hi - 1];
    if check == LastEntry && |f| > hi {
      TermsAscend(ll, f, hi - 1, |f| - 1);
      if Next(i, p) > 1 {
        TermsAscend(ll, L, Next(i, p) - 2, hi - 1);
      }
    }
  }

  ghost predicate Repaired(i: nat, p: Pair)
    requires HasPeer(p.leader, i)
  {
    p.leader.matchIndex[i] == |p.leader.logs| && p.leader.logs <= p.follower.logs
  }

  /** The leader is done with the peer, or has stopped on a middle of 0, which it cannot with two peers. */
  ghost predicate RepairedOrStopped(i: nat, p: Pair)
    requires HasPeer(p.leader, i)
  {
    Repaired(i, p) || (p.leader.fatal != Running && |p.leader.matchIndex| != 2)
  }

  lemma OneTurnMore(check: PrevCheck, me: Host, i: nat, p: Pair, n: nat)
    requires HasPeer(p.leader, i) && p.leader.fatal == Running && Next(i, p) <= LastIndex(p.leader.logs)
    ensures Turns(check, me, i, p, n + 1) == Turns(check, me, i, Turn(check, me, i, p), n)
  {
  }

  lemma LastIs(ll: LeaderLogs, i: nat, p: Pair)
    requires Facing(ll, i, p)
    ensures LastIndex(p.leader.logs) == |p.leader.logs|
  {
    assert LeaderLogOk(ll, p.leader.currentTerm);
    RootedConsecutive(ll, p.leader.logs);
  }

  /** From the first accepted message on everything is accepted. */
  lemma {:induction false} Finishes(check: PrevCheck, ll: LeaderLogs, me: Host, i: nat, p: Pair) returns (n: nat)
    requires Facing(ll, i, p) && 1 <= Next(i, p) <= |p.leader.logs| && Accepts(check, me, i, p)
    ensures RepairedOrStopped(i, Turns(check, me, i, p, n))
    ensures Turns(check, me, i, p, n).leader.logs == p.leader.logs
    decreases |p.leader.logs| - Next(i, p)
  {
    var q := Turn(check, me, i, p);
    TurnFacts(check, ll, me, i, p, q);
    LastIs(ll, i, p);
    if q.leader.fatal == Running && Next(i, q) <= |p.leader.logs| {
      AcceptedAgain(check, ll, me, i, p, q);
      n := Finishes(check, ll, me, i, q);
    } else {
      n := 0;
      assert p.leader.logs[..|p.leader.logs|] == p.leader.logs;
    }
    OneTurnMore(check, me, i, p, n);
    n := n + 1;
  }

  /** The leader can repair the follower's log: with the test at prevLogIndex always; with the test of the source
      exactly if the follower's last term is that of some entry, up to the end of its log, that the leader still comes
      by on its way down. */
  ghost predicate Repairable(check: PrevCheck, i: nat, p: Pair)
    requires HasPeer(p.leader, i)
  {
    check == PrevEntry
    || exists k {:trigger TermAt(p.leader.logs, k)} ::
         0 <= k < Next(i, p) && k <= |p.follower.logs| && k <= |p.leader.logs|
         && TermAt(p.leader.logs, k) == LastTerm(p.follower.logs)
  }

  lemma AcceptedIfThere(check: PrevCheck, me: Host, i: nat, p: Pair)
    requires HasPeer(p.leader, i) && 1 <= Next(i, p) <= |p.leader.logs|
    ensures check == LastEntry && Accepts(check, me, i, p) ==> Repairable(check, i, p)
    ensures check == PrevEntry && Next(i, p) == 1 ==> Accepts(check, me, i, p)
    ensures check == LastEntry && Next(i, p) == 1 && Repairable(check, i, p) ==> Accepts(check, me, i, p)
  {
    var k := Next(i, p) - 1;
    assert Accepts(check, me, i, p) ==> k <= |p.follower.logs|;
    assert check == LastEntry && Accepts(check, me, i, p) ==> TermAt(p.leader.logs, k) == LastTerm(p.follower.logs);
  }

  lemma StillRepairable(check: PrevCheck, me: Host, i: nat, p: Pair, q: Pair)
    requires HasPeer(p.leader, i) && HasPeer(q.leader, i) && 1 <= Next(i, p) <= |p.leader.logs|
    requires !Accepts(check, me, i, p) && q.leader.logs == p.leader.logs && Next(i, q) == Next(i, p) - 1
    requires check == LastEntry ==> q.follower.logs == p.follower.logs
    ensures Repairable(check, i, q) <==> Repairable(check, i, p)
  {
    if check == LastEntry {
      var prev := Next(i, p) - 1;
      assert prev <= |p.follower.logs| ==> TermAt(p.leader.logs, prev) != LastTerm(p.follower.logs);
    }
  }

  /** The loop ends with the leader's whole log on the follower, if its log can be repaired. */
  lemma {:induction false} Repairs(check: PrevCheck, ll: LeaderLogs, me: Host, i: nat, p: Pair) returns (n: nat)
    requires Facing(ll, i, p) && 1 <= Next(i, p) <= |p.leader.logs| && Repairable(check, i, p)
    ensures RepairedOrStopped(i, Turns(check, me, i, p, n))
    ensures Turns(check, me, i, p, n).leader.logs == p.leader.logs
    decreases Next(i, p)
  {
    if Accepts(check, me, i, p) {
      n := Finishes(check, ll, me, i, p);
    } else {
      AcceptedIfThere(check, me, i, p);
      var q := Turn(check, me, i, p);
      TurnFacts(check, ll, me, i, p, q);
      StillRepairable(check, me, i, p, q);
      LastIs(ll, i, p);
      n := Repairs(check, ll, me, i, q);
      OneTurnMore(check, me, i, p, n);
      n := n + 1;
    }
  }

  /** Otherwise it ends with a leader that has stopped on index 0 and a follower whose log is as it was. */
  ghost predicate Stuck(p: Pair, q: Pair) {
    q.leader.fatal == BadLogIndex && q.follower.logs == p.follower.logs
  }

  lemma {:induction false} GetsStuck(check: PrevCheck, ll: LeaderLogs, me: Host, i: nat, p: Pair) returns (n: nat)
    requires Facing(ll, i, p) && Next(i, p) <= |p.leader.logs| && !Repairable(check, i, p)
    ensures Stuck(p, Turns(check, me, i, p, n))
    decreases Next(i, p)
  {
    LastIs(ll, i, p);
    var q := Turn(check, me, i, p);
    if Next(i, p) == 0 {
      assert LeaderLogOk(ll, p.leader.currentTerm);
      RootedConsecutive(ll, p.leader.logs);
      SendStopsLeader(p.leader, me, i);
      n := 0;
    } else {
      AcceptedIfThere(check, me, i, p);
      TurnFacts(check, ll, me, i, p, q);
      StillRepairable(check, me, i, p, q);
      n := GetsStuck(check, ll, me, i, q);
    }
    OneTurnMore(check, me, i, p, n);
    n := n + 1;
  }

  /** With the test that the documentation prints every follower is repaired; with the test of the source, answered by
      a refusal, exactly those whose last term the leader comes by. */
  lemma RepairsExactly(check: PrevCheck, ll: LeaderLogs, me: Host, i: nat, p: Pair) returns (n: nat)
    requires Facing(ll, i, p) && 1 <= Next(i, p) <= |p.leader.logs|
    ensures var q := Turns(check, me, i, p, n);
      if Repairable(check, i, p) then RepairedOrStopped(i, q) && q.leader.logs == p.leader.logs else Stuck(p, q)
  {
    if Repairable(check, i, p) {
      n := Repairs(check, ll, me, i, p);
    } else {
      n := GetsStuck(check, ll, me, i, p);
    }
  }

  /** In every run whose restarts lose nothing a leader that runs, and a peer in no later term, are such a pair. */
  lemma FacingAlways(c: Config, steps: seq<Step>, st: Cluster, a: Host, i: nat)
    requires ValidConfig(c) && |c.members| % 2 == 1 && IsRun(c, steps, false, st) && a in c.members
    requires ValidPeer(c, st, a, i) && Alive(st, a) && st.servers[a].role == Leader
    requires c.peers[a][i] in st.servers && st.servers[c.peers[a][i]].currentTerm <= st.servers[a].currentTerm
    ensures Facing(st.leaderLogs, i, Pair(st.servers[a], st.servers[c.peers[a][i]]))
  {
    RunKeepsSafe(c, steps, st);
    PeerIsOther(c, st, a, i);
    MatchIndexInside(c, st, a);
    assert ServerLogOk(st.leaderLogs, st.candidateLogs, st.matched, a, st.servers[a]);
    var b := c.peers[a][i];
    assert ServerLogOk(st.leaderLogs, st.candidateLogs, st.matched, b, st.servers[b]);
  }

  lemma PeerIsOther(c: Config, st: Cluster, a: Host, i: nat)
    requires ValidConfig(c) && ElectionInv(c, st) && a in c.members && i < |c.peers[a]|
    requires st.servers[a].role == Leader
    ensures var b := c.peers[a][i];
      b in c.members && !(st.servers[b].currentTerm == st.servers[a].currentTerm && st.servers[b].role == Leader)
  {
    var b := c.peers[a][i];
    assert b in c.peers[a];
    assert ServerOk(c, st.ballots, st.reigns, a, st.servers[a]) && ServerOk(c, st.ballots, st.reigns, b, st.servers[b]);
    if st.servers[b].currentTerm == st.servers[a].currentTerm && st.servers[b].role == Leader {
      OneLeaderPerTerm(c, st, Reign(st.servers[a].currentTerm, a), Reign(st.servers[a].currentTerm, b));
    }
  }

  /** A follower with an entry of an old term where the leader has one of its own: the test of the source never
      passes, and the leader stops. */
  lemma SourceTestGetsStuck(leader: Server, x: string, y: string)
    requires leader.logs == [LogEntry(2, y, 1)] && HasPeer(leader, 0) && leader.nextIndex[0] == 1
    ensures !Repairable(LastEntry, 0, Pair(leader, Fresh(2).(currentTerm := 1, logs := [LogEntry(1, x, 1)])))
  {
  }
}
