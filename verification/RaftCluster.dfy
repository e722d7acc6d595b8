/** The cluster as a step system: servers, a network that may lose, delay, repeat and reorder messages, and a
    record of what has happened. A run is a sequence of enabled steps. */
module RaftCluster {
  import opened RaftTypes
  import opened RaftServer

  datatype Config = Config(members: set<Host>, peers: map<Host, seq<Host>>, check: PrevCheck)

  ghost predicate Distinct(hosts: seq<Host>) {
    forall i, j :: 0 <= i < j < |hosts| ==> hosts[i] != hosts[j]
  }

  /** Every member knows every other member once and not itself; no member is the null host. */
  ghost predicate ValidConfig(c: Config) {
    && NULL_HOST !in c.members
    && c.peers.Keys == c.members
    && (forall h :: h in c.members ==>
          && Distinct(c.peers[h])
          && h !in c.peers[h]
          && (forall p :: p in c.members <==> p == h || p in c.peers[h]))
  }

  datatype Message =
    | VoteRequest(to: Host, vote: VoteParams)
    | VoteReply(from: Host, to: Host, term: nat, granted: bool)
    | AppendRequest(to: Host, append: AppendParams)
    | AppendReply(from: Host, to: Host, term: nat, prevLogIndex: nat, count: nat, success: bool)

  /** A vote that was granted, and the leader of a term. */
  datatype Ballot = Ballot(voter: Host, term: nat, candidate: Host)
  datatype Reign = Reign(term: nat, leader: Host)

  datatype Cluster = Cluster(
    servers: map<Host, Server>,
    net: set<Message>,
    // what has happened so far
    ballots: set<Ballot>,
    reigns: map<Reign, set<Host>>,         // the leaders there were, each with the voters that elected it
    voteLogs: map<(Host, nat), Log>,       // the voter's log when it first voted in a term
    candidateLogs: map<(Host, nat), Log>,  // the candidate's log when it started the election of a term
    leaderLogs: map<nat, Log>,             // the log of the leader of a term, as of its last moment as leader
    matched: map<(Host, nat), nat>)        // how much of the leader's log of a term a server has confirmed

  datatype Step =
    | Timeout(h: Host)
    | BeginElection(h: Host)
    | DeliverVoteRequest(m: Message)
    | WinElection(h: Host, voters: set<Host>)
    | ClientStart(h: Host, command: string)
    | SendHeartbeat(h: Host, peer: nat)
    | SendLogs(h: Host, peer: nat)
    | DeliverAppendRequest(m: Message)
    | DeliverAppendReply(m: Message, peer: nat)
    | GatherForApply(h: Host)
    | ApplyEntry(h: Host)
    | FinishApply(h: Host)
    | Restart(h: Host, diskLogs: Log)

  function Init(c: Config): Cluster
    requires c.peers.Keys == c.members
  {
    Cluster(map h | h in c.members :: Fresh(|c.peers[h]|), {}, {}, map[], map[], map[], map[], map[])
  }

  predicate Alive(st: Cluster, h: Host) {
    h in st.servers && st.servers[h].fatal == Running
  }

  /** More than half of the servers, as voteCnt > raftNum / 2. */
  predicate Majority(c: Config, hosts: set<Host>) {
    hosts <= c.members && 2 * |hosts| > |c.members|
  }

  ghost predicate Enabled(c: Config, st: Cluster, step: Step) {
    match step
    case Timeout(h) => Alive(st, h) && st.servers[h].role != Leader
    case BeginElection(h) => Alive(st, h) && st.servers[h].role == Candidate
    case DeliverVoteRequest(m) => m in st.net && m.VoteRequest? && Alive(st, m.to)
    case WinElection(h, voters) =>
      && Alive(st, h)
      && st.servers[h].role == Candidate
      && st.servers[h].electionTerm > 0
      && st.servers[h].electionTerm == st.servers[h].currentTerm  // G4
      && Majority(c, voters)
      && (forall v :: v in voters && v != h ==> VoteReply(v, h, st.servers[h].electionTerm, true) in st.net)
    case ClientStart(h, command) => Alive(st, h)
    case SendHeartbeat(h, peer) => Alive(st, h) && st.servers[h].role == Leader && ValidPeer(c, st, h, peer)
    case SendLogs(h, peer) =>
      && Alive(st, h) && ValidPeer(c, st, h, peer)
      && st.servers[h].role == Leader  // G13
    case DeliverAppendRequest(m) => m in st.net && m.AppendRequest? && Alive(st, m.to)
    case DeliverAppendReply(m, peer) =>
      && m in st.net && m.AppendReply? && m.count > 0
      && Alive(st, m.to)
      && st.servers[m.to].role == Leader && st.servers[m.to].currentTerm == m.term  // G4
      && ValidPeer(c, st, m.to, peer) && c.peers[m.to][peer] == m.from
    case GatherForApply(h) => Alive(st, h) && st.servers[h].batchSize == 0
    case ApplyEntry(h) => Alive(st, h) && st.servers[h].batch != []
    case FinishApply(h) => Alive(st, h) && st.servers[h].batch == [] && st.servers[h].batchSize > 0
    case Restart(h, diskLogs) => h in st.servers && Consecutive(diskLogs)
  }

  predicate ValidPeer(c: Config, st: Cluster, h: Host, peer: nat) {
    h in st.servers && h in c.peers
    && peer < |c.peers[h]| == |st.servers[h].nextIndex| == |st.servers[h].matchIndex|
  }

  function Actor(step: Step): Host {
    match step
    case Timeout(h) => h
    case BeginElection(h) => h
    case DeliverVoteRequest(m) => m.to
    case WinElection(h, _) => h
    case ClientStart(h, _) => h
    case SendHeartbeat(h, _) => h
    case SendLogs(h, _) => h
    case DeliverAppendRequest(m) => m.to
    case DeliverAppendReply(m, _) => if m.AppendReply? then m.to else NULL_HOST
    case GatherForApply(h) => h
    case ApplyEntry(h) => h
    case FinishApply(h) => h
    case Restart(h, _) => h
  }

  function SetServer(st: Cluster, h: Host, s: Server): Cluster {
    st.(servers := st.servers[h := s])
  }

  function Max(a: nat, b: nat): nat {
    if a <= b then b else a
  }

  // What each step records, given the new state s of the server that takes it.

  function AfterBegin(c: Config, st: Cluster, h: Host, s: Server): Cluster
    requires h in c.peers
  {
    SetServer(st, h, s).(
      net := st.net + (set peer | peer in c.peers[h] :: VoteRequest(peer, ElectionParams(s, h))),
      ballots := st.ballots + {Ballot(h, s.currentTerm, h)},
      voteLogs := st.voteLogs[(h, s.currentTerm) := s.logs],
      candidateLogs := st.candidateLogs[(h, s.currentTerm) := s.logs])
  }

  function AfterVote(st: Cluster, h: Host, p: VoteParams, s: Server, granted: bool): Cluster {
    var st' := SetServer(st, h, s).(net := st.net + {VoteReply(h, p.candidateId, p.term, granted)});
    if !granted then st'
    else
      st'.(
        ballots := st.ballots + {Ballot(h, p.term, p.candidateId)},
        voteLogs := if (h, p.term) in st.voteLogs then st.voteLogs else st.voteLogs[(h, p.term) := s.logs])
  }

  function AfterWin(st: Cluster, h: Host, voters: set<Host>, s: Server): Cluster {
    SetServer(st, h, s).(
      reigns := st.reigns[Reign(s.currentTerm, h) := voters],
      leaderLogs := st.leaderLogs[s.currentTerm := s.logs],
      matched := st.matched[(h, s.currentTerm) := |s.logs|])
  }

  function AfterStart(st: Cluster, h: Host, s: Server): Cluster {
    if s.role != Leader then SetServer(st, h, s)
    else
      SetServer(st, h, s).(
        leaderLogs := st.leaderLogs[s.currentTerm := s.logs],
        matched := st.matched[(h, s.currentTerm) := |s.logs|])
  }

  function AfterSend(st: Cluster, h: Host, to: Host, p: Option<AppendParams>): Cluster
    requires h in st.servers
  {
    match p
    case Some(p) => st.(net := st.net + {AppendRequest(to, p)})
    case None => SetServer(st, h, st.servers[h].(fatal := BadLogIndex))
  }

  function AfterAppend(st: Cluster, h: Host, p: AppendParams, s: Server, success: bool): Cluster {
    var covered := p.prevLogIndex + |p.entries|;
    SetServer(st, h, s).(
      net := if s.fatal != Running then st.net
             else st.net + {AppendReply(h, p.leaderId, p.term, p.prevLogIndex, |p.entries|, success)},
      matched := if !success then st.matched
                 else st.matched[(h, p.term) :=
                   if (h, p.term) in st.matched then Max(st.matched[(h, p.term)], covered) else covered])
  }

  /** Steps that touch one server and nothing else. */
  predicate IsLocal(step: Step) {
    step.Timeout? || step.DeliverAppendReply? || step.GatherForApply? || step.ApplyEntry? || step.FinishApply?
    || step.Restart?
  }

  ghost function LocalResult(c: Config, st: Cluster, step: Step): Server
    requires Enabled(c, st, step) && IsLocal(step)
  {
    var s := st.servers[Actor(step)];
    match step
    case Timeout(_) => SwitchToCandidate(s)
    case DeliverAppendReply(m, peer) =>
      HandleReplicateResult(s, peer, m.prevLogIndex, m.prevLogIndex + m.count, m.success)
    case GatherForApply(_) => GatherBatch(s)
    case ApplyEntry(_) => ApplyOne(s)
    case FinishApply(_) => AdvanceApplied(s)
    case Restart(_, diskLogs) => Restarted(s, diskLogs)
  }

  /** The state after an enabled step. */
  ghost function Do(c: Config, st: Cluster, step: Step): Cluster
    requires ValidConfig(c) && st.servers.Keys == c.members && Enabled(c, st, step)
  {
    var s := st.servers[Actor(step)];
    match step
    case BeginElection(h) => AfterBegin(c, st, h, StartElection(s, h))
    case DeliverVoteRequest(m) =>
      var (s', r) := RequestVote(s, m.vote);
      AfterVote(st, m.to, m.vote, s', r.voteGranted)
    case WinElection(h, voters) => AfterWin(st, h, voters, SwitchToLeader(s))
    case ClientStart(h, command) => AfterStart(st, h, Start(s, command))
    case SendHeartbeat(h, peer) => AfterSend(st, h, c.peers[h][peer], BuildParams(s, h, peer))
    case SendLogs(h, peer) => AfterSend(st, h, c.peers[h][peer], BuildWithLogs(s, h, peer))
    case DeliverAppendRequest(m) =>
      var (s', r) := AppendEntries(c.check, s, m.append);
      AfterAppend(st, m.to, m.append, s', r.success)
    case _ => SetServer(st, Actor(step), LocalResult(c, st, step))
  }

  /** A restart that loses nothing: the disk has the whole log and the present term. */
  predicate Lossless(st: Cluster, step: Step) {
    step.Restart? && step.h in st.servers ==>
      step.diskLogs == st.servers[step.h].logs && st.servers[step.h].disk.term == st.servers[step.h].currentTerm
  }

  ghost predicate NoRestart(steps: seq<Step>) {
    forall k {:trigger steps[k]} :: 0 <= k < |steps| ==> !steps[k].Restart?
  }

  /** st is the state after some run from the initial state. With restarts servers may restart with any log on disk,
      without it only with restarts that lose nothing. */
  ghost predicate IsRun(c: Config, steps: seq<Step>, restarts: bool, st: Cluster)
    requires ValidConfig(c)
    decreases |steps|, 1
  {
    EndsIn(c, steps, restarts, st)
  }

  /** Nothing has happened, or the last step leads from a state that the steps before it lead to. */
  ghost predicate EndsIn(c: Config, steps: seq<Step>, restarts: bool, st: Cluster)
    requires ValidConfig(c)
    decreases |steps|, 0
  {
    if steps == [] then st == Init(c)
    else
      exists before ::
        && IsRun(c, steps[..|steps| - 1], restarts, before)
        && before.servers.Keys == c.members
        && Enabled(c, before, steps[|steps| - 1])
        && (restarts || Lossless(before, steps[|steps| - 1]))
        && st == Do(c, before, steps[|steps| - 1])
  }

  lemma EmptyRun(c: Config, restarts: bool, st: Cluster)
    requires ValidConfig(c)
    ensures IsRun(c, [], restarts, st) <==> st == Init(c)
  {
    assert EndsIn(c, [], restarts, st) <==> st == Init(c);
  }

  lemma LastStep(c: Config, steps: seq<Step>, restarts: bool, st: Cluster) returns (before: Cluster)
    requires ValidConfig(c) && IsRun(c, steps, restarts, st) && steps != []
    ensures IsRun(c, steps[..|steps| - 1], restarts, before) && before.servers.Keys == c.members
    ensures Enabled(c, before, steps[|steps| - 1]) && (restarts || Lossless(before, steps[|steps| - 1]))
    ensures st == Do(c, before, steps[|steps| - 1])
  {
    assert EndsIn(c, steps, restarts, st);
    before :| IsRun(c, steps[..|steps| - 1], restarts, before) && before.servers.Keys == c.members
              && Enabled(c, before, steps[|steps| - 1]) && (restarts || Lossless(before, steps[|steps| - 1]))
              && st == Do(c, before, steps[|steps| - 1]);
  }

  /** A run can be continued by any enabled step. */
  lemma OneMore(c: Config, steps: seq<Step>, restarts: bool, st: Cluster, step: Step)
    requires ValidConfig(c) && IsRun(c, steps, restarts, st) && st.servers.Keys == c.members
    requires Enabled(c, st, step) && (restarts || Lossless(st, step))
    ensures IsRun(c, steps + [step], restarts, Do(c, st, step))
  {
    var more := steps + [step];
    assert more[..|more| - 1] == steps && more[|more| - 1] == step;
    assert EndsIn(c, more, restarts, Do(c, st, step));
  }
}
