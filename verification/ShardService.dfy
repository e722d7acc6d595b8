/** The controller on top of Raft: the entries it is given, parsed and applied one after the other.
    src/shardkv/ShardCtrler.cpp:87-131. */
module ShardService {
  import opened RaftTypes
  import RaftCluster
  import RaftSafety
  import opened ShardConfig
  import opened ShardCtrler
  import opened CtrlerArgs

  /** Entry e does not read as a request, or as one after which both indexes would no longer agree. */
  ghost predicate Unfit(s: ShardCtrler, e: LogEntry)
    reads s
    requires s.configs != []
  {
    match Deserialize(e.command)
    case None => true
    case Some(op) => !s.Servable(op) || !s.Keeping(op)
  }

  predicate IsMove(e: LogEntry) {
    Deserialize(e.command).Some? && Deserialize(e.command).value.Move?
  }

  ghost predicate NoMoves(entries: seq<LogEntry>) {
    forall e {:trigger IsMove(e)} :: e in entries ==> !IsMove(e)
  }

  /** The indices go on from last. */
  predicate Continuing(entries: seq<LogEntry>, last: nat) {
    forall k :: 0 <= k < |entries| ==> entries[k].index == last + k + 1
  }

  /** The load is balanced, as G8 and G9 keep it. */
  ghost predicate Level(s: ShardCtrler)
    reads s
    requires s.configs != []
  {
    s.guards.g8 && s.guards.g9 && Balanced(s.Last().gid2shards)
  }

  /** The first n entries have run since the last index was first, the last of them up to the stop if fatal; level0 and
      level say whether the load was and is balanced. */
  ghost predicate Ran(entries: seq<LogEntry>, n: nat, first: nat, last: nat, fatal: bool, level0: bool, level: bool) {
    && n <= |entries| && (NoMoves(entries[..n]) && level0 ==> level)
    && if fatal then
         n > 0 && Continuing(entries[..n - 1], first) && Violates(first + n - 1, entries[n - 1].index)
       else
         Continuing(entries[..n], first) && last == first + n
  }

  lemma RanOne(entries: seq<LogEntry>, n: nat, first: nat, last: nat, level0: bool, level: bool, last': nat,
               fatal': bool, level': bool)
    requires n < |entries| && Ran(entries, n, first, last, false, level0, level)
    requires (fatal' <==> Violates(last, entries[n].index)) && (!fatal' ==> last' == entries[n].index)
    requires !IsMove(entries[n]) && level ==> level'
    ensures Ran(entries, n + 1, first, last', fatal', level0, level')
  {
    assert entries[..n + 1] == entries[..n] + [entries[n]];
    assert entries[n] in entries[..n + 1];
  }

  /** The history after is what the entries make of before, one configuration for every join, leave and move and none
      for a query. */
  ghost predicate Explained(entries: seq<LogEntry>, guards: Guards, shards: nat, before: seq<Config>,
                            after: seq<Config>) {
    if entries == [] then after == before
    else
      var n := |entries| - 1;
      match Deserialize(entries[n].command)
      case None => false
      case Some(Query(_)) => Explained(entries[..n], guards, shards, before, after)
      case Some(op) =>
        && |after| >= 2 && Changed(op, after[|after| - 2], guards, shards, after[|after| - 1])
        && Explained(entries[..n], guards, shards, before, after[..|after| - 1])
  }

  lemma ExplainedOne(entries: seq<LogEntry>, n: nat, guards: Guards, shards: nat, before: seq<Config>,
                     mid: seq<Config>, after: seq<Config>)
    requires n < |entries| && Explained(entries[..n], guards, shards, before, mid)
    requires Deserialize(entries[n].command).Some?
    requires Extends(Deserialize(entries[n].command).value, guards, shards, mid, after)
    ensures Explained(entries[..n + 1], guards, shards, before, after)
  {
    assert entries[..n + 1][..n] == entries[..n];
  }

  /** Whether a request keeps the indexes in agreement. */
  method IsFit(s: ShardCtrler, op: Op) returns (fit: bool)
    requires s.Valid() && s.guards.g7
    ensures fit <==> s.Servable(op) && s.Keeping(op)
  {
    var last := s.configs[|s.configs| - 1];
    fit := s.Servable(op);
    match op {
      case Join(servers) =>
        fit := fit && Lost(last, servers) == {};
      case Leave(_) =>
      case Move(_, gid) =>
        fit := fit && gid in last.gid2shards;
      case Query(_) =>
    }
  }

  /** One entry. */
  method ServeOne(s: ShardCtrler, e: LogEntry) returns (fit: bool)
    requires s.Valid() && !s.fatal && s.guards.g7
    modifies s
    ensures s.Valid() && (fit <==> !old(Unfit(s, e)))
    ensures !fit ==> unchanged(s) && Unfit(s, e)
    ensures fit ==> Extends(Deserialize(e.command).value, s.guards, s.shards, old(s.configs), s.configs)
    ensures fit ==> (s.fatal <==> Violates(old(s.lastApplyIndex), e.index))
    ensures fit && !s.fatal ==> s.lastApplyIndex == e.index
    ensures s.guards.g8 && s.guards.g9 && !IsMove(e) && Balanced(old(s.Last()).gid2shards) ==>
      Balanced(s.Last().gid2shards)
  {
    var op := DeserializeArgs(e.command);
    if op.None? {
      return false;
    }
    fit := IsFit(s, op.value);
    if fit {
      var _ := s.Apply(op.value, e.index, e.term, false);
    }
  }

  /** The first served entries are done; the history was configs0, the last index first, and the load balanced or not
      as level0 says. */
  ghost predicate Serving(s: ShardCtrler, entries: seq<LogEntry>, served: nat, configs0: seq<Config>, first: nat,
                          level0: bool)
    reads s
  {
    && s.Valid() && configs0 <= s.configs
    && served <= |entries| && Explained(entries[..served], s.guards, s.shards, configs0, s.configs)
    && Ran(entries, served, first, s.lastApplyIndex, s.fatal, level0, Level(s))
  }

  method ServeNext(s: ShardCtrler, entries: seq<LogEntry>, served: nat, ghost configs0: seq<Config>, ghost first: nat,
                   ghost level0: bool)
    returns (fit: bool)
    requires Serving(s, entries, served, configs0, first, level0) && served < |entries| && !s.fatal && s.guards.g7
    modifies s
    ensures fit ==> Serving(s, entries, served + 1, configs0, first, level0)
    ensures !fit ==> unchanged(s) && Unfit(s, entries[served])
  {
    ghost var last, level, mid := s.lastApplyIndex, Level(s), s.configs;
    fit := ServeOne(s, entries[served]);
    if fit {
      ExplainedOne(entries, served, s.guards, s.shards, configs0, mid, s.configs);
      RanOne(entries, served, first, last, level0, level, s.lastApplyIndex, s.fatal, Level(s));
      Longer(Deserialize(entries[served].command).value, s.guards, s.shards, configs0, mid, s.configs);
    }
  }

  lemma Longer(op: Op, guards: Guards, shards: nat, configs0: seq<Config>, mid: seq<Config>, after: seq<Config>)
    requires configs0 <= mid && Extends(op, guards, shards, mid, after)
    ensures configs0 <= after
  {
  }

  /** A whole run of entries. It ends at an entry that is unfit, at the stop on "Violation of linear consistency!",
      which comes exactly on a gap in the indices, or when all are served. With G7 both indexes of every configuration
      agree throughout, and older configurations never change; with G8 and G9 and without moves the load stays
      balanced. */
  method Serve(s: ShardCtrler, entries: seq<LogEntry>) returns (served: nat)
    requires s.Valid() && !s.fatal && s.guards.g7
    modifies s
    ensures Serving(s, entries, served, old(s.configs), old(s.lastApplyIndex), old(Level(s)))
    ensures !s.fatal && served < |entries| ==> Unfit(s, entries[served])
  {
    ghost var configs0, first, level0 := s.configs, s.lastApplyIndex, Level(s);
    served := 0;
    var fit := true;
    while served < |entries| && fit && !s.fatal
      invariant Serving(s, entries, served, configs0, first, level0)
      invariant !fit ==> !s.fatal && served < |entries| && Unfit(s, entries[served])
      decreases |entries| - served, if fit then 1 else 0
    {
      fit := ServeNext(s, entries, served, configs0, first, level0);
      if fit {
        served := served + 1;
      }
    }
  }

  // ----- the stop -----

  /** In every run of Raft whose restarts lose nothing, on every server: after the entries before it, no applied entry
      violates the check, whatever the handlers did. */
  lemma NeverViolates(c: RaftCluster.Config, steps: seq<RaftCluster.Step>, st: RaftCluster.Cluster, h: Host, k: nat)
    requires RaftCluster.ValidConfig(c) && |c.members| % 2 == 1 && RaftCluster.IsRun(c, steps, false, st)
    requires h in c.members && h in st.servers && k < |st.servers[h].applied|
    ensures var applied := st.servers[h].applied;
      !Violates(if k == 0 then 0 else applied[k - 1].index, applied[k].index)
  {
    RaftSafety.AppliedInOrder(c, steps, st, h);
  }

  /** A new controller, with any guards or none, that is given entries without a gap. left says what the handlers make
      of the history, entry by entry, and may be anything. It never stops on the index check. */
  method ServeAll(s: ShardCtrler, entries: seq<LogEntry>, left: seq<seq<Config>>)
    requires |left| == |entries| && !s.fatal && Continuing(entries, s.lastApplyIndex)
    modifies s
    ensures !s.fatal && s.lastApplyIndex == old(s.lastApplyIndex) + |entries|
    ensures entries != [] ==> s.configs == left[|left| - 1] && s.lastApplyTerm == entries[|entries| - 1].term
  {
    for k := 0 to |entries|
      invariant !s.fatal && s.lastApplyIndex == old(s.lastApplyIndex) + k
      invariant k > 0 ==> s.configs == left[k - 1] && s.lastApplyTerm == entries[k - 1].term
    {
      s.configs := left[k];
      s.CheckIndex(entries[k].index, entries[k].term);
    }
  }

  /** On every server, in every run of Raft whose restarts lose nothing, that holds for everything Raft applied
      there. */
  method ServeApplied(ghost c: RaftCluster.Config, ghost steps: seq<RaftCluster.Step>, ghost st: RaftCluster.Cluster,
                      ghost h: Host, s: ShardCtrler, entries: seq<LogEntry>, left: seq<seq<Config>>)
    requires RaftCluster.ValidConfig(c) && |c.members| % 2 == 1 && RaftCluster.IsRun(c, steps, false, st)
    requires h in c.members && h in st.servers && entries == st.servers[h].applied
    requires |left| == |entries| && !s.fatal && s.lastApplyIndex == 0
    modifies s
    ensures !s.fatal && s.lastApplyIndex == |entries|
    ensures entries != [] ==> s.configs == left[|left| - 1] && s.lastApplyTerm == entries[|entries| - 1].term
  {
    RaftSafety.AppliedInOrder(c, steps, st, h);
    ServeAll(s, entries, left);
  }
}
