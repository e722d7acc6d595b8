/** The shard controller: a growing history of configurations, changed by join, leave and move.
    src/shardkv/ShardCtrler.cpp:43-52, 87-303. */
module ShardCtrler {
  import opened RaftTypes
  import opened ShardConfig
  import opened ShardBalance
  import opened ShardJoin
  import opened ShardLeave

  /** G7: the rebalancing loop also writes shard2gid. G8: the re-sorting loops advance their index. G9: leave's queue
      puts the least loaded group on top. The source has none of the three. */
  datatype Guards = Guards(g7: bool, g8: bool, g9: bool)

  datatype ErrorCode = SUCCEED | ERR_NO_SUCH_SHARD_CONFIG

  datatype Op = Join(servers: Joining) | Leave(gids: seq<GID>) | Move(shard: nat, gid: GID) | Query(configNum: int)

  datatype Reply = Reply(code: ErrorCode, config: Option<Config>)

  /** What a join needs: some group afterwards, and no group named -1. */
  predicate Joinable(c: Config, join: Joining) {
    AddGroups(c.gid2shards, join).Keys != {} && INVALID_GID !in join
  }

  /** The shards of groups that join again. */
  function Lost(c: Config, join: Joining): set<nat> {
    set s: nat | s < |c.shard2gid| && c.shard2gid[s] in join
  }

  /** The assignment that the sets describe after the groups have joined. */
  function PlacedAfter(owner: seq<GID>, join: Joining): (r: seq<GID>)
    ensures |r| == |owner|
  {
    seq(|owner|, s requires 0 <= s < |owner| => if owner[s] in join then INVALID_GID else owner[s])
  }

  /** The sizes are within one of each other before the rebalancing loop starts. */
  ghost predicate StartsLevel(c: Config, join: Joining) {
    c.gid2shards.Keys == {} || Balanced(AddGroups(c.gid2shards, join))
  }

  function OrphansOf(c: Config, gids: set<GID>): set<nat> {
    set s: nat | s < |c.shard2gid| && c.shard2gid[s] in c.gid2shards && c.shard2gid[s] in gids
  }

  function ShardsOf(groups: Groups, g: GID): set<nat> {
    if g in groups then groups[g] else {}
  }

  /** The erase and the insert of handleMove; operator[] creates the groups that are missing. */
  function MoveAny(groups: Groups, s: nat, a: GID, b: GID): Groups {
    var taken := groups[a := ShardsOf(groups, a) - {s}];
    taken[b := ShardsOf(taken, b) + {s}]
  }

  /** A move keeps the configuration valid if and only if it goes to a group that has joined. */
  lemma MoveNeedsMember(c: Config, shards: nat, s: nat, b: GID)
    requires ValidConfig(c, shards) && s < shards
    ensures var c' := c.(configNum := c.configNum + 1, shard2gid := c.shard2gid[s := b],
                        gid2shards := MoveAny(c.gid2shards, s, c.shard2gid[s], b));
      ValidConfig(c', shards) <==> b in c.gid2shards
  {
    if b in c.gid2shards {
      MoveKeepsConsistent(c.shard2gid, c.gid2shards, s, b);
      assert MoveAny(c.gid2shards, s, c.shard2gid[s], b) == MoveShard(c.gid2shards, s, c.shard2gid[s], b);
    } else {
      assert b in MoveAny(c.gid2shards, s, c.shard2gid[s], b).Keys;
    }
  }

  /** Sizes within one of each other, read off the ends of the sorted list. */
  lemma EndsSayLevel(info: seq<GInfo>, groups: Groups)
    requires InfoOk(info, groups) && info != [] && SortedInfo(info, 0, |info|)
    ensures info[|info| - 1].shardCnt <= info[0].shardCnt + 1 <==> Balanced(groups)
  {
    if info[|info| - 1].shardCnt <= info[0].shardCnt + 1 {
      EndsMeetBalanced(info, groups);
    } else {
      InfoEntry(info, groups, 0);
      InfoEntry(info, groups, |info| - 1);
      assert !Within(groups, info[|info| - 1].gid, info[0].gid);
    }
  }

  /** The sets leave no choice for the assignment. */
  lemma OneAssignment(a: seq<GID>, b: seq<GID>, groups: Groups)
    requires Consistent(a, groups) && Consistent(b, groups) && |a| == |b| && groups.Keys != {}
    ensures a == b
  {
    forall s: nat | s < |a| ensures a[s] == b[s] {
      assert Owned(a, groups[a[s]], a[s]) && Owned(b, groups[a[s]], a[s]);
      assert s in groups[a[s]];
    }
  }

  lemma JoinPlaces(c: Config, shards: nat, join: Joining)
    requires ValidConfig(c, shards) && Joinable(c, join) && c.gid2shards.Keys != {}
    ensures Placed(PlacedAfter(c.shard2gid, join), AddGroups(c.gid2shards, join))
    ensures Lost(c, join) == {} <==> forall g :: g in join && g in c.gid2shards ==> c.gid2shards[g] == {}
  {
    var owner, placed, groups := c.shard2gid, PlacedAfter(c.shard2gid, join), AddGroups(c.gid2shards, join);
    forall g | g in groups ensures Owned(placed, groups[g], g) {
      assert g in c.gid2shards ==> Owned(owner, c.gid2shards[g], g);
      assert g !in c.gid2shards ==> g !in owner;
    }
    if Lost(c, join) == {} {
      forall g | g in join && g in c.gid2shards ensures c.gid2shards[g] == {} {
        assert Owned(owner, c.gid2shards[g], g);
        assert forall s :: s in c.gid2shards[g] ==> s in Lost(c, join);
      }
    } else {
      var s :| s in Lost(c, join);
      assert Owned(owner, c.gid2shards[owner[s]], owner[s]) && s in c.gid2shards[owner[s]];
    }
  }

  /** What handleJoin makes of the last configuration. */
  ghost predicate Joined(c: Config, join: Joining, guards: Guards, shards: nat, c': Config) {
    && c'.configNum == c.configNum + 1 && c'.groupHosts == c.groupHosts + join
    && c'.gid2shards.Keys == c.gid2shards.Keys + join.Keys
    && (ValidConfig(c', shards) <==> Lost(c, join) == {} && (guards.g7 || StartsLevel(c, join)))
    && (guards.g8 ==> Balanced(c'.gid2shards) && OneWay(AddGroups(c.gid2shards, join), c'.gid2shards))
    && Describable(c'.gid2shards, shards, Lost(c, join))
    && (c.gid2shards.Keys == {} ==> DealtInTurn(c'.shard2gid, join.Keys))
  }

  /** The sets alone still give every shard exactly one group, but for those left out, which have none. */
  ghost predicate Describable(groups: Groups, shards: nat, out: set<nat>) {
    exists placed: seq<GID> :: |placed| == shards && Placed(placed, groups) && LeavesOut(placed, groups, out)
  }

  ghost predicate LeavesOut(placed: seq<GID>, groups: Groups, out: set<nat>) {
    forall s: nat {:trigger s in out} :: s < |placed| ==> (placed[s] in groups <==> s !in out)
  }

  /** What handleLeave makes of it. */
  ghost predicate Left(c: Config, gids: set<GID>, guards: Guards, shards: nat, c': Config) {
    var survivors, orphans := c.gid2shards - gids, OrphansOf(c, gids);
    && c'.configNum == c.configNum + 1 && c'.groupHosts == c.groupHosts - gids
    && ValidConfig(c', shards) && c'.gid2shards.Keys == survivors.Keys
    && (survivors.Keys != {} ==> Kept(c.shard2gid, survivors, orphans, c'.shard2gid, c'.gid2shards))
    && (guards.g9 && Balanced(c.gid2shards) ==> Balanced(c'.gid2shards))
    && (!guards.g9 && survivors.Keys != {} ==> exists t: GID :: AllTo(t, survivors, c'.gid2shards, orphans))
  }

  /** What handleMove makes of it: the shard goes from its old group to the new one, in both indexes. */
  ghost predicate Reassigned(c: Config, shard: nat, gid: GID, c': Config)
    requires shard < |c.shard2gid|
  {
    && c'.configNum == c.configNum + 1 && c'.groupHosts == c.groupHosts
    && c'.shard2gid == c.shard2gid[shard := gid]
    && c'.gid2shards.Keys == c.gid2shards.Keys + {c.shard2gid[shard], gid}
    && forall g {:trigger c'.gid2shards[g]} :: g in c'.gid2shards ==>
         c'.gid2shards[g] == if g == gid then ShardsOf(c.gid2shards, g) + {shard}
                             else if g == c.shard2gid[shard] then ShardsOf(c.gid2shards, g) - {shard}
                             else c.gid2shards[g]
  }

  /** Lines 174-208: list the sizes, sort them and rebalance. */
  method BalanceLoad(gids: seq<GID>, owner0: seq<GID>, groups0: Groups, ghost placed0: seq<GID>, guards: Guards)
    returns (owner: seq<GID>, groups: Groups, ghost placed: seq<GID>)
    requires Placed(placed0, groups0) && Follow(owner0, placed0, groups0, owner0, placed0)
    requires groups0.Keys != {} && InOrder(gids, groups0.Keys)
    ensures groups.Keys == groups0.Keys && Placed(placed, groups) && Follow(placed0, placed0, groups0, placed, placed)
    ensures if guards.g7 then Follow(owner0, placed0, groups0, owner, placed) else owner == owner0
    ensures guards.g8 ==> Balanced(groups) && OneWay(groups0, groups)
    ensures placed == placed0 <==> Balanced(groups0)
  {
    ghost var g :| g in groups0;
    assert g in gids;
    var info := InfoOf(gids, groups0);
    info := Sort(info);
    EndsSayLevel(info, groups0);
    ghost var turns;
    owner, groups, info, placed, turns := Rebalance(owner0, groups0, info, placed0, guards.g7, guards.g8);
  }

  lemma FirstJoin(c: Config, join: Joining, gids: seq<GID>)
    requires Joinable(c, join) && c.gid2shards.Keys == {} && InOrder(gids, AddGroups(c.gid2shards, join).Keys)
    ensures var groups := AddGroups(c.gid2shards, join);
      groups.Keys == join.Keys && INVALID_GID !in groups && gids != [] && forall g :: g in groups ==> groups[g] == {}
  {
    var groups := AddGroups(c.gid2shards, join);
    var g :| g in groups;
    assert g in gids;
  }

  /** The state after lines 151-172: the groups are in, and have the shards in turn if they are the first. */
  ghost predicate Entered(c: Config, join: Joining, shards: nat, owner: seq<GID>, groups: Groups, placed: seq<GID>) {
    && |owner| == |placed| == shards && groups.Keys == c.gid2shards.Keys + join.Keys
    && Placed(placed, groups) && Follow(owner, placed, groups, owner, placed)
    && LeavesOut(placed, groups, Lost(c, join)) && Complete(owner, groups)
    && if c.gid2shards.Keys == {} then placed == owner && Balanced(groups) && DealtInTurn(owner, join.Keys)
                                       && OneWay(AddGroups(c.gid2shards, join), groups)
       else groups == AddGroups(c.gid2shards, join)
  }

  lemma EnteredLater(c: Config, join: Joining, shards: nat)
    requires ValidConfig(c, shards) && Joinable(c, join) && c.gid2shards.Keys != {}
    ensures Entered(c, join, shards, c.shard2gid, AddGroups(c.gid2shards, join), PlacedAfter(c.shard2gid, join))
  {
    JoinPlaces(c, shards, join);
  }

  lemma EnteredFirst(c: Config, join: Joining, shards: nat, owner: seq<GID>, groups: Groups)
    requires ValidConfig(c, shards) && Joinable(c, join) && c.gid2shards.Keys == {}
    requires |owner| == shards && groups.Keys == join.Keys && DealtInTurn(owner, groups.Keys)
    requires Consistent(owner, groups) && Balanced(groups)
    ensures Entered(c, join, shards, owner, groups, owner)
  {
    assert forall s: nat :: s < |c.shard2gid| ==> c.shard2gid[s] == INVALID_GID;
    assert Lost(c, join) == {};
  }

  /** Lines 151-172. */
  method Enter(c: Config, join: Joining, shards: nat)
    returns (gids: seq<GID>, owner: seq<GID>, groups: Groups, hosts: map<GID, seq<Host>>, ghost placed: seq<GID>)
    requires ValidConfig(c, shards) && Joinable(c, join)
    ensures Entered(c, join, shards, owner, groups, placed)
    ensures InOrder(gids, groups.Keys) && hosts == c.groupHosts + join
  {
    var noGroup := c.gid2shards.Keys == {};
    groups, hosts := JoinGroups(c.gid2shards, c.groupHosts, join);
    owner := c.shard2gid;
    gids := GidsInOrder(groups.Keys);
    if noGroup {
      FirstJoin(c, join, gids);
      owner, groups := RoundRobin(gids, owner, groups);
      placed := owner;
      EnteredFirst(c, join, shards, owner, groups);
    } else {
      placed := PlacedAfter(owner, join);
      EnteredLater(c, join, shards);
    }
  }

  /** Lines 145-208: the configuration that handleJoin appends. */
  method JoinConfig(c: Config, join: Joining, guards: Guards, shards: nat) returns (newConfig: Config)
    requires ValidConfig(c, shards) && Joinable(c, join)
    ensures Joined(c, join, guards, shards, newConfig)
  {
    newConfig := c.(configNum := c.configNum + 1);
    var gids, owner, groups, hosts, placed := Enter(newConfig, join, shards);
    var owner', groups', placed' := BalanceLoad(gids, owner, groups, placed, guards);
    newConfig := newConfig.(shard2gid := owner', gid2shards := groups', groupHosts := hosts);
    JoinedFacts(c, join, guards, shards, owner, groups, placed, owner', groups', placed', newConfig);
  }

  /** Lines 235-237: with no group left, the orphans belong to nobody. */
  method Unassign(owner0: seq<GID>, orphans: set<nat>) returns (owner: seq<GID>)
    requires forall s {:trigger s in orphans} :: s in orphans ==> s < |owner0|
    ensures |owner| == |owner0|
    ensures forall s {:trigger owner[s]} :: 0 <= s < |owner| ==>
      owner[s] == if s in orphans then INVALID_GID else owner0[s]
  {
    owner := owner0;
    var rest := orphans;
    while rest != {}
      invariant rest <= orphans && |owner| == |owner0|
      invariant forall s {:trigger owner[s]} :: 0 <= s < |owner| ==>
        owner[s] == if s in orphans && s !in rest then INVALID_GID else owner0[s]
      decreases |rest|
    {
      var s :| s in rest;
      owner, rest := owner[s := INVALID_GID], rest - {s};
    }
  }

  /** What a join, leave or move makes of the last configuration. */
  ghost predicate Changed(op: Op, c: Config, guards: Guards, shards: nat, c': Config) {
    match op
    case Join(servers) => Joined(c, servers, guards, shards, c')
    case Leave(gids) => Left(c, GidSet(gids), guards, shards, c')
    case Move(shard, gid) => shard < |c.shard2gid| && Reassigned(c, shard, gid, c')
    case Query(_) => false
  }

  /** What a request makes of the whole history. */
  ghost predicate Extends(op: Op, guards: Guards, shards: nat, before: seq<Config>, after: seq<Config>) {
    if op.Query? then after == before
    else
      && before != [] && |after| == |before| + 1 && after[..|before|] == before
      && Changed(op, before[|before| - 1], guards, shards, after[|before|])
  }

  /** A query of a waiting client gets the configuration with the number it asked for, or the last one, or the error
      past the end; every other request just succeeds. */
  predicate Answered(op: Op, waiting: bool, configs: seq<Config>, r: Reply)
    requires configs != []
  {
    if !op.Query? || !waiting then r == Reply(SUCCEED, None)
    else if op.configNum >= |configs| then r == Reply(ERR_NO_SUCH_SHARD_CONFIG, None)
    else if op.configNum == LATEST_CONFIG_NUM then r == Reply(SUCCEED, Some(configs[|configs| - 1]))
    else op.configNum >= 0 && r == Reply(SUCCEED, Some(configs[op.configNum]))
  }

  /** The stop on "Violation of linear consistency!": it depends on the two indices and on nothing else. */
  predicate Violates(lastApplyIndex: nat, commandIndex: nat) {
    lastApplyIndex + 1 != commandIndex
  }

  class ShardCtrler {
    const guards: Guards
    const shards: nat
    var configs: seq<Config>
    var lastApplyIndex: nat
    var lastApplyTerm: nat
    var fatal: bool

    /** Configuration k has number k, and both of its indexes describe one assignment. */
    ghost predicate Valid()
      reads this
    {
      configs != [] && forall k {:trigger configs[k]} :: 0 <= k < |configs| ==>
        configs[k].configNum == k && ValidConfig(configs[k], shards)
    }

    function Last(): Config
      reads this
      requires configs != []
    {
      configs[|configs| - 1]
    }

    constructor (shards: nat, guards: Guards)
      ensures this.shards == shards && this.guards == guards
      ensures Valid() && |configs| == 1 && Last().gid2shards == map[]
      ensures lastApplyIndex == 0 && lastApplyTerm == 0 && !fatal
    {
      this.shards, this.guards := shards, guards;
      configs := [Config(0, seq(shards, _ => INVALID_GID), map[], map[])];
      lastApplyIndex, lastApplyTerm, fatal := 0, 0, false;
    }

    method Push(c: Config)
      requires Valid() && c.configNum == |configs|
      modifies this`configs
      ensures configs == old(configs) + [c]
      ensures Valid() <==> ValidConfig(c, shards)
    {
      configs := configs + [c];
      assert configs[|configs| - 1] == c;
    }

    method HandleJoin(join: Joining) returns (r: Reply)
      requires Valid() && Joinable(Last(), join)
      modifies this`configs
      ensures |configs| == |old(configs)| + 1 && configs[..|configs| - 1] == old(configs)
      ensures Joined(old(Last()), join, guards, shards, Last())
      ensures Valid() <==> Lost(old(Last()), join) == {} && (guards.g7 || StartsLevel(old(Last()), join))
      ensures r == Reply(SUCCEED, None)
    {
      var newConfig := JoinConfig(configs[|configs| - 1], join, guards, shards);
      Push(newConfig);
      r := Reply(SUCCEED, None);
    }

    method HandleLeave(gids: seq<GID>) returns (r: Reply)
      requires Valid()
      modifies this`configs
      ensures |configs| == |old(configs)| + 1 && configs[..|configs| - 1] == old(configs)
      ensures Left(old(Last()), GidSet(gids), guards, shards, Last())
      ensures Valid()
      ensures r == Reply(SUCCEED, None)
    {
      ghost var c := Last();
      var newConfig := configs[|configs| - 1];
      newConfig := newConfig.(configNum := newConfig.configNum + 1);
      assert c == configs[|configs| - 1];

      var owner := newConfig.shard2gid;
      var groups, hosts, orphans := TakeGroups(newConfig.gid2shards, newConfig.groupHosts, gids, owner);
      assert orphans == OrphansOf(c, GidSet(gids));
      if groups.Keys == {} {
        owner := Unassign(owner, orphans);
        newConfig := newConfig.(shard2gid := owner, gid2shards := groups, groupHosts := hosts);
        LeftNobody(c, GidSet(gids), guards, shards, newConfig);
      } else {
        SurvivorsWait(owner, c.gid2shards, GidSet(gids), orphans);
        ghost var t := LastGid(groups);
        ghost var survivors := groups;
        owner, groups := HandOut(owner, groups, orphans, guards.g9, t);
        newConfig := newConfig.(shard2gid := owner, gid2shards := groups, groupHosts := hosts);
        LeftFacts(c, GidSet(gids), guards, shards, t, newConfig);
      }
      Push(newConfig);
      r := Reply(SUCCEED, None);
    }

    method HandleMove(shard: nat, gid: GID) returns (r: Reply)
      requires Valid() && shard < shards
      modifies this`configs
      ensures |configs| == |old(configs)| + 1 && configs[..|configs| - 1] == old(configs)
      ensures Reassigned(old(Last()), shard, gid, Last())
      ensures Valid() <==> gid in old(Last()).gid2shards
      ensures r == Reply(SUCCEED, None)
    {
      var newConfig := configs[|configs| - 1];
      var oldGid := newConfig.shard2gid[shard];
      MoveNeedsMember(newConfig, shards, shard, gid);
      newConfig := newConfig.(configNum := newConfig.configNum + 1, shard2gid := newConfig.shard2gid[shard := gid],
                              gid2shards := MoveAny(newConfig.gid2shards, shard, oldGid, gid));
      Push(newConfig);
      r := Reply(SUCCEED, None);
    }

    /** A query is answered only on the server where a client waits for it. A number below -1 reads outside the
        history. */
    method HandleQuery(configNum: int, waiting: bool) returns (r: Reply, outside: bool)
      requires Valid()
      ensures outside <==> waiting && configNum < LATEST_CONFIG_NUM
      ensures r.config.Some? <==> waiting && LATEST_CONFIG_NUM <= configNum < |configs|
      ensures r.code == ERR_NO_SUCH_SHARD_CONFIG <==> waiting && configNum >= |configs|
      ensures r.config.Some? ==> r.config.value in configs
      ensures r.config.Some? ==>
        r.config.value.configNum == if configNum == LATEST_CONFIG_NUM then |configs| - 1 else configNum
      ensures outside || Answered(Query(configNum), waiting, configs, r)
    {
      r, outside := Reply(SUCCEED, None), false;
      if !waiting {
        return;
      }
      if configNum != LATEST_CONFIG_NUM && configNum >= |configs| {
        r := Reply(ERR_NO_SUCH_SHARD_CONFIG, None);
      } else if configNum < LATEST_CONFIG_NUM {
        outside := true;
      } else {
        var wanted := if configNum == LATEST_CONFIG_NUM then |configs| - 1 else configNum;
        r := Reply(SUCCEED, Some(configs[wanted]));
      }
    }

    /** The requests on which the handlers do not read outside their tables. */
    predicate Servable(op: Op)
      reads this
      requires configs != []
    {
      match op
      case Join(servers) => Joinable(Last(), servers)
      case Leave(_) => true
      case Move(shard, gid) => shard < shards
      case Query(configNum) => configNum >= LATEST_CONFIG_NUM
    }

    /** The requests after which both indexes still agree. */
    ghost predicate Keeping(op: Op)
      reads this
      requires configs != []
    {
      match op
      case Join(servers) => Lost(Last(), servers) == {} && (guards.g7 || StartsLevel(Last(), servers))
      case Move(shard, gid) => gid in Last().gid2shards
      case _ => true
    }

    /** The switch of apply. */
    method Dispatch(op: Op, waiting: bool) returns (r: Reply)
      requires Valid() && Servable(op)
      modifies this`configs
      ensures Extends(op, guards, shards, old(configs), configs) && Answered(op, waiting, configs, r)
      ensures Valid() <==> old(Keeping(op))
      ensures guards.g8 && guards.g9 && !op.Move? && Balanced(old(Last()).gid2shards) ==> Balanced(Last().gid2shards)
    {
      match op {
        case Join(servers) => r := HandleJoin(servers);
        case Leave(gids) => r := HandleLeave(gids);
        case Move(shard, gid) => r := HandleMove(shard, gid);
        case Query(configNum) =>
          var outside;
          r, outside := HandleQuery(configNum, waiting);
      }
    }

    /** One log entry: the handler runs, then the index is checked. */
    method Apply(op: Op, commandIndex: nat, commandTerm: nat, waiting: bool) returns (r: Reply)
      requires Valid() && Servable(op) && !fatal
      modifies this
      ensures Extends(op, guards, shards, old(configs), configs) && Answered(op, waiting, configs, r)
      ensures Valid() <==> old(Keeping(op))
      ensures guards.g8 && guards.g9 && !op.Move? && Balanced(old(Last()).gid2shards) ==> Balanced(Last().gid2shards)
      ensures fatal <==> Violates(old(lastApplyIndex), commandIndex)
      ensures !fatal ==> lastApplyIndex == commandIndex && lastApplyTerm == commandTerm
    {
      r := Dispatch(op, waiting);
      CheckIndex(commandIndex, commandTerm);
    }

    method CheckIndex(commandIndex: nat, commandTerm: nat)
      requires !fatal
      modifies this`fatal, this`lastApplyIndex, this`lastApplyTerm
      ensures fatal <==> Violates(old(lastApplyIndex), commandIndex)
      ensures !fatal ==> lastApplyIndex == commandIndex && lastApplyTerm == commandTerm
    {
      if Violates(lastApplyIndex, commandIndex) {
        fatal := true;
      } else {
        lastApplyIndex, lastApplyTerm := commandIndex, commandTerm;
      }
    }
  }

  /** Whether shard2gid and the sets agree in the end. */
  lemma JoinedAgreement(groups0: Groups, owner0: seq<GID>, placed0: seq<GID>, g7: bool, owner: seq<GID>, groups: Groups,
                        placed: seq<GID>, out: set<nat>)
    requires Placed(placed0, groups0) && Follow(owner0, placed0, groups0, owner0, placed0)
    requires LeavesOut(placed0, groups0, out) && Complete(owner0, groups0) && groups0.Keys != {}
    requires forall s :: s in out ==> s < |owner0|
    requires groups.Keys == groups0.Keys && Placed(placed, groups)
    requires Follow(placed0, placed0, groups0, placed, placed)
    requires if g7 then Follow(owner0, placed0, groups0, owner, placed) else owner == owner0
    ensures Consistent(owner, groups) <==> out == {} && (g7 || placed == placed0)
  {
    if out == {} {
      forall s: nat | s < |placed0|
        ensures placed0[s] == owner0[s] && placed[s] in groups && (g7 ==> owner[s] == placed[s])
      {
        assert s !in out;
      }
      assert placed0 == owner0 && Consistent(placed, groups);
      assert g7 ==> owner == placed;
      if Consistent(owner, groups) {
        OneAssignment(owner, placed, groups);
      }
    } else {
      var s :| s in out;
      assert placed0[s] !in groups && placed[s] == placed0[s] && owner[s] == owner0[s] && owner0[s] in groups;
      var g := owner[s];
      assert Owned(placed, groups[g], g) && s !in groups[g];
      assert Consistent(owner, groups) ==> Owned(owner, groups[g], g);
    }
  }

  lemma JoinedFacts(c: Config, join: Joining, guards: Guards, shards: nat, owner0: seq<GID>, groups0: Groups,
                    placed0: seq<GID>, owner: seq<GID>, groups: Groups, placed: seq<GID>, c': Config)
    requires ValidConfig(c, shards) && Joinable(c, join) && Entered(c, join, shards, owner0, groups0, placed0)
    requires groups.Keys == groups0.Keys && Placed(placed, groups)
    requires Follow(placed0, placed0, groups0, placed, placed)
    requires if guards.g7 then Follow(owner0, placed0, groups0, owner, placed) else owner == owner0
    requires guards.g8 ==> Balanced(groups) && OneWay(groups0, groups)
    requires placed == placed0 <==> Balanced(groups0)
    requires c' == Config(c.configNum + 1, owner, groups, c.groupHosts + join)
    ensures Joined(c, join, guards, shards, c')
  {
    JoinedAgreement(groups0, owner0, placed0, guards.g7, owner, groups, placed, Lost(c, join));
    if c.gid2shards.Keys == {} {
      assert Consistent(owner0, groups0);
      JoinedFirst(groups0, owner0, guards.g7, owner, placed);
    }
    assert LeavesOut(placed, groups, Lost(c, join));
  }

  /** The first groups stay as they were dealt, since they are level. */
  lemma JoinedFirst(groups0: Groups, owner0: seq<GID>, g7: bool, owner: seq<GID>, placed: seq<GID>)
    requires Complete(owner0, groups0) && groups0.Keys != {} && placed == owner0
    requires if g7 then Follow(owner0, owner0, groups0, owner, placed) else owner == owner0
    ensures owner == owner0
  {
  }

  lemma LeftNobody(c: Config, gids: set<GID>, guards: Guards, shards: nat, c': Config)
    requires ValidConfig(c, shards) && (c.gid2shards - gids).Keys == {}
    requires c' == Config(c.configNum + 1, c'.shard2gid, c.gid2shards - gids, c.groupHosts - gids)
    requires |c'.shard2gid| == shards
    requires forall s {:trigger c'.shard2gid[s]} :: 0 <= s < shards ==>
      c'.shard2gid[s] == if s in OrphansOf(c, gids) then INVALID_GID else c.shard2gid[s]
    ensures Left(c, gids, guards, shards, c')
  {
    forall s | 0 <= s < shards ensures c'.shard2gid[s] == INVALID_GID {
      assert c.shard2gid[s] in c.gid2shards ==> c.shard2gid[s] !in c.gid2shards - gids;
    }
  }

  lemma LeftFacts(c: Config, gids: set<GID>, guards: Guards, shards: nat, t: GID, c': Config)
    requires ValidConfig(c, shards) && (c.gid2shards - gids).Keys != {}
    requires Consistent(c'.shard2gid, c'.gid2shards)
    requires Kept(c.shard2gid, c.gid2shards - gids, OrphansOf(c, gids), c'.shard2gid, c'.gid2shards)
    requires guards.g9 && Balanced(c.gid2shards - gids) ==> Balanced(c'.gid2shards)
    requires !guards.g9 ==> AllTo(t, c.gid2shards - gids, c'.gid2shards, OrphansOf(c, gids))
    requires c'.configNum == c.configNum + 1 && c'.groupHosts == c.groupHosts - gids
    ensures Left(c, gids, guards, shards, c')
  {
    if Balanced(c.gid2shards) {
      forall g, h ensures Within(c.gid2shards - gids, g, h) {
        assert Within(c.gid2shards, g, h);
      }
    }
  }
}
