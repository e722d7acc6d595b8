/** Shard configurations: one assignment of shards to groups, held as two indexes. */
module ShardConfig {
  import opened RaftTypes

  /** Group ids are 32-bit integers. */
  type GID = g: int | -0x8000_0000 <= g < 0x8000_0000

  const INVALID_GID: GID := -1
  const LATEST_CONFIG_NUM: int := -1

  type Groups = map<GID, set<nat>>

  datatype Config = Config(configNum: nat, shard2gid: seq<GID>, gid2shards: Groups, groupHosts: map<GID, seq<Host>>)

  /** The shards of a group are those whose owner it is. */
  ghost predicate Owned(owner: seq<GID>, shards: set<nat>, g: GID) {
    forall s: nat {:trigger s in shards} :: s in shards <==> s < |owner| && owner[s] == g
  }

  /** s is in gid2shards[g] if and only if shard2gid[s] is g. */
  ghost predicate Agree(owner: seq<GID>, groups: Groups) {
    forall g {:trigger Owned(owner, groups[g], g)} :: g in groups ==> Owned(owner, groups[g], g)
  }

  /** Every shard has a group if there is one, and INVALID_GID if there is none. */
  predicate Complete(owner: seq<GID>, groups: Groups) {
    if groups.Keys == {} then forall s :: 0 <= s < |owner| ==> owner[s] == INVALID_GID
    else forall s :: 0 <= s < |owner| ==> owner[s] in groups
  }

  ghost predicate Consistent(owner: seq<GID>, groups: Groups) {
    INVALID_GID !in groups && Agree(owner, groups) && Complete(owner, groups)
  }

  /** The sets are those of an assignment that may leave shards out. */
  ghost predicate Placed(placed: seq<GID>, groups: Groups) {
    INVALID_GID !in groups && Agree(placed, groups)
  }

  ghost predicate ValidConfig(c: Config, shards: nat) {
    && |c.shard2gid| == shards
    && Consistent(c.shard2gid, c.gid2shards)
    && c.groupHosts.Keys == c.gid2shards.Keys
  }

  /** Group sizes differ by at most one. */
  ghost predicate Balanced(groups: Groups) {
    forall g, h {:trigger Within(groups, g, h)} :: Within(groups, g, h)
  }

  ghost predicate Within(groups: Groups, g: GID, h: GID) {
    g in groups && h in groups ==> |groups[g]| <= |groups[h]| + 1
  }

  /** Each surviving group kept all it had, or only lost some: none both gives and receives. */
  ghost predicate OneWay(before: Groups, after: Groups) {
    forall g {:trigger after[g]} :: g in before && g in after ==> before[g] <= after[g] || after[g] <= before[g]
  }

  /** The shards 0, 1, ..., n - 1. */
  function AllShards(n: nat): (r: set<nat>)
    ensures |r| == n && forall s: nat :: s in r <==> s < n
  {
    if n == 0 then {} else AllShards(n - 1) + {n - 1}
  }

  /** What a consistent configuration means: the groups' sets are disjoint and together hold every shard once. */
  lemma ShardsPartitioned(owner: seq<GID>, groups: Groups)
    requires Consistent(owner, groups) && groups.Keys != {}
    ensures forall g, h :: g in groups && h in groups && g != h ==> groups[g] !! groups[h]
    ensures Union(groups, groups.Keys) == AllShards(|owner|)
    ensures Total(groups, groups.Keys) == |owner|
  {
    forall s: nat | s in AllShards(|owner|) ensures s in Union(groups, groups.Keys) {
      var g := owner[s];
      assert Owned(owner, groups[g], g);
      UnionMember(groups, groups.Keys, s);
    }
    forall s: nat | s in Union(groups, groups.Keys) ensures s in AllShards(|owner|) {
      UnionMember(groups, groups.Keys, s);
      var g: GID :| g in groups && s in groups[g];
      assert Owned(owner, groups[g], g);
    }
    forall g, h | g in groups && h in groups && g != h ensures groups[g] !! groups[h] {
      assert Owned(owner, groups[g], g) && Owned(owner, groups[h], h);
    }
    TotalIsUnion(groups, groups.Keys);
  }

  ghost function AnyOf(gs: set<GID>): (g: GID)
    requires gs != {}
    ensures g in gs
  {
    var g :| g in gs; g
  }

  /** The number of shards in the groups gs, and the set of them. */
  ghost function Total(groups: Groups, gs: set<GID>): nat
    requires gs <= groups.Keys
  {
    if gs == {} then 0 else |groups[AnyOf(gs)]| + Total(groups, gs - {AnyOf(gs)})
  }

  ghost function Union(groups: Groups, gs: set<GID>): set<nat>
    requires gs <= groups.Keys
  {
    if gs == {} then {} else groups[AnyOf(gs)] + Union(groups, gs - {AnyOf(gs)})
  }

  lemma {:induction false} UnionMember(groups: Groups, gs: set<GID>, s: nat)
    requires gs <= groups.Keys
    ensures s in Union(groups, gs) <==> exists g: GID :: g in gs && s in groups[g]
  {
    if gs != {} {
      UnionMember(groups, gs - {AnyOf(gs)}, s);
    }
  }

  lemma {:induction false} TotalIsUnion(groups: Groups, gs: set<GID>)
    requires gs <= groups.Keys
    requires forall g, h :: g in groups && h in groups && g != h ==> groups[g] !! groups[h]
    ensures Total(groups, gs) == |Union(groups, gs)|
  {
    if gs != {} {
      var g := AnyOf(gs);
      var rest := Union(groups, gs - {g});
      TotalIsUnion(groups, gs - {g});
      forall s | s in groups[g] ensures s !in rest {
        UnionMember(groups, gs - {g}, s);
      }
      assert |groups[g] + rest| == |groups[g]| + |rest|;
    }
  }

  // ----- single moves -----

  /** Shard s goes from group a to group b, in both indexes. */
  function MoveOwner(owner: seq<GID>, s: nat, b: GID): seq<GID>
    requires s < |owner|
  {
    owner[s := b]
  }

  function MoveShard(groups: Groups, s: nat, a: GID, b: GID): Groups
    requires a in groups && b in groups
  {
    var taken := groups[a := groups[a] - {s}];
    taken[b := taken[b] + {s}]
  }

  lemma MoveKeepsPlaced(owner: seq<GID>, groups: Groups, s: nat, b: GID)
    requires Placed(owner, groups) && s < |owner| && owner[s] in groups && b in groups
    ensures Placed(MoveOwner(owner, s, b), MoveShard(groups, s, owner[s], b))
    ensures MoveShard(groups, s, owner[s], b).Keys == groups.Keys
  {
    var owner', groups' := MoveOwner(owner, s, b), MoveShard(groups, s, owner[s], b);
    forall g | g in groups' ensures Owned(owner', groups'[g], g) {
      assert Owned(owner, groups[g], g);
    }
  }

  lemma MoveKeepsConsistent(owner: seq<GID>, groups: Groups, s: nat, b: GID)
    requires Consistent(owner, groups) && s < |owner| && b in groups
    ensures owner[s] in groups
    ensures Consistent(MoveOwner(owner, s, b), MoveShard(groups, s, owner[s], b))
    ensures MoveShard(groups, s, owner[s], b).Keys == groups.Keys
  {
    assert owner[s] in groups;
    MoveKeepsPlaced(owner, groups, s, b);
  }
}
