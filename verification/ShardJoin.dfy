/** The parts of handleJoin before the rebalancing loop: adding the groups, dealing the shards out when there were no
    groups, and listing the group sizes in ascending order. src/shardkv/ShardCtrler.cpp:143-184. */
module ShardJoin {
  import opened RaftTypes
  import opened ShardConfig
  import opened ShardBalance

  type Joining = map<GID, seq<Host>>

  /** Every joining group gets an empty set of shards, also if it was there before. */
  function AddGroups(groups: Groups, join: Joining): Groups {
    groups + map g | g in join :: {}
  }

  lemma AddOne(groups: Groups, hosts: Joining, done: Joining, g: GID, x: seq<Host>)
    ensures AddGroups(groups, done[g := x]) == AddGroups(groups, done)[g := {}]
    ensures hosts + done[g := x] == (hosts + done)[g := x]
  {
  }

  method JoinGroups(groups: Groups, hosts: map<GID, seq<Host>>, join: Joining)
    returns (groups': Groups, hosts': map<GID, seq<Host>>)
    ensures groups' == AddGroups(groups, join) && hosts' == hosts + join
  {
    groups', hosts' := groups, hosts;
    var rest := join.Keys;
    ghost var done: Joining := map[];
    while rest != {}
      invariant rest <= join.Keys && done.Keys == join.Keys - rest
      invariant forall g :: g in done ==> done[g] == join[g]
      invariant groups' == AddGroups(groups, done) && hosts' == hosts + done
      decreases |rest|
    {
      var g :| g in rest;
      AddOne(groups, hosts, done, g, join[g]);
      done, rest := done[g := join[g]], rest - {g};
      groups', hosts' := groups'[g := {}], hosts'[g := join[g]];
    }
    assert done == join;
  }

  /** Joining keeps the two indexes in agreement if and only if no group that still has shards joins again. */
  lemma JoinKeepsAgreement(owner: seq<GID>, groups: Groups, join: Joining)
    requires Consistent(owner, groups) && INVALID_GID !in join
    ensures Agree(owner, AddGroups(groups, join)) <==> forall g :: g in join && g in groups ==> groups[g] == {}
  {
    var groups' := AddGroups(groups, join);
    if Agree(owner, groups') {
      forall g | g in join && g in groups ensures groups[g] == {} {
        assert Owned(owner, groups[g], g) && Owned(owner, groups'[g], g);
      }
    }
    if forall g :: g in join && g in groups ==> groups[g] == {} {
      forall g | g in groups' ensures Owned(owner, groups'[g], g) {
        assert g in groups ==> Owned(owner, groups[g], g);
        assert g !in groups ==> g !in owner;
      }
    }
  }

  // ----- the order of a std::map -----

  ghost predicate InOrder(gids: seq<GID>, keys: set<GID>) {
    && (forall g :: g in keys <==> g in gids)
    && (forall j, k :: 0 <= j < k < |gids| ==> gids[j] < gids[k])
  }

  method LeastGid(keys: set<GID>) returns (least: GID)
    requires keys != {}
    ensures least in keys && forall g :: g in keys ==> least <= g
  {
    least :| least in keys;
    var rest := keys;
    while rest != {}
      invariant rest <= keys && least in keys
      invariant forall g :: g in keys ==> g in rest || least <= g
      decreases |rest|
    {
      var g :| g in rest;
      rest := rest - {g};
      least := if g < least then g else least;
    }
  }

  method GidsInOrder(keys: set<GID>) returns (gids: seq<GID>)
    ensures InOrder(gids, keys)
  {
    gids := [];
    var rest := keys;
    while rest != {}
      invariant forall g :: g in keys <==> g in gids || g in rest
      invariant forall j, k :: 0 <= j < k < |gids| ==> gids[j] < gids[k]
      invariant forall k, h :: 0 <= k < |gids| && h in rest ==> gids[k] < h
      decreases |rest|
    {
      var least := LeastGid(rest);
      gids, rest := gids + [least], rest - {least};
    }
  }

  // ----- dealing the shards out -----

  /** Shards 0, ..., sid - 1 have been dealt to the groups in turn. */
  ghost predicate Dealt(gids: seq<GID>, owner: seq<GID>, groups: Groups, sid: nat) {
    && sid <= |owner| && |gids| > 0
    && (forall s {:trigger owner[s]} :: 0 <= s < sid ==> owner[s] == gids[s % |gids|])
    && (forall g {:trigger Owned(owner[..sid], groups[g], g)} :: g in groups ==> Owned(owner[..sid], groups[g], g))
  }

  /** The first j groups have one shard more than the others. */
  ghost predicate Level(gids: seq<GID>, groups: Groups, c: nat, j: nat) {
    forall k {:trigger gids[k]} :: 0 <= k < |gids| ==>
      gids[k] in groups && |groups[gids[k]]| == c + if k < j then 1 else 0
  }

  lemma NextTurn(sid: nat, n: nat, j: nat)
    requires j < n && sid % n == j
    ensures (sid + 1) % n == if j + 1 < n then j + 1 else 0
  {
    var q := sid / n;
    assert sid + 1 == q * n + j + 1;
    if j + 1 < n {
      Remainder(sid + 1, n, q, j + 1);
    } else {
      assert q * n + n == (q + 1) * n;
      Remainder(sid + 1, n, q + 1, 0);
    }
  }

  lemma Remainder(a: nat, n: nat, q: nat, r: nat)
    requires r < n && a == q * n + r
    ensures a % n == r
  {
    var d := q - a / n;
    assert d >= 1 ==> d * n >= n;
    assert d <= -1 ==> d * n + n <= 0;
    assert d * n == a % n - r by {
      assert a == (a / n) * n + a % n;
      assert d * n == q * n - (a / n) * n;
    }
  }

  /** After c rounds and j more shards. */
  ghost predicate InTurn(gids: seq<GID>, keys: set<GID>, owner: seq<GID>, groups: Groups, sid: nat, c: nat, j: nat) {
    && groups.Keys == keys && Dealt(gids, owner, groups, sid) && Level(gids, groups, c, j)
    && j <= |gids| && sid % |gids| == if j < |gids| then j else 0
  }

  lemma DealtOne(gids: seq<GID>, owner: seq<GID>, groups: Groups, sid: nat, g: GID)
    requires Dealt(gids, owner, groups, sid) && sid < |owner| && g in groups && g == gids[sid % |gids|]
    ensures Dealt(gids, owner[sid := g], groups[g := groups[g] + {sid}], sid + 1) && sid !in groups[g]
  {
    var owner', groups' := owner[sid := g], groups[g := groups[g] + {sid}];
    assert owner'[..sid + 1] == owner[..sid] + [g];
    forall h | h in groups' ensures Owned(owner'[..sid + 1], groups'[h], h) {
      assert Owned(owner[..sid], groups[h], h);
    }
    assert Owned(owner[..sid], groups[g], g);
  }

  lemma LevelOne(gids: seq<GID>, keys: set<GID>, groups: Groups, c: nat, j: nat, sid: nat)
    requires Level(gids, groups, c, j) && InOrder(gids, keys) && j < |gids| && sid !in groups[gids[j]]
    ensures Level(gids, groups[gids[j] := groups[gids[j]] + {sid}], c, j + 1)
  {
  }

  lemma DealOne(gids: seq<GID>, keys: set<GID>, owner: seq<GID>, groups: Groups, sid: nat, c: nat, j: nat)
    requires InTurn(gids, keys, owner, groups, sid, c, j) && InOrder(gids, keys) && sid < |owner| && j < |gids|
    ensures gids[j] in groups
    ensures InTurn(gids, keys, owner[sid := gids[j]], groups[gids[j] := groups[gids[j]] + {sid}], sid + 1, c, j + 1)
  {
    DealtOne(gids, owner, groups, sid, gids[j]);
    LevelOne(gids, keys, groups, c, j, sid);
    NextTurn(sid, |gids|, j);
  }

  lemma RoundDone(gids: seq<GID>, keys: set<GID>, owner: seq<GID>, groups: Groups, sid: nat, c: nat)
    requires InTurn(gids, keys, owner, groups, sid, c, |gids|)
    ensures InTurn(gids, keys, owner, groups, sid, c + 1, 0)
  {
  }

  lemma DealtBalanced(gids: seq<GID>, owner: seq<GID>, groups: Groups, c: nat, j: nat)
    requires Dealt(gids, owner, groups, |owner|) && Level(gids, groups, c, j) && InOrder(gids, groups.Keys)
    requires INVALID_GID !in groups
    ensures Consistent(owner, groups) && Balanced(groups)
  {
    assert owner[..|owner|] == owner;
    forall g, h | g in groups && h in groups ensures Within(groups, g, h) {
      var a :| 0 <= a < |gids| && gids[a] == g;
      var b :| 0 <= b < |gids| && gids[b] == h;
    }
  }

  /** Shard s goes to group number s mod n of the n groups in ascending order. */
  ghost predicate DealtInTurn(owner: seq<GID>, keys: set<GID>) {
    exists gids: seq<GID> ::
      gids != [] && InOrder(gids, keys) && forall s :: 0 <= s < |owner| ==> owner[s] == gids[s % |gids|]
  }

  /** The inner loop: one shard for each group, as long as there are shards. */
  method DealRound(gids: seq<GID>, owner0: seq<GID>, groups0: Groups, sid0: nat, ghost c: nat)
    returns (owner: seq<GID>, groups: Groups, sid: nat, k: nat)
    requires InTurn(gids, groups0.Keys, owner0, groups0, sid0, c, 0) && InOrder(gids, groups0.Keys) && sid0 < |owner0|
    ensures |owner| == |owner0| && InTurn(gids, groups0.Keys, owner, groups, sid, c, k)
    ensures sid0 < sid && (k == |gids| || sid == |owner|)
  {
    owner, groups, sid, k := owner0, groups0, sid0, 0;
    while k < |gids| && sid < |owner|
      invariant |owner| == |owner0| && InTurn(gids, groups0.Keys, owner, groups, sid, c, k)
      invariant sid == sid0 + k
      decreases |gids| - k
    {
      var g := gids[k];
      DealOne(gids, groups0.Keys, owner, groups, sid, c, k);
      groups, owner := groups[g := groups[g] + {sid}], owner[sid := g];
      sid, k := sid + 1, k + 1;
    }
  }

  lemma StartsInTurn(gids: seq<GID>, owner: seq<GID>, groups: Groups)
    requires gids != [] && InOrder(gids, groups.Keys) && forall g :: g in groups ==> groups[g] == {}
    ensures InTurn(gids, groups.Keys, owner, groups, 0, 0, 0)
  {
  }

  lemma AllInTurn(gids: seq<GID>, keys: set<GID>, owner: seq<GID>, groups: Groups, c: nat, j: nat)
    requires InTurn(gids, keys, owner, groups, |owner|, c, j) && InOrder(gids, keys) && INVALID_GID !in keys
    ensures groups.Keys == keys && DealtInTurn(owner, keys) && Consistent(owner, groups) && Balanced(groups)
  {
    DealtBalanced(gids, owner, groups, c, j);
  }

  /** The nested loops of lines 159-172. */
  method RoundRobin(gids: seq<GID>, owner0: seq<GID>, groups0: Groups) returns (owner: seq<GID>, groups: Groups)
    requires gids != [] && InOrder(gids, groups0.Keys) && INVALID_GID !in groups0
    requires forall g :: g in groups0 ==> groups0[g] == {}
    ensures |owner| == |owner0| && groups.Keys == groups0.Keys
    ensures DealtInTurn(owner, groups.Keys)
    ensures Consistent(owner, groups) && Balanced(groups)
  {
    owner, groups := owner0, groups0;
    var sid := 0;
    ghost var c, j := 0, 0;
    StartsInTurn(gids, owner, groups);
    while sid < |owner|
      invariant |owner| == |owner0| && InTurn(gids, groups0.Keys, owner, groups, sid, c, j)
      invariant sid <= |owner| && (sid < |owner| ==> j == 0)
      decreases |owner| - sid
    {
      var k;
      owner, groups, sid, k := DealRound(gids, owner, groups, sid, c);
      j := k;
      if k == |gids| {
        RoundDone(gids, groups0.Keys, owner, groups, sid, c);
        c, j := c + 1, 0;
      }
    }
    AllInTurn(gids, groups0.Keys, owner, groups, c, j);
  }

  // ----- the list of sizes -----

  lemma {:induction false} ListsAll(gids: seq<GID>, groups: Groups, info: seq<GInfo>, n: nat)
    requires InOrder(gids, groups.Keys) && n <= |gids| == |info|
    requires forall k :: 0 <= k < n ==> gids[k] in groups && info[k] == GInfo(gids[k], |groups[gids[k]]|)
    ensures multiset(info[..n]) == multiset(set k | 0 <= k < n :: info[k])
  {
    if n > 0 {
      ListsAll(gids, groups, info, n - 1);
      assert info[..n] == info[..n - 1] + [info[n - 1]];
      assert (set k | 0 <= k < n :: info[k]) == (set k | 0 <= k < n - 1 :: info[k]) + {info[n - 1]};
      assert info[n - 1] !in (set k | 0 <= k < n - 1 :: info[k]);
    }
  }

  method InfoOf(gids: seq<GID>, groups: Groups) returns (info: seq<GInfo>)
    requires InOrder(gids, groups.Keys)
    ensures InfoOk(info, groups) && |info| == |gids|
  {
    info := [];
    for i := 0 to |gids|
      invariant |info| == i
      invariant forall k :: 0 <= k < i ==> gids[k] in groups && info[k] == GInfo(gids[k], |groups[gids[k]]|)
    {
      assert gids[i] in gids;
      info := info + [GInfo(gids[i], |groups[gids[i]]|)];
    }
    ListsAll(gids, groups, info, |gids|);
    assert info[..|gids|] == info;
    forall g | g in groups ensures GInfo(g, |groups[g]|) in (set k | 0 <= k < |gids| :: info[k]) {
      var k :| 0 <= k < |gids| && gids[k] == g;
      assert info[k] == GInfo(g, |groups[g]|);
    }
    assert Entries(groups) == set k | 0 <= k < |gids| :: info[k];
  }

  lemma Inserted(r: seq<GInfo>, k: nat, x: GInfo)
    requires k <= |r| && SortedInfo(r, 0, |r|)
    requires k > 0 ==> r[k - 1].shardCnt <= x.shardCnt
    requires k < |r| ==> x.shardCnt <= r[k].shardCnt
    ensures SortedInfo(r[..k] + [x] + r[k..], 0, |r| + 1)
  {
  }

  lemma InsertedContents(r: seq<GInfo>, k: nat, info: seq<GInfo>, n: nat)
    requires k <= |r| && n < |info| && multiset(r) == multiset(info[..n])
    ensures multiset(r[..k] + [info[n]] + r[k..]) == multiset(info[..n + 1])
  {
    assert r == r[..k] + r[k..] && info[..n + 1] == info[..n] + [info[n]];
  }

  /** Where the entry belongs. */
  method Place(r: seq<GInfo>, x: GInfo) returns (k: nat)
    ensures k <= |r| && (k > 0 ==> r[k - 1].shardCnt <= x.shardCnt) && (k < |r| ==> x.shardCnt <= r[k].shardCnt)
  {
    k := 0;
    while k < |r| && r[k].shardCnt < x.shardCnt
      invariant k <= |r| && (k > 0 ==> r[k - 1].shardCnt <= x.shardCnt)
    {
      k := k + 1;
    }
  }

  /** Any ascending arrangement will do; the source calls std::sort, which is not stable. */
  method Sort(info: seq<GInfo>) returns (r: seq<GInfo>)
    ensures |r| == |info| && multiset(r) == multiset(info) && SortedInfo(r, 0, |r|)
  {
    r := [];
    for n := 0 to |info|
      invariant |r| == n && multiset(r) == multiset(info[..n]) && SortedInfo(r, 0, n)
    {
      var k := Place(r, info[n]);
      Inserted(r, k, info[n]);
      InsertedContents(r, k, info, n);
      r := r[..k] + [info[n]] + r[k..];
    }
    assert info[..|info|] == info;
  }
}
