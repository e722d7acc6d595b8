/** What the controller does where the guards are missing, and exactly when it still does what they ask for. */
module ShardDepartures {
  import SC = ShardConfig
  import opened ShardBalance
  import opened ShardJoin
  import opened ShardLeave
  import opened ShardCtrler

  // ----- G7: shard2gid is not written by the rebalancing loop -----

  /** When new groups join, the sizes start level if and only if there was no group or no group has two shards. A join
      without G7 therefore leaves the two indexes in disagreement in every other case. */
  lemma JoinAsWritten(c: SC.Config, shards: nat, join: Joining)
    requires SC.ValidConfig(c, shards) && Joinable(c, join) && join.Keys != {} && join.Keys !! c.gid2shards.Keys
    ensures StartsLevel(c, join) <==>
            c.gid2shards.Keys == {} || forall g :: g in c.gid2shards ==> |c.gid2shards[g]| <= 1
  {
    var groups := AddGroups(c.gid2shards, join);
    var new_ :| new_ in join;
    assert forall g :: g in c.gid2shards ==> groups[g] == c.gid2shards[g];
    if StartsLevel(c, join) && c.gid2shards.Keys != {} {
      forall g | g in c.gid2shards ensures |c.gid2shards[g]| <= 1 {
        assert SC.Within(groups, g, new_);
      }
    }
  }

  /** One group with both shards, and a second group joins. */
  lemma JoinAsWrittenFails()
    ensures var c := SC.Config(1, [7, 7], map[7 := {0, 1}], map[7 := []]);
      SC.ValidConfig(c, 2) && Joinable(c, map[8 := []]) && !StartsLevel(c, map[8 := []])
  {
    var c := SC.Config(1, [7, 7], map[7 := {0, 1}], map[7 := []]);
    var join: Joining := map[8 := []];
    assert SC.Owned(c.shard2gid, c.gid2shards[7], 7);
    assert c.gid2shards.Keys == {7} == c.groupHosts.Keys && join.Keys == {8};
    assert 8 in AddGroups(c.gid2shards, join);
    JoinAsWritten(c, 2, join);
    assert |c.gid2shards[7]| == 2;
  }

  // ----- G8: the re-sorting loops do not advance -----

  ghost predicate Ascending(c: seq<nat>) {
    forall j, k {:trigger c[j], c[k]} :: 0 <= j < k < |c| ==> c[j] <= c[k]
  }

  ghost predicate Level(c: seq<nat>) {
    forall j, k {:trigger c[j], c[k]} :: 0 <= j < |c| && 0 <= k < |c| ==> c[j] <= c[k] + 1
  }

  /** As written the loop evens out every sorted list of n sizes. */
  ghost predicate EvensOut(n: nat) {
    forall c: seq<nat>, r: seq<nat>, turns: nat {:trigger EndsAt(c, r, turns)} ::
      |c| == n && Ascending(c) && EndsAt(c, r, turns) ==> Level(r)
  }

  lemma {:induction false} ThreeEvenOut(c: seq<nat>, r: seq<nat>, turns: nat)
    requires 1 <= |c| <= 3 && Ascending(c) && EndsAt(c, r, turns)
    ensures Level(r)
    decreases turns
  {
    if c[|c| - 1] > c[0] + 1 {
      ThreeEvenOut(StepAsWritten(c), r, turns - 1);
    }
  }

  /** a, b, then zeros, then z. */
  function Shape(n: nat, a: nat, b: nat, z: nat): (c: seq<nat>)
    requires n >= 4
    ensures |c| == n
  {
    seq(n, k => if k == 0 then a else if k == 1 then b else if k == n - 1 then z else 0)
  }

  lemma ShapeStep(n: nat, a: nat, b: nat, z: nat)
    requires n >= 4 && z > 0
    ensures StepAsWritten(Shape(n, a, b, z)) ==
            if b < a + 1 then Shape(n, b, a + 1, z - 1) else Shape(n, a + 1, b, z - 1)
  {
    var moved := MoveCount(Shape(n, a, b, z));
    assert moved == Shape(n, a + 1, b, z - 1);
    assert SwapCounts(moved, 0, 1) == Shape(n, b, a + 1, z - 1);
  }

  lemma ShapeTurn(n: nat, a: nat, b: nat, z: nat, a': nat, b': nat, r: seq<nat>, turns: nat)
    requires n >= 4 && z > a + 1 && EndsAt(Shape(n, a', b', z - 1), r, turns)
    requires if b < a + 1 then a' == b && b' == a + 1 else a' == a + 1 && b' == b
    ensures EndsAt(Shape(n, a, b, z), r, turns + 1)
  {
    ShapeStep(n, a, b, z);
  }

  /** With four groups or more, 0, ..., 0, 9 ends as 3, 3, 0, ..., 0, 3. */
  lemma NineEnds(n: nat)
    requires n >= 4
    ensures EndsAt(Shape(n, 0, 0, 9), Shape(n, 3, 3, 3), 6)
  {
    LastTurns(n);
    var r := Shape(n, 3, 3, 3);
    ShapeTurn(n, 1, 1, 7, 1, 2, r, 3);
    ShapeTurn(n, 0, 1, 8, 1, 1, r, 4);
    ShapeTurn(n, 0, 0, 9, 0, 1, r, 5);
  }

  lemma LastTurns(n: nat)
    requires n >= 4
    ensures EndsAt(Shape(n, 1, 2, 6), Shape(n, 3, 3, 3), 3)
  {
    var r := Shape(n, 3, 3, 3);
    ShapeTurn(n, 2, 3, 4, 3, 3, r, 0);
    ShapeTurn(n, 2, 2, 5, 2, 3, r, 1);
    ShapeTurn(n, 1, 2, 6, 2, 2, r, 2);
  }

  /** The re-sorting loops as written are enough for up to three groups, and for no larger number. */
  lemma ResortAsWritten(n: nat)
    requires n >= 1
    ensures EvensOut(n) <==> n <= 3
  {
    if n <= 3 {
      forall c: seq<nat>, r: seq<nat>, turns: nat {:trigger EndsAt(c, r, turns)}
        | |c| == n && Ascending(c) && EndsAt(c, r, turns) ensures Level(r) {
        ThreeEvenOut(c, r, turns);
      }
    } else {
      NineEnds(n);
      assert Ascending(Shape(n, 0, 0, 9));
      assert Shape(n, 3, 3, 3)[0] == 3 && Shape(n, 3, 3, 3)[2] == 0;
    }
  }

  // ----- G9: leave's queue is ordered by gid -----

  /** Three groups with two shards each, the smallest gid leaves: the largest gets both, and is two ahead. */
  lemma LeaveAsWrittenFails(groups: SC.Groups)
    requires AllTo(3, map[2 := {2, 3}, 3 := {4, 5}], groups, {0, 1})
    ensures SC.Balanced(map[1 := {0, 1}, 2 := {2, 3}, 3 := {4, 5}])
    ensures !SC.Balanced(groups)
  {
    var survivors: SC.Groups := map[2 := {2, 3}, 3 := {4, 5}];
    assert |survivors[2]| == 2 && |survivors[3]| == 2 && |{0, 1}| == 2;
    LeaveAsWrittenBalance(survivors, 3, {0, 1}, groups);
    assert 2 in survivors && |survivors[3]| + |{0, 1}| > |survivors[2]| + 1;
  }
}
