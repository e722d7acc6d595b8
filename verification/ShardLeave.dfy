/** The two halves of handleLeave: taking the groups out, and handing their shards to the survivors.
    src/shardkv/ShardCtrler.cpp:216-262. */
module ShardLeave {
  import opened RaftTypes
  import opened ShardConfig
  import opened ShardBalance

  /** The shards whose group is among gids. */
  ghost predicate Orphaned(owner: seq<GID>, groups: Groups, gids: set<GID>, orphans: set<nat>) {
    forall s: nat {:trigger s in orphans} ::
      s in orphans <==> s < |owner| && owner[s] in groups && owner[s] in gids
  }

  function GidSet(gids: seq<GID>): set<GID> {
    set g | g in gids
  }

  /** The loop of lines 226-232. Looking up an unknown gid puts an empty set there, which is erased again. */
  method TakeGroups(groups0: Groups, hosts0: map<GID, seq<Host>>, gids: seq<GID>, ghost owner: seq<GID>)
    returns (groups: Groups, hosts: map<GID, seq<Host>>, orphans: set<nat>)
    requires Consistent(owner, groups0)
    ensures groups == groups0 - GidSet(gids) && hosts == hosts0 - GidSet(gids)
    ensures Orphaned(owner, groups0, GidSet(gids), orphans)
  {
    groups, hosts, orphans := groups0, hosts0, {};
    for i := 0 to |gids|
      invariant groups == groups0 - GidSet(gids[..i]) && hosts == hosts0 - GidSet(gids[..i])
      invariant Orphaned(owner, groups0, GidSet(gids[..i]), orphans)
    {
      var g := gids[i];
      assert GidSet(gids[..i + 1]) == GidSet(gids[..i]) + {g};
      if g !in groups {
        groups := groups[g := {}];
      } else {
        assert Owned(owner, groups0[g], g);
      }
      orphans := orphans + groups[g];
      groups, hosts := groups - {g}, hosts - {g};
    }
    assert gids[..|gids|] == gids;
  }

  /** Everybody but the orphans has a group, and the sets say which. */
  ghost predicate Waiting(owner: seq<GID>, groups: Groups, orphans: set<nat>) {
    && INVALID_GID !in groups && groups.Keys != {} && Agree(owner, groups)
    && (forall s: nat {:trigger s in orphans} :: s in orphans ==> s < |owner| && owner[s] !in groups)
    && (forall s: nat {:trigger owner[s]} :: s < |owner| && s !in orphans ==> owner[s] in groups)
  }

  lemma SurvivorsWait(owner: seq<GID>, groups: Groups, gids: set<GID>, orphans: set<nat>)
    requires Consistent(owner, groups) && Orphaned(owner, groups, gids, orphans)
    requires (groups - gids).Keys != {}
    ensures Waiting(owner, groups - gids, orphans)
  {
    forall g | g in groups - gids ensures Owned(owner, (groups - gids)[g], g) {
      assert Owned(owner, groups[g], g);
    }
  }

  /** The top of the priority queue: the largest gid as the comparator is written, the lightest load with guard G9. */
  predicate IsTop(pq: seq<GInfo>, k: nat, g9: bool)
    requires k < |pq|
  {
    forall i :: 0 <= i < |pq| ==> if g9 then pq[k].shardCnt <= pq[i].shardCnt else pq[i].gid <= pq[k].gid
  }

  method Top(pq: seq<GInfo>, g9: bool) returns (k: nat)
    requires pq != []
    ensures k < |pq| && IsTop(pq, k, g9)
  {
    k := 0;
    for n := 1 to |pq|
      invariant k < n && IsTop(pq[..n], k, g9)
    {
      if if g9 then pq[n].shardCnt < pq[k].shardCnt else pq[k].gid < pq[n].gid {
        k := n;
      }
    }
  }

  function Give(groups: Groups, g: GID, s: nat): Groups
    requires g in groups
  {
    groups[g := groups[g] + {s}]
  }

  lemma GiveEntries(groups: Groups, g: GID, s: nat)
    requires g in groups && s !in groups[g]
    ensures multiset(Entries(Give(groups, g, s))) ==
            multiset(Entries(groups)) - multiset{GInfo(g, |groups[g]|)} + multiset{GInfo(g, |groups[g]| + 1)}
  {
    var old_, new_ := GInfo(g, |groups[g]|), GInfo(g, |groups[g]| + 1);
    var groups' := Give(groups, g, s);
    assert groups'[g] == groups[g] + {s};
    forall x ensures x in Entries(groups') <==> x in Entries(groups) - {old_} + {new_} {
      assert x in Entries(groups) <==> x.gid in groups && x.shardCnt == |groups[x.gid]|;
      assert x in Entries(groups') <==> x.gid in groups' && x.shardCnt == |groups'[x.gid]|;
    }
    assert old_ in Entries(groups);
  }

  lemma GiveOne(owner: seq<GID>, groups: Groups, orphans: set<nat>, s: nat, g: GID, pq: seq<GInfo>, k: nat)
    requires Waiting(owner, groups, orphans) && s in orphans && g in groups
    requires InfoOk(pq, groups) && k < |pq| && pq[k] == GInfo(g, |groups[g]|)
    ensures s < |owner| && Waiting(owner[s := g], Give(groups, g, s), orphans - {s})
    ensures InfoOk(pq[k := GInfo(g, |groups[g]| + 1)], Give(groups, g, s))
  {
    var owner', groups' := owner[s := g], Give(groups, g, s);
    forall h | h in groups' ensures Owned(owner', groups'[h], h) {
      assert Owned(owner, groups[h], h);
    }
    assert Owned(owner, groups[g], g);
    GiveEntries(groups, g, s);
  }

  /** Giving to the least loaded keeps the sizes within one of each other. */
  lemma GiveLeastBalanced(groups: Groups, pq: seq<GInfo>, k: nat, s: nat)
    requires InfoOk(pq, groups) && k < |pq| && IsTop(pq, k, true) && Balanced(groups)
    requires pq[k].gid in groups && pq[k].shardCnt == |groups[pq[k].gid]| && s !in groups[pq[k].gid]
    ensures Balanced(Give(groups, pq[k].gid, s))
  {
    var g := pq[k].gid;
    var groups' := Give(groups, g, s);
    forall a, b | a in groups' && b in groups' ensures Within(groups', a, b) {
      var j := InfoCovers(pq, groups, b);
      assert Within(groups, a, b);
      assert |groups'[g]| == |groups[g]| + 1;
    }
  }

  /** Everything but the orphans stays where it was, and the survivors keep what they had. */
  ghost predicate Kept(owner0: seq<GID>, groups0: Groups, orphans: set<nat>, owner: seq<GID>, groups: Groups) {
    && |owner| == |owner0| && groups.Keys == groups0.Keys
    && (forall s: nat {:trigger owner[s]} :: s < |owner| && s !in orphans ==> owner[s] == owner0[s])
    && (forall g {:trigger Grew(groups0, groups, g)} :: Grew(groups0, groups, g))
  }

  ghost predicate Grew(groups0: Groups, groups: Groups, g: GID) {
    g in groups0 && g in groups ==> groups0[g] <= groups[g]
  }

  ghost predicate IsLast(t: GID, groups: Groups) {
    t in groups && forall g :: g in groups ==> g <= t
  }

  /** The largest gid keeps coming back to the top, so as written it gets every orphan. */
  ghost predicate AllTo(t: GID, groups0: Groups, groups: Groups, done: set<nat>) {
    && groups.Keys == groups0.Keys && IsLast(t, groups0)
    && forall g {:trigger Took(t, groups0, groups, done, g)} :: Took(t, groups0, groups, done, g)
  }

  ghost predicate Took(t: GID, groups0: Groups, groups: Groups, done: set<nat>, g: GID) {
    g in groups0 && g in groups ==> groups[g] == if g == t then groups0[g] + done else groups0[g]
  }

  lemma TopIsLast(t: GID, pq: seq<GInfo>, groups: Groups, k: nat)
    requires InfoOk(pq, groups) && k < |pq| && IsTop(pq, k, false)
    requires IsLast(t, groups)
    ensures pq[k].gid == t
  {
    InfoEntry(pq, groups, k);
    var j := InfoCovers(pq, groups, t);
  }

  method BuildQueue(groups: Groups) returns (pq: seq<GInfo>)
    ensures InfoOk(pq, groups)
  {
    pq := [];
    var rest := Entries(groups);
    while rest != {}
      invariant rest <= Entries(groups) && multiset(pq) == multiset(Entries(groups) - rest)
      decreases |rest|
    {
      var x :| x in rest;
      assert Entries(groups) - (rest - {x}) == Entries(groups) - rest + {x};
      pq, rest := pq + [x], rest - {x};
    }
    assert Entries(groups) - {} == Entries(groups);
  }

  ghost predicate Handing(owner0: seq<GID>, groups0: Groups, orphans: set<nat>, g9: bool, t: GID,
                          owner: seq<GID>, groups: Groups, pq: seq<GInfo>, rest: set<nat>) {
    && rest <= orphans && Kept(owner0, groups0, orphans, owner, groups)
    && Waiting(owner, groups, rest) && InfoOk(pq, groups)
    && if g9 then Balanced(groups0) ==> Balanced(groups) else AllTo(t, groups0, groups, orphans - rest)
  }

  lemma HandingStep(owner0: seq<GID>, groups0: Groups, orphans: set<nat>, g9: bool, t: GID, owner: seq<GID>,
                    groups: Groups, pq: seq<GInfo>, rest: set<nat>, k: nat, s: nat)
    requires Handing(owner0, groups0, orphans, g9, t, owner, groups, pq, rest)
    requires k < |pq| && IsTop(pq, k, g9) && s in rest
    ensures s < |owner| && pq[k].gid in groups
    ensures Handing(owner0, groups0, orphans, g9, t, owner[s := pq[k].gid], Give(groups, pq[k].gid, s),
                    pq[k := GInfo(pq[k].gid, pq[k].shardCnt + 1)], rest - {s})
  {
    var g := pq[k].gid;
    InfoEntry(pq, groups, k);
    GiveOne(owner, groups, rest, s, g, pq, k);
    assert Owned(owner, groups[g], g);
    KeptStep(owner0, groups0, orphans, owner, groups, g, s);
    if !g9 {
      TopIsLast(t, pq, groups, k);
      AllToStep(t, groups0, groups, orphans - rest, s);
      assert orphans - (rest - {s}) == orphans - rest + {s};
    } else if Balanced(groups) {
      GiveLeastBalanced(groups, pq, k, s);
    }
  }

  lemma KeptStep(owner0: seq<GID>, groups0: Groups, orphans: set<nat>, owner: seq<GID>, groups: Groups, g: GID, s: nat)
    requires Kept(owner0, groups0, orphans, owner, groups) && g in groups && s in orphans && s < |owner|
    ensures Kept(owner0, groups0, orphans, owner[s := g], Give(groups, g, s))
  {
    forall h ensures Grew(groups0, Give(groups, g, s), h) {
      assert Grew(groups0, groups, h);
    }
  }

  lemma AllToStep(t: GID, groups0: Groups, groups: Groups, done: set<nat>, s: nat)
    requires AllTo(t, groups0, groups, done) && t in groups
    ensures AllTo(t, groups0, Give(groups, t, s), done + {s})
  {
    forall h ensures Took(t, groups0, Give(groups, t, s), done + {s}, h) {
      assert Took(t, groups0, groups, done, h);
    }
  }

  lemma HandingStart(owner0: seq<GID>, groups0: Groups, orphans: set<nat>, g9: bool, t: GID, pq: seq<GInfo>)
    requires Waiting(owner0, groups0, orphans) && IsLast(t, groups0) && InfoOk(pq, groups0)
    ensures Handing(owner0, groups0, orphans, g9, t, owner0, groups0, pq, orphans)
  {
    assert orphans - orphans == {};
  }

  lemma HandingDone(owner0: seq<GID>, groups0: Groups, orphans: set<nat>, g9: bool, t: GID,
                    owner: seq<GID>, groups: Groups, pq: seq<GInfo>)
    requires Handing(owner0, groups0, orphans, g9, t, owner, groups, pq, {})
    ensures Consistent(owner, groups) && Kept(owner0, groups0, orphans, owner, groups)
    ensures g9 && Balanced(groups0) ==> Balanced(groups)
    ensures !g9 ==> AllTo(t, groups0, groups, orphans)
  {
    assert orphans - {} == orphans;
  }

  /** The loop of lines 242-256, whatever the order in which the orphan set is visited. */
  method HandOut(owner0: seq<GID>, groups0: Groups, orphans: set<nat>, g9: bool, ghost t: GID)
    returns (owner: seq<GID>, groups: Groups)
    requires Waiting(owner0, groups0, orphans) && IsLast(t, groups0)
    ensures Consistent(owner, groups) && Kept(owner0, groups0, orphans, owner, groups)
    ensures g9 && Balanced(groups0) ==> Balanced(groups)
    ensures !g9 ==> AllTo(t, groups0, groups, orphans)
  {
    owner, groups := owner0, groups0;
    var pq := BuildQueue(groups0);
    var rest := orphans;
    HandingStart(owner0, groups0, orphans, g9, t, pq);
    while rest != {}
      invariant Handing(owner0, groups0, orphans, g9, t, owner, groups, pq, rest)
      decreases |rest|
    {
      var s :| s in rest;
      ghost var j := InfoCovers(pq, groups, t);
      var k := Top(pq, g9);
      var top := pq[k];
      HandingStep(owner0, groups0, orphans, g9, t, owner, groups, pq, rest, k, s);
      owner, groups := owner[s := top.gid], Give(groups, top.gid, s);
      pq, rest := pq[k := GInfo(top.gid, top.shardCnt + 1)], rest - {s};
    }
    HandingDone(owner0, groups0, orphans, g9, t, owner, groups, pq);
  }

  lemma {:induction false} LastGid(groups: Groups) returns (t: GID)
    requires groups.Keys != {}
    ensures IsLast(t, groups)
  {
    t := AnyOf(groups.Keys);
    if groups.Keys != {t} {
      var others := groups - {t};
      assert groups.Keys == others.Keys + {t};
      var u := LastGid(others);
      t := if u < t then t else u;
    }
  }

  /** As written, a leave from sizes within one of each other keeps them so if and only if the largest surviving gid
      can take all the orphans without getting more than one ahead. */
  lemma LeaveAsWrittenBalance(groups0: Groups, t: GID, orphans: set<nat>, groups: Groups)
    requires Balanced(groups0) && AllTo(t, groups0, groups, orphans)
    requires groups0[t] !! orphans
    ensures Balanced(groups) <==>
            forall h :: h in groups0 && h != t ==> |groups0[t]| + |orphans| <= |groups0[h]| + 1
  {
    assert Took(t, groups0, groups, orphans, t) && |groups[t]| == |groups0[t]| + |orphans|;
    forall h | h in groups0 && h != t ensures |groups[h]| == |groups0[h]| {
      assert Took(t, groups0, groups, orphans, h);
    }
    if Balanced(groups) {
      forall h | h in groups0 && h != t ensures |groups0[t]| + |orphans| <= |groups0[h]| + 1 {
        assert Within(groups, t, h);
      }
    } else {
      var g, h :| !Within(groups, g, h);
      assert Within(groups0, g, h);
    }
  }
}
