/** The rebalancing loop of handleJoin: move one shard at a time from the last to the first entry of a list of
    group sizes, as written and with the list kept sorted. src/shardkv/ShardCtrler.cpp:174-208. */
module ShardBalance {
  import opened ShardConfig

  datatype GInfo = GInfo(gid: GID, shardCnt: nat)

  function Entries(groups: Groups): set<GInfo> {
    set g | g in groups :: GInfo(g, |groups[g]|)
  }

  /** The list has every group once, with the size of its set. */
  ghost predicate InfoOk(info: seq<GInfo>, groups: Groups) {
    multiset(info) == multiset(Entries(groups))
  }

  lemma InfoEntry(info: seq<GInfo>, groups: Groups, k: nat)
    requires InfoOk(info, groups) && k < |info|
    ensures info[k].gid in groups && info[k].shardCnt == |groups[info[k].gid]|
  {
    assert info[k] in multiset(info);
    assert info[k] in Entries(groups);
  }

  /** Every group is in the list. */
  lemma InfoCovers(info: seq<GInfo>, groups: Groups, g: GID) returns (k: nat)
    requires InfoOk(info, groups) && g in groups
    ensures k < |info| && info[k] == GInfo(g, |groups[g]|)
  {
    var x := GInfo(g, |groups[g]|);
    assert x in Entries(groups);
    assert x in multiset(info);
    k :| k < |info| && info[k] == x;
  }

  ghost predicate SortedInfo(info: seq<GInfo>, from: nat, to: nat)
    requires to <= |info|
  {
    forall j, k {:trigger info[j], info[k]} :: from <= j < k < to ==> info[j].shardCnt <= info[k].shardCnt
  }

  /** x squared, as the sum of the first x odd numbers so that its proofs stay linear. */
  function Square(x: nat): nat {
    if x == 0 then 0 else Square(x - 1) + 2 * x - 1
  }

  /** The squares of the first n group sizes, added up. */
  function SumSquares(info: seq<GInfo>, n: nat): nat
    requires n <= |info|
  {
    if n == 0 then 0 else SumSquares(info, n - 1) + Square(info[n - 1].shardCnt)
  }

  lemma {:induction false} SumSquaresUpdate(info: seq<GInfo>, n: nat, i: nat, x: GInfo)
    requires i < |info| && n <= |info|
    ensures SumSquares(info[i := x], n) ==
            if i < n then SumSquares(info, n) - Square(info[i].shardCnt) + Square(x.shardCnt) else SumSquares(info, n)
  {
    if n > 0 {
      SumSquaresUpdate(info, n - 1, i, x);
    }
  }

  function Swap(info: seq<GInfo>, i: nat, j: nat): seq<GInfo>
    requires i < |info| && j < |info|
  {
    seq(|info|, k requires 0 <= k < |info| => info[if k == i then j else if k == j then i else k])
  }

  /** A sorted list whose ends differ by at most one means the groups are balanced. */
  lemma EndsMeetBalanced(info: seq<GInfo>, groups: Groups)
    requires InfoOk(info, groups) && SortedInfo(info, 0, |info|) && info != []
    requires info[|info| - 1].shardCnt <= info[0].shardCnt + 1
    ensures Balanced(groups)
  {
    forall g, h | g in groups && h in groups ensures Within(groups, g, h) {
      var j := InfoCovers(info, groups, g);
      var k := InfoCovers(info, groups, h);
      assert info[j].shardCnt <= info[|info| - 1].shardCnt;
      assert info[0].shardCnt <= info[k].shardCnt;
    }
  }

  /** The list with its first entry swapped up i places, and with its last entry swapped down to place i. */
  function Lift(info: seq<GInfo>, i: nat): (r: seq<GInfo>)
    requires i < |info|
    ensures |r| == |info|
  {
    if i == 0 then info else Swap(Lift(info, i - 1), i - 1, i)
  }

  function Sink(info: seq<GInfo>, i: nat): (r: seq<GInfo>)
    requires i < |info|
    ensures |r| == |info|
    decreases |info| - i
  {
    if i == |info| - 1 then info else Swap(Sink(info, i + 1), i, i + 1)
  }

  lemma SwapKeeps(info: seq<GInfo>, i: nat, after: seq<GInfo>)
    requires i + 1 < |info| && after == Swap(info, i, i + 1)
    ensures multiset(after) == multiset(info)
    ensures SumSquares(after, |info|) == SumSquares(info, |info|)
  {
    SwapContents(info, i, after);
    SwapSquares(info, i, after);
  }

  lemma SwapContents(info: seq<GInfo>, i: nat, after: seq<GInfo>)
    requires i + 1 < |info| && after == Swap(info, i, i + 1)
    ensures multiset(after) == multiset(info)
  {
    assert info == info[..i] + [info[i], info[i + 1]] + info[i + 2..];
    assert after == info[..i] + [info[i + 1], info[i]] + info[i + 2..];
  }

  lemma SwapSquares(info: seq<GInfo>, i: nat, after: seq<GInfo>)
    requires i + 1 < |info| && after == Swap(info, i, i + 1)
    ensures SumSquares(after, |info|) == SumSquares(info, |info|)
  {
    var mid := info[i := info[i + 1]];
    SumSquaresUpdate(info, |info|, i, info[i + 1]);
    SumSquaresUpdate(mid, |info|, i + 1, info[i]);
    assert mid[i + 1 := info[i]] == after;
  }

  lemma {:induction false} LiftKeeps(info: seq<GInfo>, i: nat)
    requires i < |info|
    ensures multiset(Lift(info, i)) == multiset(info)
    ensures SumSquares(Lift(info, i), |info|) == SumSquares(info, |info|)
  {
    if i > 0 {
      LiftKeeps(info, i - 1);
      SwapKeeps(Lift(info, i - 1), i - 1, Lift(info, i));
    }
  }

  lemma {:induction false} SinkKeeps(info: seq<GInfo>, i: nat)
    requires i < |info|
    ensures multiset(Sink(info, i)) == multiset(info)
    ensures SumSquares(Sink(info, i), |info|) == SumSquares(info, |info|)
    decreases |info| - i
  {
    if i < |info| - 1 {
      SinkKeeps(info, i + 1);
      SwapKeeps(Sink(info, i + 1), i, Sink(info, i));
    }
  }

  lemma {:induction false} LiftAt(info: seq<GInfo>, i: nat, k: nat)
    requires i < |info| && k < |info|
    ensures Lift(info, i)[k] == if k < i then info[k + 1] else if k == i then info[0] else info[k]
  {
    if i > 0 {
      LiftAt(info, i - 1, k);
      LiftAt(info, i - 1, i - 1);
      LiftAt(info, i - 1, i);
    }
  }

  lemma {:induction false} SinkAt(info: seq<GInfo>, i: nat, k: nat)
    requires i < |info| && k < |info|
    ensures Sink(info, i)[k] == if k > i then info[k - 1] else if k == i then info[|info| - 1] else info[k]
    decreases |info| - i
  {
    if i < |info| - 1 {
      SinkAt(info, i + 1, k);
      SinkAt(info, i + 1, i + 1);
      SinkAt(info, i + 1, i);
    }
  }

  /** The forward loop takes the first entry up past smaller ones, the backward loop the last down past larger. */
  predicate Lifts(info: seq<GInfo>, i: nat) {
    i < |info| - 1 && (i > 0 ==> info[1].shardCnt <= info[0].shardCnt && info[i].shardCnt <= info[0].shardCnt)
  }

  predicate Sinks(info: seq<GInfo>, i: nat) {
    && 0 < i < |info|
    && var last := info[|info| - 1];
       i < |info| - 1 ==> last.shardCnt <= info[|info| - 2].shardCnt && last.shardCnt <= info[i].shardCnt
  }

  /** When i advances (G8), it stops where the next entry is not smaller, or not larger. */
  predicate LiftStops(info: seq<GInfo>, i: nat) {
    Lifts(info, i) && (i + 1 < |info| - 1 ==> info[0].shardCnt <= info[i + 1].shardCnt)
  }

  predicate SinkStops(info: seq<GInfo>, i: nat) {
    Sinks(info, i) && info[i - 1].shardCnt <= info[|info| - 1].shardCnt
  }

  /** Sorting the first of a list whose middle is sorted: it goes up while the next one is smaller. */
  lemma LiftedSorted(info: seq<GInfo>, i: nat)
    requires LiftStops(info, i) && SortedInfo(info, 1, |info| - 1)
    ensures SortedInfo(Lift(info, i), 0, |info| - 1)
  {
    forall j, k | 0 <= j < k < |info| - 1 ensures Lift(info, i)[j].shardCnt <= Lift(info, i)[k].shardCnt {
      LiftAt(info, i, j);
      LiftAt(info, i, k);
    }
  }

  lemma SunkSorted(info: seq<GInfo>, i: nat)
    requires SinkStops(info, i) && SortedInfo(info, 0, |info| - 1)
    ensures SortedInfo(Sink(info, i), 0, |info|)
  {
    forall j, k | 0 <= j < k < |info| ensures Sink(info, i)[j].shardCnt <= Sink(info, i)[k].shardCnt {
      SinkAt(info, i, j);
      SinkAt(info, i, k);
    }
  }

  // ----- the loop as written, on the sizes alone -----

  function Counts(info: seq<GInfo>): (r: seq<nat>)
    ensures |r| == |info|
  {
    seq(|info|, k requires 0 <= k < |info| => info[k].shardCnt)
  }

  function SwapCounts(c: seq<nat>, i: nat, j: nat): (r: seq<nat>)
    requires i < |c| && j < |c|
    ensures |r| == |c|
  {
    seq(|c|, k requires 0 <= k < |c| => c[if k == i then j else if k == j then i else k])
  }

  function MoveCount(c: seq<nat>): (r: seq<nat>)
    requires |c| >= 2 && c[|c| - 1] > 0
    ensures |r| == |c|
  {
    seq(|c|, k requires 0 <= k < |c| => if k == 0 then c[k] + 1 else if k == |c| - 1 then c[k] - 1 else c[k])
  }

  /** One turn: one shard from the last place to the first, then at most one swap at each end. */
  function StepAsWritten(c: seq<nat>): (r: seq<nat>)
    requires |c| >= 2 && c[|c| - 1] > 0
    ensures |r| == |c|
  {
    var n := |c|;
    var moved := MoveCount(c);
    var first := if moved[1] < moved[0] then SwapCounts(moved, 0, 1) else moved;
    if first[n - 1] < first[n - 2] then SwapCounts(first, n - 2, n - 1) else first
  }

  /** c comes to rest at r after some turns. */
  ghost predicate EndsAt(c: seq<nat>, r: seq<nat>, turns: nat)
    decreases turns
  {
    && c != [] && |r| == |c|
    && if c[|c| - 1] <= c[0] + 1 then r == c else turns > 0 && EndsAt(StepAsWritten(c), r, turns - 1)
  }

  /** The forward loop after a move. Without guard G8 the index stays 0, so at most the first two are swapped. */
  method SiftForward(info: seq<GInfo>, g8: bool) returns (r: seq<GInfo>, ghost n: nat)
    requires |info| >= 2 && info[0].shardCnt <= info[|info| - 1].shardCnt
    ensures Lifts(info, n) && r == Lift(info, n)
    ensures if g8 then LiftStops(info, n) else n == if info[1].shardCnt < info[0].shardCnt then 1 else 0
  {
    r, n := info, 0;
    var i := 0;
    while i + 1 < |r| && r[i + 1].shardCnt < r[i].shardCnt
      invariant 0 <= i < |r| - 1
      invariant Lifts(info, n) && r == Lift(info, n)
      invariant if g8 then n == i else i == 0 && n <= 1
      invariant !g8 && n == 1 ==> info[1].shardCnt < info[0].shardCnt
      decreases |info| - n
    {
      LiftAt(info, n, n);
      LiftAt(info, n, n + 1);
      LiftAt(info, n, 0);
      LiftAt(info, n, 1);
      r, n := Swap(r, i, i + 1), n + 1;
      if g8 {
        i := i + 1;
      }
    }
    LiftAt(info, n, n);
    LiftAt(info, n, n + 1);
  }

  /** The backward loop after a move. */
  method SiftBackward(info: seq<GInfo>, g8: bool) returns (r: seq<GInfo>, ghost n: nat)
    requires |info| >= 2 && info[0].shardCnt <= info[|info| - 1].shardCnt
    ensures Sinks(info, n) && r == Sink(info, n)
    ensures if g8 then SinkStops(info, n)
            else n == if info[|info| - 1].shardCnt < info[|info| - 2].shardCnt then |info| - 2 else |info| - 1
  {
    r, n := info, |info| - 1;
    var i := |r| - 1;
    while i > 0 && r[i].shardCnt < r[i - 1].shardCnt
      invariant 0 < i < |r|
      invariant Sinks(info, n) && r == Sink(info, n)
      invariant if g8 then n == i else i == |r| - 1 && n >= |r| - 2
      invariant !g8 && n == |r| - 2 ==> info[|r| - 1].shardCnt < info[|r| - 2].shardCnt
      decreases n
    {
      SinkAt(info, n, n);
      SinkAt(info, n, n - 1);
      SinkAt(info, n, |info| - 1);
      SinkAt(info, n, |info| - 2);
      r, n := Swap(r, i - 1, i), n - 1;
      if g8 {
        i := i - 1;
      }
    }
    SinkAt(info, n, n);
    SinkAt(info, n, n - 1);
  }

  ghost predicate IsFirst(m: nat, s: set<nat>) {
    m in s && forall x :: x in s ==> m <= x
  }

  /** The first element of a std::set. */
  method First(s: set<nat>) returns (m: nat)
    requires s != {}
    ensures IsFirst(m, s)
  {
    m :| m in s;
    var rest := s - {m};
    while rest != {}
      invariant m in s && rest <= s
      invariant forall x :: x in s ==> x in rest || m <= x
      decreases |rest|
    {
      var x :| x in rest;
      rest := rest - {x};
      m := if x < m then x else m;
    }
  }

  /** A group that has not been touched, or only received and is still small, or only gave and is still large. */
  ghost predicate Moved(before: set<nat>, after: set<nat>, least: nat, most: nat) {
    || after == before
    || (before <= after && |after| <= least + 1)
    || (after <= before && most <= |after| + 1)
  }

  ghost predicate AllMoved(before: Groups, groups: Groups, least: nat, most: nat)
    requires groups.Keys == before.Keys
  {
    forall g {:trigger before[g]} :: g in before ==> Moved(before[g], groups[g], least, most)
  }

  /** The list after the shard has gone from the last group to the first. */
  function Counted(info: seq<GInfo>): (r: seq<GInfo>)
    requires |info| >= 2 && info[|info| - 1].shardCnt > 0
  {
    var front, back := info[0], info[|info| - 1];
    info[0 := front.(shardCnt := front.shardCnt + 1)][|info| - 1 := back.(shardCnt := back.shardCnt - 1)]
  }

  lemma CountedMatches(owner: seq<GID>, groups: Groups, info: seq<GInfo>, front: GID, back: GID, s: nat)
    requires Placed(owner, groups) && InfoOk(info, groups) && |info| >= 2
    requires front == info[0].gid && back == info[|info| - 1].gid && front in groups && back in groups
    requires info[0].shardCnt + 1 < info[|info| - 1].shardCnt && s in groups[back]
    ensures s < |owner| && owner[s] == back && s !in groups[front]
    ensures InfoOk(Counted(info), MoveShard(groups, s, back, front))
    ensures SumSquares(Counted(info), |info|) < SumSquares(info, |info|)
  {
    InfoEntry(info, groups, 0);
    InfoEntry(info, groups, |info| - 1);
    assert Owned(owner, groups[back], back) && Owned(owner, groups[front], front);
    CountedSquares(info);
    CountedInfo(groups, info, front, back, s);
  }

  lemma CountedSquares(info: seq<GInfo>)
    requires |info| >= 2 && info[0].shardCnt + 1 < info[|info| - 1].shardCnt
    ensures SumSquares(Counted(info), |info|) < SumSquares(info, |info|)
  {
    var front, back := info[0].shardCnt, info[|info| - 1].shardCnt;
    var mid := info[0 := info[0].(shardCnt := front + 1)];
    SumSquaresUpdate(info, |info|, 0, mid[0]);
    SumSquaresUpdate(mid, |info|, |info| - 1, Counted(info)[|info| - 1]);
    SquaresFall(front, back);
  }

  lemma SquaresFall(a: nat, b: nat)
    requires a + 1 < b
    ensures Square(a + 1) + Square(b - 1) < Square(a) + Square(b)
  {
  }

  lemma CountedInfo(groups: Groups, info: seq<GInfo>, front: GID, back: GID, s: nat)
    requires InfoOk(info, groups) && |info| >= 2 && front in groups && back in groups && front != back
    requires front == info[0].gid && back == info[|info| - 1].gid
    requires info[0].shardCnt == |groups[front]| && info[|info| - 1].shardCnt == |groups[back]| > 0
    requires s in groups[back] && s !in groups[front]
    ensures InfoOk(Counted(info), MoveShard(groups, s, back, front))
  {
    var groups' := MoveShard(groups, s, back, front);
    var f, b, f', b' := info[0], info[|info| - 1], Counted(info)[0], Counted(info)[|info| - 1];
    assert info == [f] + info[1..|info| - 1] + [b];
    assert Counted(info) == [f'] + info[1..|info| - 1] + [b'];
    MovedEntries(groups, front, back, s);
  }

  lemma MovedEntries(groups: Groups, front: GID, back: GID, s: nat)
    requires front in groups && back in groups && front != back && s in groups[back] && s !in groups[front]
    ensures multiset(Entries(MoveShard(groups, s, back, front))) ==
            multiset(Entries(groups)) - multiset{GInfo(front, |groups[front]|), GInfo(back, |groups[back]|)}
            + multiset{GInfo(front, |groups[front]| + 1), GInfo(back, |groups[back]| - 1)}
  {
    var groups' := MoveShard(groups, s, back, front);
    assert groups'[front] == groups[front] + {s} && groups'[back] == groups[back] - {s};
    assert GInfo(front, |groups[front]|) in Entries(groups) && GInfo(back, |groups[back]|) in Entries(groups);
    var gone := {GInfo(front, |groups[front]|), GInfo(back, |groups[back]|)};
    var new_ := {GInfo(front, |groups[front]| + 1), GInfo(back, |groups[back]| - 1)};
    forall x ensures x in Entries(groups') <==> x in Entries(groups) - gone + new_ {
      assert x in Entries(groups) <==> x.gid in groups && x.shardCnt == |groups[x.gid]|;
      assert x in Entries(groups') <==> x.gid in groups' && x.shardCnt == |groups'[x.gid]|;
    }
  }

  lemma MovedNext(before: Groups, groups: Groups, info: seq<GInfo>, front: GID, back: GID, s: nat, after: seq<GInfo>)
    requires before.Keys == groups.Keys && |info| >= 2 && InfoOk(info, groups)
    requires front == info[0].gid && back == info[|info| - 1].gid && front in groups && back in groups
    requires info[0].shardCnt + 1 < info[|info| - 1].shardCnt && s in groups[back] && s !in groups[front]
    requires |after| == |info| && after[0].shardCnt >= info[0].shardCnt
    requires after[|after| - 1].shardCnt <= info[|info| - 1].shardCnt
    requires AllMoved(before, groups, info[0].shardCnt, info[|info| - 1].shardCnt)
    ensures AllMoved(before, MoveShard(groups, s, back, front), after[0].shardCnt, after[|after| - 1].shardCnt)
  {
    var groups' := MoveShard(groups, s, back, front);
    InfoEntry(info, groups, 0);
    InfoEntry(info, groups, |info| - 1);
    forall g {:trigger before[g]} | g in before
      ensures Moved(before[g], groups'[g], after[0].shardCnt, after[|after| - 1].shardCnt)
    {
      assert Moved(before[g], groups[g], info[0].shardCnt, info[|info| - 1].shardCnt);
    }
  }

  /** What both loops leave: the same entries, the ends in order, and with G8 a sorted list. */
  lemma Resorted(info: seq<GInfo>, n: nat, m: nat)
    requires |info| >= 2 && info[0].shardCnt <= info[|info| - 1].shardCnt
    requires Lifts(info, n) && Sinks(Lift(info, n), m)
    ensures var r := Sink(Lift(info, n), m);
      && multiset(r) == multiset(info) && SumSquares(r, |info|) == SumSquares(info, |info|)
      && r[0].shardCnt <= r[|info| - 1].shardCnt
      && (LiftStops(info, n) && SinkStops(Lift(info, n), m) && SortedInfo(info, 1, |info| - 1)
          ==> SortedInfo(r, 0, |info|))
  {
    var mid := Lift(info, n);
    LiftKeeps(info, n);
    SinkKeeps(mid, m);
    LiftAt(info, n, 0);
    LiftAt(info, n, |info| - 1);
    SinkAt(mid, m, 0);
    SinkAt(mid, m, |info| - 1);
    if LiftStops(info, n) && SinkStops(mid, m) && SortedInfo(info, 1, |info| - 1) {
      LiftedSorted(info, n);
      SunkSorted(mid, m);
    }
  }

  /** In a sorted list the least size does not fall and the greatest does not grow. */
  lemma EndsClose(info: seq<GInfo>, after: seq<GInfo>)
    requires |after| == |info| >= 2 && SortedInfo(info, 0, |info|)
    requires info[0].shardCnt + 1 < info[|info| - 1].shardCnt && multiset(after) == multiset(Counted(info))
    ensures after[0].shardCnt >= info[0].shardCnt && after[|info| - 1].shardCnt <= info[|info| - 1].shardCnt
  {
    var counted := Counted(info);
    forall x | x in multiset(after) ensures info[0].shardCnt <= x.shardCnt <= info[|info| - 1].shardCnt {
      assert x in multiset(counted);
      var k :| 0 <= k < |counted| && counted[k] == x;
    }
    assert after[0] in multiset(after) && after[|info| - 1] in multiset(after);
  }

  /** What the rebalancing loop keeps: the sets describe the assignment placed, the list counts them, its ends are
      in order; with G8 the list is sorted and no group has both given and received. */
  ghost predicate Balancing(groups0: Groups, placed: seq<GID>, groups: Groups, info: seq<GInfo>, g8: bool) {
    && groups.Keys == groups0.Keys && Placed(placed, groups) && InfoOk(info, groups)
    && info != [] && info[0].shardCnt <= info[|info| - 1].shardCnt
    && (g8 ==> SortedInfo(info, 0, |info|))
    && (g8 ==> AllMoved(groups0, groups, info[0].shardCnt, info[|info| - 1].shardCnt))
  }

  /** The list after a turn still counts the sets, with its ends in order. */
  lemma ListAfter(groups: Groups, counted: seq<GInfo>, g8: bool, n: nat, m: nat, after: seq<GInfo>)
    requires InfoOk(counted, groups) && |counted| >= 2 && counted[0].shardCnt <= counted[|counted| - 1].shardCnt
    requires Lifts(counted, n) && Sinks(Lift(counted, n), m)
    requires g8 ==> LiftStops(counted, n) && SinkStops(Lift(counted, n), m) && SortedInfo(counted, 1, |counted| - 1)
    requires after == Sink(Lift(counted, n), m)
    ensures |after| == |counted| && multiset(after) == multiset(counted) && InfoOk(after, groups)
    ensures after[0].shardCnt <= after[|after| - 1].shardCnt && (g8 ==> SortedInfo(after, 0, |after|))
    ensures SumSquares(after, |counted|) == SumSquares(counted, |counted|)
  {
    Resorted(counted, n, m);
  }

  lemma CountedInside(info: seq<GInfo>)
    requires |info| >= 2 && SortedInfo(info, 0, |info|) && info[|info| - 1].shardCnt > 0
    ensures |Counted(info)| == |info| && SortedInfo(Counted(info), 1, |info| - 1)
  {
  }

  /** One turn of the loop keeps all of that and lowers the sum of the squared sizes. */
  lemma BalancingStep(groups0: Groups, placed: seq<GID>, groups: Groups, info: seq<GInfo>, g8: bool, s: nat,
                      n: nat, m: nat, after: seq<GInfo>)
    requires Balancing(groups0, placed, groups, info, g8)
    requires |info| >= 2 && info[|info| - 1].shardCnt > info[0].shardCnt + 1
    requires info[0].gid in groups && info[|info| - 1].gid in groups && s in groups[info[|info| - 1].gid]
    requires Lifts(Counted(info), n) && Sinks(Lift(Counted(info), n), m)
    requires g8 ==> LiftStops(Counted(info), n) && SinkStops(Lift(Counted(info), n), m)
    requires after == Sink(Lift(Counted(info), n), m)
    ensures s < |placed| && placed[s] == info[|info| - 1].gid
    ensures Balancing(groups0, MoveOwner(placed, s, info[0].gid),
                      MoveShard(groups, s, info[|info| - 1].gid, info[0].gid), after, g8)
    ensures SumSquares(after, |info|) < SumSquares(info, |info|)
  {
    var front, back := info[0].gid, info[|info| - 1].gid;
    CountedMatches(placed, groups, info, front, back, s);
    MoveKeepsPlaced(placed, groups, s, front);
    if g8 {
      CountedInside(info);
    }
    ListAfter(MoveShard(groups, s, back, front), Counted(info), g8, n, m, after);
    if g8 {
      EndsStayApart(groups0, placed, groups, info, s, after);
    }
  }

  lemma EndsStayApart(groups0: Groups, placed: seq<GID>, groups: Groups, info: seq<GInfo>, s: nat, after: seq<GInfo>)
    requires Balancing(groups0, placed, groups, info, true)
    requires |info| == |after| >= 2 && info[|info| - 1].shardCnt > info[0].shardCnt + 1
    requires info[0].gid in groups && info[|info| - 1].gid in groups
    requires s in groups[info[|info| - 1].gid] && s !in groups[info[0].gid]
    requires multiset(after) == multiset(Counted(info))
    ensures AllMoved(groups0, MoveShard(groups, s, info[|info| - 1].gid, info[0].gid), after[0].shardCnt,
                     after[|after| - 1].shardCnt)
  {
    EndsClose(info, after);
    MovedNext(groups0, groups, info, info[0].gid, info[|info| - 1].gid, s, after);
  }

  lemma TurnAsWritten(info: seq<GInfo>, n: nat, m: nat)
    requires |info| >= 2 && info[|info| - 1].shardCnt > info[0].shardCnt + 1
    requires n == if Counted(info)[1].shardCnt < Counted(info)[0].shardCnt then 1 else 0
    requires Lifts(Counted(info), n)
    requires var up := Lift(Counted(info), n);
      m == if up[|info| - 1].shardCnt < up[|info| - 2].shardCnt then |info| - 2 else |info| - 1
    ensures Counts(Sink(Lift(Counted(info), n), m)) == StepAsWritten(Counts(info))
  {
    var counted := Counted(info);
    var up := Lift(counted, n);
    var c := Counts(info);
    var moved := MoveCount(c);
    assert Counts(counted) == moved;
    assert Lift(counted, 0) == counted && Sink(up, |info| - 1) == up;
    assert Counts(up) == if moved[1] < moved[0] then SwapCounts(moved, 0, 1) else moved;
  }

  /** One turn: the smallest shard of the last group is chosen, the counts change and both loops run. */
  method Turn(ghost groups0: Groups, ghost placed: seq<GID>, groups: Groups, info: seq<GInfo>, g8: bool)
    returns (s: nat, after: seq<GInfo>)
    requires Balancing(groups0, placed, groups, info, g8)
    requires info[|info| - 1].shardCnt > info[0].shardCnt + 1
    ensures info[0].gid in groups && info[|info| - 1].gid in groups
    ensures IsFirst(s, groups[info[|info| - 1].gid])
    ensures s < |placed| && placed[s] == info[|info| - 1].gid
    ensures Balancing(groups0, MoveOwner(placed, s, info[0].gid),
                      MoveShard(groups, s, info[|info| - 1].gid, info[0].gid), after, g8)
    ensures SumSquares(after, |after|) < SumSquares(info, |info|)
    ensures !g8 ==> Counts(after) == StepAsWritten(Counts(info))
  {
    InfoEntry(info, groups, 0);
    InfoEntry(info, groups, |info| - 1);
    s := First(groups[info[|info| - 1].gid]);
    var counted := Counted(info);
    ghost var n, m;
    after, n := SiftForward(counted, g8);
    LiftAt(counted, n, 0);
    LiftAt(counted, n, |info| - 1);
    after, m := SiftBackward(after, g8);
    BalancingStep(groups0, placed, groups, info, g8, s, n, m, after);
    if !g8 {
      TurnAsWritten(info, n, m);
    }
  }

  /** The squares do not depend on the order of the list. */
  lemma {:induction false} SquaresOfRearrangement(a: seq<GInfo>, b: seq<GInfo>)
    requires multiset(a) == multiset(b)
    ensures |a| == |b| && SumSquares(a, |a|) == SumSquares(b, |b|)
  {
    assert |multiset(a)| == |a| && |multiset(b)| == |b|;
    if a != [] {
      var n := |a| - 1;
      assert a[n] in multiset(b);
      var k :| 0 <= k < |b| && b[k] == a[n];
      WithoutBoth(a, b, k);
      SquaresOfRearrangement(a[..n], b[..k] + b[k + 1..]);
      SquaresOfPrefix(a[..n], a, n);
      SquaresWithout(b, k, |b|);
    }
  }

  lemma WithoutBoth(a: seq<GInfo>, b: seq<GInfo>, k: nat)
    requires multiset(a) == multiset(b) && a != [] && k < |b| && b[k] == a[|a| - 1]
    ensures multiset(a[..|a| - 1]) == multiset(b[..k] + b[k + 1..])
  {
    assert b == b[..k] + [b[k]] + b[k + 1..];
    assert a == a[..|a| - 1] + [b[k]];
    assert multiset(a[..|a| - 1]) == multiset(a) - multiset{b[k]};
    assert multiset(b[..k] + b[k + 1..]) == multiset(b) - multiset{b[k]};
  }

  lemma {:induction false} SquaresOfPrefix(a: seq<GInfo>, b: seq<GInfo>, n: nat)
    requires n <= |a| && n <= |b| && forall k :: 0 <= k < n ==> a[k] == b[k]
    ensures SumSquares(a, n) == SumSquares(b, n)
  {
    if n > 0 {
      SquaresOfPrefix(a, b, n - 1);
    }
  }

  lemma {:induction false} SquaresWithout(b: seq<GInfo>, k: nat, n: nat)
    requires k < n <= |b|
    ensures SumSquares(b[..k] + b[k + 1..], n - 1) == SumSquares(b, n) - Square(b[k].shardCnt)
  {
    if n == k + 1 {
      SquaresOfPrefix(b[..k] + b[k + 1..], b, k);
    } else {
      SquaresWithout(b, k, n - 1);
      assert (b[..k] + b[k + 1..])[n - 2] == b[n - 1];
    }
  }

  /** The assignment fixes the sets, so a fall in the squares means the assignment has changed. */
  lemma FallMeansMoved(owner0: seq<GID>, groups0: Groups, info0: seq<GInfo>, placed: seq<GID>, groups: Groups,
                       info: seq<GInfo>)
    requires Placed(owner0, groups0) && InfoOk(info0, groups0)
    requires Placed(placed, groups) && InfoOk(info, groups) && groups.Keys == groups0.Keys
    requires SumSquares(info, |info|) < SumSquares(info0, |info0|)
    ensures placed != owner0
  {
    if placed == owner0 {
      forall g | g in groups ensures groups[g] == groups0[g] {
        assert Owned(placed, groups[g], g) && Owned(owner0, groups0[g], g);
      }
      assert groups == groups0;
      SquaresOfRearrangement(info, info0);
    }
  }

  /** c has become d after some turns. */
  ghost predicate Follows(c: seq<nat>, d: seq<nat>, turns: nat)
    decreases turns
  {
    && c != [] && |d| == |c|
    && if turns == 0 then c == d else c[|c| - 1] > c[0] + 1 && Follows(StepAsWritten(c), d, turns - 1)
  }

  lemma {:induction false} FollowsOn(c: seq<nat>, d: seq<nat>, turns: nat)
    requires Follows(c, d, turns) && d[|d| - 1] > d[0] + 1
    ensures Follows(c, StepAsWritten(d), turns + 1)
    decreases turns
  {
    if turns > 0 {
      FollowsOn(StepAsWritten(c), d, turns - 1);
    }
  }

  lemma {:induction false} FollowsToEnd(c: seq<nat>, d: seq<nat>, turns: nat)
    requires Follows(c, d, turns) && d[|d| - 1] <= d[0] + 1
    ensures EndsAt(c, d, turns)
    decreases turns
  {
    if turns > 0 {
      FollowsToEnd(StepAsWritten(c), d, turns - 1);
    }
  }

  /** The loop has moved a shard since it started from info0. */
  ghost predicate Turned(info0: seq<GInfo>, info: seq<GInfo>)
    requires info0 != []
  {
    && SumSquares(info, |info|) < SumSquares(info0, |info0|)
    && info0[|info0| - 1].shardCnt > info0[0].shardCnt + 1
  }

  /** What the loop has done since it started: without G8 it follows the as-written run of the sizes. */
  ghost predicate Progress(owner0: seq<GID>, groups0: Groups, info0: seq<GInfo>, g8: bool,
                           placed: seq<GID>, groups: Groups, info: seq<GInfo>, turns: nat) {
    && info0 != []
    && (g8 || Follows(Counts(info0), Counts(info), turns))
    && (Turned(info0, info) || (info == info0 && placed == owner0 && groups == groups0))
  }

  lemma BalancingStart(owner0: seq<GID>, groups0: Groups, info0: seq<GInfo>, g8: bool)
    requires Placed(owner0, groups0) && info0 != [] && InfoOk(info0, groups0) && SortedInfo(info0, 0, |info0|)
    ensures Balancing(groups0, owner0, groups0, info0, g8)
    ensures Progress(owner0, groups0, info0, g8, owner0, groups0, info0, 0)
  {
  }

  lemma ProgressStep(owner0: seq<GID>, groups0: Groups, info0: seq<GInfo>, g8: bool,
                     placed: seq<GID>, groups: Groups, info: seq<GInfo>, turns: nat,
                     placed': seq<GID>, groups': Groups, after: seq<GInfo>)
    requires Progress(owner0, groups0, info0, g8, placed, groups, info, turns)
    requires info != [] && info[|info| - 1].shardCnt > info[0].shardCnt + 1
    requires |info| >= 2 && SumSquares(after, |after|) < SumSquares(info, |info|)
    requires !g8 ==> Counts(after) == StepAsWritten(Counts(info))
    ensures Progress(owner0, groups0, info0, g8, placed', groups', after, turns + 1)
  {
    if !g8 {
      FollowsOn(Counts(info0), Counts(info), turns);
    }
  }

  lemma ProgressDone(owner0: seq<GID>, groups0: Groups, info0: seq<GInfo>, g8: bool,
                     placed: seq<GID>, groups: Groups, info: seq<GInfo>, turns: nat)
    requires Placed(owner0, groups0) && InfoOk(info0, groups0)
    requires Balancing(groups0, placed, groups, info, g8) && info[|info| - 1].shardCnt - info[0].shardCnt <= 1
    requires Progress(owner0, groups0, info0, g8, placed, groups, info, turns)
    ensures g8 ==> Balanced(groups) && OneWay(groups0, groups)
    ensures placed == owner0 <==> info0[|info0| - 1].shardCnt <= info0[0].shardCnt + 1
    ensures placed == owner0 ==> groups == groups0
    ensures !g8 ==> EndsAt(Counts(info0), Counts(info), turns)
  {
    if g8 {
      EndsMeetBalanced(info, groups);
    } else {
      FollowsToEnd(Counts(info0), Counts(info), turns);
    }
    if Turned(info0, info) {
      FallMeansMoved(owner0, groups0, info0, placed, groups, info);
    }
  }

  /** shard2gid follows the assignment for the shards that have a group, and stays for the others. */
  ghost predicate Follow(owner0: seq<GID>, placed0: seq<GID>, groups: Groups, owner: seq<GID>, placed: seq<GID>) {
    && |owner| == |placed| == |owner0| == |placed0|
    && (forall s {:trigger owner[s]} :: 0 <= s < |owner| ==>
          owner[s] == if placed0[s] in groups then placed[s] else owner0[s])
    && (forall s {:trigger placed[s]} :: 0 <= s < |placed| ==>
          (placed[s] in groups <==> placed0[s] in groups) && (placed0[s] !in groups ==> placed[s] == placed0[s]))
  }

  lemma FollowOne(owner0: seq<GID>, placed0: seq<GID>, groups: Groups, owner: seq<GID>, placed: seq<GID>, s: nat,
                  b: GID)
    requires Follow(owner0, placed0, groups, owner, placed) && s < |placed| && placed[s] in groups && b in groups
    ensures Follow(owner0, placed0, groups, MoveOwner(owner, s, b), MoveOwner(placed, s, b))
  {
    assert placed0[s] in groups;
  }

  /** What the loop keeps of both assignments. */
  ghost predicate Following(owner0: seq<GID>, placed0: seq<GID>, groups: Groups, owner: seq<GID>, placed: seq<GID>,
                            g7: bool) {
    && Follow(placed0, placed0, groups, placed, placed)
    && if g7 then Follow(owner0, placed0, groups, owner, placed) else owner == owner0
  }

  lemma FollowingOne(owner0: seq<GID>, placed0: seq<GID>, groups: Groups, owner: seq<GID>, placed: seq<GID>, g7: bool,
                     s: nat, b: GID)
    requires Following(owner0, placed0, groups, owner, placed, g7)
    requires s < |placed| && placed[s] in groups && b in groups
    ensures Following(owner0, placed0, groups, if g7 then MoveOwner(owner, s, b) else owner, MoveOwner(placed, s, b),
                      g7)
  {
    FollowOne(placed0, placed0, groups, placed, placed, s, b);
    if g7 {
      FollowOne(owner0, placed0, groups, owner, placed, s, b);
    }
  }

  /** The loop of lines 187-208. placed0 is the assignment that the sets describe, which leaves out the shards that no
      set has; the ghost result placed is the one they describe at the end. With guard G7 shard2gid follows it, as
      written shard2gid is never touched. */
  method Rebalance(owner0: seq<GID>, groups0: Groups, info0: seq<GInfo>, ghost placed0: seq<GID>, g7: bool, g8: bool)
    returns (owner: seq<GID>, groups: Groups, info: seq<GInfo>, ghost placed: seq<GID>, ghost turns: nat)
    requires Placed(placed0, groups0) && info0 != [] && InfoOk(info0, groups0) && SortedInfo(info0, 0, |info0|)
    requires Follow(owner0, placed0, groups0, owner0, placed0)
    ensures groups.Keys == groups0.Keys && |placed| == |owner0|
    ensures Placed(placed, groups) && InfoOk(info, groups)
    ensures Follow(placed0, placed0, groups0, placed, placed)
    ensures if g7 then Follow(owner0, placed0, groups0, owner, placed) else owner == owner0
    ensures info != [] && info[0].shardCnt <= info[|info| - 1].shardCnt <= info[0].shardCnt + 1
    ensures g8 ==> SortedInfo(info, 0, |info|) && Balanced(groups) && OneWay(groups0, groups)
    ensures placed == placed0 <==> info0[|info0| - 1].shardCnt <= info0[0].shardCnt + 1
    ensures placed == placed0 ==> groups == groups0
    ensures !g8 ==> EndsAt(Counts(info0), Counts(info), turns)
  {
    owner, groups, info, placed := owner0, groups0, info0, placed0;
    turns := 0;
    BalancingStart(placed0, groups0, info0, g8);
    while info[|info| - 1].shardCnt - info[0].shardCnt > 1
      invariant Balancing(groups0, placed, groups, info, g8)
      invariant Following(owner0, placed0, groups0, owner, placed, g7)
      invariant Progress(placed0, groups0, info0, g8, placed, groups, info, turns)
      decreases SumSquares(info, |info|)
    {
      var maxg, ming := info[|info| - 1].gid, info[0].gid;
      var s, resorted := Turn(groups0, placed, groups, info, g8);
      var groups1 := MoveShard(groups, s, maxg, ming);
      ghost var placed1 := MoveOwner(placed, s, ming);
      ProgressStep(placed0, groups0, info0, g8, placed, groups, info, turns, placed1, groups1, resorted);
      FollowingOne(owner0, placed0, groups0, owner, placed, g7, s, ming);
      if g7 {
        owner := MoveOwner(owner, s, ming);
      }
      groups, placed, info, turns := groups1, placed1, resorted, turns + 1;
    }
    ProgressDone(placed0, groups0, info0, g8, placed, groups, info, turns);
  }
}
