/** The commit index choice of handleReplicateResultFor: sort the match indices and take the middle one.
    src/raft/raft.cpp:404-411. */
module Median {

  ghost predicate Ascending(s: seq<nat>) {
    forall i, j :: 0 <= i < j < |s| ==> s[i] <= s[j]
  }

  function Insert(s: seq<nat>, x: nat): (r: seq<nat>)
    requires Ascending(s)
    ensures Ascending(r) && |r| == |s| + 1
    ensures r[|s|] == if s == [] || s[|s| - 1] <= x then x else s[|s| - 1]
  {
    if s == [] || s[|s| - 1] <= x then s + [x] else Insert(s[..|s| - 1], x) + [s[|s| - 1]]
  }

  /** The ascending rearrangement of s. */
  function Sorted(s: seq<nat>): (r: seq<nat>)
    ensures Ascending(r) && |r| == |s|
  {
    if s == [] then [] else Insert(Sorted(s[..|s| - 1]), s[|s| - 1])
  }

  lemma {:induction false} InsertContents(s: seq<nat>, x: nat)
    requires Ascending(s)
    ensures multiset(Insert(s, x)) == multiset(s) + multiset{x}
  {
    if s != [] && s[|s| - 1] > x {
      InsertContents(s[..|s| - 1], x);
      assert s == s[..|s| - 1] + [s[|s| - 1]];
    }
  }

  lemma {:induction false} SortedContents(s: seq<nat>)
    ensures multiset(Sorted(s)) == multiset(s)
  {
    if s != [] {
      SortedContents(s[..|s| - 1]);
      InsertContents(Sorted(s[..|s| - 1]), s[|s| - 1]);
      assert s == s[..|s| - 1] + [s[|s| - 1]];
    }
  }

  function MiddleOf(s: seq<nat>): nat
    requires s != []
  {
    Sorted(s)[|s| / 2]
  }

  /** How many of the values are at least v. */
  function CountAtLeast(s: seq<nat>, v: nat): nat {
    if s == [] then 0 else CountAtLeast(s[..|s| - 1], v) + (if s[|s| - 1] >= v then 1 else 0)
  }

  lemma CountWithout(t: seq<nat>, k: nat, v: nat)
    requires k < |t|
    ensures CountAtLeast(t, v) == CountAtLeast(t[..k] + t[k + 1..], v) + (if t[k] >= v then 1 else 0)
  {
    assert t == t[..k + 1] + t[k + 1..];
    CountConcat(t[..k + 1], t[k + 1..], v);
    CountConcat(t[..k], t[k + 1..], v);
    assert t[..k + 1][..k] == t[..k];
  }

  lemma ContentsWithout(t: seq<nat>, k: nat)
    requires k < |t|
    ensures multiset(t[..k] + t[k + 1..]) == multiset(t) - multiset{t[k]}
  {
    assert t == t[..k] + [t[k]] + t[k + 1..];
  }

  /** Counts depend on the contents only, so they are the same for every way to sort. */
  lemma {:induction false} CountOfRearrangement(s: seq<nat>, t: seq<nat>, v: nat)
    requires multiset(s) == multiset(t)
    ensures CountAtLeast(s, v) == CountAtLeast(t, v)
  {
    if s == [] {
      assert |t| == |multiset(t)| == |multiset(s)| == 0;
    } else {
      var last := |s| - 1;
      assert s[last] in multiset(t);
      var k :| 0 <= k < |t| && t[k] == s[last];
      ContentsWithout(s, last);
      ContentsWithout(t, k);
      assert s[..last] + s[last + 1..] == s[..last];
      CountOfRearrangement(s[..last], t[..k] + t[k + 1..], v);
      CountWithout(t, k, v);
    }
  }

  lemma {:induction false} CountConcat(a: seq<nat>, b: seq<nat>, v: nat)
    ensures CountAtLeast(a + b, v) == CountAtLeast(a, v) + CountAtLeast(b, v)
  {
    if b == [] {
      assert a + b == a;
    } else {
      assert (a + b)[..|a + b| - 1] == a + b[..|b| - 1];
      CountConcat(a, b[..|b| - 1], v);
    }
  }

  lemma {:induction false} CountAll(s: seq<nat>, v: nat)
    ensures CountAtLeast(s, v) <= |s|
    ensures (forall k :: 0 <= k < |s| ==> s[k] >= v) ==> CountAtLeast(s, v) == |s|
  {
    if s != [] {
      CountAll(s[..|s| - 1], v);
    }
  }

  lemma {:induction false} CountNone(s: seq<nat>, v: nat)
    requires forall k :: 0 <= k < |s| ==> s[k] < v
    ensures CountAtLeast(s, v) == 0
  {
    if s != [] {
      CountNone(s[..|s| - 1], v);
    }
  }

  /** In an ascending sequence everything from position k on reaches t[k]. */
  lemma CountFrom(t: seq<nat>, k: nat, v: nat)
    requires Ascending(t) && k < |t| && v <= t[k]
    ensures CountAtLeast(t, v) >= |t| - k
  {
    var high := t[k..];
    assert t == t[..k] + high;
    CountConcat(t[..k], high, v);
    CountAll(high, v);
  }

  /** And nothing up to position k exceeds t[k]. */
  lemma CountAbove(t: seq<nat>, k: nat, v: nat)
    requires Ascending(t) && k < |t| && v > t[k]
    ensures CountAtLeast(t, v) <= |t| - k - 1
  {
    var low, high := t[..k + 1], t[k + 1..];
    assert t == low + high;
    CountConcat(low, high, v);
    CountNone(low, v);
    CountAll(high, v);
  }

  /** No value above the middle is reached by more than half, whatever the number of servers. */
  lemma NothingAboveMiddle(s: seq<nat>, v: nat)
    requires s != [] && v > MiddleOf(s)
    ensures 2 * CountAtLeast(s, v) <= |s|
  {
    SortedContents(s);
    CountOfRearrangement(s, Sorted(s), v);
    CountAbove(Sorted(s), |s| / 2, v);
  }

  lemma MiddleOfAscending(t: seq<nat>)
    requires Ascending(t) && t != []
    ensures 2 * CountAtLeast(t, t[|t| / 2]) > |t| <==> |t| % 2 == 1 || t[|t| / 2 - 1] == t[|t| / 2]
  {
    var h := |t| / 2;
    CountFrom(t, h, t[h]);
    if |t| == 2 * h {
      if t[h - 1] == t[h] {
        CountFrom(t, h - 1, t[h]);
      } else {
        CountAbove(t, h - 1, t[h]);
      }
    }
  }

  /** The middle itself is reached by a strict majority exactly when the number of servers is odd (guard G5) or
      the two middle values happen to coincide. */
  lemma MiddleIsMajority(s: seq<nat>)
    requires s != []
    ensures 2 * CountAtLeast(s, MiddleOf(s)) > |s| <==>
              |s| % 2 == 1 || Sorted(s)[|s| / 2 - 1] == Sorted(s)[|s| / 2]
  {
    var t := Sorted(s);
    var m := t[|t| / 2];
    MiddleOfAscending(t);
    SortedContents(s);
    CountOfRearrangement(s, t, m);
    assert CountAtLeast(s, m) == CountAtLeast(t, m);
  }

  /** Any ascending rearrangement, whatever the sorting algorithm, has the same middle. */
  lemma MiddleOfAnySort(s: seq<nat>, t: seq<nat>)
    requires s != [] && Ascending(t) && multiset(t) == multiset(s)
    ensures |t| == |s| && t[|s| / 2] == MiddleOf(s)
  {
    assert |t| == |multiset(t)| == |multiset(s)| == |s|;
    SortedContents(s);
    var u, h := Sorted(s), |s| / 2;
    if t[h] < u[h] {
      CountAbove(t, h, u[h]);
      CountFrom(u, h, u[h]);
      CountOfRearrangement(t, u, u[h]);
    } else if u[h] < t[h] {
      CountAbove(u, h, t[h]);
      CountFrom(t, h, t[h]);
      CountOfRearrangement(t, u, t[h]);
    }
  }

  /** Two servers: the middle is the larger index, which one server alone has reached. */
  lemma EvenClusterFails()
    ensures MiddleOf([0, 7]) == 7 && 2 * CountAtLeast([0, 7], 7) == |[0, 7]|
  {
    var s := [0, 7];
    assert s[..1] == [0] && [0][..0] == [];
    assert Sorted([0]) == [0];
    assert Sorted(s) == Insert([0], 7) == s;
    assert CountAtLeast([0], 7) == 0;
  }
}
