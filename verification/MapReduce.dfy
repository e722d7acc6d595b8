/** What a MapReduce job computes: every task's output is partitioned by hash, the parts are transposed, and each
    column is sorted, grouped and reduced. src/MapReduce/worker.cpp:117-198. */
module MapReduce {
  import opened Text

  type KeyValue = Pair

  /** A user's reduce function; only its first result counts, and it may have none. */
  type Reducer = (string, seq<string>) -> seq<string>

  // ----- one sequential reduce -----

  /** The values of one key, in order. */
  function Values(kvs: seq<KeyValue>, key: string): seq<string> {
    if kvs == [] then []
    else Values(kvs[..|kvs| - 1], key) + if kvs[|kvs| - 1].key == key then [kvs[|kvs| - 1].val] else []
  }

  function Keys(kvs: seq<KeyValue>): set<string> {
    set x | x in kvs :: x.key
  }

  /** The result for one key, if the reducer has one. */
  predicate Emits(kvs: seq<KeyValue>, f: Reducer, x: KeyValue) {
    && x.key in Keys(kvs)
    && f(x.key, Values(kvs, x.key)) != []
    && x.val == f(x.key, Values(kvs, x.key))[0]
  }

  /** The meaning of a job: each key with the reducer applied to all its values. */
  ghost predicate Reduces(out: seq<KeyValue>, kvs: seq<KeyValue>, f: Reducer) {
    forall x {:trigger Emits(kvs, f, x)} {:trigger x in out} :: x in out <==> Emits(kvs, f, x)
  }

  /** The order of the values does not matter to the reducer. */
  ghost predicate OrderInsensitive(f: Reducer) {
    forall key, a, b {:trigger f(key, a), f(key, b)} :: multiset(a) == multiset(b) ==> f(key, a) == f(key, b)
  }

  lemma {:induction false} ValuesCount(kvs: seq<KeyValue>, key: string, val: string)
    ensures multiset(Values(kvs, key))[val] == multiset(kvs)[Pair(key, val)]
  {
    if kvs != [] {
      var n := |kvs| - 1;
      ValuesCount(kvs[..n], key, val);
      assert kvs == kvs[..n] + [kvs[n]];
    }
  }

  lemma KeysRearranged(a: seq<KeyValue>, b: seq<KeyValue>)
    requires multiset(a) == multiset(b)
    ensures Keys(a) == Keys(b)
  {
    assert forall x :: x in a <==> x in multiset(a);
    assert forall x :: x in b <==> x in multiset(b);
  }

  /** For an order-insensitive reducer the job means the same on any rearrangement of its input. */
  lemma EmitsRearranged(a: seq<KeyValue>, b: seq<KeyValue>, f: Reducer, x: KeyValue)
    requires multiset(a) == multiset(b) && OrderInsensitive(f)
    ensures Emits(a, f, x) <==> Emits(b, f, x)
  {
    KeysRearranged(a, b);
    var va, vb := Values(a, x.key), Values(b, x.key);
    forall v ensures multiset(va)[v] == multiset(vb)[v] {
      ValuesCount(a, x.key, v);
      ValuesCount(b, x.key, v);
    }
    assert multiset(va) == multiset(vb);
    assert f(x.key, va) == f(x.key, vb);
  }

  // ----- partition and transposition -----

  /** The pairs that go to reduce task i of n. */
  function Part(kvs: seq<KeyValue>, hash: string -> nat, n: nat, i: nat): seq<KeyValue>
    requires n > 0
  {
    if kvs == [] then []
    else
      Part(kvs[..|kvs| - 1], hash, n, i) +
      if hash(kvs[|kvs| - 1].key) % n == i then [kvs[|kvs| - 1]] else []
  }

  function Flatten(lists: seq<seq<KeyValue>>): seq<KeyValue> {
    if lists == [] then [] else Flatten(lists[..|lists| - 1]) + lists[|lists| - 1]
  }

  /** Column i: what each map task has for reduce task i. */
  function Column(maps: seq<seq<KeyValue>>, hash: string -> nat, n: nat, i: nat): (r: seq<seq<KeyValue>>)
    requires n > 0
    ensures |r| == |maps|
  {
    seq(|maps|, j requires 0 <= j < |maps| => Part(maps[j], hash, n, i))
  }

  lemma {:induction false} PartConcat(a: seq<KeyValue>, b: seq<KeyValue>, hash: string -> nat, n: nat, i: nat)
    requires n > 0
    ensures Part(a + b, hash, n, i) == Part(a, hash, n, i) + Part(b, hash, n, i)
  {
    if b == [] {
      assert a + b == a;
    } else {
      var m := |b| - 1;
      PartConcat(a, b[..m], hash, n, i);
      assert (a + b)[..|a + b| - 1] == a + b[..m];
    }
  }

  /** Partitioning each map output and putting a column together is partitioning everything. */
  lemma {:induction false} ColumnIsPart(maps: seq<seq<KeyValue>>, hash: string -> nat, n: nat, i: nat)
    requires n > 0
    ensures Flatten(Column(maps, hash, n, i)) == Part(Flatten(maps), hash, n, i)
  {
    if maps != [] {
      var m := |maps| - 1;
      ColumnIsPart(maps[..m], hash, n, i);
      PartConcat(Flatten(maps[..m]), maps[m], hash, n, i);
      assert Column(maps, hash, n, i)[..m] == Column(maps[..m], hash, n, i);
    }
  }

  lemma {:induction false} PartValues(kvs: seq<KeyValue>, hash: string -> nat, n: nat, i: nat, key: string)
    requires n > 0
    ensures Values(Part(kvs, hash, n, i), key) == if hash(key) % n == i then Values(kvs, key) else []
  {
    if kvs != [] {
      var m := |kvs| - 1;
      PartValues(kvs[..m], hash, n, i, key);
      var before, last := Part(kvs[..m], hash, n, i), kvs[m];
      assert (before + [last])[..|before + [last]| - 1] == before;
      assert before + [] == before;
    }
  }

  lemma {:induction false} PartMembers(kvs: seq<KeyValue>, hash: string -> nat, n: nat, i: nat, x: KeyValue)
    requires n > 0
    ensures x in Part(kvs, hash, n, i) <==> x in kvs && hash(x.key) % n == i
  {
    if kvs != [] {
      PartMembers(kvs[..|kvs| - 1], hash, n, i, x);
      assert kvs == kvs[..|kvs| - 1] + [kvs[|kvs| - 1]];
    }
  }

  lemma PartEmits(kvs: seq<KeyValue>, hash: string -> nat, n: nat, i: nat, f: Reducer, x: KeyValue)
    requires n > 0
    ensures Emits(Part(kvs, hash, n, i), f, x) <==> Emits(kvs, f, x) && hash(x.key) % n == i
  {
    var part := Part(kvs, hash, n, i);
    PartValues(kvs, hash, n, i, x.key);
    forall y ensures y in part <==> y in kvs && hash(y.key) % n == i {
      PartMembers(kvs, hash, n, i, y);
    }
    if x.key in Keys(kvs) {
      var y :| y in kvs && y.key == x.key;
      assert hash(x.key) % n == i ==> y in part;
    }
  }

  /** The pair is in one of the outputs. */
  ghost predicate InSome(outs: seq<seq<KeyValue>>, x: KeyValue) {
    exists i :: 0 <= i < |outs| && x in outs[i]
  }

  /** Distributed MapReduce equals sequential: the N reduce outputs together are the one reduce of everything that all
      map tasks produced, and no key is in two of them. */
  lemma DistributedEqualsSequential(maps: seq<seq<KeyValue>>, hash: string -> nat, n: nat, f: Reducer,
                                    outs: seq<seq<KeyValue>>)
    requires n > 0 && |outs| == n
    requires forall i {:trigger outs[i]} :: 0 <= i < n ==> Reduces(outs[i], Flatten(Column(maps, hash, n, i)), f)
    ensures forall x {:trigger Emits(Flatten(maps), f, x)} {:trigger InSome(outs, x)} ::
      InSome(outs, x) <==> Emits(Flatten(maps), f, x)
    ensures forall i, j, x, y {:trigger x in outs[i], y in outs[j]} ::
      0 <= i < n && 0 <= j < n && x in outs[i] && y in outs[j] && x.key == y.key ==> i == j && x == y
  {
    var all := Flatten(maps);
    forall i, x | 0 <= i < n ensures x in outs[i] <==> Emits(all, f, x) && hash(x.key) % n == i {
      ColumnIsPart(maps, hash, n, i);
      PartEmits(all, hash, n, i, f, x);
      assert x in outs[i] <==> Emits(Flatten(Column(maps, hash, n, i)), f, x);
    }
    forall x ensures InSome(outs, x) <==> Emits(all, f, x) {
      var i := hash(x.key) % n;
      assert Emits(all, f, x) <==> x in outs[i];
    }
  }
}
