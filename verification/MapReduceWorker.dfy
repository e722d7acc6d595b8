/** The worker's loops: partitioning to files, reading a column back, and one pass over the sorted pairs.
    src/MapReduce/worker.cpp:117-198. */
module MapReduceWorker {
  import opened RaftTypes
  import opened Text
  import opened MapReduce

  // ----- the order of std::string -----

  predicate Less(a: string, b: string) {
    b != "" && (a == "" || a[0] < b[0] || (a[0] == b[0] && Less(a[1..], b[1..])))
  }

  /** a has the smaller character at k, where the two first differ. */
  predicate DiffersAt(a: string, b: string, k: nat) {
    k < |a| && k < |b| && a[..k] == b[..k] && a[k] < b[k]
  }

  lemma DiffersLater(a: string, b: string, k: nat)
    requires a != "" && b != "" && a[0] == b[0]
    ensures !DiffersAt(a, b, 0) && (DiffersAt(a, b, k + 1) <==> DiffersAt(a[1..], b[1..], k))
  {
    if k + 1 <= |a| && k + 1 <= |b| {
      assert a[..k + 1] == [a[0]] + a[1..][..k] && b[..k + 1] == [b[0]] + b[1..][..k];
      assert a[1..][..k] == a[..k + 1][1..] && b[1..][..k] == b[..k + 1][1..];
    }
  }

  /** A string is less than another if it is a proper beginning of it, or has the smaller character where they first
      differ. */
  lemma {:induction false} LessMeans(a: string, b: string)
    ensures Less(a, b) <==> a < b || exists k: nat :: DiffersAt(a, b, k)
  {
    if a == "" || b == "" {
    } else if a[0] == b[0] {
      LessMeans(a[1..], b[1..]);
      assert a == [a[0]] + a[1..] && b == [b[0]] + b[1..];
      DiffersLater(a, b, 0);
      forall k: nat | DiffersAt(a[1..], b[1..], k) ensures DiffersAt(a, b, k + 1) {
        DiffersLater(a, b, k);
      }
      forall k: nat | DiffersAt(a, b, k) ensures k > 0 && DiffersAt(a[1..], b[1..], k - 1) {
        if k > 0 { DiffersLater(a, b, k - 1); }
      }
    } else {
      assert a[0] < b[0] ==> DiffersAt(a, b, 0);
      forall k: nat | DiffersAt(a, b, k) ensures a[0] < b[0] {
        if k > 0 { assert a[..k][0] == b[..k][0]; }
      }
    }
  }

  lemma {:induction false} LessTransitive(a: string, b: string, c: string)
    requires Less(a, b) && Less(b, c)
    ensures Less(a, c)
  {
    if a != "" && a[0] == b[0] == c[0] {
      LessTransitive(a[1..], b[1..], c[1..]);
    }
  }

  lemma {:induction false} LessTotal(a: string, b: string)
    ensures Less(a, b) || a == b || Less(b, a)
    ensures !(Less(a, b) && Less(b, a)) && (a == b ==> !Less(a, b))
  {
    if a != "" && b != "" {
      LessTotal(a[1..], b[1..]);
      assert a == [a[0]] + a[1..] && b == [b[0]] + b[1..];
    }
  }

  predicate NotAfter(a: KeyValue, b: KeyValue) {
    !Less(b.key, a.key)
  }

  ghost predicate Ascending(kvs: seq<KeyValue>) {
    forall j, k {:trigger NotAfter(kvs[j], kvs[k])} :: 0 <= j < k < |kvs| ==> NotAfter(kvs[j], kvs[k])
  }

  predicate Before(a: KeyValue, b: KeyValue) {
    Less(a.key, b.key)
  }

  ghost predicate StrictlyAscending(kvs: seq<KeyValue>) {
    forall j, k {:trigger Before(kvs[j], kvs[k])} :: 0 <= j < k < |kvs| ==> Before(kvs[j], kvs[k])
  }

  lemma NotAfterTransitive(a: KeyValue, b: KeyValue, c: KeyValue)
    requires NotAfter(a, b) && NotAfter(b, c)
    ensures NotAfter(a, c)
  {
    LessTotal(a.key, b.key);
    LessTotal(b.key, c.key);
    LessTotal(a.key, c.key);
    if Less(a.key, b.key) && Less(b.key, c.key) {
      LessTransitive(a.key, b.key, c.key);
    }
  }

  // ----- sorting -----

  lemma Inserted(r: seq<KeyValue>, k: nat, x: KeyValue)
    requires k <= |r| && Ascending(r)
    requires k > 0 ==> NotAfter(r[k - 1], x)
    requires k < |r| ==> NotAfter(x, r[k])
    ensures Ascending(r[..k] + [x] + r[k..])
  {
    var s := r[..k] + [x] + r[k..];
    forall i, j | 0 <= i < j < |s| ensures NotAfter(s[i], s[j]) {
      if j == k {
        assert i < k - 1 ==> NotAfter(r[i], r[k - 1]);
        if i < k - 1 {
          NotAfterTransitive(r[i], r[k - 1], x);
        }
      } else if i == k {
        assert j > k + 1 ==> NotAfter(r[k], r[j - 1]);
        if j > k + 1 {
          NotAfterTransitive(x, r[k], r[j - 1]);
        }
      } else {
        assert NotAfter(r[if i < k then i else i - 1], r[if j < k then j else j - 1]);
      }
    }
  }

  lemma InsertedContents(r: seq<KeyValue>, k: nat, kvs: seq<KeyValue>, n: nat)
    requires k <= |r| && n < |kvs| && multiset(r) == multiset(kvs[..n])
    ensures multiset(r[..k] + [kvs[n]] + r[k..]) == multiset(kvs[..n + 1])
  {
    assert r == r[..k] + r[k..] && kvs[..n + 1] == kvs[..n] + [kvs[n]];
  }

  /** Ascending by key; pairs with one key may come in any order, as std::sort is not stable. */
  method SortByKey(kvs: seq<KeyValue>) returns (r: seq<KeyValue>)
    ensures multiset(r) == multiset(kvs) && Ascending(r)
  {
    r := [];
    for n := 0 to |kvs|
      invariant |r| == n && multiset(r) == multiset(kvs[..n]) && Ascending(r)
    {
      var k := 0;
      while k < n && Less(r[k].key, kvs[n].key)
        invariant k <= n && (k > 0 ==> NotAfter(r[k - 1], kvs[n]))
      {
        LessTotal(r[k].key, kvs[n].key);
        k := k + 1;
      }
      Inserted(r, k, kvs[n]);
      InsertedContents(r, k, kvs, n);
      r := r[..k] + [kvs[n]] + r[k..];
    }
    assert kvs[..|kvs|] == kvs;
  }

  // ----- grouping -----

  lemma EmitsOther(kvs: seq<KeyValue>, e: KeyValue, f: Reducer, x: KeyValue)
    requires x.key != e.key
    ensures Emits(kvs + [e], f, x) <==> Emits(kvs, f, x)
  {
    var more := kvs + [e];
    assert more[..|more| - 1] == kvs;
    assert Values(more, x.key) == Values(kvs, x.key) + [] == Values(kvs, x.key);
    assert forall y :: y in more <==> y in kvs || y == e;
    assert x.key in Keys(more) <==> x.key in Keys(kvs);
  }

  lemma {:induction false} NoValues(kvs: seq<KeyValue>, key: string)
    requires key !in Keys(kvs)
    ensures Values(kvs, key) == []
  {
    if kvs != [] {
      var n := |kvs| - 1;
      assert kvs[n] in kvs && kvs[n].key in Keys(kvs);
      forall x | x in kvs[..n] ensures x.key in Keys(kvs) {
        assert x in kvs;
      }
      NoValues(kvs[..n], key);
    }
  }

  /** The outputs so far are right for every key but the one being collected. */
  ghost predicate Grouped(ans: seq<KeyValue>, kvs: seq<KeyValue>, f: Reducer, preKey: string) {
    && StrictlyAscending(ans)
    && (forall x {:trigger x in ans} :: x in ans ==> Less(x.key, preKey))
    && (forall x {:trigger Emits(kvs, f, x)} {:trigger x in ans} :: x in ans <==> Emits(kvs, f, x) && x.key != preKey)
  }

  function Result(key: string, vals: seq<string>, f: Reducer): seq<KeyValue> {
    var rs := f(key, vals);
    if rs != [] then [Pair(key, rs[0])] else []
  }

  /** Emitting the collected key completes the outputs. */
  lemma EmitCollected(ans: seq<KeyValue>, kvs: seq<KeyValue>, f: Reducer, preKey: string, vals: seq<string>)
    requires Grouped(ans, kvs, f, preKey) && preKey in Keys(kvs) && vals == Values(kvs, preKey)
    ensures var ans' := ans + Result(preKey, vals, f); StrictlyAscending(ans') && Reduces(ans', kvs, f)
  {
    var ans' := ans + Result(preKey, vals, f);
    forall j, k | 0 <= j < k < |ans'| ensures Before(ans'[j], ans'[k]) {
      assert k < |ans| ==> Before(ans[j], ans[k]);
      assert ans[j] in ans;
    }
    forall x ensures x in ans' <==> Emits(kvs, f, x) {
      assert x in ans' <==> x in ans || x in Result(preKey, vals, f);
    }
  }

  /** One more pair with the key being collected. */
  lemma SameKey(ans: seq<KeyValue>, kvs: seq<KeyValue>, f: Reducer, e: KeyValue)
    requires Grouped(ans, kvs, f, e.key)
    ensures Grouped(ans, kvs + [e], f, e.key)
    ensures Values(kvs + [e], e.key) == Values(kvs, e.key) + [e.val]
  {
    assert (kvs + [e])[..|kvs + [e]| - 1] == kvs;
    forall x ensures x in ans <==> Emits(kvs + [e], f, x) && x.key != e.key {
      if x.key != e.key {
        EmitsOther(kvs, e, f, x);
      }
    }
  }

  /** A pair with a new key, greater than all before. */
  lemma NewKey(ans: seq<KeyValue>, kvs: seq<KeyValue>, f: Reducer, e: KeyValue)
    requires StrictlyAscending(ans) && Reduces(ans, kvs, f)
    requires forall x {:trigger x in kvs} :: x in kvs ==> Less(x.key, e.key)
    ensures Grouped(ans, kvs + [e], f, e.key)
    ensures Values(kvs + [e], e.key) == [e.val]
  {
    LessTotal(e.key, e.key);
    NoValues(kvs, e.key);
    assert (kvs + [e])[..|kvs + [e]| - 1] == kvs;
    forall x | x in ans ensures Less(x.key, e.key) {
      assert Emits(kvs, f, x);
    }
    forall x ensures x in ans <==> Emits(kvs + [e], f, x) && x.key != e.key {
      assert x in ans <==> Emits(kvs, f, x);
      if x.key != e.key {
        EmitsOther(kvs, e, f, x);
      }
    }
  }

  lemma AllBefore(s: seq<KeyValue>, i: nat)
    requires Ascending(s) && 0 < i < |s| && s[i].key != s[i - 1].key
    ensures forall x {:trigger x in s[..i]} :: x in s[..i] ==> Less(x.key, s[i].key)
  {
    forall x | x in s[..i] ensures Less(x.key, s[i].key) {
      var j :| 0 <= j < i && s[j] == x;
      assert NotAfter(s[i - 1], s[i]) && (j < i - 1 ==> NotAfter(s[j], s[i - 1]));
      LessTotal(s[j].key, s[i - 1].key);
      LessTotal(s[i - 1].key, s[i].key);
      if j < i - 1 && Less(s[j].key, s[i - 1].key) {
        LessTransitive(s[j].key, s[i - 1].key, s[i].key);
      }
    }
  }

  /** Sort, then one pass: preKey is the key being collected and vals what it has so far. */
  method ReduceKV(kvs: seq<KeyValue>, f: Reducer) returns (ans: seq<KeyValue>, ghost sorted: seq<KeyValue>)
    ensures multiset(sorted) == multiset(kvs) && Ascending(sorted)
    ensures StrictlyAscending(ans) && Reduces(ans, sorted, f)
    ensures OrderInsensitive(f) ==> Reduces(ans, kvs, f)
  {
    if kvs == [] {
      ans, sorted := [], [];
      return;
    }
    var s := SortByKey(kvs);
    sorted := s;
    assert |multiset(s)| == |s| && |multiset(kvs)| == |kvs|;
    var preKey, vals := s[0].key, [];
    ans := [];
    for i := 0 to |s|
      invariant preKey == s[if i == 0 then 0 else i - 1].key && vals == Values(s[..i], preKey)
      invariant Grouped(ans, s[..i], f, preKey)
    {
      assert s[..i + 1] == s[..i] + [s[i]];
      if preKey != s[i].key {
        assert s[i - 1] in s[..i];
        EmitCollected(ans, s[..i], f, preKey, vals);
        AllBefore(s, i);
        var rs := f(preKey, vals);
        if rs != [] {
          ans := ans + [Pair(preKey, rs[0])];
        }
        NewKey(ans, s[..i], f, s[i]);
        preKey, vals := s[i].key, [s[i].val];
      } else {
        SameKey(ans, s[..i], f, s[i]);
        vals := vals + [s[i].val];
      }
    }
    assert s[..|s|] == s && s[|s| - 1] in s;
    EmitCollected(ans, s, f, preKey, vals);
    var rs := f(preKey, vals);
    if rs != [] {
      ans := ans + [Pair(preKey, rs[0])];
    }
    if OrderInsensitive(f) {
      forall x ensures x in ans <==> Emits(kvs, f, x) {
        EmitsRearranged(s, kvs, f, x);
      }
    }
  }

  // ----- files -----

  /** A file of tab-separated pairs. */
  function Lines(kvs: seq<KeyValue>): string {
    if kvs == [] then "" else PairLine(kvs[0].key, '\t', kvs[0].val) + Lines(kvs[1..])
  }

  ghost predicate CleanPairs(kvs: seq<KeyValue>) {
    forall x {:trigger x in kvs} :: x in kvs ==> CleanPair(x)
  }

  lemma {:induction false} LinesAppend(kvs: seq<KeyValue>, e: KeyValue)
    ensures Lines(kvs + [e]) == Lines(kvs) + PairLine(e.key, '\t', e.val)
  {
    if kvs == [] {
      assert kvs + [e] == [e];
    } else {
      LinesAppend(kvs[1..], e);
      assert (kvs + [e])[0] == kvs[0] && (kvs + [e])[1..] == kvs[1..] + [e];
      Associative(PairLine(kvs[0].key, '\t', kvs[0].val), Lines(kvs[1..]), PairLine(e.key, '\t', e.val));
    }
  }

  /** The pairs come back from the file if and only if all keys and values are words. */
  lemma {:induction false} LinesRoundTrip(kvs: seq<KeyValue>)
    ensures ReadPairs(Lines(kvs)) == kvs <==> CleanPairs(kvs)
  {
    if kvs != [] {
      var e := kvs[0];
      assert kvs == [e] + kvs[1..];
      LinesRoundTrip(kvs[1..]);
      if CleanPair(e) {
        ReadPairsBack(e.key, '\t', e.val, Lines(kvs[1..]));
        var back := ReadPairs(Lines(kvs[1..]));
        assert ReadPairs(Lines(kvs)) == [e] + back && ([e] + back)[1..] == back;
        assert forall x :: x in kvs <==> x == e || x in kvs[1..];
      } else {
        var back := ReadPairs(Lines(kvs));
        assert e in kvs;
        assert back != [] ==> CleanPair(back[0]);
      }
    } else {
      PairsAtEnd();
    }
  }

  /** divideResultsToFile: each pair is written to the file its hash names. */
  method DivideResults(rs: seq<KeyValue>, hash: string -> nat, n: nat) returns (files: seq<string>)
    requires n > 0
    ensures |files| == n && forall i {:trigger files[i]} :: 0 <= i < n ==> files[i] == Lines(Part(rs, hash, n, i))
  {
    files := seq(n, _ => "");
    for k := 0 to |rs|
      invariant |files| == n
      invariant forall i {:trigger files[i]} :: 0 <= i < n ==> files[i] == Lines(Part(rs[..k], hash, n, i))
    {
      var h := hash(rs[k].key) % n;
      assert rs[..k + 1][..k] == rs[..k];
      LinesAppend(Part(rs[..k], hash, n, h), rs[k]);
      forall i | 0 <= i < n && i != h ensures Part(rs[..k + 1], hash, n, i) == Part(rs[..k], hash, n, i) {
        assert Part(rs[..k], hash, n, i) + [] == Part(rs[..k], hash, n, i);
      }
      files := files[h := files[h] + PairLine(rs[k].key, '\t', rs[k].val)];
    }
    assert rs[..|rs|] == rs;
  }

  /** Reads a whole column. */
  function ReadColumn(files: seq<string>): seq<KeyValue> {
    if files == [] then [] else ReadColumn(files[..|files| - 1]) + ReadPairs(files[|files| - 1])
  }

  lemma {:induction false} ColumnBack(files: seq<string>, lists: seq<seq<KeyValue>>)
    requires |files| == |lists|
    requires forall j :: 0 <= j < |files| ==> files[j] == Lines(lists[j]) && CleanPairs(lists[j])
    ensures ReadColumn(files) == Flatten(lists)
  {
    if files != [] {
      var n := |files| - 1;
      ColumnBack(files[..n], lists[..n]);
      LinesRoundTrip(lists[n]);
    }
  }

  /** The reading loop over one file. */
  method ReadFile(file: string) returns (kvs: seq<KeyValue>)
    ensures kvs == ReadPairs(file)
  {
    kvs := [];
    var rest := file;
    var key := ReadWord(rest);
    var val := if key.Some? then ReadWord(key.value.1) else None;
    while val.Some?
      invariant key == ReadWord(rest) && val == if key.Some? then ReadWord(key.value.1) else None
      invariant kvs + ReadPairs(rest) == ReadPairs(file)
      decreases |rest|
    {
      var e := Pair(key.value.0, val.value.0);
      assert kvs + ([e] + ReadPairs(val.value.1)) == kvs + [e] + ReadPairs(val.value.1);
      kvs, rest := kvs + [e], val.value.1;
      key := ReadWord(rest);
      val := if key.Some? then ReadWord(key.value.1) else None;
    }
  }

  method ReadFiles(files: seq<string>) returns (kvs: seq<KeyValue>)
    ensures kvs == ReadColumn(files)
  {
    kvs := [];
    for j := 0 to |files|
      invariant kvs == ReadColumn(files[..j])
    {
      assert files[..j + 1][..j] == files[..j];
      var more := ReadFile(files[j]);
      kvs := kvs + more;
    }
    assert files[..|files|] == files;
  }

  /** What a finished reduce task has written: the reduce of its column, in ascending order of the keys. */
  ghost predicate IsOutput(file: string, kvs: seq<KeyValue>, f: Reducer, ans: seq<KeyValue>) {
    file == Lines(ans) && StrictlyAscending(ans) && Reduces(ans, kvs, f)
  }

  method DoReduceTask(files: seq<string>, f: Reducer) returns (file: string, ghost ans: seq<KeyValue>)
    ensures OrderInsensitive(f) ==> IsOutput(file, ReadColumn(files), f, ans)
  {
    var kvs := ReadFiles(files);
    var out;
    ghost var sorted;
    out, sorted := ReduceKV(kvs, f);
    ans := out;
    file := "";
    for k := 0 to |out|
      invariant file == Lines(out[..k])
    {
      LinesAppend(out[..k], out[k]);
      assert out[..k + 1] == out[..k] + [out[k]];
      file := file + PairLine(out[k].key, '\t', out[k].val);
    }
    assert out[..|out|] == out;
  }
}
