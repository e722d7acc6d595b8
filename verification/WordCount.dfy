/** The word count job: the maximal runs of letters of a text, and how often each occurs.
    src/MapReduce/user-program/WordCount.cpp:12-41. */
module WordCount {
  import opened Text
  import opened MapReduce
  import opened MapReduceWorker

  /** isalpha in the C locale. */
  predicate IsAlpha(c: char) {
    'a' <= c <= 'z' || 'A' <= c <= 'Z'
  }

  lemma LettersAre(c: char)
    ensures IsAlpha(c) <==> 65 <= c as int <= 90 || 97 <= c as int <= 122
  {
  }

  predicate LetterAt(s: string, k: int) {
    0 <= k < |s| && IsAlpha(s[k])
  }

  /** Places i, ..., j - 1 hold letters, and neither neighbour does. */
  ghost predicate IsRun(s: string, i: nat, j: nat) {
    && i < j <= |s|
    && (forall k {:trigger LetterAt(s, k)} :: i <= k < j ==> LetterAt(s, k))
    && !LetterAt(s, i - 1) && !LetterAt(s, j)
  }

  /** The runs that start before place n, in order. */
  ghost predicate Runs(s: string, runs: seq<(nat, nat)>, n: nat) {
    && (forall i: nat, j: nat {:trigger IsRun(s, i, j)} :: IsRun(s, i, j) && i < n <==> (i, j) in runs)
    && (forall a, b :: 0 <= a < b < |runs| ==> runs[a].1 < runs[b].0)
  }

  /** Word k is run k, with a count of 1. */
  ghost predicate Counted(s: string, runs: seq<(nat, nat)>, rs: seq<KeyValue>) {
    && |rs| == |runs|
    && forall k {:trigger rs[k]} {:trigger runs[k]} :: 0 <= k < |rs| ==>
         runs[k].0 <= runs[k].1 <= |s| && rs[k] == Pair(s[runs[k].0..runs[k].1], "1")
  }

  /** Maximal runs do not overlap or touch. */
  lemma RunsApart(s: string, i: nat, j: nat, a: nat, b: nat)
    requires IsRun(s, i, j) && IsRun(s, a, b) && i <= a
    ensures (a == i && b == j) || j < a
  {
    assert i < a <= j ==> LetterAt(s, a - 1);
    assert a == i && b < j ==> LetterAt(s, b);
    assert a == i && j < b ==> LetterAt(s, j);
  }

  /** A run found at i is the only one that starts before the next letter. */
  lemma NextRun(s: string, runs: seq<(nat, nat)>, i: nat, j: nat, next: nat)
    requires Runs(s, runs, i) && IsRun(s, i, j) && j <= next <= |s|
    requires forall k {:trigger LetterAt(s, k)} :: j <= k < next ==> !LetterAt(s, k)
    ensures Runs(s, runs + [(i, j)], next)
  {
    forall a: nat, b: nat ensures IsRun(s, a, b) && a < next <==> (a, b) in runs + [(i, j)] {
      assert (a, b) in runs <==> IsRun(s, a, b) && a < i;
      if IsRun(s, a, b) && i <= a {
        RunsApart(s, i, j, a, b);
        assert LetterAt(s, a);
      }
    }
    forall a, b | 0 <= a < b < |runs + [(i, j)]| ensures (runs + [(i, j)])[a].1 < (runs + [(i, j)])[b].0 {
      if b == |runs| {
        assert runs[a] in runs;
        RunsApart(s, runs[a].0, runs[a].1, i, j);
      }
    }
  }

  lemma NoRun(s: string, i: nat)
    requires i <= |s| && forall k {:trigger LetterAt(s, k)} :: 0 <= k < i ==> !LetterAt(s, k)
    ensures Runs(s, [], i)
  {
    forall a: nat, b: nat | IsRun(s, a, b) ensures a >= i {
      assert LetterAt(s, a);
    }
  }

  lemma RunsAreWords(s: string, runs: seq<(nat, nat)>, rs: seq<KeyValue>)
    requires Runs(s, runs, |s|) && Counted(s, runs, rs)
    ensures CleanPairs(rs)
  {
    forall x | x in rs ensures CleanPair(x) {
      var k :| 0 <= k < |rs| && rs[k] == x;
      var (i, j) := runs[k];
      assert (i, j) in runs && IsRun(s, i, j);
      forall m | 0 <= m < |x.key| ensures !IsSpace(x.key[m]) {
        assert LetterAt(s, i + m);
      }
    }
  }

  /** wordCountMapF emits exactly the maximal runs of letters, in order, and comes to an end. */
  method WordCountMapF(value: string) returns (rs: seq<KeyValue>, ghost runs: seq<(nat, nat)>)
    ensures Runs(value, runs, |value|) && Counted(value, runs, rs)
    ensures CleanPairs(rs)
  {
    var n := |value|;
    var i := 0;
    runs := [];
    while i < n && !IsAlpha(value[i])
      invariant i <= n && forall k {:trigger LetterAt(value, k)} :: 0 <= k < i ==> !LetterAt(value, k)
    {
      i := i + 1;
    }
    NoRun(value, i);
    rs := [];
    var j := i;
    while i < n
      invariant j == i <= n && (i < n ==> LetterAt(value, i) && !LetterAt(value, i - 1))
      invariant Runs(value, runs, i) && Counted(value, runs, rs)
    {
      while j < n && IsAlpha(value[j])
        invariant i <= j <= n && forall k {:trigger LetterAt(value, k)} :: i <= k < j ==> LetterAt(value, k)
      {
        j := j + 1;
      }
      ghost var end := j;
      assert IsRun(value, i, end);
      rs := rs + [Pair(value[i..j], "1")];
      while j < n && !IsAlpha(value[j])
        invariant end <= j <= n && forall k {:trigger LetterAt(value, k)} :: end <= k < j ==> !LetterAt(value, k)
      {
        j := j + 1;
      }
      NextRun(value, runs, i, end, j);
      runs := runs + [(i, end)];
      i := j;
    }
    RunsAreWords(value, runs, rs);
  }

  /** The number of values, which are all "1". */
  function WordCountReduceF(key: string, values: seq<string>): seq<string> {
    [PrintInt(|values|)]
  }

  function Reduce(): Reducer {
    (key, values) => WordCountReduceF(key, values)
  }

  lemma CountIgnoresOrder()
    ensures OrderInsensitive(Reduce())
  {
    forall key, a, b | multiset(a) == multiset(b) ensures Reduce()(key, a) == Reduce()(key, b) {
      assert |multiset(a)| == |a| && |multiset(b)| == |b|;
    }
  }

  /** The number of pairs with this key. */
  function Occurrences(kvs: seq<KeyValue>, word: string): nat {
    if kvs == [] then 0 else Occurrences(kvs[..|kvs| - 1], word) + if kvs[|kvs| - 1].key == word then 1 else 0
  }

  lemma {:induction false} ValuesAreOccurrences(kvs: seq<KeyValue>, word: string)
    ensures |Values(kvs, word)| == Occurrences(kvs, word)
  {
    if kvs != [] {
      ValuesAreOccurrences(kvs[..|kvs| - 1], word);
    }
  }

  /** The set of runs that spell the word. */
  ghost function RunsOf(s: string, runs: seq<(nat, nat)>, word: string): set<(nat, nat)> {
    set r | r in runs && r.0 <= r.1 <= |s| && s[r.0..r.1] == word
  }

  /** In one text a word occurs as a key once for each maximal run that spells it. */
  lemma {:induction false} OccurrencesAreRuns(s: string, runs: seq<(nat, nat)>, rs: seq<KeyValue>, word: string)
    requires Counted(s, runs, rs) && forall a, b :: 0 <= a < b < |runs| ==> runs[a].1 < runs[b].0
    requires forall a :: 0 <= a < |runs| ==> runs[a].0 < runs[a].1
    ensures Occurrences(rs, word) == |RunsOf(s, runs, word)|
  {
    if rs == [] {
      assert RunsOf(s, runs, word) == {};
    } else {
      var n := |rs| - 1;
      assert Counted(s, runs[..n], rs[..n]) by {
        assert forall k :: 0 <= k < n ==> rs[..n][k] == rs[k] && runs[..n][k] == runs[k];
      }
      OccurrencesAreRuns(s, runs[..n], rs[..n], word);
      var r := runs[n];
      assert runs == runs[..n] + [r];
      OneMoreRun(s, runs[..n], r, word);
      assert rs[n] == Pair(s[r.0..r.1], "1");
    }
  }

  lemma OneMoreRun(s: string, runs: seq<(nat, nat)>, r: (nat, nat), word: string)
    requires r !in runs && r.0 <= r.1 <= |s|
    ensures |RunsOf(s, runs + [r], word)| == |RunsOf(s, runs, word)| + if s[r.0..r.1] == word then 1 else 0
  {
    if s[r.0..r.1] == word {
      assert RunsOf(s, runs + [r], word) == RunsOf(s, runs, word) + {r};
    } else {
      assert RunsOf(s, runs + [r], word) == RunsOf(s, runs, word);
    }
  }

  lemma {:induction false} OccursWhenKey(kvs: seq<KeyValue>, word: string)
    ensures word in Keys(kvs) <==> Occurrences(kvs, word) > 0
  {
    if kvs != [] {
      var n := |kvs| - 1;
      OccursWhenKey(kvs[..n], word);
      assert forall x :: x in kvs <==> x in kvs[..n] || x == kvs[n];
      assert Keys(kvs) == Keys(kvs[..n]) + {kvs[n].key};
    }
  }

  lemma {:induction false} OccurrencesConcat(a: seq<KeyValue>, b: seq<KeyValue>, word: string)
    ensures Occurrences(a + b, word) == Occurrences(a, word) + Occurrences(b, word)
  {
    if b == [] {
      assert a + b == a;
    } else {
      var n := |b| - 1;
      OccurrencesConcat(a, b[..n], word);
      assert (a + b)[..|a + b| - 1] == a + b[..n];
    }
  }

  /** What the map tasks made of the texts. */
  ghost predicate Mapped(texts: seq<string>, runs: seq<seq<(nat, nat)>>, maps: seq<seq<KeyValue>>) {
    && |runs| == |maps| == |texts|
    && forall j {:trigger maps[j]} :: 0 <= j < |texts| ==>
         Runs(texts[j], runs[j], |texts[j]|) && Counted(texts[j], runs[j], maps[j])
  }

  /** How many maximal runs of letters in all the texts spell the word. */
  ghost function TotalRuns(texts: seq<string>, runs: seq<seq<(nat, nat)>>, word: string): nat
    requires |runs| == |texts|
  {
    if texts == [] then 0
    else
      var n := |texts| - 1;
      TotalRuns(texts[..n], runs[..n], word) + |RunsOf(texts[n], runs[n], word)|
  }

  lemma {:induction false} TotalIsOccurrences(texts: seq<string>, runs: seq<seq<(nat, nat)>>,
                                              maps: seq<seq<KeyValue>>, word: string)
    requires Mapped(texts, runs, maps)
    ensures Occurrences(Flatten(maps), word) == TotalRuns(texts, runs, word)
  {
    if texts != [] {
      var n := |texts| - 1;
      forall j | 0 <= j < n
        ensures Runs(texts[..n][j], runs[..n][j], |texts[..n][j]|) && Counted(texts[..n][j], runs[..n][j], maps[..n][j])
      {
        assert maps[j] == maps[..n][j];
      }
      TotalIsOccurrences(texts[..n], runs[..n], maps[..n], word);
      OccurrencesConcat(Flatten(maps[..n]), maps[n], word);
      forall a | 0 <= a < |runs[n]| ensures runs[n][a].0 < runs[n][a].1 {
        assert runs[n][a] in runs[n];
        var (p, q) := runs[n][a];
        assert IsRun(texts[n], p, q);
      }
      OccurrencesAreRuns(texts[n], runs[n], maps[n], word);
    }
  }

  /** Word count end to end, on any number of texts and reducers: the outputs together hold exactly the words that
      occur, each once and with the number of its maximal runs in all the texts. */
  lemma WordCountJob(texts: seq<string>, runs: seq<seq<(nat, nat)>>, maps: seq<seq<KeyValue>>,
                     hash: string -> nat, n: nat, outs: seq<seq<KeyValue>>)
    requires Mapped(texts, runs, maps) && n > 0 && |outs| == n
    requires forall i {:trigger outs[i]} :: 0 <= i < n ==> Reduces(outs[i], Flatten(Column(maps, hash, n, i)), Reduce())
    ensures forall word, val {:trigger InSome(outs, Pair(word, val))} ::
      InSome(outs, Pair(word, val)) <==>
      TotalRuns(texts, runs, word) > 0 && val == PrintInt(TotalRuns(texts, runs, word))
  {
    DistributedEqualsSequential(maps, hash, n, Reduce(), outs);
    var all := Flatten(maps);
    forall word, val ensures InSome(outs, Pair(word, val)) <==>
      TotalRuns(texts, runs, word) > 0 && val == PrintInt(TotalRuns(texts, runs, word))
    {
      TotalIsOccurrences(texts, runs, maps, word);
      ValuesAreOccurrences(all, word);
      OccursWhenKey(all, word);
      assert InSome(outs, Pair(word, val)) <==> Emits(all, Reduce(), Pair(word, val));
    }
  }
}
