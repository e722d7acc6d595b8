/** The scan, truncate and append loops of appendEntries, once the previous entry matches.
    src/raft/raft.cpp:192-214. */
module RaftMerge {
  import opened RaftTypes
  import opened RaftServer

  /** The entries follow index prev, which the log reaches. */
  ghost predicate Fits(logs: Log, prev: nat, entries: seq<LogEntry>) {
    && Consecutive(logs)
    && prev <= |logs|
    && (forall x :: 0 <= x < |entries| ==> entries[x].index == prev + x + 1)
  }

  /** The first n entries are in the log with the same terms. */
  ghost predicate AgreeUpTo(logs: Log, prev: nat, entries: seq<LogEntry>, n: nat) {
    && n <= |entries| && prev + n <= |logs|
    && (forall x :: 0 <= x < n ==> logs[prev + x].term == entries[x].term)
  }

  ghost predicate FirstConflict(logs: Log, prev: nat, entries: seq<LogEntry>, k: nat) {
    && AgreeUpTo(logs, prev, entries, k)
    && k < |entries| && prev + k < |logs| && logs[prev + k].term != entries[k].term
  }

  /** How many of the entries lie within the log. */
  function Overlap(logs: Log, prev: nat, entries: seq<LogEntry>): nat
    requires prev <= |logs|
  {
    if |entries| <= |logs| - prev then |entries| else |logs| - prev
  }

  ghost predicate NoConflict(logs: Log, prev: nat, entries: seq<LogEntry>) {
    prev <= |logs| && AgreeUpTo(logs, prev, entries, Overlap(logs, prev, entries))
  }

  lemma {:induction false} ScanFinds(logs: Log, prev: nat, entries: seq<LogEntry>, i: nat)
    requires Fits(logs, prev, entries) && AgreeUpTo(logs, prev, entries, i)
    ensures match Scan(logs, entries, i)
            case Present(n) => n == Overlap(logs, prev, entries) && AgreeUpTo(logs, prev, entries, n)
            case Conflict(k) => FirstConflict(logs, prev, entries, k)
            case Unexpected => false
    decreases |entries| - i
  {
    if i < |entries| {
      GetLogConsecutive(logs, entries[i].index);
      if prev + i < |logs| && logs[prev + i].term == entries[i].term {
        ScanFinds(logs, prev, entries, i + 1);
      }
    }
  }

  /** Without a conflict nothing is dropped: the result is the log, extended by the entries beyond its end. */
  lemma MergeExtends(logs: Log, prev: nat, entries: seq<LogEntry>)
    requires Fits(logs, prev, entries) && NoConflict(logs, prev, entries)
    ensures Merge(logs, entries) == Some(logs + entries[Overlap(logs, prev, entries)..])
  {
    ScanFinds(logs, prev, entries, 0);
  }

  /** With a conflict everything before the first one is kept and everything from it on comes from the message. */
  lemma MergeReplaces(logs: Log, prev: nat, entries: seq<LogEntry>, k: nat)
    requires Fits(logs, prev, entries) && FirstConflict(logs, prev, entries, k)
    ensures Merge(logs, entries) == Some(logs[..prev + k] + entries[k..])
  {
    ScanFinds(logs, prev, entries, 0);
    PopFromConsecutive(logs, prev + k + 1);
  }

  lemma ConflictOrNot(logs: Log, prev: nat, entries: seq<LogEntry>) returns (k: Option<nat>)
    requires Fits(logs, prev, entries)
    ensures k == None ==> NoConflict(logs, prev, entries)
    ensures k.Some? ==> FirstConflict(logs, prev, entries, k.value)
  {
    ScanFinds(logs, prev, entries, 0);
    match Scan(logs, entries, 0)
    case Present(_) => k := None;
    case Conflict(n) => k := Some(n);
  }

  /** Cutting the log where it stops agreeing and continuing with the message. */
  lemma Glue(logs: Log, prev: nat, entries: seq<LogEntry>, n: nat, merged: Log)
    requires Fits(logs, prev, entries) && AgreeUpTo(logs, prev, entries, n)
    requires merged == logs[..prev + n] + entries[n..]
    ensures |merged| == prev + |entries| && Consecutive(merged)
    ensures forall x :: 0 <= x < |entries| ==> merged[prev + x] == if x < n then logs[prev + x] else entries[x]
  {
    forall x | 0 <= x < |entries| ensures merged[prev + x] == if x < n then logs[prev + x] else entries[x] {
    }
    forall k | 0 <= k < |merged| ensures merged[k].index == k + 1 {
      if k >= prev + n {
        assert merged[k] == entries[n..][k - prev - n] == entries[k - prev];
      }
    }
  }

  /** Each entry of the message is in the merged log, itself or as one that was there with its index and term. */
  ghost predicate Holds(logs: Log, prev: nat, entries: seq<LogEntry>, merged: Log) {
    && prev <= |logs| && prev <= |merged| && merged[..prev] == logs[..prev]
    && AgreeUpTo(merged, prev, entries, |entries|)
    && (forall x :: 0 <= x < |entries| ==>
          merged[prev + x] == entries[x] || (prev + x < |logs| && merged[prev + x] == logs[prev + x]))
  }

  /** The merged log is consecutive, keeps the log up to prev, and holds every entry of the message. */
  lemma MergeAgrees(logs: Log, prev: nat, entries: seq<LogEntry>) returns (merged: Log)
    requires Fits(logs, prev, entries)
    ensures Merge(logs, entries) == Some(merged)
    ensures Consecutive(merged) && Holds(logs, prev, entries, merged)
    ensures |merged| == |logs| || |merged| == prev + |entries|
  {
    var k := ConflictOrNot(logs, prev, entries);
    if k == None && prev + |entries| <= |logs| {
      MergeExtends(logs, prev, entries);
      merged := logs;
      assert logs + entries[|entries|..] == logs;
    } else {
      var n := if k == None then |logs| - prev else k.value;
      if k == None {
        MergeExtends(logs, prev, entries);
        assert logs == logs[..prev + n];
      } else {
        MergeReplaces(logs, prev, entries, n);
      }
      merged := logs[..prev + n] + entries[n..];
      Glue(logs, prev, entries, n, merged);
      assert merged[..prev] == logs[..prev];
    }
  }

  /** Receiving the same message again, or any shorter slice of it, changes nothing. */
  lemma MergeIdempotent(logs: Log, prev: nat, entries: seq<LogEntry>, n: nat)
    requires Fits(logs, prev, entries) && n <= |entries|
    ensures Merge(logs, entries).Some?
    ensures Merge(Merge(logs, entries).value, entries[..n]) == Merge(logs, entries)
  {
    var merged := MergeAgrees(logs, prev, entries);
    assert AgreeUpTo(merged, prev, entries[..n], n);
    assert Overlap(merged, prev, entries[..n]) == n;
    MergeExtends(merged, prev, entries[..n]);
    assert entries[..n][n..] == [];
    assert merged + [] == merged;
  }
}
