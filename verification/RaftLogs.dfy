/** Logs against the logs of the leaders: every entry stands where the leader of its term put it, after the same
    entries. Log Matching and the soundness of the acceptance test follow. */
module RaftLogs {
  import opened RaftTypes
  import opened RaftServer
  import opened RaftMerge

  type LeaderLogs = map<nat, Log>

  predicate EntryRooted(ll: LeaderLogs, g: Log, i: nat)
    requires i < |g|
  {
    && g[i].index == i + 1
    && g[i].term > 0 && g[i].term in ll
    && g[..i + 1] <= ll[g[i].term]
  }

  /** Every entry of g was put there by the leader of its term. */
  ghost predicate Rooted(ll: LeaderLogs, g: Log) {
    forall i {:trigger EntryRooted(ll, g, i)} :: 0 <= i < |g| ==> EntryRooted(ll, g, i)
  }

  ghost predicate TermsUpTo(g: Log, term: nat) {
    forall i :: 0 <= i < |g| ==> g[i].term <= term
  }

  ghost predicate LeaderLogOk(ll: LeaderLogs, term: nat)
    requires term in ll
  {
    Rooted(ll, ll[term]) && TermsUpTo(ll[term], term)
  }

  ghost predicate LeaderLogsOk(ll: LeaderLogs) {
    forall t {:trigger LeaderLogOk(ll, t)} :: t in ll ==> LeaderLogOk(ll, t)
  }

  /** Leaders come and leaders append; nothing a leader wrote in its term changes. */
  ghost predicate Grows(ll: LeaderLogs, ll': LeaderLogs) {
    forall t {:trigger t in ll'} :: t in ll ==> t in ll' && ll[t] <= ll'[t]
  }

  lemma RootedConsecutive(ll: LeaderLogs, g: Log)
    requires Rooted(ll, g)
    ensures Consecutive(g) && LastIndex(g) == |g|
  {
    forall i | 0 <= i < |g| ensures g[i].index == i + 1 {
      assert EntryRooted(ll, g, i);
    }
  }

  lemma RootedPrefix(ll: LeaderLogs, g: Log, p: Log)
    requires Rooted(ll, g) && p <= g
    ensures Rooted(ll, p)
  {
    forall i | 0 <= i < |p| ensures EntryRooted(ll, p, i) {
      assert EntryRooted(ll, g, i);
      assert p[..i + 1] == g[..i + 1];
    }
  }

  lemma RootedGrows(ll: LeaderLogs, ll': LeaderLogs, g: Log)
    requires Rooted(ll, g) && Grows(ll, ll')
    ensures Rooted(ll', g)
  {
    forall i | 0 <= i < |g| ensures EntryRooted(ll', g, i) {
      assert EntryRooted(ll, g, i);
      assert g[i].term in ll';
    }
  }

  /** Log Matching: two logs that hold an entry with the same index and term agree on everything up to it. */
  lemma LogMatching(ll: LeaderLogs, a: Log, b: Log, i: nat)
    requires Rooted(ll, a) && Rooted(ll, b)
    requires i < |a| && i < |b| && a[i].term == b[i].term
    ensures a[..i + 1] == b[..i + 1]
  {
    assert EntryRooted(ll, a, i) && EntryRooted(ll, b, i);
  }

  /** Terms never decrease along a log. */
  lemma TermsAscend(ll: LeaderLogs, g: Log, i: nat, j: nat)
    requires LeaderLogsOk(ll) && Rooted(ll, g) && i <= j < |g|
    ensures 0 < g[i].term <= g[j].term
  {
    assert EntryRooted(ll, g, i) && EntryRooted(ll, g, j);
    assert LeaderLogOk(ll, g[j].term);
    assert g[i] == g[..j + 1][i] == ll[g[j].term][i];
  }

  /** The whole of a non-empty log is what the leader of its last term had. */
  lemma WholeLog(ll: LeaderLogs, g: Log)
    requires Rooted(ll, g) && g != []
    ensures LastTerm(g) > 0 && LastTerm(g) in ll && g <= ll[LastTerm(g)]
  {
    assert EntryRooted(ll, g, |g| - 1);
    assert g[..|g|] == g;
  }

  /** The accept shortcut: the source compares prevLogTerm with the follower's last term and never looks at the
      entry at prevLogIndex, yet the logs agree up to there. */
  lemma AcceptShortcut(ll: LeaderLogs, logs: Log, leader: Log, prev: nat)
    requires Rooted(ll, logs) && Rooted(ll, leader)
    requires prev <= |logs| && prev <= |leader|
    requires LastTerm(logs) == TermAt(leader, prev)
    ensures TermAt(logs, prev) == TermAt(leader, prev)
    ensures logs[..prev] == leader[..prev]
  {
    if prev > 0 {
      assert EntryRooted(ll, leader, prev - 1);
      WholeLog(ll, logs);
      assert logs[..prev] == ll[LastTerm(logs)][..prev] == leader[..prev];
      assert logs[prev - 1] == logs[..prev][prev - 1];
    }
  }

  /** Either acceptance test (guard G2) passes only when the logs agree up to prev; the test at prevLogIndex
      fails only when they differ there. */
  lemma PrevCheckSound(check: PrevCheck, ll: LeaderLogs, logs: Log, leader: Log, prev: nat)
    requires Rooted(ll, logs) && Rooted(ll, leader)
    requires prev <= |logs| && prev <= |leader|
    ensures PrevMatches(check, logs, prev, TermAt(leader, prev)) ==> logs[..prev] == leader[..prev]
    ensures check == PrevEntry && !PrevMatches(check, logs, prev, TermAt(leader, prev)) ==>
              prev > 0 && logs[prev - 1] != leader[prev - 1]
  {
    RootedConsecutive(ll, logs);
    GetLogConsecutive(logs, prev);
    if PrevMatches(check, logs, prev, TermAt(leader, prev)) {
      if check == LastEntry {
        AcceptShortcut(ll, logs, leader, prev);
      } else if prev > 0 {
        LogMatching(ll, logs, leader, prev - 1);
      }
    }
  }

  /** How a follower's log may change towards the log of a leader: nothing is lost, or everything lost follows an
      entry on which the two disagree. */
  ghost predicate Replaced(logs: Log, merged: Log, leader: Log) {
    || (logs <= merged && (merged == logs || merged <= leader))
    || exists j: nat :: DisagreeAt(logs, leader, j) && j <= |merged| && merged[..j] == logs[..j]
                   && (merged <= logs || merged <= leader)
  }

  predicate DisagreeAt(a: Log, b: Log, j: nat) {
    j < |a| && j < |b| && a[j] != b[j]
  }

  /** Merging a slice of the leader's log: the result has the slice and is Replaced. */
  lemma MergeSlice(ll: LeaderLogs, logs: Log, leader: Log, prev: nat, hi: nat) returns (merged: Log)
    requires Rooted(ll, logs) && Rooted(ll, leader)
    requires prev <= |logs| && prev <= hi <= |leader| && logs[..prev] == leader[..prev]
    ensures Merge(logs, leader[prev..hi]) == Some(merged)
    ensures leader[..hi] <= merged && Replaced(logs, merged, leader)
  {
    var entries := leader[prev..hi];
    SliceFits(ll, logs, leader, prev, hi);
    var k := ConflictOrNot(logs, prev, entries);
    var n := if k.Some? then k.value else Overlap(logs, prev, entries);
    SameTermsSameEntries(ll, logs, leader, prev, hi, n);
    if k.Some? {
      MergeReplaces(logs, prev, entries, n);
      merged := CutAndPaste(logs, leader, prev, hi, n);
    } else {
      MergeExtends(logs, prev, entries);
      merged := Extend(logs, leader, prev, hi, n);
    }
  }

  lemma SliceFits(ll: LeaderLogs, logs: Log, leader: Log, prev: nat, hi: nat)
    requires Rooted(ll, logs) && Rooted(ll, leader) && prev <= |logs| && prev <= hi <= |leader|
    ensures Fits(logs, prev, leader[prev..hi])
  {
    RootedConsecutive(ll, logs);
    RootedConsecutive(ll, leader);
  }

  lemma CutAndPaste(logs: Log, leader: Log, prev: nat, hi: nat, n: nat) returns (merged: Log)
    requires prev + n < hi <= |leader| && prev + n < |logs|
    requires logs[..prev + n] == leader[..prev + n] && logs[prev + n].term != leader[prev..hi][n].term
    ensures merged == logs[..prev + n] + leader[prev..hi][n..] == leader[..hi]
    ensures Replaced(logs, merged, leader)
  {
    merged := leader[..hi];
    assert leader[prev..hi][n..] == leader[prev + n..hi];
    assert DisagreeAt(logs, leader, prev + n);
    assert merged[..prev + n] == logs[..prev + n];
  }

  lemma Extend(logs: Log, leader: Log, prev: nat, hi: nat, n: nat) returns (merged: Log)
    requires prev <= hi <= |leader| && prev <= |logs|
    requires n == if hi - prev <= |logs| - prev then hi - prev else |logs| - prev
    requires logs[..prev + n] == leader[..prev + n]
    ensures merged == logs + leader[prev..hi][n..]
    ensures leader[..hi] <= merged && Replaced(logs, merged, leader)
  {
    assert leader[prev..hi][n..] == leader[prev + n..hi];
    if hi <= |logs| {
      merged := logs;
      assert leader[..hi] == logs[..hi];
    } else {
      merged := leader[..hi];
      assert logs == logs[..prev + n];
    }
  }

  /** Entries with the same index and term are the same entries. */
  lemma SameTermsSameEntries(ll: LeaderLogs, logs: Log, leader: Log, prev: nat, hi: nat, n: nat)
    requires Rooted(ll, logs) && Rooted(ll, leader)
    requires prev <= |logs| && prev <= hi <= |leader| && logs[..prev] == leader[..prev]
    requires AgreeUpTo(logs, prev, leader[prev..hi], n)
    ensures logs[..prev + n] == leader[..prev + n]
  {
    if n > 0 {
      assert leader[prev..hi][n - 1] == leader[prev + n - 1];
      LogMatching(ll, logs, leader, prev + n - 1);
    }
  }
}
