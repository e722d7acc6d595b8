/** Values shared by every part of the Raft model: hosts, log entries and the index arithmetic on logs.
    The snapshot index and term stay 0, so a log starts at index 1. */
module RaftTypes {

  datatype Option<+T> = None | Some(value: T)

  datatype Host = Host(ip: string, port: int)

  /** The default-constructed host, used for "no vote". */
  const NULL_HOST: Host := Host("", 0)

  const MAX_LOGS_PER_REQUEST: nat := 20

  datatype LogEntry = LogEntry(term: nat, command: string, index: nat)

  type Log = seq<LogEntry>

  function LastIndex(logs: Log): nat {
    if logs == [] then 0 else logs[|logs| - 1].index
  }

  function LastTerm(logs: Log): nat {
    if logs == [] then 0 else logs[|logs| - 1].term
  }

  /** Entry k holds index k + 1. */
  ghost predicate Consecutive(logs: Log) {
    forall k :: 0 <= k < |logs| ==> logs[k].index == k + 1
  }

  /** The term of the entry at 1-based index i, and 0 at the index before the log. */
  function TermAt(logs: Log, i: nat): nat
    requires i <= |logs|
  {
    if i == 0 then 0 else logs[i - 1].term
  }

  /** The entry whose index is i; None is where the source stops with "Unexpected log index". */
  function GetLog(logs: Log, i: int): Option<LogEntry> {
    if logs == [] then None
    else
      var k := i - logs[0].index;
      if 0 <= k < |logs| && logs[k].index == i then Some(logs[k]) else None
  }

  lemma GetLogConsecutive(logs: Log, i: int)
    requires Consecutive(logs)
    ensures GetLog(logs, i) == if 1 <= i <= |logs| then Some(logs[i - 1]) else None
    ensures LastIndex(logs) == |logs|
  {
  }

  /** Drops entries from the back while their index is at least i. */
  function PopFrom(logs: Log, i: int): Log {
    if logs != [] && logs[|logs| - 1].index >= i then PopFrom(logs[..|logs| - 1], i) else logs
  }

  lemma {:induction false} PopFromConsecutive(logs: Log, i: nat)
    requires Consecutive(logs)
    requires 1 <= i
    ensures PopFrom(logs, i) == if i <= |logs| then logs[..i - 1] else logs
  {
    if logs != [] && |logs| >= i {
      PopFromConsecutive(logs[..|logs| - 1], i);
      assert i <= |logs| - 1 ==> logs[..|logs| - 1][..i - 1] == logs[..i - 1];
    }
  }
}
