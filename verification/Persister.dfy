/** The persister: committed log entries go through a buffer into chunk files, term and vote into meta.dat.
    src/raft/Persister.cpp:26-154. Chunk files are kept in the order of their names, and each save is atomic. */
module Persister {
  import opened RaftTypes
  import opened RaftServer
  import opened Text
  import opened ChunkText

  /** All entries of the chunks, in order. */
  function Flat(chunks: seq<Log>): Log {
    if chunks == [] then [] else Flat(chunks[..|chunks| - 1]) + chunks[|chunks| - 1]
  }

  function ReadAll(chunks: seq<string>): Log {
    if chunks == [] then [] else ReadAll(chunks[..|chunks| - 1]) + ReadChunk(chunks[|chunks| - 1])
  }

  /** The files hold these entries. */
  ghost predicate Written(files: seq<string>, chunks: seq<Log>) {
    && |files| == |chunks|
    && forall k {:trigger Holds(files[k], chunks[k])} :: 0 <= k < |files| ==> Holds(files[k], chunks[k])
  }

  predicate Holds(file: string, es: Log) {
    es != [] && file == Chunk(es) && Fits(es)
  }

  lemma WrittenBefore(files: seq<string>, chunks: seq<Log>)
    requires Written(files, chunks) && files != []
    ensures Written(files[..|files| - 1], chunks[..|files| - 1]) && Holds(files[|files| - 1], chunks[|files| - 1])
  {
    var n := |files| - 1;
    assert Holds(files[n], chunks[n]);
    forall k | 0 <= k < n ensures Holds(files[..n][k], chunks[..n][k]) {
      assert Holds(files[k], chunks[k]);
    }
  }

  /** Reading all files gives back all entries. */
  lemma {:induction false} ReadAllBack(files: seq<string>, chunks: seq<Log>)
    requires Written(files, chunks) && OneLiners(Flat(chunks))
    ensures ReadAll(files) == Flat(chunks)
  {
    if files != [] {
      var n := |files| - 1;
      WrittenBefore(files, chunks);
      OneLinersSplit(Flat(chunks[..n]), chunks[n]);
      ReadAllBack(files[..n], chunks[..n]);
      ChunkRoundTrip(chunks[n]);
    }
  }

  lemma OneLinersSplit(a: Log, b: Log)
    ensures OneLiners(a + b) <==> OneLiners(a) && OneLiners(b)
  {
    if OneLiners(a + b) {
      assert forall k :: 0 <= k < |a| ==> a[k] == (a + b)[k];
      assert forall k :: 0 <= k < |b| ==> b[k] == (a + b)[|a| + k];
    }
  }

  lemma WrittenMore(files: seq<string>, chunks: seq<Log>, file: string, es: Log)
    requires Written(files, chunks) && Holds(file, es)
    ensures Written(files + [file], chunks + [es]) && Flat(chunks + [es]) == Flat(chunks) + es
  {
    var files', chunks' := files + [file], chunks + [es];
    forall k | 0 <= k < |files'| ensures Holds(files'[k], chunks'[k]) {
      assert k < |files| ==> Holds(files[k], chunks[k]);
    }
    assert chunks'[..|chunks|] == chunks;
  }

  lemma WriteStep(header: string, buf: Log, i: nat)
    requires i < |buf|
    ensures header + Body(buf[..i]) + Record(buf[i]) == header + Body(buf[..i + 1])
  {
    assert buf[..i + 1] == buf[..i] + [buf[i]];
    BodyAppend(buf[..i], buf[i]);
    Associative(header, Body(buf[..i]), Record(buf[i]));
  }

  /** The text that flushLogBuf writes. */
  method WriteChunk(buf: Log) returns (text: string)
    requires buf != []
    ensures text == Chunk(buf)
  {
    text := PrintInt(buf[0].index) + " " + PrintInt(buf[|buf| - 1].index) + "\n";
    ghost var header := text;
    for i := 0 to |buf|
      invariant text == header + Body(buf[..i])
    {
      WriteStep(header, buf, i);
      text := text + Record(buf[i]);
    }
    assert buf[..|buf|] == buf;
  }

  /** The test of checkState: every index is one more than the one before. */
  predicate Unbroken(logs: Log) {
    forall k :: 1 <= k < |logs| ==> logs[k].index == logs[k - 1].index + 1
  }

  lemma StoredUnbroken(files: seq<string>, chunks: seq<Log>, logs: Log)
    ensures Stored(files, chunks, [], 0, LastIndex(logs), logs) ==> Unbroken(logs)
  {
  }

  ghost predicate Stored(files: seq<string>, chunks: seq<Log>, buf: Log, estimate: nat, last: int, saved: Log) {
    && Written(files, chunks) && Flat(chunks) + buf == saved
    && Consecutive(saved) && last == |saved|
    && estimate == Size(buf) && Fits(buf)
  }

  lemma StoreOne(files: seq<string>, chunks: seq<Log>, buf: Log, estimate: nat, last: int, saved: Log, e: LogEntry)
    requires Stored(files, chunks, buf, estimate, last, saved) && e.index == |saved| + 1
    requires buf == [] || estimate + EstimateSize(e) <= LOG_CHUNK_BYTES
    ensures Stored(files, chunks, buf + [e], estimate + EstimateSize(e), e.index, saved + [e])
  {
    SizeAppend(buf, e);
    AppendOne(Flat(chunks), buf, e);
  }

  lemma StoreChunk(files: seq<string>, chunks: seq<Log>, buf: Log, estimate: nat, last: int, saved: Log, file: string)
    requires Stored(files, chunks, buf, estimate, last, saved) && buf != [] && file == Chunk(buf)
    ensures Stored(files + [file], chunks + [buf], [], 0, last, saved)
  {
    WrittenMore(files, chunks, file, buf);
  }

  // ----- when a chunk is closed -----

  /** What comes after chunk k: the next chunk, or the buffer. */
  function After(chunks: seq<Log>, buf: Log, k: nat): Log
    requires k < |chunks|
  {
    if k + 1 < |chunks| then chunks[k + 1] else buf
  }

  /** Chunk k has no room for the entry after it. */
  predicate Full(chunks: seq<Log>, buf: Log, k: nat)
    requires k < |chunks|
  {
    After(chunks, buf, k) != [] && Size(chunks[k]) + EstimateSize(After(chunks, buf, k)[0]) > LOG_CHUNK_BYTES
  }

  ghost predicate FullFrom(chunks: seq<Log>, buf: Log, first: nat) {
    forall k: nat {:trigger Full(chunks, buf, k)} :: first <= k < |chunks| ==> Full(chunks, buf, k)
  }

  /** Entry e goes into the buffer, which is closed as a chunk before exactly when it has no room for e. */
  ghost predicate Saved(chunks: seq<Log>, buf: Log, e: LogEntry, chunks': seq<Log>, buf': Log) {
    if Fits(buf + [e]) then chunks' == chunks && buf' == buf + [e]
    else chunks' == chunks + [buf] && buf' == [e]
  }

  lemma RoomMeans(buf: Log, e: LogEntry)
    requires Fits(buf)
    ensures Fits(buf + [e]) <==> buf == [] || Size(buf) + EstimateSize(e) <= LOG_CHUNK_BYTES
  {
    SizeAppend(buf, e);
  }

  lemma SavedFull(chunks: seq<Log>, buf: Log, first: nat, e: LogEntry, chunks': seq<Log>, buf': Log)
    requires FullFrom(chunks, buf, first) && Fits(buf) && Saved(chunks, buf, e, chunks', buf')
    ensures FullFrom(chunks', buf', first)
  {
    RoomMeans(buf, e);
    forall k: nat | first <= k < |chunks'| ensures Full(chunks', buf', k) {
      assert k < |chunks| ==> Full(chunks, buf, k);
    }
  }

  /** Since the buffer was buf0 nothing was closed exactly as long as it has room for all the new entries. */
  ghost predicate ClosedOrNot(chunks0: seq<Log>, buf0: Log, new_: Log, chunks: seq<Log>, buf: Log) {
    if Fits(buf0 + new_) then chunks == chunks0 && buf == buf0 + new_ else |chunks| > |chunks0|
  }

  lemma SavedClosed(chunks0: seq<Log>, buf0: Log, new_: Log, chunks: seq<Log>, buf: Log, e: LogEntry,
                    chunks': seq<Log>, buf': Log)
    requires ClosedOrNot(chunks0, buf0, new_, chunks, buf) && Saved(chunks, buf, e, chunks', buf')
    ensures ClosedOrNot(chunks0, buf0, new_ + [e], chunks', buf')
  {
    AppendOne(buf0, new_, e);
    SizeAppend(buf0 + new_, e);
  }

  /** Entries first + 1, ..., |saved| of logs have gone into what was chunks0 and buf0. */
  ghost predicate SavedUpTo(chunks0: seq<Log>, buf0: Log, first: nat, logs: Log, chunks: seq<Log>, buf: Log,
                            saved: Log) {
    && first <= |saved| && saved <= logs
    && chunks0 <= chunks && FullFrom(chunks, buf, |chunks0|)
    && ClosedOrNot(chunks0, buf0, saved[first..], chunks, buf)
  }

  lemma SavedOneMore(chunks0: seq<Log>, buf0: Log, first: nat, logs: Log, chunks: seq<Log>, buf: Log, saved: Log,
                     chunks': seq<Log>, buf': Log)
    requires SavedUpTo(chunks0, buf0, first, logs, chunks, buf, saved) && |saved| < |logs| && Fits(buf)
    requires Saved(chunks, buf, logs[|saved|], chunks', buf')
    ensures SavedUpTo(chunks0, buf0, first, logs, chunks', buf', saved + [logs[|saved|]])
  {
    var e := logs[|saved|];
    TakeOne(logs, |saved| + 1);
    SavedFull(chunks, buf, |chunks0|, e, chunks', buf');
    SavedClosed(chunks0, buf0, saved[first..], chunks, buf, e, chunks', buf');
    assert (saved + [e])[first..] == saved[first..] + [e];
  }

  // ----- term and vote -----

  /** What opening the directory gives as term and vote; file is "" when there is no meta.dat yet. */
  function ReadMetaFile(file: string): (int, Host) {
    if file == "" then (0, NULL_HOST) else ReadMeta(file)
  }

  /** The file has this term and vote, or nothing was ever saved. */
  ghost predicate MetaHolds(file: string, term: int, vote: Host) {
    if file == "" then term == 0 && vote == NULL_HOST else term >= 0 && file == PrintMeta(Metadata(term, vote))
  }

  predicate GoodVote(vote: Host) {
    vote == NULL_HOST || (Clean(vote.ip) && vote.ip != "-1")
  }

  lemma MetaBack(file: string, term: int, vote: Host)
    requires MetaHolds(file, term, vote)
    ensures ReadMetaFile(file) == (term, vote) <==> GoodVote(vote)
  {
    if file != "" {
      MetaRoundTrip(Metadata(term, vote));
    }
  }

  class Persister {
    // on disk
    var metaFile: string
    var files: seq<string>
    // in memory
    var mdTerm: int
    var mdVote: Host
    var logBuf: Log
    var estimate: nat
    var lastInBufLogId: int
    // what the files hold, and all the entries saved so far
    ghost var chunks: seq<Log>
    ghost var saved: Log

    /** The files and then the buffer are exactly the entries 1, ..., lastInBufLogId, in order. */
    ghost predicate Valid()
      reads this
    {
      Stored(files, chunks, logBuf, estimate, lastInBufLogId, saved)
    }

    /** Meta.dat holds the term and the vote that are in memory; there is none before the first vote. */
    ghost predicate MetaSaved()
      reads this
    {
      MetaHolds(metaFile, mdTerm, mdVote)
    }

    /** Opens the directory; metaFile is "" when there is no such file yet. */
    constructor (metaFile: string, files: seq<string>)
      ensures this.metaFile == metaFile && this.files == files
      ensures (mdTerm, mdVote) == ReadMetaFile(metaFile) && (metaFile == "" ==> MetaSaved())
      ensures logBuf == [] && estimate == 0 && lastInBufLogId == -1 && chunks == [] && saved == []
    {
      this.metaFile, this.files := metaFile, files;
      var md := ReadMetaFile(metaFile);
      mdTerm, mdVote := md.0, md.1;
      logBuf, estimate, lastInBufLogId := [], 0, -1;
      chunks, saved := [], [];
    }

    method SaveTermAndVote(term: nat, voteFor: Host)
      modifies this`mdTerm, this`mdVote, this`metaFile
      ensures MetaSaved() && mdTerm == term && mdVote == voteFor
      ensures metaFile != "" && (ReadMeta(metaFile) == (term, voteFor) <==> GoodVote(voteFor))
    {
      mdTerm, mdVote := term, voteFor;
      metaFile := PrintMeta(Metadata(term, voteFor));
      MetaBack(metaFile, term, voteFor);
    }

    method FlushLogBuf()
      requires Valid()
      modifies this`files, this`logBuf, this`estimate, this`chunks
      ensures Valid() && logBuf == []
      ensures if old(logBuf) == [] then files == old(files) && chunks == old(chunks)
              else files == old(files) + [Chunk(old(logBuf))] && chunks == old(chunks) + [old(logBuf)]
    {
      if logBuf == [] {
        return;
      }
      var text := WriteChunk(logBuf);
      StoreChunk(files, chunks, logBuf, estimate, lastInBufLogId, saved, text);
      files, chunks := files + [text], chunks + [logBuf];
      logBuf, estimate := [], 0;
    }

    /** The entries up to commitIndex that are not yet in the buffer go in, with a flush before each that would make
        the chunk too big, and only then: every chunk closed here has no room for the entry after it, and none is
        closed exactly when the buffer has room for all. What was saved before is still at the front of logs:
        committed entries do not change. */
    method SaveLogs(commitIndex: nat, logs: Log)
      requires Valid() && Consecutive(logs) && commitIndex <= |logs| && saved <= logs
      modifies this`files, this`logBuf, this`estimate, this`chunks, this`saved, this`lastInBufLogId
      ensures Valid() && old(files) <= files && saved <= logs
      ensures saved == if commitIndex > |old(saved)| then logs[..commitIndex] else old(saved)
      ensures SavedUpTo(old(chunks), old(logBuf), |old(saved)|, logs, chunks, logBuf, saved)
      ensures files == old(files) <==> Fits(old(logBuf) + saved[|old(saved)|..])
    {
      ghost var first, chunks0, buf0 := |saved|, chunks, logBuf;
      assert saved[first..] == [] && buf0 + [] == buf0;
      var i := lastInBufLogId + 1;
      while i <= commitIndex
        invariant Valid() && old(files) <= files && i == |saved| + 1
        invariant SavedUpTo(chunks0, buf0, first, logs, chunks, logBuf, saved)
        invariant i == first + 1 || i <= commitIndex + 1
      {
        var pos := i - logs[0].index;
        ghost var chunks1, buf1, saved1 := chunks, logBuf, saved;
        SaveOne(logs[pos]);
        SavedOneMore(chunks0, buf0, first, logs, chunks1, buf1, saved1, chunks, logBuf);
        i := i + 1;
      }
    }

    /** The body of that loop. */
    method SaveOne(e: LogEntry)
      requires Valid() && e.index == |saved| + 1
      modifies this`files, this`logBuf, this`estimate, this`chunks, this`saved, this`lastInBufLogId
      ensures Valid() && old(files) <= files && saved == old(saved) + [e]
      ensures old(chunks) <= chunks && Saved(old(chunks), old(logBuf), e, chunks, logBuf)
    {
      RoomMeans(logBuf, e);
      var es := EstimateSize(e);
      if estimate + es > LOG_CHUNK_BYTES {
        FlushLogBuf();
      }
      StoreOne(files, chunks, logBuf, estimate, lastInBufLogId, saved, e);
      saved := saved + [e];
      logBuf, estimate, lastInBufLogId := logBuf + [e], estimate + es, e.index;
    }

    /** Everything the files hold is read in order; fatal is the stop at a break in the indices. When the files are
        those of a persister, or there are none, there is no stop, and this persister goes on from there. */
    method LoadRaftState(ghost held: seq<Log>) returns (term: int, votedFor: Host, logs: Log, fatal: bool)
      requires logBuf == [] && estimate == 0
      modifies this`lastInBufLogId, this`saved, this`chunks
      ensures (term, votedFor) == (mdTerm, mdVote) && logs == ReadAll(files)
      ensures fatal <==> term < 0 || !Unbroken(logs)
      ensures lastInBufLogId == LastIndex(logs) && saved == logs && chunks == held
      ensures Stored(files, held, [], 0, LastIndex(logs), logs) ==> Valid() && (fatal <==> term < 0)
    {
      term, votedFor := mdTerm, mdVote;
      logs := ReadFiles(files);
      StoredUnbroken(files, held, logs);
      lastInBufLogId := if logs == [] then 0 else logs[|logs| - 1].index;
      var ok := CheckState(logs);
      fatal := term < 0 || !ok;
      saved, chunks := logs, held;
    }
  }

  method CheckState(logs: Log) returns (ok: bool)
    ensures ok <==> Unbroken(logs)
  {
    var k := 1;
    while k < |logs|
      invariant 1 <= k && (k <= |logs| || logs == [])
      invariant forall i :: 1 <= i < k && i < |logs| ==> logs[i].index == logs[i - 1].index + 1
    {
      if logs[k].index != logs[k - 1].index + 1 {
        return false;
      }
      k := k + 1;
    }
    return true;
  }

  lemma AppendOne(a: Log, b: Log, e: LogEntry)
    ensures a + (b + [e]) == a + b + [e]
  {
  }

  lemma TakeOne(logs: Log, i: nat)
    requires 1 <= i <= |logs|
    ensures logs[..i] == logs[..i - 1] + [logs[i - 1]]
  {
  }

  lemma PushOne(a: Log, e: LogEntry, b: Log)
    ensures a + ([e] + b) == a + [e] + b
  {
  }

  /** The loop of lines 95-99. */
  method ReadLines(text: string) returns (logs: Log)
    ensures logs == ReadRecords(text)
  {
    logs := [];
    var rest, record := text, ReadRecord(text);
    while record.Some?
      invariant record == ReadRecord(rest) && logs + ReadRecords(rest) == ReadRecords(text)
      decreases |rest|
    {
      PushOne(logs, record.value.0, ReadRecords(record.value.1));
      logs, rest := logs + [record.value.0], record.value.1;
      record := ReadRecord(rest);
    }
  }

  method ReadFile(file: string) returns (logs: Log)
    ensures logs == ReadChunk(file)
  {
    var start := ReadInt(file);
    if start.None? {
      return [];
    }
    var end := ReadInt(start.value.1);
    if end.None? {
      return [];
    }
    logs := ReadLines(end.value.1);
  }

  /** The loop of lines 87-101 over all files. */
  method ReadFiles(files: seq<string>) returns (logs: Log)
    ensures logs == ReadAll(files)
  {
    logs := [];
    for i := 0 to |files|
      invariant logs == ReadAll(files[..i])
    {
      assert files[..i + 1][..i] == files[..i];
      var more := ReadFile(files[i]);
      logs := logs + more;
    }
    assert files[..|files|] == files;
  }

  /** A new process on the files of an old one. */
  method Reopen(metaFile: string, files: seq<string>, ghost chunks: seq<Log>, ghost term0: int, ghost vote0: Host)
    returns (q: Persister, term: int, votedFor: Host, logs: Log)
    requires MetaHolds(metaFile, term0, vote0) && GoodVote(vote0)
    requires Stored(files, chunks, [], 0, LastIndex(ReadAll(files)), ReadAll(files))
    ensures fresh(q) && q.Valid() && q.MetaSaved() && logs == q.saved == ReadAll(files)
    ensures (term, votedFor) == (term0, vote0)
  {
    MetaBack(metaFile, term0, vote0);
    q := new Persister(metaFile, files);
    var fatal;
    term, votedFor, logs, fatal := q.LoadRaftState(chunks);
  }

  /** The first start, in an empty directory. */
  method FirstStart() returns (q: Persister, term: int, votedFor: Host, logs: Log)
    ensures fresh(q) && q.Valid() && q.MetaSaved() && q.saved == []
    ensures (term, votedFor) == (0, NULL_HOST) && logs == []
  {
    q, term, votedFor, logs := Reopen("", [], [], 0, NULL_HOST);
  }

  /** A clean stop flushes, a kill does not. Then the files hold everything saved, or all but the buffer. */
  method Stop(p: Persister, killed: bool)
    requires p.Valid() && OneLiners(p.saved)
    modifies p`files, p`logBuf, p`estimate, p`chunks
    ensures Stored(p.files, p.chunks, [], 0, LastIndex(ReadAll(p.files)), ReadAll(p.files))
    ensures ReadAll(p.files) + (if killed then old(p.logBuf) else []) == p.saved
  {
    if !killed {
      p.FlushLogBuf();
    }
    FilesHold(p.files, p.chunks, p.logBuf, p.estimate, p.lastInBufLogId, p.saved);
  }

  /** A restart: with a clean stop the destructor flushes first, with a kill it does not. A clean stop gives back
      every entry saved and a kill a prefix, all but the buffer; the persister then goes on from there. */
  method Restart(p: Persister, killed: bool) returns (q: Persister, term: int, votedFor: Host, logs: Log)
    requires p.Valid() && p.MetaSaved() && OneLiners(p.saved) && GoodVote(p.mdVote)
    modifies p`files, p`logBuf, p`estimate, p`chunks
    ensures fresh(q) && q.Valid() && q.MetaSaved() && logs == q.saved
    ensures (term, votedFor) == (old(p.mdTerm), old(p.mdVote))
    ensures logs + (if killed then old(p.logBuf) else []) == old(p.saved)
  {
    Stop(p, killed);
    q, term, votedFor, logs := Reopen(p.metaFile, p.files, p.chunks, p.mdTerm, p.mdVote);
  }

  /** What the files of a valid persister read as: a prefix of what was saved. */
  lemma FilesHold(files: seq<string>, chunks: seq<Log>, buf: Log, estimate: nat, last: int, saved: Log)
    requires Stored(files, chunks, buf, estimate, last, saved) && OneLiners(saved)
    ensures ReadAll(files) + buf == saved
    ensures Stored(files, chunks, [], 0, LastIndex(ReadAll(files)), ReadAll(files))
  {
    var held := Flat(chunks);
    assert forall k :: 0 <= k < |held| ==> held[k] == saved[k];
    ReadAllBack(files, chunks);
  }
}
