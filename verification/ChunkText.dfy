/** The text of the persister's files: one record per log entry in a chunk, and the term and vote in meta.dat.
    src/raft/Persister.cpp:87-99, 119-132, 156-162, 291-310. */
module ChunkText {
  import opened RaftTypes
  import opened RaftServer
  import opened Text

  const LOG_CHUNK_BYTES: nat := 4 * 1024 * 1024

  // ----- records -----

  function Record(e: LogEntry): string {
    PrintInt(e.term) + " " + PrintInt(e.index) + "\n" + e.command + "\n"
  }

  function Body(es: Log): string {
    if es == [] then "" else Record(es[0]) + Body(es[1..])
  }

  function Chunk(es: Log): string
    requires es != []
  {
    PrintInt(es[0].index) + " " + PrintInt(es[|es| - 1].index) + "\n" + Body(es)
  }

  /** One turn of the reading loop. Files hold no negative numbers, so one counts as a failed read. */
  function ReadRecord(s: string): (r: Option<(LogEntry, string)>)
    ensures r.Some? ==> |r.value.1| < |s|
  {
    match ReadInt(s)
    case None => None
    case Some((term, s1)) =>
      match ReadInt(s1)
      case None => None
      case Some((index, s2)) =>
        if term < 0 || index < 0 then None
        else
          var line := GetLine(if s2 == "" then "" else s2[1..]);
          Some((LogEntry(term, line.0, index), line.1))
  }

  function ReadRecords(s: string): Log
    decreases |s|
  {
    match ReadRecord(s)
    case None => []
    case Some((e, rest)) => [e] + ReadRecords(rest)
  }

  /** The range on the first line, then the records. */
  function ReadChunk(s: string): Log {
    match ReadInt(s)
    case None => []
    case Some((_, s1)) =>
      match ReadInt(s1)
      case None => []
      case Some((_, s2)) => ReadRecords(s2)
  }

  predicate OneLiners(es: Log) {
    forall k :: 0 <= k < |es| ==> OneLine(es[k].command)
  }

  /** What getline leaves of a command, and what it leaves behind. */
  lemma {:induction false} GetLineCuts(cmd: string, rest: string)
    ensures OneLine(GetLine(cmd + "\n" + rest).0)
    ensures OneLine(cmd) ==> GetLine(cmd + "\n" + rest) == (cmd, rest)
  {
    var t := cmd + "\n" + rest;
    if cmd != "" && cmd[0] != '\n' {
      GetLineCuts(cmd[1..], rest);
      assert t[1..] == cmd[1..] + "\n" + rest && cmd == [cmd[0]] + cmd[1..];
    } else {
      assert cmd == "" ==> t[1..] == rest;
    }
  }

  lemma ReadRecordBack(e: LogEntry, rest: string)
    ensures ReadRecord(Record(e) + rest).Some?
    ensures var r := ReadRecord(Record(e) + rest).value;
      r.0.term == e.term && r.0.index == e.index &&
      if OneLine(e.command) then r == (e, rest) else OneLine(r.0.command)
  {
    var s3 := e.command + "\n" + rest;
    var s2 := "\n" + s3;
    var s1 := " " + (PrintInt(e.index) + s2);
    assert Record(e) + rest == PrintInt(e.term) + s1;
    ReadIntBack(e.term, s1);
    ReadWordSkips(' ', PrintInt(e.index) + s2);
    ReadIntBack(e.index, s2);
    assert s2[1..] == s3;
    GetLineCuts(e.command, rest);
  }

  lemma SameHead(e: LogEntry, rest: Log, es: Log)
    requires es != []
    ensures [e] + rest == es <==> e == es[0] && rest == es[1..]
  {
    assert es == [es[0]] + es[1..];
    assert ([e] + rest)[1..] == rest;
  }

  /** The records come back exactly as they were if and only if no command contains a newline. */
  lemma {:induction false} RecordsRoundTrip(es: Log)
    ensures ReadRecords(Body(es)) == es <==> OneLiners(es)
  {
    if es != [] {
      var rest := Body(es[1..]);
      ReadRecordBack(es[0], rest);
      RecordsRoundTrip(es[1..]);
      var (e, left) := ReadRecord(Record(es[0]) + rest).value;
      SameHead(e, ReadRecords(left), es);
      assert OneLiners(es) <==> OneLine(es[0].command) && OneLiners(es[1..]);
    }
  }

  lemma RecordsSkipNewline(body: string)
    ensures ReadRecords("\n" + body) == ReadRecords(body)
  {
    ReadWordSkips('\n', body);
  }

  /** The same for a whole chunk file with its first line. */
  lemma ChunkRoundTrip(es: Log)
    requires es != []
    ensures ReadChunk(Chunk(es)) == es <==> OneLiners(es)
  {
    var body := Body(es);
    TwoIntsBack(es[0].index, es[|es| - 1].index, body);
    RecordsSkipNewline(body);
    RecordsRoundTrip(es);
  }

  lemma {:induction false} BodyAppend(es: Log, e: LogEntry)
    ensures Body(es + [e]) == Body(es) + Record(e)
  {
    if es == [] {
      assert es + [e] == [e];
    } else {
      BodyAppend(es[1..], e);
      assert (es + [e])[0] == es[0] && (es + [e])[1..] == es[1..] + [e];
      Associative(Record(es[0]), Body(es[1..]), Record(e));
    }
  }

  /** The first line of a chunk names the first and the last index in it. */
  lemma FirstLineIsRange(es: Log)
    requires es != []
    ensures var r := ReadInt(Chunk(es));
      && r.Some? && r.value.0 == es[0].index
      && ReadInt(r.value.1) == Some((es[|es| - 1].index as int, "\n" + Body(es)))
  {
    TwoIntsBack(es[0].index, es[|es| - 1].index, Body(es));
  }

  // ----- sizes -----

  /** The arithmetic of estmateSize: the digits, three separators and the command. */
  function EstimateSize(e: LogEntry): nat {
    |PrintInt(e.term)| + |PrintInt(e.index)| + 3 + |e.command|
  }

  function Size(es: Log): nat {
    if es == [] then 0 else EstimateSize(es[0]) + Size(es[1..])
  }

  lemma {:induction false} SizeAppend(es: Log, e: LogEntry)
    ensures Size(es + [e]) == Size(es) + EstimateSize(e)
  {
    if es == [] {
      assert es + [e] == [e];
    } else {
      SizeAppend(es[1..], e);
      assert (es + [e])[0] == es[0] && (es + [e])[1..] == es[1..] + [e];
    }
  }

  lemma RecordSize(e: LogEntry)
    ensures |Record(e)| == EstimateSize(e)
  {
  }

  /** The estimate is the exact number of bytes written. */
  lemma {:induction false} SizeExact(es: Log)
    ensures Size(es) == |Body(es)|
  {
    if es != [] {
      RecordSize(es[0]);
      SizeExact(es[1..]);
    }
  }

  predicate Fits(es: Log) {
    Size(es) <= LOG_CHUNK_BYTES || |es| <= 1
  }

  /** A chunk's records fill at most LOG_CHUNK_BYTES, unless they are one record. */
  lemma FitsMeans(es: Log)
    ensures Fits(es) <==> |Body(es)| <= LOG_CHUNK_BYTES || |es| <= 1
  {
    SizeExact(es);
  }

  // ----- term and vote -----

  function PrintMeta(md: Metadata): string {
    PrintInt(md.term) + "\n" +
    if md.voteFor == NULL_HOST then "-1 0\n" else md.voteFor.ip + " " + PrintInt(md.voteFor.port) + "\n"
  }

  function ReadMeta(s: string): (int, Host) {
    var (term, s1) := Number(s);
    var (ip, s2) := Word(s1);
    (term, if ip == "-1" then NULL_HOST else Host(ip, Number(s2).0))
  }

  /** Term and vote come back if and only if the vote is for nobody or for a host whose name is a word other
      than "-1", the mark for nobody. */
  lemma MetaRoundTrip(md: Metadata)
    ensures ReadMeta(PrintMeta(md)) == (md.term, md.voteFor) <==>
            md.voteFor == NULL_HOST || (Clean(md.voteFor.ip) && md.voteFor.ip != "-1")
  {
    var ip, port := if md.voteFor == NULL_HOST then "-1" else md.voteFor.ip,
                    if md.voteFor == NULL_HOST then 0 else md.voteFor.port;
    var s3 := PrintInt(port) + "\n";
    var s2 := " " + s3;
    var s1 := "\n" + (ip + s2);
    assert PrintInt(0) == "0" && "-1 0\n" == "-1" + (" " + ("0" + "\n"));
    assert PrintMeta(md) == PrintInt(md.term) + s1;
    ReadIntBack(md.term, s1);
    ReadWordSkips('\n', ip + s2);
    if Clean(ip) {
      ReadWordBack(ip, s2);
      ReadWordSkips(' ', s3);
      ReadIntBack(port, "\n");
    }
  }
}
