/** The replicated key-value store: commands replayed from the log, and snapshots of the map.
    src/kvraft/KVRaft.cpp:24-25, 48, 68-186. */
module KVRaft {
  import opened RaftTypes
  import opened Text

  datatype Command = Write(append: bool, key: string, val: string) | Get(key: string) | Invalid

  datatype ErrorCode = SUCCEED | ERR_NO_KEY

  datatype Reply = NoReply | PutReply(code: ErrorCode) | GetReply(code: ErrorCode, value: string)

  datatype Message = Message(command: string, index: int, term: int)

  datatype KVState = KVState(um: map<string, string>, lastApplyIndex: int, lastApplyTerm: int)

  // ----- commands -----

  /** What is left of a string that goes through c_str: the part before the first NUL. */
  function CStr(s: string): (r: string)
    ensures r <= s && 0 as char !in r
    ensures 0 as char !in s ==> r == s
  {
    if s == "" || s[0] == 0 as char then "" else [s[0]] + CStr(s[1..])
  }

  function Parse(cmd: string): (c: Command) {
    var (_, s1) := Word(CStr(cmd));
    var (key, s2) := Word(s1);
    if "APPEND" <= cmd || "PUT" <= cmd then Write(cmd[0] == 'A', key, Word(s2).0)
    else if "GET" <= cmd then Get(key)
    else Invalid
  }

  /** The command that putAppend formats. */
  function Format(append: bool, key: string, val: string): string {
    (if append then "APPEND" else "PUT") + " " + key + " " + val
  }

  lemma WordWithoutNul(s: string)
    requires 0 as char !in s
    ensures 0 as char !in Word(s).0 && 0 as char !in Word(s).1
  {
    SkipIsSuffix(s);
    var t := SkipSpaces(s);
    assert t == TakeWord(t) + t[|TakeWord(t)|..];
  }

  lemma {:induction false} SkipIsSuffix(s: string)
    ensures SkipSpaces(s) == s[|s| - |SkipSpaces(s)|..]
  {
    if s != "" && IsSpace(s[0]) {
      SkipIsSuffix(s[1..]);
    }
  }

  lemma TypeWord(op: string, rest: string)
    requires Clean(op) && Ends(rest)
    ensures Word(op + rest) == (op, rest)
  {
    ReadWordBack(op, rest);
  }

  /** The first word of a formatted command is its type. */
  lemma FormatType(append: bool, key: string, val: string)
    requires 0 as char !in key && 0 as char !in val
    ensures Word(CStr(Format(append, key, val))).1 == " " + (key + " " + val)
    ensures "APPEND" <= Format(append, key, val) || "PUT" <= Format(append, key, val)
    ensures (Format(append, key, val)[0] == 'A') == append
  {
    var op := if append then "APPEND" else "PUT";
    var rest := " " + (key + " " + val);
    var cmd := Format(append, key, val);
    assert cmd == op + rest;
    assert CStr(cmd) == cmd;
    assert Clean(op);
    TypeWord(op, rest);
  }

  /** Whatever is read is a word or empty, without NUL, and nothing is read after a missing key. */
  lemma ReadsAreWords(cmd: string)
    requires Parse(cmd).Write?
    ensures var c := Parse(cmd);
      && 0 as char !in c.key && 0 as char !in c.val && (Clean(c.key) || (c.key == "" && c.val == ""))
      && (Clean(c.val) || c.val == "")
  {
    var s := CStr(cmd);
    WordWithoutNul(s);
    WordWithoutNul(Word(s).1);
    WordWithoutNul(Word(Word(s).1).1);
  }

  /** A put or append reaches the store as the client sent it if and only if the key and the value are words without
      NUL; the value may also be empty, and then the key may be empty too. */
  lemma CommandRoundTrip(append: bool, key: string, val: string)
    ensures Parse(Format(append, key, val)) == Write(append, key, val) <==>
            0 as char !in key && 0 as char !in val && (Clean(key) || (key == "" && val == ""))
            && (Clean(val) || val == "")
  {
    if Parse(Format(append, key, val)).Write? {
      ReadsAreWords(Format(append, key, val));
    }
    if 0 as char !in key && 0 as char !in val {
      FormatType(append, key, val);
      if Clean(key) {
        KeyAndValue(key, val);
      } else if key == "" && val == "" {
        assert " " + ("" + " " + "") == "  ";
        BlanksHaveNoWord();
      }
    }
  }

  lemma BlanksHaveNoWord()
    ensures Word("  ") == ("", "")
  {
    assert "  " == " " + (" " + "");
    ReadWordSkips(' ', " ");
    ReadWordSkips(' ', "");
    assert " " == " " + "";
  }

  lemma KeyAndValue(key: string, val: string)
    requires Clean(key)
    ensures Word(" " + (key + " " + val)) == (key, " " + val)
    ensures Clean(val) ==> Word(" " + val).0 == val
    ensures val == "" ==> Word(" " + val).0 == ""
  {
    SkipBlank(key + " " + val);
    assert key + " " + val == key + (" " + val);
    TypeWord(key, " " + val);
    SkipBlank(val);
    if Clean(val) {
      TypeWord(val, "");
      assert val + "" == val;
    }
  }

  lemma SkipBlank(s: string)
    ensures Word(" " + s) == Word(s)
  {
    ReadWordSkips(' ', s);
  }

  /** The command that get formats. */
  function FormatGet(key: string): string {
    "GET " + key
  }

  lemma WholeWord(w: string)
    ensures Clean(w) || w == "" ==> Word(w) == (w, "")
  {
    if Clean(w) {
      TypeWord(w, "");
      assert w + "" == w;
    }
  }

  lemma GetReads(key: string)
    requires 0 as char !in key
    ensures Parse(FormatGet(key)) == Get(Word(key).0)
  {
    var cmd := FormatGet(key);
    assert cmd == "GET" + (" " + key) && CStr(cmd) == cmd && Clean("GET");
    TypeWord("GET", " " + key);
    SkipBlank(key);
    assert cmd[0] == 'G';
  }

  lemma KeyReadIsPlain(cmd: string)
    requires Parse(cmd).Get?
    ensures 0 as char !in Parse(cmd).key && (Clean(Parse(cmd).key) || Parse(cmd).key == "")
  {
    WordWithoutNul(CStr(cmd));
    WordWithoutNul(Word(CStr(cmd)).1);
  }

  /** A get asks for the key that the client named if and only if the key has no NUL and is a word or empty. */
  lemma GetRoundTrip(key: string)
    ensures Parse(FormatGet(key)) == Get(key) <==> 0 as char !in key && (Clean(key) || key == "")
  {
    if Parse(FormatGet(key)).Get? {
      KeyReadIsPlain(FormatGet(key));
    }
    if 0 as char !in key {
      GetReads(key);
      WholeWord(key);
    }
  }

  /** Only the first letters decide what a command is. */
  lemma TypeIsPrefix(rest: string)
    ensures Parse("GET" + rest).Get?
    ensures Parse("PUT" + rest).Write? && !Parse("PUT" + rest).append
    ensures Parse("APPEND" + rest).Write? && Parse("APPEND" + rest).append
  {
    assert "GET" <= "GET" + rest && ("GET" + rest)[0] == 'G';
    assert "PUT" <= "PUT" + rest && ("PUT" + rest)[0] == 'P';
    assert "APPEND" <= "APPEND" + rest && ("APPEND" + rest)[0] == 'A';
  }

  /** What the client formats for a command. */
  function Sent(c: Command): string
    requires !c.Invalid?
  {
    match c
    case Write(append, key, val) => Format(append, key, val)
    case Get(key) => FormatGet(key)
  }

  /** A command whose key and value are words without NUL. */
  predicate Plain(c: Command) {
    match c
    case Write(_, key, val) => Clean(key) && Clean(val) && 0 as char !in key && 0 as char !in val
    case Get(key) => Clean(key) && 0 as char !in key
    case Invalid => false
  }

  lemma PlainBack(c: Command)
    requires Plain(c)
    ensures Parse(Sent(c)) == c
  {
    match c
    case Write(append, key, val) => CommandRoundTrip(append, key, val);
    case Get(key) => GetRoundTrip(key);
  }

  // ----- replay -----

  /** APPEND overwrites, exactly as PUT does. */
  function ApplyCommand(um: map<string, string>, c: Command): map<string, string> {
    if c.Write? then um[c.key := c.val] else um
  }

  function Step(st: KVState, m: Message): KVState {
    KVState(ApplyCommand(st.um, Parse(m.command)), m.index, m.term)
  }

  function Replay(st: KVState, ms: seq<Message>): KVState {
    if ms == [] then st else Step(Replay(st, ms[..|ms| - 1]), ms[|ms| - 1])
  }

  lemma {:induction false} ReplaySplit(st: KVState, a: seq<Message>, b: seq<Message>)
    ensures Replay(st, a + b) == Replay(Replay(st, a), b)
  {
    if b == [] {
      assert a + b == a;
    } else {
      var n := |b| - 1;
      ReplaySplit(st, a, b[..n]);
      assert (a + b)[..|a + b| - 1] == a + b[..n];
    }
  }

  /** What a waiting client is told. */
  function Answer(um: map<string, string>, c: Command): Reply {
    match c
    case Write(_, _, _) => PutReply(SUCCEED)
    case Get(key) => if key in um then GetReply(SUCCEED, um[key]) else GetReply(ERR_NO_KEY, "")
    case Invalid => NoReply
  }

  /** A command that begins with none of the three words changes no key and answers nobody. */
  lemma OthersIgnored(st: KVState, m: Message)
    requires !("APPEND" <= m.command) && !("PUT" <= m.command) && !("GET" <= m.command)
    ensures Step(st, m) == st.(lastApplyIndex := m.index, lastApplyTerm := m.term)
    ensures Answer(st.um, Parse(m.command)) == NoReply
  {
  }

  /** The value of the last put or append to the key. */
  function LastWrite(cs: seq<Command>, key: string): Option<string> {
    if cs == [] then None
    else
      var c := cs[|cs| - 1];
      if c.Write? && c.key == key then Some(c.val) else LastWrite(cs[..|cs| - 1], key)
  }

  /** The messages carry what the clients sent. */
  ghost predicate Carry(ms: seq<Message>, cs: seq<Command>) {
    |ms| == |cs| && forall k {:trigger cs[k]} :: 0 <= k < |cs| ==> Plain(cs[k]) && ms[k].command == Sent(cs[k])
  }

  lemma LastStep(st: KVState, m: Message, c: Command, key: string)
    requires Plain(c) && m.command == Sent(c)
    ensures Step(st, m).um == if c.Write? then st.um[c.key := c.val] else st.um
  {
    PlainBack(c);
  }

  /** What a key holds after a replay. */
  function Held(um: map<string, string>, cs: seq<Command>, key: string): Option<string> {
    match LastWrite(cs, key)
    case Some(v) => Some(v)
    case None => if key in um then Some(um[key]) else None
  }

  lemma {:induction false} ReplayLastWrite(st: KVState, ms: seq<Message>, cs: seq<Command>, key: string)
    requires Carry(ms, cs)
    ensures var um := Replay(st, ms).um;
      Held(st.um, cs, key) == if key in um then Some(um[key]) else None
  {
    if cs != [] {
      var n := |cs| - 1;
      assert forall k {:trigger cs[..n][k]} :: 0 <= k < n ==> cs[..n][k] == cs[k];
      ReplayLastWrite(st, ms[..n], cs[..n], key);
      LastStep(Replay(st, ms[..n]), ms[n], cs[n], key);
    }
  }

  /** The store is a register for every key: whatever the clients sent before, a get that is applied next answers the
      value of the last put or append to its key, and what was there before only if there was none. */
  lemma GetsLastWrite(st: KVState, ms: seq<Message>, cs: seq<Command>, key: string)
    requires Carry(ms, cs) && Plain(Get(key))
    ensures Answer(Replay(st, ms).um, Parse(FormatGet(key))) ==
            match Held(st.um, cs, key)
            case Some(v) => GetReply(SUCCEED, v)
            case None => GetReply(ERR_NO_KEY, "")
  {
    ReplayLastWrite(st, ms, cs, key);
    GetRoundTrip(key);
  }

  // ----- snapshots -----

  /** An order in which the entries of the map may be visited. */
  ghost predicate Visits(order: seq<string>, um: map<string, string>) {
    && (forall key :: key in um <==> key in order)
    && (forall j, k :: 0 <= j < k < |order| ==> order[j] != order[k])
  }

  function Lines(um: map<string, string>, order: seq<string>): string
    requires forall k :: 0 <= k < |order| ==> order[k] in um
  {
    if order == [] then "" else PairLine(order[0], ' ', um[order[0]]) + Lines(um, order[1..])
  }

  function Snapshot(st: KVState, order: seq<string>): string
    requires forall k :: 0 <= k < |order| ==> order[k] in st.um
  {
    PrintInt(st.lastApplyIndex) + " " + PrintInt(st.lastApplyTerm) + "\n" + Lines(st.um, order)
  }

  function Insert(um: map<string, string>, pairs: seq<Pair>): map<string, string>
    decreases pairs
  {
    if pairs == [] then um else Insert(um[pairs[0].key := pairs[0].val], pairs[1..])
  }

  /** What applySnapShot makes of the text; a failed read sets its number to 0 and leaves the rest alone. */
  function Restored(text: string, old_: KVState): KVState {
    match ReadInt(text)
    case None => KVState(map[], 0, old_.lastApplyTerm)
    case Some((index, s1)) =>
      match ReadInt(s1)
      case None => KVState(map[], index, 0)
      case Some((term, s2)) => KVState(Insert(map[], ReadPairs(s2)), index, term)
  }

  ghost predicate Storable(um: map<string, string>) {
    forall key :: key in um ==> Clean(key) && Clean(um[key])
  }

  lemma {:induction false} InsertKeepsClean(um: map<string, string>, pairs: seq<Pair>)
    requires Storable(um) && forall k :: 0 <= k < |pairs| ==> CleanPair(pairs[k])
    ensures Storable(Insert(um, pairs))
    decreases pairs
  {
    if pairs != [] {
      InsertKeepsClean(um[pairs[0].key := pairs[0].val], pairs[1..]);
    }
  }

  /** Reading the lines back puts exactly the visited entries into the map. */
  lemma {:induction false} LinesBack(um: map<string, string>, order: seq<string>, start: map<string, string>)
    requires Storable(um) && forall k :: 0 <= k < |order| ==> order[k] in um
    requires forall j, k :: 0 <= j < k < |order| ==> order[j] != order[k]
    requires forall key :: key in start ==> key in um && start[key] == um[key]
    ensures var r := Insert(start, ReadPairs(Lines(um, order)));
      forall key :: (key in r <==> key in start || key in order) && (key in r ==> key in um && r[key] == um[key])
  {
    if order == [] {
      PairsAtEnd();
    } else {
      var key := order[0];
      ReadPairsBack(key, ' ', um[key], Lines(um, order[1..]));
      var rest := ReadPairs(Lines(um, order[1..]));
      assert ([Pair(key, um[key])] + rest)[1..] == rest;
      assert Insert(start, [Pair(key, um[key])] + rest) == Insert(start[key := um[key]], rest);
      LinesBack(um, order[1..], start[key := um[key]]);
    }
  }

  lemma PairsSkipNewline(lines: string)
    ensures ReadPairs("\n" + lines) == ReadPairs(lines)
  {
    ReadWordSkips('\n', lines);
  }

  lemma HeaderBack(st: KVState, order: seq<string>, old_: KVState)
    requires forall k :: 0 <= k < |order| ==> order[k] in st.um
    ensures Restored(Snapshot(st, order), old_) ==
            KVState(Insert(map[], ReadPairs(Lines(st.um, order))), st.lastApplyIndex, st.lastApplyTerm)
  {
    var lines := Lines(st.um, order);
    TwoIntsBack(st.lastApplyIndex, st.lastApplyTerm, lines);
    PairsSkipNewline(lines);
  }

  lemma LinesRestore(um: map<string, string>, order: seq<string>)
    requires Visits(order, um)
    ensures Insert(map[], ReadPairs(Lines(um, order))) == um <==> Storable(um)
  {
    var r := Insert(map[], ReadPairs(Lines(um, order)));
    InsertKeepsClean(map[], ReadPairs(Lines(um, order)));
    if Storable(um) {
      LinesBack(um, order, map[]);
      assert forall key :: key in r <==> key in um;
    }
  }

  /** A snapshot restores the state it was taken of if and only if no key and no value is empty or has whitespace,
      in whatever order the map is visited. */
  lemma SnapshotRoundTrip(st: KVState, order: seq<string>, old_: KVState)
    requires Visits(order, st.um)
    ensures Restored(Snapshot(st, order), old_) == st <==> Storable(st.um)
  {
    HeaderBack(st, order, old_);
    LinesRestore(st.um, order);
  }

  /** A snapshot file that is empty, or cut off after the index: the number that is missing becomes 0, the map is
      empty, and the term stays if not even the index was there. */
  lemma CutSnapshot(index: int, old_: KVState)
    ensures Restored("", old_) == KVState(map[], 0, old_.lastApplyTerm)
    ensures Restored(PrintInt(index), old_) == KVState(map[], index, 0)
  {
    ReadIntBack(index, "");
    assert PrintInt(index) + "" == PrintInt(index);
  }

  /** A command that stores nothing empty: a put or append has both a key and a value. */
  predicate Complete(cmd: string) {
    var c := Parse(cmd);
    c.Write? ==> c.key != "" && c.val != ""
  }

  lemma {:induction false} ReplayStorable(st: KVState, ms: seq<Message>)
    requires Storable(st.um) && forall k :: 0 <= k < |ms| ==> Complete(ms[k].command)
    ensures Storable(Replay(st, ms).um)
  {
    if ms != [] {
      ReplayStorable(st, ms[..|ms| - 1]);
    }
  }

  /** Snapshot then replay equals full replay: restoring the snapshot taken after some commands and applying the rest
      gives the same map, last index and last term as applying them all. */
  lemma SnapshotThenReplay(before: seq<Message>, after: seq<Message>, order: seq<string>, old_: KVState)
    requires forall k :: 0 <= k < |before| ==> Complete(before[k].command)
    requires Visits(order, Replay(KVState(map[], 0, 0), before).um)
    ensures Replay(Restored(Snapshot(Replay(KVState(map[], 0, 0), before), order), old_), after) ==
            Replay(KVState(map[], 0, 0), before + after)
  {
    var start := KVState(map[], 0, 0);
    ReplayStorable(start, before);
    SnapshotRoundTrip(Replay(start, before), order, old_);
    ReplaySplit(start, before, after);
  }

  // ----- the server -----

  class KVRaft {
    var um: map<string, string>
    var lastApplyIndex: int
    var lastApplyTerm: int

    function State(): KVState
      reads this
    {
      KVState(um, lastApplyIndex, lastApplyTerm)
    }

    constructor ()
      ensures State() == KVState(map[], 0, 0)
    {
      um, lastApplyIndex, lastApplyTerm := map[], 0, 0;
    }

    method PutAppendInternal(c: Command) returns (r: Reply)
      requires c.Write?
      modifies this`um
      ensures um == old(um)[c.key := c.val] && r == PutReply(SUCCEED)
    {
      um := um[c.key := c.val];
      r := PutReply(SUCCEED);
    }

    method GetInternal(key: string) returns (r: Reply)
      ensures r == if key in um then GetReply(SUCCEED, um[key]) else GetReply(ERR_NO_KEY, "")
    {
      r := if key !in um then GetReply(ERR_NO_KEY, "") else GetReply(SUCCEED, um[key]);
    }

    method Apply(m: Message) returns (r: Reply)
      modifies this
      ensures State() == Step(old(State()), m) && r == Answer(um, Parse(m.command))
    {
      var c := Parse(m.command);
      r := NoReply;
      match c {
        case Write(_, _, _) => r := PutAppendInternal(c);
        case Get(key) => r := GetInternal(key);
        case Invalid =>
      }
      lastApplyIndex, lastApplyTerm := m.index, m.term;
    }

    method StartSnapShot() returns (text: string, ghost order: seq<string>)
      ensures Visits(order, um) && text == Snapshot(State(), order)
    {
      text := PrintInt(lastApplyIndex) + " " + PrintInt(lastApplyTerm) + "\n";
      ghost var header := text;
      order := [];
      var rest := um.Keys;
      while rest != {}
        invariant rest <= um.Keys && (forall key :: key in order <==> key in um && key !in rest)
        invariant forall j, k :: 0 <= j < k < |order| ==> order[j] != order[k]
        invariant text == header + Lines(um, order)
        decreases |rest|
      {
        var key :| key in rest;
        LinesAppend(um, order, key);
        text := text + key + " " + um[key] + "\n";
        order, rest := order + [key], rest - {key};
      }
    }

    method ApplySnapShot(text: string)
      modifies this
      ensures State() == Restored(text, old(State()))
    {
      um := map[];
      var index := ReadInt(text);
      if index.None? {
        lastApplyIndex := 0;
        return;
      }
      lastApplyIndex := index.value.0;
      var term := ReadInt(index.value.1);
      if term.None? {
        lastApplyTerm := 0;
        return;
      }
      lastApplyTerm := term.value.0;
      um := ReadEntries(term.value.1);
    }
  }

  /** What Raft applies, one message after the other, and then a get. */
  method ApplyThenGet(kv: KVRaft, ms: seq<Message>, ghost cs: seq<Command>, key: string, index: int, term: int)
    returns (r: Reply)
    requires Carry(ms, cs) && Plain(Get(key))
    modifies kv
    ensures r == match Held(old(kv.um), cs, key)
                 case Some(v) => GetReply(SUCCEED, v)
                 case None => GetReply(ERR_NO_KEY, "")
    ensures kv.um == Replay(old(kv.State()), ms).um && kv.lastApplyIndex == index && kv.lastApplyTerm == term
  {
    ghost var start := kv.State();
    for k := 0 to |ms|
      invariant kv.State() == Replay(start, ms[..k])
    {
      assert ms[..k + 1][..k] == ms[..k];
      r := kv.Apply(ms[k]);
    }
    assert ms[..|ms|] == ms;
    GetsLastWrite(start, ms, cs, key);
    GetRoundTrip(key);
    r := kv.Apply(Message(FormatGet(key), index, term));
  }

  lemma {:induction false} LinesAppend(um: map<string, string>, order: seq<string>, key: string)
    requires key in um && forall k :: 0 <= k < |order| ==> order[k] in um
    ensures Lines(um, order + [key]) == Lines(um, order) + PairLine(key, ' ', um[key])
  {
    if order == [] {
      assert order + [key] == [key];
    } else {
      LinesAppend(um, order[1..], key);
      assert (order + [key])[1..] == order[1..] + [key];
    }
  }

  /** The loop of lines 155-157. */
  method ReadEntries(text: string) returns (um: map<string, string>)
    ensures um == Insert(map[], ReadPairs(text))
  {
    um := map[];
    var rest := text;
    var key := ReadWord(rest);
    var val := if key.Some? then ReadWord(key.value.1) else None;
    while val.Some?
      invariant key == ReadWord(rest) && val == if key.Some? then ReadWord(key.value.1) else None
      invariant Insert(um, ReadPairs(rest)) == Insert(map[], ReadPairs(text))
      decreases |rest|
    {
      assert ([Pair(key.value.0, val.value.0)] + ReadPairs(val.value.1))[1..] == ReadPairs(val.value.1);
      um, rest := um[key.value.0 := val.value.0], val.value.1;
      key := ReadWord(rest);
      val := if key.Some? then ReadWord(key.value.1) else None;
    }
  }
}
