/** The controller's requests as log commands. include/shardkv/CtrlerArgs.hpp:70-146. */
module CtrlerArgs {
  import opened RaftTypes
  import opened Text
  import opened ShardConfig
  import opened ShardCtrler

  type Hosts = seq<Host>

  // ----- serialize -----

  function PrintHost(h: Host): string {
    h.ip + " " + PrintInt(h.port) + " "
  }

  function PrintHosts(hosts: Hosts): string {
    if hosts == [] then "" else PrintHost(hosts[0]) + PrintHosts(hosts[1..])
  }

  function PrintGids(gids: seq<GID>): string {
    if gids == [] then "" else PrintInt(gids[0]) + " " + PrintGids(gids[1..])
  }

  function PrintGroup(g: GID, hosts: Hosts): string {
    PrintInt(g) + " " + PrintInt(|hosts|) + " " + PrintHosts(hosts)
  }

  /** The groups of a join in the order in which the map is visited. */
  function PrintGroups(servers: map<GID, Hosts>, order: seq<GID>): string
    requires forall k :: 0 <= k < |order| ==> order[k] in servers
  {
    if order == [] then "" else PrintGroup(order[0], servers[order[0]]) + PrintGroups(servers, order[1..])
  }

  ghost predicate Lists(order: seq<GID>, op: Op) {
    op.Join? ==>
      && (forall g :: g in op.servers <==> g in order)
      && (forall j, k :: 0 <= j < k < |order| ==> order[j] != order[k])
  }

  function Serialize(op: Op, order: seq<GID>): string
    requires op.Join? ==> forall k :: 0 <= k < |order| ==> order[k] in op.servers
  {
    match op
    case Join(servers) => "JOIN " + PrintGroups(servers, order)
    case Leave(gids) => "LEAVE " + PrintGids(gids)
    case Move(shard, gid) => "MOVE " + PrintInt(shard) + " " + PrintInt(gid)
    case Query(configNum) => "QUERY " + PrintInt(configNum)
  }

  // ----- deserialize -----

  function ReadHosts(n: nat, s: string): (r: Hosts)
    ensures |r| == n
  {
    if n == 0 then []
    else
      var (ip, s1) := Word(s);
      var (port, s2) := Number(s1);
      [Host(ip, port)] + ReadHosts(n - 1, s2)
  }

  predicate IsGid(n: int) {
    -0x8000_0000 <= n < 0x8000_0000
  }

  /** The loop "while (iss >> gid)"; a number that does not fit the type is a failed read. */
  function ReadGids(s: string): seq<GID>
    decreases |s|
  {
    match ReadInt(s)
    case None => []
    case Some((n, rest)) => if IsGid(n) then [n as GID] + ReadGids(rest) else []
  }

  function ReadJoin(s: string): Option<Op> {
    match ReadInt(s)
    case None => None
    case Some((gid, s1)) =>
      match ReadInt(s1)
      case None => None
      case Some((hostNum, s2)) =>
        if IsGid(gid) && hostNum >= 0 then Some(Join(map[gid as GID := ReadHosts(hostNum, s2)])) else None
  }

  function ReadMove(s: string): Option<Op> {
    match ReadInt(s)
    case None => None
    case Some((shard, s1)) =>
      match ReadInt(s1)
      case None => None
      case Some((gid, _)) => if shard >= 0 && IsGid(gid) then Some(Move(shard, gid as GID)) else None
  }

  function ReadQuery(s: string): Option<Op> {
    match ReadInt(s)
    case None => None
    case Some((n, _)) => Some(Query(n))
  }

  /** None is a stop, or a variable that is used without having been read. */
  function Deserialize(cmd: string): Option<Op> {
    var (kind, s) := Word(cmd);
    ReadOp(kind, s)
  }

  function ReadOp(kind: string, s: string): Option<Op> {
    if "JOIN" <= kind then ReadJoin(s)
    else if "LEAVE" <= kind then Some(Leave(ReadGids(s)))
    else if "MOVE" <= kind then ReadMove(s)
    else if "QUERY" <= kind then ReadQuery(s)
    else None
  }

  // ----- round trips -----

  lemma Dispatch(kind: string, rest: string)
    requires Clean(kind)
    ensures Deserialize(kind + " " + rest) == ReadOp(kind, " " + rest)
  {
    assert kind + " " + rest == kind + (" " + rest);
    ReadWordBack(kind, " " + rest);
  }

  lemma IntThenBlank(n: int, rest: string)
    ensures ReadInt(PrintInt(n) + " " + rest) == Some((n, " " + rest))
    ensures ReadInt(" " + rest) == ReadInt(rest) && Word(" " + rest) == Word(rest)
  {
    assert PrintInt(n) + " " + rest == PrintInt(n) + (" " + rest);
    ReadIntBack(n, " " + rest);
    ReadWordSkips(' ', rest);
  }

  lemma GidsSkipBlank(s: string)
    ensures ReadGids(" " + s) == ReadGids(s)
  {
    ReadWordSkips(' ', s);
  }

  lemma {:induction false} GidsBack(gids: seq<GID>)
    ensures ReadGids(PrintGids(gids)) == gids && ReadGids(" " + PrintGids(gids)) == gids
  {
    if gids != [] {
      var rest := PrintGids(gids[1..]);
      GidsBack(gids[1..]);
      IntThenBlank(gids[0], rest);
      GidsSkipBlank(rest);
    }
    GidsSkipBlank(PrintGids(gids));
  }

  lemma MoveBack(shard: nat, gid: GID)
    ensures ReadMove(" " + (PrintInt(shard) + " " + PrintInt(gid))) == Some(Move(shard, gid))
  {
    var rest := PrintInt(gid);
    ReadWordSkips(' ', PrintInt(shard) + " " + rest);
    IntThenBlank(shard, rest);
    ReadIntBack(gid, "");
    assert rest + "" == rest;
  }

  lemma QueryBack(n: int)
    ensures ReadQuery(" " + PrintInt(n)) == Some(Query(n))
  {
    ReadWordSkips(' ', PrintInt(n));
    ReadIntBack(n, "");
    assert PrintInt(n) + "" == PrintInt(n);
  }

  lemma LeaveRoundTrip(gids: seq<GID>)
    ensures Deserialize("LEAVE " + PrintGids(gids)) == Some(Leave(gids))
  {
    Dispatch("LEAVE", PrintGids(gids));
    assert "LEAVE" + " " == "LEAVE ";
    GidsBack(gids);
  }

  lemma MoveRoundTrip(shard: nat, gid: GID)
    ensures Deserialize("MOVE " + (PrintInt(shard) + " " + PrintInt(gid))) == Some(Move(shard, gid))
  {
    Dispatch("MOVE", PrintInt(shard) + " " + PrintInt(gid));
    assert "MOVE" + " " == "MOVE ";
    MoveBack(shard, gid);
  }

  lemma QueryRoundTrip(n: int)
    ensures Deserialize("QUERY " + PrintInt(n)) == Some(Query(n))
  {
    Dispatch("QUERY", PrintInt(n));
    assert "QUERY" + " " == "QUERY ";
    QueryBack(n);
  }

  /** Leave, move and query come back as they were. */
  lemma SingleRoundTrip(op: Op, order: seq<GID>)
    requires !op.Join?
    ensures Deserialize(Serialize(op, order)) == Some(op)
  {
    match op {
      case Leave(gids) =>
        LeaveRoundTrip(gids);
      case Move(shard, gid) =>
        MoveRoundTrip(shard, gid);
        assert Serialize(op, order) == "MOVE " + (PrintInt(shard) + " " + PrintInt(gid));
      case Query(n) =>
        QueryRoundTrip(n);
    }
  }

  predicate CleanHosts(hosts: Hosts) {
    forall k :: 0 <= k < |hosts| ==> Clean(hosts[k].ip)
  }

  lemma OneHostBack(ip: string, port: int, rest: string)
    requires Clean(ip)
    ensures Word(ip + " " + PrintInt(port) + " " + rest) == (ip, " " + (PrintInt(port) + " " + rest))
    ensures Number(" " + (PrintInt(port) + " " + rest)) == (port, " " + rest)
  {
    assert ip + " " + PrintInt(port) + " " + rest == ip + (" " + (PrintInt(port) + " " + rest));
    ReadWordBack(ip, " " + (PrintInt(port) + " " + rest));
    IntThenBlank(port, rest);
    ReadWordSkips(' ', PrintInt(port) + " " + rest);
  }

  /** A word is read before the blank that ends it, so an empty name is not read as empty. */
  lemma NotEmptyWord(port: int, rest: string)
    ensures Word("" + " " + PrintInt(port) + " " + rest).0 != ""
  {
    PrintIntClean(port);
    assert "" + " " + PrintInt(port) + " " + rest == " " + (PrintInt(port) + (" " + rest));
    ReadWordSkips(' ', PrintInt(port) + (" " + rest));
    ReadWordBack(PrintInt(port), " " + rest);
  }

  lemma HostsSkipBlank(n: nat, s: string)
    ensures ReadHosts(n, " " + s) == ReadHosts(n, s)
  {
    ReadWordSkips(' ', s);
  }

  /** The hosts of a group come back if and only if every name is a word. */
  lemma {:induction false} HostsRoundTrip(hosts: Hosts, rest: string)
    ensures ReadHosts(|hosts|, PrintHosts(hosts) + rest) == hosts <==> CleanHosts(hosts)
  {
    if hosts != [] {
      var h, more := hosts[0], PrintHosts(hosts[1..]) + rest;
      assert PrintHosts(hosts) + rest == h.ip + " " + PrintInt(h.port) + " " + more;
      HostsRoundTrip(hosts[1..], rest);
      HostsSkipBlank(|hosts| - 1, more);
      assert hosts == [h] + hosts[1..];
      if Clean(h.ip) {
        OneHostBack(h.ip, h.port, more);
        HeadOfHosts(h, hosts, ReadHosts(|hosts| - 1, more));
      } else if h.ip == "" {
        NotEmptyWord(h.port, more);
        assert ReadHosts(|hosts|, PrintHosts(hosts) + rest)[0].ip != h.ip;
      } else {
        assert ReadHosts(|hosts|, PrintHosts(hosts) + rest)[0].ip != h.ip;
      }
    }
  }

  lemma HeadOfHosts(h: Host, hosts: Hosts, rest: Hosts)
    requires hosts != [] && h == hosts[0]
    ensures [h] + rest == hosts <==> rest == hosts[1..]
    ensures Clean(h.ip) ==> (CleanHosts(hosts) <==> CleanHosts(hosts[1..]))
  {
    assert ([h] + rest)[1..] == rest && hosts == [h] + hosts[1..];
  }

  lemma FirstGroupBack(servers: map<GID, Hosts>, order: seq<GID>)
    requires Lists(order, Join(servers)) && order != []
    ensures var g := order[0];
      exists hosts: Hosts :: ReadJoin(" " + PrintGroups(servers, order)) == Some(Join(map[g := hosts])) &&
        (hosts == servers[g] <==> CleanHosts(servers[g]))
  {
    var g := order[0];
    var hosts, others := servers[g], PrintGroups(servers, order[1..]);
    var s2 := PrintHosts(hosts) + others;
    assert PrintGroups(servers, order) == PrintInt(g) + " " + (PrintInt(|hosts|) + " " + s2);
    GroupBack(g, |hosts|, s2);
    HostsRoundTrip(hosts, others);
    var back := ReadHosts(|hosts|, s2);
    assert ReadJoin(" " + PrintGroups(servers, order)) == Some(Join(map[g := back]));
  }

  lemma GroupBack(g: GID, n: nat, s: string)
    ensures ReadJoin(" " + (PrintInt(g) + " " + (PrintInt(n) + " " + s))) == Some(Join(map[g := ReadHosts(n, s)]))
  {
    ReadWordSkips(' ', PrintInt(g) + " " + (PrintInt(n) + " " + s));
    IntThenBlank(g, PrintInt(n) + " " + s);
    IntThenBlank(n, s);
    HostsSkipBlank(n, s);
  }

  lemma NoGroupBack()
    ensures ReadJoin(" ") == None
  {
    assert " " + "" == " ";
    ReadWordSkips(' ', "");
  }

  /** A join comes back if and only if it names exactly one group, and that group's host names are words: of more
      groups only the first one visited is read. */
  lemma JoinRoundTrip(servers: map<GID, Hosts>, order: seq<GID>)
    requires Lists(order, Join(servers))
    ensures Deserialize(Serialize(Join(servers), order)) == Some(Join(servers)) <==>
            |order| == 1 && CleanHosts(servers[order[0]])
  {
    var text := PrintGroups(servers, order);
    Dispatch("JOIN", text);
    assert "JOIN" + " " == "JOIN ";
    if order == [] {
      assert " " + "" == " ";
      NoGroupBack();
    } else {
      FirstGroupBack(servers, order);
      OnlyGroup(servers, order);
    }
  }

  lemma OnlyGroup(servers: map<GID, Hosts>, order: seq<GID>)
    requires Lists(order, Join(servers)) && order != []
    ensures forall hosts: Hosts {:trigger Join(map[order[0] := hosts])} ::
      map[order[0] := hosts] == servers <==> |order| == 1 && hosts == servers[order[0]]
  {
    if |order| == 1 {
      assert servers.Keys == {order[0]};
      forall hosts: Hosts ensures map[order[0] := hosts] == servers <==> hosts == servers[order[0]] {
        assert hosts == servers[order[0]] ==> map[order[0] := hosts] == servers;
        assert map[order[0] := hosts] == servers ==> servers[order[0]] == hosts;
      }
    } else {
      assert order[1] in servers && order[1] != order[0];
    }
  }

  // ----- the loops -----

  lemma {:induction false} HostsAppend(hosts: Hosts, h: Host)
    ensures PrintHosts(hosts + [h]) == PrintHosts(hosts) + PrintHost(h)
  {
    if hosts == [] {
      assert hosts + [h] == [h];
    } else {
      HostsAppend(hosts[1..], h);
      assert (hosts + [h])[0] == hosts[0] && (hosts + [h])[1..] == hosts[1..] + [h];
      Associative(PrintHost(hosts[0]), PrintHosts(hosts[1..]), PrintHost(h));
    }
  }

  lemma {:induction false} GidsAppend(gids: seq<GID>, g: GID)
    ensures PrintGids(gids + [g]) == PrintGids(gids) + (PrintInt(g) + " ")
  {
    if gids == [] {
      assert gids + [g] == [g];
    } else {
      GidsAppend(gids[1..], g);
      assert (gids + [g])[0] == gids[0] && (gids + [g])[1..] == gids[1..] + [g];
      Associative(PrintInt(gids[0]) + " ", PrintGids(gids[1..]), PrintInt(g) + " ");
    }
  }

  lemma {:induction false} GroupsAppend(servers: map<GID, Hosts>, order: seq<GID>, g: GID)
    requires g in servers && forall k :: 0 <= k < |order| ==> order[k] in servers
    ensures PrintGroups(servers, order + [g]) == PrintGroups(servers, order) + PrintGroup(g, servers[g])
  {
    if order == [] {
      assert order + [g] == [g];
    } else {
      GroupsAppend(servers, order[1..], g);
      assert (order + [g])[0] == order[0] && (order + [g])[1..] == order[1..] + [g];
      Associative(PrintGroup(order[0], servers[order[0]]), PrintGroups(servers, order[1..]), PrintGroup(g, servers[g]));
    }
  }

  lemma WriteStep(hosts: Hosts, i: nat)
    requires i < |hosts|
    ensures PrintHosts(hosts[..i + 1]) == PrintHosts(hosts[..i]) + PrintHost(hosts[i])
  {
    HostsAppend(hosts[..i], hosts[i]);
    assert hosts[..i + 1] == hosts[..i] + [hosts[i]];
  }

  method WriteHosts(hosts: Hosts) returns (text: string)
    ensures text == PrintHosts(hosts)
  {
    text := "";
    for i := 0 to |hosts|
      invariant text == PrintHosts(hosts[..i])
    {
      WriteStep(hosts, i);
      text := text + PrintHost(hosts[i]);
    }
    assert hosts[..|hosts|] == hosts;
  }

  method WriteGids(gids: seq<GID>) returns (text: string)
    ensures text == PrintGids(gids)
  {
    text := "";
    for i := 0 to |gids|
      invariant text == PrintGids(gids[..i])
    {
      GidsAppend(gids[..i], gids[i]);
      assert gids[..i + 1] == gids[..i] + [gids[i]];
      text := text + (PrintInt(gids[i]) + " ");
    }
    assert gids[..|gids|] == gids;
  }

  /** The groups may be visited in any order; the one chosen is returned. */
  method WriteGroups(servers: map<GID, Hosts>) returns (text: string, ghost order: seq<GID>)
    ensures Lists(order, Join(servers)) && text == PrintGroups(servers, order)
  {
    text, order := "", [];
    var rest := servers.Keys;
    while rest != {}
      invariant rest <= servers.Keys && forall g :: g in order <==> g in servers && g !in rest
      invariant forall j, k :: 0 <= j < k < |order| ==> order[j] != order[k]
      invariant text == PrintGroups(servers, order)
      decreases |rest|
    {
      var g :| g in rest;
      GroupsAppend(servers, order, g);
      var hosts := WriteHosts(servers[g]);
      text := text + (PrintInt(g) + " " + PrintInt(|servers[g]|) + " " + hosts);
      order, rest := order + [g], rest - {g};
    }
  }

  method SerializeArgs(op: Op) returns (text: string, ghost order: seq<GID>)
    ensures Lists(order, op) && text == Serialize(op, order)
  {
    order := [];
    match op {
      case Join(servers) =>
        text, order := WriteGroups(servers);
        text := "JOIN " + text;
      case Leave(gids) =>
        text := WriteGids(gids);
        text := "LEAVE " + text;
      case Move(shard, gid) =>
        text := "MOVE " + PrintInt(shard) + " " + PrintInt(gid);
      case Query(configNum) =>
        text := "QUERY " + PrintInt(configNum);
    }
  }

  method ParseHosts(n: nat, text: string) returns (hosts: Hosts)
    ensures hosts == ReadHosts(n, text)
  {
    hosts := [];
    var s := text;
    for i := 0 to n
      invariant hosts + ReadHosts(n - i, s) == ReadHosts(n, text)
    {
      var ip := Word(s);
      var port := Number(ip.1);
      ghost var rest := ReadHosts(n - i - 1, port.1);
      assert ReadHosts(n - i, s) == [Host(ip.0, port.0)] + rest;
      assert hosts + ([Host(ip.0, port.0)] + rest) == hosts + [Host(ip.0, port.0)] + rest;
      hosts, s := hosts + [Host(ip.0, port.0)], port.1;
    }
  }

  method ParseGids(text: string) returns (gids: seq<GID>)
    ensures gids == ReadGids(text)
  {
    gids := [];
    var s := text;
    var n := ReadInt(s);
    while n.Some? && IsGid(n.value.0)
      invariant n == ReadInt(s) && gids + ReadGids(s) == ReadGids(text)
      decreases |s|
    {
      ghost var rest := ReadGids(n.value.1);
      assert gids + ([n.value.0 as GID] + rest) == gids + [n.value.0 as GID] + rest;
      gids, s := gids + [n.value.0 as GID], n.value.1;
      n := ReadInt(s);
    }
  }

  method DeserializeArgs(cmd: string) returns (op: Option<Op>)
    ensures op == Deserialize(cmd)
  {
    var kind := Word(cmd);
    if "JOIN" <= kind.0 {
      var gid := ReadInt(kind.1);
      var hostNum := if gid.Some? then ReadInt(gid.value.1) else None;
      if hostNum.None? || !IsGid(gid.value.0) || hostNum.value.0 < 0 {
        return None;
      }
      var hosts := ParseHosts(hostNum.value.0, hostNum.value.1);
      op := Some(Join(map[gid.value.0 as GID := hosts]));
    } else if "LEAVE" <= kind.0 {
      var gids := ParseGids(kind.1);
      op := Some(Leave(gids));
    } else if "MOVE" <= kind.0 {
      op := ReadMove(kind.1);
    } else if "QUERY" <= kind.0 {
      op := ReadQuery(kind.1);
    } else {
      op := None;
    }
  }
}
