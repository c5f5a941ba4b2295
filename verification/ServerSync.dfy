// The reply of the master server to a query for all servers, and what a client makes of it
// (master-server/masterserver.cpp, MasterCommon.cpp, MasterClient.cpp).
module ServerSync {
  import opened GameServers

  // What is written to a bit stream, and read from it in the same order
  datatype Token = Id(id: Address) | Count(n: nat) | Str(s: string) | Flag(b: bool) | Int(i: int)

  const MAX_CHARS: nat := 255            // EncodeString(..., 256, ...) keeps one character for the end
  const UNSIGNED_SHORT: nat := 65536

  function Encoded(s: string): string {
    if |s| <= MAX_CHARS then s else s[..MAX_CHARS]
  }

  // ---- the format ----

  // SerializeRule
  function EncodeRule(r: Rule): seq<Token> {
    match r.value
    case Text(s) => [Str(Encoded(r.key)), Flag(true), Str(Encoded(s))]
    case Number(n) => [Str(Encoded(r.key)), Flag(false), Int(n)]
  }

  function EncodeRules(rules: seq<Rule>): seq<Token> {
    if rules == [] then [] else EncodeRule(rules[0]) + EncodeRules(rules[1..])
  }

  // Reserved rules are not sent.
  function Sent(rules: seq<Rule>): seq<Rule> {
    if rules == [] then []
    else if IsReserved(rules[0].key) then Sent(rules[1..])
    else [rules[0]] + Sent(rules[1..])
  }

  function EncodeServer(g: GameServer): seq<Token> {
    [Id(g.id), Count(|Sent(g.rules)| % UNSIGNED_SHORT)] + EncodeRules(Sent(g.rules))
  }

  function EncodeServers(servers: seq<GameServer>): seq<Token> {
    if servers == [] then [] else EncodeServer(servers[0]) + EncodeServers(servers[1..])
  }

  function EncodeReply(servers: seq<GameServer>): seq<Token> {
    [Count(|servers| % UNSIGNED_SHORT)] + EncodeServers(servers)
  }

  // ---- the master server ----

  // SerializeServer
  method SerializeServer(g: GameServer) returns (out: seq<Token>)
    ensures out == EncodeServer(g)
  {
    var n, i := 0, 0;
    while i < |g.rules|
      invariant 0 <= i <= |g.rules| && n + |Sent(g.rules[i..])| == |Sent(g.rules)|
    {
      if !IsReserved(g.rules[i].key) {
        n := n + 1;
      }
      i := i + 1;
    }
    out := [Id(g.id), Count(n % UNSIGNED_SHORT)];
    i := 0;
    while i < |g.rules|
      invariant 0 <= i <= |g.rules| && out + EncodeRules(Sent(g.rules[i..])) == EncodeServer(g)
    {
      if !IsReserved(g.rules[i].key) {
        var token := EncodeRule(g.rules[i]);
        ghost var rest := Sent(g.rules[i + 1..]);
        assert ([g.rules[i]] + rest)[1..] == rest;
        assert out + (token + EncodeRules(rest)) == (out + token) + EncodeRules(rest);
        out := out + token;
      }
      i := i + 1;
    }
  }

  // The queryAll branch of HandleQuery
  method HandleQueryAll(servers: seq<GameServer>) returns (out: seq<Token>)
    ensures out == EncodeReply(servers)
  {
    out := [Count(|servers| % UNSIGNED_SHORT)];
    var i := 0;
    while i < |servers|
      invariant 0 <= i <= |servers| && out + EncodeServers(servers[i..]) == EncodeReply(servers)
    {
      var s := SerializeServer(servers[i]);
      assert out + (s + EncodeServers(servers[i + 1..])) == (out + s) + EncodeServers(servers[i + 1..]);
      out := out + s;
      i := i + 1;
    }
  }

  // ---- reading ----

  // What comes through unchanged
  predicate Sendable(r: Rule) {
    0 < |r.key| <= MAX_CHARS && (r.value.Text? ==> 0 < |r.value.s| <= MAX_CHARS)
  }

  ghost predicate SendableServer(g: GameServer) {
    && UniqueKeys(g.rules) && |Sent(g.rules)| < UNSIGNED_SHORT
    && forall i :: 0 <= i < |Sent(g.rules)| ==> Sendable(Sent(g.rules)[i])
  }

  // A rule with strings that are too long arrives with their first 255 characters.
  function CutRule(r: Rule): Rule {
    var key := if |r.key| > 255 then r.key[..255] else r.key;
    match r.value
    case Text(s) => Rule(key, Text(if |s| > 255 then s[..255] else s))
    case Number(n) => Rule(key, Number(n))
  }

  // DeserializeRule: a rule without a key, or with an empty string, is an error.
  method DeserializeRule(input: seq<Token>, ghost rule: Rule, ghost tail: seq<Token>)
    returns (r: Option<Rule>, rest: seq<Token>)
    ensures Sendable(rule) && input == EncodeRule(rule) + tail ==> r == Some(rule) && rest == tail
    ensures input == EncodeRule(rule) + tail && rule.key != "" && rule.value != Text("") ==>
              r == Some(CutRule(rule)) && rest == tail
    ensures r.Some? ==> r.value.key != "" && r.value.value != Text("")
  {
    if |input| < 3 || !input[0].Str? || input[0].s == "" || !input[1].Flag? {
      return None, input;
    }
    if input[1].b {
      if !input[2].Str? || input[2].s == "" {
        return None, input;
      }
      return Some(Rule(input[0].s, Text(input[2].s))), input[3..];
    }
    if !input[2].Int? {
      return None, input;
    }
    return Some(Rule(input[0].s, Number(input[2].i))), input[3..];
  }

  // The loop of DeserializeServer: reserved rules are dropped.
  method DeserializeRules(input: seq<Token>, n: nat, ghost sent: seq<Rule>, ghost tail: seq<Token>)
    returns (rules: Option<seq<Rule>>, rest: seq<Token>)
    ensures Readable(sent) && |sent| == n && input == EncodeRules(sent) + tail ==> rules == Some(sent) && rest == tail
  {
    hide EncodeRules, EncodeRule, Sendable, IsReserved;
    ghost var written := Readable(sent) && |sent| == n && input == EncodeRules(sent) + tail;
    rest := input;
    var read: seq<Rule> := [];
    assert sent[0..] == sent;
    var i := 0;
    while i < n
      invariant 0 <= i <= n
      invariant written ==> read == sent[..i] && rest == EncodeRules(sent[i..]) + tail
    {
      ghost var next, more := if written then sent[i] else Rule("", Number(0)), [];
      if written {
        more := EncodeRules(sent[i + 1..]) + tail;
        NextRule(sent, i, tail);
      }
      var rule;
      rule, rest := DeserializeRule(rest, next, more);
      if rule.None? {
        return None, rest;
      }
      if !IsReserved(rule.value.key) {
        read := read + [rule.value];
      }
      i := i + 1;
    }
    if written {
      NoRules(tail);
      assert sent[..n] == sent && sent[n..] == [];
    }
    return Some(read), rest;
  }

  ghost predicate Readable(sent: seq<Rule>) {
    forall i :: 0 <= i < |sent| ==> Sendable(sent[i]) && !IsReserved(sent[i].key)
  }

  // DeserializeServer: a server that was written comes back with the rules that were sent.
  method DeserializeServer(input: seq<Token>, now: nat, ghost g: GameServer, ghost tail: seq<Token>)
    returns (r: Option<GameServer>, rest: seq<Token>)
    ensures SendableServer(g) && input == EncodeServer(g) + tail ==>
              r == Some(GameServer(g.id, Sent(g.rules), now)) && rest == tail
  {
    ghost var written := SendableServer(g) && input == EncodeServer(g) + tail;
    if |input| < 2 || !input[0].Id? || !input[1].Count? {
      return None, input;
    }
    if written {
      WrittenServer(g, tail);
    }
    var rules;
    rules, rest := DeserializeRules(input[2..], input[1].n, Sent(g.rules), tail);
    return if rules.None? then None else Some(GameServer(input[0].id, rules.value, now)), rest;
  }

  lemma WrittenServer(g: GameServer, tail: seq<Token>)
    requires SendableServer(g)
    ensures var s := EncodeServer(g) + tail;
            |s| >= 2 && s[0] == Id(g.id) && s[1] == Count(|Sent(g.rules)|) &&
              s[2..] == EncodeRules(Sent(g.rules)) + tail
    ensures Readable(Sent(g.rules))
  {
    forall i | 0 <= i < |Sent(g.rules)|
      ensures !IsReserved(Sent(g.rules)[i].key)
    {
      SentOnly(g.rules, Sent(g.rules)[i]);
    }
  }

  lemma NextRule(sent: seq<Rule>, i: nat, tail: seq<Token>)
    requires i < |sent|
    ensures EncodeRules(sent[i..]) + tail == EncodeRule(sent[i]) + (EncodeRules(sent[i + 1..]) + tail)
  {
    assert sent[i..][1..] == sent[i + 1..];
    var a, b := EncodeRule(sent[i]), EncodeRules(sent[i + 1..]);
    assert (a + b) + tail == a + (b + tail);
  }

  lemma NoRules(tail: seq<Token>)
    ensures EncodeRules([]) + tail == tail
  {
  }

  lemma {:induction false} SentOnly(rules: seq<Rule>, r: Rule)
    ensures r in Sent(rules) ==> !IsReserved(r.key) && r in rules
    decreases |rules|
  {
    if rules != [] {
      SentOnly(rules[1..], r);
    }
  }

  lemma {:induction false} SentLookup(rules: seq<Rule>, key: string)
    ensures Lookup(Sent(rules), key) == if IsReserved(key) then None else Lookup(rules, key)
    decreases |rules|
  {
    if rules != [] {
      SentLookup(rules[1..], key);
      var s := Sent(rules[1..]);
      assert ([rules[0]] + s)[1..] == s;
    }
  }

  lemma {:induction false} SentUnique(rules: seq<Rule>)
    requires UniqueKeys(rules)
    ensures UniqueKeys(Sent(rules))
    decreases |rules|
  {
    if rules != [] {
      var rest := rules[1..];
      assert forall i :: 0 <= i < |rest| ==> rest[i] == rules[i + 1];
      SentUnique(rest);
      forall r | r in Sent(rest)
        ensures r.key != rules[0].key
      {
        SentOnly(rest, r);
      }
    }
  }

  // ---- the client's list ----

  // The server with this address: the first one
  function Find(list: seq<GameServer>, id: Address): Option<GameServer> {
    if list == [] then None else if list[0].id == id then Some(list[0]) else Find(list[1..], id)
  }

  predicate DistinctIds(list: seq<GameServer>) {
    forall i, j :: 0 <= i < j < |list| ==> list[i].id != list[j].id
  }

  lemma {:induction false} FindAt(list: seq<GameServer>, i: nat)
    requires i < |list| && DistinctIds(list)
    ensures Find(list, list[i].id) == Some(list[i])
    decreases i
  {
    if i > 0 {
      FindAt(list[1..], i - 1);
    }
  }

  lemma {:induction false} FindIn(list: seq<GameServer>, id: Address)
    ensures Find(list, id).Some? ==> Find(list, id).value in list && Find(list, id).value.id == id
    ensures Find(list, id).None? ==> forall i :: 0 <= i < |list| ==> list[i].id != id
    decreases |list|
  {
    if list != [] {
      FindIn(list[1..], id);
      assert forall i :: 1 <= i < |list| ==> list[i] == list[1..][i - 1];
    }
  }

  // AddDefaultRulesToServer
  function DefaultRules(dotted: string, port: nat): seq<Rule> {
    [Rule("IP", Text(if |dotted| <= 21 then dotted else dotted[..21])), Rule("Port", Number(port)),
     Rule("Ping", Number(9999))]
  }

  lemma DefaultsReserved(dotted: string, port: nat, key: string)
    requires !IsReserved(key)
    ensures Lookup(DefaultRules(dotted, port), key) == None
  {
    LookupNone(DefaultRules(dotted, port), key);
  }

  // The reserved keys are those that every server has by default: its address, and a ping that is not known yet.
  ghost predicate HasDefaults(g: GameServer, dotted: string) {
    && Lookup(g.rules, "IP") == Some(Text(if |dotted| <= 21 then dotted else dotted[..21]))
    && Lookup(g.rules, "Port") == Some(Number(g.id.port)) && Lookup(g.rules, "Ping") == Some(Number(9999))
  }

  lemma DefaultsThere(g: GameServer, dotted: string)
    requires forall k :: IsReserved(k) ==> Lookup(g.rules, k) == None
    ensures forall k :: IsReserved(k) <==> Lookup(DefaultRules(dotted, g.id.port), k).Some?
    ensures HasDefaults(g.(rules := g.rules + DefaultRules(dotted, g.id.port)), dotted)
  {
    var rules, port := g.rules, g.id.port;
    var d := DefaultRules(dotted, port);
    LookupAt(d, 0);
    LookupAt(d, 1);
    LookupAt(d, 2);
    forall k
      ensures Lookup(rules + d, k) == if Lookup(rules, k).Some? then Lookup(rules, k) else Lookup(d, k)
    {
      LookupAppend(rules, d, k);
    }
    forall k
      ensures IsReserved(k) <==> Lookup(d, k).Some?
    {
      LookupNone(d, k);
    }
  }

  // Apart from the reserved ones, g has the rules of m.
  ghost predicate SameRules(g: GameServer, m: GameServer) {
    forall k :: !IsReserved(k) ==> Lookup(g.rules, k) == Lookup(m.rules, k)
  }

  // The client shows exactly the servers of the master, with exactly their rules.
  ghost predicate Mirrors(list: seq<GameServer>, servers: seq<GameServer>) {
    forall id :: MirrorsAt(list, servers, id)
  }

  ghost predicate MirrorsAt(list: seq<GameServer>, servers: seq<GameServer>, id: Address) {
    match (Find(list, id), Find(servers, id))
    case (Some(g), Some(m)) => SameRules(g, m)
    case (None, None) => true
    case _ => false
  }

  // What the list holds for one address when the servers in done have been dealt with
  ghost predicate HandledAt(list: seq<GameServer>, prior: seq<GameServer>, done: seq<GameServer>, start: nat,
                            id: Address) {
    match Find(done, id)
    case Some(m) =>
      Find(list, id).Some? && SameRules(Find(list, id).value, m) && Find(list, id).value.lastUpdateTime >= start
    case None => Find(list, id) == Find(prior, id)
  }

  ghost predicate Handled(list: seq<GameServer>, prior: seq<GameServer>, done: seq<GameServer>, start: nat) {
    DistinctIds(list) && forall id :: HandledAt(list, prior, done, start, id)
  }

  class MasterClient {
    var serverList: seq<GameServer>
    var clock: nat                       // RakNet::GetTime, which never goes back

    method GetTime(ticks: nat) returns (t: nat)
      modifies `clock
      ensures t == clock == old(clock) + ticks
    {
      clock := clock + ticks;
      return clock;
    }

    method GetIndexByPlayerID(id: Address) returns (index: int)
      ensures -1 <= index < |serverList|
      ensures index >= 0 ==> serverList[index].id == id
      ensures index < 0 ==> forall i :: 0 <= i < |serverList| ==> serverList[i].id != id
    {
      var i := 0;
      while i < |serverList|
        invariant 0 <= i <= |serverList| && forall j :: 0 <= j < i ==> serverList[j].id != id
      {
        if serverList[i].id == id {
          return i;
        }
        i := i + 1;
      }
      return -1;
    }

    // UpdateServerList with deleteSingleRules: the server is in the list with the rules of g, and the others
    // stay as they are.
    method UpdateServerList(g: GameServer, dotted: string, ticks: nat)
      requires DistinctIds(serverList) && UniqueKeys(g.rules) && g.lastUpdateTime <= clock
      modifies `serverList, `clock
      ensures DistinctIds(serverList) && clock >= old(clock)
      ensures forall id :: id != g.id ==> Find(serverList, id) == Find(old(serverList), id)
      ensures Find(serverList, g.id).Some? && SameRules(Find(serverList, g.id).value, g)
      ensures Find(serverList, g.id).value.lastUpdateTime >= g.lastUpdateTime
      ensures Find(old(serverList), g.id).None? && (forall k :: IsReserved(k) ==> Lookup(g.rules, k) == None) ==>
                HasDefaults(Find(serverList, g.id).value, dotted)
    {
      ghost var before := serverList;
      var index := GetIndexByPlayerID(g.id);
      var added;
      if index < 0 {
        added := g.(rules := g.rules + DefaultRules(dotted, g.id.port));
        forall k | !IsReserved(k)
          ensures Lookup(added.rules, k) == Lookup(g.rules, k)
        {
          LookupAppend(g.rules, DefaultRules(dotted, g.id.port), k);
          DefaultsReserved(dotted, g.id.port, k);
        }
        assert SameRules(added, g);
        if forall k :: IsReserved(k) ==> Lookup(g.rules, k) == None {
          DefaultsThere(g, dotted);
        }
        serverList := serverList + [added];
        Appended(before, added);
        assert Find(serverList, g.id) == Some(added);
      } else {
        FindAt(serverList, index);
        var rules := UpdateServer(serverList[index].rules, g.rules);
        var now := GetTime(ticks);
        added := serverList[index].(rules := rules, lastUpdateTime := now);
        forall k | !IsReserved(k)
          ensures Lookup(added.rules, k) == Lookup(g.rules, k)
        {
        }
        assert SameRules(added, g);
        serverList := serverList[index := added];
        Replaced(before, index, added);
        assert Find(serverList, g.id) == Some(added);
      }
    }

    // HandleServerListResponse to a reply that sets the list
    method HandleServerListResponse(packet: seq<Token>, dotted: seq<string>, ticks: seq<nat>,
                                    ghost servers: seq<GameServer>)
      requires packet == EncodeReply(servers) && DistinctIds(servers) && |servers| < UNSIGNED_SHORT
      requires |dotted| == |ticks| == |servers| && DistinctIds(serverList)
      requires forall i :: 0 <= i < |servers| ==> SendableServer(servers[i])
      modifies this
      ensures DistinctIds(serverList) && clock >= old(clock)
      ensures Mirrors(serverList, servers) <==>
              forall g :: g in old(serverList) && Find(servers, g.id).None? ==> g.lastUpdateTime < old(clock)
    {
      var n, rest := packet[0].n, packet[1..];
      var start := clock;
      ghost var prior := serverList;
      assert servers[0..] == servers && servers[..0] == [];
      var i := 0;
      while i < n
        invariant 0 <= i <= n == |servers| && rest == EncodeServers(servers[i..]) && clock >= start
        invariant Handled(serverList, prior, servers[..i], start)
      {
        ghost var tail, was := EncodeServers(servers[i + 1..]), serverList;
        var now := GetTime(ticks[i]);
        var g;
        g, rest := DeserializeServer(rest, now, servers[i], tail);
        SentUnique(servers[i].rules);
        UpdateServerList(g.value, dotted[i], ticks[i]);
        HandledMore(was, serverList, prior, servers, i, start, g.value);
        i := i + 1;
      }
      assert servers[..i] == servers;
      ghost var all := serverList;
      DeleteStale(start);
      MirrorsExactly(prior, all, serverList, servers, start);
    }

    // The servers that have not been updated since start go.
    method DeleteStale(start: nat)
      requires DistinctIds(serverList)
      modifies `serverList
      ensures DistinctIds(serverList)
      ensures forall id :: Find(serverList, id) == Fresh(Find(old(serverList), id), start)
    {
      ghost var all := serverList;
      var i := 0;
      while i < |serverList|
        invariant 0 <= i <= |serverList| && DistinctIds(serverList)
        invariant forall j :: 0 <= j < i ==> serverList[j].lastUpdateTime >= start
        invariant forall id :: Fresh(Find(serverList, id), start) == Fresh(Find(all, id), start)
        decreases |serverList| - i
      {
        if serverList[i].lastUpdateTime < start {
          ghost var was := serverList;
          serverList := serverList[..i] + serverList[i + 1..];
          Deleted(was, i);
          FindAt(was, i);
        } else {
          i := i + 1;
        }
      }
      forall id
        ensures Find(serverList, id) == Fresh(Find(serverList, id), start)
      {
        FindIn(serverList, id);
      }
    }
  }

  function Fresh(g: Option<GameServer>, start: nat): Option<GameServer> {
    if g.Some? && g.value.lastUpdateTime < start then None else g
  }

  lemma {:induction false} FindAppend(a: seq<GameServer>, b: seq<GameServer>, id: Address)
    ensures Find(a + b, id) == if Find(a, id).Some? then Find(a, id) else Find(b, id)
    decreases |a|
  {
    if a == [] {
      assert a + b == b;
    } else {
      FindAppend(a[1..], b, id);
      assert (a + b)[1..] == a[1..] + b;
    }
  }

  lemma Appended(list: seq<GameServer>, g: GameServer)
    requires DistinctIds(list) && forall i :: 0 <= i < |list| ==> list[i].id != g.id
    ensures DistinctIds(list + [g])
    ensures forall id :: Find(list + [g], id) == if id == g.id then Some(g) else Find(list, id)
  {
    forall id
      ensures Find(list + [g], id) == if id == g.id then Some(g) else Find(list, id)
    {
      FindAppend(list, [g], id);
      FindIn(list, id);
    }
  }

  lemma FindSplit(list: seq<GameServer>, i: nat, id: Address)
    requires i < |list|
    ensures Find(list, id) == if Find(list[..i], id).Some? then Find(list[..i], id)
                              else if list[i].id == id then Some(list[i])
                              else Find(list[i + 1..], id)
  {
    FindAppend(list[..i], list[i..], id);
    assert list[..i] + list[i..] == list && list[i..][1..] == list[i + 1..];
  }

  lemma OnlyThere(list: seq<GameServer>, i: nat)
    requires DistinctIds(list) && i < |list|
    ensures Find(list[..i], list[i].id) == None && Find(list[i + 1..], list[i].id) == None
  {
    FindIn(list[..i], list[i].id);
    FindIn(list[i + 1..], list[i].id);
  }

  lemma Replaced(list: seq<GameServer>, i: nat, g: GameServer)
    requires DistinctIds(list) && i < |list| && list[i].id == g.id
    ensures DistinctIds(list[i := g])
    ensures forall id :: Find(list[i := g], id) == if id == g.id then Some(g) else Find(list, id)
  {
    var list' := list[i := g];
    OnlyThere(list, i);
    assert list'[..i] == list[..i] && list'[i + 1..] == list[i + 1..];
    forall id
      ensures Find(list', id) == if id == g.id then Some(g) else Find(list, id)
    {
      FindSplit(list, i, id);
      FindSplit(list', i, id);
    }
  }

  lemma Deleted(list: seq<GameServer>, i: nat)
    requires DistinctIds(list) && i < |list|
    ensures DistinctIds(list[..i] + list[i + 1..])
    ensures forall id :: Find(list[..i] + list[i + 1..], id) == if id == list[i].id then None else Find(list, id)
  {
    var list' := list[..i] + list[i + 1..];
    OnlyThere(list, i);
    StillDistinct(list, i);
    hide DistinctIds;
    forall id
      ensures Find(list', id) == if id == list[i].id then None else Find(list, id)
    {
      FindSplit(list, i, id);
      FindAppend(list[..i], list[i + 1..], id);
    }
  }

  lemma StillDistinct(list: seq<GameServer>, i: nat)
    requires DistinctIds(list) && i < |list|
    ensures DistinctIds(list[..i] + list[i + 1..])
  {
    var list' := list[..i] + list[i + 1..];
    forall a, b | 0 <= a < b < |list'|
      ensures list'[a].id != list'[b].id
    {
      var a', b' := if a < i then a else a + 1, if b < i then b else b + 1;
      assert list'[a] == list[a'] && list'[b] == list[b'];
    }
  }

  lemma HandledMore(was: seq<GameServer>, list: seq<GameServer>, prior: seq<GameServer>, servers: seq<GameServer>,
                    i: nat,
                    start: nat, g: GameServer)
    requires i < |servers| && Handled(was, prior, servers[..i], start) && DistinctIds(list) && DistinctIds(servers)
    requires g.id == servers[i].id && g.rules == Sent(servers[i].rules) && g.lastUpdateTime >= start
    requires forall id :: id != g.id ==> Find(list, id) == Find(was, id)
    requires Find(list, g.id).Some? && SameRules(Find(list, g.id).value, g)
    requires Find(list, g.id).value.lastUpdateTime >= g.lastUpdateTime
    ensures Handled(list, prior, servers[..i + 1], start)
  {
    var m := servers[i];
    var done := servers[..i + 1];
    assert done == servers[..i] + [m];
    forall id
      ensures HandledAt(list, prior, done, start, id)
    {
      FindAppend(servers[..i], [m], id);
      FindIn(servers[..i], id);
      assert HandledAt(was, prior, servers[..i], start, id);
      if id == m.id {
        forall k | !IsReserved(k)
          ensures Lookup(Find(list, id).value.rules, k) == Lookup(m.rules, k)
        {
          SentLookup(m.rules, k);
        }
      }
    }
  }

  // The mirror is exact if and only if the clock has moved on since any other server was updated.
  lemma MirrorsExactly(prior: seq<GameServer>, all: seq<GameServer>, list: seq<GameServer>, servers: seq<GameServer>,
                       start: nat)
    requires DistinctIds(prior) && Handled(all, prior, servers, start)
    requires forall id :: Find(list, id) == Fresh(Find(all, id), start)
    ensures Mirrors(list, servers) <==>
            forall g :: g in prior && Find(servers, g.id).None? ==> g.lastUpdateTime < start
  {
    if forall g :: g in prior && Find(servers, g.id).None? ==> g.lastUpdateTime < start {
      forall id
        ensures MirrorsAt(list, servers, id)
      {
        assert HandledAt(all, prior, servers, start, id);
        FindIn(prior, id);
      }
    }
    if Mirrors(list, servers) {
      forall g | g in prior && Find(servers, g.id).None?
        ensures g.lastUpdateTime < start
      {
        assert HandledAt(all, prior, servers, start, g.id) && MirrorsAt(list, servers, g.id);
        var i :| 0 <= i < |prior| && prior[i] == g;
        FindAt(prior, i);
        assert Find(list, g.id) == Fresh(Some(g), start);
      }
    }
  }

  // A server that was updated at the very time the reply is handled stays, although the master no longer has it.
  lemma ClockStoodStill(start: nat)
    ensures var prior := [GameServer(Address(1, 1), [], start)];
            !Mirrors(prior, []) && forall id :: Find(prior, id) == Fresh(Find(prior, id), start)
  {
    var prior := [GameServer(Address(1, 1), [], start)];
    assert !MirrorsAt(prior, [], Address(1, 1));
  }
}
