// Game servers, their rules, and the list of them that the master server and its clients keep
// (master-server/MasterCommon.cpp).
module GameServers {

  // A PlayerID
  datatype Address = Address(binaryAddress: nat, port: nat)

  // stringValue, or intValue when there is no stringValue
  datatype RuleValue = Text(s: string) | Number(n: int)

  datatype Rule = Rule(key: string, value: RuleValue)

  datatype GameServer = GameServer(id: Address, rules: seq<Rule>, lastUpdateTime: nat)

  datatype Option<T> = None | Some(value: T)

  predicate IsReserved(key: string) {
    key == "Ping" || key == "IP" || key == "Port"
  }

  // ---- rules ----

  // What FindKey finds: the first rule with the key
  function Lookup(rules: seq<Rule>, key: string): Option<RuleValue> {
    if rules == [] then None else if rules[0].key == key then Some(rules[0].value) else Lookup(rules[1..], key)
  }

  // The position of that rule, or -1
  method FindKey(rules: seq<Rule>, key: string) returns (index: int)
    ensures -1 <= index < |rules|
    ensures index >= 0 ==> rules[index].key == key && forall i :: 0 <= i < index ==> rules[i].key != key
    ensures index < 0 ==> forall i :: 0 <= i < |rules| ==> rules[i].key != key
  {
    var i := 0;
    while i < |rules|
      invariant 0 <= i <= |rules| && forall j :: 0 <= j < i ==> rules[j].key != key
    {
      if rules[i].key == key {
        return i;
      }
      i := i + 1;
    }
    return -1;
  }

  predicate HasKey(rules: seq<Rule>, key: string) {
    exists i :: 0 <= i < |rules| && rules[i].key == key
  }

  predicate UniqueKeys(rules: seq<Rule>) {
    forall i, j :: 0 <= i < j < |rules| ==> rules[i].key != rules[j].key
  }

  lemma {:induction false} LookupAt(rules: seq<Rule>, i: nat)
    requires i < |rules| && forall j :: 0 <= j < i ==> rules[j].key != rules[i].key
    ensures Lookup(rules, rules[i].key) == Some(rules[i].value)
    decreases i
  {
    if i > 0 {
      LookupAt(rules[1..], i - 1);
    }
  }

  lemma {:induction false} LookupNone(rules: seq<Rule>, key: string)
    ensures Lookup(rules, key) == None <==> !HasKey(rules, key)
    decreases |rules|
  {
    if rules != [] {
      LookupNone(rules[1..], key);
      if HasKey(rules, key) {
        var i :| 0 <= i < |rules| && rules[i].key == key;
        assert i > 0 ==> rules[1..][i - 1].key == key;
      }
      if HasKey(rules[1..], key) {
        var i :| 0 <= i < |rules[1..]| && rules[1..][i].key == key;
        assert rules[i + 1].key == key;
      }
    }
  }

  lemma {:induction false} LookupAppend(rules: seq<Rule>, more: seq<Rule>, key: string)
    ensures Lookup(rules + more, key) == if Lookup(rules, key).Some? then Lookup(rules, key) else Lookup(more, key)
    decreases |rules|
  {
    if rules == [] {
      assert rules + more == more;
    } else {
      LookupAppend(rules[1..], more, key);
      assert (rules + more)[1..] == rules[1..] + more;
    }
  }

  lemma {:induction false} LookupReplace(rules: seq<Rule>, i: nat, v: RuleValue, key: string)
    requires i < |rules| && forall j :: 0 <= j < i ==> rules[j].key != rules[i].key
    ensures Lookup(rules[i := rules[i].(value := v)], key) == if key == rules[i].key then Some(v)
            else Lookup(rules, key)
    decreases i
  {
    var rules' := rules[i := rules[i].(value := v)];
    if i > 0 {
      LookupReplace(rules[1..], i - 1, v, key);
      assert rules'[1..] == rules[1..][i - 1 := rules[1..][i - 1].(value := v)];
    } else {
      assert rules'[1..] == rules[1..];
    }
  }

  // UpdateServerRule: the rule has the new value, and no other rule changes.
  method UpdateServerRule(rules: seq<Rule>, key: string, v: RuleValue) returns (changed: bool, rules': seq<Rule>)
    ensures forall k :: Lookup(rules', k) == if k == key then Some(v) else Lookup(rules, k)
    ensures changed == (Lookup(rules, key) != Some(v)) && (!changed ==> rules' == rules)
    ensures UniqueKeys(rules) ==> UniqueKeys(rules')
  {
    var index := FindKey(rules, key);
    if index >= 0 {
      LookupAt(rules, index);
      rules' := rules[index := rules[index].(value := v)];
      forall k
        ensures Lookup(rules', k) == if k == key then Some(v) else Lookup(rules, k)
      {
        LookupReplace(rules, index, v, k);
      }
      changed := rules[index].value != v;
    } else {
      LookupNone(rules, key);
      rules' := rules + [Rule(key, v)];
      forall k
        ensures Lookup(rules', k) == if k == key then Some(v) else Lookup(rules, k)
      {
        LookupAppend(rules, [Rule(key, v)], k);
      }
      changed := true;
    }
  }

  // UpdateServer with deleteSingleRules: rules that the source does not have go, unless they are reserved.
  method Prune(rules: seq<Rule>, source: seq<Rule>) returns (rules': seq<Rule>)
    ensures forall k :: Lookup(rules', k) == if IsReserved(k) || HasKey(source, k) then Lookup(rules, k) else None
    ensures UniqueKeys(rules) ==> UniqueKeys(rules')
  {
    rules' := rules;
    var i := 0;
    while i < |rules'|
      invariant 0 <= i <= |rules'|
      invariant forall j :: 0 <= j < i ==> IsReserved(rules'[j].key) || HasKey(source, rules'[j].key)
      invariant forall k :: IsReserved(k) || HasKey(source, k) ==> Lookup(rules', k) == Lookup(rules, k)
      invariant UniqueKeys(rules) ==> UniqueKeys(rules')
      decreases |rules'| - i
    {
      var index := FindKey(source, rules'[i].key);
      if !IsReserved(rules'[i].key) && index < 0 {
        forall k | IsReserved(k) || HasKey(source, k)
          ensures Lookup(rules'[..i] + rules'[i + 1..], k) == Lookup(rules', k)
        {
          LookupRemove(rules', i, k);
        }
        rules' := rules'[..i] + rules'[i + 1..];
      } else {
        assert index >= 0 ==> HasKey(source, rules'[i].key);
        i := i + 1;
      }
    }
    forall k | !IsReserved(k) && !HasKey(source, k)
      ensures Lookup(rules', k) == None
    {
      LookupNone(rules', k);
    }
  }

  lemma LookupRemove(rules: seq<Rule>, i: nat, key: string)
    requires i < |rules| && rules[i].key != key
    ensures Lookup(rules[..i] + rules[i + 1..], key) == Lookup(rules, key)
  {
    LookupAppend(rules[..i], rules[i + 1..], key);
    LookupAppend(rules[..i], rules[i..], key);
    assert rules[..i] + rules[i..] == rules;
    assert rules[i..][1..] == rules[i + 1..];
  }

  // UpdateServer: afterwards the server has, apart from reserved rules, the rules of the source and no others.
  method UpdateServer(rules: seq<Rule>, source: seq<Rule>) returns (rules': seq<Rule>)
    requires UniqueKeys(source)
    ensures forall k :: Lookup(rules', k) == if IsReserved(k) then Lookup(rules, k) else Lookup(source, k)
    ensures UniqueKeys(rules) ==> UniqueKeys(rules')
  {
    var pruned := Prune(rules, source);
    rules' := pruned;
    var i := 0;
    while i < |source|
      invariant 0 <= i <= |source|
      invariant forall k :: Lookup(rules', k) ==
                  if !IsReserved(k) && HasKey(source[..i], k) then Lookup(source, k) else Lookup(pruned, k)
      invariant UniqueKeys(rules) ==> UniqueKeys(rules')
    {
      var r := source[i];
      LookupAt(source, i);
      assert forall k :: HasKey(source[..i + 1], k) <==> HasKey(source[..i], k) || k == r.key by {
        forall k
          ensures HasKey(source[..i + 1], k) <==> HasKey(source[..i], k) || k == r.key
        {
          HasKeyNext(source, i, k);
        }
      }
      if !IsReserved(r.key) {
        var changed;
        changed, rules' := UpdateServerRule(rules', r.key, r.value);
      }
      i := i + 1;
    }
    assert source[..i] == source;
    forall k | !IsReserved(k)
      ensures Lookup(rules', k) == Lookup(source, k)
    {
      LookupNone(source, k);
    }
  }

  lemma HasKeyNext(rules: seq<Rule>, i: nat, key: string)
    requires i < |rules|
    ensures HasKey(rules[..i + 1], key) <==> HasKey(rules[..i], key) || key == rules[i].key
  {
    if HasKey(rules[..i], key) {
      var j :| 0 <= j < i && rules[..i][j].key == key;
      assert rules[..i + 1][j].key == key;
    }
    if key == rules[i].key {
      assert rules[..i + 1][i].key == key;
    }
    if HasKey(rules[..i + 1], key) {
      var j :| 0 <= j < i + 1 && rules[..i + 1][j].key == key;
      assert j < i ==> rules[..i][j].key == key;
    }
  }
}
