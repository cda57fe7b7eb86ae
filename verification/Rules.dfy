/** The pre-auth table: from configured names to rules, and what the five probes accept. */
module Rules {
  import opened Net
  import opened Frames
  import opened History
  import opened Datapath

  // ----- what the probes accept -----------------------------------------------------------

  /** A rule field of 0 stands for anything. */
  predicate Matches(rule: AllowKey, k: AllowKey) {
    && (rule.proto == 0 || rule.proto == k.proto)
    && (rule.sPort == 0 || rule.sPort == k.sPort)
    && (rule.dPort == 0 || rule.dPort == k.dPort)
  }

  /** The fields the rule leaves open for k are none, the protocol, or ports only. */
  predicate ProbeReaches(rule: AllowKey, k: AllowKey) {
    rule.proto == k.proto || (rule.sPort == k.sPort && rule.dPort == k.dPort)
  }

  /** The five probes accept exactly the matching rules that do not leave open both the protocol
      and a port. */
  lemma ProbesAccept(table: set<AllowKey>, k: AllowKey)
    ensures ProtoAllowed(table, k) <==> exists rule | rule in table :: Matches(rule, k) && ProbeReaches(rule, k)
  {
    if rule :| rule in table && Matches(rule, k) && ProbeReaches(rule, k) {
      assert rule in {k, AllowKey(0, k.sPort, k.dPort), AllowKey(k.proto, 0, k.dPort),
                      AllowKey(k.proto, k.sPort, 0), AllowKey(k.proto, 0, 0)};
    }
    if ProtoAllowed(table, k) {
      var rule :| rule in table && rule in {k, AllowKey(0, k.sPort, k.dPort), AllowKey(k.proto, 0, k.dPort),
                                            AllowKey(k.proto, k.sPort, 0), AllowKey(k.proto, 0, 0)};
      assert Matches(rule, k) && ProbeReaches(rule, k);
    }
  }

  // ----- replies --------------------------------------------------------------------------

  function SwapPorts(k: AllowKey): AllowKey { AllowKey(k.proto, k.dPort, k.sPort) }

  ghost predicate ReplyClosed(table: set<AllowKey>) {
    forall k | k in table :: SwapPorts(k) in table
  }

  /** In a reply-closed table a packet is allowed exactly when its reply is. */
  lemma RepliesAllowed(table: set<AllowKey>, k: AllowKey)
    requires ReplyClosed(table)
    ensures ProtoAllowed(table, k) <==> ProtoAllowed(table, SwapPorts(k))
  {
    if ProtoAllowed(table, k) {
      SwappedAllowed(table, k);
    } else if ProtoAllowed(table, SwapPorts(k)) {
      SwappedAllowed(table, SwapPorts(k));
    }
  }

  lemma SwappedAllowed(table: set<AllowKey>, k: AllowKey)
    requires ReplyClosed(table) && ProtoAllowed(table, k)
    ensures ProtoAllowed(table, SwapPorts(k))
  {
    ProbesAccept(table, k);
    var rule :| rule in table && Matches(rule, k) && ProbeReaches(rule, k);
    assert SwapPorts(rule) in table && Matches(SwapPorts(rule), SwapPorts(k))
           && ProbeReaches(SwapPorts(rule), SwapPorts(k));
    ProbesAccept(table, SwapPorts(k));
  }

  // ----- from names to rules --------------------------------------------------------------

  /** A "proto:sport:dport" rule; Any is the word "any". */
  datatype PortSpec = Any | Num(port: Word)

  datatype L4Rule = L4Rule(proto: nat, sport: PortSpec, dport: PortSpec)

  function PortNumber(p: PortSpec): Word { if p.Any? then 0 else p.port }

  /** parse_l3 and parse_l4, with the protocol cut to its map field's 8 bits. */
  function L3Key(proto: nat): AllowKey { AllowKey(proto % 256, 0, 0) }

  function L4Key(r: L4Rule): AllowKey { AllowKey(r.proto % 256, PortNumber(r.sport), PortNumber(r.dport)) }

  function TranslateL3(name: string): Option<nat> {
    if name == "icmp" then Some(1)
    else if name == "igmp" then Some(2)
    else if name == "tcp" then Some(6)
    else if name == "udp" then Some(17)
    else if name == "gre" then Some(47)
    else if name == "esp" then Some(50)
    else if name == "ah" then Some(51)
    else if name == "icmpv6" then Some(58)
    else if name == "ospf" then Some(89)
    else if name == "sctp" then Some(132)
    else None
  }

  function BothWays(proto: nat, port: Word): seq<L4Rule> {
    [L4Rule(proto, Any, Num(port)), L4Rule(proto, Num(port), Any)]
  }

  function TranslateL4(name: string): seq<L4Rule> {
    if name == "dns" then BothWays(17, 53)
    else if name == "dhcp" then [L4Rule(17, Num(68), Num(67)), L4Rule(17, Num(67), Num(68))]
    else if name == "ntp" then BothWays(17, 123)
    else if name == "http" then BothWays(6, 80)
    else if name == "https" then BothWays(6, 443)
    else if name == "mdns" then BothWays(17, 5353)
    else if name == "llmnr" then BothWays(17, 5355)
    else if name == "syslog" then BothWays(17, 514)
    else if name == "snmp" then BothWays(17, 161)
    else []
  }

  function KeysL3(name: string): seq<AllowKey> {
    var p := TranslateL3(name);
    if p.None? then [] else [L3Key(p.value)]
  }

  function KeysL4(name: string): seq<AllowKey> {
    var rules := TranslateL4(name);
    seq(|rules|, i requires 0 <= i < |rules| => L4Key(rules[i]))
  }

  ghost predicate FromL3(k: AllowKey, names: seq<string>) { exists name | name in names :: k in KeysL3(name) }

  ghost predicate FromL4(k: AllowKey, names: seq<string>) { exists name | name in names :: k in KeysL4(name) }

  lemma FromAppend(names: seq<string>, name: string)
    ensures forall k :: FromL3(k, names + [name]) <==> FromL3(k, names) || k in KeysL3(name)
    ensures forall k :: FromL4(k, names + [name]) <==> FromL4(k, names) || k in KeysL4(name)
  {
    hide KeysL3, KeysL4;
    assert forall n :: n in names + [name] <==> n in names || n == name;
  }

  /** The rules the two loops add, in order. */
  function AllKeysL3(names: seq<string>): seq<AllowKey> {
    if names == [] then [] else AllKeysL3(names[..|names| - 1]) + KeysL3(names[|names| - 1])
  }

  function AllKeysL4(names: seq<string>): seq<AllowKey> {
    if names == [] then [] else AllKeysL4(names[..|names| - 1]) + KeysL4(names[|names| - 1])
  }

  lemma {:induction false} AllKeysFromNames(l3: seq<string>, l4: seq<string>)
    ensures forall k :: k in AllKeysL3(l3) <==> FromL3(k, l3)
    ensures forall k :: k in AllKeysL4(l4) <==> FromL4(k, l4)
    decreases |l3| + |l4|
  {
    hide KeysL3, KeysL4;
    if l3 != [] {
      var before, name := l3[..|l3| - 1], l3[|l3| - 1];
      AllKeysFromNames(before, l4);
      FromAppend(before, name);
      assert l3 == before + [name];
    } else if l4 != [] {
      var before, name := l4[..|l4| - 1], l4[|l4| - 1];
      AllKeysFromNames(l3, before);
      FromAppend(before, name);
      assert l4 == before + [name];
    }
  }

  // ----- every key a name can stand for ---------------------------------------------------

  const L3_NAMES: seq<string> := ["icmp", "igmp", "tcp", "udp", "gre", "esp", "ah", "icmpv6", "ospf", "sctp"]

  const L4_NAMES: seq<string> := ["dns", "dhcp", "ntp", "http", "https", "mdns", "llmnr", "syslog", "snmp"]

  const L3_KEYS: set<AllowKey> := KeySet(AllKeysL3(L3_NAMES))

  const L4_KEYS: set<AllowKey> := KeySet(AllKeysL4(L4_NAMES))

  function KeySet(keys: seq<AllowKey>): set<AllowKey> { set k | k in keys }

  lemma KnownNames(name: string)
    ensures KeysL3(name) != [] ==> name in L3_NAMES
    ensures KeysL4(name) != [] ==> name in L4_NAMES
  {
    hide L3Key, L4Key, BothWays;
  }

  /** Every name's key comes with its reply... */
  lemma L3Names(name: string)
    ensures forall k | k in KeysL3(name) :: k in L3_KEYS && SwapPorts(k) in KeysL3(name) && k.proto != 0
  {
    KnownNames(name);
    AllKeysFromNames(L3_NAMES, L4_NAMES);
    RepliesL3(name);
    hide KeysL3, AllKeysL3, L3_NAMES, SwapPorts;
    forall k | k in KeysL3(name)
      ensures k in L3_KEYS
    {
      assert FromL3(k, L3_NAMES);
    }
  }

  lemma RepliesL3(name: string)
    ensures forall k | k in KeysL3(name) :: SwapPorts(k) in KeysL3(name) && k.proto != 0
  {
  }

  /** ... and so do every name's keys. */
  lemma L4Names(name: string)
    ensures forall k | k in KeysL4(name) :: k in L4_KEYS && SwapPorts(k) in KeysL4(name) && k.proto != 0
  {
    KnownNames(name);
    AllKeysFromNames(L3_NAMES, L4_NAMES);
    RepliesL4(name);
    hide KeysL4, AllKeysL4, L4_NAMES, SwapPorts;
    forall k | k in KeysL4(name)
      ensures k in L4_KEYS
    {
      assert FromL4(k, L4_NAMES);
    }
  }

  lemma RepliesL4(name: string)
    ensures forall k | k in KeysL4(name) :: SwapPorts(k) in KeysL4(name) && k.proto != 0
  {
    var rules := TranslateL4(name);
    if rules != [] {
      assert |rules| == 2;
      var a, b := L4Key(rules[0]), L4Key(rules[1]);
      assert SwapPorts(a) == b && SwapPorts(b) == a;
      assert KeysL4(name) == [a, b];
    }
  }

  lemma {:induction false} AllKeysSize(l3: seq<string>, l4: seq<string>)
    ensures |AllKeysL3(l3)| <= |l3| && |AllKeysL4(l4)| <= 2 * |l4|
    decreases |l3| + |l4|
  {
    if l3 != [] {
      AllKeysSize(l3[..|l3| - 1], l4);
    } else if l4 != [] {
      AllKeysSize(l3, l4[..|l4| - 1]);
    }
  }

  lemma UniverseSize()
    ensures |L3_KEYS + L4_KEYS| <= 28
  {
    AllKeysSize(L3_NAMES, L4_NAMES);
    assert |L3_NAMES| == 10 && |L4_NAMES| == 9;
    hide KeySet, L3_NAMES, L4_NAMES, AllKeysL3, AllKeysL4;
    KeySetSize(AllKeysL3(L3_NAMES));
    KeySetSize(AllKeysL4(L4_NAMES));
    UnionSize(L3_KEYS, L4_KEYS);
  }

  lemma {:induction false} KeySetSize(keys: seq<AllowKey>)
    ensures |KeySet(keys)| <= |keys|
  {
    if keys != [] {
      KeySetAppends(keys[..|keys| - 1], keys[|keys| - 1]);
      KeySetSize(keys[..|keys| - 1]);
      assert keys == keys[..|keys| - 1] + [keys[|keys| - 1]];
    }
  }

  lemma KeySetAppends(keys: seq<AllowKey>, k: AllowKey)
    ensures KeySet(keys + [k]) == KeySet(keys) + {k}
  {
  }

  lemma UnionSize<T>(a: set<T>, b: set<T>)
    ensures |a + b| <= |a| + |b|
  {
    assert a + b == a + (b - a);
    SubsetSize(b - a, b);
  }

  // ----- apply_preauth_l3 and apply_preauth_l4 --------------------------------------------

  /** protocol_allow_add_action on a table that holds only configured keys always succeeds. */
  lemma AddSucceeds(table: set<AllowKey>, k: AllowKey)
    requires table <= L3_KEYS + L4_KEYS
    ensures Apply(table, Put(Some(k)), PROTO_CAPACITY) == (table + {k}, true)
  {
    UniverseSize();
    SubsetSize(table, L3_KEYS + L4_KEYS);
  }

  /** One hgctl call per rule of a name. */
  method AddRules(table: set<AllowKey>, keys: seq<AllowKey>) returns (r: set<AllowKey>)
    requires table <= L3_KEYS + L4_KEYS && forall k | k in keys :: k in L3_KEYS + L4_KEYS
    ensures r == table + KeySet(keys)
  {
    hide L3_KEYS, L4_KEYS, Apply;
    r := table;
    for i := 0 to |keys|
      invariant r == table + KeySet(keys[..i])
    {
      AddSucceeds(r, keys[i]);
      r := Apply(r, Put(Some(keys[i])), PROTO_CAPACITY).0;
      KeySetAppends(keys[..i], keys[i]);
      assert keys[..i + 1] == keys[..i] + [keys[i]];
    }
    assert keys[..|keys|] == keys;
  }

  /** apply_preauth_l3: one rule for every name it knows. */
  method ApplyL3(names: seq<string>) returns (table: set<AllowKey>)
    ensures forall k :: k in table <==> FromL3(k, names)
    ensures table <= L3_KEYS + L4_KEYS
  {
    hide KeysL3, KeysL4, L3_KEYS, L4_KEYS;
    table := {};
    for i := 0 to |names|
      invariant forall k :: k in table <==> FromL3(k, names[..i])
      invariant table <= L3_KEYS + L4_KEYS
    {
      L3Names(names[i]);
      table := AddRules(table, KeysL3(names[i]));
      FromAppend(names[..i], names[i]);
      assert names[..i + 1] == names[..i] + [names[i]];
    }
    assert names[..|names|] == names;
  }

  /** apply_preauth_l4, on the table the first left: two rules for every name it knows. */
  method ApplyL4(names: seq<string>, before: set<AllowKey>) returns (table: set<AllowKey>)
    requires before <= L3_KEYS + L4_KEYS
    ensures forall k :: k in table <==> k in before || FromL4(k, names)
    ensures table <= L3_KEYS + L4_KEYS
  {
    hide KeysL3, KeysL4, L3_KEYS, L4_KEYS;
    table := before;
    for i := 0 to |names|
      invariant forall k :: k in table <==> k in before || FromL4(k, names[..i])
      invariant table <= L3_KEYS + L4_KEYS
    {
      L4Names(names[i]);
      table := AddRules(table, KeysL4(names[i]));
      FromAppend(names[..i], names[i]);
      assert names[..i + 1] == names[..i] + [names[i]];
    }
    assert names[..|names|] == names;
  }

  // ----- the configured table -------------------------------------------------------------

  ghost predicate Configured(table: set<AllowKey>, l3: seq<string>, l4: seq<string>) {
    forall k :: k in table <==> FromL3(k, l3) || FromL4(k, l4)
  }

  /** The table built from the configured names holds exactly their rules. */
  method ApplyPreauth(l3: seq<string>, l4: seq<string>) returns (table: set<AllowKey>)
    ensures Configured(table, l3, l4)
  {
    hide FromL3, FromL4;
    table := ApplyL3(l3);
    table := ApplyL4(l4, table);
  }

  lemma ConfiguredKey(table: set<AllowKey>, l3: seq<string>, l4: seq<string>, k: AllowKey)
    requires Configured(table, l3, l4) && k in table
    ensures SwapPorts(k) in table && k in L3_KEYS + L4_KEYS && k.proto != 0
  {
    hide KeysL3, KeysL4, L3_KEYS, L4_KEYS;
    if FromL3(k, l3) {
      var name :| name in l3 && k in KeysL3(name);
      L3Names(name);
      assert FromL3(SwapPorts(k), l3);
    } else {
      var name :| name in l4 && k in KeysL4(name);
      L4Names(name);
      assert FromL4(SwapPorts(k), l4);
    }
  }

  /** For every list of names the table fits its map with at most 28 keys, is closed under
      replies, and is read by the probes as a plain wildcard match. */
  lemma ConfiguredTable(l3: seq<string>, l4: seq<string>, table: set<AllowKey>)
    requires Configured(table, l3, l4)
    ensures ReplyClosed(table) && |table| <= 28 < PROTO_CAPACITY
    ensures forall k :: ProtoAllowed(table, k) <==> exists rule | rule in table :: Matches(rule, k)
  {
    hide Configured, ProtoAllowed, L3_KEYS, L4_KEYS;
    forall k | k in table
      ensures SwapPorts(k) in table && k in L3_KEYS + L4_KEYS && k.proto != 0
    {
      ConfiguredKey(table, l3, l4, k);
    }
    assert table <= L3_KEYS + L4_KEYS;
    UniverseSize();
    SubsetSize(table, L3_KEYS + L4_KEYS);
    forall k
      ensures ProtoAllowed(table, k) <==> exists rule | rule in table :: Matches(rule, k)
    {
      ProbesAccept(table, k);
    }
  }

  // ----- the table as a run of adds -------------------------------------------------------

  function Puts(keys: seq<AllowKey>): seq<SetOp<AllowKey>> {
    seq(|keys|, i requires 0 <= i < |keys| => Put(Some(keys[i])))
  }

  lemma {:induction false} PutsMakeTable(keys: seq<AllowKey>)
    requires forall k | k in keys :: k in L3_KEYS + L4_KEYS
    ensures RunOps(Puts(keys), PROTO_CAPACITY) == KeySet(keys)
  {
    hide Apply, L3_KEYS, L4_KEYS;
    if keys != [] {
      var n := |keys| - 1;
      assert Puts(keys)[..n] == Puts(keys[..n]) && Puts(keys)[n] == Put(Some(keys[n]));
      PutsMakeTable(keys[..n]);
      assert KeySet(keys[..n]) <= L3_KEYS + L4_KEYS;
      AddSucceeds(KeySet(keys[..n]), keys[n]);
      KeySetAppends(keys[..n], keys[n]);
      assert keys == keys[..n] + [keys[n]];
    }
  }

  /** Adding the rules of all names, in the order of the loops, makes the configured table. */
  lemma AddsMakeConfigured(l3: seq<string>, l4: seq<string>)
    ensures Configured(RunOps(Puts(AllKeysL3(l3) + AllKeysL4(l4)), PROTO_CAPACITY), l3, l4)
  {
    hide KeysL3, KeysL4, RunOps, Puts, AllKeysL3, AllKeysL4, L3_KEYS, L4_KEYS;
    AllKeysFromNames(l3, l4);
    var keys := AllKeysL3(l3) + AllKeysL4(l4);
    forall k | k in keys
      ensures k in L3_KEYS + L4_KEYS
    {
      if FromL3(k, l3) {
        var name :| name in l3 && k in KeysL3(name);
        L3Names(name);
      } else {
        var name :| name in l4 && k in KeysL4(name);
        L4Names(name);
      }
    }
    PutsMakeTable(keys);
  }
}
