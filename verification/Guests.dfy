/** Clients without a session: the walled garden and the pre-auth table at work in the hooks. */
module Guests {
  import opened Net
  import opened Frames
  import opened Garden
  import opened History
  import opened Datapath
  import opened Rules
  import opened Sessions

  function HostOrder(ip: Ip): bv32 { (ip.hi as bv32 << 16) | ip.lo as bv32 }

  /** Some CIDR added and not since deleted covers the address. */
  ghost predicate Covered(ops: seq<Op>, ip: Ip) {
    exists i | 0 <= i < |ops| :: Planted(ops, i) && Covers(ops[i].cidr, HostOrder(ip))
  }

  /** The wg-add and wg-del steps of a run. */
  function Cidrs(steps: seq<Step>): seq<Op> {
    if steps == [] then [] else
      var before := Cidrs(steps[..|steps| - 1]);
      var step := steps[|steps| - 1];
      if step.GardenOp? then before + [step.g] else before
  }

  lemma {:induction false} GardenOpsAreCidrs(steps: seq<Step>)
    ensures GardenOps(steps) == KeyOps(Cidrs(steps))
  {
    if steps != [] {
      hide KeyOp;
      GardenOpsAreCidrs(steps[..|steps| - 1]);
    }
  }

  /** The garden map after every run, looked up as the hooks do. */
  lemma GardenIsCover(steps: seq<Step>, ip: Ip)
    ensures TrieHas(RunOps(GardenOps(steps), WG_CAPACITY), Native(ip)) <==> Covered(Cidrs(steps), ip)
  {
    hide KeyOps, GardenOps, RunOps, TrieHas, Swap, Planted, Covers, HostOrder, Cidrs;
    GardenOpsAreCidrs(steps);
    NativeIsSwapped(ip);
    LookupIsPrefixCover(Cidrs(steps), HostOrder(ip));
  }

  lemma NativeIsSwapped(ip: Ip)
    ensures Native(ip) == Swap(HostOrder(ip))
  {
  }

  /** The rules of the configured names, and nothing else, were loaded. */
  ghost predicate Loaded(steps: seq<Step>, l3: seq<string>, l4: seq<string>) {
    ProtoOps(steps) == Puts(AllKeysL3(l3) + AllKeysL4(l4))
  }

  ghost predicate NamesAllow(l3: seq<string>, l4: seq<string>, k: AllowKey) {
    exists rule :: (FromL3(rule, l3) || FromL4(rule, l4)) && Matches(rule, k)
  }

  lemma TableIsNames(steps: seq<Step>, l3: seq<string>, l4: seq<string>, k: AllowKey)
    requires Loaded(steps, l3, l4)
    ensures ProtoAllowed(RunOps(ProtoOps(steps), PROTO_CAPACITY), k) <==> NamesAllow(l3, l4, k)
  {
    hide RunOps, ProtoOps, Puts, AllKeysL3, AllKeysL4, ProtoAllowed, Matches, FromL3, FromL4;
    AddsMakeConfigured(l3, l4);
    ConfiguredTable(l3, l4, RunOps(ProtoOps(steps), PROTO_CAPACITY));
  }

  /** One level-4 name allows what one of its rules matches; a level-3 name likewise. */
  lemma OneName(name: string, k: AllowKey)
    ensures NamesAllow([], [name], k) <==> exists rule | rule in KeysL4(name) :: Matches(rule, k)
    ensures NamesAllow([name], [], k) <==> exists rule | rule in KeysL3(name) :: Matches(rule, k)
  {
    hide KeysL3, KeysL4, Matches;
    forall rule
      ensures FromL4(rule, [name]) <==> rule in KeysL4(name)
      ensures FromL3(rule, [name]) <==> rule in KeysL3(name)
      ensures !FromL3(rule, []) && !FromL4(rule, [])
    {
      assert name in [name];
    }
  }

  /** Either end at the port of a service. */
  predicate AtService(k: AllowKey, proto: nat, port: Word) {
    k.proto == proto && (k.sPort == port || k.dPort == port)
  }

  lemma ServiceName(name: string, proto: nat, port: Word, k: AllowKey)
    requires TranslateL4(name) == BothWays(proto, port) && 0 < proto < 256 && port != 0
    ensures NamesAllow([], [name], k) <==> AtService(k, proto, port)
  {
    hide TranslateL4;
    OneName(name, k);
    var rules := BothWays(proto, port);
    assert KeysL4(name) == [L4Key(rules[0]), L4Key(rules[1])];
    assert L4Key(rules[0]) in KeysL4(name) && L4Key(rules[1]) in KeysL4(name);
    assert L4Key(rules[0]) == AllowKey(proto, 0, port) && L4Key(rules[1]) == AllowKey(proto, port, 0);
  }

  /** Which packets each level-4 name lets through: UDP or TCP with the service's port at either end,
      and for DHCP its two ports in either order. No other name lets anything through. */
  lemma ServicePackets(k: AllowKey)
    ensures NamesAllow([], ["dns"], k) <==> AtService(k, 17, 53)
    ensures NamesAllow([], ["ntp"], k) <==> AtService(k, 17, 123)
    ensures NamesAllow([], ["http"], k) <==> AtService(k, 6, 80)
    ensures NamesAllow([], ["https"], k) <==> AtService(k, 6, 443)
    ensures NamesAllow([], ["mdns"], k) <==> AtService(k, 17, 5353)
    ensures NamesAllow([], ["llmnr"], k) <==> AtService(k, 17, 5355)
    ensures NamesAllow([], ["syslog"], k) <==> AtService(k, 17, 514)
    ensures NamesAllow([], ["snmp"], k) <==> AtService(k, 17, 161)
    ensures NamesAllow([], ["dhcp"], k) <==>
            k.proto == 17 && ((k.sPort == 68 && k.dPort == 67) || (k.sPort == 67 && k.dPort == 68))
  {
    ServiceTable();
    hide NamesAllow, AtService, TranslateL4, BothWays;
    ServiceName("dns", 17, 53, k);
    ServiceName("ntp", 17, 123, k);
    ServiceName("http", 6, 80, k);
    ServiceName("https", 6, 443, k);
    ServiceName("mdns", 17, 5353, k);
    ServiceName("llmnr", 17, 5355, k);
    ServiceName("syslog", 17, 514, k);
    ServiceName("snmp", 17, 161, k);
    DhcpPackets(k);
  }

  lemma ServiceTable()
    ensures TranslateL4("dns") == BothWays(17, 53) && TranslateL4("ntp") == BothWays(17, 123)
    ensures TranslateL4("http") == BothWays(6, 80) && TranslateL4("https") == BothWays(6, 443)
    ensures TranslateL4("mdns") == BothWays(17, 5353) && TranslateL4("llmnr") == BothWays(17, 5355)
    ensures TranslateL4("syslog") == BothWays(17, 514) && TranslateL4("snmp") == BothWays(17, 161)
  {
    hide BothWays;
  }

  lemma DhcpPackets(k: AllowKey)
    ensures NamesAllow([], ["dhcp"], k) <==>
            k.proto == 17 && ((k.sPort == 68 && k.dPort == 67) || (k.sPort == 67 && k.dPort == 68))
  {
    OneName("dhcp", k);
    var rules := [L4Rule(17, Num(68), Num(67)), L4Rule(17, Num(67), Num(68))];
    assert TranslateL4("dhcp") == rules;
    assert KeysL4("dhcp") == [L4Key(rules[0]), L4Key(rules[1])];
    assert AllowKey(17, 68, 67) in KeysL4("dhcp") && AllowKey(17, 67, 68) in KeysL4("dhcp");
    hide TranslateL4, KeysL4;
  }

  /** Which packets each level-3 name lets through: those of its protocol. */
  lemma ProtocolPackets(k: AllowKey)
    ensures NamesAllow(["icmp"], [], k) <==> k.proto == 1
    ensures NamesAllow(["igmp"], [], k) <==> k.proto == 2
    ensures NamesAllow(["tcp"], [], k) <==> k.proto == 6
    ensures NamesAllow(["udp"], [], k) <==> k.proto == 17
    ensures NamesAllow(["gre"], [], k) <==> k.proto == 47
    ensures NamesAllow(["esp"], [], k) <==> k.proto == 50
    ensures NamesAllow(["ah"], [], k) <==> k.proto == 51
    ensures NamesAllow(["icmpv6"], [], k) <==> k.proto == 58
    ensures NamesAllow(["ospf"], [], k) <==> k.proto == 89
    ensures NamesAllow(["sctp"], [], k) <==> k.proto == 132
  {
    ProtocolTable();
    hide NamesAllow, TranslateL3;
    ProtocolName("icmp", 1, k);
    ProtocolName("igmp", 2, k);
    ProtocolName("tcp", 6, k);
    ProtocolName("udp", 17, k);
    ProtocolName("gre", 47, k);
    ProtocolName("esp", 50, k);
    ProtocolName("ah", 51, k);
    ProtocolName("icmpv6", 58, k);
    ProtocolName("ospf", 89, k);
    ProtocolName("sctp", 132, k);
  }

  lemma ProtocolTable()
    ensures TranslateL3("icmp") == Some(1) && TranslateL3("igmp") == Some(2) && TranslateL3("tcp") == Some(6)
    ensures TranslateL3("udp") == Some(17) && TranslateL3("gre") == Some(47) && TranslateL3("esp") == Some(50)
    ensures TranslateL3("ah") == Some(51) && TranslateL3("icmpv6") == Some(58)
    ensures TranslateL3("ospf") == Some(89) && TranslateL3("sctp") == Some(132)
  {
  }

  lemma ProtocolName(name: string, proto: nat, k: AllowKey)
    requires TranslateL3(name) == Some(proto) && 0 < proto < 256
    ensures NamesAllow([name], [], k) <==> k.proto == proto
  {
    hide TranslateL3;
    OneName(name, k);
    assert KeysL3(name) == [AllowKey(proto, 0, 0)];
    assert AllowKey(proto, 0, 0) in KeysL3(name);
  }

  /** A list of names lets through what its names do, and an unknown name nothing. */
  lemma NamesTogether(l3: seq<string>, l4: seq<string>, k: AllowKey)
    ensures NamesAllow(l3, l4, k) <==>
            || (exists name | name in l3 :: NamesAllow([name], [], k))
            || (exists name | name in l4 :: NamesAllow([], [name], k))
    ensures forall name | name !in L4_NAMES :: !NamesAllow([], [name], k)
    ensures forall name | name !in L3_NAMES :: !NamesAllow([name], [], k)
  {
    hide KeysL3, KeysL4, Matches, L3_NAMES, L4_NAMES;
    forall name
      ensures NamesAllow([], [name], k) <==> exists rule | rule in KeysL4(name) :: Matches(rule, k)
      ensures NamesAllow([name], [], k) <==> exists rule | rule in KeysL3(name) :: Matches(rule, k)
      ensures name !in L4_NAMES ==> KeysL4(name) == []
      ensures name !in L3_NAMES ==> KeysL3(name) == []
    {
      OneName(name, k);
      KnownNames(name);
    }
  }

  /** After every run whose pre-auth rules are those of the configured names: a frame of a MAC
      without a session, from a source that is not bypassed and not to the portal, leaves ingress as
      it came exactly when a rule of a configured name matches it or a standing CIDR covers its
      destination. */
  lemma GuestsOverRuns(ncpu: Pos, portal: PortalCfg, ifb: nat, steps: seq<Step>, l3: seq<string>, l4: seq<string>,
                       cpu: nat, f: Frame, now: nat, edt: nat)
    requires Loaded(steps, l3, l4)
    requires cpu < ncpu && Classify(f).L3Ok? && Daddr(f) != portal.ip
    requires Saddr(f) !in RunOps(BypassOps(steps), BYPASS_CAPACITY)
    requires SessionOf(Started(ncpu, portal, ifb), steps, SrcMac(f)) == None
    ensures var z := Run(Started(ncpu, portal, ifb), steps);
            LeavesAsItCame(Take(z, IngressFrame(cpu, f, now, edt)).1, f) <==>
            NamesAllow(l3, l4, Classify(f).key) || Covered(Cidrs(steps), Daddr(f))
  {
    hide Run, Take, RunOps, Classify, ProtoAllowed, TrieHas, Native, SessionOf, LeavesAsItCame, KeyOps, Loaded,
         GardenOps, ProtoOps, BypassOps, NamesAllow, Covered, AtPortalPort, SessionAdmits;
    SafetyOverRuns(ncpu, portal, ifb, steps, cpu, f, now, edt);
    TableIsNames(steps, l3, l4, Classify(f).key);
    GardenIsCover(steps, Daddr(f));
  }

  // ----- replies --------------------------------------------------------------------------

  /** r goes the other way between the same addresses, protocol and ports. */
  predicate Answers(r: Frame, f: Frame) {
    && Classify(f).L3Ok? && Classify(r).L3Ok?
    && Saddr(r) == Daddr(f) && Daddr(r) == Saddr(f)
    && Classify(r).key == SwapPorts(Classify(f).key)
  }

  /** Nobody at the address has a session. */
  predicate NoSessionAt(s: State, ip: Ip) { !(ip in s.ipMac && s.ipMac[ip] in s.clients) }

  lemma IngressPreAuth(s: State, cpu: nat, f: Frame, now: nat, edt: nat)
    requires cpu < s.ncpu && Classify(f).L3Ok?
    requires Saddr(f) !in s.bypass && Daddr(f) != s.portal.ip && SrcMac(f) !in s.clients
    ensures var o := Ingress(s, cpu, f, now, edt).1;
            && (o.path == PreAuth <==> ProtoAllowed(s.proto, Classify(f).key))
            && (o.path == PreAuth ==> o.verdict == Pass && o.out == f)
  {
    hide Redirect, ProtoAllowed, TrieHas, Native, AtPortalPort, Learn, ClientsAfter, CountersAfterIngress;
  }

  lemma EgressPreAuth(s: State, cpu: nat, r: Frame, now: nat)
    requires cpu < s.ncpu && Classify(r).L3Ok?
    requires Saddr(r) != s.portal.ip && Daddr(r) !in s.bypass && NoSessionAt(s, Daddr(r))
    ensures var o := Egress(s, cpu, r, now).1;
            && (o.path == PreAuth <==> ProtoAllowed(s.proto, Classify(r).key))
            && (o.path == PreAuth ==> o.verdict == Pass && o.out == r)
  {
    hide Snat, ProtoAllowed, TrieHas, Native, ClientsAfter, CountersAfterEgress;
  }

  /** Under a configured table a guest's packet passes ingress by the pre-auth rules exactly when
      its answer passes egress by them, at whatever later state with the same tables. */
  lemma AnswersPass(s: State, s': State, l3: seq<string>, l4: seq<string>, f: Frame, r: Frame,
                    cpu: nat, now: nat, edt: nat, cpu': nat, now': nat)
    requires Configured(s.proto, l3, l4) && s'.proto == s.proto && s'.bypass == s.bypass && s'.portal == s.portal
    requires Answers(r, f) && cpu < s.ncpu && cpu' < s'.ncpu
    requires Saddr(f) !in s.bypass && Daddr(f) != s.portal.ip && SrcMac(f) !in s.clients && NoSessionAt(s', Saddr(f))
    ensures Ingress(s, cpu, f, now, edt).1.path == PreAuth <==> Egress(s', cpu', r, now').1.path == PreAuth
  {
    hide Ingress, Egress, Classify, ProtoAllowed, Configured, ReplyClosed, NoSessionAt, SwapPorts;
    IngressPreAuth(s, cpu, f, now, edt);
    EgressPreAuth(s', cpu', r, now');
    ConfiguredTable(l3, l4, s.proto);
    RepliesAllowed(s.proto, Classify(f).key);
  }
}
