/** The two TC hooks and the hgctl actions as steps of one transition system over the maps.
    A step carries the clock samples its hook takes; samples of different CPUs may arrive in
    any order. The imperative counterpart is Gateway.dfy. */
module Datapath {
  import opened Net
  import opened Frames
  import opened Garden
  import opened History
  import Edt

  // ----- map contents ---------------------------------------------------------------------

  datatype RateCfg = RateCfg(rateD: nat, rateU: nat, horizon: nat)

  datatype Client = Client(expiry: nat, idle: nat, auth: nat, rateId: nat, lastU: nat, lastD: nat)

  const AUTH_OK: nat := 0
  const EXPIRE: nat := 1

  datatype Counter = Counter(uPackets: nat, uBytes: nat, dPackets: nat, dBytes: nat,
                             lastSeen: nat, state: nat)

  const ZERO_COUNTER := Counter(0, 0, 0, 0, 0, AUTH_OK)

  datatype CtKey = CtKey(ip: Ip, port: Word)

  datatype CtVal = CtVal(ip: Ip, port: Word, created: nat)

  datatype PortalCfg = PortalCfg(ip: Ip, port: Word)

  /** All pinned maps; ifb 0 means no IFB. counters holds one slot per CPU. */
  datatype RawState = State(
    ncpu: Pos, portal: PortalCfg, ifb: nat,
    clients: map<Mac, Client>, rates: map<nat, RateCfg>, counters: map<Ip, seq<Counter>>,
    macIp: map<Mac, Ip>, ipMac: map<Ip, Mac>, conntrack: map<CtKey, CtVal>,
    bypass: set<Ip>, l2: set<Word>, proto: set<AllowKey>, garden: set<WgKey>)

  type State = s: RawState | forall ip | ip in s.counters :: |s.counters[ip]| == s.ncpu
    witness Started(1, PortalCfg(Ip(0, 0), 0), 0)

  /** The maps after start_action: portal and IFB index written, everything else empty. */
  function Started(ncpu: Pos, portal: PortalCfg, ifb: nat): RawState {
    State(ncpu, portal, ifb, map[], map[], map[], map[], map[], map[], {}, {}, {}, {})
  }

  const CLIENT_CAPACITY: nat := 4096
  const RATE_CAPACITY: nat := 256
  const BYPASS_CAPACITY: nat := 256
  const L2_CAPACITY: nat := 16
  const PROTO_CAPACITY: nat := 64

  /** bpf_map_update_elem on a hash: a new key does not fit into a full map. */
  predicate Fits<K(==), V>(m: map<K, V>, k: K, capacity: nat) { k in m || |m| < capacity }

  function Update<K(==), V>(m: map<K, V>, k: K, v: V, capacity: nat): map<K, V> {
    if Fits(m, k, capacity) then m[k := v] else m
  }

  // ----- outcomes -------------------------------------------------------------------------

  datatype Verdict = Pass | Drop | ToIfb(index: nat)

  /** The place in a hook where its verdict was reached. */
  datatype Path =
    | Malformed | L2Denied | L2Allowed | Bypassed | NotPortalPort | PortalBound
    | Expired | OverHorizon | NoCounter | Authenticated
    | PreAuth | InGarden | NotHttp | Redirected
    | PortalReply | Unauthenticated

  datatype Outcome =
    | Hook(verdict: Verdict, out: Frame, path: Path, stamp: Option<nat>)
    | Added(mac: Mac, ip: Ip, client: Client)
    | AddFailed(removed: Option<Mac>)
    | Deleted(mac: Mac, bound: Option<Ip>)
    | Done(ok: bool)

  // ----- apply_edt_shaping ----------------------------------------------------------------

  /** The profile in force for a client in one direction; None means unshaped. */
  function ProfileOf(rates: map<nat, RateCfg>, c: Client, up: bool): Option<(Pos, Edt.Horizon)> {
    if c.rateId !in rates then None else
      var cfg := rates[c.rateId];
      var rate := if up then cfg.rateU else cfg.rateD;
      if rate == 0 then None else Some((rate, if up then Some(cfg.horizon) else None))
  }

  function LastStamp(c: Client, up: bool): nat { if up then c.lastU else c.lastD }

  function WithStamp(c: Client, up: bool, ts: nat): Client {
    if up then c.(lastU := ts) else c.(lastD := ts)
  }

  /** What shaping one packet leaves: the client entry, whether the packet is shot, its stamp. */
  datatype Shaped = Shaped(c: Client, shot: bool, stamp: Option<nat>)

  function ApplyEdt(rates: map<nat, RateCfg>, c: Client, len: nat, now: nat, up: bool): (e: Shaped)
    ensures e.c == WithStamp(c, up, LastStamp(e.c, up))
  {
    match ProfileOf(rates, c, up)
    case None => Shaped(c, false, None)
    case Some((rate, h)) =>
      var p := Edt.Pkt(len, now, Edt.Delay(len, rate));
      var last := LastStamp(c, up);
      if Edt.Admits(last, p, h) then
        Shaped(WithStamp(c, up, Edt.Next(last, p)), false, Some(Edt.Next(last, p)))
      else Shaped(c, true, None)
  }

  // ----- proto_allowed --------------------------------------------------------------------

  /** The five probes, from exact to both ports wild. */
  predicate ProtoAllowed(proto: set<AllowKey>, k: AllowKey) {
    || k in proto
    || AllowKey(0, k.sPort, k.dPort) in proto
    || AllowKey(k.proto, 0, k.dPort) in proto
    || AllowKey(k.proto, k.sPort, 0) in proto
    || AllowKey(k.proto, 0, 0) in proto
  }

  /** An address as the native word the kernel reads from the header. */
  function Native(ip: Ip): bv32 { Swap((ip.hi as bv32 << 16) | ip.lo as bv32) }

  // ----- redirect_to_portal and snat_from_conntrack ---------------------------------------

  function Redirect(s: State, f: Frame, now: nat): (r: (State, Verdict, Frame))
    ensures r.0 == s.(conntrack := r.0.conntrack)
  {
    if !HasEth(f) then (s, Drop, f)
    else if f.w[ETHERTYPE] != ETH_P_IP then (s, Pass, f)
    else if !IsIpv4(f) || Ihl(f) < 5 || !HasL4(f, 0) then (s, Drop, f)
    else
      RewriteAddrFields(f, Dest, s.portal.ip);
      var g := RewriteAddr(f, Dest, s.portal.ip);
      if Protocol(f) != IPPROTO_TCP then (s, Pass, g)
      else if !HasL4(f, TCP_HLEN) then (s, Drop, g)
      else
        var entry := CtVal(Daddr(f), Dport(f), now);
        (s.(conntrack := s.conntrack[CtKey(Saddr(f), Sport(f)) := entry]), Pass,
         RewritePort(g, Dest, Daddr(f), s.portal.ip, s.portal.port))
  }

  function Snat(s: State, f: Frame, now: nat): (r: (Verdict, Frame)) {
    if !HasEth(f) then (Drop, f)
    else if f.w[ETHERTYPE] != ETH_P_IP then (Pass, f)
    else if !IsIpv4(f) || Ihl(f) < 5 || !HasL4(f, 0) then (Drop, f)
    else if Protocol(f) != IPPROTO_TCP then (Pass, f)
    else if !HasL4(f, TCP_HLEN) then (Drop, f)
    else
      var key := CtKey(Daddr(f), Dport(f));
      if key !in s.conntrack then (Pass, f)
      else
        var v := s.conntrack[key];
        if Sub64(now, v.created) > HG_CT_TIMEOUT_NS then (Pass, f)
        else
          RewriteAddrFields(f, Source, v.ip);
          (Pass, Rewrite(f, Source, v.ip, v.port))
  }

  // ----- hg_tc_ingress --------------------------------------------------------------------

  /** Bindings are written only when the sender's recorded address differs. */
  function Learn(s: State, mac: Mac, ip: Ip): (r: State)
    ensures r == s.(macIp := r.macIp, ipMac := r.ipMac)
  {
    if mac in s.macIp && s.macIp[mac] == ip then s
    else s.(macIp := Update(s.macIp, mac, ip, CLIENT_CAPACITY),
            ipMac := Update(s.ipMac, ip, mac, CLIENT_CAPACITY))
  }

  /** Accounting touches one CPU's slot of one address. */
  function SetSlot(s: State, ip: Ip, cpu: nat, c: Counter): (r: State)
    requires ip in s.counters && cpu < s.ncpu
    ensures r == s.(counters := r.counters) && r.counters.Keys == s.counters.Keys
  {
    s.(counters := s.counters[ip := s.counters[ip][cpu := c]])
  }

  function CountUp(n: Counter, len: nat, now: nat): Counter {
    n.(uPackets := n.uPackets + 1, uBytes := n.uBytes + len, lastSeen := now)
  }

  function CountDown(n: Counter, len: nat): Counter {
    n.(dPackets := n.dPackets + 1, dBytes := n.dBytes + len)
  }

  function Hooked(s: State, v: Verdict, f: Frame, path: Path): (State, Outcome) { (s, Hook(v, f, path, None)) }

  const AUTH_PATHS := {OverHorizon, NoCounter, Authenticated}

  /** The client map after a frame of mac took path through the shaper, or met its expiry. */
  predicate ClientsAfter(s: State, s': State, mac: Mac, len: nat, now: nat, up: bool, path: Path) {
    if path == Expired then mac in s.clients && s'.clients == s.clients - {mac}
    else if path in AUTH_PATHS then
      && mac in s.clients
      && var e := ApplyEdt(s.rates, s.clients[mac], len, now, up);
         s'.clients == s.clients[mac := e.c] && (path == OverHorizon <==> e.shot)
    else s'.clients == s.clients
  }

  /** The counter map after a frame from src took path through ingress. */
  predicate CountersAfterIngress(s: State, s': State, cpu: nat, src: Ip, len: nat, now: nat, path: Path)
    requires cpu < s.ncpu
  {
    if path == Authenticated then
      && src in s.counters
      && s'.counters == s.counters[src := s.counters[src][cpu := CountUp(s.counters[src][cpu], len, now)]]
    else if path == Expired && src in s.counters then
      s'.counters == s.counters[src := s.counters[src][cpu := s.counters[src][cpu].(state := EXPIRE)]]
    else s'.counters == s.counters && (path == NoCounter ==> src !in s.counters)
  }

  predicate CountersAfterEgress(s: State, s': State, cpu: nat, dst: Ip, len: nat, path: Path)
    requires cpu < s.ncpu
  {
    if path == Authenticated then
      && dst in s.counters
      && s'.counters == s.counters[dst := s.counters[dst][cpu := CountDown(s.counters[dst][cpu], len)]]
    else s'.counters == s.counters && (path == NoCounter ==> dst !in s.counters)
  }

  /** Step 5: the sender's MAC has a client entry. */
  function IngressAuth(s: State, cpu: nat, f: Frame, now: nat, edt: nat): (r: (State, Outcome))
    requires IsIpv4(f) && SrcMac(f) in s.clients && cpu < s.ncpu
    ensures r.0 == s.(clients := r.0.clients, counters := r.0.counters)
    ensures r.1.Hook? && r.1.out == f && (r.1.path == Expired || r.1.path in AUTH_PATHS)
    ensures ClientsAfter(s, r.0, SrcMac(f), f.len, edt, true, r.1.path)
    ensures CountersAfterIngress(s, r.0, cpu, Saddr(f), f.len, now, r.1.path)
  {
    var mac, src := SrcMac(f), Saddr(f);
    var c := s.clients[mac];
    if c.expiry != 0 && now > c.expiry then
      var s' := s.(clients := s.clients - {mac});
      Hooked(if src in s.counters then SetSlot(s', src, cpu, s.counters[src][cpu].(state := EXPIRE)) else s',
             Drop, f, Expired)
    else
      var e := ApplyEdt(s.rates, c, f.len, edt, true);
      var s1 := s.(clients := s.clients[mac := e.c]);
      if e.shot then Hooked(s1, Drop, f, OverHorizon)
      else if src !in s1.counters then (s1, Hook(Drop, f, NoCounter, e.stamp))
      else
        (SetSlot(s1, src, cpu, CountUp(s1.counters[src][cpu], f.len, now)),
         Hook(if s.ifb != 0 then ToIfb(s.ifb) else Pass, f, Authenticated, e.stamp))
  }

  /** Steps 6 and 7: no client entry. */
  function IngressGuest(s: State, f: Frame, key: AllowKey, now: nat): (r: (State, Outcome))
    requires IsIpv4(f)
    ensures r.0 == s.(conntrack := r.0.conntrack)
    ensures r.0.clients == s.clients && r.0.counters == s.counters
    ensures r.1.Hook? && r.1.path in {PreAuth, InGarden, NotHttp, Redirected}
    ensures r.1.path !in AUTH_PATHS && r.1.path != Expired
    ensures r.1.path != Redirected ==> r.0 == s && r.1.out == f
  {
    if ProtoAllowed(s.proto, key) then Hooked(s, Pass, f, PreAuth)
    else if TrieHas(s.garden, Native(Daddr(f))) then Hooked(s, Pass, f, InGarden)
    else if key.proto != IPPROTO_TCP || key.dPort != 80 then Hooked(s, Drop, f, NotHttp)
    else
      var (s', v, g) := Redirect(s, f, now);
      Hooked(s', v, g, Redirected)
  }

  /** Steps 5 to 7. */
  function IngressClient(s: State, cpu: nat, f: Frame, key: AllowKey, now: nat, edt: nat): (r: (State, Outcome))
    requires IsIpv4(f) && cpu < s.ncpu
    ensures r.0 == s.(clients := r.0.clients, counters := r.0.counters, conntrack := r.0.conntrack)
    ensures r.1.Hook? && (r.1.path != Redirected ==> r.1.out == f && r.0.conntrack == s.conntrack)
    ensures ClientsAfter(s, r.0, SrcMac(f), f.len, edt, true, r.1.path)
    ensures CountersAfterIngress(s, r.0, cpu, Saddr(f), f.len, now, r.1.path)
  {
    if SrcMac(f) in s.clients then IngressAuth(s, cpu, f, now, edt) else IngressGuest(s, f, key, now)
  }

  /** Step 4: to the portal's address. */
  function IngressPortal(s: State, f: Frame): (r: (State, Outcome))
    requires IsIpv4(f)
    ensures r.0 == s && r.1.Hook? && r.1.out == f && r.1.path in {PortalBound, NotPortalPort}
  {
    if AtPortalPort(f, s.portal.port) then Hooked(s, Pass, f, PortalBound) else Hooked(s, Drop, f, NotPortalPort)
  }

  function IngressIp(s: State, cpu: nat, f: Frame, key: AllowKey, now: nat, edt: nat): (r: (State, Outcome))
    requires IsIpv4(f) && cpu < s.ncpu
    ensures r.0 == s.(macIp := r.0.macIp, ipMac := r.0.ipMac, clients := r.0.clients,
                      counters := r.0.counters, conntrack := r.0.conntrack)
    ensures r.1.Hook? && (r.1.path != Redirected ==> r.1.out == f && r.0.conntrack == s.conntrack)
    ensures ClientsAfter(s, r.0, SrcMac(f), f.len, edt, true, r.1.path)
    ensures CountersAfterIngress(s, r.0, cpu, Saddr(f), f.len, now, r.1.path)
  {
    var src := Saddr(f);
    if src in s.bypass then Hooked(s, Pass, f, Bypassed)
    else
      var s1 := Learn(s, SrcMac(f), src);
      if Daddr(f) == s.portal.ip then IngressPortal(s1, f)
      else IngressClient(s1, cpu, f, key, now, edt)
  }

  /** now is the sample of the expiry check and of a conntrack entry, edt the shaper's. */
  function Ingress(s: State, cpu: nat, f: Frame, now: nat, edt: nat): (r: (State, Outcome))
    requires cpu < s.ncpu
    ensures r.0 == s.(macIp := r.0.macIp, ipMac := r.0.ipMac, clients := r.0.clients,
                      counters := r.0.counters, conntrack := r.0.conntrack)
    ensures r.1.Hook? && (r.1.path != Redirected ==> r.1.out == f && r.0.conntrack == s.conntrack)
    ensures if IsIpv4(f) then
              && ClientsAfter(s, r.0, SrcMac(f), f.len, edt, true, r.1.path)
              && CountersAfterIngress(s, r.0, cpu, Saddr(f), f.len, now, r.1.path)
            else r.0 == s && r.1.path in {Malformed, L2Allowed, L2Denied}
  {
    match Classify(f)
    case Invalid => Hooked(s, Drop, f, Malformed)
    case L2Only(eth) =>
      if eth in s.l2 then Hooked(s, Pass, f, L2Allowed) else Hooked(s, Drop, f, L2Denied)
    case L3Ok(key) => IngressIp(s, cpu, f, key, now, edt)
  }

  // ----- hg_tc_egress ---------------------------------------------------------------------

  function EgressAuth(s: State, cpu: nat, f: Frame, mac: Mac, now: nat): (r: (State, Outcome))
    requires IsIpv4(f) && mac in s.clients && cpu < s.ncpu
    ensures r.0 == s.(clients := r.0.clients, counters := r.0.counters)
    ensures r.1.Hook? && r.1.out == f && r.1.path in AUTH_PATHS
    ensures ClientsAfter(s, r.0, mac, f.len, now, false, r.1.path)
    ensures CountersAfterEgress(s, r.0, cpu, Daddr(f), f.len, r.1.path)
  {
    var dst := Daddr(f);
    var e := ApplyEdt(s.rates, s.clients[mac], f.len, now, false);
    var s1 := s.(clients := s.clients[mac := e.c]);
    if e.shot then Hooked(s1, Drop, f, OverHorizon)
    else if dst !in s1.counters then (s1, Hook(Drop, f, NoCounter, e.stamp))
    else
      (SetSlot(s1, dst, cpu, CountDown(s1.counters[dst][cpu], f.len)), Hook(Pass, f, Authenticated, e.stamp))
  }

  /** Steps 5 and 6: no client entry for the destination. */
  function EgressGuest(s: State, f: Frame, key: AllowKey): (r: (State, Outcome))
    requires IsIpv4(f)
    ensures r.0 == s && r.1.Hook? && r.1.out == f && r.1.path in {PreAuth, InGarden, Unauthenticated}
  {
    if ProtoAllowed(s.proto, key) then Hooked(s, Pass, f, PreAuth)
    else if TrieHas(s.garden, Native(Saddr(f))) then Hooked(s, Pass, f, InGarden)
    else Hooked(s, Drop, f, Unauthenticated)
  }

  function EgressIp(s: State, cpu: nat, f: Frame, key: AllowKey, now: nat): (r: (State, Outcome))
    requires IsIpv4(f) && cpu < s.ncpu
    ensures r.0 == s.(clients := r.0.clients, counters := r.0.counters)
    ensures r.1.Hook? && r.1.path !in {Expired, Redirected} && (r.1.path != PortalReply ==> r.1.out == f)
    ensures Daddr(f) in s.ipMac ==> ClientsAfter(s, r.0, s.ipMac[Daddr(f)], f.len, now, false, r.1.path)
    ensures Daddr(f) !in s.ipMac ==> r.1.path !in AUTH_PATHS && r.0.clients == s.clients
    ensures CountersAfterEgress(s, r.0, cpu, Daddr(f), f.len, r.1.path)
  {
    var dst := Daddr(f);
    if Saddr(f) == s.portal.ip then
      var (v, g) := Snat(s, f, now);
      Hooked(s, v, g, PortalReply)
    else if dst in s.bypass then Hooked(s, Pass, f, Bypassed)
    else if dst in s.ipMac && s.ipMac[dst] in s.clients then EgressAuth(s, cpu, f, s.ipMac[dst], now)
    else EgressGuest(s, f, key)
  }

  function Egress(s: State, cpu: nat, f: Frame, now: nat): (r: (State, Outcome))
    requires cpu < s.ncpu
    ensures r.0 == s.(clients := r.0.clients, counters := r.0.counters)
    ensures r.1.Hook? && r.1.path !in {Expired, Redirected} && (r.1.path != PortalReply ==> r.1.out == f)
    ensures if IsIpv4(f) then
              && (Daddr(f) in s.ipMac ==> ClientsAfter(s, r.0, s.ipMac[Daddr(f)], f.len, now, false, r.1.path))
              && (Daddr(f) !in s.ipMac ==> r.1.path !in AUTH_PATHS && r.0.clients == s.clients)
              && CountersAfterEgress(s, r.0, cpu, Daddr(f), f.len, r.1.path)
            else r.0 == s && r.1.path in {Malformed, L2Allowed, L2Denied}
  {
    match Classify(f)
    case Invalid => Hooked(s, Drop, f, Malformed)
    case L2Only(eth) =>
      if eth in s.l2 then Hooked(s, Pass, f, L2Allowed) else Hooked(s, Drop, f, L2Denied)
    case L3Ok(key) => EgressIp(s, cpu, f, key, now)
  }

  // ----- hgctl ----------------------------------------------------------------------------

  /** -m, -c, -e, -w, -D and -U of hgctl add. */
  datatype AddArgs = AddArgs(mac: Option<Mac>, ip: Option<Ip>, expire: int, idle: int, dLimit: nat, uLimit: nat)

  const RATE_ID_NO_LIMIT: nat := 0

  /** parse_add: the last octet of the address, or the last byte of the MAC. */
  function RateId(a: AddArgs): nat {
    if a.dLimit == 0 || a.uLimit == 0 then RATE_ID_NO_LIMIT
    else if a.ip.Some? then a.ip.value.lo % 256
    else if a.mac.Some? then a.mac.value.c % 256
    else RATE_ID_NO_LIMIT
  }

  function KbitToBps(kbit: nat): nat { kbit * 1000 / 8 }

  function Resolve(s: State, a: AddArgs): Option<(Mac, Ip)> {
    match (a.mac, a.ip)
    case (Some(m), Some(i)) => Some((m, i))
    case (Some(m), None) => if m in s.macIp then Some((m, s.macIp[m])) else None
    case (None, Some(i)) => if i in s.ipMac then Some((s.ipMac[i], i)) else None
    case (None, None) => None
  }

  function NewClient(a: AddArgs, now: nat): Client {
    Client(if a.expire > 0 then now + a.expire * NSEC_PER_SEC else 0,
           if a.idle > 0 then a.idle * NSEC_PER_SEC else 0, now, RateId(a), now, now)
  }

  function NewRate(a: AddArgs): RateCfg { RateCfg(KbitToBps(a.dLimit), KbitToBps(a.uLimit), HG_HORIZON_NS) }

  function Zeros(ncpu: nat): (r: seq<Counter>)
    ensures |r| == ncpu && forall c | c in r :: c == ZERO_COUNTER
  {
    seq(ncpu, i => ZERO_COUNTER)
  }

  /** The maps when all inserts but perhaps the rate's succeed. */
  function Granted(s: State, a: AddArgs, mac: Mac, ip: Ip, now: nat): (r: State)
    ensures r == s.(clients := r.clients, counters := r.counters, rates := r.rates)
    ensures r.clients == s.clients[mac := NewClient(a, now)] && r.counters == s.counters[ip := Zeros(s.ncpu)]
  {
    s.(clients := s.clients[mac := NewClient(a, now)],
       counters := s.counters[ip := Zeros(s.ncpu)],
       rates := Update(s.rates, RateId(a), NewRate(a), RATE_CAPACITY))
  }

  /** The inserts for a resolved pair, with rollback. */
  function AddPair(s: State, a: AddArgs, mac: Mac, ip: Ip, now: nat): (r: (State, Outcome))
    ensures r.0 == s.(clients := r.0.clients, counters := r.0.counters, rates := r.0.rates)
    ensures r.1 == Added(mac, ip, NewClient(a, now)) || r.1 == AddFailed(Some(mac)) || r.1 == AddFailed(None)
    ensures r.1.Added? ==>
              r.0.clients == s.clients[mac := NewClient(a, now)] && r.0.counters == s.counters[ip := Zeros(s.ncpu)]
    ensures r.1 == AddFailed(Some(mac)) ==> r.0 == s.(clients := s.clients - {mac}) && ip !in s.counters
    ensures r.1 == AddFailed(None) ==> r.0 == s
  {
    if !Fits(s.clients, mac, CLIENT_CAPACITY) then (s, AddFailed(None))
    else if !Fits(s.counters, ip, CLIENT_CAPACITY) then
      (s.(clients := s.clients - {mac}), AddFailed(Some(mac)))
    else
      (Granted(s, a, mac, ip, now), Added(mac, ip, NewClient(a, now)))
  }

  function Add(s: State, a: AddArgs, now: nat): (r: (State, Outcome))
    ensures r.0 == s.(clients := r.0.clients, counters := r.0.counters, rates := r.0.rates)
    ensures match r.1
            case Added(mac, ip, c) =>
              && Resolve(s, a) == Some((mac, ip)) && c == NewClient(a, now)
              && r.0.clients == s.clients[mac := c] && r.0.counters == s.counters[ip := Zeros(s.ncpu)]
            case AddFailed(Some(mac)) =>
              && r.0 == s.(clients := s.clients - {mac})
              && Resolve(s, a).Some? && Resolve(s, a).value.0 == mac && Resolve(s, a).value.1 !in s.counters
            case AddFailed(None) => r.0 == s
            case _ => false
  {
    match Resolve(s, a)
    case None => (s, AddFailed(None))
    case Some((mac, ip)) => AddPair(s, a, mac, ip, now)
  }

  function Del(s: State, mac: Mac): (r: (State, Outcome))
    ensures r.0 == s.(clients := r.0.clients, counters := r.0.counters, rates := r.0.rates)
    ensures r.1 == Deleted(mac, if mac in s.macIp then Some(s.macIp[mac]) else None)
    ensures r.0.clients == s.clients - {mac}
    ensures r.0.counters == if r.1.bound.Some? then s.counters - {r.1.bound.value} else s.counters
  {
    var rates := if mac in s.clients then s.rates - {s.clients[mac].rateId} else s.rates;
    var ip := if mac in s.macIp then Some(s.macIp[mac]) else None;
    var counters := if ip.Some? then s.counters - {ip.value} else s.counters;
    (s.(clients := s.clients - {mac}, counters := counters, rates := rates), Deleted(mac, ip))
  }

  /** map-del hg_conntrack builds its key without converting the port to network order. */
  function SwapPort(port: Word): Word { port % 256 * 256 + port / 256 }

  // ----- runs -----------------------------------------------------------------------------

  datatype Step =
    | IngressFrame(cpu: nat, f: Frame, now: nat, edt: nat)
    | EgressFrame(cpu: nat, f: Frame, now: nat)
    | AddClient(args: AddArgs, now: nat)
    | DelClient(mac: Mac)
    | DelByIp(ip: Ip)
    | MapDelClient(mac: Mac)
    | MapDelConntrack(ip: Ip, port: Word)
    | Evict(key: CtKey)
    | BypassOp(b: SetOp<Ip>)
    | L2Op(l: SetOp<Word>)
    | ProtoOp(p: SetOp<AllowKey>)
    | GardenOp(g: Op)

  function Take(s: State, step: Step): (r: (State, Outcome))
    ensures r.0.ncpu == s.ncpu && r.0.portal == s.portal && r.0.ifb == s.ifb
  {
    match step
    case IngressFrame(cpu, f, now, edt) => if cpu < s.ncpu then Ingress(s, cpu, f, now, edt) else (s, Done(false))
    case EgressFrame(cpu, f, now) => if cpu < s.ncpu then Egress(s, cpu, f, now) else (s, Done(false))
    case AddClient(args, now) => Add(s, args, now)
    case DelClient(mac) => Del(s, mac)
    case DelByIp(ip) => if ip in s.ipMac then Del(s, s.ipMac[ip]) else (s, Done(false))
    case MapDelClient(mac) => (s.(clients := s.clients - {mac}), Done(mac in s.clients))
    case MapDelConntrack(ip, port) =>
      var key := CtKey(ip, SwapPort(port));
      (s.(conntrack := s.conntrack - {key}), Done(key in s.conntrack))
    case Evict(key) => (s.(conntrack := s.conntrack - {key}), Done(true))
    case BypassOp(b) => var (m, ok) := Apply(s.bypass, b, BYPASS_CAPACITY); (s.(bypass := m), Done(ok))
    case L2Op(l) => var (m, ok) := Apply(s.l2, l, L2_CAPACITY); (s.(l2 := m), Done(ok))
    case ProtoOp(p) => var (m, ok) := Apply(s.proto, p, PROTO_CAPACITY); (s.(proto := m), Done(ok))
    case GardenOp(g) => var (m, ok) := Apply(s.garden, KeyOp(g), WG_CAPACITY); (s.(garden := m), Done(ok))
  }

  function Run(s: State, steps: seq<Step>): State {
    if steps == [] then s else Take(Run(s, steps[..|steps| - 1]), steps[|steps| - 1]).0
  }

  /** The state before step i. */
  function At(s: State, steps: seq<Step>, i: nat): State
    requires i <= |steps|
  {
    Run(s, steps[..i])
  }

  /** The states before the steps of a prefix are those of the whole. */
  lemma AtPrefix(s: State, steps: seq<Step>, n: nat)
    requires n <= |steps|
    ensures forall j | 0 <= j <= n :: At(s, steps[..n], j) == At(s, steps, j)
  {
    forall j | 0 <= j <= n
      ensures steps[..n][..j] == steps[..j]
    {
    }
  }
}
