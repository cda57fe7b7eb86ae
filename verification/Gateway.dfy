/** The hooks and the hgctl actions as the program has them: maps updated entry by entry and
    packet bytes rewritten in place. Every method is proved to do what its Datapath function says. */
module Gateway {
  import opened Net
  import opened Checksum
  import opened Frames
  import opened Garden
  import opened History
  import opened Datapath

  /** A packet buffer: data..data_end as words, and the departure stamp. */
  class Skb {
    const w: array<Word>
    const len: nat
    var tstamp: Option<nat>

    ghost predicate Valid() { w.Length == (len + 1) / 2 }

    ghost function Value(): Frame
      requires Valid()
      reads w
    {
      Frame(w[..], len)
    }

    constructor (f: Frame)
      ensures Valid() && Value() == f && tstamp == None && fresh(w)
    {
      len := f.len;
      w := new Word[|f.w|](i requires 0 <= i < |f.w| => f.w[i]);
      tstamp := None;
    }

    /** bpf_skb_store_bytes of one word. */
    method StoreWord(at: nat, x: Word)
      requires at < w.Length
      modifies w
      ensures w[..] == old(w[..])[at := x]
    {
      w[at] := x;
    }

    /** bpf_l3_csum_replace of an address. */
    method CsumReplaceIp(at: nat, from: Ip, to: Ip)
      requires at < w.Length
      modifies w
      ensures w[..] == old(w[..])[at := UpdateIp(old(w[at]), from, to)]
    {
      var c := w[at];
      c := UpdateWord(c, from.hi, to.hi);
      c := UpdateWord(c, from.lo, to.lo);
      UpdateIpIsTwoWords(w[at], from, to);
      w[at] := c;
    }

    /** bpf_l4_csum_replace of a port. */
    method CsumReplaceWord(at: nat, from: Word, to: Word)
      requires at < w.Length
      modifies w
      ensures w[..] == old(w[..])[at := UpdateWord(old(w[at]), from, to)]
    {
      w[at] := UpdateWord(w[at], from, to);
    }

    /** The address part of the two rewrites: checksum first, then the bytes. */
    method StoreIp(e: End, ip: Ip)
      requires Valid() && IsIpv4(Value())
      modifies w
      ensures Value() == RewriteAddr(old(Value()), e, ip)
    {
      hide UpdateIp;
      var a := AddrAt(e);
      CsumReplaceIp(IP_CHECK, Ip(w[a], w[a + 1]), ip);
      StoreWord(a, ip.hi);
      StoreWord(a + 1, ip.lo);
    }

    /** The transport part: two checksum updates at one field, then the port. */
    method StorePort(e: End, l4: nat, from: Ip, ip: Ip, port: Word)
      requires Valid() && IsTcp(Value()) && l4 == L4(Value())
      modifies w
      ensures Value() == RewritePort(old(Value()), e, from, ip, port)
    {
      hide UpdateIp, UpdateWord;
      var p := if e.Source? then l4 else l4 + 1;
      var oldPort := w[p];
      CsumReplaceIp(l4 + TCP_CHECK, from, ip);
      CsumReplaceWord(l4 + TCP_CHECK, oldPort, port);
      StoreWord(p, port);
    }
  }

  // ----- filter_proto ---------------------------------------------------------------------

  datatype ProtoResult = PROTO_L2_ONLY | PROTO_L3_OK | PROTO_INVALID

  function ClassOf(res: ProtoResult, key: AllowKey, eth: Word): Class {
    match res
    case PROTO_INVALID => Invalid
    case PROTO_L2_ONLY => L2Only(eth)
    case PROTO_L3_OK => L3Ok(key)
  }

  /** Fills in the ports of a UDP or TCP packet; false when the header is truncated. */
  method ParseUdpTcp(skb: Skb, key: AllowKey) returns (ok: bool, r: AllowKey)
    requires skb.Valid() && IsIpv4(skb.Value()) && key == AllowKey(Protocol(skb.Value()), 0, 0)
    ensures Classify(skb.Value()) == if ok then L3Ok(r) else Invalid
  {
    r := key;
    var ihl := skb.w[IP_HEAD] / 256 % 16;
    var l4 := IP_HEAD + 2 * ihl;
    if key.proto == IPPROTO_UDP {
      if ETH_HLEN + 4 * ihl + UDP_HLEN > skb.len {
        return false, r;
      }
      r := r.(sPort := skb.w[l4], dPort := skb.w[l4 + 1]);
    } else if key.proto == IPPROTO_TCP {
      if ETH_HLEN + 4 * ihl + TCP_HLEN > skb.len {
        return false, r;
      }
      r := r.(sPort := skb.w[l4], dPort := skb.w[l4 + 1]);
    }
    ok := true;
  }

  method FilterProto(skb: Skb) returns (res: ProtoResult, key: AllowKey, eth: Word)
    requires skb.Valid()
    ensures ClassOf(res, key, eth) == Classify(skb.Value())
  {
    key, eth := AllowKey(0, 0, 0), 0;
    if skb.len < ETH_HLEN {
      return PROTO_INVALID, key, eth;
    }
    eth := skb.w[ETHERTYPE];
    if eth != ETH_P_IP {
      return PROTO_L2_ONLY, key, eth;
    }
    if skb.len < ETH_HLEN + IP_HLEN {
      return PROTO_INVALID, key, eth;
    }
    key := key.(proto := skb.w[11] % 256);
    var ok;
    ok, key := ParseUdpTcp(skb, key);
    res := if ok then PROTO_L3_OK else PROTO_INVALID;
  }

  // ----- the maps -------------------------------------------------------------------------

  class Gateway {
    const ncpu: Pos
    const portal: PortalCfg
    const ifb: nat
    var clients: map<Mac, Client>
    var rates: map<nat, RateCfg>
    var counters: map<Ip, seq<Counter>>
    var macIp: map<Mac, Ip>
    var ipMac: map<Ip, Mac>
    var conntrack: map<CtKey, CtVal>
    var bypass: set<Ip>
    var l2: set<Word>
    var proto: set<AllowKey>
    var garden: set<WgKey>

    ghost predicate Valid()
      reads this
    {
      forall ip | ip in counters :: |counters[ip]| == ncpu
    }

    ghost function Value(): State
      requires Valid()
      reads this
    {
      State(ncpu, portal, ifb, clients, rates, counters, macIp, ipMac, conntrack, bypass, l2, proto, garden)
    }

    constructor (ncpu: Pos, portal: PortalCfg, ifb: nat)
      ensures Valid() && Value() == Started(ncpu, portal, ifb)
    {
      this.ncpu, this.portal, this.ifb := ncpu, portal, ifb;
      clients, rates, counters, macIp, ipMac, conntrack := map[], map[], map[], map[], map[], map[];
      bypass, l2, proto, garden := {}, {}, {}, {};
    }

    // ----- apply_edt_shaping --------------------------------------------------------------

    method ApplyEdtShaping(skb: Skb, mac: Mac, isUpload: bool, now: nat) returns (shot: bool)
      requires mac in clients && skb.tstamp == None
      modifies this`clients, skb`tstamp
      ensures var e := ApplyEdt(rates, old(clients)[mac], skb.len, now, isUpload);
              clients == old(clients)[mac := e.c] && shot == e.shot && skb.tstamp == e.stamp
      ensures shot ==> skb.tstamp == None
    {
      var cs := clients[mac];
      shot := false;
      if cs.rateId !in rates {
        return;
      }
      var cfg := rates[cs.rateId];
      var rate := if isUpload then cfg.rateU else cfg.rateD;
      if rate == 0 {
        return;
      }
      var delay := skb.len * NSEC_PER_SEC / rate;
      var last := if isUpload then cs.lastU else cs.lastD;
      var next := if now > last then now + delay else last + delay;
      if isUpload && next - now > cfg.horizon {
        return true;
      }
      clients := clients[mac := if isUpload then cs.(lastU := next) else cs.(lastD := next)];
      skb.tstamp := Some(next);
    }

    // ----- proto_allowed ------------------------------------------------------------------

    method Allowed(k: AllowKey) returns (ok: bool)
      ensures ok == ProtoAllowed(proto, k)
    {
      var tmp := k;
      if tmp in proto {
        return true;
      }
      tmp := tmp.(proto := 0);
      if tmp in proto {
        return true;
      }
      tmp := k;
      tmp := tmp.(sPort := 0);
      if tmp in proto {
        return true;
      }
      tmp := k;
      tmp := tmp.(dPort := 0);
      if tmp in proto {
        return true;
      }
      tmp := tmp.(sPort := 0);
      tmp := tmp.(dPort := 0);
      ok := tmp in proto;
    }

    // ----- redirect_to_portal and snat_from_conntrack -------------------------------------

    method RedirectToPortal(skb: Skb, now: nat) returns (v: Verdict)
      requires Valid() && skb.Valid()
      modifies this`conntrack, skb.w
      ensures Valid() && (Value(), v, skb.Value()) == Redirect(old(Value()), old(skb.Value()), now)
    {
      hide RewriteAddr, RewritePort;
      if skb.len < ETH_HLEN {
        return Drop;
      }
      if skb.w[ETHERTYPE] != ETH_P_IP {
        return Pass;
      }
      if skb.len < ETH_HLEN + IP_HLEN {
        return Drop;
      }
      var ihl := skb.w[IP_HEAD] / 256 % 16;
      if ihl < 5 {
        return Drop;
      }
      if ETH_HLEN + 4 * ihl > skb.len {
        return Drop;
      }
      var saddr, daddr := Ip(skb.w[IP_SADDR], skb.w[IP_SADDR + 1]), Ip(skb.w[IP_DADDR], skb.w[IP_DADDR + 1]);
      var protocol := skb.w[11] % 256;
      ghost var f := skb.Value();
      RewriteAddrFields(f, Dest, portal.ip);
      skb.StoreIp(Dest, portal.ip);
      var l4 := IP_HEAD + 2 * ihl;
      if protocol == IPPROTO_TCP {
        if ETH_HLEN + 4 * ihl + TCP_HLEN > skb.len {
          return Drop;
        }
        var key, val := CtKey(saddr, skb.w[l4]), CtVal(daddr, skb.w[l4 + 1], now);
        conntrack := conntrack[key := val];
        skb.StorePort(Dest, l4, daddr, portal.ip, portal.port);
      }
      v := Pass;
    }

    method SnatFromConntrack(skb: Skb, now: nat) returns (v: Verdict)
      requires Valid() && skb.Valid()
      modifies skb.w
      ensures (v, skb.Value()) == Snat(Value(), old(skb.Value()), now)
    {
      hide RewriteAddr, RewritePort;
      if skb.len < ETH_HLEN {
        return Drop;
      }
      if skb.w[ETHERTYPE] != ETH_P_IP {
        return Pass;
      }
      if skb.len < ETH_HLEN + IP_HLEN {
        return Drop;
      }
      var ihl := skb.w[IP_HEAD] / 256 % 16;
      if ihl < 5 {
        return Drop;
      }
      if ETH_HLEN + 4 * ihl > skb.len {
        return Drop;
      }
      if skb.w[11] % 256 != IPPROTO_TCP {
        return Pass;
      }
      if ETH_HLEN + 4 * ihl + TCP_HLEN > skb.len {
        return Drop;
      }
      var l4 := IP_HEAD + 2 * ihl;
      var key := CtKey(Ip(skb.w[IP_DADDR], skb.w[IP_DADDR + 1]), skb.w[l4 + 1]);
      if key !in conntrack {
        return Pass;
      }
      var val := conntrack[key];
      if Sub64(now, val.created) > HG_CT_TIMEOUT_NS {
        return Pass;
      }
      var saddr := Ip(skb.w[IP_SADDR], skb.w[IP_SADDR + 1]);
      RewriteAddrFields(skb.Value(), Source, val.ip);
      skb.StoreIp(Source, val.ip);
      skb.StorePort(Source, l4, saddr, val.ip, val.port);
      v := Pass;
    }

    // ----- hg_tc_ingress ------------------------------------------------------------------

    /** The conditional binding update. */
    method Bind(mac: Mac, ip: Ip)
      requires Valid()
      modifies this`macIp, this`ipMac
      ensures Valid() && Value() == Learn(old(Value()), mac, ip)
    {
      if mac !in macIp || macIp[mac] != ip {
        macIp := Update(macIp, mac, ip, CLIENT_CAPACITY);
        ipMac := Update(ipMac, ip, mac, CLIENT_CAPACITY);
      }
    }

    /** Writes this CPU's slot of an address. */
    method SetCounter(ip: Ip, cpu: nat, c: Counter)
      requires Valid() && ip in counters && cpu < ncpu
      modifies this`counters
      ensures Valid() && Value() == SetSlot(old(Value()), ip, cpu, c)
    {
      counters := counters[ip := counters[ip][cpu := c]];
    }

    /** Accounting of an uploaded packet. */
    method CountUpload(ip: Ip, cpu: nat, len: nat, now: nat)
      requires Valid() && ip in counters && cpu < ncpu
      modifies this`counters
      ensures Valid() && Value() == SetSlot(old(Value()), ip, cpu, CountUp(old(counters)[ip][cpu], len, now))
    {
      var cnt := counters[ip][cpu];
      cnt := cnt.(uPackets := cnt.uPackets + 1);
      cnt := cnt.(uBytes := cnt.uBytes + len);
      cnt := cnt.(lastSeen := now);
      SetCounter(ip, cpu, cnt);
    }

    method CountDownload(ip: Ip, cpu: nat, len: nat)
      requires Valid() && ip in counters && cpu < ncpu
      modifies this`counters
      ensures Valid() && Value() == SetSlot(old(Value()), ip, cpu, CountDown(old(counters)[ip][cpu], len))
    {
      var cnt := counters[ip][cpu];
      cnt := cnt.(dPackets := cnt.dPackets + 1);
      cnt := cnt.(dBytes := cnt.dBytes + len);
      SetCounter(ip, cpu, cnt);
    }

    method AuthenticatedUpload(skb: Skb, cpu: nat, mac: Mac, src: Ip, now: nat, edt: nat)
      returns (v: Verdict, ghost path: Path)
      requires Valid() && skb.Valid() && IsIpv4(skb.Value()) && mac == SrcMac(skb.Value()) && src == Saddr(skb.Value())
      requires cpu < ncpu && mac in clients && skb.tstamp == None
      modifies this`clients, this`counters, skb`tstamp
      ensures Valid()
      ensures (Value(), Hook(v, skb.Value(), path, skb.tstamp)) == IngressAuth(old(Value()), cpu, skb.Value(), now, edt)
    {
      hide ApplyEdt, SetSlot, CountUp;
      var auth := clients[mac];
      if auth.expiry != 0 && now > auth.expiry {
        clients := clients - {mac};
        if src in counters {
          SetCounter(src, cpu, counters[src][cpu].(state := EXPIRE));
        }
        return Drop, Expired;
      }
      var shot := ApplyEdtShaping(skb, mac, true, edt);
      if shot {
        return Drop, OverHorizon;
      }
      if src !in counters {
        return Drop, NoCounter;
      }
      CountUpload(src, cpu, skb.len, now);
      v := if ifb != 0 then ToIfb(ifb) else Pass;
      path := Authenticated;
    }

    method GuestUpload(skb: Skb, key: AllowKey, now: nat) returns (v: Verdict, ghost path: Path)
      requires Valid() && skb.Valid() && IsIpv4(skb.Value()) && skb.tstamp == None
      modifies this`conntrack, skb.w
      ensures Valid()
      ensures (Value(), Hook(v, skb.Value(), path, None)) == IngressGuest(old(Value()), old(skb.Value()), key, now)
    {
      hide Redirect, ProtoAllowed, TrieHas, Native;
      var allowed := Allowed(key);
      if allowed {
        return Pass, PreAuth;
      }
      if TrieHas(garden, Native(Ip(skb.w[IP_DADDR], skb.w[IP_DADDR + 1]))) {
        return Pass, InGarden;
      }
      if key.proto != IPPROTO_TCP || key.dPort != 80 {
        return Drop, NotHttp;
      }
      v := RedirectToPortal(skb, now);
      path := Redirected;
    }

    method PortalBoundUpload(skb: Skb) returns (ok: bool)
      requires skb.Valid() && IsIpv4(skb.Value())
      ensures ok == AtPortalPort(skb.Value(), portal.port)
    {
      ok := false;
      if skb.w[11] % 256 == IPPROTO_TCP {
        var tcp := IP_HEAD + 2 * 5;
        if ETH_HLEN + IP_HLEN + TCP_HLEN <= skb.len {
          ok := skb.w[tcp + 1] == portal.port;
        }
      }
    }

    method UploadIp(skb: Skb, cpu: nat, key: AllowKey, now: nat, edt: nat) returns (v: Verdict, ghost path: Path)
      requires Valid() && skb.Valid() && IsIpv4(skb.Value()) && cpu < ncpu && skb.tstamp == None
      modifies this`macIp, this`ipMac, this`clients, this`counters, this`conntrack, skb`tstamp, skb.w
      ensures Valid()
      ensures (Value(), Hook(v, skb.Value(), path, skb.tstamp)) ==
              IngressIp(old(Value()), cpu, old(skb.Value()), key, now, edt)
    {
      hide IngressAuth, IngressGuest, Learn, AtPortalPort;
      var src, dst := Ip(skb.w[IP_SADDR], skb.w[IP_SADDR + 1]), Ip(skb.w[IP_DADDR], skb.w[IP_DADDR + 1]);
      if src in bypass {
        return Pass, Bypassed;
      }
      var mac := Mac(skb.w[3], skb.w[4], skb.w[5]);
      Bind(mac, src);
      if dst == portal.ip {
        var ok := PortalBoundUpload(skb);
        if ok {
          return Pass, PortalBound;
        }
        return Drop, NotPortalPort;
      }
      if mac in clients {
        v, path := AuthenticatedUpload(skb, cpu, mac, src, now, edt);
      } else {
        v, path := GuestUpload(skb, key, now);
      }
    }

    method TcIngress(skb: Skb, cpu: nat, now: nat, edt: nat) returns (v: Verdict, ghost path: Path)
      requires Valid() && skb.Valid() && cpu < ncpu && skb.tstamp == None
      modifies this`macIp, this`ipMac, this`clients, this`counters, this`conntrack, skb`tstamp, skb.w
      ensures Valid()
      ensures (Value(), Hook(v, skb.Value(), path, skb.tstamp)) ==
              Ingress(old(Value()), cpu, old(skb.Value()), now, edt)
    {
      hide IngressIp, Classify;
      var res, key, eth := FilterProto(skb);
      match res {
        case PROTO_L2_ONLY =>
          if eth !in l2 {
            return Drop, L2Denied;
          }
          v, path := Pass, L2Allowed;
        case PROTO_INVALID =>
          v, path := Drop, Malformed;
        case PROTO_L3_OK =>
          v, path := UploadIp(skb, cpu, key, now, edt);
      }
    }

    // ----- hg_tc_egress -------------------------------------------------------------------

    method AuthenticatedDownload(skb: Skb, cpu: nat, mac: Mac, dst: Ip, now: nat) returns (v: Verdict, ghost path: Path)
      requires Valid() && skb.Valid() && IsIpv4(skb.Value()) && dst == Daddr(skb.Value())
      requires cpu < ncpu && mac in clients && skb.tstamp == None
      modifies this`clients, this`counters, skb`tstamp
      ensures Valid()
      ensures (Value(), Hook(v, skb.Value(), path, skb.tstamp)) == EgressAuth(old(Value()), cpu, skb.Value(), mac, now)
    {
      hide ApplyEdt, SetSlot, CountDown;
      var shot := ApplyEdtShaping(skb, mac, false, now);
      if shot {
        return Drop, OverHorizon;
      }
      if dst !in counters {
        return Drop, NoCounter;
      }
      CountDownload(dst, cpu, skb.len);
      v, path := Pass, Authenticated;
    }

    method DownloadIp(skb: Skb, cpu: nat, key: AllowKey, now: nat) returns (v: Verdict, ghost path: Path)
      requires Valid() && skb.Valid() && IsIpv4(skb.Value()) && cpu < ncpu && skb.tstamp == None
      modifies this`clients, this`counters, skb`tstamp, skb.w
      ensures Valid()
      ensures (Value(), Hook(v, skb.Value(), path, skb.tstamp)) ==
              EgressIp(old(Value()), cpu, old(skb.Value()), key, now)
    {
      hide EgressAuth, Snat, ProtoAllowed, TrieHas, Native;
      var src, dst := Ip(skb.w[IP_SADDR], skb.w[IP_SADDR + 1]), Ip(skb.w[IP_DADDR], skb.w[IP_DADDR + 1]);
      if src == portal.ip {
        v := SnatFromConntrack(skb, now);
        return v, PortalReply;
      }
      if dst in bypass {
        return Pass, Bypassed;
      }
      if dst in ipMac && ipMac[dst] in clients {
        v, path := AuthenticatedDownload(skb, cpu, ipMac[dst], dst, now);
        return;
      }
      var allowed := Allowed(key);
      if allowed {
        return Pass, PreAuth;
      }
      if TrieHas(garden, Native(src)) {
        return Pass, InGarden;
      }
      v, path := Drop, Unauthenticated;
    }

    method TcEgress(skb: Skb, cpu: nat, now: nat) returns (v: Verdict, ghost path: Path)
      requires Valid() && skb.Valid() && cpu < ncpu && skb.tstamp == None
      modifies this`clients, this`counters, skb`tstamp, skb.w
      ensures Valid()
      ensures (Value(), Hook(v, skb.Value(), path, skb.tstamp)) == Egress(old(Value()), cpu, old(skb.Value()), now)
    {
      hide EgressIp, Classify;
      var res, key, eth := FilterProto(skb);
      match res {
        case PROTO_L2_ONLY =>
          if eth !in l2 {
            return Drop, L2Denied;
          }
          v, path := Pass, L2Allowed;
        case PROTO_INVALID =>
          v, path := Drop, Malformed;
        case PROTO_L3_OK =>
          v, path := DownloadIp(skb, cpu, key, now);
      }
    }

    // ----- add_action and del_action ------------------------------------------------------

    /** Completes the pair from the bindings when only one half is given. */
    method ResolvePair(a: AddArgs) returns (ok: bool, mac: Mac, ip: Ip)
      requires Valid()
      ensures Resolve(Value(), a) == if ok then Some((mac, ip)) else None
    {
      ok, mac, ip := false, Mac(0, 0, 0), Ip(0, 0);
      if a.mac.Some? && a.ip.Some? {
        ok, mac, ip := true, a.mac.value, a.ip.value;
      } else if a.mac.Some? {
        mac := a.mac.value;
        if mac in macIp {
          ok, ip := true, macIp[mac];
        }
      } else if a.ip.Some? {
        ip := a.ip.value;
        if ip in ipMac {
          ok, mac := true, ipMac[ip];
        }
      }
    }

    /** Inserts client, counters and rate; a failed counter insert takes the client out again. */
    method InsertPair(a: AddArgs, mac: Mac, ip: Ip, now: nat) returns (o: Outcome)
      requires Valid()
      modifies this`clients, this`counters, this`rates
      ensures Valid() && (Value(), o) == AddPair(old(Value()), a, mac, ip, now)
    {
      hide NewClient, NewRate, RateId, Zeros;
      if !Fits(clients, mac, CLIENT_CAPACITY) {
        return AddFailed(None);
      }
      ghost var before := clients;
      clients := clients[mac := NewClient(a, now)];
      if !Fits(counters, ip, CLIENT_CAPACITY) {
        clients := clients - {mac};
        assert clients == before - {mac};
        return AddFailed(Some(mac));
      }
      counters := counters[ip := Zeros(ncpu)];
      rates := Update(rates, RateId(a), NewRate(a), RATE_CAPACITY);
      o := Added(mac, ip, NewClient(a, now));
    }

    method AddAction(a: AddArgs, now: nat) returns (o: Outcome)
      requires Valid()
      modifies this`clients, this`counters, this`rates
      ensures Valid() && (Value(), o) == Add(old(Value()), a, now)
    {
      hide Resolve, AddPair;
      var ok, mac, ip := ResolvePair(a);
      if !ok {
        return AddFailed(None);
      }
      o := InsertPair(a, mac, ip, now);
    }

    method DelAction(mac: Mac) returns (o: Outcome)
      requires Valid()
      modifies this`clients, this`counters, this`rates
      ensures Valid() && (Value(), o) == Del(old(Value()), mac)
    {
      if mac in clients {
        rates := rates - {clients[mac].rateId};
      }
      clients := clients - {mac};
      if mac in macIp {
        counters := counters - {macIp[mac]};
        return Deleted(mac, Some(macIp[mac]));
      }
      o := Deleted(mac, None);
    }

    /** map-del of a client. */
    method MapDelClients(mac: Mac) returns (ok: bool)
      modifies this`clients
      ensures clients == old(clients) - {mac} && ok == (mac in old(clients))
    {
      ok := mac in clients;
      clients := clients - {mac};
    }

    /** map-del of a conntrack entry; the parsed port goes into the key as it is. */
    method MapDelConntracks(ip: Ip, port: Word) returns (ok: bool)
      modifies this`conntrack
      ensures var key := CtKey(ip, SwapPort(port));
              conntrack == old(conntrack) - {key} && ok == (key in old(conntrack))
    {
      var key := CtKey(ip, SwapPort(port));
      ok := key in conntrack;
      conntrack := conntrack - {key};
    }

    // ----- rule, bypass and garden actions ------------------------------------------------

    method BypassAdd(ip: Option<Ip>) returns (ok: bool)
      modifies this`bypass
      ensures (bypass, ok) == Apply(old(bypass), Put(ip), BYPASS_CAPACITY)
    {
      if ip.None? {
        return false;
      }
      ok := ip.value in bypass || |bypass| < BYPASS_CAPACITY;
      if ok {
        bypass := bypass + {ip.value};
      }
    }

    method BypassDel(ip: Option<Ip>) returns (ok: bool)
      modifies this`bypass
      ensures (bypass, ok) == Apply(old(bypass), Remove(ip), BYPASS_CAPACITY)
    {
      if ip.None? {
        return false;
      }
      ok := ip.value in bypass;
      bypass := bypass - {ip.value};
    }

    /** protocol_allow_add_action and protocol_allow_del_action, level 2. */
    method UpdateL2(op: SetOp<Word>) returns (ok: bool)
      modifies this`l2
      ensures (l2, ok) == Apply(old(l2), op, L2_CAPACITY)
    {
      if op.key.None? {
        return false;
      }
      var eth := op.key.value;
      if op.Put? {
        ok := eth in l2 || |l2| < L2_CAPACITY;
        if ok {
          l2 := l2 + {eth};
        }
      } else {
        ok := eth in l2;
        l2 := l2 - {eth};
      }
    }

    /** The same, levels 3 and 4. */
    method UpdateProto(op: SetOp<AllowKey>) returns (ok: bool)
      modifies this`proto
      ensures (proto, ok) == Apply(old(proto), op, PROTO_CAPACITY)
    {
      if op.key.None? {
        return false;
      }
      var key := op.key.value;
      if op.Put? {
        ok := key in proto || |proto| < PROTO_CAPACITY;
        if ok {
          proto := proto + {key};
        }
      } else {
        ok := key in proto;
        proto := proto - {key};
      }
    }

    /** The map operation of wg-add and wg-del, once the text is parsed. */
    method UpdateGarden(op: SetOp<WgKey>) returns (ok: bool)
      modifies this`garden
      ensures (garden, ok) == Apply(old(garden), op, WG_CAPACITY)
    {
      if op.key.None? {
        return false;
      }
      var key := op.key.value;
      if op.Put? {
        ok := key in garden || |garden| < WG_CAPACITY;
        if ok {
          garden := garden + {key};
        }
      } else {
        ok := key in garden;
        garden := garden - {key};
      }
    }

    method WgAddAction(c: Cidr) returns (ok: bool)
      modifies this`garden
      ensures (garden, ok) == Apply(old(garden), KeyOp(WgAdd(c)), WG_CAPACITY)
    {
      hide ParseCidr;
      var parsed, key := WgParseCidr(c);
      ok := UpdateGarden(Put(if parsed then Some(key) else None));
    }

    method WgDelAction(c: Cidr) returns (ok: bool)
      modifies this`garden
      ensures (garden, ok) == Apply(old(garden), KeyOp(WgDel(c)), WG_CAPACITY)
    {
      hide ParseCidr;
      var parsed, key := WgParseCidr(c);
      ok := UpdateGarden(Remove(if parsed then Some(key) else None));
    }

    // ----- every step ---------------------------------------------------------------------

    method PerformRule(step: Step) returns (ok: bool)
      requires Valid() && (step.BypassOp? || step.L2Op? || step.ProtoOp? || step.GardenOp?)
      modifies this`bypass, this`l2, this`proto, this`garden
      ensures (Value(), Done(ok)) == Take(old(Value()), step)
    {
      hide Apply, Ingress, Egress, Add, Del, ParseCidr;
      ok := false;
      match step {
        case BypassOp(Put(k)) => ok := BypassAdd(k);
        case BypassOp(Remove(k)) => ok := BypassDel(k);
        case L2Op(op) => ok := UpdateL2(op);
        case ProtoOp(op) => ok := UpdateProto(op);
        case GardenOp(WgAdd(c)) => ok := WgAddAction(c);
        case GardenOp(WgDel(c)) => ok := WgDelAction(c);
      }
    }

    /** One step of the transition system, performed on the maps. */
    method Perform(step: Step) returns (ghost o: Outcome)
      requires Valid()
      modifies this
      ensures Valid() && (Value(), o) == Take(old(Value()), step)
    {
      hide Ingress, Egress, Add, Del, Apply;
      match step {
        case IngressFrame(cpu, f, now, edt) =>
          if cpu >= ncpu {
            return Done(false);
          }
          var skb := new Skb(f);
          var v, path := TcIngress(skb, cpu, now, edt);
          o := Hook(v, skb.Value(), path, skb.tstamp);
        case EgressFrame(cpu, f, now) =>
          if cpu >= ncpu {
            return Done(false);
          }
          var skb := new Skb(f);
          var v, path := TcEgress(skb, cpu, now);
          o := Hook(v, skb.Value(), path, skb.tstamp);
        case AddClient(args, now) => o := AddAction(args, now);
        case DelClient(mac) => o := DelAction(mac);
        case DelByIp(ip) =>
          if ip !in ipMac {
            return Done(false);
          }
          o := DelAction(ipMac[ip]);
        case MapDelClient(mac) =>
          var ok := MapDelClients(mac);
          o := Done(ok);
        case MapDelConntrack(ip, port) =>
          var ok := MapDelConntracks(ip, port);
          o := Done(ok);
        case Evict(key) =>
          conntrack := conntrack - {key};
          o := Done(true);
        case _ =>
          var ok := PerformRule(step);
          o := Done(ok);
      }
    }

    /** So every run of the class is a run of the transition system. */
    method PerformAll(steps: seq<Step>)
      requires Valid()
      modifies this
      ensures Valid() && Value() == Run(old(Value()), steps)
    {
      hide Take;
      for i := 0 to |steps|
        invariant Valid() && Value() == Run(old(Value()), steps[..i])
      {
        ghost var o := Perform(steps[i]);
        assert steps[..i + 1][..i] == steps[..i];
      }
      assert steps[..|steps|] == steps;
    }
  }

  /** wg_parse_cidr on a split and parsed text. */
  method WgParseCidr(c: Cidr) returns (ok: bool, key: WgKey)
    ensures ParseCidr(c) == if ok then Some(key) else None
  {
    key := WgKey(0, 0);
    if c.prefix < 0 || c.prefix > 32 {
      return false, key;
    }
    var prefix := c.prefix as bv6;
    key := key.(ip := Swap(c.addr));
    if prefix == 0 {
      key := key.(ip := 0);
    } else if prefix < 32 {
      key := key.(ip := key.ip & Swap(ONES << (32 - prefix)));
    }
    key := key.(prefixlen := prefix);
    ok := true;
  }
}
