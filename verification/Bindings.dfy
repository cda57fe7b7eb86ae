/** MAC and IP bindings: what the conditional writes of step 3 of ingress leave in the two maps,
    compared with writing on every frame. */
module Bindings {
  import opened Net
  import opened Frames
  import opened History
  import opened Datapath

  /** A frame that reached the binding step. */
  datatype Sighting = Sighting(mac: Mac, ip: Ip)

  /** Writing both maps on every frame. */
  function EveryMacIp(obs: seq<Sighting>): map<Mac, Ip> {
    if obs == [] then map[] else
      var o := obs[|obs| - 1];
      EveryMacIp(obs[..|obs| - 1])[o.mac := o.ip]
  }

  function EveryIpMac(obs: seq<Sighting>): map<Ip, Mac> {
    if obs == [] then map[] else
      var o := obs[|obs| - 1];
      EveryIpMac(obs[..|obs| - 1])[o.ip := o.mac]
  }

  /** The maps as they are written: only when the sender's recorded address differs. */
  function Bound(obs: seq<Sighting>): (r: (map<Mac, Ip>, map<Ip, Mac>)) {
    if obs == [] then (map[], map[]) else
      var o := obs[|obs| - 1];
      var (macIp, ipMac) := Bound(obs[..|obs| - 1]);
      if o.mac in macIp && macIp[o.mac] == o.ip then (macIp, ipMac)
      else (macIp[o.mac := o.ip], ipMac[o.ip := o.mac])
  }

  /** mac_ip is the map written on every frame. */
  lemma {:induction false} MacIpIsEveryFrame(obs: seq<Sighting>)
    ensures Bound(obs).0 == EveryMacIp(obs)
  {
    if obs != [] {
      MacIpIsEveryFrame(obs[..|obs| - 1]);
    }
  }

  /** Which is: the address of the sender's latest frame. */
  lemma {:induction false} LatestAddress(obs: seq<Sighting>, m: Mac) returns (i: nat)
    requires m in EveryMacIp(obs)
    ensures i < |obs| && obs[i] == Sighting(m, EveryMacIp(obs)[m])
    ensures forall j | i < j < |obs| :: obs[j].mac != m
  {
    var n := |obs| - 1;
    if obs[n].mac == m {
      i := n;
    } else {
      i := LatestAddress(obs[..n], m);
    }
  }

  lemma {:induction false} LatestSender(obs: seq<Sighting>, ip: Ip) returns (i: nat)
    requires ip in EveryIpMac(obs)
    ensures i < |obs| && obs[i] == Sighting(EveryIpMac(obs)[ip], ip)
    ensures forall j | i < j < |obs| :: obs[j].ip != ip
  {
    var n := |obs| - 1;
    if obs[n].ip == ip {
      i := n;
    } else {
      i := LatestSender(obs[..n], ip);
    }
  }

  lemma {:induction false} SightingsAreKeys(obs: seq<Sighting>, i: nat)
    requires i < |obs|
    ensures obs[i].mac in EveryMacIp(obs) && obs[i].ip in EveryIpMac(obs)
  {
    if i < |obs| - 1 {
      SightingsAreKeys(obs[..|obs| - 1], i);
    }
  }

  // ----- what ip_mac holds ----------------------------------------------------------------

  /** Frame i's sender was recorded at another address, or not at all. */
  predicate Changes(obs: seq<Sighting>, i: nat)
    requires i < |obs|
  {
    var known := EveryMacIp(obs[..i]);
    !(obs[i].mac in known && known[obs[i].mac] == obs[i].ip)
  }

  /** Frame i is the latest frame from ip whose sender's recorded address differed from ip. */
  ghost predicate LatestChange(obs: seq<Sighting>, i: nat, ip: Ip)
    requires i < |obs|
  {
    obs[i].ip == ip && Changes(obs, i) && forall j | i < j < |obs| :: !(obs[j].ip == ip && Changes(obs, j))
  }

  lemma LatestChangeBefore(obs: seq<Sighting>, i: nat, ip: Ip)
    requires i < |obs| - 1
    ensures LatestChange(obs, i, ip) <==>
            LatestChange(obs[..|obs| - 1], i, ip) && !(obs[|obs| - 1].ip == ip && Changes(obs, |obs| - 1))
  {
    var n := |obs| - 1;
    forall j | 0 <= j < n
      ensures Changes(obs[..n], j) <==> Changes(obs, j)
    {
      assert obs[..n][..j] == obs[..j];
    }
  }

  /** ip_mac[ip] is the sender of the latest such frame, and ip is a key exactly when there is one. */
  lemma {:induction false} IpMacIsLatestChange(obs: seq<Sighting>, ip: Ip) returns (i: nat)
    ensures ip in Bound(obs).1 ==> i < |obs| && LatestChange(obs, i, ip) && Bound(obs).1[ip] == obs[i].mac
    ensures ip !in Bound(obs).1 ==> forall j | 0 <= j < |obs| :: !(obs[j].ip == ip && Changes(obs, j))
  {
    i := 0;
    if obs != [] {
      var n := |obs| - 1;
      MacIpIsEveryFrame(obs[..n]);
      i := IpMacIsLatestChange(obs[..n], ip);
      forall j | 0 <= j < n
        ensures Changes(obs[..n], j) <==> Changes(obs, j)
      {
        assert obs[..n][..j] == obs[..j];
      }
      if obs[n].ip == ip && Changes(obs, n) {
        i := n;
      } else if ip in Bound(obs).1 {
        LatestChangeBefore(obs, i, ip);
      }
    }
  }

  predicate Cover(macIp: map<Mac, Ip>, ipMac: map<Ip, Mac>) {
    && (forall ip | ip in ipMac :: ipMac[ip] in macIp)
    && (forall m | m in macIp :: macIp[m] in ipMac)
  }

  /** In all runs every MAC in ip_mac is bound in mac_ip and every address in mac_ip is a key of
      ip_mac. */
  lemma {:induction false} MapsCoverEachOther(obs: seq<Sighting>)
    ensures Cover(Bound(obs).0, Bound(obs).1)
  {
    if obs != [] {
      MapsCoverEachOther(obs[..|obs| - 1]);
    }
  }

  // ----- when ip_mac is the map written on every frame --------------------------------------

  /** m was at ip (frame i), another MAC took ip (frame j), and m came back to ip (frame k) without
      having been seen anywhere else since frame i. */
  ghost predicate SilentReturn(obs: seq<Sighting>, i: nat, j: nat, k: nat)
    requires i < j < k < |obs|
  {
    && obs[i] == obs[k] && obs[j].ip == obs[k].ip && obs[j].mac != obs[k].mac
    && forall l | i < l < k && obs[l].mac == obs[k].mac :: obs[l].ip == obs[k].ip
  }

  ghost predicate Agree(obs: seq<Sighting>) {
    forall n | 0 <= n <= |obs| :: Bound(obs[..n]).1 == EveryIpMac(obs[..n])
  }

  lemma StaleMeansSilentReturn(obs: seq<Sighting>, k: nat) returns (i: nat, j: nat)
    requires k < |obs| && !Changes(obs, k)
    requires var before := EveryIpMac(obs[..k]); !(obs[k].ip in before && before[obs[k].ip] == obs[k].mac)
    ensures i < j < k && SilentReturn(obs, i, j, k)
  {
    var before := obs[..k];
    i := LatestAddress(before, obs[k].mac);
    SightingsAreKeys(before, i);
    j := LatestSender(before, obs[k].ip);
    assert obs[i] == before[i] && obs[j] == before[j];
    assert i < j;
    assert forall l | i < l < k :: before[l] == obs[l];
  }

  lemma {:induction false} AgreeWithoutReturns(obs: seq<Sighting>)
    requires forall i, j, k | 0 <= i < j < k < |obs| :: !SilentReturn(obs, i, j, k)
    ensures Agree(obs)
  {
    if obs != [] {
      var n := |obs| - 1;
      var before := obs[..n];
      forall i, j, k | 0 <= i < j < k < n
        ensures !SilentReturn(before, i, j, k)
      {
        assert SilentReturn(before, i, j, k) ==> SilentReturn(obs, i, j, k);
      }
      AgreeWithoutReturns(before);
      assert before[..n] == before && obs[..n + 1] == obs;
      MacIpIsEveryFrame(before);
      if !Changes(obs, n) {
        var known := EveryIpMac(before);
        if !(obs[n].ip in known && known[obs[n].ip] == obs[n].mac) {
          var i, j := StaleMeansSilentReturn(obs, n);
          assert false;
        }
        assert known[obs[n].ip := obs[n].mac] == known;
      }
      forall l | 0 <= l <= |obs|
        ensures Bound(obs[..l]).1 == EveryIpMac(obs[..l])
      {
        assert l <= n ==> before[..l] == obs[..l];
      }
    }
  }

  /** The first return of the MAC to the address after frame j. */
  lemma {:induction false} FirstReturn(obs: seq<Sighting>, i: nat, j: nat, k: nat) returns (k0: nat)
    requires i < j < k < |obs| && SilentReturn(obs, i, j, k)
    ensures j < k0 <= k && SilentReturn(obs, i, j, k0)
    ensures forall l | j < l < k0 :: obs[l] != obs[k0]
  {
    if l :| j < l < k && obs[l] == obs[k] {
      assert SilentReturn(obs, i, j, l);
      k0 := FirstReturn(obs, i, j, l);
    } else {
      k0 := k;
    }
  }

  lemma ReturnMeansDisagreement(obs: seq<Sighting>, i: nat, j: nat, k: nat)
    requires i < j < k < |obs| && SilentReturn(obs, i, j, k)
    ensures !Agree(obs)
  {
    var k0 := FirstReturn(obs, i, j, k);
    var before, o := obs[..k0], obs[k0];
    SightingsAreKeys(before, i);
    SightingsAreKeys(before, j);
    assert before[i] == o && before[j].ip == o.ip;
    var a := LatestAddress(before, o.mac);
    assert a >= i && before[a].ip == o.ip by { assert before[a] == obs[a]; }
    var b := LatestSender(before, o.ip);
    assert b >= j && before[b] == obs[b] && obs[b].mac != o.mac;
    MacIpIsEveryFrame(before);
    assert obs[..k0 + 1][..k0] == before && obs[..k0 + 1][k0] == o;
    assert Bound(obs[..k0 + 1]).1 == Bound(before).1;
    assert EveryIpMac(obs[..k0 + 1])[o.ip] == o.mac;
    if Bound(obs[..k0]).1 == EveryIpMac(obs[..k0]) {
      assert Bound(obs[..k0 + 1]).1 != EveryIpMac(obs[..k0 + 1]);
    }
  }

  /** ip_mac is, throughout a run, the map written on every frame exactly when no MAC whose address
      was taken by another comes back to it without sending from elsewhere first. */
  lemma IpMacIsEveryFrameIff(obs: seq<Sighting>)
    ensures Agree(obs) <==> forall i, j, k | 0 <= i < j < k < |obs| :: !SilentReturn(obs, i, j, k)
  {
    if forall i, j, k | 0 <= i < j < k < |obs| :: !SilentReturn(obs, i, j, k) {
      AgreeWithoutReturns(obs);
    } else {
      var i, j, k :| 0 <= i < j < k < |obs| && SilentReturn(obs, i, j, k);
      ReturnMeansDisagreement(obs, i, j, k);
    }
  }

  // ----- the datapath's bindings ----------------------------------------------------------

  /** The step is an IPv4 frame whose source is not bypassed: it reaches the binding step. */
  predicate Learns(s: State, step: Step) {
    && step.IngressFrame? && step.cpu < s.ncpu && Classify(step.f).L3Ok?
    && Saddr(step.f) !in s.bypass
  }

  function SightingOf(step: Step): Sighting
    requires step.IngressFrame? && IsIpv4(step.f)
  {
    Sighting(SrcMac(step.f), Saddr(step.f))
  }

  function Sightings(s: State, steps: seq<Step>): seq<Sighting> {
    if steps == [] then [] else
      var n := |steps| - 1;
      var before := Sightings(s, steps[..n]);
      if Learns(Run(s, steps[..n]), steps[n]) then before + [SightingOf(steps[n])] else before
  }

  /** Only a frame that reaches the binding step changes the two maps. */
  lemma BindingStep(s: State, step: Step)
    ensures var s' := Take(s, step).0;
            if Learns(s, step) then
              var t := Learn(s, SrcMac(step.f), Saddr(step.f));
              s'.macIp == t.macIp && s'.ipMac == t.ipMac
            else s'.macIp == s.macIp && s'.ipMac == s.ipMac
  {
    hide Egress, Add, Del, Learn, Apply;
    if step.IngressFrame? && step.cpu < s.ncpu {
      IngressBinds(s, step.cpu, step.f, step.now, step.edt);
      hide Ingress;
    } else {
      hide Ingress;
    }
  }

  lemma IngressBinds(s: State, cpu: nat, f: Frame, now: nat, edt: nat)
    requires cpu < s.ncpu
    ensures var s' := Ingress(s, cpu, f, now, edt).0;
            if Classify(f).L3Ok? && Saddr(f) !in s.bypass then
              var t := Learn(s, SrcMac(f), Saddr(f));
              s'.macIp == t.macIp && s'.ipMac == t.ipMac
            else s'.macIp == s.macIp && s'.ipMac == s.ipMac
  {
    hide IngressAuth, IngressGuest, IngressPortal, Learn, ClientsAfter, CountersAfterIngress;
  }

  /** The maps as they are written, an update of a full map failing. */
  function Written(obs: seq<Sighting>): (map<Mac, Ip>, map<Ip, Mac>) {
    if obs == [] then (map[], map[]) else WrittenAfter(Written(obs[..|obs| - 1]), obs[|obs| - 1])
  }

  function WrittenAfter(maps: (map<Mac, Ip>, map<Ip, Mac>), o: Sighting): (map<Mac, Ip>, map<Ip, Mac>) {
    if o.mac in maps.0 && maps.0[o.mac] == o.ip then maps
    else (Update(maps.0, o.mac, o.ip, CLIENT_CAPACITY), Update(maps.1, o.ip, o.mac, CLIENT_CAPACITY))
  }

  lemma WrittenAppends(obs: seq<Sighting>, o: Sighting)
    ensures Written(obs + [o]) == WrittenAfter(Written(obs), o)
  {
    var all := obs + [o];
    assert all[..|all| - 1] == obs && all[|all| - 1] == o;
    hide WrittenAfter;
  }

  lemma LearnIsWritten(s: State, step: Step)
    requires Learns(s, step)
    ensures var t := Learn(s, SrcMac(step.f), Saddr(step.f));
            (t.macIp, t.ipMac) == WrittenAfter((s.macIp, s.ipMac), SightingOf(step))
  {
    hide Classify, Update;
  }

  lemma SightingsStep(s0: State, steps: seq<Step>)
    requires steps != []
    ensures var n := |steps| - 1;
            Sightings(s0, steps) ==
            Sightings(s0, steps[..n]) + if Learns(Run(s0, steps[..n]), steps[n]) then [SightingOf(steps[n])] else []
  {
    hide Run, Learns;
  }

  /** The datapath's bindings after every run are those of the frames that reached the binding step. */
  lemma {:induction false} DatapathBindings(s0: State, steps: seq<Step>)
    requires s0.macIp == map[] && s0.ipMac == map[]
    ensures var z := Run(s0, steps); (z.macIp, z.ipMac) == Written(Sightings(s0, steps))
  {
    if steps != [] {
      hide Take, Learns, Learn, WrittenAfter, Sightings, Written;
      var n := |steps| - 1;
      DatapathBindings(s0, steps[..n]);
      var z, step := Run(s0, steps[..n]), steps[n];
      BindingStep(z, step);
      SightingsStep(s0, steps);
      if Learns(z, step) {
        LearnIsWritten(z, step);
        WrittenAppends(Sightings(s0, steps[..n]), SightingOf(step));
      }
    }
  }

  function Macs(obs: seq<Sighting>): set<Mac> { set o | o in obs :: o.mac }

  function Ips(obs: seq<Sighting>): set<Ip> { set o | o in obs :: o.ip }

  lemma FewerKeys<K>(a: set<K>, b: set<K>, k: K)
    requires a <= b && k in b && k !in a
    ensures |a| < |b|
  {
    History.SubsetSize(a + {k}, b);
  }

  lemma {:induction false} BoundKeys(obs: seq<Sighting>)
    ensures Bound(obs).0.Keys <= Macs(obs) && Bound(obs).1.Keys <= Ips(obs)
  {
    if obs != [] {
      BoundKeys(obs[..|obs| - 1]);
    }
  }

  /** Up to 4096 MACs and addresses nothing fails, and the maps are those written on every change;
      so all of the above holds of the datapath's bindings. */
  lemma {:induction false} WrittenIsBound(obs: seq<Sighting>)
    requires |Macs(obs)| <= 4096 && |Ips(obs)| <= 4096
    ensures Written(obs) == Bound(obs)
  {
    if obs != [] {
      var before, o := obs[..|obs| - 1], obs[|obs| - 1];
      History.SubsetSize(Macs(before), Macs(obs));
      History.SubsetSize(Ips(before), Ips(obs));
      WrittenIsBound(before);
      BoundKeys(before);
      var (macIp, ipMac) := Bound(before);
      if o.mac !in macIp {
        FewerKeys(macIp.Keys, Macs(obs), o.mac);
      }
      if o.ip !in ipMac {
        FewerKeys(ipMac.Keys, Ips(obs), o.ip);
      }
    }
  }
}
