/** The portal redirect and its undoing, over whole runs. */
module Translation {
  import opened Net
  import opened Frames
  import opened Garden
  import opened Datapath

  function FlowOf(f: Frame): CtKey requires IsTcp(f) { CtKey(Saddr(f), Sport(f)) }

  /** r travels the TCP connection of f in the other direction. */
  predicate IsReply(r: Frame, f: Frame) {
    && IsTcp(r) && IsTcp(f)
    && Saddr(r) == Daddr(f) && Sport(r) == Dport(f)
    && Daddr(r) == Saddr(f) && Dport(r) == Sport(f)
  }

  /** Step i redirected frame f at time now. */
  ghost predicate RedirectedBy(s: State, step: Step) {
    && step.IngressFrame?
    && var o := Take(s, step).1;
       o.Hook? && o.path == Redirected && o.verdict == Pass
  }

  /** What a redirect does: the frame goes to the portal with both checksums as good as before,
      everything else in it is untouched, and the flow's original destination is remembered. */
  lemma RedirectEffect(s: State, step: Step)
    requires RedirectedBy(s, step)
    ensures var f, r := step.f, Take(s, step);
            && IsTcp(f) && Ihl(f) >= 5 && Dport(f) == 80 && Daddr(f) != s.portal.ip
            && r.1.out == Rewrite(f, Dest, s.portal.ip, s.portal.port)
            && r.0.conntrack == s.conntrack[FlowOf(f) := CtVal(Daddr(f), 80, step.now)]
            && r.0.portal == s.portal
  {
    IngressRedirected(s, step.cpu, step.f, step.now, step.edt);
    RedirectTcp(Learn(s, SrcMac(step.f), Saddr(step.f)), step.f, step.now);
  }

  /** Exactly which frames are redirected: complete TCP to port 80 of another host with a sound IP
      header, from a source that is not bypassed and a MAC without a session, that no pre-auth
      rule and no walled-garden network lets through. */
  lemma RedirectedIff(s: State, cpu: nat, f: Frame, now: nat, edt: nat)
    requires cpu < s.ncpu
    ensures RedirectedBy(s, IngressFrame(cpu, f, now, edt)) <==>
            && IsTcp(f) && Ihl(f) >= 5 && Dport(f) == 80 && Daddr(f) != s.portal.ip
            && Saddr(f) !in s.bypass && SrcMac(f) !in s.clients
            && !ProtoAllowed(s.proto, AllowKey(IPPROTO_TCP, Sport(f), 80)) && !TrieHas(s.garden, Native(Daddr(f)))
  {
    RedirectedPath(s, cpu, f, now, edt);
    if Ingress(s, cpu, f, now, edt).1.path == Redirected {
      IngressRedirected(s, cpu, f, now, edt);
      RedirectTcp(Learn(s, SrcMac(f), Saddr(f)), f, now);
    }
    hide Ingress, Redirect, ProtoAllowed, TrieHas, Native, Learn, Rewrite;
  }

  lemma RedirectedPath(s: State, cpu: nat, f: Frame, now: nat, edt: nat)
    requires cpu < s.ncpu
    ensures Ingress(s, cpu, f, now, edt).1.path == Redirected <==>
            && IsTcp(f) && Dport(f) == 80 && Daddr(f) != s.portal.ip
            && Saddr(f) !in s.bypass && SrcMac(f) !in s.clients
            && !ProtoAllowed(s.proto, AllowKey(IPPROTO_TCP, Sport(f), 80)) && !TrieHas(s.garden, Native(Daddr(f)))
  {
    hide Redirect, ProtoAllowed, TrieHas, Native, AtPortalPort, CountersAfterIngress, ClientsAfter,
         ApplyEdt, IngressAuth, Learn;
  }

  lemma IngressRedirected(s: State, cpu: nat, f: Frame, now: nat, edt: nat)
    requires cpu < s.ncpu && Ingress(s, cpu, f, now, edt).1.path == Redirected
    ensures IsTcp(f) && Dport(f) == 80 && Daddr(f) != s.portal.ip
    ensures var (s', v, g) := Redirect(Learn(s, SrcMac(f), Saddr(f)), f, now);
            Ingress(s, cpu, f, now, edt) == (s', Hook(v, g, Redirected, None))
  {
    hide Redirect, IngressAuth, ProtoAllowed, TrieHas, Native, AtPortalPort, Learn, CountersAfterIngress, ApplyEdt;
  }

  lemma RedirectTcp(s: State, f: Frame, now: nat)
    requires IsTcp(f)
    ensures Redirect(s, f, now) ==
            if Ihl(f) < 5 then (s, Drop, f)
            else (s.(conntrack := s.conntrack[FlowOf(f) := CtVal(Daddr(f), Dport(f), now)]), Pass,
                  Rewrite(f, Dest, s.portal.ip, s.portal.port))
  {
  }

  lemma RedirectedFrame(f: Frame, portal: PortalCfg)
    requires IsTcp(f) && Ihl(f) >= 5
    ensures var g := Rewrite(f, Dest, portal.ip, portal.port);
            && IsTcp(g) && Daddr(g) == portal.ip && Dport(g) == portal.port
            && Saddr(g) == Saddr(f) && Sport(g) == Sport(f)
            && |g.w| == |f.w| && OtherWordsSame(f, g, Dest)
            && (IpChecksumOk(g) <==> IpChecksumOk(f))
            && (WholeSegment(f) ==> WholeSegment(g) && (TcpChecksumOk(g) <==> TcpChecksumOk(f)))
  {
    RewriteFields(f, Dest, portal.ip, portal.port);
    RewriteKeepsIpChecksum(f, Dest, portal.ip, portal.port);
    if WholeSegment(f) {
      RewriteKeepsTcpChecksum(f, Dest, portal.ip, portal.port);
    }
  }

  /** The step may change the conntrack entry of this flow. */
  ghost predicate TouchesFlow(s: State, step: Step, key: CtKey) {
    || (RedirectedBy(s, step) && IsTcp(step.f) && FlowOf(step.f) == key)
    || step == Evict(key)
    || (step.MapDelConntrack? && key == CtKey(step.ip, SwapPort(step.port)))
  }

  lemma EntryPersists(s: State, step: Step, key: CtKey)
    requires key in s.conntrack && !TouchesFlow(s, step, key)
    ensures var s' := Take(s, step).0; key in s'.conntrack && s'.conntrack[key] == s.conntrack[key]
  {
    if RedirectedBy(s, step) {
      RedirectEffect(s, step);
    } else {
      ConntrackStep(s, step);
    }
  }

  /** Only a redirect adds or changes entries. */
  lemma ConntrackStep(s: State, step: Step)
    requires !RedirectedBy(s, step)
    ensures Take(s, step).0.conntrack ==
            if step.Evict? then s.conntrack - {step.key}
            else if step.MapDelConntrack? then s.conntrack - {CtKey(step.ip, SwapPort(step.port))}
            else s.conntrack
  {
    if step.IngressFrame? && step.cpu < s.ncpu {
      DroppedRedirect(s, step.cpu, step.f, step.now, step.edt);
    }
  }

  lemma DroppedRedirect(s: State, cpu: nat, f: Frame, now: nat, edt: nat)
    requires cpu < s.ncpu
    ensures var r := Ingress(s, cpu, f, now, edt);
            r.1.path == Redirected && r.1.verdict != Pass ==> r.0.conntrack == s.conntrack
  {
    if Ingress(s, cpu, f, now, edt).1.path == Redirected {
      IngressRedirected(s, cpu, f, now, edt);
      RedirectTcp(Learn(s, SrcMac(f), Saddr(f)), f, now);
      hide Redirect, Ingress;
    }
  }

  lemma {:induction false} EntryPersistsOverRun(s: State, steps: seq<Step>, key: CtKey)
    requires key in s.conntrack
    requires forall j | 0 <= j < |steps| :: !TouchesFlow(At(s, steps, j), steps[j], key)
    ensures var s' := Run(s, steps);
            && key in s'.conntrack && s'.conntrack[key] == s.conntrack[key]
            && s'.portal == s.portal && s'.ncpu == s.ncpu
  {
    hide Take, TouchesFlow;
    if steps != [] {
      var n := |steps| - 1;
      AtPrefix(s, steps, n);
      EntryPersistsOverRun(s, steps[..n], key);
      EntryPersists(Run(s, steps[..n]), steps[n], key);
    }
  }

  /** The portal's reply meets an entry of its flow that is at most 120 s old. */
  predicate YoungEntry(s: State, r: Frame, now: nat)
    requires IsTcp(r)
  {
    && CtKey(Daddr(r), Dport(r)) in s.conntrack
    && var created := s.conntrack[CtKey(Daddr(r), Dport(r))].created;
       created <= now < TWO_64 && now - created <= 120_000_000_000
  }

  lemma SnatEffect(s: State, r: Frame, now: nat)
    requires IsTcp(r) && Ihl(r) >= 5 && YoungEntry(s, r, now)
    ensures var v := s.conntrack[CtKey(Daddr(r), Dport(r))];
            Snat(s, r, now) == (Pass, Rewrite(r, Source, v.ip, v.port))
  {
  }

  lemma EgressOfReply(s: State, cpu: nat, r: Frame, now: nat)
    requires cpu < s.ncpu && IsTcp(r) && Saddr(r) == s.portal.ip
    ensures Egress(s, cpu, r, now) == (s, Hook(Snat(s, r, now).0, Snat(s, r, now).1, PortalReply, None))
  {
  }

  lemma RewrittenReply(r: Frame, ip: Ip, port: Word)
    requires IsTcp(r) && Ihl(r) >= 5
    ensures var g := Rewrite(r, Source, ip, port);
            && IsTcp(g) && Saddr(g) == ip && Sport(g) == port
            && Daddr(g) == Daddr(r) && Dport(g) == Dport(r)
            && |g.w| == |r.w| && OtherWordsSame(r, g, Source)
            && (IpChecksumOk(g) <==> IpChecksumOk(r))
            && (WholeSegment(r) ==> WholeSegment(g) && (TcpChecksumOk(g) <==> TcpChecksumOk(r)))
  {
    RewriteFields(r, Source, ip, port);
    RewriteKeepsOtherEnd(r, Source, ip, port);
    RewriteKeepsIpChecksum(r, Source, ip, port);
    if WholeSegment(r) {
      RewriteKeepsTcpChecksum(r, Source, ip, port);
    }
  }

  /** r' is what the client gets for the portal's reply r: a reply to its own frame f, with only
      the source address, source port and checksums changed, and the checksums verify exactly
      when they did before. */
  predicate ReplySeenByClient(r: Frame, r': Frame, f: Frame) {
    && IsTcp(r) && Ihl(r) >= 5 && |r'.w| == |r.w| && r'.len == r.len
    && IsReply(r', f) && OtherWordsSame(r, r', Source)
    && HasHeader(r') && (IpChecksumOk(r') <==> IpChecksumOk(r))
    && (WholeSegment(r) ==> WholeSegment(r') && (TcpChecksumOk(r') <==> TcpChecksumOk(r)))
  }

  lemma ReplyTranslated(s: State, cpu: nat, r: Frame, now: nat, f: Frame)
    requires IsTcp(f) && IsTcp(r) && Ihl(r) >= 5 && cpu < s.ncpu
    requires Saddr(r) == s.portal.ip && Daddr(r) == Saddr(f) && Dport(r) == Sport(f)
    requires YoungEntry(s, r, now)
    requires var v := s.conntrack[FlowOf(f)]; v.ip == Daddr(f) && v.port == Dport(f)
    ensures var o := Egress(s, cpu, r, now).1; o.verdict == Pass && ReplySeenByClient(r, o.out, f)
  {
    SnatEffect(s, r, now);
    EgressOfReply(s, cpu, r, now);
    RewrittenReply(r, Daddr(f), Dport(f));
  }

  lemma TakeEgress(s: State, cpu: nat, f: Frame, now: nat)
    requires cpu < s.ncpu
    ensures Take(s, EgressFrame(cpu, f, now)) == Egress(s, cpu, f, now)
  {
  }

  /** The translation round trip over a run: a frame is redirected at time t; after any steps that
      leave its flow's entry alone, the portal's reply within 120 s reaches the client as a reply
      to the frame it sent. */
  lemma RoundTrip(s: State, sent: Step, steps: seq<Step>, cpu: nat, r: Frame, now: nat)
    requires sent.IngressFrame? && RedirectedBy(s, sent) && IsTcp(sent.f)
    requires var s1 := Take(s, sent).0;
             forall j | 0 <= j < |steps| :: !TouchesFlow(At(s1, steps, j), steps[j], FlowOf(sent.f))
    requires IsReply(r, Take(s, sent).1.out) && Ihl(r) >= 5
    requires sent.now <= now < TWO_64 && now - sent.now <= 120_000_000_000
    requires cpu < s.ncpu
    ensures var o := Take(Run(Take(s, sent).0, steps), EgressFrame(cpu, r, now)).1;
            o.Hook? && o.verdict == Pass && ReplySeenByClient(r, o.out, sent.f)
  {
    hide Take, Rewrite, ReplySeenByClient, OtherWordsSame, TouchesFlow, RedirectedBy, Run, IpChecksumOk, WholeSegment;
    RedirectEffect(s, sent);
    RedirectedFrame(sent.f, s.portal);
    var s1 := Take(s, sent).0;
    EntryPersistsOverRun(s1, steps, FlowOf(sent.f));
    ReplyTranslated(Run(s1, steps), cpu, r, now, sent.f);
    TakeEgress(Run(s1, steps), cpu, r, now);
  }

  // ----- every frame of the portal --------------------------------------------------------

  /** The frame's flow has an entry that is at most 120 s old on the 64-bit clock. */
  predicate HasFreshEntry(s: State, f: Frame, now: nat)
    requires IsTcp(f)
  {
    && CtKey(Daddr(f), Dport(f)) in s.conntrack
    && (now - s.conntrack[CtKey(Daddr(f), Dport(f))].created) % 0x1_0000_0000_0000_0000 <= 120_000_000_000
  }

  /** Whatever the portal sends passes, unless its IP header is unsound. Only TCP whose flow has a
      fresh entry is translated; everything else leaves as it came. */
  lemma PortalFrames(s: State, cpu: nat, f: Frame, now: nat)
    requires cpu < s.ncpu && Classify(f).L3Ok? && Saddr(f) == s.portal.ip
    ensures var (s', o) := Egress(s, cpu, f, now);
            && s' == s && o.Hook?
            && o.verdict == (if HasHeader(f) then Pass else Drop)
            && o.out == if HasHeader(f) && IsTcp(f) && HasFreshEntry(s, f, now) then
                          var v := s.conntrack[CtKey(Daddr(f), Dport(f))]; Rewrite(f, Source, v.ip, v.port)
                        else f
  {
    hide RewriteAddr, RewritePort, ClientsAfter, CountersAfterEgress;
    if HasHeader(f) && IsTcp(f) && HasFreshEntry(s, f, now) {
      var v := s.conntrack[CtKey(Daddr(f), Dport(f))];
      RewriteAddrFields(f, Source, v.ip);
    }
  }

  /** The step redirects a frame of the flow. */
  ghost predicate RedirectsFlow(s: State, step: Step, key: CtKey) {
    RedirectedBy(s, step) && IsTcp(step.f) && FlowOf(step.f) == key
  }

  lemma NoEntryStep(s: State, step: Step, key: CtKey)
    requires key !in s.conntrack && !RedirectsFlow(s, step, key)
    ensures key !in Take(s, step).0.conntrack
  {
    if RedirectedBy(s, step) {
      RedirectEffect(s, step);
    } else {
      ConntrackStep(s, step);
    }
  }

  lemma {:induction false} NoEntryOverRun(s: State, steps: seq<Step>, key: CtKey)
    requires key !in s.conntrack
    requires forall j | 0 <= j < |steps| :: !RedirectsFlow(At(s, steps, j), steps[j], key)
    ensures key !in Run(s, steps).conntrack && Run(s, steps).portal == s.portal && Run(s, steps).ncpu == s.ncpu
  {
    hide Take, RedirectsFlow;
    if steps != [] {
      var n := |steps| - 1;
      AtPrefix(s, steps, n);
      NoEntryOverRun(s, steps[..n], key);
      assert At(s, steps, n) == Run(s, steps[..n]);
      NoEntryStep(Run(s, steps[..n]), steps[n], key);
    }
  }

  /** A client that talks to the portal directly: after every run in which no frame of its flow was
      redirected, the portal's reply leaves egress as it came. */
  lemma DirectReply(ncpu: Pos, portal: PortalCfg, ifb: nat, steps: seq<Step>, cpu: nat, r: Frame, now: nat)
    requires cpu < ncpu && IsTcp(r) && Ihl(r) >= 5 && Saddr(r) == portal.ip
    requires var s0 := Started(ncpu, portal, ifb);
             forall j | 0 <= j < |steps| :: !RedirectsFlow(At(s0, steps, j), steps[j], CtKey(Daddr(r), Dport(r)))
    ensures var o := Take(Run(Started(ncpu, portal, ifb), steps), EgressFrame(cpu, r, now)).1;
            o.Hook? && o.verdict == Pass && o.out == r
  {
    hide Run, Take, Egress, RedirectsFlow, Rewrite, Classify;
    NoEntryOverRun(Started(ncpu, portal, ifb), steps, CtKey(Daddr(r), Dport(r)));
    PortalFrames(Run(Started(ncpu, portal, ifb), steps), cpu, r, now);
    TakeEgress(Run(Started(ncpu, portal, ifb), steps), cpu, r, now);
  }

  // ----- what conntrack can hold ----------------------------------------------------------

  predicate FlowsAreHttp(s: State) {
    forall key | key in s.conntrack :: s.conntrack[key].port == 80 && s.conntrack[key].ip != s.portal.ip
  }

  /** In every reachable state each entry's original port is 80 and its original address is not
      the portal. */
  lemma {:induction false} ReachableFlows(ncpu: Pos, portal: PortalCfg, ifb: nat, steps: seq<Step>)
    ensures FlowsAreHttp(Run(Started(ncpu, portal, ifb), steps))
    ensures Run(Started(ncpu, portal, ifb), steps).portal == portal
  {
    if steps != [] {
      var n := |steps| - 1;
      ReachableFlows(ncpu, portal, ifb, steps[..n]);
      var s := Run(Started(ncpu, portal, ifb), steps[..n]);
      if RedirectedBy(s, steps[n]) {
        RedirectEffect(s, steps[n]);
      } else {
        ConntrackStep(s, steps[n]);
      }
    }
  }

  /** The login path asks hgctl to delete the flow's entry, but the port is not converted to
      network order: the entry goes exactly when the port's two bytes are equal. */
  lemma LoginRemovesEntryIff(s: State, key: CtKey)
    requires key in s.conntrack
    ensures key !in Take(s, MapDelConntrack(key.ip, key.port)).0.conntrack <==> key.port / 256 == key.port % 256
  {
  }
}
