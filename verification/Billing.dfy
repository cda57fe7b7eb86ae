/** The shaper and the accounting together: what a session's counters can gain. */
module Billing {
  import opened Net
  import opened Frames
  import opened Datapath
  import opened History
  import opened Sessions
  import opened Accounting
  import Edt

  /** The step is an upload of m that reached the shaper. */
  predicate Presents(s: State, step: Step, m: Mac) {
    var o := Take(s, step).1;
    step.IngressFrame? && IsIpv4(step.f) && SrcMac(step.f) == m && o.Hook? && o.path in AUTH_PATHS
  }

  function PktOf(step: Step, rate: Pos): Edt.Pkt
    requires step.IngressFrame?
  {
    Edt.Pkt(step.f.len, step.edt, Edt.Delay(step.f.len, rate))
  }

  /** The shaper let it through; whether it was counted depends on its address having a counter. */
  predicate Lets(s: State, step: Step, m: Mac) { Presents(s, step, m) && Take(s, step).1.path != OverHorizon }

  /** The uploads of m that reached the shaper, and those it let through. */
  function Presented(s: State, steps: seq<Step>, m: Mac, rate: Pos): seq<Edt.Pkt> {
    if steps == [] then [] else
      var n := |steps| - 1;
      var before := Presented(s, steps[..n], m, rate);
      if Presents(Run(s, steps[..n]), steps[n], m) then before + [PktOf(steps[n], rate)] else before
  }

  function LetThrough(s: State, steps: seq<Step>, m: Mac, rate: Pos): seq<Edt.Pkt> {
    if steps == [] then [] else
      var n := |steps| - 1;
      var before := LetThrough(s, steps[..n], m, rate);
      if Lets(Run(s, steps[..n]), steps[n], m) then before + [PktOf(steps[n], rate)] else before
  }

  /** During step, m has a session under this profile, and the step neither renews nor ends it. */
  predicate InSession(s: State, step: Step, m: Mac, rate: Pos, h: nat) {
    && m in s.clients && ProfileOf(s.rates, s.clients[m], true) == Some((rate, Some(h)))
    && !GrantsTo(s, step, m) && !Revokes(step, Take(s, step).1, m)
  }

  lemma UploadFrame(s: State, cpu: nat, f: Frame, now: nat, edt: nat, m: Mac, rate: Pos, h: nat)
    requires cpu < s.ncpu && m in s.clients && ProfileOf(s.rates, s.clients[m], true) == Some((rate, Some(h)))
    requires IsIpv4(f) && SrcMac(f) == m && Ingress(s, cpu, f, now, edt).1.path in AUTH_PATHS
    ensures var (s', o), p := Ingress(s, cpu, f, now, edt), Edt.Pkt(f.len, edt, Edt.Delay(f.len, rate));
            && m in s'.clients && s'.clients[m].lastU == Edt.Shape(s.clients[m].lastU, p, Some(h))
            && (o.path != OverHorizon <==> Edt.Admits(s.clients[m].lastU, p, Some(h)))
            && o.stamp == (if o.path != OverHorizon then Some(Edt.Next(s.clients[m].lastU, p)) else None)
  {
    IngressStamp(s, cpu, f, now, edt);
    hide Ingress, Edt.Delay, Edt.Next, CountersAfterIngress;
  }

  /** A frame that reached the shaper carries the stamp that its critical section wrote, if any. */
  lemma IngressStamp(s: State, cpu: nat, f: Frame, now: nat, edt: nat)
    requires cpu < s.ncpu && IsIpv4(f)
    ensures var o := Ingress(s, cpu, f, now, edt).1;
            if o.path in AUTH_PATHS then
              SrcMac(f) in s.clients && o.stamp == ApplyEdt(s.rates, s.clients[SrcMac(f)], f.len, edt, true).stamp
            else o.stamp == None
  {
    hide Ingress, ApplyEdt, Learn, IngressClient, Classify;
    var t := Learn(s, SrcMac(f), Saddr(f));
    AsksClient(s, cpu, f, now, edt);
    if Classify(f).L3Ok? {
      ClientStamp(t, cpu, f, Classify(f).key, now, edt);
    }
  }

  /** Only the client step can leave a stamp. */
  lemma AsksClient(s: State, cpu: nat, f: Frame, now: nat, edt: nat)
    requires cpu < s.ncpu && IsIpv4(f)
    ensures var (o, t) := (Ingress(s, cpu, f, now, edt).1, Learn(s, SrcMac(f), Saddr(f)));
            || (o.stamp == None && o.path !in AUTH_PATHS)
            || (Classify(f).L3Ok? && o == IngressClient(t, cpu, f, Classify(f).key, now, edt).1)
  {
    hide Learn, IngressClient, Classify, ClientsAfter, CountersAfterIngress, AtPortalPort;
  }

  lemma ClientStamp(s: State, cpu: nat, f: Frame, key: AllowKey, now: nat, edt: nat)
    requires IsIpv4(f) && cpu < s.ncpu
    ensures var o := IngressClient(s, cpu, f, key, now, edt).1;
            if o.path in AUTH_PATHS then
              SrcMac(f) in s.clients && o.stamp == ApplyEdt(s.rates, s.clients[SrcMac(f)], f.len, edt, true).stamp
            else o.stamp == None
  {
    hide ApplyEdt, IngressGuest, IngressAuth, ClientsAfter, CountersAfterIngress;
    GuestStamp(s, f, key, now);
    if SrcMac(f) in s.clients {
      AuthStamp(s, cpu, f, now, edt);
    }
  }

  lemma AuthStamp(s: State, cpu: nat, f: Frame, now: nat, edt: nat)
    requires IsIpv4(f) && SrcMac(f) in s.clients && cpu < s.ncpu
    ensures var o := IngressAuth(s, cpu, f, now, edt).1;
            o.stamp == if o.path in AUTH_PATHS then ApplyEdt(s.rates, s.clients[SrcMac(f)], f.len, edt, true).stamp
                       else None
  {
    hide ClientsAfter, CountersAfterIngress, Edt.Next, Edt.Delay;
  }

  lemma GuestStamp(s: State, f: Frame, key: AllowKey, now: nat)
    requires IsIpv4(f)
    ensures IngressGuest(s, f, key, now).1.stamp == None
  {
    hide Redirect, ProtoAllowed, Native;
  }

  lemma OtherStepsKeepUpStamp(s: State, step: Step, m: Mac, rate: Pos, h: nat)
    requires InSession(s, step, m, rate, h) && !Presents(s, step, m)
    ensures m in Take(s, step).0.clients && Take(s, step).0.clients[m].lastU == s.clients[m].lastU
  {
    hide Ingress, Egress, ApplyEdt, CountersAfterIngress, CountersAfterEgress;
    if !step.IngressFrame? && !step.EgressFrame? {
      ActionsKeepEntry(s, step, m);
      hide Take, ProfileOf;
    }
  }

  /** An action that neither grants nor ends the session leaves the whole entry alone. */
  lemma ActionsKeepEntry(s: State, step: Step, m: Mac)
    requires !step.IngressFrame? && !step.EgressFrame?
    requires m in s.clients && !GrantsTo(s, step, m) && !Revokes(step, Take(s, step).1, m)
    ensures m in Take(s, step).0.clients && Take(s, step).0.clients[m] == s.clients[m]
  {
    hide Ingress, Egress, Add, Del, Apply, NewClient, Zeros, Resolve;
  }

  lemma UploadStep(s: State, step: Step, m: Mac, rate: Pos, h: nat)
    requires InSession(s, step, m, rate, h)
    ensures m in Take(s, step).0.clients
    ensures var last, last' := s.clients[m].lastU, Take(s, step).0.clients[m].lastU;
            if Presents(s, step, m) then
              && last' == Edt.Shape(last, PktOf(step, rate), Some(h))
              && (Lets(s, step, m) <==> Edt.Admits(last, PktOf(step, rate), Some(h)))
              && Take(s, step).1.stamp ==
                 (if Lets(s, step, m) then Some(Edt.Next(last, PktOf(step, rate))) else None)
            else last' == last
  {
    hide Ingress, Egress, Add, Del, Edt.Next, Edt.Delay, Edt.Admits, Edt.Shape, ApplyEdt, ProfileOf;
    if Presents(s, step, m) {
      UploadFrame(s, step.cpu, step.f, step.now, step.edt, m, rate, h);
    } else {
      OtherStepsKeepUpStamp(s, step, m, rate, h);
    }
  }

  /** The stamps written on the uploads let through. */
  function StampsUp(s: State, steps: seq<Step>, m: Mac): seq<Option<nat>> {
    if steps == [] then [] else
      var n := |steps| - 1;
      var z := Run(s, steps[..n]);
      var before := StampsUp(s, steps[..n], m);
      if Lets(z, steps[n], m) then before + [Take(z, steps[n]).1.stamp] else before
  }

  lemma PresentedStep(s: State, steps: seq<Step>, m: Mac, rate: Pos)
    requires steps != []
    ensures var n := |steps| - 1;
            var z := Run(s, steps[..n]);
            && Presented(s, steps, m, rate) ==
               Presented(s, steps[..n], m, rate) + (if Presents(z, steps[n], m) then [PktOf(steps[n], rate)] else [])
            && LetThrough(s, steps, m, rate) ==
               LetThrough(s, steps[..n], m, rate) + (if Lets(z, steps[n], m) then [PktOf(steps[n], rate)] else [])
            && StampsUp(s, steps, m) ==
               StampsUp(s, steps[..n], m) + (if Lets(z, steps[n], m) then [Take(z, steps[n]).1.stamp] else [])
  {
    hide Run, Take, PktOf;
  }

  /** Throughout a session under one profile the stored upload stamp is the shaper run over the
      uploads presented, and the uploads let through are exactly those it accepts, whatever
      addresses they come from. */
  lemma {:induction false} SessionIsShaperRun(s: State, steps: seq<Step>, m: Mac, rate: Pos, h: nat)
    requires m in s.clients
    requires forall j | 0 <= j < |steps| :: InSession(At(s, steps, j), steps[j], m, rate, h)
    ensures var ps, z, last := Presented(s, steps, m, rate), Run(s, steps), s.clients[m].lastU;
            && m in z.clients && z.clients[m].lastU == Edt.Run(last, ps, Some(h))
            && LetThrough(s, steps, m, rate) == Edt.Accepted(last, ps, Some(h))
            && StampsUp(s, steps, m) == Somes(Edt.Stamps(last, ps, Some(h)))
            && Edt.UnderRate(ps, rate)
  {
    hide Take, InSession, Presents, Lets, Edt.Admits, Edt.Shape, Edt.Delay, Edt.Next, Edt.UnderRate, PktOf;
    if steps == [] {
      assert Edt.UnderRate([], rate) by { NothingUnderRate(rate); }
    } else {
      var n := |steps| - 1;
      AtPrefix(s, steps, n);
      SessionIsShaperRun(s, steps[..n], m, rate, h);
      var z, step := Run(s, steps[..n]), steps[n];
      assert At(s, steps, n) == z && Run(s, steps) == Take(z, step).0;
      PresentedStep(s, steps, m, rate);
      hide Run, Presented, LetThrough, StampsUp, Edt.Run, Edt.Accepted, Edt.Stamps, Somes;
      UploadStep(z, step, m, rate, h);
      var ps, last := Presented(s, steps[..n], m, rate), s.clients[m].lastU;
      LetsPresents(z, step, m);
      if Presents(z, step, m) {
        AppendPkt(last, ps, PktOf(step, rate), Some(h));
        UnderRateAppends(ps, step, rate);
      }
    }
  }

  lemma LetsPresents(s: State, step: Step, m: Mac)
    ensures Lets(s, step, m) ==> Presents(s, step, m)
    ensures Presents(s, step, m) ==> step.IngressFrame?
  {
    hide Take;
  }

  lemma NothingUnderRate(rate: Pos)
    ensures Edt.UnderRate([], rate)
  {
  }

  lemma UnderRateAppends(ps: seq<Edt.Pkt>, step: Step, rate: Pos)
    requires Edt.UnderRate(ps, rate) && step.IngressFrame?
    ensures Edt.UnderRate(ps + [PktOf(step, rate)], rate)
  {
    hide Edt.Delay;
  }

  function Somes(ts: seq<nat>): seq<Option<nat>> {
    if ts == [] then [] else Somes(ts[..|ts| - 1]) + [Some(ts[|ts| - 1])]
  }

  lemma AppendPkt(last: nat, ps: seq<Edt.Pkt>, p: Edt.Pkt, h: Edt.Horizon)
    ensures Edt.Run(last, ps + [p], h) == Edt.Shape(Edt.Run(last, ps, h), p, h)
    ensures Edt.Accepted(last, ps + [p], h) ==
            if Edt.Admits(Edt.Run(last, ps, h), p, h) then Edt.Accepted(last, ps, h) + [p]
            else Edt.Accepted(last, ps, h)
    ensures Somes(Edt.Stamps(last, ps + [p], h)) ==
            Somes(Edt.Stamps(last, ps, h))
            + (if Edt.Admits(Edt.Run(last, ps, h), p, h) then [Some(Edt.Next(Edt.Run(last, ps, h), p))] else [])
  {
    Edt.RunAppends(last, ps, p, h);
    StampsAppend(last, ps, p, h);
  }

  lemma StampsAppend(last: nat, ps: seq<Edt.Pkt>, p: Edt.Pkt, h: Edt.Horizon)
    ensures Somes(Edt.Stamps(last, ps + [p], h)) ==
            Somes(Edt.Stamps(last, ps, h))
            + (if Edt.Admits(Edt.Run(last, ps, h), p, h) then [Some(Edt.Next(Edt.Run(last, ps, h), p))] else [])
  {
    hide Edt.Admits, Edt.Next, Edt.Run;
    var all := ps + [p];
    assert all[..|all| - 1] == ps && all[|all| - 1] == p;
    var ts := Edt.Stamps(last, ps, h);
    var more := ts + [Edt.Next(Edt.Run(last, ps, h), p)];
    assert more[..|more| - 1] == ts && more[|more| - 1] == Edt.Next(Edt.Run(last, ps, h), p);
  }

  /** Within a session the uploads let through between any two of them obey the profile's rate,
      whatever the CPUs' samples and whatever else happens in between. */
  lemma SessionRate(s: State, steps: seq<Step>, m: Mac, rate: Pos, h: nat, i: nat, k: nat)
    requires m in s.clients
    requires forall j | 0 <= j < |steps| :: InSession(At(s, steps, j), steps[j], m, rate, h)
    requires i <= k < |LetThrough(s, steps, m, rate)|
    ensures var c := LetThrough(s, steps, m, rate);
            Edt.Bytes(c, i, k + 1) * NSEC_PER_SEC
            <= rate * (c[k].now - c[i].now + h) + (k - i + 1) * (rate - 1)
  {
    hide Take, InSession, Edt.Bytes, Edt.Accepted, Edt.Run, LetThrough, Presented, Run;
    SessionIsShaperRun(s, steps, m, rate, h);
    Edt.RateBound(s.clients[m].lastU, Presented(s, steps, m, rate), rate, h, i, k);
  }

  /** The departure stamps written on the uploads let through, those shot later for want of a counter
      included, are at least each packet's own delay apart, never before its sample plus its delay,
      and never beyond the horizon. */
  lemma UploadsAreSpaced(s: State, steps: seq<Step>, m: Mac, rate: Pos, h: nat)
    requires m in s.clients
    requires forall j | 0 <= j < |steps| :: InSession(At(s, steps, j), steps[j], m, rate, h)
    ensures var last := s.clients[m].lastU;
            var ts := Edt.Stamps(last, Presented(s, steps, m, rate), Some(h));
            && StampsUp(s, steps, m) == Somes(ts)
            && |ts| == |LetThrough(s, steps, m, rate)| && Edt.Spaced(last, LetThrough(s, steps, m, rate), ts, Some(h))
  {
    hide Take, InSession, Presented, LetThrough, StampsUp, Somes, Run, Edt.Spaced, Edt.Run, Edt.Accepted;
    SessionIsShaperRun(s, steps, m, rate, h);
    Edt.StampSpacing(s.clients[m].lastU, Presented(s, steps, m, rate), Some(h));
  }

  /** A frame of a client without a profile in its direction is neither stamped nor shot by the
      shaper, and leaves the client's entry alone. */
  lemma UnshapedIsUntouched(s: State, step: Step, m: Mac)
    requires m in s.clients
    requires (Presents(s, step, m) && ProfileOf(s.rates, s.clients[m], true) == None)
             || (PresentsDown(s, step, m) && ProfileOf(s.rates, s.clients[m], false) == None)
    ensures var (s', o) := Take(s, step);
            o.stamp == None && o.path != OverHorizon && s'.clients == s.clients
  {
    if step.IngressFrame? {
      IngressStamp(s, step.cpu, step.f, step.now, step.edt);
      hide Ingress, CountersAfterIngress;
    } else {
      EgressStamp(s, step.cpu, step.f, step.now);
      hide Egress, CountersAfterEgress;
    }
  }

  lemma EgressStamp(s: State, cpu: nat, f: Frame, now: nat)
    requires cpu < s.ncpu && IsIpv4(f)
    ensures var o := Egress(s, cpu, f, now).1;
            if o.path in AUTH_PATHS then
              && Daddr(f) in s.ipMac && s.ipMac[Daddr(f)] in s.clients
              && o.stamp == ApplyEdt(s.rates, s.clients[s.ipMac[Daddr(f)]], f.len, now, false).stamp
            else o.stamp == None
  {
    hide Snat, EgressGuest, EgressAuth, Classify, ClientsAfter, CountersAfterEgress, ApplyEdt;
    if Daddr(f) in s.ipMac && s.ipMac[Daddr(f)] in s.clients {
      DownStamp(s, cpu, f, s.ipMac[Daddr(f)], now);
    }
    DownGuestStamp(s, f, Classify(f));
  }

  lemma DownStamp(s: State, cpu: nat, f: Frame, mac: Mac, now: nat)
    requires IsIpv4(f) && mac in s.clients && cpu < s.ncpu
    ensures EgressAuth(s, cpu, f, mac, now).1.stamp == ApplyEdt(s.rates, s.clients[mac], f.len, now, false).stamp
  {
    hide ClientsAfter, CountersAfterEgress, Edt.Next, Edt.Delay;
  }

  lemma DownGuestStamp(s: State, f: Frame, c: Class)
    requires IsIpv4(f)
    ensures c.L3Ok? ==> EgressGuest(s, f, c.key).1.stamp == None
  {
    hide ProtoAllowed, Native;
  }

  // ----- the counters of one address ------------------------------------------------------

  /** The step is an upload counted at ip. */
  predicate CountsAt(s: State, step: Step, ip: Ip) {
    var o := Take(s, step).1;
    step.IngressFrame? && o.Hook? && o.path == Authenticated && IsIpv4(step.f) && Saddr(step.f) == ip
  }

  function Counted(s: State, steps: seq<Step>, ip: Ip, rate: Pos): seq<Edt.Pkt> {
    if steps == [] then [] else
      var n := |steps| - 1;
      var before := Counted(s, steps[..n], ip, rate);
      if CountsAt(Run(s, steps[..n]), steps[n], ip) then before + [PktOf(steps[n], rate)] else before
  }

  /** One MAC per address: what is counted at ip comes from m. */
  predicate SoleUser(s: State, step: Step, m: Mac, ip: Ip) { CountsAt(s, step, ip) ==> SrcMac(step.f) == m }

  function Uploaded(s: State, ip: Ip): nat
    requires ip in s.counters
  {
    Total(s.counters[ip]).uBytes
  }

  lemma TotalKeepsUp(s: State, step: Step, r: (State, Outcome), ip: Ip)
    requires ip in s.counters && CounterFollows(s, step, r, ip)
    requires !(r.1.Added? && r.1.ip == ip) && !(r.1.Deleted? && r.1.bound == Some(ip))
    ensures ip in r.0.counters
    ensures var up := step.IngressFrame? && r.1.Hook? && r.1.path == Authenticated && IsIpv4(step.f)
                      && Saddr(step.f) == ip;
            && Uploaded(r.0, ip) == Uploaded(s, ip) + (if up then step.f.len else 0)
            && Total(r.0.counters[ip]).uPackets == Total(s.counters[ip]).uPackets + (if up then 1 else 0)
  {
    hide Total;
    if (step.IngressFrame? || step.EgressFrame?) && step.cpu < s.ncpu {
      var row, c := s.counters[ip], s.counters[ip][step.cpu];
      if step.IngressFrame? {
        TotalUpdate(row, step.cpu, CountUp(c, step.f.len, step.now));
        TotalUpdate(row, step.cpu, c.(state := EXPIRE));
      } else {
        TotalUpdate(row, step.cpu, CountDown(c, step.f.len));
      }
    }
  }

  lemma UploadedStep(s: State, step: Step, ip: Ip)
    requires ip in s.counters && KeepsCounter(s, step, ip)
    ensures var z := Take(s, step).0;
            && ip in z.counters
            && Uploaded(z, ip) == Uploaded(s, ip) + (if CountsAt(s, step, ip) then step.f.len else 0)
            && Total(z.counters[ip]).uPackets ==
               Total(s.counters[ip]).uPackets + (if CountsAt(s, step, ip) then 1 else 0)
  {
    hide Take, CounterFollows, Uploaded, Total;
    CounterStep(s, step, ip);
    TotalKeepsUp(s, step, Take(s, step), ip);
  }

  lemma NoBytes()
    ensures Edt.Bytes([], 0, 0) == 0
  {
  }

  lemma AppendBytes(c: seq<Edt.Pkt>, p: Edt.Pkt)
    ensures Edt.Bytes(c + [p], 0, |c| + 1) == Edt.Bytes(c, 0, |c|) + p.len
  {
    Edt.LoadPrefix(c, c + [p], 0, |c|);
  }

  lemma CountedStep(s: State, steps: seq<Step>, ip: Ip, rate: Pos)
    requires steps != []
    ensures var n := |steps| - 1;
            Counted(s, steps, ip, rate) ==
            Counted(s, steps[..n], ip, rate)
            + (if CountsAt(Run(s, steps[..n]), steps[n], ip) then [PktOf(steps[n], rate)] else [])
  {
    hide Run, Take, PktOf;
  }

  /** What the counter of an address gains is what was counted there. */
  lemma {:induction false} GainIsCounted(s: State, steps: seq<Step>, ip: Ip, rate: Pos)
    requires ip in s.counters
    requires forall j | 0 <= j < |steps| :: KeepsCounter(At(s, steps, j), steps[j], ip)
    ensures var c, z := Counted(s, steps, ip, rate), Run(s, steps);
            && ip in z.counters
            && Uploaded(z, ip) == Uploaded(s, ip) + Edt.Bytes(c, 0, |c|)
            && Total(z.counters[ip]).uPackets == Total(s.counters[ip]).uPackets + |c|
  {
    hide Take, KeepsCounter, CountsAt, Uploaded, Total, Edt.Bytes, Edt.Delay;
    if steps == [] {
      assert Edt.Bytes([], 0, 0) == 0 by { NoBytes(); }
    } else {
      var n := |steps| - 1;
      AtPrefix(s, steps, n);
      GainIsCounted(s, steps[..n], ip, rate);
      var z, step := Run(s, steps[..n]), steps[n];
      assert At(s, steps, n) == z && Run(s, steps) == Take(z, step).0;
      CountedStep(s, steps, ip, rate);
      hide Run, Counted, At;
      UploadedStep(z, step, ip);
      CountsAtIsIngress(z, step, ip);
      if CountsAt(z, step, ip) {
        AppendBytes(Counted(s, steps[..n], ip, rate), PktOf(step, rate));
      }
    }
  }

  lemma CountsAtIsIngress(s: State, step: Step, ip: Ip)
    ensures CountsAt(s, step, ip) ==> step.IngressFrame? && IsIpv4(step.f)
  {
    hide Take;
  }

  /** The positions, among the uploads of m let through, of those counted at ip. */
  function Positions(s: State, steps: seq<Step>, m: Mac, ip: Ip, rate: Pos): seq<nat> {
    if steps == [] then [] else
      var n := |steps| - 1;
      var before := Positions(s, steps[..n], m, ip, rate);
      if CountsAt(Run(s, steps[..n]), steps[n], ip) then before + [|LetThrough(s, steps[..n], m, rate)|] else before
  }

  lemma CountedIsLet(s: State, step: Step, m: Mac, ip: Ip)
    requires CountsAt(s, step, ip) && SoleUser(s, step, m, ip)
    ensures Lets(s, step, m)
  {
    hide Take;
  }

  lemma PicksMore(sub: seq<Edt.Pkt>, acc: seq<Edt.Pkt>, at: seq<nat>, p: Edt.Pkt)
    requires Edt.Picks(sub, acc, at)
    ensures Edt.Picks(sub, acc + [p], at) && Edt.Picks(sub + [p], acc + [p], at + [|acc|])
  {
  }

  lemma {:induction false} CountedArePicked(s: State, steps: seq<Step>, m: Mac, ip: Ip, rate: Pos)
    requires forall j | 0 <= j < |steps| :: SoleUser(At(s, steps, j), steps[j], m, ip)
    ensures Edt.Picks(Counted(s, steps, ip, rate), LetThrough(s, steps, m, rate), Positions(s, steps, m, ip, rate))
  {
    if steps != [] {
      hide Take, SoleUser, CountsAt, Lets, Edt.Picks, PktOf;
      var n := |steps| - 1;
      AtPrefix(s, steps, n);
      CountedArePicked(s, steps[..n], m, ip, rate);
      var z, step := Run(s, steps[..n]), steps[n];
      assert At(s, steps, n) == z;
      CountedStep(s, steps, ip, rate);
      PresentedStep(s, steps, m, rate);
      hide Run, Counted, LetThrough, Presented;
      CountsAtIsIngress(z, step, ip);
      LetsPresents(z, step, m);
      if CountsAt(z, step, ip) {
        CountedIsLet(z, step, m, ip);
      }
      if Lets(z, step, m) {
        PicksMore(Counted(s, steps[..n], ip, rate), LetThrough(s, steps[..n], m, rate),
                  Positions(s, steps[..n], m, ip, rate), PktOf(step, rate));
      }
    }
  }

  /** The uploads of the session counted at one address obey the rate between any two of them. */
  lemma CountedRate(s: State, steps: seq<Step>, m: Mac, ip: Ip, rate: Pos, h: nat, i: nat, k: nat)
    requires m in s.clients
    requires forall j | 0 <= j < |steps| ::
               InSession(At(s, steps, j), steps[j], m, rate, h) && SoleUser(At(s, steps, j), steps[j], m, ip)
    requires i <= k < |Counted(s, steps, ip, rate)|
    ensures var c := Counted(s, steps, ip, rate);
            Edt.Bytes(c, i, k + 1) * NSEC_PER_SEC
            <= rate * (c[k].now - c[i].now + h) + (k - i + 1) * (rate - 1)
  {
    hide Take, InSession, SoleUser, Edt.Bytes, Edt.Accepted, Edt.Run, Edt.Picks, Counted,
         LetThrough, Presented, Positions, Run;
    SessionIsShaperRun(s, steps, m, rate, h);
    CountedArePicked(s, steps, m, ip, rate);
    Edt.PickedRateBound(s.clients[m].lastU, Presented(s, steps, m, rate), rate, h,
                        Counted(s, steps, ip, rate), Positions(s, steps, m, ip, rate), i, k);
  }

  /** Accounting composed with shaping: in a session under one profile, the upload bytes that the
      reader sees added at an address only the session's MAC is counted at obey the rate, over the
      time between the first and the last frame counted there. The MAC may meanwhile send from
      other addresses, counted there or shot for want of a counter. */
  lemma CounterGainObeysRate(s: State, steps: seq<Step>, m: Mac, ip: Ip, rate: Pos, h: nat)
    requires m in s.clients && ip in s.counters
    requires forall j | 0 <= j < |steps| ::
               && InSession(At(s, steps, j), steps[j], m, rate, h)
               && SoleUser(At(s, steps, j), steps[j], m, ip) && KeepsCounter(At(s, steps, j), steps[j], ip)
    ensures var c, z := Counted(s, steps, ip, rate), Run(s, steps);
            && ip in z.counters
            && Total(z.counters[ip]).uPackets - Total(s.counters[ip]).uPackets == |c|
            && (c == [] ==> Uploaded(z, ip) == Uploaded(s, ip))
            && (c != [] ==> (Uploaded(z, ip) - Uploaded(s, ip)) * NSEC_PER_SEC
                            <= rate * (c[|c| - 1].now - c[0].now + h) + |c| * (rate - 1))
  {
    hide Take, InSession, SoleUser, KeepsCounter, Counted, Uploaded, Total, Run, Edt.Bytes;
    GainIsCounted(s, steps, ip, rate);
    var c := Counted(s, steps, ip, rate);
    if c != [] {
      CountedRate(s, steps, m, ip, rate, h, 0, |c| - 1);
    } else {
      NoBytes();
    }
  }

  // ----- downloads ------------------------------------------------------------------------

  /** The step is a download to m that reached the shaper. */
  predicate PresentsDown(s: State, step: Step, m: Mac) {
    var o := Take(s, step).1;
    && step.EgressFrame? && IsIpv4(step.f) && Daddr(step.f) in s.ipMac && s.ipMac[Daddr(step.f)] == m
    && o.Hook? && o.path in AUTH_PATHS
  }

  function PktDown(step: Step, rate: Pos): Edt.Pkt
    requires step.EgressFrame?
  {
    Edt.Pkt(step.f.len, step.now, Edt.Delay(step.f.len, rate))
  }

  /** The downloads to m that reached the shaper, and the stamps written on them. */
  function PresentedDown(s: State, steps: seq<Step>, m: Mac, rate: Pos): seq<Edt.Pkt> {
    if steps == [] then [] else
      var n := |steps| - 1;
      var before := PresentedDown(s, steps[..n], m, rate);
      if PresentsDown(Run(s, steps[..n]), steps[n], m) then before + [PktDown(steps[n], rate)] else before
  }

  function StampsDown(s: State, steps: seq<Step>, m: Mac): seq<Option<nat>> {
    if steps == [] then [] else
      var n := |steps| - 1;
      var before := StampsDown(s, steps[..n], m);
      if PresentsDown(Run(s, steps[..n]), steps[n], m) then before + [Take(Run(s, steps[..n]), steps[n]).1.stamp]
      else before
  }

  /** During step, m has a session under this download rate, which the step neither renews nor ends. */
  predicate InDownSession(s: State, step: Step, m: Mac, rate: Pos) {
    && m in s.clients && ProfileOf(s.rates, s.clients[m], false) == Some((rate, None))
    && !GrantsTo(s, step, m) && !Revokes(step, Take(s, step).1, m)
  }

  lemma DownloadFrame(s: State, cpu: nat, f: Frame, now: nat, m: Mac, rate: Pos)
    requires cpu < s.ncpu && m in s.clients && ProfileOf(s.rates, s.clients[m], false) == Some((rate, None))
    requires IsIpv4(f) && Daddr(f) in s.ipMac && s.ipMac[Daddr(f)] == m && Egress(s, cpu, f, now).1.path in AUTH_PATHS
    ensures var (s', o) := Egress(s, cpu, f, now);
            var stamp := Edt.Next(s.clients[m].lastD, Edt.Pkt(f.len, now, Edt.Delay(f.len, rate)));
            m in s'.clients && s'.clients[m].lastD == stamp && o.stamp == Some(stamp)
  {
    hide Snat, ProtoAllowed, Native, CountersAfterEgress, ClientsAfter, Edt.Delay, Edt.Next;
  }

  lemma OtherStepsKeepDownStamp(s: State, step: Step, m: Mac, rate: Pos)
    requires InDownSession(s, step, m, rate) && !PresentsDown(s, step, m)
    ensures m in Take(s, step).0.clients && Take(s, step).0.clients[m].lastD == s.clients[m].lastD
  {
    hide Ingress, Egress, ApplyEdt, CountersAfterIngress, CountersAfterEgress;
    if !step.IngressFrame? && !step.EgressFrame? {
      ActionsKeepEntry(s, step, m);
      hide Take, ProfileOf;
    }
  }

  lemma DownloadStep(s: State, step: Step, m: Mac, rate: Pos)
    requires InDownSession(s, step, m, rate)
    ensures m in Take(s, step).0.clients
    ensures var last, last' := s.clients[m].lastD, Take(s, step).0.clients[m].lastD;
            if PresentsDown(s, step, m) then
              last' == Edt.Next(last, PktDown(step, rate)) && Take(s, step).1.stamp == Some(last')
            else last' == last
  {
    hide Ingress, Egress, Add, Del, Edt.Next, Edt.Delay, ApplyEdt;
    if PresentsDown(s, step, m) {
      DownloadFrame(s, step.cpu, step.f, step.now, m, rate);
    } else {
      OtherStepsKeepDownStamp(s, step, m, rate);
    }
  }

  lemma AppendDown(last: nat, ps: seq<Edt.Pkt>, p: Edt.Pkt)
    ensures var ts, ts' := Edt.Stamps(last, ps, None), Edt.Stamps(last, ps + [p], None);
            && Edt.Run(last, ps + [p], None) == Edt.Next(Edt.Run(last, ps, None), p)
            && Edt.Accepted(last, ps + [p], None) == Edt.Accepted(last, ps, None) + [p]
            && Somes(ts') == Somes(ts) + [Some(Edt.Next(Edt.Run(last, ps, None), p))]
  {
    hide Edt.Run, Edt.Accepted, Edt.Stamps, Somes;
    AppendPkt(last, ps, p, None);
  }

  lemma {:induction false} SessionIsDownloadRun(s: State, steps: seq<Step>, m: Mac, rate: Pos)
    requires m in s.clients
    requires forall j | 0 <= j < |steps| :: InDownSession(At(s, steps, j), steps[j], m, rate)
    ensures var ps, z, last := PresentedDown(s, steps, m, rate), Run(s, steps), s.clients[m].lastD;
            && m in z.clients && z.clients[m].lastD == Edt.Run(last, ps, None)
            && Edt.Accepted(last, ps, None) == ps
            && StampsDown(s, steps, m) == Somes(Edt.Stamps(last, ps, None))
  {
    hide Take, InDownSession, PresentsDown, PktDown, Edt.Next;
    if steps != [] {
      var n := |steps| - 1;
      AtPrefix(s, steps, n);
      SessionIsDownloadRun(s, steps[..n], m, rate);
      var z, step := Run(s, steps[..n]), steps[n];
      assert At(s, steps, n) == z;
      DownloadStep(z, step, m, rate);
      if PresentsDown(z, step, m) {
        PresentsDownIsEgress(z, step, m);
        AppendDown(s.clients[m].lastD, PresentedDown(s, steps[..n], m, rate), PktDown(step, rate));
        hide Edt.Run, Edt.Accepted, Edt.Stamps, Somes;
      }
    }
  }

  lemma PresentsDownIsEgress(s: State, step: Step, m: Mac)
    requires PresentsDown(s, step, m)
    ensures step.EgressFrame?
  {
    hide Take;
  }

  /** Downloads are never shot by the shaper, and over a session under one profile the departure
      stamps written on them are at least each packet's own delay apart, in the order of the run. */
  lemma DownloadsAreSpaced(s: State, steps: seq<Step>, m: Mac, rate: Pos)
    requires m in s.clients
    requires forall j | 0 <= j < |steps| :: InDownSession(At(s, steps, j), steps[j], m, rate)
    ensures var ps, last := PresentedDown(s, steps, m, rate), s.clients[m].lastD;
            var ts := Edt.Stamps(last, ps, None);
            && StampsDown(s, steps, m) == Somes(ts)
            && |ts| == |ps| && Edt.Spaced(last, ps, ts, None)
  {
    hide Take, InDownSession, PresentedDown, StampsDown, Somes, Run, Edt.Spaced;
    SessionIsDownloadRun(s, steps, m, rate);
    Edt.StampSpacing(s.clients[m].lastD, PresentedDown(s, steps, m, rate), None);
  }
}
