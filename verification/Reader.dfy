/** The map reader, what the CAPPORT endpoint concludes from it, and when it agrees with the
    datapath. */
module Reader {
  import opened Net
  import opened Frames
  import opened Datapath
  import opened Sessions
  import opened Accounting
  import opened Bindings

  datatype Stats = Stats(ip: Ip, upBytes: nat, upPackets: nat, dnBytes: nat, dnPackets: nat, state: nat,
                         rateId: nat, rateDown: nat, rateUp: nat)

  const NO_CLIENT := Client(0, 0, 0, 0, 0, 0)
  const NO_RATE := RateCfg(0, 0, 0)

  function BpsToKbit(b: nat): nat { b * 8 / 1000 }

  predicate IsExpired(c: Client, now: nat) { c.expiry != 0 && c.expiry <= now }

  /** The client entry found through ip_mac; all zero when there is none. */
  function ClientAt(s: State, ip: Ip): Client {
    if ip in s.ipMac && s.ipMac[ip] in s.clients then s.clients[s.ipMac[ip]] else NO_CLIENT
  }

  function RateAt(s: State, c: Client): RateCfg {
    if c.rateId != RATE_ID_NO_LIMIT && c.rateId in s.rates then s.rates[c.rateId] else NO_RATE
  }

  /** The expiry check takes priority over the counters' state. */
  function FillStats(ip: Ip, agg: Counter, c: Client, rate: RateCfg, now: nat): Stats {
    Stats(ip, agg.uBytes, agg.uPackets, agg.dBytes, agg.dPackets,
          if IsExpired(c, now) then EXPIRE else agg.state,
          c.rateId, BpsToKbit(rate.rateD), BpsToKbit(rate.rateU))
  }

  function StatsAt(s: State, ip: Ip, now: nat): Stats
    requires ip in s.counters
  {
    FillStats(ip, Total(s.counters[ip]), ClientAt(s, ip), RateAt(s, ClientAt(s, ip)), now)
  }

  /** hg_read_one. */
  function ReadOne(s: State, ip: Ip, now: nat): Option<Stats> {
    if ip in s.counters then Some(StatsAt(s, ip, now)) else None
  }

  /** The "captive" member of the CAPPORT answer. */
  predicate Captive(s: State, ip: Ip, now: nat) {
    var r := ReadOne(s, ip, now);
    !(r.Some? && r.value.state == AUTH_OK)
  }

  // ----- runs with static leases ----------------------------------------------------------

  /** No two MACs share an address. */
  ghost predicate OneToOne(lease: map<Mac, Ip>) {
    forall m, m' | m in lease && m' in lease && lease[m] == lease[m'] :: m == m'
  }

  /** Frames come from leased addresses, and an add that names both MAC and address names a leased
      pair. */
  predicate KeepsLeases(lease: map<Mac, Ip>, s: State, step: Step) {
    && (Learns(s, step) ==> SrcMac(step.f) in lease && lease[SrcMac(step.f)] == Saddr(step.f))
    && (step.AddClient? && step.args.mac.Some? && step.args.ip.Some? ==>
          step.args.mac.value in lease && lease[step.args.mac.value] == step.args.ip.value)
  }

  /** A del of a client whose MAC is not bound does not find the counter, and a map-del of a client
      does not look for it. Until the next add, or del that finds it, the counter is orphaned. */
  function OrphansAfter(s: State, step: Step, o: Outcome, before: set<Mac>): set<Mac> {
    match o
    case Added(m, _, _) => before - {m}
    case Deleted(m, Some(_)) => before - {m}
    case Deleted(m, None) => if m in s.clients then before + {m} else before
    case _ => if step.MapDelClient? && step.mac in s.clients then before + {step.mac} else before
  }

  /** The MACs whose counters are orphaned after a run. */
  function Orphans(s0: State, steps: seq<Step>): set<Mac> {
    if steps == [] then {} else
      var n := |steps| - 1;
      var s := Run(s0, steps[..n]);
      OrphansAfter(s, steps[n], Take(s, steps[n]).1, Orphans(s0, steps[..n]))
  }

  /** A leased pair is in both binding maps or in neither. */
  predicate BindingOk(s: State, m: Mac, ip: Ip) {
    if m in s.macIp then s.macIp[m] == ip && ip in s.ipMac && s.ipMac[ip] == m else ip !in s.ipMac
  }

  /** A session has a counter that reads AUTH_OK; without one the counter is gone, reads EXPIRE, or
      is orphaned and reads AUTH_OK. */
  predicate SessionOk(s: State, m: Mac, ip: Ip, orphan: bool) {
    && (m in s.clients || orphan ==> ip in s.counters && Total(s.counters[ip]).state == AUTH_OK)
    && (m !in s.clients && ip in s.counters && !orphan ==> Total(s.counters[ip]).state == EXPIRE)
    && !(m in s.clients && orphan)
  }

  predicate PairOk(s: State, m: Mac, ip: Ip, orphan: bool) { BindingOk(s, m, ip) && SessionOk(s, m, ip, orphan) }

  ghost predicate Lawful(lease: map<Mac, Ip>, s: State, orphans: set<Mac>) {
    && (forall m | m in lease :: PairOk(s, m, lease[m], m in orphans))
    && (forall m | m in s.macIp :: m in lease)
    && (forall m | m in s.clients :: m in lease)
    && (forall ip | ip in s.ipMac :: s.ipMac[ip] in lease && lease[s.ipMac[ip]] == ip)
  }

  lemma LawfulPair(lease: map<Mac, Ip>, s: State, orphans: set<Mac>, m: Mac)
    requires Lawful(lease, s, orphans) && m in lease
    ensures PairOk(s, m, lease[m], m in orphans)
  {
    hide PairOk;
  }

  /** Who is bound to an address is bound to that address alone. */
  lemma BoundSender(lease: map<Mac, Ip>, s: State, orphans: set<Mac>, ip: Ip)
    requires Lawful(lease, s, orphans) && ip in s.ipMac
    ensures var m := s.ipMac[ip]; m in lease && lease[m] == ip && m in s.macIp && s.macIp[m] == ip
  {
    hide SessionOk;
    LawfulPair(lease, s, orphans, s.ipMac[ip]);
  }

  lemma BoundAddress(lease: map<Mac, Ip>, s: State, orphans: set<Mac>, m: Mac)
    requires Lawful(lease, s, orphans) && m in s.macIp
    ensures m in lease && s.macIp[m] == lease[m]
  {
    hide SessionOk;
    LawfulPair(lease, s, orphans, m);
  }

  /** In a lawful state an add or delete concerns a leased pair. */
  lemma OutcomeMatchesLease(lease: map<Mac, Ip>, s: State, orphans: set<Mac>, step: Step)
    requires Lawful(lease, s, orphans) && KeepsLeases(lease, s, step)
    ensures var o := Take(s, step).1;
            && (o.Added? ==> o.mac in lease && lease[o.mac] == o.ip)
            && (o.Deleted? ==>
                  if o.mac in s.macIp then o.mac in lease && o.bound == Some(lease[o.mac]) else o.bound == None)
            && (o.AddFailed? && o.removed.Some? ==> o.removed.value in lease && lease[o.removed.value] !in s.counters)
  {
    hide Ingress, Egress, Add, Del, Learns, PairOk, Lawful;
    match step
    case AddClient(a, now) =>
      if a.mac.Some? && a.ip.None? && a.mac.value in s.macIp {
        BoundAddress(lease, s, orphans, a.mac.value);
      } else if a.mac.None? && a.ip.Some? && a.ip.value in s.ipMac {
        BoundSender(lease, s, orphans, a.ip.value);
      }
    case DelClient(m) =>
      if m in s.macIp {
        BoundAddress(lease, s, orphans, m);
      }
    case DelByIp(ip) =>
      if ip in s.ipMac {
        BoundSender(lease, s, orphans, ip);
      }
    case _ =>
  }

  // ----- one pair, one step ---------------------------------------------------------------

  lemma {:induction false} InversesHaveOneSize(a: map<Mac, Ip>, b: map<Ip, Mac>)
    requires forall m | m in a :: a[m] in b && b[a[m]] == m
    requires forall ip | ip in b :: b[ip] in a && a[b[ip]] == ip
    ensures |a| == |b|
  {
    if m :| m in a {
      InversesHaveOneSize(a - {m}, b - {a[m]});
      assert |a - {m}| == |a| - 1;
      assert |b - {a[m]}| == |b| - 1;
    } else {
      assert a == map[] && b == map[];
    }
  }

  /** The binding maps fill up together, so an update of one fails exactly when the other's does. */
  lemma MapsFillTogether(lease: map<Mac, Ip>, s: State, orphans: set<Mac>)
    requires Lawful(lease, s, orphans)
    ensures |s.macIp| == |s.ipMac|
  {
    forall m | m in s.macIp
      ensures s.macIp[m] in s.ipMac && s.ipMac[s.macIp[m]] == m
    {
      LawfulPair(lease, s, orphans, m);
    }
    forall ip | ip in s.ipMac
      ensures s.ipMac[ip] in s.macIp && s.macIp[s.ipMac[ip]] == ip
    {
      BoundSender(lease, s, orphans, ip);
    }
    hide Lawful, PairOk;
    InversesHaveOneSize(s.macIp, s.ipMac);
  }

  lemma LearnKeepsBinding(s: State, mac: Mac, src: Ip, m: Mac, ip: Ip)
    requires BindingOk(s, m, ip) && |s.macIp| == |s.ipMac| && (mac == m <==> src == ip)
    ensures BindingOk(Learn(s, mac, src), m, ip)
  {
  }

  lemma BindingOkStep(lease: map<Mac, Ip>, s: State, orphans: set<Mac>, step: Step, m: Mac)
    requires OneToOne(lease) && Lawful(lease, s, orphans) && KeepsLeases(lease, s, step) && m in lease
    ensures BindingOk(Take(s, step).0, m, lease[m])
  {
    LawfulPair(lease, s, orphans, m);
    MapsFillTogether(lease, s, orphans);
    hide Take, Lawful, SessionOk, Learn, Learns;
    BindingStep(s, step);
    if Learns(s, step) {
      LearnKeepsBinding(s, SrcMac(step.f), Saddr(step.f), m, lease[m]);
    }
  }

  /** How the aggregated state of a counter moves. */
  lemma StateFollows(s: State, step: Step, r: (State, Outcome), ip: Ip)
    requires CounterFollows(s, step, r, ip) && ip in s.counters && Total(s.counters[ip]).state <= EXPIRE
    requires step.IngressFrame? || step.EgressFrame?
    ensures ip in r.0.counters
    ensures Total(r.0.counters[ip]).state ==
            if step.IngressFrame? && r.1.Hook? && r.1.path == Expired && IsIpv4(step.f) && Saddr(step.f) == ip
            then EXPIRE else Total(s.counters[ip]).state
  {
    hide Total;
    if step.cpu < s.ncpu {
      var row, c := s.counters[ip], s.counters[ip][step.cpu];
      if step.IngressFrame? {
        TotalUpdate(row, step.cpu, CountUp(c, step.f.len, step.now));
        TotalUpdate(row, step.cpu, c.(state := EXPIRE));
      } else {
        TotalUpdate(row, step.cpu, CountDown(c, step.f.len));
      }
    }
  }

  /** A frame whose expiry or accounting concerns the address is the leased MAC's. */
  lemma AuthFrameLearns(s: State, step: Step)
    requires step.IngressFrame? && Take(s, step).1.Hook? && IsIpv4(step.f)
    requires Take(s, step).1.path == Expired || Take(s, step).1.path in AUTH_PATHS
    ensures Learns(s, step)
    ensures Take(s, step).1.path == Expired ==> SrcMac(step.f) in s.clients
  {
    hide IngressAuth, IngressGuest, Egress, Add, Del, Learn, AtPortalPort, CountersAfterIngress, ApplyEdt;
  }

  /** The outcome is that of a frame: neither hook adds, fails to add, or deletes. */
  lemma FramesLeaveOrphans(s: State, step: Step, orphans: set<Mac>)
    requires step.IngressFrame? || step.EgressFrame?
    ensures OrphansAfter(s, step, Take(s, step).1, orphans) == orphans
  {
    hide Ingress, Egress;
  }

  lemma FrameSession(lease: map<Mac, Ip>, s: State, step: Step, m: Mac, orphan: bool)
    requires OneToOne(lease) && KeepsLeases(lease, s, step) && m in lease && SessionOk(s, m, lease[m], orphan)
    requires step.IngressFrame? || step.EgressFrame?
    ensures SessionOk(Take(s, step).0, m, lease[m], orphan)
  {
    var ip, r := lease[m], Take(s, step);
    hide Take, Total;
    ClientsStep(s, step, m);
    CounterStep(s, step, ip);
    if ip in s.counters {
      StateFollows(s, step, r, ip);
    }
    if step.IngressFrame? && r.1.Hook? && IsIpv4(step.f) && (r.1.path == Expired || r.1.path in AUTH_PATHS) {
      AuthFrameLearns(s, step);
    }
  }

  /** The outcome concerns both of the pair or neither. */
  predicate OutcomeFits(s: State, o: Outcome, m: Mac, ip: Ip) {
    && (o.Added? ==> (o.mac == m <==> o.ip == ip))
    && (o.Deleted? ==> if o.mac == m then o.bound == (if m in s.macIp then Some(ip) else None) else o.bound != Some(ip))
    && (o.AddFailed? && o.removed == Some(m) ==> ip !in s.counters)
  }

  lemma OutcomeFitsPair(lease: map<Mac, Ip>, s: State, orphans: set<Mac>, step: Step, m: Mac)
    requires OneToOne(lease) && Lawful(lease, s, orphans) && KeepsLeases(lease, s, step) && m in lease
    ensures OutcomeFits(s, Take(s, step).1, m, lease[m])
  {
    hide Take, Lawful, KeepsLeases;
    OutcomeMatchesLease(lease, s, orphans, step);
  }

  predicate IsAction(step: Step) { !step.IngressFrame? && !step.EgressFrame? && !step.MapDelClient? }

  lemma ClientInAction(s: State, step: Step, r: (State, Outcome), m: Mac)
    requires IsAction(step) && ClientFollows(s, step, r, m)
    ensures m in r.0.clients <==>
            || (r.1.Added? && r.1.mac == m)
            || (m in s.clients && !(r.1.Deleted? && r.1.mac == m) && r.1 != AddFailed(Some(m)))
  {
    hide SameTerms;
  }

  lemma CounterInAction(s: State, step: Step, r: (State, Outcome), ip: Ip)
    requires IsAction(step) && CounterFollows(s, step, r, ip)
    ensures ip in r.0.counters <==>
            (r.1.Added? && r.1.ip == ip) || (ip in s.counters && !(r.1.Deleted? && r.1.bound == Some(ip)))
    ensures ip in r.0.counters ==>
            Total(r.0.counters[ip]).state == if r.1.Added? && r.1.ip == ip then AUTH_OK else Total(s.counters[ip]).state
  {
    TotalOfZeros(Zeros(s.ncpu));
    hide Total, Zeros;
  }

  lemma ActionPair(s: State, step: Step, r: (State, Outcome), m: Mac, ip: Ip, orphans: set<Mac>)
    requires SessionOk(s, m, ip, m in orphans) && OutcomeFits(s, r.1, m, ip) && IsAction(step)
    requires ClientFollows(s, step, r, m) && CounterFollows(s, step, r, ip)
    ensures SessionOk(r.0, m, ip, m in OrphansAfter(s, step, r.1, orphans))
  {
    hide Total, ClientFollows, CounterFollows;
    ClientInAction(s, step, r, m);
    CounterInAction(s, step, r, ip);
  }

  lemma MapDelSession(s: State, gone: Mac, m: Mac, ip: Ip, orphans: set<Mac>)
    requires SessionOk(s, m, ip, m in orphans)
    ensures var step := MapDelClient(gone);
            SessionOk(Take(s, step).0, m, ip, m in OrphansAfter(s, step, Take(s, step).1, orphans))
  {
    hide Total;
  }

  lemma SessionOkStep(lease: map<Mac, Ip>, s: State, orphans: set<Mac>, step: Step, m: Mac)
    requires OneToOne(lease) && Lawful(lease, s, orphans) && KeepsLeases(lease, s, step) && m in lease
    ensures SessionOk(Take(s, step).0, m, lease[m], m in OrphansAfter(s, step, Take(s, step).1, orphans))
  {
    LawfulPair(lease, s, orphans, m);
    hide Take, SessionOk, BindingOk, OutcomeFits, ClientFollows, CounterFollows, Lawful, OrphansAfter;
    if step.IngressFrame? || step.EgressFrame? {
      FramesLeaveOrphans(s, step, orphans);
      FrameSession(lease, s, step, m, m in orphans);
    } else if step.MapDelClient? {
      MapDelSession(s, step.mac, m, lease[m], orphans);
    } else {
      OutcomeFitsPair(lease, s, orphans, step, m);
      ClientsStep(s, step, m);
      CounterStep(s, step, lease[m]);
      ActionPair(s, step, Take(s, step), m, lease[m], orphans);
    }
  }

  // ----- whole runs -----------------------------------------------------------------------

  lemma LearnedAreLeased(lease: map<Mac, Ip>, s: State, orphans: set<Mac>, step: Step)
    requires Lawful(lease, s, orphans) && KeepsLeases(lease, s, step)
    ensures var s' := Take(s, step).0;
            && (forall m | m in s'.macIp :: m in lease)
            && (forall ip | ip in s'.ipMac :: s'.ipMac[ip] in lease && lease[s'.ipMac[ip]] == ip)
  {
    hide Take, PairOk, Classify, Learn;
    BindingStep(s, step);
    if Learns(s, step) {
      LearnAddsOne(s, SrcMac(step.f), Saddr(step.f));
    }
  }

  lemma LearnAddsOne(s: State, mac: Mac, src: Ip)
    ensures var t := Learn(s, mac, src);
            && (forall m | m in t.macIp :: m in s.macIp || m == mac)
            && (forall m | m in s.macIp :: m in t.macIp)
            && (forall ip | ip in t.ipMac ::
                  (ip in s.ipMac && t.ipMac[ip] == s.ipMac[ip]) || (ip == src && t.ipMac[ip] == mac))
  {
  }

  lemma ClientsAreLeased(lease: map<Mac, Ip>, s: State, orphans: set<Mac>, step: Step)
    requires Lawful(lease, s, orphans) && KeepsLeases(lease, s, step)
    ensures forall m | m in Take(s, step).0.clients :: m in lease
  {
    hide Take, PairOk, KeepsLeases, Revokes, SameTerms;
    OutcomeMatchesLease(lease, s, orphans, step);
    forall m | m in Take(s, step).0.clients
      ensures m in lease
    {
      ClientsStep(s, step, m);
    }
  }

  lemma PairOkStep(lease: map<Mac, Ip>, s: State, orphans: set<Mac>, step: Step, m: Mac)
    requires OneToOne(lease) && Lawful(lease, s, orphans) && KeepsLeases(lease, s, step) && m in lease
    ensures PairOk(Take(s, step).0, m, lease[m], m in OrphansAfter(s, step, Take(s, step).1, orphans))
  {
    hide Take, SessionOk, BindingOk, KeepsLeases, OneToOne, OrphansAfter, Lawful;
    BindingOkStep(lease, s, orphans, step, m);
    SessionOkStep(lease, s, orphans, step, m);
  }

  lemma LawfulStep(lease: map<Mac, Ip>, s: State, orphans: set<Mac>, step: Step)
    requires OneToOne(lease) && Lawful(lease, s, orphans) && KeepsLeases(lease, s, step)
    ensures Lawful(lease, Take(s, step).0, OrphansAfter(s, step, Take(s, step).1, orphans))
  {
    hide Take, PairOk, KeepsLeases, OneToOne, OrphansAfter;
    LearnedAreLeased(lease, s, orphans, step);
    ClientsAreLeased(lease, s, orphans, step);
    forall m | m in lease
      ensures PairOk(Take(s, step).0, m, lease[m], m in OrphansAfter(s, step, Take(s, step).1, orphans))
    {
      PairOkStep(lease, s, orphans, step, m);
    }
  }

  /** Every step of the run keeps the leases. */
  ghost predicate StaticLeases(lease: map<Mac, Ip>, s0: State, steps: seq<Step>) {
    OneToOne(lease) && forall j | 0 <= j < |steps| :: KeepsLeases(lease, At(s0, steps, j), steps[j])
  }

  lemma StaticPrefix(lease: map<Mac, Ip>, s0: State, steps: seq<Step>)
    requires steps != [] && StaticLeases(lease, s0, steps)
    ensures var n := |steps| - 1;
            StaticLeases(lease, s0, steps[..n]) && KeepsLeases(lease, Run(s0, steps[..n]), steps[n])
  {
    hide KeepsLeases, Run, OneToOne;
    var n := |steps| - 1;
    AtPrefix(s0, steps, n);
    assert At(s0, steps, n) == Run(s0, steps[..n]);
  }

  /** With static leases, every run keeps leases, bindings, sessions and counters in step, up to the
      orphaned counters. */
  lemma {:induction false} LawfulRun(lease: map<Mac, Ip>, ncpu: Pos, portal: PortalCfg, ifb: nat, steps: seq<Step>)
    requires StaticLeases(lease, Started(ncpu, portal, ifb), steps)
    ensures var s0 := Started(ncpu, portal, ifb);
            Lawful(lease, Run(s0, steps), Orphans(s0, steps))
  {
    hide Take, KeepsLeases, OrphansAfter;
    if steps != [] {
      var s0, n := Started(ncpu, portal, ifb), |steps| - 1;
      StaticPrefix(lease, s0, steps);
      hide Lawful;
      LawfulRun(lease, ncpu, portal, ifb, steps[..n]);
      LawfulStep(lease, Run(s0, steps[..n]), Orphans(s0, steps[..n]), steps[n]);
    }
  }

  /** m has a session the reader's clock does not call expired. */
  predicate Live(s: State, m: Mac, now: nat) {
    m in s.clients && (s.clients[m].expiry == 0 || now < s.clients[m].expiry)
  }

  /** The datapath's expiry check lets m pass at now. */
  predicate ExpiryAdmits(s: State, m: Mac, now: nat) {
    m in s.clients && !(s.clients[m].expiry != 0 && now > s.clients[m].expiry)
  }

  /** What the reader says of a leased address, against the datapath. */
  predicate Agrees(z: State, m: Mac, ip: Ip, now: nat) {
    var r := ReadOne(z, ip, now);
    && (r.Some? && r.value.state == AUTH_OK <==> Live(z, m, now))
    && (!Captive(z, ip, now) ==> ExpiryAdmits(z, m, now))
    && (ExpiryAdmits(z, m, now) && Captive(z, ip, now) <==> m in z.clients && now == z.clients[m].expiry != 0)
    && (m in z.clients ==> ip in z.counters)
  }

  /** The reader finds a session's expiry only through the binding. */
  predicate ReaderKnows(s: State, m: Mac, now: nat) { m in s.macIp || m !in s.clients || Live(s, m, now) }

  lemma PairAgreesIff(z: State, m: Mac, ip: Ip, orphan: bool, now: nat)
    requires PairOk(z, m, ip, orphan)
    ensures Agrees(z, m, ip, now) <==> !orphan && ReaderKnows(z, m, now)
  {
    hide Total, RateAt, BpsToKbit;
  }

  /** With static leases, after every run and at every time, the reader, the CAPPORT answer and the
      datapath agree on a leased address exactly when its counter is not orphaned and either its MAC
      is bound, having sent a frame, or it has no session, or its session has not reached its
      expiry. Agreement is that the reader reports AUTH_OK exactly for a session that has not
      reached its expiry, that "not captive" implies that the datapath admits the client, the two
      differing only at the instant of expiry, and that a session has its counter. */
  lemma ReaderAgrees(lease: map<Mac, Ip>, ncpu: Pos, portal: PortalCfg, ifb: nat, steps: seq<Step>, m: Mac, now: nat)
    requires StaticLeases(lease, Started(ncpu, portal, ifb), steps) && m in lease
    ensures var s0 := Started(ncpu, portal, ifb);
            var z := Run(s0, steps);
            Agrees(z, m, lease[m], now) <==> m !in Orphans(s0, steps) && ReaderKnows(z, m, now)
  {
    hide Run, StaticLeases, PairOk, Agrees, ReaderKnows, Orphans;
    var s0 := Started(ncpu, portal, ifb);
    LawfulRun(lease, ncpu, portal, ifb, steps);
    LawfulPair(lease, Run(s0, steps), Orphans(s0, steps), m);
    PairAgreesIff(Run(s0, steps), m, lease[m], m in Orphans(s0, steps), now);
  }

  // ----- adds and deletes before the first frame ------------------------------------------

  /** Exactly when an add by MAC and address leaves a reader that will agree at every time: when the
      MAC has been seen, or the session never expires. */
  lemma EarlyAddIff(lease: map<Mac, Ip>, s: State, orphans: set<Mac>, a: AddArgs, now: nat)
    requires OneToOne(lease) && Lawful(lease, s, orphans) && KeepsLeases(lease, s, AddClient(a, now))
    requires a.mac.Some? && a.ip.Some? && Add(s, a, now).1.Added?
    ensures (forall t :: Agrees(Add(s, a, now).0, a.mac.value, a.ip.value, t)) <==>
            a.mac.value in s.macIp || a.expire <= 0
  {
    var (s', o) := Add(s, a, now);
    var m := a.mac.value;
    EarlyAddState(s, a, now);
    hide Add, Agrees, Lawful, PairOk, NewClient;
    LawfulAfterAdd(lease, s, orphans, a, now);
    forall t: nat
      ensures Agrees(s', m, a.ip.value, t) <==> m in s.macIp || a.expire <= 0 || t < now + a.expire * NSEC_PER_SEC
    {
      PairAgreesIff(s', m, a.ip.value, false, t);
    }
    if a.expire > 0 {
      assert Agrees(s', m, a.ip.value, now + a.expire * NSEC_PER_SEC) <==> m in s.macIp;
    }
  }

  lemma EarlyAddState(s: State, a: AddArgs, now: nat)
    requires a.mac.Some? && a.ip.Some? && Add(s, a, now).1.Added?
    ensures var (s', o) := Add(s, a, now);
            var m := a.mac.value;
            && o.mac == m && s'.macIp == s.macIp && m in s'.clients
            && s'.clients[m].expiry == if a.expire > 0 then now + a.expire * NSEC_PER_SEC else 0
  {
    hide Zeros, RateId;
  }

  lemma LawfulAfterAdd(lease: map<Mac, Ip>, s: State, orphans: set<Mac>, a: AddArgs, now: nat)
    requires OneToOne(lease) && Lawful(lease, s, orphans) && KeepsLeases(lease, s, AddClient(a, now))
    requires a.mac.Some? && a.ip.Some? && Add(s, a, now).1.Added?
    ensures PairOk(Add(s, a, now).0, a.mac.value, a.ip.value, false)
  {
    var (s', o) := Add(s, a, now);
    var m := a.mac.value;
    EarlyAddState(s, a, now);
    LawfulStep(lease, s, orphans, AddClient(a, now));
    hide Add, Lawful, PairOk;
    LawfulPair(lease, s', OrphansAfter(s, AddClient(a, now), o, orphans), m);
  }

  /** Exactly when a del leaves a reader that agrees: when the MAC has been seen, or there was no
      session and nothing orphaned before. */
  lemma EarlyDelIff(lease: map<Mac, Ip>, s: State, orphans: set<Mac>, m: Mac, now: nat)
    requires OneToOne(lease) && Lawful(lease, s, orphans) && m in lease
    ensures var s' := Del(s, m).0;
            && (lease[m] in s'.counters <==> lease[m] in s.counters && m !in s.macIp)
            && (Agrees(s', m, lease[m], now) <==> m in s.macIp || (m !in s.clients && m !in orphans))
  {
    var (s', o) := Del(s, m);
    LawfulPair(lease, s, orphans, m);
    assert o == Deleted(m, if m in s.macIp then Some(lease[m]) else None);
    assert m !in s'.clients && s'.macIp == s.macIp;
    LawfulStep(lease, s, orphans, DelClient(m));
    LawfulPair(lease, s', OrphansAfter(s, DelClient(m), o, orphans), m);
    hide Lawful, PairOk, Agrees, OneToOne, KeepsLeases;
    PairAgreesIff(s', m, lease[m], m in OrphansAfter(s, DelClient(m), o, orphans), now);
  }

  /** The failing input: an add by MAC and address before the MAC's first frame. Past its end the
      reader goes on reporting AUTH_OK and the portal "not captive", and the datapath shoots. */
  lemma EarlyAddFoolsReader(s: State, m: Mac, ip: Ip, expire: nat, dLimit: nat, uLimit: nat, now: nat, t: nat)
    requires ip !in s.ipMac && Fits(s.clients, m, CLIENT_CAPACITY) && Fits(s.counters, ip, CLIENT_CAPACITY)
    requires expire > 0 && t > now + expire * NSEC_PER_SEC
    ensures var s' := Add(s, AddArgs(Some(m), Some(ip), expire, 0, dLimit, uLimit), now).0;
            !Captive(s', ip, t) && !ExpiryAdmits(s', m, t)
  {
    hide Captive, RateId, Zeros, NewRate;
    UnboundReads(Add(s, AddArgs(Some(m), Some(ip), expire, 0, dLimit, uLimit), now).0, ip, t);
  }

  /** Of an address that is not bound the reader knows only the counter. */
  lemma UnboundReads(s: State, ip: Ip, t: nat)
    requires ip !in s.ipMac && ip in s.counters && s.counters[ip] == Zeros(s.ncpu)
    ensures !Captive(s, ip, t)
  {
    hide Total, BpsToKbit;
    TotalOfZeros(Zeros(s.ncpu));
  }

  /** And a del before the first frame leaves the counter behind: the reader reports AUTH_OK for
      ever. */
  lemma EarlyDelFoolsReader(s: State, m: Mac, ip: Ip, expire: int, dLimit: nat, uLimit: nat, now: nat, t: nat)
    requires m !in s.macIp && ip !in s.ipMac
    requires Fits(s.clients, m, CLIENT_CAPACITY) && Fits(s.counters, ip, CLIENT_CAPACITY)
    ensures var s' := Del(Add(s, AddArgs(Some(m), Some(ip), expire, 0, dLimit, uLimit), now).0, m).0;
            m !in s'.clients && ip in s'.counters && !Captive(s', ip, t)
  {
    hide Captive, RateId, Zeros, NewClient, NewRate;
    var s1 := Add(s, AddArgs(Some(m), Some(ip), expire, 0, dLimit, uLimit), now).0;
    assert ip in s1.counters && s1.counters[ip] == Zeros(s.ncpu);
    hide Add;
    UnboundReads(Del(s1, m).0, ip, t);
  }

  // ----- when every MAC is seen before it is added ----------------------------------------

  /** No map-del, and an add by MAC and address names a MAC already seen. */
  predicate SeenFirst(s: State, step: Step) {
    && !step.MapDelClient?
    && (step.AddClient? && step.args.mac.Some? && step.args.ip.Some? ==> step.args.mac.value in s.macIp)
  }

  lemma NobodyOrphaned(lease: map<Mac, Ip>, s: State, step: Step)
    requires Lawful(lease, s, {}) && KeepsLeases(lease, s, step) && s.clients.Keys <= s.macIp.Keys
    requires !step.MapDelClient?
    ensures OrphansAfter(s, step, Take(s, step).1, {}) == {}
  {
    hide Take, Lawful, KeepsLeases;
    OutcomeMatchesLease(lease, s, {}, step);
  }

  lemma ClientsAreSeen(lease: map<Mac, Ip>, s: State, step: Step)
    requires Lawful(lease, s, {}) && SeenFirst(s, step) && s.clients.Keys <= s.macIp.Keys
    ensures var s' := Take(s, step).0; s'.clients.Keys <= s'.macIp.Keys
  {
    hide Take, Lawful, Revokes, SameTerms, SeenFirst;
    AddedIsSeen(lease, s, step);
    BindingsGrow(s, step);
    forall m | m in Take(s, step).0.clients
      ensures m in s.macIp
    {
      ClientsStep(s, step, m);
    }
  }

  lemma AddedIsSeen(lease: map<Mac, Ip>, s: State, step: Step)
    requires Lawful(lease, s, {}) && SeenFirst(s, step)
    ensures var o := Take(s, step).1; o.Added? ==> o.mac in s.macIp
  {
    hide Ingress, Egress, Add, Del, PairOk, Lawful;
    if step.AddClient? && step.args.mac.None? && step.args.ip.Some? && step.args.ip.value in s.ipMac {
      BoundSender(lease, s, {}, step.args.ip.value);
    }
  }

  lemma BindingsGrow(s: State, step: Step)
    ensures s.macIp.Keys <= Take(s, step).0.macIp.Keys
  {
    hide Take, Learn, Classify;
    BindingStep(s, step);
    if Learns(s, step) {
      LearnAddsOne(s, SrcMac(step.f), Saddr(step.f));
    }
  }

  ghost predicate AllSeenFirst(s0: State, steps: seq<Step>) {
    forall j | 0 <= j < |steps| :: SeenFirst(At(s0, steps, j), steps[j])
  }

  lemma SeenPrefix(s0: State, steps: seq<Step>)
    requires steps != [] && AllSeenFirst(s0, steps)
    ensures var n := |steps| - 1; AllSeenFirst(s0, steps[..n]) && SeenFirst(Run(s0, steps[..n]), steps[n])
  {
    hide SeenFirst, Run;
    var n := |steps| - 1;
    AtPrefix(s0, steps, n);
    assert At(s0, steps, n) == Run(s0, steps[..n]);
  }

  lemma {:induction false} SeenRun(lease: map<Mac, Ip>, ncpu: Pos, portal: PortalCfg, ifb: nat, steps: seq<Step>)
    requires var s0 := Started(ncpu, portal, ifb); StaticLeases(lease, s0, steps) && AllSeenFirst(s0, steps)
    ensures var s0 := Started(ncpu, portal, ifb);
            Orphans(s0, steps) == {} && Run(s0, steps).clients.Keys <= Run(s0, steps).macIp.Keys
  {
    hide Take, StaticLeases, AllSeenFirst, KeepsLeases, OrphansAfter, Lawful;
    if steps != [] {
      var s0, n := Started(ncpu, portal, ifb), |steps| - 1;
      StaticPrefix(lease, s0, steps);
      SeenPrefix(s0, steps);
      SeenRun(lease, ncpu, portal, ifb, steps[..n]);
      LawfulRun(lease, ncpu, portal, ifb, steps[..n]);
      NobodyOrphaned(lease, Run(s0, steps[..n]), steps[n]);
      ClientsAreSeen(lease, Run(s0, steps[..n]), steps[n]);
    }
  }

  /** So where every MAC is seen before it is added by MAC and address, as it is when adds name only
      one of them, the reader, the CAPPORT answer and the datapath always agree. */
  lemma SeenFirstAgrees(lease: map<Mac, Ip>, ncpu: Pos, portal: PortalCfg, ifb: nat, steps: seq<Step>, m: Mac, now: nat)
    requires var s0 := Started(ncpu, portal, ifb); StaticLeases(lease, s0, steps) && AllSeenFirst(s0, steps)
    requires m in lease
    ensures Agrees(Run(Started(ncpu, portal, ifb), steps), m, lease[m], now)
  {
    hide Run, StaticLeases, AllSeenFirst, Agrees, Orphans;
    SeenRun(lease, ncpu, portal, ifb, steps);
    ReaderAgrees(lease, ncpu, portal, ifb, steps, m, now);
  }

  // ----- missing counters -----------------------------------------------------------------

  /** With static leases, seen first or not, no frame of a client is shot for a missing counter, in
      either direction. */
  lemma NeverWithoutCounter(lease: map<Mac, Ip>, s: State, orphans: set<Mac>, step: Step)
    requires Lawful(lease, s, orphans) && KeepsLeases(lease, s, step)
    ensures var o := Take(s, step).1; o.Hook? ==> o.path != NoCounter
  {
    hide Take, Lawful;
    if Take(s, step).1.Hook? {
      OnlyFramesHook(s, step);
      if step.IngressFrame? {
        UploadFindsCounter(lease, s, orphans, step);
      } else {
        DownloadFindsCounter(lease, s, orphans, step);
      }
    }
  }

  lemma UploadFindsCounter(lease: map<Mac, Ip>, s: State, orphans: set<Mac>, step: Step)
    requires Lawful(lease, s, orphans) && KeepsLeases(lease, s, step) && step.IngressFrame? && Take(s, step).1.Hook?
    ensures Take(s, step).1.path != NoCounter
  {
    hide Take, Lawful, Learns;
    if IsIpv4(step.f) && SrcMac(step.f) in s.clients {
      ClientHasCounter(lease, s, orphans, SrcMac(step.f));
    }
    if Take(s, step).1.path == NoCounter {
      NoCounterMeans(s, step);
      AuthFrameLearns(s, step);
    }
  }

  lemma DownloadFindsCounter(lease: map<Mac, Ip>, s: State, orphans: set<Mac>, step: Step)
    requires Lawful(lease, s, orphans) && step.EgressFrame? && Take(s, step).1.Hook?
    ensures Take(s, step).1.path != NoCounter
  {
    hide Take, Lawful;
    if IsIpv4(step.f) && Daddr(step.f) in s.ipMac && s.ipMac[Daddr(step.f)] in s.clients {
      BoundSender(lease, s, orphans, Daddr(step.f));
      ClientHasCounter(lease, s, orphans, s.ipMac[Daddr(step.f)]);
    }
    if Take(s, step).1.path == NoCounter {
      NoDownCounterMeans(s, step);
    }
  }

  lemma OnlyFramesHook(s: State, step: Step)
    requires Take(s, step).1.Hook?
    ensures step.IngressFrame? || step.EgressFrame?
  {
    hide Ingress, Egress;
  }

  lemma ClientHasCounter(lease: map<Mac, Ip>, s: State, orphans: set<Mac>, m: Mac)
    requires Lawful(lease, s, orphans) && m in s.clients
    ensures m in lease && lease[m] in s.counters
  {
    hide Total;
    LawfulPair(lease, s, orphans, m);
  }

  lemma NoDownCounterMeans(s: State, step: Step)
    requires step.EgressFrame? && Take(s, step).1.Hook? && Take(s, step).1.path == NoCounter
    ensures IsIpv4(step.f) && Daddr(step.f) in s.ipMac && s.ipMac[Daddr(step.f)] in s.clients
    ensures Daddr(step.f) !in s.counters
  {
    hide Egress, ApplyEdt;
  }

  lemma NoCounterMeans(s: State, step: Step)
    requires step.IngressFrame? && Take(s, step).1.Hook? && Take(s, step).1.path == NoCounter
    ensures IsIpv4(step.f) && SrcMac(step.f) in s.clients && Saddr(step.f) !in s.counters
  {
    hide Ingress, ApplyEdt;
  }

  /** Exactly when a map-del leaves a reader that agrees: when there was neither a session nor an
      orphaned counter. Otherwise the counter stays behind, and the reader goes on reporting AUTH_OK
      for a client the datapath no longer knows. */
  lemma MapDelIff(s: State, m: Mac, ip: Ip, orphan: bool, now: nat)
    requires PairOk(s, m, ip, orphan)
    ensures var s' := Take(s, MapDelClient(m)).0;
            && m !in s'.clients
            && (Agrees(s', m, ip, now) <==> m !in s.clients && !orphan)
            && (m in s.clients || orphan ==> !Captive(s', ip, now))
  {
    hide Total, RateAt, BpsToKbit;
  }

  // ----- expiry as the reader sees it -----------------------------------------------------

  ghost predicate StatesSmall(s: State) {
    forall ip | ip in s.counters :: Total(s.counters[ip]).state <= EXPIRE
  }

  lemma StatesSmallStep(s: State, step: Step, ip: Ip)
    requires ip in s.counters ==> Total(s.counters[ip]).state <= EXPIRE
    ensures var s' := Take(s, step).0; ip in s'.counters ==> Total(s'.counters[ip]).state <= EXPIRE
  {
    hide Take, Total, Zeros, CountUp, CountDown;
    CounterStep(s, step, ip);
    if step.IngressFrame? || step.EgressFrame? {
      if ip in s.counters {
        hide CounterFollows;
        StateFollows(s, step, Take(s, step), ip);
      }
    } else {
      TotalOfZeros(Zeros(s.ncpu));
    }
  }

  lemma {:induction false} StatesSmallRun(s0: State, steps: seq<Step>)
    requires s0.counters == map[]
    ensures StatesSmall(Run(s0, steps))
  {
    hide Take, Total;
    if steps != [] {
      var n := |steps| - 1;
      StatesSmallRun(s0, steps[..n]);
      forall ip
        ensures ip in Run(s0, steps).counters ==> Total(Run(s0, steps).counters[ip]).state <= EXPIRE
      {
        StatesSmallStep(Run(s0, steps[..n]), steps[n], ip);
      }
    }
  }

  predicate ReportsExpire(s: State, ip: Ip, now: nat) {
    ip in s.counters && StatsAt(s, ip, now).state == EXPIRE
  }

  lemma ExpireStays(s: State, step: Step, ip: Ip)
    requires ip in s.counters && Total(s.counters[ip]).state == EXPIRE && KeepsCounter(s, step, ip)
    ensures var s' := Take(s, step).0; ip in s'.counters && Total(s'.counters[ip]).state == EXPIRE
  {
    hide Take, Total, Zeros, CountUp, CountDown;
    CounterStep(s, step, ip);
    if step.IngressFrame? || step.EgressFrame? {
      hide CounterFollows;
      StateFollows(s, step, Take(s, step), ip);
    }
  }

  lemma {:induction false} ExpireStaysOverRun(s: State, later: seq<Step>, ip: Ip)
    requires ip in s.counters && Total(s.counters[ip]).state == EXPIRE
    requires forall j | 0 <= j < |later| :: KeepsCounter(At(s, later, j), later[j], ip)
    ensures var z := Run(s, later); ip in z.counters && Total(z.counters[ip]).state == EXPIRE
  {
    hide Take, Total, KeepsCounter;
    if later != [] {
      var n := |later| - 1;
      AtPrefix(s, later, n);
      ExpireStaysOverRun(s, later[..n], ip);
      assert At(s, later, n) == Run(s, later[..n]);
      ExpireStays(Run(s, later[..n]), later[n], ip);
    }
  }

  /** When an expiry hits an address that has a counter, the reader reports EXPIRE for it at every
      later time until the address is re-added or deleted, although only one CPU's slot was
      written. */
  lemma ExpiryIsReported(ncpu: Pos, portal: PortalCfg, ifb: nat, steps: seq<Step>, hit: Step,
                         later: seq<Step>, now: nat)
    requires var s := Run(Started(ncpu, portal, ifb), steps);
             && hit.IngressFrame? && Take(s, hit).1.Hook? && Take(s, hit).1.path == Expired && IsIpv4(hit.f)
             && Saddr(hit.f) in s.counters
             && var s1 := Take(s, hit).0;
                forall j | 0 <= j < |later| :: KeepsCounter(At(s1, later, j), later[j], Saddr(hit.f))
    ensures ReportsExpire(Run(Take(Run(Started(ncpu, portal, ifb), steps), hit).0, later), Saddr(hit.f), now)
  {
    hide Take, Total, Run, KeepsCounter, CounterFollows;
    var s, ip := Run(Started(ncpu, portal, ifb), steps), Saddr(hit.f);
    StatesSmallRun(Started(ncpu, portal, ifb), steps);
    CounterStep(s, hit, ip);
    StateFollows(s, hit, Take(s, hit), ip);
    ExpireStaysOverRun(Take(s, hit).0, later, ip);
  }

  // ----- what an add shows ----------------------------------------------------------------

  lemma RatesReadBack(kbit: nat)
    ensures BpsToKbit(KbitToBps(kbit)) == kbit
  {
    var bps := 125 * kbit;
    assert kbit * 1000 == 8 * bps;
    assert KbitToBps(kbit) == bps;
    assert bps * 8 == 1000 * kbit;
  }

  /** A successful add read back: empty counters; where the address is bound to the MAC, EXPIRE from
      the end of the requested time on and AUTH_OK before, and the requested rates in kbit/s, or none
      when the derived rate id is 0 or the rate map is full; where the address is not bound, AUTH_OK
      for ever and no rates; and where it is bound to another MAC, that MAC's expiry. */
  lemma AddThenRead(s: State, a: AddArgs, now: nat, t: nat)
    requires Add(s, a, now).1.Added?
    ensures var (s', o) := Add(s, a, now);
            var limited := RateId(a) != RATE_ID_NO_LIMIT && Fits(s.rates, RateId(a), RATE_CAPACITY);
            var ends := now + a.expire * NSEC_PER_SEC;
            var r := ReadOne(s', o.ip, t);
            && r.Some?
            && (o.ip in s.ipMac && s.ipMac[o.ip] == o.mac ==>
                  r.value == Stats(o.ip, 0, 0, 0, 0, if a.expire > 0 && t >= ends then EXPIRE else AUTH_OK,
                                   RateId(a), if limited then a.dLimit else 0, if limited then a.uLimit else 0))
            && (o.ip !in s.ipMac ==> r.value == Stats(o.ip, 0, 0, 0, 0, AUTH_OK, RATE_ID_NO_LIMIT, 0, 0))
            && (o.ip in s.ipMac && s.ipMac[o.ip] != o.mac ==>
                  && r.value.upBytes == r.value.upPackets == r.value.dnBytes == r.value.dnPackets == 0
                  && r.value.state == if IsExpired(ClientAt(s, o.ip), t) then EXPIRE else AUTH_OK)
  {
    hide Total, RateId, KbitToBps, BpsToKbit;
    TotalOfZeros(Zeros(s.ncpu));
    RatesReadBack(a.dLimit);
    RatesReadBack(a.uLimit);
    assert BpsToKbit(0) == 0 by { NoRateReadsZero(); }
  }

  lemma NoRateReadsZero()
    ensures BpsToKbit(0) == 0
  {
  }

  // ----- adds by one half -----------------------------------------------------------------

  /** The daemon's login adds by address alone. With static leases, once a MAC has been bound, an add
      that names only its address, or only it, gives it a session at its leased address when both
      entries fit; before that it fails and changes nothing. */
  lemma HalfAddsGrant(lease: map<Mac, Ip>, ncpu: Pos, portal: PortalCfg, ifb: nat, steps: seq<Step>,
                      m: Mac, a: AddArgs, now: nat)
    requires StaticLeases(lease, Started(ncpu, portal, ifb), steps) && m in lease
    requires (a.mac == None && a.ip == Some(lease[m])) || (a.mac == Some(m) && a.ip == None)
    ensures var z := Run(Started(ncpu, portal, ifb), steps);
            && (m in z.macIp && HasRoom(z, m, lease[m]) ==> GrantedAt(z, Add(z, a, now), a, now, m, lease[m]))
            && (m !in z.macIp ==> Add(z, a, now) == (z, AddFailed(None)))
  {
    hide Run, StaticLeases, Add, GrantedAt, HasRoom, SessionOk, Orphans, Lawful;
    var s0 := Started(ncpu, portal, ifb);
    LawfulRun(lease, ncpu, portal, ifb, steps);
    LawfulPair(lease, Run(s0, steps), Orphans(s0, steps), m);
    AddsGrant(Run(s0, steps), a, now);
  }
}
