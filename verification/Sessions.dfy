/** Who may pass: sessions and rule tables as what the history of a run says they are. */
module Sessions {
  import opened Net
  import opened Frames
  import opened Garden
  import opened History
  import opened Datapath
  import Accounting
  import Bindings
  import Translation

  // ----- the session history of a MAC -----------------------------------------------------

  /** Everything in a client entry but the two departure stamps. */
  predicate SameTerms(a: Client, b: Client) {
    a.expiry == b.expiry && a.idle == b.idle && a.auth == b.auth && a.rateId == b.rateId
  }

  predicate Revokes(step: Step, o: Outcome, m: Mac) {
    || (o.Deleted? && o.mac == m)
    || step == MapDelClient(m)
    || o == AddFailed(Some(m))
    || (step.IngressFrame? && o.Hook? && o.path == Expired && HasEth(step.f) && SrcMac(step.f) == m)
  }

  /** The terms of the last successful add of m, unless a later delete, map-del, rolled-back add
      or expiry of m ended the session. */
  function SessionOf(s0: State, steps: seq<Step>, m: Mac): Option<Client> {
    if steps == [] then None else
      var n := |steps| - 1;
      var o := Take(Run(s0, steps[..n]), steps[n]).1;
      if o.Added? && o.mac == m then Some(o.client)
      else if Revokes(steps[n], o, m) then None
      else SessionOf(s0, steps[..n], m)
  }

  /** m keeps its entry and terms, or its absence. */
  predicate Undisturbed(s: State, s': State, m: Mac) {
    && (m in s.clients <==> m in s'.clients)
    && (m in s.clients ==> SameTerms(s.clients[m], s'.clients[m]))
  }

  lemma ShapedClients(s: State, s': State, mac: Mac, len: nat, now: nat, up: bool, path: Path, m: Mac)
    requires ClientsAfter(s, s', mac, len, now, up, path)
    ensures if path == Expired && mac == m then m !in s'.clients else Undisturbed(s, s', m)
  {
    hide ApplyEdt;
  }

  /** The entry of m after a step, told by the step's outcome alone. */
  predicate ClientFollows(s: State, step: Step, r: (State, Outcome), m: Mac) {
    if r.1.Added? && r.1.mac == m then m in r.0.clients && r.0.clients[m] == r.1.client
    else if Revokes(step, r.1, m) then m !in r.0.clients
    else Undisturbed(s, r.0, m)
  }

  lemma FrameClients(s: State, step: Step, m: Mac)
    requires step.IngressFrame? || step.EgressFrame?
    ensures ClientFollows(s, step, Take(s, step), m)
  {
    hide Ingress, Egress, ClientsAfter, CountersAfterIngress, CountersAfterEgress, Undisturbed;
    assert Undisturbed(s, s, m) by { SameClients(s, s, m); }
    if step.cpu < s.ncpu && IsIpv4(step.f) {
      var (s', o) := Take(s, step);
      if step.IngressFrame? {
        ShapedClients(s, s', SrcMac(step.f), step.f.len, step.edt, true, o.path, m);
      } else if Daddr(step.f) in s.ipMac {
        ShapedClients(s, s', s.ipMac[Daddr(step.f)], step.f.len, step.now, false, o.path, m);
      } else {
        SameClients(s, s', m);
      }
    }
  }

  lemma SameClients(s: State, s': State, m: Mac)
    requires s'.clients == s.clients
    ensures Undisturbed(s, s', m)
  {
  }

  lemma ActionClients(s: State, step: Step, m: Mac)
    requires !step.IngressFrame? && !step.EgressFrame?
    ensures ClientFollows(s, step, Take(s, step), m)
  {
    hide Ingress, Egress, Apply, Add, Del, NewClient, Zeros, Resolve;
    if step.AddClient? {
      AddClients(s, step.args, step.now, m);
    }
  }

  lemma AddClients(s: State, a: AddArgs, now: nat, m: Mac)
    ensures ClientFollows(s, AddClient(a, now), Add(s, a, now), m)
  {
    hide Add, NewClient, Zeros, Resolve;
  }

  /** What one step does to the entry of m. */
  lemma ClientsStep(s: State, step: Step, m: Mac)
    ensures ClientFollows(s, step, Take(s, step), m)
  {
    hide Take, ClientFollows;
    if step.IngressFrame? || step.EgressFrame? {
      FrameClients(s, step, m);
    } else {
      ActionClients(s, step, m);
    }
  }

  /** In every run the client map is the session history. */
  lemma {:induction false} ClientsAreSessions(s0: State, steps: seq<Step>, m: Mac)
    requires s0.clients == map[]
    ensures SessionOf(s0, steps, m).Some? <==> m in Run(s0, steps).clients
    ensures m in Run(s0, steps).clients ==> SameTerms(SessionOf(s0, steps, m).value, Run(s0, steps).clients[m])
  {
    if steps != [] {
      hide Take, Revokes;
      var n := |steps| - 1;
      ClientsAreSessions(s0, steps[..n], m);
      ClientsStep(Run(s0, steps[..n]), steps[n], m);
    }
  }

  // ----- the tables as histories ----------------------------------------------------------

  /** The updates of one table, in order. */
  function OpsOf<K>(steps: seq<Step>, pick: Step -> Option<SetOp<K>>): seq<SetOp<K>> {
    if steps == [] then [] else
      var before := OpsOf(steps[..|steps| - 1], pick);
      var op := pick(steps[|steps| - 1]);
      if op.Some? then before + [op.value] else before
  }

  function BypassOps(steps: seq<Step>): seq<SetOp<Ip>> {
    OpsOf(steps, (t: Step) => if t.BypassOp? then Some(t.b) else None)
  }

  function L2Ops(steps: seq<Step>): seq<SetOp<Word>> {
    OpsOf(steps, (t: Step) => if t.L2Op? then Some(t.l) else None)
  }

  function ProtoOps(steps: seq<Step>): seq<SetOp<AllowKey>> {
    OpsOf(steps, (t: Step) => if t.ProtoOp? then Some(t.p) else None)
  }

  function GardenOps(steps: seq<Step>): seq<SetOp<WgKey>> {
    OpsOf(steps, (t: Step) => if t.GardenOp? then Some(KeyOp(t.g)) else None)
  }

  lemma OpsOfStep<K>(steps: seq<Step>, pick: Step -> Option<SetOp<K>>, capacity: nat)
    requires steps != []
    ensures var before, op := RunOps(OpsOf(steps[..|steps| - 1], pick), capacity), pick(steps[|steps| - 1]);
            RunOps(OpsOf(steps, pick), capacity) ==
            if op.Some? then Apply(before, op.value, capacity).0 else before
  {
    var ops := OpsOf(steps, pick);
    if pick(steps[|steps| - 1]).Some? {
      assert ops[..|ops| - 1] == OpsOf(steps[..|steps| - 1], pick);
    }
  }

  lemma TablesStep(s: State, step: Step)
    ensures var s' := Take(s, step).0;
            && s'.bypass == (if step.BypassOp? then Apply(s.bypass, step.b, BYPASS_CAPACITY).0 else s.bypass)
            && s'.l2 == (if step.L2Op? then Apply(s.l2, step.l, L2_CAPACITY).0 else s.l2)
            && s'.proto == (if step.ProtoOp? then Apply(s.proto, step.p, PROTO_CAPACITY).0 else s.proto)
            && s'.garden == (if step.GardenOp? then Apply(s.garden, KeyOp(step.g), WG_CAPACITY).0 else s.garden)
  {
    hide Apply;
    if step.IngressFrame? || step.EgressFrame? {
      FramesKeepTables(s, step);
    } else {
      hide Ingress, Egress, Add, Del, Resolve, NewClient, Zeros;
    }
  }

  lemma FramesKeepTables(s: State, step: Step)
    requires step.IngressFrame? || step.EgressFrame?
    ensures var s' := Take(s, step).0;
            s'.bypass == s.bypass && s'.l2 == s.l2 && s'.proto == s.proto && s'.garden == s.garden
  {
    hide Ingress, Egress, ClientsAfter, CountersAfterIngress, CountersAfterEgress;
  }

  predicate TablesMatch(z: State, steps: seq<Step>) {
    && z.bypass == RunOps(BypassOps(steps), BYPASS_CAPACITY)
    && z.l2 == RunOps(L2Ops(steps), L2_CAPACITY)
    && z.proto == RunOps(ProtoOps(steps), PROTO_CAPACITY)
    && z.garden == RunOps(GardenOps(steps), WG_CAPACITY)
  }

  /** Frames and client actions never touch the rule tables: each is the run of its own updates. */
  lemma {:induction false} TablesAreHistories(ncpu: Pos, portal: PortalCfg, ifb: nat, steps: seq<Step>)
    ensures var z := Run(Started(ncpu, portal, ifb), steps);
            TablesMatch(z, steps) && z.portal == portal && z.ncpu == ncpu && z.ifb == ifb
  {
    if steps != [] {
      hide Take, Apply, RunOps, KeyOp;
      var before := steps[..|steps| - 1];
      TablesAreHistories(ncpu, portal, ifb, before);
      TablesStep(Run(Started(ncpu, portal, ifb), before), steps[|steps| - 1]);
      OpsOfStep(steps, (t: Step) => if t.BypassOp? then Some(t.b) else None, BYPASS_CAPACITY);
      OpsOfStep(steps, (t: Step) => if t.L2Op? then Some(t.l) else None, L2_CAPACITY);
      OpsOfStep(steps, (t: Step) => if t.ProtoOp? then Some(t.p) else None, PROTO_CAPACITY);
      OpsOfStep(steps, (t: Step) => if t.GardenOp? then Some(KeyOp(t.g)) else None, WG_CAPACITY);
    }
  }

  // ----- ingress safety -------------------------------------------------------------------

  /** A session admits the frame: not past its expiry, a counter for the source address, and the
      shaper lets it through. */
  predicate SessionAdmits(z: State, session: Client, counted: bool, f: Frame, now: nat, edt: nat)
    requires IsIpv4(f)
  {
    && (session.expiry == 0 || now <= session.expiry)
    && counted
    && (SrcMac(f) in z.clients ==> !ApplyEdt(z.rates, z.clients[SrcMac(f)], f.len, edt, true).shot)
  }

  /** Why an IPv4 frame may leave ingress as it came, told by the history of the run. */
  predicate MayLeave(s0: State, steps: seq<Step>, f: Frame, key: AllowKey, now: nat, edt: nat)
    requires IsIpv4(f)
  {
    || Saddr(f) in RunOps(BypassOps(steps), BYPASS_CAPACITY)
    || if Daddr(f) == s0.portal.ip then AtPortalPort(f, s0.portal.port)
       else match SessionOf(s0, steps, SrcMac(f))
            case Some(session) =>
              SessionAdmits(Run(s0, steps), session, Accounting.HasCounter(s0, steps, Saddr(f)), f, now, edt)
            case None =>
              || ProtoAllowed(RunOps(ProtoOps(steps), PROTO_CAPACITY), key)
              || TrieHas(RunOps(GardenOps(steps), WG_CAPACITY), Native(Daddr(f)))
  }

  predicate LeavesAsItCame(o: Outcome, f: Frame) { o.Hook? && o.verdict != Drop && o.path != Redirected && o.out == f }

  /** One frame against one state: the admission rule with the tables as they stand. */
  lemma IngressDecides(s: State, cpu: nat, f: Frame, now: nat, edt: nat)
    requires cpu < s.ncpu && Classify(f).L3Ok?
    ensures LeavesAsItCame(Ingress(s, cpu, f, now, edt).1, f) <==>
            || Saddr(f) in s.bypass
            || if Daddr(f) == s.portal.ip then AtPortalPort(f, s.portal.port)
               else if SrcMac(f) in s.clients then
                 SessionAdmits(s, s.clients[SrcMac(f)], Saddr(f) in s.counters, f, now, edt)
               else ProtoAllowed(s.proto, Classify(f).key) || TrieHas(s.garden, Native(Daddr(f)))
  {
    hide Redirect, ProtoAllowed, TrieHas, Native, AtPortalPort, Learn, ClientsAfter, CountersAfterIngress, IngressAuth,
         SessionAdmits, Classify;
    if SrcMac(f) in s.clients {
      IngressAuthDecides(Learn(s, SrcMac(f), Saddr(f)), cpu, f, now, edt);
      SameAdmission(s, Learn(s, SrcMac(f), Saddr(f)), f, now, edt);
    }
  }

  lemma SameAdmission(s: State, t: State, f: Frame, now: nat, edt: nat)
    requires IsIpv4(f) && SrcMac(f) in s.clients
    requires t.clients == s.clients && t.rates == s.rates && t.counters == s.counters
    ensures SessionAdmits(t, t.clients[SrcMac(f)], Saddr(f) in t.counters, f, now, edt) ==
            SessionAdmits(s, s.clients[SrcMac(f)], Saddr(f) in s.counters, f, now, edt)
  {
    hide ApplyEdt;
  }

  lemma IngressAuthDecides(s: State, cpu: nat, f: Frame, now: nat, edt: nat)
    requires IsIpv4(f) && SrcMac(f) in s.clients && cpu < s.ncpu
    ensures IngressAuth(s, cpu, f, now, edt).1.verdict != Drop <==>
            SessionAdmits(s, s.clients[SrcMac(f)], Saddr(f) in s.counters, f, now, edt)
  {
    hide ApplyEdt, ClientsAfter, CountersAfterIngress;
  }

  /** Ingress safety over whole runs: after every run an IPv4 frame leaves undiverted exactly when
      the history allows it... */
  lemma SafetyOverRuns(ncpu: Pos, portal: PortalCfg, ifb: nat, steps: seq<Step>,
                       cpu: nat, f: Frame, now: nat, edt: nat)
    requires cpu < ncpu && Classify(f).L3Ok?
    ensures var s0 := Started(ncpu, portal, ifb);
            LeavesAsItCame(Take(Run(s0, steps), IngressFrame(cpu, f, now, edt)).1, f) <==>
            MayLeave(s0, steps, f, Classify(f).key, now, edt)
  {
    hide Ingress, Classify, Run, SessionOf, ProtoAllowed, TrieHas, Native, AtPortalPort, ApplyEdt, RunOps, OpsOf;
    var s0 := Started(ncpu, portal, ifb);
    TablesAreHistories(ncpu, portal, ifb, steps);
    ClientsAreSessions(s0, steps, SrcMac(f));
    Accounting.CountersAreHistory(s0, steps, Saddr(f));
    IngressDecides(Run(s0, steps), cpu, f, now, edt);
  }

  /** ... and every other frame is dropped or rewritten to the portal's address and port. */
  lemma OthersAreDiverted(s: State, cpu: nat, f: Frame, now: nat, edt: nat)
    requires cpu < s.ncpu
    ensures var o := Ingress(s, cpu, f, now, edt).1;
            o.Hook? && (o.verdict == Drop || LeavesAsItCame(o, f)
                        || (IsTcp(f) && Dport(f) == 80 && o.out == Rewrite(f, Dest, s.portal.ip, s.portal.port)))
  {
    if Ingress(s, cpu, f, now, edt).1.path == Redirected {
      Translation.IngressRedirected(s, cpu, f, now, edt);
      Translation.RedirectTcp(Learn(s, SrcMac(f), Saddr(f)), f, now);
      hide Redirect, Ingress;
    }
  }

  /** Other frames: a truncated one is dropped by both hooks, one that is not IPv4 passes both
      exactly when its EtherType stands in the level-2 table, and neither changes any map. */
  lemma OtherFramesOverRuns(ncpu: Pos, portal: PortalCfg, ifb: nat, steps: seq<Step>,
                            cpu: nat, f: Frame, now: nat, edt: nat)
    requires cpu < ncpu && !Classify(f).L3Ok?
    ensures var z := Run(Started(ncpu, portal, ifb), steps);
            var (s1, up) := Take(z, IngressFrame(cpu, f, now, edt));
            var (s2, down) := Take(z, EgressFrame(cpu, f, now));
            && s1 == z && s2 == z && up.Hook? && down.Hook? && up.out == f && down.out == f
            && (up.verdict == Pass <==> Classify(f).L2Only? && Classify(f).eth in RunOps(L2Ops(steps), L2_CAPACITY))
            && (up.verdict != Pass ==> up.verdict == Drop) && down.verdict == up.verdict
  {
    hide Run, IngressIp, EgressIp, Classify, RunOps, OpsOf;
    TablesAreHistories(ncpu, portal, ifb, steps);
  }

  // ----- egress ---------------------------------------------------------------------------

  /** Why an IPv4 frame that is not the portal's may pass egress. Expiry is not looked at, and the
      counter is the destination's. */
  predicate MayArrive(s: State, f: Frame, key: AllowKey)
    requires IsIpv4(f)
  {
    var dst := Daddr(f);
    || dst in s.bypass
    || if dst in s.ipMac && s.ipMac[dst] in s.clients then dst in s.counters
       else ProtoAllowed(s.proto, key) || TrieHas(s.garden, Native(Saddr(f)))
  }

  /** A frame that is not the portal's passes egress, unchanged, exactly when it may arrive, and is
      dropped otherwise; the portal's frames leave through the translation. */
  lemma EgressDecides(s: State, cpu: nat, f: Frame, now: nat)
    requires cpu < s.ncpu && Classify(f).L3Ok?
    ensures var o := Egress(s, cpu, f, now).1;
            && o.Hook?
            && (Saddr(f) != s.portal.ip ==>
                  o.out == f && o.verdict == if MayArrive(s, f, Classify(f).key) then Pass else Drop)
            && (Saddr(f) == s.portal.ip ==> (o.verdict, o.out) == Snat(s, f, now))
  {
    hide Snat, ProtoAllowed, TrieHas, Native, ClientsAfter, CountersAfterEgress, EgressAuth, Classify;
    if Daddr(f) in s.ipMac && s.ipMac[Daddr(f)] in s.clients {
      EgressAuthVerdict(s, cpu, f, s.ipMac[Daddr(f)], now);
    }
  }

  /** Downloads are not shot by the shaper. */
  lemma EgressAuthVerdict(s: State, cpu: nat, f: Frame, mac: Mac, now: nat)
    requires IsIpv4(f) && mac in s.clients && cpu < s.ncpu
    ensures EgressAuth(s, cpu, f, mac, now).1.verdict == if Daddr(f) in s.counters then Pass else Drop
  {
    hide Edt.Delay, Edt.Next, ClientsAfter, CountersAfterEgress;
  }

  /** Why an IPv4 frame that is not the portal's may pass egress, told by the history of the run:
      bindings, sessions, counters and tables. */
  predicate MayArriveAfter(s0: State, steps: seq<Step>, f: Frame, key: AllowKey)
    requires IsIpv4(f)
  {
    var dst, bound := Daddr(f), Bindings.Written(Bindings.Sightings(s0, steps)).1;
    || dst in RunOps(BypassOps(steps), BYPASS_CAPACITY)
    || if dst in bound && SessionOf(s0, steps, bound[dst]).Some? then Accounting.HasCounter(s0, steps, dst)
       else ProtoAllowed(RunOps(ProtoOps(steps), PROTO_CAPACITY), key)
            || TrieHas(RunOps(GardenOps(steps), WG_CAPACITY), Native(Saddr(f)))
  }

  /** Over whole runs: a download to an address bound to a MAC with a session passes exactly when
      the address has a counter, even past the session's expiry. */
  lemma DownloadsOverRuns(ncpu: Pos, portal: PortalCfg, ifb: nat, steps: seq<Step>, cpu: nat, f: Frame, now: nat)
    requires cpu < ncpu && Classify(f).L3Ok? && Saddr(f) != portal.ip
    ensures var s0 := Started(ncpu, portal, ifb);
            var o := Take(Run(s0, steps), EgressFrame(cpu, f, now)).1;
            && o.Hook? && o.out == f
            && o.verdict == if MayArriveAfter(s0, steps, f, Classify(f).key) then Pass else Drop
  {
    hide Egress, Classify, Run, SessionOf, ProtoAllowed, TrieHas, Native, RunOps, OpsOf,
         Bindings.Written, Bindings.Sightings, Accounting.HasCounter;
    var s0 := Started(ncpu, portal, ifb);
    var z := Run(s0, steps);
    TablesAreHistories(ncpu, portal, ifb, steps);
    Bindings.DatapathBindings(s0, steps);
    Accounting.CountersAreHistory(s0, steps, Daddr(f));
    if Daddr(f) in z.ipMac {
      ClientsAreSessions(s0, steps, z.ipMac[Daddr(f)]);
    }
    EgressDecides(z, cpu, f, now);
  }

  // ----- expiry is final ------------------------------------------------------------------

  /** The step is a frame of m, in either direction, on the authenticated path. */
  predicate TakesAuthPath(s: State, step: Step, m: Mac) {
    var o := Take(s, step).1;
    && o.Hook? && o.path == Authenticated
    && match step
       case IngressFrame(_, f, _, _) => HasEth(f) && SrcMac(f) == m
       case EgressFrame(_, f, _) => IsIpv4(f) && Daddr(f) in s.ipMac && s.ipMac[Daddr(f)] == m
       case _ => false
  }

  predicate GrantsTo(s: State, step: Step, m: Mac) {
    var o := Take(s, step).1; o.Added? && o.mac == m
  }

  lemma AuthPathNeedsEntry(s: State, step: Step, m: Mac)
    requires TakesAuthPath(s, step, m)
    ensures m in s.clients
  {
    hide Ingress, Egress;
  }

  lemma EntryStaysAbsent(s: State, step: Step, m: Mac)
    requires m !in s.clients && !GrantsTo(s, step, m)
    ensures m !in Take(s, step).0.clients
  {
    hide Take, Revokes;
    ClientsStep(s, step, m);
  }

  lemma {:induction false} NoEntryUntilAdd(s: State, steps: seq<Step>, m: Mac)
    requires m !in s.clients
    requires forall j | 0 <= j < |steps| :: !GrantsTo(At(s, steps, j), steps[j], m)
    ensures m !in Run(s, steps).clients
  {
    hide Take, GrantsTo;
    if steps != [] {
      var n := |steps| - 1;
      AtPrefix(s, steps, n);
      NoEntryUntilAdd(s, steps[..n], m);
      EntryStaysAbsent(Run(s, steps[..n]), steps[n], m);
    }
  }

  /** A frame of m that reaches the auth step past its expiry is shot and ends the session... */
  lemma PastExpiry(s: State, cpu: nat, f: Frame, now: nat, edt: nat)
    requires cpu < s.ncpu && Classify(f).L3Ok? && Saddr(f) !in s.bypass && Daddr(f) != s.portal.ip
    requires SrcMac(f) in s.clients && 0 < s.clients[SrcMac(f)].expiry < now
    ensures var (s', o) := Ingress(s, cpu, f, now, edt);
            o.path == Expired && o.verdict == Drop && SrcMac(f) !in s'.clients
  {
    hide Redirect, ProtoAllowed, TrieHas, Native, AtPortalPort, Learn;
  }

  /** ... and no later frame in either direction takes the authenticated path for m until a new
      successful add. */
  lemma ExpiryIsFinal(s: State, hit: Step, later: seq<Step>, m: Mac, j: nat)
    requires var (s1, o) := Take(s, hit);
             && hit.IngressFrame? && HasEth(hit.f) && SrcMac(hit.f) == m && o.Hook? && o.path == Expired
             && forall i | 0 <= i < |later| :: !GrantsTo(At(s1, later, i), later[i], m)
    requires j < |later|
    ensures !TakesAuthPath(At(Take(s, hit).0, later, j), later[j], m)
  {
    hide Take, TakesAuthPath, GrantsTo;
    var s1 := Take(s, hit).0;
    ClientsStep(s, hit, m);
    forall i | 0 <= i < j
      ensures At(s1, later[..j], i) == At(s1, later, i)
    {
      assert later[..j][..i] == later[..i];
    }
    NoEntryUntilAdd(s1, later[..j], m);
    if TakesAuthPath(At(s1, later, j), later[j], m) {
      AuthPathNeedsEntry(At(s1, later, j), later[j], m);
    }
  }

  // ----- changing address -----------------------------------------------------------------

  /** A session does not by itself survive a change of address: a frame of a MAC with a live session
      that the shaper admits passes exactly when a counter exists for the address it comes from. */
  lemma SurvivesIpChangeIff(s: State, cpu: nat, f: Frame, now: nat, edt: nat)
    requires cpu < s.ncpu && Classify(f).L3Ok? && Saddr(f) !in s.bypass && Daddr(f) != s.portal.ip
    requires SrcMac(f) in s.clients && (s.clients[SrcMac(f)].expiry == 0 || now <= s.clients[SrcMac(f)].expiry)
    requires !ApplyEdt(s.rates, s.clients[SrcMac(f)], f.len, edt, true).shot
    ensures LeavesAsItCame(Ingress(s, cpu, f, now, edt).1, f) <==> Saddr(f) in s.counters
  {
    hide Ingress, ProtoAllowed, TrieHas, Native, AtPortalPort, ApplyEdt;
    IngressDecides(s, cpu, f, now, edt);
  }

  /** There is an entry, or room for one. */
  predicate ClientFits(s: State, m: Mac) { m in s.clients || |s.clients| < 4096 }

  predicate CounterFits(s: State, ip: Ip) { ip in s.counters || |s.counters| < 4096 }

  /** How an add ends: it succeeds exactly when the pair resolves and both entries fit, and rolls
      back exactly when the counter alone does not. */
  lemma AddOutcomes(s: State, a: AddArgs, now: nat)
    ensures var o, pair := Add(s, a, now).1, Resolve(s, a);
            && (o.Added? <==>
                  pair.Some? && ClientFits(s, pair.value.0) && CounterFits(s, pair.value.1))
            && (o.AddFailed? && o.removed.Some? <==>
                  pair.Some? && ClientFits(s, pair.value.0) && !CounterFits(s, pair.value.1))
            && (o.AddFailed? || o.Added?)
  {
    hide NewClient, Zeros, RateId, Resolve;
  }

  /** Exactly when an add ends a session: when its MAC has one and the counter of its address is
      missing and does not fit. */
  lemma FailedAddEndsSessionIff(s: State, a: AddArgs, now: nat, m: Mac)
    ensures (m in s.clients && m !in Add(s, a, now).0.clients) <==>
            && m in s.clients && Resolve(s, a).Some? && Resolve(s, a).value.0 == m
            && !CounterFits(s, Resolve(s, a).value.1)
  {
    hide NewClient, Zeros, RateId;
  }

  /** Deleting one client deletes its rate profile: another client stays shaped exactly when it does
      not share the profile id, which is only a last octet or byte. */
  lemma DeleteUnshapesNeighbours(s: State, gone: Mac, m: Mac, up: bool)
    requires gone in s.clients && m in s.clients && m != gone
    ensures var s' := Del(s, gone).0;
            && m in s'.clients
            && ProfileOf(s'.rates, s'.clients[m], up) ==
               if s.clients[m].rateId == s.clients[gone].rateId then None else ProfileOf(s.rates, s.clients[m], up)
  {
  }

  /** Adding one client sets its profile, unless the rate map is full, and with it that of every
      client with the same id: one added without a limit in one direction shares id 0 with all such
      clients, and shapes them in the other direction. A limit of one kbit/s is 125 bytes a second,
      and the burst depth is 100 ms. */
  lemma AddReshapesNeighbours(s: State, a: AddArgs, now: nat, m: Mac, up: bool)
    requires Add(s, a, now).1.Added?
    requires m in s.clients && m != Add(s, a, now).1.mac
    ensures var s' := Add(s, a, now).0;
            var kbit := if up then a.uLimit else a.dLimit;
            && m in s'.clients
            && ProfileOf(s'.rates, s'.clients[m], up) ==
               if s.clients[m].rateId != RateId(a) || (RateId(a) !in s.rates && |s.rates| >= 256) then
                 ProfileOf(s.rates, s.clients[m], up)
               else if kbit == 0 then None else Some((125 * kbit, if up then Some(100_000_000) else None))
  {
    hide RateId, Zeros;
    assert KbitToBps(a.uLimit) == 125 * a.uLimit && KbitToBps(a.dLimit) == 125 * a.dLimit by { Bytes125(a); }
    hide KbitToBps;
  }

  lemma Bytes125(a: AddArgs)
    ensures KbitToBps(a.uLimit) == 125 * a.uLimit && KbitToBps(a.dLimit) == 125 * a.dLimit
  {
    assert a.uLimit * 1000 == 8 * (125 * a.uLimit);
    assert a.dLimit * 1000 == 8 * (125 * a.dLimit);
  }

  // ----- what an add grants ---------------------------------------------------------------

  /** The session of m was granted at ip: entry, end, and fresh counters. */
  predicate GrantedAt(s: State, r: (State, Outcome), a: AddArgs, now: nat, m: Mac, ip: Ip) {
    && r.1.Added? && r.1.mac == m && r.1.ip == ip
    && m in r.0.clients && ip in r.0.counters && r.0.ncpu == s.ncpu
    && r.0.clients[m].expiry == (if a.expire > 0 then now + a.expire * 1_000_000_000 else 0)
    && r.0.clients[m].idle == (if a.idle > 0 then a.idle * 1_000_000_000 else 0)
    && r.0.clients[m].auth == r.0.clients[m].lastU == r.0.clients[m].lastD == now
    && forall cpu | 0 <= cpu < s.ncpu :: r.0.counters[ip][cpu] == Counter(0, 0, 0, 0, 0, AUTH_OK)
  }

  predicate HasRoom(s: State, m: Mac, ip: Ip) { ClientFits(s, m) && CounterFits(s, ip) }

  lemma PairGranted(s: State, a: AddArgs, now: nat, m: Mac, ip: Ip)
    requires Resolve(s, a) == Some((m, ip)) && HasRoom(s, m, ip)
    ensures GrantedAt(s, Add(s, a, now), a, now, m, ip)
  {
    hide RateId, Resolve;
  }

  /** Which pair an add concerns, and that it is granted where both entries fit: the pair as given,
      or completed by the bindings; with no binding, or neither half, it fails and changes nothing. */
  lemma AddsGrant(s: State, a: AddArgs, now: nat)
    ensures a.mac.Some? && a.ip.Some? && HasRoom(s, a.mac.value, a.ip.value) ==>
              GrantedAt(s, Add(s, a, now), a, now, a.mac.value, a.ip.value)
    ensures a.mac.None? && a.ip.Some? && a.ip.value in s.ipMac && HasRoom(s, s.ipMac[a.ip.value], a.ip.value) ==>
              GrantedAt(s, Add(s, a, now), a, now, s.ipMac[a.ip.value], a.ip.value)
    ensures a.mac.Some? && a.ip.None? && a.mac.value in s.macIp && HasRoom(s, a.mac.value, s.macIp[a.mac.value]) ==>
              GrantedAt(s, Add(s, a, now), a, now, a.mac.value, s.macIp[a.mac.value])
    ensures || (a.mac.None? && (a.ip.None? || a.ip.value !in s.ipMac))
            || (a.mac.Some? && a.ip.None? && a.mac.value !in s.macIp) ==>
              Add(s, a, now) == (s, AddFailed(None))
  {
    hide Add, GrantedAt, HasRoom;
    var pair := Resolve(s, a);
    if pair.Some? && HasRoom(s, pair.value.0, pair.value.1) {
      PairGranted(s, a, now, pair.value.0, pair.value.1);
    } else if pair.None? {
      Unresolved(s, a, now);
    }
  }

  lemma Unresolved(s: State, a: AddArgs, now: nat)
    requires Resolve(s, a) == None
    ensures Add(s, a, now) == (s, AddFailed(None))
  {
    hide Resolve, AddPair;
  }

  /** A new session starts with an empty bucket: its first packet, sampled no earlier than the add,
      is stamped with its own delay and shot only if that alone exceeds the horizon. */
  lemma NewSessionStartsEmpty(rates: map<nat, RateCfg>, c: Client, len: nat, added: nat, now: nat, up: bool)
    requires c.lastU == added && c.lastD == added && added <= now && ProfileOf(rates, c, up).Some?
    ensures var (rate, h) := ProfileOf(rates, c, up).value;
            var delay, e := len * 1_000_000_000 / rate, ApplyEdt(rates, c, len, now, up);
            && (e.shot <==> h.Some? && delay > h.value)
            && (!e.shot ==> e.stamp == Some(now + delay))
  {
  }

  /** The profile id of a limited client is the last octet of its address, or without an address the
      last byte of its MAC; so two limited adds whose last octets or bytes differ leave each other's
      profile alone. */
  lemma LimitedAddsKeepApart(s: State, a: AddArgs, b: AddArgs, now: nat, now': nat, up: bool)
    requires a.dLimit > 0 && a.uLimit > 0 && b.dLimit > 0 && b.uLimit > 0
    requires Add(s, a, now).1.Added? && Add(Add(s, a, now).0, b, now').1.Added?
    requires Add(s, a, now).1.mac != Add(Add(s, a, now).0, b, now').1.mac
    requires match (a.ip, b.ip)
             case (Some(i), Some(j)) => i.lo % 256 != j.lo % 256
             case (None, None) => a.mac.Some? && b.mac.Some? && a.mac.value.c % 256 != b.mac.value.c % 256
             case _ => false
    ensures var s1 := Add(s, a, now).0;
            var s2, m := Add(s1, b, now').0, Add(s, a, now).1.mac;
            && m in s1.clients && m in s2.clients
            && ProfileOf(s2.rates, s2.clients[m], up) == ProfileOf(s1.rates, s1.clients[m], up)
  {
    var (s1, o) := Add(s, a, now);
    assert s1.clients[o.mac].rateId == RateId(a) != RateId(b) by { hide Zeros, NewRate; }
    hide Add, RateId;
    AddReshapesNeighbours(s1, b, now', o.mac, up);
  }

  /** del by address ends the session of the MAC bound to it, with the counter of that MAC's own
      address, and fails without a binding. */
  lemma DelByAddress(s: State, ip: Ip)
    ensures var (s', o) := Take(s, DelByIp(ip));
            if ip in s.ipMac then
              var m := s.ipMac[ip];
              && m !in s'.clients && (forall k | k in s.clients && k != m :: k in s'.clients)
              && (m in s.macIp ==> s.macIp[m] !in s'.counters)
              && (m in s.clients ==> s.clients[m].rateId !in s'.rates)
            else s' == s && o == Done(false)
  {
  }

  /** map-del fails without an entry, and so the second time. */
  lemma MapDelTwice(s: State, m: Mac, ip: Ip, port: Word)
    ensures var (s', o) := Take(s, MapDelClient(m));
            o.Done? && (o.ok <==> m in s.clients) && Take(s', MapDelClient(m)) == (s', Done(false))
    ensures var (s', o) := Take(s, MapDelConntrack(ip, port));
            && o.Done? && (o.ok <==> CtKey(ip, port % 256 * 256 + port / 256) in s.conntrack)
            && Take(s', MapDelConntrack(ip, port)) == (s', Done(false))
  {
    hide Ingress, Egress, Add, Del;
    var key := CtKey(ip, SwapPort(port));
    assert (s.clients - {m}) - {m} == s.clients - {m} && (s.conntrack - {key}) - {key} == s.conntrack - {key};
  }

  /** How much the rule tables and the garden hold: a new entry is refused exactly at these sizes. */
  lemma TableSizes(s: State, ip: Ip, eth: Word, k: AllowKey)
    ensures Take(s, BypassOp(Put(Some(ip)))).1 == Done(ip in s.bypass || |s.bypass| < 256)
    ensures Take(s, L2Op(Put(Some(eth)))).1 == Done(eth in s.l2 || |s.l2| < 16)
    ensures Take(s, ProtoOp(Put(Some(k)))).1 == Done(k in s.proto || |s.proto| < 64)
  {
    hide Apply, Ingress, Egress, Add, Del;
    OneOperation(s.bypass, ip, 256);
    OneOperation(s.l2, eth, 16);
    OneOperation(s.proto, k, 64);
  }

  lemma GardenSize(s: State, c: Cidr)
    ensures var key := ParseCidr(c);
            Take(s, GardenOp(WgAdd(c))).1 == Done(key.Some? && (key.value in s.garden || |s.garden| < 64))
  {
    hide Ingress, Egress, Add, Del, ParseCidr;
  }

  // ----- single answers of ingress --------------------------------------------------------

  /** A frame to the portal's address whose IP header has no options leaves exactly when it is
      complete TCP to the portal's port. */
  lemma PortalPort(s: State, cpu: nat, f: Frame, now: nat, edt: nat)
    requires cpu < s.ncpu && Classify(f).L3Ok? && Ihl(f) == 5
    requires Saddr(f) !in s.bypass && Daddr(f) == s.portal.ip
    ensures LeavesAsItCame(Ingress(s, cpu, f, now, edt).1, f) <==> IsTcp(f) && Dport(f) == s.portal.port
    ensures !LeavesAsItCame(Ingress(s, cpu, f, now, edt).1, f) ==> Ingress(s, cpu, f, now, edt).1.verdict == Drop
  {
    hide Learn, ClientsAfter, CountersAfterIngress;
  }

  /** Authenticated uploads that leave go to the IFB exactly when one is configured, and nothing else
      does. */
  lemma OnlySessionsUseIfb(s: State, cpu: nat, f: Frame, now: nat, edt: nat)
    requires cpu < s.ncpu && Classify(f).L3Ok?
    ensures var o := Ingress(s, cpu, f, now, edt).1;
            if Saddr(f) !in s.bypass && Daddr(f) != s.portal.ip && SrcMac(f) in s.clients && o.verdict != Drop then
              o.verdict == (if s.ifb == 0 then Pass else ToIfb(s.ifb))
            else !o.verdict.ToIfb?
  {
    hide Redirect, IngressAuth, IngressGuest, IngressPortal, Learn, Classify, ClientsAfter, CountersAfterIngress;
    var t := Learn(s, SrcMac(f), Saddr(f));
    if SrcMac(f) in t.clients {
      AuthUsesIfb(t, cpu, f, now, edt);
    }
    GuestsAvoidIfb(t, f, Classify(f), now);
  }

  lemma AuthUsesIfb(s: State, cpu: nat, f: Frame, now: nat, edt: nat)
    requires IsIpv4(f) && SrcMac(f) in s.clients && cpu < s.ncpu
    ensures var v := IngressAuth(s, cpu, f, now, edt).1.verdict;
            v == Drop || v == if s.ifb == 0 then Pass else ToIfb(s.ifb)
  {
    hide ApplyEdt, ClientsAfter, CountersAfterIngress;
  }

  lemma GuestsAvoidIfb(s: State, f: Frame, c: Class, now: nat)
    requires IsIpv4(f)
    ensures c.L3Ok? ==> !IngressGuest(s, f, c.key, now).1.verdict.ToIfb?
    ensures !IngressPortal(s, f).1.verdict.ToIfb?
  {
    hide ProtoAllowed, Native, AtPortalPort, RewriteAddr, RewritePort;
  }
}
