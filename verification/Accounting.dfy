/** Per-CPU accounting over whole runs and its aggregation. */
module Accounting {
  import opened Net
  import opened Frames
  import opened Datapath
  import opened History

  // ----- aggregate_percpu -----------------------------------------------------------------

  /** Sums over the CPUs, and maxima of last_seen and state. */
  function Merge(a: Counter, b: Counter): Counter {
    Counter(a.uPackets + b.uPackets, a.uBytes + b.uBytes, a.dPackets + b.dPackets, a.dBytes + b.dBytes,
            Max(a.lastSeen, b.lastSeen), Max(a.state, b.state))
  }

  function Total(row: seq<Counter>): Counter {
    if row == [] then ZERO_COUNTER else Merge(Total(row[..|row| - 1]), row[|row| - 1])
  }

  method AggregatePercpu(percpu: seq<Counter>) returns (out: Counter)
    ensures out == Total(percpu)
  {
    out := ZERO_COUNTER;
    for i := 0 to |percpu|
      invariant out == Total(percpu[..i])
    {
      var c := percpu[i];
      out := out.(uPackets := out.uPackets + c.uPackets, uBytes := out.uBytes + c.uBytes,
                  dPackets := out.dPackets + c.dPackets, dBytes := out.dBytes + c.dBytes);
      if c.lastSeen > out.lastSeen {
        out := out.(lastSeen := c.lastSeen);
      }
      if c.state > out.state {
        out := out.(state := c.state);
      }
      assert percpu[..i + 1][..i] == percpu[..i];
    }
    assert percpu[..|percpu|] == percpu;
  }

  lemma {:induction false} TotalOfZeros(row: seq<Counter>)
    requires forall c | c in row :: c == ZERO_COUNTER
    ensures Total(row) == ZERO_COUNTER
  {
    if row != [] {
      var before := row[..|row| - 1];
      forall c | c in before
        ensures c in row
      {
      }
      TotalOfZeros(before);
      assert row[|row| - 1] in row;
    }
  }

  /** How a total moves when one slot changes from c to c'. */
  predicate Moves(t: Counter, t': Counter, c: Counter, c': Counter) {
    && t'.uPackets == t.uPackets + c'.uPackets - c.uPackets
    && t'.uBytes == t.uBytes + c'.uBytes - c.uBytes
    && t'.dPackets == t.dPackets + c'.dPackets - c.dPackets
    && t'.dBytes == t.dBytes + c'.dBytes - c.dBytes
    && (c'.lastSeen >= c.lastSeen ==>
          t'.lastSeen == if c'.lastSeen == c.lastSeen then t.lastSeen else Max(t.lastSeen, c'.lastSeen))
    && (c'.state >= c.state ==> t'.state == if c'.state == c.state then t.state else Max(t.state, c'.state))
    && t.lastSeen >= c.lastSeen && t.state >= c.state
  }

  /** Replacing one slot moves each sum by the slot's difference. */
  lemma {:induction false} TotalUpdate(row: seq<Counter>, cpu: nat, c: Counter)
    requires cpu < |row|
    ensures Moves(Total(row), Total(row[cpu := c]), row[cpu], c)
  {
    var n := |row| - 1;
    if cpu == n {
      assert row[cpu := c][..n] == row[..n];
    } else {
      TotalUpdate(row[..n], cpu, c);
      assert row[cpu := c][..n] == row[..n][cpu := c];
      assert row[..n][cpu] == row[cpu];
    }
  }

  // ----- what the history says ------------------------------------------------------------

  /** What one step adds to the usage of ip: a frame that leaves by the authenticated path is
      counted, an expiry is noted, a successful add or a delete resets. */
  function UsageAfter(before: Counter, step: Step, o: Outcome, ip: Ip): (u: Counter)
    ensures before.state <= EXPIRE ==> u.state <= EXPIRE
  {
    match step
    case IngressFrame(_, f, now, _) =>
      if !(o.Hook? && IsIpv4(f) && Saddr(f) == ip) then before
      else if o.path == Authenticated then
        Counter(before.uPackets + 1, before.uBytes + f.len, before.dPackets, before.dBytes,
                if now > before.lastSeen then now else before.lastSeen, before.state)
      else if o.path == Expired then before.(state := EXPIRE)
      else before
    case EgressFrame(_, f, _) =>
      if o.Hook? && IsIpv4(f) && Daddr(f) == ip && o.path == Authenticated then
        Counter(before.uPackets, before.uBytes, before.dPackets + 1, before.dBytes + f.len,
                before.lastSeen, before.state)
      else before
    case _ =>
      if (o.Added? && o.ip == ip) || (o.Deleted? && o.bound == Some(ip)) then ZERO_COUNTER else before
  }

  function UsageOf(s0: State, steps: seq<Step>, ip: Ip): (u: Counter)
    ensures u.state <= EXPIRE
  {
    if steps == [] then ZERO_COUNTER else
      var n := |steps| - 1;
      UsageAfter(UsageOf(s0, steps[..n], ip), steps[n], Take(Run(s0, steps[..n]), steps[n]).1, ip)
  }

  /** Each CPU's clock samples are in order. */
  ghost predicate CpuClocksInOrder(steps: seq<Step>) {
    forall i, j | 0 <= i < j < |steps| && steps[i].IngressFrame? && steps[j].IngressFrame?
                  && steps[i].cpu == steps[j].cpu :: steps[i].now <= steps[j].now
  }

  predicate SeenAt(steps: seq<Step>, i: nat, cpu: nat, now: nat)
    requires i < |steps|
  {
    steps[i].IngressFrame? && steps[i].cpu == cpu && steps[i].now == now
  }

  /** last_seen of a slot is 0 or the sample of an earlier frame on that CPU; its state is AUTH_OK
      or EXPIRE. */
  predicate SlotFrom(steps: seq<Step>, cpu: nat, c: Counter) {
    c.state <= EXPIRE && (c.lastSeen == 0 || exists i: nat | i < |steps| :: SeenAt(steps, i, cpu, c.lastSeen))
  }

  ghost predicate SlotsFrom(steps: seq<Step>, s: State) {
    forall ip, cpu | ip in s.counters && 0 <= cpu < s.ncpu :: SlotFrom(steps, cpu, s.counters[ip][cpu])
  }

  /** The counters of one address after a step, told by the outcome. */
  predicate CounterFollows(s: State, step: Step, r: (State, Outcome), ip: Ip) {
    var (s', o) := r;
    && s'.ncpu == s.ncpu
    && match step
       case IngressFrame(cpu, f, now, _) =>
         if o.Hook? && cpu < s.ncpu && IsIpv4(f) && Saddr(f) == ip && ip in s.counters
            && o.path in {Authenticated, Expired} then
           var c := s.counters[ip][cpu];
           && ip in s'.counters
           && s'.counters[ip] == s.counters[ip]
              [cpu := if o.path == Authenticated then CountUp(c, f.len, now) else c.(state := EXPIRE)]
         else
           && SameCounter(s, s', ip)
           && !(o.Hook? && IsIpv4(f) && Saddr(f) == ip
                && (o.path == Authenticated || (o.path == Expired && ip in s.counters)))
       case EgressFrame(cpu, f, _) =>
         if o.Hook? && cpu < s.ncpu && IsIpv4(f) && Daddr(f) == ip && o.path == Authenticated then
           && ip in s.counters && ip in s'.counters
           && s'.counters[ip] == s.counters[ip][cpu := CountDown(s.counters[ip][cpu], f.len)]
         else SameCounter(s, s', ip) && !(o.Hook? && IsIpv4(f) && Daddr(f) == ip && o.path == Authenticated)
       case _ =>
         if o.Added? && o.ip == ip then ip in s'.counters && s'.counters[ip] == Zeros(s.ncpu)
         else if o.Deleted? && o.bound == Some(ip) then ip !in s'.counters
         else SameCounter(s, s', ip)
  }

  predicate SameCounter(s: State, s': State, ip: Ip) {
    (ip in s'.counters <==> ip in s.counters) && (ip in s.counters ==> s'.counters[ip] == s.counters[ip])
  }

  lemma FrameCounters(s: State, step: Step, ip: Ip)
    requires step.IngressFrame? || step.EgressFrame?
    ensures CounterFollows(s, step, Take(s, step), ip)
  {
    hide Ingress, Egress, CountUp, CountDown, ClientsAfter;
  }

  lemma ActionCounters(s: State, step: Step, ip: Ip)
    requires !step.IngressFrame? && !step.EgressFrame?
    ensures CounterFollows(s, step, Take(s, step), ip)
  {
    hide Add, Del, Zeros, Resolve, NewClient, Apply;
    if step.AddClient? {
      AddCounters(s, step.args, step.now, ip);
    }
  }

  lemma AddCounters(s: State, a: AddArgs, now: nat, ip: Ip)
    ensures CounterFollows(s, AddClient(a, now), Add(s, a, now), ip)
  {
    hide Add, Zeros, Resolve, NewClient;
  }

  lemma CounterStep(s: State, step: Step, ip: Ip)
    ensures CounterFollows(s, step, Take(s, step), ip)
  {
    hide Take, CounterFollows;
    if step.IngressFrame? || step.EgressFrame? {
      FrameCounters(s, step, ip);
    } else {
      ActionCounters(s, step, ip);
    }
  }

  lemma SlotsStep(s: State, steps: seq<Step>)
    requires steps != [] && SlotsFrom(steps[..|steps| - 1], s)
    ensures SlotsFrom(steps, Take(s, steps[|steps| - 1]).0)
  {
    var step := steps[|steps| - 1];
    var r := Take(s, step);
    forall ip, cpu | ip in r.0.counters && 0 <= cpu < r.0.ncpu
      ensures SlotFrom(steps, cpu, r.0.counters[ip][cpu])
    {
      hide Take, CounterFollows, SlotFrom;
      CounterStep(s, step, ip);
      SlotStep(s, steps, r, ip, cpu);
    }
  }

  lemma SlotStep(s: State, steps: seq<Step>, r: (State, Outcome), ip: Ip, cpu: nat)
    requires steps != [] && SlotsFrom(steps[..|steps| - 1], s)
    requires CounterFollows(s, steps[|steps| - 1], r, ip) && ip in r.0.counters && cpu < r.0.ncpu
    ensures SlotFrom(steps, cpu, r.0.counters[ip][cpu])
  {
    var n := |steps| - 1;
    if ip in s.counters {
      SlotGrows(steps, cpu, s.counters[ip][cpu]);
    }
    if steps[n].IngressFrame? && steps[n].cpu == cpu {
      assert SeenAt(steps, n, cpu, steps[n].now);
    }
  }

  lemma SlotGrows(steps: seq<Step>, cpu: nat, c: Counter)
    requires steps != [] && SlotFrom(steps[..|steps| - 1], cpu, c)
    ensures SlotFrom(steps, cpu, c)
  {
    var before := steps[..|steps| - 1];
    if c.lastSeen != 0 {
      var i: nat :| i < |before| && SeenAt(before, i, cpu, c.lastSeen);
      assert SeenAt(steps, i, cpu, c.lastSeen);
    }
  }

  /** Before a frame is counted, its CPU's slot holds no later time. */
  lemma SlotNotLater(s: State, steps: seq<Step>, ip: Ip)
    requires steps != [] && CpuClocksInOrder(steps) && SlotsFrom(steps[..|steps| - 1], s)
    requires steps[|steps| - 1].IngressFrame? && steps[|steps| - 1].cpu < s.ncpu && ip in s.counters
    ensures s.counters[ip][steps[|steps| - 1].cpu].lastSeen <= steps[|steps| - 1].now
  {
    var n := |steps| - 1;
    var c := s.counters[ip][steps[n].cpu];
    assert SlotFrom(steps[..n], steps[n].cpu, c);
    if c.lastSeen != 0 {
      var i: nat :| i < n && SeenAt(steps[..n], i, steps[n].cpu, c.lastSeen);
      assert steps[i] == steps[..n][i];
    }
  }

  /** A counter but for its time stamp. */
  function Timeless(c: Counter): Counter { c.(lastSeen := 0) }

  /** One step moves the sums and the state of an address as it moves its usage. */
  lemma SumsFollow(s: State, step: Step, r: (State, Outcome), ip: Ip, before: Counter)
    requires CounterFollows(s, step, r, ip)
    requires ip in s.counters ==> Timeless(Total(s.counters[ip])) == Timeless(before) && before.state <= EXPIRE
    requires ip in s.counters && step.IngressFrame? && step.cpu < s.ncpu ==> s.counters[ip][step.cpu].state <= EXPIRE
    ensures ip in r.0.counters ==> Timeless(Total(r.0.counters[ip])) == Timeless(UsageAfter(before, step, r.1, ip))
  {
    hide Total;
    TotalOfZeros(Zeros(s.ncpu));
    if ip in s.counters && step.IngressFrame? && step.cpu < s.ncpu {
      var row, c := s.counters[ip], s.counters[ip][step.cpu];
      TotalUpdate(row, step.cpu, CountUp(c, step.f.len, step.now));
      TotalUpdate(row, step.cpu, c.(state := EXPIRE));
    } else if ip in s.counters && step.EgressFrame? && step.cpu < s.ncpu {
      TotalUpdate(s.counters[ip], step.cpu, CountDown(s.counters[ip][step.cpu], step.f.len));
    }
  }

  /** Likewise its time stamp, when the slot that is written holds no later time. */
  lemma SeenFollows(s: State, step: Step, r: (State, Outcome), ip: Ip, before: Counter)
    requires CounterFollows(s, step, r, ip)
    requires ip in s.counters ==> Total(s.counters[ip]).lastSeen == before.lastSeen
    requires ip in s.counters && step.IngressFrame? && step.cpu < s.ncpu ==>
               s.counters[ip][step.cpu].lastSeen <= step.now && s.counters[ip][step.cpu].state <= EXPIRE
    ensures ip in r.0.counters ==> Total(r.0.counters[ip]).lastSeen == UsageAfter(before, step, r.1, ip).lastSeen
  {
    hide Total;
    TotalOfZeros(Zeros(s.ncpu));
    if ip in s.counters && step.IngressFrame? && step.cpu < s.ncpu {
      var row, c := s.counters[ip], s.counters[ip][step.cpu];
      TotalUpdate(row, step.cpu, CountUp(c, step.f.len, step.now));
      TotalUpdate(row, step.cpu, c.(state := EXPIRE));
    } else if ip in s.counters && step.EgressFrame? && step.cpu < s.ncpu {
      TotalUpdate(s.counters[ip], step.cpu, CountDown(s.counters[ip][step.cpu], step.f.len));
    }
  }

  lemma SlotStateSmall(s: State, steps: seq<Step>, ip: Ip, cpu: nat)
    requires SlotsFrom(steps, s) && ip in s.counters && cpu < s.ncpu
    ensures s.counters[ip][cpu].state <= EXPIRE
  {
    assert SlotFrom(steps, cpu, s.counters[ip][cpu]);
  }

  lemma {:induction false} SlotsRun(s0: State, steps: seq<Step>)
    requires s0.counters == map[]
    ensures SlotsFrom(steps, Run(s0, steps))
  {
    if steps != [] {
      hide Take, SlotsFrom;
      SlotsRun(s0, steps[..|steps| - 1]);
      SlotsStep(Run(s0, steps[..|steps| - 1]), steps);
    } else {
      SlotsEmpty(s0);
    }
  }

  /** Accounting conservation: after every run, for every address with a counter, the sums over
      the CPUs are exactly the packets and bytes of the frames that left by the authenticated
      path since the last reset, and the state is EXPIRE exactly when an expiry hit the address
      since. */
  lemma {:induction false} Conservation(s0: State, steps: seq<Step>, ip: Ip)
    requires s0.counters == map[]
    ensures var z := Run(s0, steps);
            ip in z.counters ==> Timeless(Total(z.counters[ip])) == Timeless(UsageOf(s0, steps, ip))
  {
    if steps != [] {
      hide Take, SlotsFrom, CounterFollows, UsageAfter, Total;
      var n := |steps| - 1;
      var s, step := Run(s0, steps[..n]), steps[n];
      Conservation(s0, steps[..n], ip);
      SlotsRun(s0, steps[..n]);
      CounterStep(s, step, ip);
      if ip in s.counters && step.IngressFrame? && step.cpu < s.ncpu {
        SlotStateSmall(s, steps[..n], ip, step.cpu);
      }
      SumsFollow(s, step, Take(s, step), ip, UsageOf(s0, steps[..n], ip));
    }
  }

  /** When each CPU's clock samples are in order, last_seen is the largest ingress time among
      those frames. */
  lemma {:induction false} LastSeenIsLatest(s0: State, steps: seq<Step>, ip: Ip)
    requires s0.counters == map[] && CpuClocksInOrder(steps)
    ensures var z := Run(s0, steps);
            ip in z.counters ==> Total(z.counters[ip]).lastSeen == UsageOf(s0, steps, ip).lastSeen
  {
    if steps != [] {
      hide Take, SlotsFrom, CounterFollows, UsageAfter, Total, CpuClocksInOrder;
      var n := |steps| - 1;
      var s, step := Run(s0, steps[..n]), steps[n];
      assert CpuClocksInOrder(steps[..n]) by { ClocksPrefix(steps); }
      LastSeenIsLatest(s0, steps[..n], ip);
      SlotsRun(s0, steps[..n]);
      CounterStep(s, step, ip);
      if ip in s.counters && step.IngressFrame? && step.cpu < s.ncpu {
        SlotNotLater(s, steps, ip);
        SlotStateSmall(s, steps[..n], ip, step.cpu);
      }
      SeenFollows(s, step, Take(s, step), ip, UsageOf(s0, steps[..n], ip));
    }
  }

  /** The step neither resets nor deletes the counter of ip. */
  predicate KeepsCounter(s: State, step: Step, ip: Ip) {
    var o := Take(s, step).1; !(o.Added? && o.ip == ip) && !(o.Deleted? && o.bound == Some(ip))
  }

  // ----- which addresses have a counter ---------------------------------------------------

  /** The last successful add at ip is later than the last delete of a client bound to ip. */
  function HasCounter(s0: State, steps: seq<Step>, ip: Ip): bool {
    if steps == [] then false else
      var n := |steps| - 1;
      var o := Take(Run(s0, steps[..n]), steps[n]).1;
      if o.Added? && o.ip == ip then true
      else if o.Deleted? && o.bound == Some(ip) then false
      else HasCounter(s0, steps[..n], ip)
  }

  lemma PresenceFollows(s: State, step: Step, r: (State, Outcome), ip: Ip)
    requires CounterFollows(s, step, r, ip) && r == Take(s, step)
    ensures ip in r.0.counters <==>
            if r.1.Added? && r.1.ip == ip then true
            else if r.1.Deleted? && r.1.bound == Some(ip) then false
            else ip in s.counters
  {
    if step.IngressFrame? || step.EgressFrame? {
      FramesGrantNothing(s, step);
    }
    hide Take;
  }

  lemma FramesGrantNothing(s: State, step: Step)
    requires step.IngressFrame? || step.EgressFrame?
    ensures !Take(s, step).1.Added? && !Take(s, step).1.Deleted?
  {
    hide Ingress, Egress;
  }

  /** In every run an address has a counter exactly when the history says so. */
  lemma {:induction false} CountersAreHistory(s0: State, steps: seq<Step>, ip: Ip)
    requires s0.counters == map[]
    ensures ip in Run(s0, steps).counters <==> HasCounter(s0, steps, ip)
  {
    if steps != [] {
      hide Take, CounterFollows;
      var n := |steps| - 1;
      CountersAreHistory(s0, steps[..n], ip);
      CounterStep(Run(s0, steps[..n]), steps[n], ip);
      PresenceFollows(Run(s0, steps[..n]), steps[n], Take(Run(s0, steps[..n]), steps[n]), ip);
    }
  }

  lemma ClocksPrefix(steps: seq<Step>)
    requires steps != [] && CpuClocksInOrder(steps)
    ensures CpuClocksInOrder(steps[..|steps| - 1])
  {
  }

  lemma SlotsEmpty(s: State)
    requires s.counters == map[]
    ensures SlotsFrom([], s)
  {
  }
}
