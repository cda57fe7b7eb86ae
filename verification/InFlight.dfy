/** The upload path of one client below the granularity of whole frames: on every CPU the expiry
    sample, the shaper's sample, its critical section and the counter increment are separate
    events, and those of different CPUs interleave at will. */
module InFlight {
  import opened Net
  import opened Datapath
  import opened Accounting
  import Edt

  /** Where the frame on one CPU stands; the packet of a Sampled one is pending at the shaper. */
  datatype Stage = Idle | Checked(seen: nat, len: nat) | Sampled(seen: nat) | Passed(seen: nat, p: Edt.Pkt)

  /** The shaper that all CPUs share, each CPU's stage, and each CPU's counter slot. */
  datatype Flight = Flight(shaper: Edt.Machine, stages: seq<Stage>, row: seq<Counter>)

  datatype Event = Tick(ns: nat) | Check(cpu: nat, len: nat) | Sample(cpu: nat) | Commit(cpu: nat) | Count(cpu: nat)

  /** What the event asks of the shaper; None when it concerns only its CPU, or is not due. */
  function ShaperEvent(f: Flight, e: Event): Option<Edt.Event> {
    match e
    case Tick(ns) => Some(Edt.Tick(ns))
    case Sample(cpu) =>
      if cpu < |f.stages| && f.stages[cpu].Checked? then Some(Edt.Sample(cpu, f.stages[cpu].len)) else None
    case Commit(cpu) =>
      if cpu < |f.stages| && f.stages[cpu].Sampled? && cpu in f.shaper.pending then Some(Edt.Commit(cpu)) else None
    case _ => None
  }

  /** The stage of the event's CPU after it. */
  function StageAfter(f: Flight, e: Event, h: Edt.Horizon): Stage
    requires !e.Tick? && e.cpu < |f.stages|
  {
    var stage := f.stages[e.cpu];
    match e
    case Check(_, len) => if stage.Idle? then Checked(f.shaper.clock, len) else stage
    case Sample(_) => if stage.Checked? then Sampled(stage.seen) else stage
    case Commit(cpu) =>
      if stage.Sampled? && cpu in f.shaper.pending then
        if Edt.Admits(f.shaper.last, f.shaper.pending[cpu], h) then Passed(stage.seen, f.shaper.pending[cpu]) else Idle
      else stage
    case Count(_) => if stage.Passed? then Idle else stage
  }

  function Step(f: Flight, e: Event, rate: Pos, h: Edt.Horizon): Flight
    requires |f.stages| == |f.row|
  {
    var shaping := ShaperEvent(f, e);
    var shaper := if shaping.Some? then Edt.StepMachine(f.shaper, shaping.value, rate, h) else f.shaper;
    if e.Tick? || e.cpu >= |f.stages| then f.(shaper := shaper)
    else
      var stage := f.stages[e.cpu];
      Flight(shaper, f.stages[e.cpu := StageAfter(f, e, h)],
             if e.Count? && stage.Passed? then f.row[e.cpu := CountUp(f.row[e.cpu], stage.p.len, stage.seen)]
             else f.row)
  }

  function Run(f: Flight, es: seq<Event>, rate: Pos, h: Edt.Horizon): (r: Flight)
    requires |f.stages| == |f.row|
    ensures |r.stages| == |r.row| == |f.row|
  {
    if es == [] then f else Step(Run(f, es[..|es| - 1], rate, h), es[|es| - 1], rate, h)
  }

  function Start(clock: nat, s0: nat, row: seq<Counter>): Flight {
    Flight(Edt.StartMachine(clock, s0), seq(|row|, _ => Idle), row)
  }

  // ----- the shaper's part ----------------------------------------------------------------

  function ShaperEvents(f: Flight, es: seq<Event>, rate: Pos, h: Edt.Horizon): seq<Edt.Event>
    requires |f.stages| == |f.row|
  {
    if es == [] then [] else
      var n := |es| - 1;
      var e := ShaperEvent(Run(f, es[..n], rate, h), es[n]);
      ShaperEvents(f, es[..n], rate, h) + if e.Some? then [e.value] else []
  }

  /** The shaper in flight is the shaper of its own events. */
  lemma {:induction false} ShaperRuns(f: Flight, es: seq<Event>, rate: Pos, h: Edt.Horizon)
    requires |f.stages| == |f.row|
    ensures Run(f, es, rate, h).shaper == Edt.RunMachine(f.shaper, ShaperEvents(f, es, rate, h), rate, h)
  {
    if es != [] {
      hide Step, Edt.StepMachine, ShaperEvent, Edt.RunMachine;
      var n := |es| - 1;
      var f' := Run(f, es[..n], rate, h);
      ShaperRuns(f, es[..n], rate, h);
      StepShaper(f', es[n], rate, h);
      var e := ShaperEvent(f', es[n]);
      if e.Some? {
        MachineAppends(f.shaper, ShaperEvents(f, es[..n], rate, h), e.value, rate, h);
      } else {
        assert ShaperEvents(f, es, rate, h) == ShaperEvents(f, es[..n], rate, h);
      }
    }
  }

  lemma StepShaper(f: Flight, e: Event, rate: Pos, h: Edt.Horizon)
    requires |f.stages| == |f.row|
    ensures var shaping := ShaperEvent(f, e);
            Step(f, e, rate, h).shaper ==
            if shaping.Some? then Edt.StepMachine(f.shaper, shaping.value, rate, h) else f.shaper
  {
    hide Edt.StepMachine, StageAfter, ShaperEvent;
  }

  lemma MachineAppends(m: Edt.Machine, es: seq<Edt.Event>, e: Edt.Event, rate: Pos, h: Edt.Horizon)
    ensures Edt.RunMachine(m, es + [e], rate, h) == Edt.StepMachine(Edt.RunMachine(m, es, rate, h), e, rate, h)
  {
    hide Edt.StepMachine;
    var all := es + [e];
    assert all[..|all| - 1] == es && all[|all| - 1] == e;
  }

  // ----- conservation ---------------------------------------------------------------------

  /** Packets and bytes that passed the shaper and are not yet counted. */
  function Waiting(stage: Stage): (w: (nat, nat)) { if stage.Passed? then (1, stage.p.len) else (0, 0) }

  function InAir(stages: seq<Stage>): (w: (nat, nat)) {
    if stages == [] then (0, 0) else
      var before, last := InAir(stages[..|stages| - 1]), Waiting(stages[|stages| - 1]);
      (before.0 + last.0, before.1 + last.1)
  }

  lemma {:induction false} InAirUpdate(stages: seq<Stage>, cpu: nat, stage: Stage)
    requires cpu < |stages|
    ensures var a, b := InAir(stages), InAir(stages[cpu := stage]);
            && b.0 == a.0 + Waiting(stage).0 - Waiting(stages[cpu]).0
            && b.1 == a.1 + Waiting(stage).1 - Waiting(stages[cpu]).1
  {
    hide Waiting;
    var n := |stages| - 1;
    if cpu == n {
      assert stages[cpu := stage][..n] == stages[..n];
    } else {
      InAirUpdate(stages[..n], cpu, stage);
      assert stages[cpu := stage][..n] == stages[..n][cpu := stage];
    }
  }

  lemma {:induction false} NothingInAir(stages: seq<Stage>)
    requires forall st | st in stages :: !st.Passed?
    ensures InAir(stages) == (0, 0)
  {
    if stages != [] {
      var before := stages[..|stages| - 1];
      assert forall st | st in before :: st in stages;
      NothingInAir(before);
      assert stages[|stages| - 1] in stages;
    }
  }

  /** Counted and waiting together. */
  ghost predicate Balanced(f: Flight, row0: seq<Counter>) {
    var n := |f.shaper.left|;
    && Total(f.row).uPackets + InAir(f.stages).0 == Total(row0).uPackets + n
    && Total(f.row).uBytes + InAir(f.stages).1 == Total(row0).uBytes + Edt.Bytes(f.shaper.left, 0, n)
  }

  lemma LeftAfter(m: Edt.Machine, e: Edt.Event, rate: Pos, h: Edt.Horizon)
    ensures var m' := Edt.StepMachine(m, e, rate, h);
            if e.Commit? && e.cpu in m.pending && Edt.Admits(m.last, m.pending[e.cpu], h) then
              && m'.left == m.left + [m.pending[e.cpu]]
              && Edt.Bytes(m'.left, 0, |m'.left|) == Edt.Bytes(m.left, 0, |m.left|) + m.pending[e.cpu].len
            else m'.left == m.left
  {
    hide Edt.Admits, Edt.Next, Edt.Delay;
    if e.Commit? && e.cpu in m.pending {
      Edt.LoadPrefix(m.left, m.left + [m.pending[e.cpu]], 0, |m.left|);
    }
  }

  lemma BalancedStep(f: Flight, e: Event, rate: Pos, h: Edt.Horizon, row0: seq<Counter>)
    requires |f.stages| == |f.row| && Balanced(f, row0)
    ensures Balanced(Step(f, e, rate, h), row0)
  {
    hide Total, InAir, Edt.StepMachine, Edt.Bytes, Edt.Admits;
    var shaping := ShaperEvent(f, e);
    if shaping.Some? {
      LeftAfter(f.shaper, shaping.value, rate, h);
    }
    if !e.Tick? && e.cpu < |f.stages| {
      var stage := f.stages[e.cpu];
      InAirUpdate(f.stages, e.cpu, StageAfter(f, e, h));
      if e.Count? && stage.Passed? {
        TotalUpdate(f.row, e.cpu, CountUp(f.row[e.cpu], stage.p.len, stage.seen));
      }
    }
  }

  /** Conservation at every instant of every interleaving: what the counters gained, together with
      what has passed the shaper and waits to be counted, is what the shaper let through. */
  lemma {:induction false} ConservedInFlight(clock: nat, s0: nat, row: seq<Counter>, es: seq<Event>,
                                             rate: Pos, h: Edt.Horizon)
    ensures Balanced(Run(Start(clock, s0, row), es, rate, h), row)
  {
    hide Total, Step, InAir;
    var f0 := Start(clock, s0, row);
    if es != [] {
      hide Balanced;
      ConservedInFlight(clock, s0, row, es[..|es| - 1], rate, h);
      BalancedStep(Run(f0, es[..|es| - 1], rate, h), es[|es| - 1], rate, h, row);
    } else {
      NothingInAir(f0.stages);
    }
  }

  /** So at every instant of every interleaving the upload bytes counted, and waiting to be, obey
      the rate over the samples of the first and the last packet let through. */
  lemma GainInFlightObeysRate(clock: nat, s0: nat, row: seq<Counter>, es: seq<Event>, rate: Pos, h: nat)
    requires Run(Start(clock, s0, row), es, rate, Some(h)).shaper.left != []
    ensures var f := Run(Start(clock, s0, row), es, rate, Some(h));
            var left, gain := f.shaper.left, Total(f.row).uBytes - Total(row).uBytes;
            0 <= gain * NSEC_PER_SEC <= (gain + InAir(f.stages).1) * NSEC_PER_SEC
            && (gain + InAir(f.stages).1) * NSEC_PER_SEC
               <= rate * (left[|left| - 1].now - left[0].now + h) + |left| * (rate - 1)
  {
    hide Run, Total, InAir, Edt.Bytes, Edt.RunMachine, ShaperEvents;
    var f0 := Start(clock, s0, row);
    ConservedInFlight(clock, s0, row, es, rate, Some(h));
    ShaperRuns(f0, es, rate, Some(h));
    GainIsSome(clock, s0, row, es, rate, Some(h));
    var left := Run(f0, es, rate, Some(h)).shaper.left;
    Edt.RateBoundEveryInterleaving(clock, s0, ShaperEvents(f0, es, rate, Some(h)), rate, h, 0, |left| - 1);
  }

  lemma {:induction false} GainIsSome(clock: nat, s0: nat, row: seq<Counter>, es: seq<Event>, rate: Pos, h: Edt.Horizon)
    ensures Total(Run(Start(clock, s0, row), es, rate, h).row).uBytes >= Total(row).uBytes
  {
    hide Total, ShaperEvent, StageAfter, Edt.StepMachine;
    if es != [] {
      var n := |es| - 1;
      GainIsSome(clock, s0, row, es[..n], rate, h);
      var f, e := Run(Start(clock, s0, row), es[..n], rate, h), es[n];
      if e.Count? && e.cpu < |f.stages| && f.stages[e.cpu].Passed? {
        TotalUpdate(f.row, e.cpu, CountUp(f.row[e.cpu], f.stages[e.cpu].p.len, f.stages[e.cpu].seen));
      }
    }
  }

  /** A packet is pending at the shaper exactly while its CPU is between sample and lock. */
  ghost predicate PendingAreSampled(f: Flight) {
    forall cpu: nat :: cpu in f.shaper.pending <==> cpu < |f.stages| && f.stages[cpu].Sampled?
  }

  lemma PendingStep(f: Flight, e: Event, rate: Pos, h: Edt.Horizon)
    requires |f.stages| == |f.row| && PendingAreSampled(f)
    ensures PendingAreSampled(Step(f, e, rate, h))
  {
    hide Edt.Admits, Edt.Next, Edt.Delay, CountUp;
  }

  lemma {:induction false} SamplesWait(clock: nat, s0: nat, row: seq<Counter>, es: seq<Event>,
                                       rate: Pos, h: Edt.Horizon)
    ensures PendingAreSampled(Run(Start(clock, s0, row), es, rate, h))
  {
    hide Step;
    if es != [] {
      hide PendingAreSampled;
      SamplesWait(clock, s0, row, es[..|es| - 1], rate, h);
      PendingStep(Run(Start(clock, s0, row), es[..|es| - 1], rate, h), es[|es| - 1], rate, h);
    }
  }

  /** A frame that nothing interrupts does what the shaper and the counter of a whole step do. */
  lemma Uninterrupted(f: Flight, cpu: nat, len: nat, rate: Pos, h: Edt.Horizon)
    requires |f.stages| == |f.row| && cpu < |f.stages| && f.stages[cpu] == Idle && PendingAreSampled(f)
    ensures var p := Edt.Pkt(len, f.shaper.clock, Edt.Delay(len, rate));
            var f' := Run(f, [Check(cpu, len), Sample(cpu), Commit(cpu), Count(cpu)], rate, h);
            && f'.shaper.last == Edt.Shape(f.shaper.last, p, h)
            && f'.row == (if Edt.Admits(f.shaper.last, p, h) then
                            f.row[cpu := CountUp(f.row[cpu], len, f.shaper.clock)] else f.row)
            && f'.stages == f.stages && f'.shaper.pending == f.shaper.pending
  {
    hide Edt.Admits, Edt.Next, Edt.Delay, CountUp;
    var es := [Check(cpu, len), Sample(cpu), Commit(cpu), Count(cpu)];
    var f1 := Step(f, es[0], rate, h);
    var f2 := Step(f1, es[1], rate, h);
    var f3 := Step(f2, es[2], rate, h);
    assert es[..3][..2] == es[..2] && es[..2][..1] == es[..1] && es[..1][..0] == [];
    assert Run(f, es[..1], rate, h) == f1;
    assert Run(f, es[..2], rate, h) == f2;
    assert Run(f, es[..3], rate, h) == f3;
    assert f3.shaper.pending == f.shaper.pending;
  }
}
