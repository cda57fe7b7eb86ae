/** The EDT shaper of apply_edt_shaping: one virtual clock per client and direction.
    A CPU samples the time and computes the delay BEFORE it takes the lock, so in lock order
    the samples need not be monotone; every theorem here is over arbitrary samples unless it
    says otherwise. */
module Edt {
  import opened Net

  /** What a CPU carries into the critical section. */
  datatype Pkt = Pkt(len: nat, now: nat, delay: nat)

  /** None for download (no drop), Some(horizon_ns) for upload. */
  type Horizon = Option<nat>

  function Delay(len: nat, rate: Pos): nat { len * NSEC_PER_SEC / rate }

  function Next(last: nat, p: Pkt): (ts: nat)
    ensures ts >= p.now
  {
    if p.now > last then p.now + p.delay else last + p.delay
  }

  predicate Admits(last: nat, p: Pkt, h: Horizon) {
    h.Some? ==> Next(last, p) - p.now <= h.value
  }

  /** The stored stamp after one critical section. */
  function Shape(last: nat, p: Pkt, h: Horizon): nat {
    if Admits(last, p, h) then Next(last, p) else last
  }

  /** The stored stamp after packets ps, in lock order. */
  function Run(last: nat, ps: seq<Pkt>, h: Horizon): nat {
    if ps == [] then last else Shape(Run(last, ps[..|ps| - 1], h), ps[|ps| - 1], h)
  }

  /** The packets of ps that were not shot. */
  function Accepted(last: nat, ps: seq<Pkt>, h: Horizon): seq<Pkt> {
    if ps == [] then [] else
      var before := ps[..|ps| - 1];
      var p := ps[|ps| - 1];
      var acc := Accepted(last, before, h);
      if Admits(Run(last, before, h), p, h) then acc + [p] else acc
  }

  /** The stamps written on the accepted packets. */
  function Stamps(last: nat, ps: seq<Pkt>, h: Horizon): (ts: seq<nat>)
    ensures |ts| == |Accepted(last, ps, h)|
  {
    if ps == [] then [] else
      var before := ps[..|ps| - 1];
      var p := ps[|ps| - 1];
      var r := Run(last, before, h);
      var ts := Stamps(last, before, h);
      if Admits(r, p, h) then ts + [Next(r, p)] else ts
  }

  /** Total delay of acc[lo..hi], and its bytes. */
  function Load(acc: seq<Pkt>, lo: nat, hi: nat): nat
    requires lo <= hi <= |acc|
  {
    if lo == hi then 0 else Load(acc, lo, hi - 1) + acc[hi - 1].delay
  }

  function Bytes(acc: seq<Pkt>, lo: nat, hi: nat): nat
    requires lo <= hi <= |acc|
  {
    if lo == hi then 0 else Bytes(acc, lo, hi - 1) + acc[hi - 1].len
  }

  // ----- the max-plus closed form ---------------------------------------------------------

  /** v is the maximum of the candidates: the initial stamp plus all accepted delays, and for
      every accepted packet its sample plus the delays accepted from it on. */
  ghost predicate IsMaxPlus(v: nat, s0: nat, acc: seq<Pkt>) {
    && v >= s0 + Load(acc, 0, |acc|)
    && (forall i | 0 <= i < |acc| :: v >= acc[i].now + Load(acc, i, |acc|))
    && (v == s0 + Load(acc, 0, |acc|)
        || exists i | 0 <= i < |acc| :: v == acc[i].now + Load(acc, i, |acc|))
  }

  lemma {:induction false} LoadPrefix(a: seq<Pkt>, b: seq<Pkt>, lo: nat, hi: nat)
    requires lo <= hi <= |a| <= |b|
    requires a == b[..|a|]
    ensures Load(a, lo, hi) == Load(b, lo, hi)
    ensures Bytes(a, lo, hi) == Bytes(b, lo, hi)
  {
    if lo < hi {
      LoadPrefix(a, b, lo, hi - 1);
    }
  }

  lemma {:induction false} MaxPlusExtends(v: nat, s0: nat, acc: seq<Pkt>, p: Pkt)
    requires IsMaxPlus(v, s0, acc)
    ensures IsMaxPlus(Next(v, p), s0, acc + [p])
  {
    var n := |acc|;
    var acc' := acc + [p];
    forall i | 0 <= i <= n
      ensures Load(acc', i, n + 1) == Load(acc, i, n) + p.delay
    {
      LoadPrefix(acc, acc', i, n);
    }
    assert acc'[n].now + Load(acc', n, n + 1) == p.now + p.delay;
    if p.now <= v && v != s0 + Load(acc, 0, n) {
      var i :| 0 <= i < n && v == acc[i].now + Load(acc, i, n);
      assert Next(v, p) == acc'[i].now + Load(acc', i, n + 1);
    }
  }

  /** After every run the stored stamp is the max-plus value of the accepted packets. */
  lemma {:induction false} ClosedForm(s0: nat, ps: seq<Pkt>, h: Horizon)
    ensures IsMaxPlus(Run(s0, ps, h), s0, Accepted(s0, ps, h))
  {
    if ps != [] {
      var before, p := ps[..|ps| - 1], ps[|ps| - 1];
      ClosedForm(s0, before, h);
      MaxPlusExtends(Run(s0, before, h), s0, Accepted(s0, before, h), p);
    }
  }

  /** A packet is shot exactly when one of the candidates, extended by the packet itself,
      lies beyond now + horizon. */
  lemma ExactDrop(s0: nat, ps: seq<Pkt>, p: Pkt, h: nat)
    ensures var acc := Accepted(s0, ps, Some(h));
            var edge := p.now + h;
            !Admits(Run(s0, ps, Some(h)), p, Some(h)) <==>
              || p.now + p.delay > edge
              || s0 + Load(acc, 0, |acc|) + p.delay > edge
              || exists i | 0 <= i < |acc| :: acc[i].now + Load(acc, i, |acc|) + p.delay > edge
  {
    ClosedForm(s0, ps, Some(h));
  }

  /** Dropped packets leave no trace: replaying the accepted packets alone drops nothing and
      writes the same stamps. */
  lemma {:induction false} DropsLeaveNoTrace(s0: nat, ps: seq<Pkt>, h: Horizon)
    ensures var acc := Accepted(s0, ps, h);
            && Run(s0, acc, h) == Run(s0, ps, h)
            && Accepted(s0, acc, h) == acc
            && Stamps(s0, acc, h) == Stamps(s0, ps, h)
  {
    if ps != [] {
      var before, p := ps[..|ps| - 1], ps[|ps| - 1];
      DropsLeaveNoTrace(s0, before, h);
      var acc := Accepted(s0, ps, h);
      if Admits(Run(s0, before, h), p, h) {
        assert acc[..|acc| - 1] == Accepted(s0, before, h) && acc[|acc| - 1] == p;
      } else {
        assert acc == Accepted(s0, before, h);
      }
    }
  }

  // ----- spacing and rate -----------------------------------------------------------------

  function LastOr(s0: nat, ts: seq<nat>): nat { if ts == [] then s0 else ts[|ts| - 1] }

  /** Consecutive departure stamps are at least the later packet's own delay apart; no stamp
      precedes its sample plus its delay, and none is beyond the horizon. */
  ghost predicate Spaced(s0: nat, acc: seq<Pkt>, ts: seq<nat>, h: Horizon)
    requires |acc| == |ts|
  {
    && (forall k | 0 <= k < |ts| :: ts[k] >= acc[k].now + acc[k].delay)
    && (forall k | 0 <= k < |ts| && h.Some? :: ts[k] <= acc[k].now + h.value)
    && (forall k | 0 <= k < |ts| :: ts[k] >= LastOr(s0, ts[..k]) + acc[k].delay)
  }

  lemma SpacedExtends(s0: nat, acc: seq<Pkt>, ts: seq<nat>, p: Pkt, h: Horizon)
    requires |acc| == |ts| && Spaced(s0, acc, ts, h) && Admits(LastOr(s0, ts), p, h)
    ensures Spaced(s0, acc + [p], ts + [Next(LastOr(s0, ts), p)], h)
  {
    var ts' := ts + [Next(LastOr(s0, ts), p)];
    forall k | 0 <= k < |ts'|
      ensures ts'[..k] == ts[..k]
    {
    }
    assert ts[..|ts|] == ts;
  }

  /** In both directions the stamps of every run are spaced, and the last one is the state. */
  lemma {:induction false} StampSpacing(s0: nat, ps: seq<Pkt>, h: Horizon)
    ensures Run(s0, ps, h) == LastOr(s0, Stamps(s0, ps, h))
    ensures Spaced(s0, Accepted(s0, ps, h), Stamps(s0, ps, h), h)
  {
    if ps != [] {
      var before, p := ps[..|ps| - 1], ps[|ps| - 1];
      StampSpacing(s0, before, h);
      hide Spaced;
      if Admits(Run(s0, before, h), p, h) {
        SpacedExtends(s0, Accepted(s0, before, h), Stamps(s0, before, h), p, h);
      }
    }
  }

  lemma {:induction false} AcceptedPrefix(s0: nat, ps: seq<Pkt>, h: Horizon, k: nat) returns (m: nat)
    requires k < |Accepted(s0, ps, h)|
    ensures 0 < m <= |ps| && Accepted(s0, ps[..m], h) == Accepted(s0, ps, h)[..k + 1]
    ensures Admits(Run(s0, ps[..m - 1], h), ps[m - 1], h)
    ensures Accepted(s0, ps, h)[k] == ps[m - 1]
  {
    var before := ps[..|ps| - 1];
    if k < |Accepted(s0, before, h)| {
      m := AcceptedPrefix(s0, before, h, k);
      assert before[..m] == ps[..m] && before[..m - 1] == ps[..m - 1];
    } else {
      m := |ps|;
      assert ps[..m] == ps;
    }
  }

  /** Every packet's delay was computed with this rate: the profile did not change. */
  ghost predicate UnderRate(ps: seq<Pkt>, rate: Pos) {
    forall p | p in ps :: p.delay == Delay(p.len, rate)
  }

  lemma Distribute(r: int, a: int, b: int)
    ensures r * (a + b) == r * a + r * b && (a + b) * r == a * r + b * r
  {
  }

  lemma TimesMonotone(r: nat, a: int, b: int)
    requires a <= b
    ensures r * a <= r * b
  {
  }

  lemma DelayRounding(len: nat, rate: Pos)
    ensures rate * Delay(len, rate) <= len * NSEC_PER_SEC <= rate * Delay(len, rate) + (rate - 1)
  {
    var x := len * NSEC_PER_SEC;
    assert x == rate * (x / rate) + x % rate;
  }

  /** floor(len*1e9/rate) loses at most rate - 1 byte-nanoseconds per packet. */
  lemma {:induction false} BytesVersusLoad(acc: seq<Pkt>, lo: nat, hi: nat, rate: Pos)
    requires lo <= hi <= |acc| && UnderRate(acc, rate)
    ensures rate * Load(acc, lo, hi) <= Bytes(acc, lo, hi) * NSEC_PER_SEC
    ensures Bytes(acc, lo, hi) * NSEC_PER_SEC <= rate * Load(acc, lo, hi) + (hi - lo) * (rate - 1)
  {
    if lo < hi {
      BytesVersusLoad(acc, lo, hi - 1, rate);
      var p := acc[hi - 1];
      assert p in acc;
      DelayRounding(p.len, rate);
      Distribute(rate, Load(acc, lo, hi - 1), p.delay);
      Distribute(rate - 1, hi - 1 - lo, 1);
    } else {
      assert rate * 0 == 0 && 0 * (rate - 1) == 0;
    }
  }

  lemma {:induction false} AcceptedSubset(s0: nat, ps: seq<Pkt>, h: Horizon)
    ensures forall p | p in Accepted(s0, ps, h) :: p in ps
  {
    if ps != [] {
      AcceptedSubset(s0, ps[..|ps| - 1], h);
    }
  }

  lemma AboveCandidate(s0: nat, ps: seq<Pkt>, h: Horizon, i: nat)
    requires i < |Accepted(s0, ps, h)|
    ensures var acc := Accepted(s0, ps, h); Run(s0, ps, h) >= acc[i].now + Load(acc, i, |acc|)
  {
    ClosedForm(s0, ps, h);
  }

  lemma LoadBoundToLast(s0: nat, ps: seq<Pkt>, h: nat, i: nat)
    requires ps != [] && Admits(Run(s0, ps[..|ps| - 1], Some(h)), ps[|ps| - 1], Some(h))
    requires i < |Accepted(s0, ps, Some(h))|
    ensures var acc := Accepted(s0, ps, Some(h));
            Load(acc, i, |acc|) <= acc[|acc| - 1].now - acc[i].now + h
  {
    AboveCandidate(s0, ps, Some(h), i);
  }

  /** The delays accepted from packet i to packet k fit in the time between their samples plus
      the horizon, whatever the rates were. */
  lemma LoadBound(s0: nat, ps: seq<Pkt>, h: nat, i: nat, k: nat)
    requires i <= k < |Accepted(s0, ps, Some(h))|
    ensures var acc := Accepted(s0, ps, Some(h));
            Load(acc, i, k + 1) <= acc[k].now - acc[i].now + h
  {
    hide Run, Accepted, Admits, Load;
    var m := AcceptedPrefix(s0, ps, Some(h), k);
    assert ps[..m][..m - 1] == ps[..m - 1] && ps[..m][m - 1] == ps[m - 1];
    LoadBoundToLast(s0, ps[..m], h, i);
    LoadPrefix(Accepted(s0, ps[..m], Some(h)), Accepted(s0, ps, Some(h)), i, k + 1);
  }

  lemma BytesWithin(acc: seq<Pkt>, i: nat, k: nat, rate: Pos, window: int)
    requires i <= k < |acc| && UnderRate(acc, rate) && Load(acc, i, k + 1) <= window
    ensures Bytes(acc, i, k + 1) * NSEC_PER_SEC <= rate * window + (k - i + 1) * (rate - 1)
  {
    hide UnderRate, Load, Bytes;
    BytesVersusLoad(acc, i, k + 1, rate);
    TimesMonotone(rate, Load(acc, i, k + 1), window);
    assert (k + 1 - i) * (rate - 1) == (k - i + 1) * (rate - 1);
  }

  /** The rate bound: bytes accepted from packet i to packet k, in lock order. */
  lemma RateBound(s0: nat, ps: seq<Pkt>, rate: Pos, h: nat, i: nat, k: nat)
    requires UnderRate(ps, rate)
    requires i <= k < |Accepted(s0, ps, Some(h))|
    ensures var acc := Accepted(s0, ps, Some(h));
            Bytes(acc, i, k + 1) * NSEC_PER_SEC
            <= rate * (acc[k].now - acc[i].now + h) + (k - i + 1) * (rate - 1)
  {
    var acc := Accepted(s0, ps, Some(h));
    LoadBound(s0, ps, h, i, k);
    hide Run, Admits, Accepted, Load, Bytes, Delay;
    AcceptedSubset(s0, ps, Some(h));
    BytesWithin(acc, i, k, rate, acc[k].now - acc[i].now + h);
  }

  /** sub is acc at the increasing positions at. */
  ghost predicate Picks(sub: seq<Pkt>, acc: seq<Pkt>, at: seq<nat>) {
    && |at| == |sub|
    && (forall j | 0 <= j < |at| :: at[j] < |acc| && sub[j] == acc[at[j]])
    && (forall i, j | 0 <= i < j < |at| :: at[i] < at[j])
  }

  lemma {:induction false} LoadGrows(acc: seq<Pkt>, lo: nat, hi: nat, hi': nat)
    requires lo <= hi <= hi' <= |acc|
    ensures Load(acc, lo, hi) <= Load(acc, lo, hi')
  {
    if hi < hi' {
      LoadGrows(acc, lo, hi, hi' - 1);
    }
  }

  lemma {:induction false} PickedLoad(sub: seq<Pkt>, acc: seq<Pkt>, at: seq<nat>, i: nat, k: nat)
    requires Picks(sub, acc, at) && i <= k < |sub|
    ensures at[i] <= at[k] < |acc| && Load(sub, i, k + 1) <= Load(acc, at[i], at[k] + 1)
  {
    if i < k {
      PickedLoad(sub, acc, at, i, k - 1);
      LoadGrows(acc, at[i], at[k - 1] + 1, at[k]);
    } else {
      assert Load(sub, i, i) == 0;
    }
  }

  lemma PickedUnderRate(s0: nat, ps: seq<Pkt>, rate: Pos, h: Horizon, sub: seq<Pkt>, at: seq<nat>)
    requires UnderRate(ps, rate) && Picks(sub, Accepted(s0, ps, h), at)
    ensures UnderRate(sub, rate)
  {
    AcceptedSubset(s0, ps, h);
    hide Accepted, Delay;
    forall p | p in sub
      ensures p in ps
    {
      var j :| 0 <= j < |sub| && sub[j] == p;
      assert p == Accepted(s0, ps, h)[at[j]];
    }
  }

  lemma PickedLoadBound(s0: nat, ps: seq<Pkt>, h: nat, sub: seq<Pkt>, at: seq<nat>, i: nat, k: nat)
    requires Picks(sub, Accepted(s0, ps, Some(h)), at) && i <= k < |sub|
    ensures Load(sub, i, k + 1) <= sub[k].now - sub[i].now + h
  {
    hide Accepted, Load;
    PickedLoad(sub, Accepted(s0, ps, Some(h)), at, i, k);
    LoadBound(s0, ps, h, at[i], at[k]);
  }

  /** The rate bound for any selection of the accepted packets, over the time between the samples
      of the first and the last selected. */
  lemma PickedRateBound(s0: nat, ps: seq<Pkt>, rate: Pos, h: nat, sub: seq<Pkt>, at: seq<nat>, i: nat, k: nat)
    requires UnderRate(ps, rate) && Picks(sub, Accepted(s0, ps, Some(h)), at) && i <= k < |sub|
    ensures Bytes(sub, i, k + 1) * NSEC_PER_SEC
            <= rate * (sub[k].now - sub[i].now + h) + (k - i + 1) * (rate - 1)
  {
    hide *;
    PickedUnderRate(s0, ps, rate, Some(h), sub, at);
    PickedLoadBound(s0, ps, h, sub, at, i, k);
    BytesWithin(sub, i, k, rate, sub[k].now - sub[i].now + h);
  }

  // ----- every interleaving of CPUs -------------------------------------------------------

  /** One shared clock, one shaper, and CPUs that are between their sample and the lock. */
  datatype Event = Tick(ns: nat) | Sample(cpu: nat, len: nat) | Commit(cpu: nat)

  datatype Machine = Machine(clock: nat, pending: map<nat, Pkt>, last: nat,
                             committed: seq<Pkt>, left: seq<Pkt>, at: seq<nat>)

  /** left collects the packets that were let through, at their commit times. */
  function StepMachine(m: Machine, e: Event, rate: Pos, h: Horizon): Machine {
    match e
    case Tick(ns) => m.(clock := m.clock + ns)
    case Sample(cpu, len) =>
      if cpu in m.pending then m
      else m.(pending := m.pending[cpu := Pkt(len, m.clock, Delay(len, rate))])
    case Commit(cpu) =>
      if cpu !in m.pending then m else
        var p := m.pending[cpu];
        var m' := m.(pending := m.pending - {cpu}, committed := m.committed + [p]);
        if Admits(m.last, p, h) then
          m'.(last := Next(m.last, p), left := m.left + [p], at := m.at + [m.clock])
        else m'
  }

  function RunMachine(m: Machine, es: seq<Event>, rate: Pos, h: Horizon): Machine {
    if es == [] then m
    else StepMachine(RunMachine(m, es[..|es| - 1], rate, h), es[|es| - 1], rate, h)
  }

  function StartMachine(clock: nat, s0: nat): Machine {
    Machine(clock, map[], s0, [], [], [])
  }

  ghost predicate ShaperOk(m: Machine, s0: nat, h: Horizon) {
    m.last == Run(s0, m.committed, h) && m.left == Accepted(s0, m.committed, h)
  }

  ghost predicate SamplesOk(m: Machine, rate: Pos) {
    && UnderRate(m.committed, rate)
    && (forall c | c in m.pending :: m.pending[c].now <= m.clock
                                  && m.pending[c].delay == Delay(m.pending[c].len, rate))
  }

  ghost predicate TimesOk(m: Machine) {
    && |m.at| == |m.left|
    && (forall c | c in m.pending :: m.pending[c].now <= m.clock)
    && (forall k | 0 <= k < |m.at| :: m.left[k].now <= m.at[k] <= m.clock)
  }

  ghost predicate MachineOk(m: Machine, s0: nat, rate: Pos, h: Horizon) {
    ShaperOk(m, s0, h) && SamplesOk(m, rate) && TimesOk(m)
  }

  lemma RunAppends(s0: nat, ps: seq<Pkt>, p: Pkt, h: Horizon)
    ensures Run(s0, ps + [p], h) == Shape(Run(s0, ps, h), p, h)
    ensures Accepted(s0, ps + [p], h) == Accepted(s0, ps, h) + if Admits(Run(s0, ps, h), p, h) then [p] else []
  {
    var qs := ps + [p];
    assert qs[..|qs| - 1] == ps && qs[|qs| - 1] == p;
  }

  lemma ShaperStep(m: Machine, e: Event, s0: nat, rate: Pos, h: Horizon)
    requires ShaperOk(m, s0, h)
    ensures ShaperOk(StepMachine(m, e, rate, h), s0, h)
  {
    if e.Commit? && e.cpu in m.pending {
      RunAppends(s0, m.committed, m.pending[e.cpu], h);
      hide Run, Accepted;
    }
  }

  lemma SamplesStep(m: Machine, e: Event, rate: Pos, h: Horizon)
    requires SamplesOk(m, rate)
    ensures SamplesOk(StepMachine(m, e, rate, h), rate)
  {
    hide Admits, Next, Delay;
  }

  lemma TimesStep(m: Machine, e: Event, rate: Pos, h: Horizon)
    requires TimesOk(m)
    ensures TimesOk(StepMachine(m, e, rate, h))
  {
    hide Admits, Next, Delay;
  }

  /** Whatever the interleaving, the shaper's state is that of the packets in lock order. */
  lemma {:induction false} EveryInterleaving(clock: nat, s0: nat, es: seq<Event>, rate: Pos, h: Horizon)
    ensures MachineOk(RunMachine(StartMachine(clock, s0), es, rate, h), s0, rate, h)
  {
    if es != [] {
      hide ShaperOk, SamplesOk, TimesOk, StepMachine;
      EveryInterleaving(clock, s0, es[..|es| - 1], rate, h);
      var m, e := RunMachine(StartMachine(clock, s0), es[..|es| - 1], rate, h), es[|es| - 1];
      ShaperStep(m, e, s0, rate, h);
      SamplesStep(m, e, rate, h);
      TimesStep(m, e, rate, h);
    } else {
      assert RunMachine(StartMachine(clock, s0), [], rate, h) == StartMachine(clock, s0);
    }
  }

  /** For any number of CPUs and any interleaving, the bytes let through from the i-th to the
      k-th packet obey the rate, and in wall time the window is at most the commit time of the
      last minus the sample of the first. */
  lemma RateBoundEveryInterleaving(clock: nat, s0: nat, es: seq<Event>, rate: Pos, h: nat, i: nat, k: nat)
    requires i <= k < |RunMachine(StartMachine(clock, s0), es, rate, Some(h)).left|
    ensures var m := RunMachine(StartMachine(clock, s0), es, rate, Some(h));
            && |m.at| == |m.left|
            && Bytes(m.left, i, k + 1) * NSEC_PER_SEC
               <= rate * (m.left[k].now - m.left[i].now + h) + (k - i + 1) * (rate - 1)
            && Bytes(m.left, i, k + 1) * NSEC_PER_SEC
               <= rate * (m.at[k] - m.left[i].now + h) + (k - i + 1) * (rate - 1)
  {
    hide RunMachine, Bytes;
    EveryInterleaving(clock, s0, es, rate, Some(h));
    var m := RunMachine(StartMachine(clock, s0), es, rate, Some(h));
    RateBound(s0, m.committed, rate, h, i, k);
    TimesMonotone(rate, m.left[k].now - m.left[i].now + h, m.at[k] - m.left[i].now + h);
  }

  // ----- 64-bit headroom ------------------------------------------------------------------

  /** The critical section in the program's unsigned 64-bit arithmetic. */
  function Shape64(last: nat, p: Pkt, h: Horizon): nat {
    var next := if p.now > last then Add64(p.now, p.delay) else Add64(last, p.delay);
    if h.Some? && Sub64(next, p.now) > h.value then last else next
  }

  function Run64(last: nat, ps: seq<Pkt>, h: Horizon): nat {
    if ps == [] then last else Shape64(Run64(last, ps[..|ps| - 1], h), ps[|ps| - 1], h)
  }

  lemma Shape64IsShape(last: nat, p: Pkt, h: Horizon)
    requires Max(last, p.now) + p.delay < TWO_64
    ensures Shape64(last, p, h) == Shape(last, p, h)
  {
    var next := Next(last, p);
    assert next % TWO_64 == next && (next - p.now) % TWO_64 == next - p.now;
  }

  /** Upload: accepted stamps never run ahead of the clock by more than the horizon, so one
      bound on the clock keeps every run free of wrap-around. */
  lemma {:induction false} UploadHeadroom(s0: nat, ps: seq<Pkt>, h: nat, clock: nat, longest: nat)
    requires s0 <= clock && forall p | p in ps :: p.now <= clock && p.delay <= longest
    requires clock + h + longest < TWO_64
    ensures Run64(s0, ps, Some(h)) == Run(s0, ps, Some(h)) <= clock + h
  {
    if ps != [] {
      var before, p := ps[..|ps| - 1], ps[|ps| - 1];
      assert p in ps && forall q | q in before :: q in ps;
      UploadHeadroom(s0, before, h, clock, longest);
      Shape64IsShape(Run(s0, before, Some(h)), p, Some(h));
    }
  }

  /** Download: nothing is dropped, so the headroom has to cover all delays of the run. */
  lemma {:induction false} DownloadHeadroom(s0: nat, ps: seq<Pkt>, clock: nat)
    requires s0 <= clock && forall p | p in ps :: p.now <= clock
    requires clock + Load(ps, 0, |ps|) < TWO_64
    ensures Run64(s0, ps, None) == Run(s0, ps, None) <= clock + Load(ps, 0, |ps|)
  {
    if ps != [] {
      var before, p := ps[..|ps| - 1], ps[|ps| - 1];
      assert p in ps && forall q | q in before :: q in ps;
      LoadPrefix(before, ps, 0, |before|);
      DownloadHeadroom(s0, before, clock);
      Shape64IsShape(Run(s0, before, None), p, None);
    }
  }

  // ----- the leaky bucket -----------------------------------------------------------------

  /** A bucket that drains one unit per nanosecond and is filled by each packet's delay. */
  datatype Bucket = Bucket(level: nat, at: nat)

  function Drained(b: Bucket, now: nat): nat { Max(0, b.level - Max(0, now - b.at)) }

  predicate BucketAdmits(b: Bucket, p: Pkt, h: Horizon) {
    h.Some? ==> Drained(b, p.now) + p.delay <= h.value
  }

  function Pour(b: Bucket, p: Pkt, h: Horizon): Bucket {
    Bucket(Drained(b, p.now) + (if BucketAdmits(b, p, h) then p.delay else 0), p.now)
  }

  function RunBucket(b: Bucket, ps: seq<Pkt>, h: Horizon): Bucket {
    if ps == [] then b else Pour(RunBucket(b, ps[..|ps| - 1], h), ps[|ps| - 1], h)
  }

  ghost predicate Monotone(at: nat, ps: seq<Pkt>) {
    && (forall i | 0 <= i < |ps| :: at <= ps[i].now)
    && (forall i, j | 0 <= i < j < |ps| :: ps[i].now <= ps[j].now)
  }

  function BucketOf(last: nat, at: nat): Bucket { Bucket(Max(0, last - at), at) }

  function LastSample(at: nat, ps: seq<Pkt>): nat { if ps == [] then at else ps[|ps| - 1].now }

  lemma BucketStep(last: nat, at: nat, p: Pkt, h: Horizon)
    requires at <= p.now
    ensures Admits(last, p, h) <==> BucketAdmits(BucketOf(last, at), p, h)
    ensures Pour(BucketOf(last, at), p, h) == BucketOf(Shape(last, p, h), p.now)
  {
  }

  /** With nondecreasing samples the shaper is the bucket: the same level after every run... */
  lemma {:induction false} BucketRefinement(s0: nat, at: nat, ps: seq<Pkt>, h: Horizon)
    requires Monotone(at, ps)
    ensures RunBucket(BucketOf(s0, at), ps, h) == BucketOf(Run(s0, ps, h), LastSample(at, ps))
  {
    if ps != [] {
      var before, p := ps[..|ps| - 1], ps[|ps| - 1];
      BucketRefinement(s0, at, before, h);
      BucketStep(Run(s0, before, h), LastSample(at, before), p, h);
    }
  }

  /** ... and hence the same decision on the next packet of every run. */
  lemma BucketDecides(s0: nat, at: nat, ps: seq<Pkt>, p: Pkt, h: Horizon)
    requires Monotone(at, ps) && LastSample(at, ps) <= p.now
    ensures Admits(Run(s0, ps, h), p, h) <==> BucketAdmits(RunBucket(BucketOf(s0, at), ps, h), p, h)
  {
    BucketRefinement(s0, at, ps, h);
    BucketStep(Run(s0, ps, h), LastSample(at, ps), p, h);
  }

  /** The monotone-sample hypothesis is needed, and this is exactly what a stale sample changes:
      the packet sees backlog that the bucket has already drained, and is shot although the
      bucket would admit it. */
  lemma StaleSampleDiffers(last: nat, at: nat, p: Pkt, h: nat)
    ensures (Admits(last, p, Some(h)) <==> BucketAdmits(BucketOf(last, at), p, Some(h))) <==>
            !(p.now < Min(at, last) && Max(0, last - at) + p.delay <= h < last - p.now + p.delay)
    ensures !Admits(5, Pkt(0, 0, 1), Some(5)) && BucketAdmits(BucketOf(5, 10), Pkt(0, 0, 1), Some(5))
  {
  }
}
