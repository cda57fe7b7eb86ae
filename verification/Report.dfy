/** The all-clients report: fill, summarise, sort, filter in place, limit. */
module Report {
  import opened Net
  import opened Datapath
  import opened Accounting
  import opened Reader

  const BLOCK: nat := 2

  datatype SortKey = DnBytes | UpBytes

  datatype Filter = All | Only(state: nat)

  datatype Summary = Summary(clients: nat, active: nat, expired: nat, blocked: nat,
                             upBytes: nat, dnBytes: nat, upPackets: nat, dnPackets: nat)

  const EMPTY_SUMMARY := Summary(0, 0, 0, 0, 0, 0, 0, 0)

  function Weight(x: Stats, key: SortKey): nat { if key.DnBytes? then x.dnBytes else x.upBytes }

  predicate Passes(x: Stats, filter: Filter) { filter.All? || x.state == filter.state }

  ghost predicate Descending(xs: seq<Stats>, key: SortKey) {
    forall i, j | 0 <= i < j < |xs| :: Weight(xs[i], key) >= Weight(xs[j], key)
  }

  /** One row for every counter key, in the order the kernel enumerates them, each filled at its
      own clock sample. */
  ghost predicate Enumerates(s: State, keys: seq<Ip>, nows: seq<nat>) {
    && (forall ip :: ip in keys <==> ip in s.counters)
    && (forall i, j | 0 <= i < j < |keys| :: keys[i] != keys[j])
    && |nows| == |keys|
  }

  ghost function Rows(s: State, keys: seq<Ip>, nows: seq<nat>): seq<Stats>
    requires Enumerates(s, keys, nows)
  {
    seq(|keys|, i requires 0 <= i < |keys| => assert keys[i] in keys; StatsAt(s, keys[i], nows[i]))
  }

  // ----- the summary ----------------------------------------------------------------------

  function One(b: bool): nat { if b then 1 else 0 }

  /** How much one row adds to each total. */
  function Share(x: Stats): Summary {
    Summary(1, One(x.state == AUTH_OK), One(x.state == EXPIRE), One(x.state == BLOCK),
            x.upBytes, x.dnBytes, x.upPackets, x.dnPackets)
  }

  function Plus(a: Summary, b: Summary): Summary {
    Summary(a.clients + b.clients, a.active + b.active, a.expired + b.expired, a.blocked + b.blocked,
            a.upBytes + b.upBytes, a.dnBytes + b.dnBytes, a.upPackets + b.upPackets, a.dnPackets + b.dnPackets)
  }

  function Sums(rows: seq<Stats>): Summary {
    if rows == [] then EMPTY_SUMMARY else Plus(Sums(rows[..|rows| - 1]), Share(rows[|rows| - 1]))
  }

  lemma SumsLast(rows: seq<Stats>)
    requires rows != []
    ensures Sums(rows) == Plus(Sums(rows[..|rows| - 1]), Share(rows[|rows| - 1]))
  {
  }

  lemma PlusSwaps(a: Summary, b: Summary, c: Summary)
    ensures Plus(Plus(a, b), c) == Plus(Plus(a, c), b)
  {
  }

  lemma {:induction false} SumsWithout(rows: seq<Stats>, i: nat)
    requires i < |rows|
    ensures Sums(rows) == Plus(Sums(rows[..i] + rows[i + 1..]), Share(rows[i]))
  {
    hide Sums, Plus, Share;
    var n := |rows| - 1;
    SumsLast(rows);
    var rest := rows[..i] + rows[i + 1..];
    if i == n {
      assert rest == rows[..n];
    } else {
      SumsWithout(rows[..n], i);
      assert rest[..n - 1] == rows[..n][..i] + rows[..n][i + 1..] && rest[n - 1] == rows[n] && rows[..n][i] == rows[i];
      SumsLast(rest);
      PlusSwaps(Sums(rest[..n - 1]), Share(rows[i]), Share(rows[n]));
    }
  }

  lemma BagWithout(rows: seq<Stats>, i: nat)
    requires i < |rows|
    ensures multiset(rows[..i] + rows[i + 1..]) == multiset(rows) - multiset{rows[i]}
  {
    assert rows == rows[..i] + [rows[i]] + rows[i + 1..];
  }

  /** The totals do not depend on the order of enumeration. */
  lemma {:induction false} SumsPermute(a: seq<Stats>, b: seq<Stats>)
    requires multiset(a) == multiset(b)
    ensures Sums(a) == Sums(b)
  {
    assert |a| == |multiset(a)| == |multiset(b)| == |b|;
    if a != [] {
      var n := |a| - 1;
      var x := a[n];
      assert x in multiset(a);
      assert x in b;
      var i :| 0 <= i < |b| && b[i] == x;
      BagWithout(a, n);
      BagWithout(b, i);
      assert a[n + 1..] == [] && a[..n] + [] == a[..n];
      SumsPermute(a[..n], b[..i] + b[i + 1..]);
      SumsWithout(b, i);
    }
  }

  // ----- the filter -----------------------------------------------------------------------

  function Kept(xs: seq<Stats>, filter: Filter): seq<Stats> {
    if xs == [] then [] else
      var n := |xs| - 1;
      Kept(xs[..n], filter) + if Passes(xs[n], filter) then [xs[n]] else []
  }

  lemma BagLast(xs: seq<Stats>)
    requires xs != []
    ensures multiset(xs) == multiset(xs[..|xs| - 1]) + multiset{xs[|xs| - 1]}
  {
    assert xs == xs[..|xs| - 1] + [xs[|xs| - 1]];
  }

  lemma KeptLast(xs: seq<Stats>, filter: Filter)
    requires xs != []
    ensures var n := |xs| - 1;
            multiset(Kept(xs, filter)) ==
            multiset(Kept(xs[..n], filter)) + if Passes(xs[n], filter) then multiset{xs[n]} else multiset{}
  {
    hide Passes;
  }

  /** Filtering keeps every copy of what passes and nothing else. */
  lemma {:induction false} KeptBag(xs: seq<Stats>, filter: Filter, x: Stats)
    ensures multiset(Kept(xs, filter))[x] == if Passes(x, filter) then multiset(xs)[x] else 0
  {
    if xs != [] {
      hide Kept, Passes;
      KeptBag(xs[..|xs| - 1], filter, x);
      KeptLast(xs, filter);
      BagLast(xs);
    }
  }

  lemma KeptSameBag(xs: seq<Stats>, ys: seq<Stats>, filter: Filter)
    requires multiset(xs) == multiset(ys)
    ensures multiset(Kept(xs, filter)) == multiset(Kept(ys, filter)) && |Kept(xs, filter)| == |Kept(ys, filter)|
  {
    hide Kept, Passes;
    forall x
      ensures multiset(Kept(xs, filter))[x] == multiset(Kept(ys, filter))[x]
    {
      KeptBag(xs, filter, x);
      KeptBag(ys, filter, x);
    }
    SameBagSameLength(Kept(xs, filter), Kept(ys, filter));
  }

  lemma SameBagSameLength(xs: seq<Stats>, ys: seq<Stats>)
    requires forall x :: multiset(xs)[x] == multiset(ys)[x]
    ensures multiset(xs) == multiset(ys) && |xs| == |ys|
  {
    assert multiset(xs) == multiset(ys);
    assert |multiset(xs)| == |xs| && |multiset(ys)| == |ys|;
  }

  lemma {:induction false} KeptDescending(xs: seq<Stats>, filter: Filter, key: SortKey)
    requires Descending(xs, key)
    ensures Descending(Kept(xs, filter), key)
    ensures forall x | x in Kept(xs, filter) :: x in xs
  {
    if xs != [] {
      var n := |xs| - 1;
      KeptDescending(xs[..n], filter, key);
      forall i | 0 <= i < |Kept(xs[..n], filter)|
        ensures Weight(Kept(xs[..n], filter)[i], key) >= Weight(xs[n], key)
      {
        assert Kept(xs[..n], filter)[i] in xs[..n];
      }
    }
  }

  /** Each of the counts by state is the length of the list that filter returns. */
  lemma {:induction false} CountsAreFilters(rows: seq<Stats>)
    ensures Sums(rows).clients == |Kept(rows, All)| == |rows|
    ensures Sums(rows).active == |Kept(rows, Only(0))|
    ensures Sums(rows).expired == |Kept(rows, Only(1))|
    ensures Sums(rows).blocked == |Kept(rows, Only(2))|
  {
    if rows != [] {
      CountsAreFilters(rows[..|rows| - 1]);
    }
  }

  // ----- the report -----------------------------------------------------------------------

  function Limited(n: nat, limit: int): nat { if limit > 0 && n > limit then limit else n }

  /** out is a heaviest part of the rows that pass the filter, in descending order. */
  ghost predicate Reports(rows: seq<Stats>, key: SortKey, filter: Filter, limit: int, out: seq<Stats>) {
    && Descending(out, key)
    && |out| == Limited(|Kept(rows, filter)|, limit)
    && multiset(out) <= multiset(Kept(rows, filter))
    && (forall x, y | x in multiset(Kept(rows, filter)) - multiset(out) && y in out :: Weight(x, key) <= Weight(y, key))
  }

  lemma CutBag(kept: seq<Stats>, n: nat)
    requires n <= |kept|
    ensures multiset(kept[..n]) <= multiset(kept)
    ensures multiset(kept) - multiset(kept[..n]) == multiset(kept[n..])
  {
    assert kept == kept[..n] + kept[n..];
    assert multiset(kept) == multiset(kept[..n]) + multiset(kept[n..]);
  }

  lemma CutWeights(kept: seq<Stats>, key: SortKey, n: nat)
    requires n <= |kept| && Descending(kept, key)
    ensures forall x, y | x in multiset(kept[n..]) && y in kept[..n] :: Weight(x, key) <= Weight(y, key)
  {
    forall x, y | x in multiset(kept[n..]) && y in kept[..n]
      ensures Weight(x, key) <= Weight(y, key)
    {
      assert x in kept[n..];
      var i :| 0 <= i < |kept| - n && kept[n..][i] == x;
      var j :| 0 <= j < n && kept[j] == y;
      assert kept[n + i] == x;
    }
  }

  /** Sorting by any method, filtering and cutting reports a heaviest part. */
  lemma SortFilterCut(rows: seq<Stats>, sorted: seq<Stats>, key: SortKey, filter: Filter, limit: int)
    requires multiset(sorted) == multiset(rows) && Descending(sorted, key)
    ensures Limited(|Kept(sorted, filter)|, limit) <= |Kept(sorted, filter)|
    ensures Reports(rows, key, filter, limit, Kept(sorted, filter)[..Limited(|Kept(sorted, filter)|, limit)])
  {
    hide Kept, Weight;
    var kept := Kept(sorted, filter);
    var n := Limited(|kept|, limit);
    KeptSameBag(sorted, rows, filter);
    KeptDescending(sorted, filter, key);
    CutBag(kept, n);
    CutWeights(kept, key, n);
    var bag := multiset(Kept(rows, filter));
    assert bag == multiset(kept);
    assert bag - multiset(kept[..n]) == multiset(kept[n..]);
  }

  /** Exchanges two neighbours. */
  method Swap(a: array<Stats>, j: nat)
    requires 0 < j < a.Length
    modifies a
    ensures a[j] == old(a[j - 1]) && a[j - 1] == old(a[j])
    ensures forall p | 0 <= p < a.Length && p != j && p != j - 1 :: a[p] == old(a[p])
    ensures multiset(a[..]) == old(multiset(a[..]))
  {
    a[j - 1], a[j] := a[j], a[j - 1];
  }

  /** Moves entry i into place among the sorted ones before it. */
  method Sink(a: array<Stats>, i: nat, key: SortKey)
    requires i < a.Length && Descending(a[..i], key)
    modifies a
    ensures Descending(a[..i + 1], key)
    ensures multiset(a[..]) == old(multiset(a[..]))
  {
    hide Weight;
    var j := i;
    while j > 0 && Weight(a[j - 1], key) < Weight(a[j], key)
      invariant 0 <= j <= i
      invariant forall p, q | 0 <= p < q <= i && q != j :: Weight(a[p], key) >= Weight(a[q], key)
      invariant multiset(a[..]) == old(multiset(a[..]))
    {
      Swap(a, j);
      j := j - 1;
    }
  }

  /** qsort: only that the result is ordered and has the same entries is used. */
  method Sort(a: array<Stats>, key: SortKey)
    modifies a
    ensures Descending(a[..], key)
    ensures multiset(a[..]) == old(multiset(a[..]))
  {
    for i := 0 to a.Length
      invariant Descending(a[..i], key)
      invariant multiset(a[..]) == old(multiset(a[..]))
    {
      Sink(a, i, key);
    }
    assert a[..a.Length] == a[..];
  }

  /** The in-place filter. */
  method Keep(buf: array<Stats>, filter: Filter) returns (keep: nat)
    modifies buf
    ensures keep <= buf.Length && buf[..keep] == old(Kept(buf[..], filter))
  {
    keep := 0;
    for i := 0 to buf.Length
      invariant keep <= i
      invariant buf[..keep] == old(Kept(buf[..i], filter))
      invariant forall p | i <= p < buf.Length :: buf[p] == old(buf[p])
    {
      assert old(buf[..i + 1][..i]) == old(buf[..i]);
      if Passes(buf[i], filter) {
        buf[keep] := buf[i];
        keep := keep + 1;
      }
    }
    assert old(buf[..buf.Length]) == old(buf[..]);
  }

  lemma RowAt(s: State, keys: seq<Ip>, nows: seq<nat>, i: nat)
    requires Enumerates(s, keys, nows) && i < |keys|
    ensures |Rows(s, keys, nows)| == |nows| == |keys|
    ensures keys[i] in s.counters && Rows(s, keys, nows)[i] == StatsAt(s, keys[i], nows[i])
    ensures Rows(s, keys, nows)[i].ip == keys[i]
  {
    hide Total, ClientAt, RateAt;
    assert keys[i] in keys;
  }

  lemma SumsStep(rows: seq<Stats>, i: nat)
    requires i < |rows|
    ensures Sums(rows[..i + 1]) == Plus(Sums(rows[..i]), Share(rows[i]))
  {
    assert rows[..i + 1][..i] == rows[..i];
  }

  /** The second pass: a row per counter key, and the totals over all of them. */
  method Fill(s: State, keys: seq<Ip>, nows: seq<nat>) returns (buf: array<Stats>, summary: Summary)
    requires Enumerates(s, keys, nows)
    ensures fresh(buf) && buf[..] == Rows(s, keys, nows)
    ensures summary == Sums(Rows(s, keys, nows))
  {
    hide Total, ClientAt, RateAt, FillStats, Rows, Enumerates, Plus, Share, Sums;
    ghost var rows := Rows(s, keys, nows);
    buf := new Stats[|keys|](_ => Stats(Ip(0, 0), 0, 0, 0, 0, 0, 0, 0, 0));
    summary := EMPTY_SUMMARY;
    RowsLength(s, keys, nows);
    assert Sums(rows[..0]) == EMPTY_SUMMARY by { SumsOfNone(rows[..0]); }
    for i := 0 to |keys|
      invariant forall k | 0 <= k < i :: buf[k] == rows[k]
      invariant summary == Sums(rows[..i])
    {
      RowAt(s, keys, nows, i);
      var agg := AggregatePercpu(s.counters[keys[i]]);
      var c := ClientAt(s, keys[i]);
      buf[i] := FillStats(keys[i], agg, c, RateAt(s, c), nows[i]);
      summary := Plus(summary, Share(buf[i]));
      SumsStep(rows, i);
    }
    assert rows[..|keys|] == rows;
  }

  lemma SumsOfNone(rows: seq<Stats>)
    requires rows == []
    ensures Sums(rows) == EMPTY_SUMMARY
  {
  }

  /** hg_read_all, sorted by bytes. */
  method ReadAll(s: State, keys: seq<Ip>, nows: seq<nat>, key: SortKey, filter: Filter, limit: int)
    returns (buf: array<Stats>, count: nat, summary: Summary)
    requires Enumerates(s, keys, nows)
    ensures count <= buf.Length && Reports(Rows(s, keys, nows), key, filter, limit, buf[..count])
    ensures summary == Sums(Rows(s, keys, nows))
  {
    hide Reports, Rows, Enumerates, Sums, Kept;
    buf, summary := Fill(s, keys, nows);
    Sort(buf, key);
    SortFilterCut(Rows(s, keys, nows), buf[..], key, filter, limit);
    count := Keep(buf, filter);
    ghost var kept := buf[..count];
    if limit > 0 && count > limit {
      count := limit;
    }
    assert buf[..count] == kept[..count];
  }

  // ----- what the report says about clients -----------------------------------------------

  lemma ReadOneIsRow(s: State, keys: seq<Ip>, nows: seq<nat>, i: nat)
    requires Enumerates(s, keys, nows) && i < |keys|
    ensures |Rows(s, keys, nows)| == |keys| && ReadOne(s, keys[i], nows[i]) == Some(Rows(s, keys, nows)[i])
  {
    hide StatsAt, Total, ClientAt, RateAt;
    RowAt(s, keys, nows, i);
  }

  /** The report against the one-client reader: whatever is reported is what that reader says of a
      distinct client, and passes the filter; a client that passes and is not reported is
      outweighed by all that are, and the limit is used up. */
  lemma TopClients(s: State, keys: seq<Ip>, nows: seq<nat>, key: SortKey, filter: Filter, limit: int, out: seq<Stats>)
    requires Enumerates(s, keys, nows) && Reports(Rows(s, keys, nows), key, filter, limit, out)
    ensures forall y | y in out ::
              && (filter == All || y.state == filter.state)
              && exists i | 0 <= i < |keys| :: ReadOne(s, keys[i], nows[i]) == Some(y)
    ensures forall j, k | 0 <= j < k < |out| ::
              && out[j].ip != out[k].ip
              && (if key == DnBytes then out[j].dnBytes >= out[k].dnBytes else out[j].upBytes >= out[k].upBytes)
    ensures limit > 0 ==> |out| <= limit
    ensures forall i | 0 <= i < |keys| ::
              var x := ReadOne(s, keys[i], nows[i]);
              x.Some? && ((filter == All || x.value.state == filter.state) && x.value !in out ==>
                            && 0 < limit == |out|
                            && forall y | y in out ::
                                 if key == DnBytes then x.value.dnBytes <= y.dnBytes else x.value.upBytes <= y.upBytes)
  {
    hide Rows, ReadOne, Kept;
    var rows := Rows(s, keys, nows);
    RowsLength(s, keys, nows);
    forall y | y in out
      ensures Passes(y, filter) && exists i | 0 <= i < |keys| :: ReadOne(s, keys[i], nows[i]) == Some(y)
    {
      assert y in multiset(out);
      KeptBag(rows, filter, y);
      assert y in rows;
      var i :| 0 <= i < |rows| && rows[i] == y;
      ReadOneIsRow(s, keys, nows, i);
    }
    forall j, k | 0 <= j < k < |out|
      ensures out[j].ip != out[k].ip
    {
      DistinctRows(s, keys, nows, filter, out, j, k);
    }
    forall i | 0 <= i < |keys|
      ensures var x := ReadOne(s, keys[i], nows[i]);
              x.Some? && (Passes(x.value, filter) && x.value !in out ==>
                            0 < limit == |out| && forall y | y in out :: Weight(x.value, key) <= Weight(y, key))
    {
      ReadOneIsRow(s, keys, nows, i);
      if Passes(rows[i], filter) && rows[i] !in out {
        Omitted(rows, key, filter, limit, out, rows[i]);
      }
    }
  }

  lemma Omitted(rows: seq<Stats>, key: SortKey, filter: Filter, limit: int, out: seq<Stats>, x: Stats)
    requires Reports(rows, key, filter, limit, out) && x in rows && Passes(x, filter) && x !in out
    ensures 0 < limit == |out| && forall y | y in out :: Weight(x, key) <= Weight(y, key)
  {
    hide Weight, Kept, Passes;
    var kept := multiset(Kept(rows, filter));
    KeptBag(rows, filter, x);
    assert x in kept - multiset(out);
    assert |kept - multiset(out)| == |kept| - |out|;
  }

  lemma DistinctRows(s: State, keys: seq<Ip>, nows: seq<nat>, filter: Filter, out: seq<Stats>, j: nat, k: nat)
    requires Enumerates(s, keys, nows) && multiset(out) <= multiset(Kept(Rows(s, keys, nows), filter))
    requires j < k < |out|
    ensures out[j].ip != out[k].ip
  {
    hide Rows;
    var rows := Rows(s, keys, nows);
    var n := |keys|;
    assert |rows| == n by { RowsLength(s, keys, nows); }
    KeptBag(rows, filter, out[j]);
    KeptBag(rows, filter, out[k]);
    assert out[j] in multiset(out) && out[k] in multiset(out);
    var a :| 0 <= a < n && rows[a] == out[j];
    var b :| 0 <= b < n && rows[b] == out[k];
    RowAt(s, keys, nows, a);
    RowAt(s, keys, nows, b);
    if a == b {
      forall i | 0 <= i < n
        ensures rows[i].ip == keys[i]
      {
        RowAt(s, keys, nows, i);
      }
      TwoCopies(out, j, k);
      OneCopy(rows, a, keys);
    }
  }

  lemma RowsLength(s: State, keys: seq<Ip>, nows: seq<nat>)
    requires Enumerates(s, keys, nows)
    ensures |Rows(s, keys, nows)| == |keys|
  {
  }

  lemma TwoCopies(xs: seq<Stats>, j: nat, k: nat)
    requires j < k < |xs| && xs[j] == xs[k]
    ensures multiset(xs)[xs[j]] >= 2
  {
    assert xs == xs[..k] + [xs[k]] + xs[k + 1..];
    assert xs[j] in xs[..k];
  }

  /** Rows of different keys differ. */
  lemma OneCopy(rows: seq<Stats>, a: nat, keys: seq<Ip>)
    requires a < |rows| == |keys|
    requires forall i, j | 0 <= i < j < |keys| :: keys[i] != keys[j]
    requires forall i | 0 <= i < |rows| :: rows[i].ip == keys[i]
    ensures multiset(rows)[rows[a]] <= 1
  {
    var x := rows[a];
    assert rows == rows[..a] + [x] + rows[a + 1..];
    assert x !in rows[..a] && x !in rows[a + 1..];
  }

  // ----- the summary over whole runs ------------------------------------------------------

  /** The history's usage summed over the reported addresses. */
  ghost function UsageSums(s0: State, steps: seq<Step>, keys: seq<Ip>): Summary {
    if keys == [] then EMPTY_SUMMARY else
      var n := |keys| - 1;
      var u := UsageOf(s0, steps, keys[n]);
      var before := UsageSums(s0, steps, keys[..n]);
      before.(clients := before.clients + 1, upBytes := before.upBytes + u.uBytes, dnBytes := before.dnBytes + u.dBytes,
              upPackets := before.upPackets + u.uPackets, dnPackets := before.dnPackets + u.dPackets)
  }

  lemma RowUsage(s0: State, steps: seq<Step>, keys: seq<Ip>, nows: seq<nat>, i: nat)
    requires s0.counters == map[]
    requires Enumerates(Run(s0, steps), keys, nows) && i < |keys|
    ensures var x, u := Rows(Run(s0, steps), keys, nows)[i], UsageOf(s0, steps, keys[i]);
            && x.upBytes == u.uBytes && x.dnBytes == u.dBytes
            && x.upPackets == u.uPackets && x.dnPackets == u.dPackets
            && x.state <= EXPIRE
  {
    hide Total, ClientAt, RateAt, Rows, UsageOf, Run;
    RowAt(Run(s0, steps), keys, nows, i);
    Conservation(s0, steps, keys[i]);
  }

  lemma {:induction false} UsagePrefix(s0: State, steps: seq<Step>, keys: seq<Ip>, rows: seq<Stats>)
    requires |rows| == |keys|
    requires forall i | 0 <= i < |keys| ::
               var x, u := rows[i], UsageOf(s0, steps, keys[i]);
               && x.upBytes == u.uBytes && x.dnBytes == u.dBytes
               && x.upPackets == u.uPackets && x.dnPackets == u.dPackets
               && x.state <= EXPIRE
    ensures var a, b := Sums(rows), UsageSums(s0, steps, keys);
            && a == b.(active := a.active, expired := a.expired)
            && a.blocked == 0 && a.active + a.expired == a.clients == |keys|
  {
    hide UsageOf;
    if keys != [] {
      var n := |keys| - 1;
      UsagePrefix(s0, steps, keys[..n], rows[..n]);
    }
  }

  /** After every run the gateway totals are the bytes and packets of the frames that left by the
      authenticated path since each address was last reset, whatever the filter and limit; and
      every client is counted active or expired, none blocked. */
  lemma SummaryIsHistory(s0: State, steps: seq<Step>, keys: seq<Ip>, nows: seq<nat>)
    requires s0.counters == map[]
    requires Enumerates(Run(s0, steps), keys, nows)
    ensures var a, b := Sums(Rows(Run(s0, steps), keys, nows)), UsageSums(s0, steps, keys);
            && a == b.(active := a.active, expired := a.expired)
            && a.blocked == 0 && a.active + a.expired == a.clients == |Run(s0, steps).counters|
  {
    hide Run, UsageOf, UsageSums, Sums, Rows;
    var z := Run(s0, steps);
    RowsLength(z, keys, nows);
    forall i | 0 <= i < |keys|
      ensures var x, u := Rows(z, keys, nows)[i], UsageOf(s0, steps, keys[i]);
              && x.upBytes == u.uBytes && x.dnBytes == u.dBytes
              && x.upPackets == u.uPackets && x.dnPackets == u.dPackets
              && x.state <= EXPIRE
    {
      RowUsage(s0, steps, keys, nows, i);
    }
    UsagePrefix(s0, steps, keys, Rows(z, keys, nows));
    KeysCount(keys, z.counters.Keys);
  }

  lemma {:induction false} KeysCount(keys: seq<Ip>, all: set<Ip>)
    requires forall ip :: ip in keys <==> ip in all
    requires forall i, j | 0 <= i < j < |keys| :: keys[i] != keys[j]
    ensures |keys| == |all|
  {
    if keys != [] {
      var n := |keys| - 1;
      assert keys[n] !in keys[..n];
      assert keys == keys[..n] + [keys[n]];
      KeysCount(keys[..n], all - {keys[n]});
    } else {
      assert forall ip | ip in all :: ip in keys;
      assert all == {};
    }
  }
}
