/** A bounded BPF hash used as a set: what is in it after a run of updates and deletes. */
module History {
  import opened Net

  /** key is None when the argument did not parse. */
  datatype SetOp<K> = Put(key: Option<K>) | Remove(key: Option<K>)

  /** An insert of a new key fails when the map is full; a delete of a missing key fails. */
  function Apply<K(==)>(m: set<K>, op: SetOp<K>, capacity: nat): (r: (set<K>, bool)) {
    match op
    case Put(Some(k)) => if k in m || |m| < capacity then (m + {k}, true) else (m, false)
    case Remove(Some(k)) => (m - {k}, k in m)
    case _ => (m, false)
  }

  function RunOps<K(==)>(ops: seq<SetOp<K>>, capacity: nat): set<K> {
    if ops == [] then {} else Apply(RunOps(ops[..|ops| - 1], capacity), ops[|ops| - 1], capacity).0
  }

  predicate Succeeded<K(==)>(ops: seq<SetOp<K>>, i: nat, capacity: nat)
    requires i < |ops|
  {
    Apply(RunOps(ops[..i], capacity), ops[i], capacity).1
  }

  /** What one operation answers and leaves: a put succeeds exactly when the key is there or there is
      room, a delete exactly when the key is there; what succeeds takes effect, and what fails changes
      nothing. */
  lemma OneOperation<K>(m: set<K>, k: K, capacity: nat)
    ensures var (put, ok) := Apply(m, Put(Some(k)), capacity);
            (ok <==> k in m || |m| < capacity) && (if ok then k in put && put - {k} == m - {k} else put == m)
    ensures var (left, ok) := Apply(m, Remove(Some(k)), capacity);
            (ok <==> k in m) && k !in left && left == m - {k}
    ensures forall op: SetOp<K> | op.key == None :: Apply(m, op, capacity) == (m, false)
  {
  }

  /** ops[i] put k in, and no later operation removed it. */
  ghost predicate Standing<K>(ops: seq<SetOp<K>>, i: nat, k: K, capacity: nat)
    requires i < |ops|
  {
    && ops[i] == Put(Some(k)) && Succeeded(ops, i, capacity)
    && forall j | i < j < |ops| :: ops[j] != Remove(Some(k))
  }

  lemma StandingBefore<K>(ops: seq<SetOp<K>>, i: nat, k: K, capacity: nat)
    requires i < |ops| - 1
    ensures Standing(ops, i, k, capacity) <==>
            Standing(ops[..|ops| - 1], i, k, capacity) && ops[|ops| - 1] != Remove(Some(k))
  {
    assert ops[..|ops| - 1][..i] == ops[..i];
  }

  lemma Stays<K>(m: set<K>, op: SetOp<K>, k: K, capacity: nat)
    requires (k in m && op != Remove(Some(k))) || (op == Put(Some(k)) && Apply(m, op, capacity).1)
    ensures k in Apply(m, op, capacity).0
  {
  }

  lemma {:induction false} StandingIsPresent<K>(ops: seq<SetOp<K>>, i: nat, k: K, capacity: nat)
    requires i < |ops| && Standing(ops, i, k, capacity)
    ensures k in RunOps(ops, capacity)
  {
    hide Apply;
    var n := |ops| - 1;
    if i < n {
      StandingBefore(ops, i, k, capacity);
      hide Standing;
      StandingIsPresent(ops[..n], i, k, capacity);
    }
    Stays(RunOps(ops[..n], capacity), ops[n], k, capacity);
  }

  lemma {:induction false} PresentIsStanding<K>(ops: seq<SetOp<K>>, k: K, capacity: nat) returns (i: nat)
    requires k in RunOps(ops, capacity)
    ensures i < |ops| && Standing(ops, i, k, capacity)
  {
    var n := |ops| - 1;
    if k in RunOps(ops[..n], capacity) {
      i := PresentIsStanding(ops[..n], k, capacity);
      StandingBefore(ops, i, k, capacity);
    } else {
      i := n;
    }
  }

  /** A key is present exactly when some successful put of it still stands. */
  lemma PresentIffStanding<K>(ops: seq<SetOp<K>>, k: K, capacity: nat)
    ensures k in RunOps(ops, capacity) <==> exists i | 0 <= i < |ops| :: Standing(ops, i, k, capacity)
  {
    if k in RunOps(ops, capacity) {
      var i := PresentIsStanding(ops, k, capacity);
    }
    forall i | 0 <= i < |ops| && Standing(ops, i, k, capacity)
      ensures k in RunOps(ops, capacity)
    {
      StandingIsPresent(ops, i, k, capacity);
    }
  }

  lemma {:induction false} NoMoreThanSteps<K>(ops: seq<SetOp<K>>, capacity: nat)
    ensures |RunOps(ops, capacity)| <= |ops|
  {
    if ops != [] {
      NoMoreThanSteps(ops[..|ops| - 1], capacity);
    }
  }

  /** Within the capacity no put of a parsed key fails. */
  lemma WithinCapacity<K>(ops: seq<SetOp<K>>, i: nat, capacity: nat)
    requires i < |ops| && i < capacity && ops[i].Put? && ops[i].key.Some?
    ensures Succeeded(ops, i, capacity)
  {
    NoMoreThanSteps(ops[..i], capacity);
  }

  lemma {:induction false} SubsetSize<T>(a: set<T>, b: set<T>)
    requires a <= b
    ensures |a| <= |b|
  {
    if a != {} {
      var x :| x in a;
      SubsetSize(a - {x}, b - {x});
    }
  }
}
