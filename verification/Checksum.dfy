/** Ones'-complement checksums: the Internet checksum (section 3.1 of RFC 791, section 3.1 of
    RFC 9293) and its incremental update (equation 3 in section 3 of RFC 1624), which is what
    the bpf_l3_csum_replace and bpf_l4_csum_replace helpers compute. */
module Checksum {
  import opened Net

  /** End-around carry. */
  function Fold(s: nat): Word {
    if s < 0x1_0000 then s else Fold(s / 0x1_0000 + s % 0x1_0000)
  }

  /** A datagram verifies when all its words, checksum included, add up to all ones. */
  predicate Verifies(sum: nat) { Fold(sum) == 0xFFFF }

  lemma {:induction false} FoldQuotient(s: nat) returns (q: nat)
    ensures s == 0xFFFF * q + Fold(s)
    ensures Fold(s) == 0 <==> s == 0
  {
    if s < 0x1_0000 {
      q := 0;
    } else {
      q := FoldQuotient(s / 0x1_0000 + s % 0x1_0000);
      q := q + s / 0x1_0000;
    }
  }

  /** Verification is divisibility by 2^16 - 1, except that all-zero data does not verify. */
  lemma VerifiesIffDivisible(s: nat)
    ensures Verifies(s) <==> s > 0 && s % 0xFFFF == 0
  {
    var q := FoldQuotient(s);
    RemainderOf(s, q, Fold(s));
  }

  /** Fold(s) is s modulo 65535, except that it is 65535 where the remainder is 0. */
  lemma RemainderOf(s: nat, q: nat, r: Word)
    requires s == 0xFFFF * q + r
    ensures s % 0xFFFF == 0 <==> r == 0 || r == 0xFFFF
  {
    if r == 0xFFFF {
      ModOf(s, q + 1, 0);
    } else {
      ModOf(s, q, r);
    }
  }

  lemma ModOf(s: nat, q: nat, r: nat)
    requires s == 0xFFFF * q + r && r < 0xFFFF
    ensures s % 0xFFFF == r
  {
  }

  lemma SameResidue(s: nat, t: nat, k: int)
    requires s > 0 && t > 0 && s == t + 0xFFFF * k
    ensures Verifies(s) <==> Verifies(t)
  {
    hide Verifies;
    VerifiesIffDivisible(s);
    VerifiesIffDivisible(t);
  }

  function Not(x: Word): Word { 0xFFFF - x }

  /** HC' = ~(~HC + ~m + m') for a 16-bit field. */
  function UpdateWord(c: Word, from: Word, to: Word): Word {
    Not(Fold(Not(c) + Not(from) + to))
  }

  /** The same for a 32-bit field. */
  function UpdateIp(c: Word, from: Ip, to: Ip): Word {
    Not(Fold(Not(c) + Not(from.hi) + Not(from.lo) + to.hi + to.lo))
  }

  /** The new checksum compensates the new field as the old one compensated the old field. */
  lemma UpdateWordBalances(c: Word, from: Word, to: Word) returns (k: int)
    ensures UpdateWord(c, from, to) + to == c + from + 0xFFFF * k
  {
    var q := FoldQuotient(Not(c) + Not(from) + to);
    k := q as int - 1;
  }

  lemma UpdateIpBalances(c: Word, from: Ip, to: Ip) returns (k: int)
    ensures UpdateIp(c, from, to) + to.hi + to.lo == c + from.hi + from.lo + 0xFFFF * k
  {
    var q := FoldQuotient(Not(c) + Not(from.hi) + Not(from.lo) + to.hi + to.lo);
    k := q as int - 2;
  }

  /** A sum in which an address and the updated checksum were exchanged. */
  lemma CompensatedIp(t: nat, t': nat, c: Word, from: Ip, to: Ip)
    requires t > 0 && t' > 0
    requires t' == t + to.hi + to.lo - from.hi - from.lo + UpdateIp(c, from, to) - c
    ensures Verifies(t') <==> Verifies(t)
  {
    hide Verifies, UpdateIp;
    var k := UpdateIpBalances(c, from, to);
    SameResidue(t', t, k);
  }

  /** A sum in which an address, a port and the updated checksum were exchanged. */
  lemma CompensatedSum(t: nat, t': nat, c: Word, from: Ip, to: Ip, fromPort: Word, toPort: Word)
    requires t > 0 && t' > 0
    requires t' == t + to.hi + to.lo - from.hi - from.lo
                     + UpdateWord(UpdateIp(c, from, to), fromPort, toPort) - c + toPort - fromPort
    ensures Verifies(t') <==> Verifies(t)
  {
    hide Verifies, UpdateIp, UpdateWord;
    var k1 := UpdateIpBalances(c, from, to);
    var k2 := UpdateWordBalances(UpdateIp(c, from, to), fromPort, toPort);
    SameResidue(t', t, k1 + k2);
  }

  lemma FoldUnique(s: nat, x: Word, q: nat)
    requires s == 0xFFFF * q + x && (x == 0 <==> s == 0)
    ensures x == Fold(s)
  {
    hide Fold;
    var q' := FoldQuotient(s);
  }

  lemma FoldAbsorbs(s: nat, t: nat)
    ensures Fold(Fold(s) + t) == Fold(s + t)
  {
    var q0 := FoldQuotient(s);
    var q1 := FoldQuotient(Fold(s) + t);
    FoldUnique(s + t, Fold(Fold(s) + t), q0 + q1);
  }

  /** One 32-bit update is two 16-bit updates. */
  lemma UpdateIpIsTwoWords(c: Word, from: Ip, to: Ip)
    ensures UpdateIp(c, from, to) == UpdateWord(UpdateWord(c, from.hi, to.hi), from.lo, to.lo)
  {
    var s, t := Not(c) + Not(from.hi) + to.hi, Not(from.lo) + to.lo;
    FoldAbsorbs(s, t);
    assert Not(UpdateWord(c, from.hi, to.hi)) == Fold(s);
    assert s + t == Not(c) + Not(from.hi) + Not(from.lo) + to.hi + to.lo;
  }

  function Sum(w: seq<Word>, lo: nat, hi: nat): nat
    requires lo <= hi <= |w|
  {
    if lo == hi then 0 else Sum(w, lo, hi - 1) + w[hi - 1]
  }

  lemma {:induction false} SumUpdate(w: seq<Word>, lo: nat, hi: nat, i: nat, x: Word)
    requires lo <= hi <= |w| && i < |w|
    ensures Sum(w[i := x], lo, hi) == Sum(w, lo, hi) + (if lo <= i < hi then x - w[i] else 0)
  {
    if lo < hi {
      SumUpdate(w, lo, hi - 1, i, x);
    }
  }

  lemma {:induction false} SumPositive(w: seq<Word>, lo: nat, hi: nat, i: nat)
    requires lo <= i < hi <= |w|
    ensures Sum(w, lo, hi) >= w[i]
  {
    if i < hi - 1 {
      SumPositive(w, lo, hi - 1, i);
    }
  }
}
