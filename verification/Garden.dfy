/** The walled garden: CIDR canonicalisation in network byte order and the prefix-trie lookup. */
module Garden {
  import opened Net
  import opened History

  const ONES: bv32 := 0xFFFF_FFFF
  const WG_CAPACITY: nat := 64

  /** htonl and ntohl on a little-endian machine. */
  function Swap(x: bv32): bv32 {
    ((x & 0xFF) << 24) | ((x & 0xFF00) << 8) | ((x >> 8) & 0xFF00) | (x >> 24)
  }

  /** The dotted quad read in host order, and the number after the slash (32 without one). */
  datatype Cidr = Cidr(addr: bv32, prefix: int)

  /** hg_wg_key: ip is the native reading of an address stored in network order. */
  datatype WgKey = WgKey(prefixlen: bv6, ip: bv32)

  function HostBits(prefixlen: bv6): bv6 { if prefixlen <= 32 then 32 - prefixlen else 0 }

  function NetMask(prefixlen: bv6): bv32 { ONES << HostBits(prefixlen) }

  function MaskNative(ip: bv32, prefixlen: bv6): bv32 {
    if prefixlen == 0 then 0
    else if prefixlen < 32 then ip & Swap(NetMask(prefixlen))
    else ip
  }

  function ParseCidr(c: Cidr): Option<WgKey> {
    if c.prefix < 0 || c.prefix > 32 then None
    else Some(WgKey(c.prefix as bv6, MaskNative(Swap(c.addr), c.prefix as bv6)))
  }

  /** What is left of a host-order address when all but its first prefixlen bits are shifted out. */
  function Leading(prefixlen: bv6, x: bv32): bv32
    requires prefixlen <= 32
  {
    x >> (32 - prefixlen)
  }

  /** The first prefixlen bits of two host-order addresses agree. */
  predicate SamePrefix(prefixlen: bv6, a: bv32, b: bv32) {
    if prefixlen <= 32 then Leading(prefixlen, a) == Leading(prefixlen, b) else a == b
  }

  predicate KeyMatches(key: WgKey, ip: bv32) { SamePrefix(key.prefixlen, Swap(key.ip), Swap(ip)) }

  /** LPM_TRIE lookup of a full-length key: some stored prefix matches its leading bits. */
  predicate TrieHas(trie: set<WgKey>, ip: bv32) {
    exists key | key in trie :: KeyMatches(key, ip)
  }

  // ----- masking in network order is truncation -------------------------------------------

  lemma SwapTwice(x: bv32)
    ensures Swap(Swap(x)) == x
  {
  }

  lemma OnesShift(k: bv6)
    requires 0 < k <= 32
    ensures ONES << k == (ONES << (k - 1)) << 1
  {
  }

  lemma ShiftOneMore(x: bv32, k: bv6)
    requires 0 < k <= 32
    ensures x >> k == (x >> 1) >> (k - 1)
    ensures x << k == (x << (k - 1)) << 1
  {
  }

  lemma AndShifted(x: bv32, m: bv32)
    ensures x & (m << 1) == ((x >> 1) & m) << 1
  {
  }

  /** The mask clears exactly the low k bits: truncation to a multiple of 2^k. */
  lemma {:induction false} MaskTruncates(x: bv32, k: bv6)
    requires k <= 32
    ensures x & (ONES << k) == (x >> k) << k
    decreases k
  {
    if k > 0 {
      MaskTruncates(x >> 1, k - 1);
      OnesShift(k);
      ShiftOneMore(x, k);
      ShiftOneMore(x >> k, k);
      AndShifted(x, ONES << (k - 1));
    }
  }

  lemma SwapAnd(x: bv32, m: bv32)
    ensures Swap(Swap(x) & Swap(m)) == x & m
  {
  }

  lemma SwapInjective(x: bv32, y: bv32)
    ensures Swap(x) == Swap(y) <==> x == y
  {
  }

  lemma AndTwice(x: bv32, m: bv32)
    ensures (x & m) & m == x & m
  {
  }

  lemma NetMaskEnds()
    ensures NetMask(0) == 0 && NetMask(32) == ONES && Swap(0) == 0 && Swap(ONES) == ONES
  {
  }

  /** Truncation to a multiple of 2^(32 - prefixlen). */
  function Truncated(prefixlen: bv6, x: bv32): bv32
    requires prefixlen <= 32
  {
    Widened(prefixlen, Leading(prefixlen, x))
  }

  function Widened(prefixlen: bv6, y: bv32): bv32
    requires prefixlen <= 32
  {
    y << (32 - prefixlen)
  }

  lemma MaskInHostOrder(addr: bv32, prefixlen: bv6)
    requires prefixlen <= 32
    ensures Swap(MaskNative(Swap(addr), prefixlen)) == addr & NetMask(prefixlen)
  {
    NetMaskEnds();
    SwapTwice(addr);
    SwapAnd(addr, NetMask(prefixlen));
    AndEnds(addr);
    hide Swap, NetMask;
    if prefixlen == 0 {
      assert MaskNative(Swap(addr), prefixlen) == 0;
    } else if prefixlen == 32 {
      assert MaskNative(Swap(addr), prefixlen) == Swap(addr);
    } else {
      InnerPrefix(prefixlen);
      assert MaskNative(Swap(addr), prefixlen) == Swap(addr) & Swap(NetMask(prefixlen));
    }
  }

  lemma NetMaskShifts(prefixlen: bv6)
    requires prefixlen <= 32
    ensures NetMask(prefixlen) == ONES << (32 - prefixlen) && 32 - prefixlen <= 32
  {
  }

  lemma MaskIsTruncation(addr: bv32, prefixlen: bv6)
    requires prefixlen <= 32
    ensures addr & NetMask(prefixlen) == Truncated(prefixlen, addr)
  {
    NetMaskShifts(prefixlen);
    hide NetMask;
    MaskTruncates(addr, 32 - prefixlen);
  }

  /** In network order too, the mask keeps exactly the prefix bits of the host-order address: it is
      truncation to a multiple of 2^(32 - prefixlen). */
  lemma MaskKeepsPrefixBits(addr: bv32, prefixlen: bv6)
    requires prefixlen <= 32
    ensures Swap(MaskNative(Swap(addr), prefixlen)) == Truncated(prefixlen, addr)
  {
    hide Swap, MaskNative, NetMask, Truncated;
    MaskInHostOrder(addr, prefixlen);
    MaskIsTruncation(addr, prefixlen);
  }

  /** Truncation keeps the leading bits, and nothing else. */
  lemma LeadingOfTruncated(p: bv6, x: bv32)
    requires p <= 32
    ensures Leading(p, Truncated(p, x)) == Leading(p, x)
  {
    ShiftedTwice(x, 32 - p);
  }

  lemma ShiftedTwice(x: bv32, k: bv6)
    requires k <= 32
    ensures ((x >> k) << k) >> k == x >> k
  {
  }

  lemma SameTruncation(p: bv6, a: bv32, b: bv32)
    requires p <= 32
    ensures Truncated(p, a) == Truncated(p, b) <==> Leading(p, a) == Leading(p, b)
  {
    hide Leading, Widened;
    LeadingOfTruncated(p, a);
    LeadingOfTruncated(p, b);
  }

  lemma AndEnds(x: bv32)
    ensures x & 0 == 0 && x & ONES == x
  {
  }

  lemma InnerPrefix(p: bv6)
    requires p <= 32 && p != 0 && p != 32
    ensures p < 32
  {
  }

  /** Masking twice is masking once. */
  lemma MaskIsIdempotent(ip: bv32, prefixlen: bv6)
    ensures MaskNative(MaskNative(ip, prefixlen), prefixlen) == MaskNative(ip, prefixlen)
  {
    AndTwice(ip, Swap(NetMask(prefixlen)));
  }

  // ----- the garden over whole runs -------------------------------------------------------

  predicate Valid(c: Cidr) { 0 <= c.prefix <= 32 }

  predicate SameNetwork(c: Cidr, d: Cidr)
    requires Valid(c)
  {
    c.prefix == d.prefix && SamePrefix(c.prefix as bv6, c.addr, d.addr)
  }

  predicate Covers(c: Cidr, addr: bv32)
    requires Valid(c)
  {
    SamePrefix(c.prefix as bv6, c.addr, addr)
  }

  lemma PrefixNumber(p: int, q: int)
    requires 0 <= p <= 32 && 0 <= q <= 32
    ensures p as bv6 <= 32 && (p as bv6 == q as bv6 <==> p == q)
  {
  }

  lemma SameMaskIffSamePrefix(p: bv6, a: bv32, b: bv32)
    requires p <= 32
    ensures MaskNative(Swap(a), p) == MaskNative(Swap(b), p) <==> SamePrefix(p, a, b)
  {
    hide Swap, MaskNative, Leading, Truncated;
    MaskKeepsPrefixBits(a, p);
    MaskKeepsPrefixBits(b, p);
    SameTruncation(p, a, b);
    SwapInjective(MaskNative(Swap(a), p), MaskNative(Swap(b), p));
  }

  /** Two CIDRs are stored under one key exactly when they name the same network, so wg-del
      removes what wg-add stored for any host bits. */
  lemma SameKeyIffSameNetwork(c: Cidr, d: Cidr)
    requires Valid(c) && Valid(d)
    ensures ParseCidr(c) == ParseCidr(d) <==> SameNetwork(c, d)
  {
    PrefixNumber(c.prefix, d.prefix);
    SameMaskIffSamePrefix(c.prefix as bv6, c.addr, d.addr);
  }

  lemma MaskedKeyMatches(p: bv6, a: bv32, b: bv32)
    requires p <= 32
    ensures KeyMatches(WgKey(p, MaskNative(Swap(a), p)), Swap(b)) <==> SamePrefix(p, a, b)
  {
    hide Swap, MaskNative, Leading, Truncated;
    MaskKeepsPrefixBits(a, p);
    SwapTwice(b);
    LeadingOfTruncated(p, a);
  }

  /** The key stored for a CIDR matches exactly the addresses the CIDR covers. */
  lemma KeyMatchesCover(c: Cidr, addr: bv32)
    requires Valid(c)
    ensures KeyMatches(ParseCidr(c).value, Swap(addr)) <==> Covers(c, addr)
  {
    PrefixNumber(c.prefix, c.prefix);
    MaskedKeyMatches(c.prefix as bv6, c.addr, addr);
  }

  datatype Op = WgAdd(cidr: Cidr) | WgDel(cidr: Cidr)

  /** wg_add_action and wg_del_action parse, then update or delete the key. */
  function KeyOp(op: Op): SetOp<WgKey> {
    if op.WgAdd? then Put(ParseCidr(op.cidr)) else Remove(ParseCidr(op.cidr))
  }

  function KeyOps(ops: seq<Op>): seq<SetOp<WgKey>> { seq(|ops|, i requires 0 <= i < |ops| => KeyOp(ops[i])) }

  function Trie(ops: seq<Op>): set<WgKey> { RunOps(KeyOps(ops), WG_CAPACITY) }

  /** ops[i] added a network, successfully, that no later operation deleted. */
  ghost predicate Planted(ops: seq<Op>, i: nat)
    requires i < |ops|
  {
    && ops[i].WgAdd? && Valid(ops[i].cidr) && Succeeded(KeyOps(ops), i, WG_CAPACITY)
    && forall j | i < j < |ops| && ops[j].WgDel? :: !SameNetwork(ops[i].cidr, ops[j].cidr)
  }

  lemma PlantedIsStanding(ops: seq<Op>, i: nat)
    requires i < |ops|
    ensures Planted(ops, i) <==>
            Valid(ops[i].cidr) && Standing(KeyOps(ops), i, ParseCidr(ops[i].cidr).value, WG_CAPACITY)
  {
    if Valid(ops[i].cidr) {
      forall j | i < j < |ops|
        ensures KeyOps(ops)[j] == Remove(ParseCidr(ops[i].cidr))
                <==> ops[j].WgDel? && SameNetwork(ops[i].cidr, ops[j].cidr)
      {
        if Valid(ops[j].cidr) {
          SameKeyIffSameNetwork(ops[i].cidr, ops[j].cidr);
        }
      }
    }
  }

  /** After every sequence of wg-add and wg-del the lookup succeeds exactly when a CIDR added
      and not since deleted covers the address. */
  lemma LookupIsPrefixCover(ops: seq<Op>, addr: bv32)
    ensures TrieHas(Trie(ops), Swap(addr)) <==>
            exists i | 0 <= i < |ops| :: Planted(ops, i) && Covers(ops[i].cidr, addr)
  {
    var kops := KeyOps(ops);
    forall i | 0 <= i < |ops| && Planted(ops, i)
      ensures Covers(ops[i].cidr, addr) ==> TrieHas(Trie(ops), Swap(addr))
    {
      var key := ParseCidr(ops[i].cidr).value;
      PlantedIsStanding(ops, i);
      PresentIffStanding(kops, key, WG_CAPACITY);
      KeyMatchesCover(ops[i].cidr, addr);
    }
    if TrieHas(Trie(ops), Swap(addr)) {
      var key :| key in Trie(ops) && KeyMatches(key, Swap(addr));
      PresentIffStanding(kops, key, WG_CAPACITY);
      var i :| 0 <= i < |kops| && Standing(kops, i, key, WG_CAPACITY);
      PlantedIsStanding(ops, i);
      KeyMatchesCover(ops[i].cidr, addr);
    }
  }
}
