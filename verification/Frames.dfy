/** Ethernet/IPv4/TCP frames as big-endian 16-bit words, their classification into the pre-auth
    key, and the two address rewrites of the portal redirect. */
module Frames {
  import opened Net
  import opened Checksum

  /** len counts bytes from the Ethernet header on; an odd last byte fills half a word. */
  datatype RawFrame = Frame(w: seq<Word>, len: nat)

  type Frame = f: RawFrame | |f.w| == (f.len + 1) / 2 witness Frame([], 0)

  // ----- field positions, in words --------------------------------------------------------

  const ETH_HLEN: nat := 14
  const IP_HLEN: nat := 20
  const TCP_HLEN: nat := 20
  const UDP_HLEN: nat := 8
  const ETHERTYPE: nat := 6
  const IP_HEAD: nat := 7
  const IP_TOTLEN: nat := 8
  const IP_CHECK: nat := 12
  const IP_SADDR: nat := 13
  const IP_DADDR: nat := 15
  const TCP_CHECK: nat := 8

  predicate HasEth(f: Frame) { f.len >= ETH_HLEN }

  predicate IsIpv4(f: Frame) { f.len >= ETH_HLEN + IP_HLEN && f.w[ETHERTYPE] == ETH_P_IP }

  function SrcMac(f: Frame): Mac requires HasEth(f) { Mac(f.w[3], f.w[4], f.w[5]) }

  function Ihl(f: Frame): nat requires IsIpv4(f) { f.w[IP_HEAD] / 256 % 16 }

  function Protocol(f: Frame): nat requires IsIpv4(f) { f.w[11] % 256 }

  function Saddr(f: Frame): Ip requires IsIpv4(f) { Ip(f.w[IP_SADDR], f.w[IP_SADDR + 1]) }

  function Daddr(f: Frame): Ip requires IsIpv4(f) { Ip(f.w[IP_DADDR], f.w[IP_DADDR + 1]) }

  /** The word where the header at ihl * 4 starts. */
  function L4(f: Frame): nat requires IsIpv4(f) { IP_HEAD + 2 * Ihl(f) }

  /** n bytes of layer-4 header fit at ihl * 4. */
  predicate HasL4(f: Frame, n: nat) requires IsIpv4(f) { ETH_HLEN + 4 * Ihl(f) + n <= f.len }

  predicate IsTcp(f: Frame) { IsIpv4(f) && Protocol(f) == IPPROTO_TCP && HasL4(f, TCP_HLEN) }

  function Sport(f: Frame): Word requires IsTcp(f) { f.w[L4(f)] }

  function Dport(f: Frame): Word requires IsTcp(f) { f.w[L4(f) + 1] }

  // ----- filter_proto ---------------------------------------------------------------------

  /** hg_allow_key; ports in host order, 0 is the wildcard. */
  datatype AllowKey = AllowKey(proto: nat, sPort: Word, dPort: Word)

  datatype Class = Invalid | L2Only(eth: Word) | L3Ok(key: AllowKey)

  function Classify(f: Frame): (c: Class)
    ensures c.L3Ok? ==> IsIpv4(f) && c.key.proto == Protocol(f)
    ensures c.L3Ok? && c.key.proto == IPPROTO_TCP ==> IsTcp(f) && c.key.sPort == Sport(f) && c.key.dPort == Dport(f)
    ensures IsTcp(f) ==> c.L3Ok?
  {
    if f.len < ETH_HLEN then Invalid
    else if f.w[ETHERTYPE] != ETH_P_IP then L2Only(f.w[ETHERTYPE])
    else if f.len < ETH_HLEN + IP_HLEN then Invalid
    else
      var proto := Protocol(f);
      if proto == IPPROTO_UDP then
        if HasL4(f, UDP_HLEN) then L3Ok(AllowKey(proto, f.w[L4(f)], f.w[L4(f) + 1])) else Invalid
      else if proto == IPPROTO_TCP then
        if HasL4(f, TCP_HLEN) then L3Ok(AllowKey(proto, f.w[L4(f)], f.w[L4(f) + 1])) else Invalid
      else L3Ok(AllowKey(proto, 0, 0))
  }

  /** The fixed part of an IPv4 header behind an Ethernet header, as they stand on the wire (section
      3.1 of RFC 791). */
  datatype Head = Head(dstMac: Mac, srcMac: Mac, tos: nat, total: Word, id: Word, frag: Word,
                       ttl: nat, proto: nat, check: Word, src: Ip, dst: Ip)

  predicate GoodHead(h: Head) { h.tos < 256 && h.ttl < 256 && h.proto < 256 }

  function HeadWords(h: Head, ihl: nat): seq<Word>
    requires GoodHead(h) && 5 <= ihl <= 15
  {
    [h.dstMac.a, h.dstMac.b, h.dstMac.c, h.srcMac.a, h.srcMac.b, h.srcMac.c, 0x0800,
     (4 * 16 + ihl) * 256 + h.tos, h.total, h.id, h.frag, h.ttl * 256 + h.proto, h.check,
     h.src.hi, h.src.lo, h.dst.hi, h.dst.lo]
  }

  /** f is the header, options that fill it to ihl words of four bytes, and the transport part. */
  predicate Assembled(f: Frame, h: Head, ihl: nat, options: seq<Word>, transport: seq<Word>) {
    && GoodHead(h) && 5 <= ihl <= 15 && |options| == 2 * (ihl - 5)
    && f.w == HeadWords(h, ihl) + options + transport && f.len >= 14 + 4 * ihl
  }

  /** How an assembled frame is read: its fields, and its key with the two ports of TCP and UDP in
      order and none for any other protocol; it is invalid exactly when the TCP or UDP header is
      cut short. */
  lemma AssembledIsRead(f: Frame, h: Head, ihl: nat, options: seq<Word>, transport: seq<Word>)
    requires Assembled(f, h, ihl, options, transport)
    ensures IsIpv4(f) && SrcMac(f) == h.srcMac && Ihl(f) == ihl && Protocol(f) == h.proto
    ensures Saddr(f) == h.src && Daddr(f) == h.dst
    ensures var need := if h.proto == 6 then 20 else 8;
            Classify(f) ==
            if h.proto != 6 && h.proto != 17 then L3Ok(AllowKey(h.proto, 0, 0))
            else if f.len < 14 + 4 * ihl + need then Invalid
            else L3Ok(AllowKey(h.proto, transport[0], transport[1]))
  {
    var front := HeadWords(h, ihl) + options;
    assert |front| == 7 + 2 * ihl && f.w == front + transport;
    assert forall i | 0 <= i < 17 :: f.w[i] == HeadWords(h, ihl)[i];
    assert L4(f) == |front|;
    if |transport| >= 2 {
      assert f.w[|front|] == transport[0] && f.w[|front| + 1] == transport[1];
    }
  }

  /** Frames without an IPv4 header: cut short, or told by the EtherType behind the two MACs. */
  lemma OtherFramesAreRead(f: Frame)
    ensures f.len < 14 ==> Classify(f) == Invalid
    ensures f.len >= 14 && f.w[6] != 0x0800 ==> Classify(f) == L2Only(f.w[6])
    ensures 14 <= f.len < 34 && f.w[6] == 0x0800 ==> Classify(f) == Invalid
  {
  }

  /** The portal test reads the TCP header right behind a 20-byte IP header, whatever ihl says. */
  predicate AtPortalPort(f: Frame, port: Word)
    requires IsIpv4(f)
  {
    Protocol(f) == IPPROTO_TCP && ETH_HLEN + IP_HLEN + TCP_HLEN <= f.len && f.w[IP_HEAD + 2 * 5 + 1] == port
  }

  // ----- checksums of a frame -------------------------------------------------------------

  predicate HasHeader(f: Frame) { IsIpv4(f) && Ihl(f) >= 5 && HasL4(f, 0) }

  predicate IpChecksumOk(f: Frame)
    requires HasHeader(f)
  {
    Verifies(Sum(f.w, IP_HEAD, L4(f)))
  }

  /** The whole TCP segment announced by the IP total length is in the frame. */
  predicate WholeSegment(f: Frame) {
    && IsTcp(f) && Ihl(f) >= 5
    && f.w[IP_TOTLEN] >= 4 * Ihl(f) + TCP_HLEN
    && ETH_HLEN + f.w[IP_TOTLEN] <= f.len
  }

  function SegLen(f: Frame): nat requires WholeSegment(f) { f.w[IP_TOTLEN] - 4 * Ihl(f) }

  function AddrSum(ip: Ip): nat { ip.hi + ip.lo }

  /** An odd last byte counts as the high half of a word. */
  function OddByte(f: Frame): nat
    requires WholeSegment(f)
  {
    if SegLen(f) % 2 == 1 then f.w[L4(f) + SegLen(f) / 2] / 256 * 256 else 0
  }

  /** Pseudo-header and segment. */
  function TcpSum(f: Frame): nat
    requires WholeSegment(f)
  {
    var n := SegLen(f);
    AddrSum(Saddr(f)) + AddrSum(Daddr(f)) + IPPROTO_TCP + n + Sum(f.w, L4(f), L4(f) + n / 2) + OddByte(f)
  }

  predicate TcpChecksumOk(f: Frame) requires WholeSegment(f) { Verifies(TcpSum(f)) }

  // ----- the rewrite ----------------------------------------------------------------------

  /** Which end of the connection is rewritten. */
  datatype End = Source | Dest

  function AddrAt(e: End): nat { if e.Source? then IP_SADDR else IP_DADDR }

  function PortAt(e: End, f: Frame): nat requires IsIpv4(f) { if e.Source? then L4(f) else L4(f) + 1 }

  function Addr(e: End, f: Frame): Ip requires IsIpv4(f) { if e.Source? then Saddr(f) else Daddr(f) }

  function Port(e: End, f: Frame): Word requires IsTcp(f) { if e.Source? then Sport(f) else Dport(f) }

  /** New address and the IP header checksum that goes with it. */
  function RewriteAddr(f: Frame, e: End, ip: Ip): (f': Frame)
    requires IsIpv4(f)
  {
    var a := AddrAt(e);
    Frame(f.w[IP_CHECK := UpdateIp(f.w[IP_CHECK], Addr(e, f), ip)][a := ip.hi][a + 1 := ip.lo], f.len)
  }

  /** New port, and the TCP checksum for the new address and port. */
  function RewritePort(f: Frame, e: End, oldIp: Ip, ip: Ip, port: Word): (f': Frame)
    requires IsTcp(f)
  {
    var c := L4(f) + TCP_CHECK;
    var c' := UpdateWord(UpdateIp(f.w[c], oldIp, ip), Port(e, f), port);
    Frame(f.w[c := c'][PortAt(e, f) := port], f.len)
  }

  function Rewrite(f: Frame, e: End, ip: Ip, port: Word): (f': Frame)
    requires IsTcp(f)
  {
    RewritePort(RewriteAddr(f, e, ip), e, Addr(e, f), ip, port)
  }

  lemma RewriteAddrFields(f: Frame, e: End, ip: Ip)
    requires IsIpv4(f)
    ensures var f' := RewriteAddr(f, e, ip);
            && IsIpv4(f') && Ihl(f') == Ihl(f) && Protocol(f') == Protocol(f)
            && (IsTcp(f) ==> IsTcp(f'))
            && Addr(e, f') == ip
            && (forall i | 0 <= i < |f.w| && i != IP_CHECK && i != AddrAt(e) && i != AddrAt(e) + 1 ::
                  f'.w[i] == f.w[i])
  {
  }

  /** What a rewrite does to the fields: the chosen end gets the new address and port, the two
      checksums are recomputed, and every other word and the length stay. */
  lemma RewriteFields(f: Frame, e: End, ip: Ip, port: Word)
    requires IsTcp(f) && Ihl(f) >= 5
    ensures var f' := Rewrite(f, e, ip, port);
            && IsTcp(f') && Ihl(f') == Ihl(f) && f'.len == f.len && |f'.w| == |f.w|
            && Addr(e, f') == ip && Port(e, f') == port
            && OtherWordsSame(f, f', e)
  {
    RewriteAddrFields(f, e, ip);
  }

  function Other(e: End): End { if e.Source? then Dest else Source }

  /** The other end keeps its address and port. */
  lemma RewriteKeepsOtherEnd(f: Frame, e: End, ip: Ip, port: Word)
    requires IsTcp(f) && Ihl(f) >= 5
    ensures var f' := Rewrite(f, e, ip, port);
            IsTcp(f') && Addr(Other(e), f') == Addr(Other(e), f) && Port(Other(e), f') == Port(Other(e), f)
  {
    hide Rewrite;
    RewriteFields(f, e, ip, port);
    var a, l4 := AddrAt(Other(e)), L4(f);
    var f' := Rewrite(f, e, ip, port);
    assert a + 1 < l4 && l4 + TCP_CHECK < |f.w|;
    assert f'.w[a] == f.w[a] && f'.w[a + 1] == f.w[a + 1];
    assert f'.w[PortAt(Other(e), f)] == f.w[PortAt(Other(e), f)];
  }

  /** f' differs from f at most in one end's address and port and in the two checksums. */
  predicate OtherWordsSame(f: Frame, f': Frame, e: End)
    requires IsIpv4(f) && |f'.w| == |f.w|
  {
    forall i | 0 <= i < |f.w| && i != IP_CHECK && i != AddrAt(e) && i != AddrAt(e) + 1
               && i != L4(f) + TCP_CHECK && i != PortAt(e, f) :: f'.w[i] == f.w[i]
  }

  /** A rewrite as five words set one after the other. */
  function FiveWords(f: Frame, e: End, ip: Ip, c: Word, c': Word, port: Word): seq<Word>
    requires IsTcp(f)
  {
    f.w[IP_CHECK := c][AddrAt(e) := ip.hi][AddrAt(e) + 1 := ip.lo][L4(f) + TCP_CHECK := c'][PortAt(e, f) := port]
  }

  lemma RewriteIsFiveWords(f: Frame, e: End, ip: Ip, port: Word)
    requires IsTcp(f) && Ihl(f) >= 5
    ensures var f', c := Rewrite(f, e, ip, port), L4(f) + TCP_CHECK;
            && |f'.w| == |f.w| && f'.w[IP_CHECK] == UpdateIp(f.w[IP_CHECK], Addr(e, f), ip)
            && f'.w == FiveWords(f, e, ip, f'.w[IP_CHECK], f'.w[c], port)
  {
    hide UpdateIp, UpdateWord;
  }

  /** What the five words do to any sum. */
  lemma FiveWordsSum(f: Frame, e: End, ip: Ip, c: Word, c': Word, port: Word, lo: nat, hi: nat)
    requires IsTcp(f) && Ihl(f) >= 5 && lo <= hi <= |f.w|
    ensures var l4 := L4(f);
            && |FiveWords(f, e, ip, c, c', port)| == |f.w|
            && Sum(FiveWords(f, e, ip, c, c', port), lo, hi) == Sum(f.w, lo, hi)
               + (if lo <= IP_CHECK < hi then c - f.w[IP_CHECK] else 0)
               + (if lo <= AddrAt(e) < hi then ip.hi - f.w[AddrAt(e)] else 0)
               + (if lo <= AddrAt(e) + 1 < hi then ip.lo - f.w[AddrAt(e) + 1] else 0)
               + (if lo <= l4 + TCP_CHECK < hi then c' - f.w[l4 + TCP_CHECK] else 0)
               + (if lo <= PortAt(e, f) < hi then port - f.w[PortAt(e, f)] else 0)
  {
    hide Sum;
    var a, l4 := AddrAt(e), L4(f);
    var w1 := f.w[IP_CHECK := c];
    var w2 := w1[a := ip.hi];
    var w3 := w2[a + 1 := ip.lo];
    var w4 := w3[l4 + TCP_CHECK := c'];
    SumUpdate(f.w, lo, hi, IP_CHECK, c);
    SumUpdate(w1, lo, hi, a, ip.hi);
    SumUpdate(w2, lo, hi, a + 1, ip.lo);
    SumUpdate(w3, lo, hi, l4 + TCP_CHECK, c');
    SumUpdate(w4, lo, hi, PortAt(e, f), port);
  }

  lemma HeaderSum(f: Frame, e: End, ip: Ip, port: Word)
    requires IsTcp(f) && Ihl(f) >= 5
    ensures var f' := Rewrite(f, e, ip, port);
            && |f'.w| == |f.w| && f'.w[IP_CHECK] == UpdateIp(f.w[IP_CHECK], Addr(e, f), ip)
            && Sum(f'.w, IP_HEAD, L4(f)) == Sum(f.w, IP_HEAD, L4(f)) + ip.hi + ip.lo
                 - Addr(e, f).hi - Addr(e, f).lo + f'.w[IP_CHECK] - f.w[IP_CHECK]
  {
    RewriteIsFiveWords(f, e, ip, port);
    hide Rewrite, Sum, FiveWords;
    var f' := Rewrite(f, e, ip, port);
    FiveWordsSum(f, e, ip, f'.w[IP_CHECK], f'.w[L4(f) + TCP_CHECK], port, IP_HEAD, L4(f));
  }

  lemma RewriteHasHeader(f: Frame, e: End, ip: Ip, port: Word)
    requires IsTcp(f) && Ihl(f) >= 5
    ensures HasHeader(f) && HasHeader(Rewrite(f, e, ip, port)) && L4(Rewrite(f, e, ip, port)) == L4(f)
  {
    RewriteFields(f, e, ip, port);
  }

  lemma HeaderSumPositive(f: Frame)
    requires HasHeader(f)
    ensures Sum(f.w, IP_HEAD, L4(f)) > 0
  {
    assert f.w[IP_HEAD] > 0;
    SumPositive(f.w, IP_HEAD, L4(f), IP_HEAD);
  }

  /** The IP header verifies after a rewrite exactly when it verified before. */
  lemma RewriteKeepsIpChecksum(f: Frame, e: End, ip: Ip, port: Word)
    requires IsTcp(f) && Ihl(f) >= 5
    ensures HasHeader(f) && HasHeader(Rewrite(f, e, ip, port))
    ensures IpChecksumOk(Rewrite(f, e, ip, port)) <==> IpChecksumOk(f)
  {
    RewriteHasHeader(f, e, ip, port);
    HeaderSum(f, e, ip, port);
    hide Rewrite, Verifies, UpdateIp, Sum, Ihl, HasL4;
    var f' := Rewrite(f, e, ip, port);
    HeaderSumPositive(f);
    HeaderSumPositive(f');
    CompensatedIp(Sum(f.w, IP_HEAD, L4(f)), Sum(f'.w, IP_HEAD, L4(f)), f.w[IP_CHECK], Addr(e, f), ip);
  }

  lemma SegmentSum(f: Frame, e: End, ip: Ip, port: Word, end: nat)
    requires IsTcp(f) && Ihl(f) >= 5 && L4(f) + TCP_CHECK < end <= |f.w|
    ensures var f', c := Rewrite(f, e, ip, port), L4(f) + TCP_CHECK;
            && |f'.w| == |f.w|
            && Sum(f'.w, L4(f), end) == Sum(f.w, L4(f), end) + f'.w[c] - f.w[c] + port - Port(e, f)
  {
    RewriteIsFiveWords(f, e, ip, port);
    hide Rewrite, Sum, FiveWords;
    var f' := Rewrite(f, e, ip, port);
    FiveWordsSum(f, e, ip, f'.w[IP_CHECK], f'.w[L4(f) + TCP_CHECK], port, L4(f), end);
  }

  lemma RewriteWholeSegment(f: Frame, e: End, ip: Ip, port: Word)
    requires WholeSegment(f)
    ensures var f' := Rewrite(f, e, ip, port); WholeSegment(f') && SegLen(f') == SegLen(f) && L4(f') == L4(f)
  {
    RewriteFields(f, e, ip, port);
  }

  lemma OddByteStays(f: Frame, e: End, ip: Ip, port: Word)
    requires WholeSegment(f) && WholeSegment(Rewrite(f, e, ip, port))
    requires SegLen(Rewrite(f, e, ip, port)) == SegLen(f) && L4(Rewrite(f, e, ip, port)) == L4(f)
    ensures OddByte(Rewrite(f, e, ip, port)) == OddByte(f)
  {
    RewriteFields(f, e, ip, port);
    hide Rewrite;
    if SegLen(f) % 2 == 1 {
      assert Rewrite(f, e, ip, port).w[L4(f) + SegLen(f) / 2] == f.w[L4(f) + SegLen(f) / 2];
    }
  }

  lemma SegmentEnd(f: Frame)
    requires WholeSegment(f)
    ensures L4(f) + TCP_CHECK < L4(f) + SegLen(f) / 2 <= |f.w|
  {
  }

  lemma TcpSumAfter(f: Frame, e: End, ip: Ip, port: Word)
    requires WholeSegment(f)
    ensures var f', c := Rewrite(f, e, ip, port), L4(f) + TCP_CHECK;
            && WholeSegment(f')
            && TcpSum(f') == TcpSum(f) + ip.hi + ip.lo - Addr(e, f).hi - Addr(e, f).lo
                             + f'.w[c] - f.w[c] + port - Port(e, f)
  {
    RewriteWholeSegment(f, e, ip, port);
    AddrSumsAfter(f, e, ip, port);
    SegmentEnd(f);
    hide Rewrite, WholeSegment, SegLen, L4, OddByte, Sum, Addr, Saddr, Daddr, AddrSum;
    OddByteStays(f, e, ip, port);
    SegmentSum(f, e, ip, port, L4(f) + SegLen(f) / 2);
  }

  lemma AddrSumsAfter(f: Frame, e: End, ip: Ip, port: Word)
    requires IsTcp(f) && Ihl(f) >= 5
    ensures var f' := Rewrite(f, e, ip, port);
            && IsTcp(f')
            && AddrSum(Saddr(f')) + AddrSum(Daddr(f')) ==
               AddrSum(Saddr(f)) + AddrSum(Daddr(f)) + ip.hi + ip.lo - Addr(e, f).hi - Addr(e, f).lo
  {
    RewriteFields(f, e, ip, port);
    RewriteKeepsOtherEnd(f, e, ip, port);
    hide Rewrite, Saddr, Daddr, OtherWordsSame;
  }

  lemma TcpSumPositive(f: Frame)
    requires WholeSegment(f)
    ensures TcpSum(f) > 0
  {
  }

  lemma CheckAfter(f: Frame, e: End, ip: Ip, port: Word)
    requires IsTcp(f) && Ihl(f) >= 5
    ensures var c := L4(f) + TCP_CHECK;
            && |Rewrite(f, e, ip, port).w| == |f.w|
            && Rewrite(f, e, ip, port).w[c] == UpdateWord(UpdateIp(f.w[c], Addr(e, f), ip), Port(e, f), port)
  {
  }

  /** The TCP segment verifies after a rewrite exactly when it verified before. */
  lemma RewriteKeepsTcpChecksum(f: Frame, e: End, ip: Ip, port: Word)
    requires WholeSegment(f)
    ensures WholeSegment(Rewrite(f, e, ip, port))
    ensures TcpChecksumOk(Rewrite(f, e, ip, port)) <==> TcpChecksumOk(f)
  {
    TcpSumAfter(f, e, ip, port);
    CheckAfter(f, e, ip, port);
    TcpSumPositive(f);
    TcpSumPositive(Rewrite(f, e, ip, port));
    hide Rewrite, Verifies, UpdateIp, UpdateWord, TcpSum;
    CompensatedSum(TcpSum(f), TcpSum(Rewrite(f, e, ip, port)), f.w[L4(f) + TCP_CHECK],
                   Addr(e, f), ip, Port(e, f), port);
  }
}
