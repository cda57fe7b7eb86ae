/** Basic vocabulary shared by every module: options, 16-bit words, addresses, constants. */
module Net {

  datatype Option<+T> = None | Some(value: T)

  /** A 16-bit word in network order, read as a number. */
  type Word = x: nat | x < 0x1_0000

  type Pos = x: nat | x > 0 witness 1

  datatype Ip = Ip(hi: Word, lo: Word)

  datatype Mac = Mac(a: Word, b: Word, c: Word)

  const NSEC_PER_SEC: nat := 1_000_000_000
  const HG_HORIZON_NS: nat := 100_000_000
  const HG_CT_TIMEOUT_NS: nat := 120 * 1_000_000_000
  const TWO_64: nat := 0x1_0000_0000_0000_0000

  const IPPROTO_TCP: nat := 6
  const IPPROTO_UDP: nat := 17
  const ETH_P_IP: Word := 0x0800

  function Max(a: int, b: int): int { if a < b then b else a }

  function Min(a: int, b: int): int { if a < b then a else b }

  /** Unsigned 64-bit addition and subtraction, with wrap-around. */
  function Add64(a: nat, b: nat): nat { (a + b) % TWO_64 }

  function Sub64(a: nat, b: nat): nat { (a - b) % TWO_64 }
}
