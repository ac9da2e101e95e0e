/** Vocabulary shared by every module: bounded integers, the crate's errors, and
    the result type that carries them. */
module Common {

  /** A Rust `u32`. */
  type U32 = x: int | 0 <= x < 0x1_0000_0000

  const U32_MAX: U32 := 0xffff_ffff

  /** A Rust `u8`. */
  type Byte = x: int | 0 <= x < 0x100

  /** The longest track, in cells, that is read or written at all. */
  const MAX_TRACK_BITS: nat := 0x3a00 * 2 * 8

  /** The crate's errors, without their message texts. */
  datatype Error =
    | InvalidConfig
    | Protocol
    | Timeout
    | Disconnected
    | WriteProtected
    | UnplaceablePartialWrite(startBit: nat, trackBits: nat)
    | TrackTooLarge(bits: nat, limit: nat)
    | WorkerStopped
    | Io

  datatype Result<+T> = Ok(value: T) | Err(error: Error)

  datatype Option<+T> = None | Some(value: T)

  /** Division as Rust's signed integers do it: truncating toward zero. */
  function TruncDiv(a: int, b: int): (q: int)
    requires b > 0
  {
    if a >= 0 then a / b else -((-a) / b)
  }

  function Min(a: int, b: int): int {
    if a <= b then a else b
  }

  function Max(a: int, b: int): int {
    if a >= b then a else b
  }

  /** A quotient is the one multiplier that brackets its dividend. */
  lemma QuotientUnique(a: int, b: int, q: int)
    requires b > 0
    requires q * b <= a < (q + 1) * b
    ensures a / b == q
  {
    var d := a / b - q;
    assert a == (a / b) * b + a % b;
    assert d * b == a - a % b - q * b;
  }

  /** A quotient brackets its dividend. */
  lemma QuotientBrackets(a: int, b: int)
    requires b > 0
    ensures (a / b) * b <= a < (a / b + 1) * b
  {
    assert a == (a / b) * b + a % b;
  }
}
