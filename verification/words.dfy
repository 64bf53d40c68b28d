/** Machine words, 32-bit modular time, and the small shared vocabulary of the library. */
module Words {

  type u8 = x: int | 0 <= x < 0x100
  type u16 = x: int | 0 <= x < 0x1_0000
  type u32 = x: int | 0 <= x < 0x1_0000_0000

  /** Unsigned 32-bit wrap-around: what storing any integer in a u32 keeps of it. */
  function Wrap32(x: int): u32 {
    x % 0x1_0000_0000
  }

  lemma WrapSmall(x: int)
    requires 0 <= x < 0x1_0000_0000
    ensures Wrap32(x) == x
  {
  }

  lemma WrapSum(a: nat, b: nat)
    ensures Wrap32(Wrap32(a) + b) == Wrap32(a + b)
  {
  }

  lemma WrapDifference(a: u32, b: u32)
    ensures Wrap32(a - b) == if b <= a then a - b else a - b + 0x1_0000_0000
  {
  }

  /** Narrowing to 16 bits, as when a window is stored in a header. */
  function Wrap16(x: int): u16 {
    x % 0x1_0000
  }

  /** The i32 that has the same bits as `x`. */
  function AsI32(x: u32): int {
    if x < 0x8000_0000 then x else x - 0x1_0000_0000
  }

  /** Signed difference of two clock readings. */
  function TimeDelta(later: u32, earlier: u32): int {
    AsI32(Wrap32(later - earlier))
  }

  function Min(a: int, b: int): int {
    if a < b then a else b
  }

  function Max(a: int, b: int): int {
    if a < b then b else a
  }

  function Clamp(x: int, lo: int, hi: int): int {
    if x < lo then lo else if hi < x then hi else x
  }

  /** base * 2^k. */
  function Doubled(base: nat, k: nat): nat {
    if k == 0 then base else 2 * Doubled(base, k - 1)
  }

  lemma {:induction false} DoubledGrows(base: nat, k: nat, n: nat)
    requires k <= n
    ensures Doubled(base, k) <= Doubled(base, n)
    decreases n
  {
    if k < n {
      DoubledGrows(base, k, n - 1);
    }
  }

  datatype Option<+T> = None | Some(value: T)

  datatype Result<+T> = Ok(value: T) | Err(error: Error)

  datatype Error =
    | BufferTooSmall
    | QueueEmpty
    | WaitingForFragment
    | TooManyFragments
    | LessThanHeaderSize
    | ConvMismatch
    | HeaderAndPayloadLengthMismatch
    | UnknownCommand
    | ExceedsWindowSize

  /**
   The signed difference is the true elapsed time exactly when that time fits an i32,
   however often the clock has wrapped in between.
   */
  lemma TimeDeltaIsElapsed(now: nat, before: nat)
    ensures TimeDelta(Wrap32(now), Wrap32(before)) == now - before
       <==> -0x8000_0000 <= now - before < 0x8000_0000
  {
    WrapOfDifference(now, before);
  }

  lemma NoDelta(t: u32)
    ensures TimeDelta(t, t) == 0
  {
  }

  lemma WrapOfDifference(a: int, b: int)
    ensures Wrap32(Wrap32(a) - Wrap32(b)) == Wrap32(a - b)
  {
    var qa, qb := a / 0x1_0000_0000, b / 0x1_0000_0000;
    assert a == qa * 0x1_0000_0000 + Wrap32(a);
    assert b == qb * 0x1_0000_0000 + Wrap32(b);
    WrapShift(Wrap32(a) - Wrap32(b), qa - qb);
  }

  lemma WrapShift(x: int, k: int)
    ensures Wrap32(x + k * 0x1_0000_0000) == Wrap32(x)
  {
  }
}
