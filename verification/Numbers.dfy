/** Machine integers of the source: signed and unsigned 32-bit arithmetic with wrap-around. */
module Numbers {

  const TWO_32: int := 0x1_0000_0000
  const MIN_INT32: int := -0x8000_0000
  const MAX_INT32: int := 0x7FFF_FFFF

  type int32 = x: int | MIN_INT32 <= x <= MAX_INT32

  predicate FitsInt32(x: int) {
    MIN_INT32 <= x <= MAX_INT32
  }

  /** The value an int32 variable holds after being assigned the exact result x. */
  function Wrap32(x: int): (r: int32)
    ensures r == x <==> FitsInt32(x)
    ensures (r - x) % TWO_32 == 0
  {
    (x - MIN_INT32) % TWO_32 + MIN_INT32
  }

  /** Wrapping after every addition is the same as wrapping once at the end. */
  lemma WrapAbsorbs(x: int, d: int)
    ensures Wrap32(Wrap32(x) + d) == Wrap32(x + d)
  {
    var k := (x - MIN_INT32) / TWO_32;
    assert Wrap32(x) == x - k * TWO_32;
    ModShift(x + d - MIN_INT32, k);
  }

  lemma ModShift(y: int, k: int)
    ensures (y - k * TWO_32) % TWO_32 == y % TWO_32
  {
    var q := y / TWO_32;
    assert y - k * TWO_32 == (q - k) * TWO_32 + y % TWO_32;
  }

  /** The conversion int32(n) of a length. */
  function Int32(n: nat): int32 {
    if n <= MAX_INT32 then n else if n < TWO_32 then n - TWO_32 else Int32(n - TWO_32)
  }

  lemma {:induction false} Int32Wraps(n: nat)
    ensures Int32(n) == Wrap32(n)
  {
    if n >= TWO_32 {
      Int32Wraps(n - TWO_32);
    }
  }

  /** From 2^31 on the conversion loses a multiple of 2^32, so at least 2^32. */
  lemma {:induction false} Int32Loses(n: nat, d: nat)
    requires n > MAX_INT32
    ensures n - Int32(n) >= TWO_32
    ensures d <= Int32(n) ==> Int32(n - d) == Int32(n) - d
  {
    if n >= TWO_32 + TWO_32 || (n >= TWO_32 && n - TWO_32 > MAX_INT32) {
      Int32Loses(n - TWO_32, d);
    }
  }

  /** One int32 addition. */
  function Add32(a: int32, d: int32): int32 {
    if a + d > MAX_INT32 then a + d - TWO_32
    else if a + d < MIN_INT32 then a + d + TWO_32
    else a + d
  }

  /** A variable that holds an exact value reduced to 32 bits still does after an addition. */
  lemma Add32Wraps(x: int, d: int32)
    ensures Add32(Wrap32(x), d) == Wrap32(x + d)
  {
    WrapAbsorbs(x, d);
  }

  function Min(a: int, b: int): int {
    if a <= b then a else b
  }
}
