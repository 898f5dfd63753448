/** The 64-bit signed integers of the program, on unbounded integers. */
module Int64 {

  const MAX: int := 0x7fff_ffff_ffff_ffff
  const MODULUS: int := 0x1_0000_0000_0000_0000

  predicate InRange(x: int) {
    -MAX - 1 <= x <= MAX
  }

  type Number = x: int | InRange(x)

  /** The int64 that holds the low 64 bits of an integer. */
  function Wrap(x: int): (r: int)
    ensures InRange(r)
    ensures InRange(x) ==> r == x
    ensures (r - x) % MODULUS == 0
  {
    (x + MAX + 1) % MODULUS - MAX - 1
  }

  /** Just above the range a number wraps to the negative side. */
  lemma WrapAbove(x: int)
    requires MAX < x < MODULUS
    ensures Wrap(x) == x - MODULUS < 0
  {
  }

  /** Wrapping early or late gives the same sum. */
  lemma WrapSum(a: int, b: int)
    ensures Wrap(Wrap(a) + b) == Wrap(a + b)
  {
  }

  /** Go's division truncates toward zero. */
  function Quotient(x: int, y: int): int
    requires y > 0
  {
    if x >= 0 then x / y else -(-x / y)
  }
}
