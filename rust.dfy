/** Rust's fixed-width integers as the three binaries use them, with the
    semantics of an overflow-checked build: an arithmetic operation whose
    mathematical result does not fit the type, a division by zero or a slice
    past the end of a string does not produce a value but panics. A panic is
    modelled as the `Panic` alternative of `Checked`. */
module Rust {

  const U32_LIMIT: nat := 0x1_0000_0000
  const U64_LIMIT: nat := 0x1_0000_0000_0000_0000
  /** `usize` is 64 bits wide on the targets the program is built for. */
  const USIZE_MAX: nat := U64_LIMIT - 1
  /** No Rust allocation, and so no `String`, is longer than `isize::MAX` bytes. */
  const ISIZE_MAX: nat := 0x7FFF_FFFF_FFFF_FFFF

  type u64 = x: int | 0 <= x < U64_LIMIT
  type usize = x: int | 0 <= x < U64_LIMIT

  /** Why a computation panicked. */
  datatype Fault =
    | AddOverflow
    | SubUnderflow
    | MulOverflow
    | DivByZero
    | SliceOutOfRange

  /** The value of a Rust expression, or the panic it raises. */
  datatype Checked<+T> = Value(value: T) | Panic(fault: Fault) {
    predicate IsFailure() { Panic? }

    function PropagateFailure<U>(): Checked<U>
      requires Panic?
    {
      Panic(fault)
    }

    function Extract(): T
      requires Value?
    {
      value
    }
  }

  /** `a + b` on u64 or usize. */
  function CheckedAdd(a: u64, b: u64): (r: Checked<u64>)
    ensures r.Value? <==> a + b < U64_LIMIT
    ensures r.Value? ==> r.value == a + b
    ensures r.Panic? ==> r.fault == AddOverflow
  {
    if a + b < U64_LIMIT then Value(a + b) else Panic(AddOverflow)
  }

  /** `a - b` on u64 or usize. */
  function CheckedSub(a: u64, b: u64): (r: Checked<u64>)
    ensures r.Value? <==> b <= a
    ensures r.Value? ==> r.value + b == a
    ensures r.Panic? ==> r.fault == SubUnderflow
  {
    if b <= a then Value(a - b) else Panic(SubUnderflow)
  }

  /** `a / b` on u64: rounds toward zero, which for unsigned operands is
      Dafny's `/`; panics when `b` is zero. */
  function CheckedDiv(a: u64, b: u64): (r: Checked<u64>)
    ensures r.Value? <==> b != 0
    ensures r.Value? ==> r.value * b <= a < (r.value + 1) * b
    ensures r.Panic? ==> r.fault == DivByZero
  {
    if b == 0 then Panic(DivByZero) else Value(a / b)
  }

  /** `n as u32`: keeps the low 32 bits. */
  function AsU32(n: nat): (r: nat)
    ensures r < U32_LIMIT
    ensures n < U32_LIMIT ==> r == n
  {
    n % U32_LIMIT
  }

  /** Mathematical exponentiation. */
  function Pow(b: nat, e: nat): nat
  {
    if e == 0 then 1 else b * Pow(b, e - 1)
  }

  /** `b.pow(e)` on u64. Rust's square-and-multiply only squares the base
      while a higher bit of the exponent remains, so every intermediate value
      is at most the result: it panics exactly when `b^e` does not fit. */
  function CheckedPow(b: u64, e: nat): (r: Checked<u64>)
    ensures r.Value? <==> Pow(b, e) < U64_LIMIT
    ensures r.Value? ==> r.value == Pow(b, e)
    ensures r.Panic? ==> r.fault == MulOverflow
  {
    if Pow(b, e) < U64_LIMIT then Value(Pow(b, e)) else Panic(MulOverflow)
  }

  /** A quotient-like bound: `q * d <= n` with `d >= 1` gives `q <= n`. */
  lemma QuotientAtMost(q: nat, d: nat, n: nat)
    requires d >= 1 && q * d <= n
    ensures q <= n
  {
    assert q * d == q + q * (d - 1);
  }

  /** Rounding-down division brackets its dividend. */
  lemma DivisionBounds(n: nat, d: nat)
    requires d >= 1
    ensures (n / d) * d <= n < (n / d + 1) * d
  {
  }

  lemma {:induction false} PowPositive(b: nat, e: nat)
    requires b >= 1
    ensures Pow(b, e) >= 1
  {
    if e > 0 {
      PowPositive(b, e - 1);
    }
  }

  lemma {:induction false} PowMonotone(b: nat, e1: nat, e2: nat)
    requires b >= 1 && e1 <= e2
    ensures Pow(b, e1) <= Pow(b, e2)
  {
    if e1 < e2 {
      PowMonotone(b, e1, e2 - 1);
      PowPositive(b, e2 - 1);
    }
  }

  /** The number of base64 strings of `len` characters, counting letters
      without case, is `32^len`; as a u64 it exists exactly up to `len = 12`. */
  lemma Pow32Fits(e: nat)
    ensures Pow(32, e) < U64_LIMIT <==> e <= 12
  {
    assert Pow(32, 12) == 0x1000_0000_0000_0000;
    assert Pow(32, 13) == 0x2_0000_0000_0000_0000;
    if e <= 12 {
      PowMonotone(32, e, 12);
    } else {
      PowMonotone(32, 13, e);
    }
  }
}
