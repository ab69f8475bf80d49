/** Failure-compatible results and the integer widths of the two programs. */
module Prelude {

  /** The largest value of the programs' `u64` amounts. */
  const U64_MAX: nat := 0xFFFF_FFFF_FFFF_FFFF

  /** The largest value of the programs' `u128` intermediates. */
  const U128_MAX: nat := 0xFFFF_FFFF_FFFF_FFFF_FFFF_FFFF_FFFF_FFFF

  datatype Result<+T, +E> = Ok(value: T) | Err(error: E) {
    predicate IsFailure() {
      Err?
    }

    function PropagateFailure<U>(): Result<U, E>
      requires Err?
    {
      Err(error)
    }

    function Extract(): T
      requires Ok?
    {
      value
    }
  }

  datatype Outcome<+E> = Pass | Fail(error: E) {
    predicate IsFailure() {
      Fail?
    }

    function PropagateFailure<U>(): Result<U, E>
      requires Fail?
    {
      Err(error)
    }
  }

  /** The Anchor macro `require!(condition, error)`. */
  function Require<E>(condition: bool, error: E): Outcome<E> {
    if condition then Pass else Fail(error)
  }

  function Min(a: nat, b: nat): nat {
    if a <= b then a else b
  }

  /** Rust's `saturating_sub` on unsigned integers. */
  function SaturatingSub(a: nat, b: nat): nat {
    if a <= b then 0 else a - b
  }
}
