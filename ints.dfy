/**
 * The fixed-width integers the source uses (`u16`, `usize`, `isize`) as subset
 * types of Dafny's unbounded integers, and the overflow-aware operations it calls
 * on them. A 64-bit target is assumed for `usize` and `isize`.
 */
module Ints {
  import opened Wrappers

  const U16Max: nat := 0xFFFF
  const UsizeMax: nat := 0xFFFF_FFFF_FFFF_FFFF
  const IsizeMin: int := -0x8000_0000_0000_0000
  const IsizeMax: int := 0x7FFF_FFFF_FFFF_FFFF

  type U16 = n: nat | n <= U16Max
  type Usize = n: nat | n <= UsizeMax
  type Isize = n: int | IsizeMin <= n <= IsizeMax

  /** `usize::saturating_add`: the true sum when it fits, otherwise the maximum. */
  function SaturatingAdd(a: Usize, b: Usize): (r: Usize)
    ensures a <= r <= a + b
    ensures r == a + b || r == UsizeMax
  {
    if a + b <= UsizeMax then a + b else UsizeMax
  }

  /** `usize::saturating_sub`: the true difference when it is not negative, otherwise 0. */
  function SaturatingSub(a: Usize, b: Usize): (r: Usize)
    ensures a - b <= r <= a
    ensures r == a - b || r == 0
  {
    if b <= a then a - b else 0
  }

  /** `usize::checked_add_signed`: `None` exactly when the signed sum leaves `usize`. */
  function CheckedAddSigned(a: Usize, offset: Isize): (r: Option<Usize>)
    ensures r.Some? <==> 0 <= a + offset <= UsizeMax
    ensures r.Some? ==> r.value == a + offset
  {
    if 0 <= a + offset <= UsizeMax then Some(a + offset) else None
  }

  /** `Ord::clamp` on unsigned values. */
  function Clamp(x: nat, lo: nat, hi: nat): (r: nat)
    requires lo <= hi
    ensures lo <= r <= hi
    ensures lo <= x <= hi ==> r == x
    ensures x < lo ==> r == lo
    ensures hi < x ==> r == hi
  {
    if x < lo then lo else if hi < x then hi else x
  }
}
