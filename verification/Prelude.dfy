/** Machine integers, optional values and fallible results shared by every module. */
module Prelude {

  const MAX_U32: int := 0xFFFF_FFFF
  const MAX_U64: int := 0xFFFF_FFFF_FFFF_FFFF

  type u32 = n: int | 0 <= n <= 0xFFFF_FFFF
  type u64 = n: int | 0 <= n <= 0xFFFF_FFFF_FFFF_FFFF

  /** `u32::saturating_add`. */
  function SatAdd(a: u32, b: u32): u32 {
    if a + b > MAX_U32 then MAX_U32 else a + b
  }

  /** `u32::saturating_sub`. */
  function SatSub(a: u32, b: u32): u32 {
    if a < b then 0 else a - b
  }

  function Min(a: int, b: int): int {
    if a < b then a else b
  }

  function Max(a: int, b: int): int {
    if a < b then b else a
  }

  /** The two's-complement reinterpretation `n as i64` of an unsigned integer. */
  function AsI64(n: nat): int {
    var w := n % (MAX_U64 + 1);
    if w <= MAX_U64 / 2 then w else w - (MAX_U64 + 1)
  }

  datatype Option<+T> = None | Some(value: T)

  /** The error variants the modelled code can return. */
  datatype Error =
    | Source(msg: string)
    | Store(msg: string)
    | Decode(msg: string)
    | Handler(msg: string)
    | Config(msg: string)
    | ReorgTooDeep(depth: u32, max: u32)

  datatype Result<+T> = Ok(value: T) | Err(error: Error)

  /** Two outcomes a caller cannot tell apart, up to which error was reported. */
  ghost predicate Same<T>(r: Result<T>, s: Result<T>) {
    r.Ok? == s.Ok? && (r.Ok? ==> r.value == s.value)
  }

  ghost predicate Increasing(at: seq<nat>) {
    forall i, j :: 0 <= i < j < |at| ==> at[i] < at[j]
  }
}
