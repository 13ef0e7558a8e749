/** Machine integers of the Go source, the optional values its lookups return, and lists without repeats. */
module Basics {
  const TWO_32: int := 0x1_0000_0000
  const TWO_63: int := 0x8000_0000_0000_0000
  const TWO_64: int := 0x1_0000_0000_0000_0000

  type u32 = x: int | 0 <= x < TWO_32
  type u64 = x: int | 0 <= x < TWO_64
  type i64 = x: int | -TWO_63 <= x < TWO_63

  datatype Option<+T> = None | Some(value: T)

  /** Go's int64(v): the top half of the range wraps to the negatives. */
  function ToInt64(v: u64): i64 {
    if v < TWO_63 then v else v - TWO_64
  }

  /** Go's uint64(v). */
  function FromInt64(v: i64): u64 {
    if 0 <= v then v else v + TWO_64
  }

  ghost predicate NoDup<T>(s: seq<T>) {
    forall i, j :: 0 <= i < j < |s| ==> s[i] != s[j]
  }
}
