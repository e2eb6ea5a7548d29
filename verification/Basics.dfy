/** Values shared by every component: bytes, C strings, machine integers and timestamps. */
module Basics {

  datatype Option<+T> = None | Some(value: T)

  /** One octet, and the two signed widths the daemon stores (pid_t/int and long). */
  type byte = x: int | 0 <= x < 256
  type i32 = x: int | -0x8000_0000 <= x < 0x8000_0000
  type i64 = x: int | -0x8000_0000_0000_0000 <= x < 0x8000_0000_0000_0000

  const NUL: byte := 0
  const TAB: byte := 9
  const NEWLINE: byte := 10

  predicate NulFree(s: seq<byte>) {
    forall i :: 0 <= i < |s| ==> s[i] != NUL
  }

  /** The characters of a C string, without the terminator. */
  type CString = s: seq<byte> | NulFree(s) witness []

  /** struct timeval. */
  datatype Time = Time(sec: i64, usec: i64)

  const EPOCH := Time(0, 0)

  /** timercmp(a, b, <=) */
  predicate AtMost(a: Time, b: Time) {
    if a.sec == b.sec then a.usec <= b.usec else a.sec <= b.sec
  }

  /** timercmp(a, b, <) */
  predicate Before(a: Time, b: Time) {
    if a.sec == b.sec then a.usec < b.usec else a.sec < b.sec
  }

  function Micros(t: Time): int {
    1000000 * t.sec + t.usec
  }

  /** The comparisons order timestamps as the moments they stand for. */
  lemma TimesCompareAsMoments(a: Time, b: Time)
    requires 0 <= a.usec < 1000000 && 0 <= b.usec < 1000000
    ensures AtMost(a, b) <==> Micros(a) <= Micros(b)
    ensures Before(a, b) <==> Micros(a) < Micros(b)
  {}

  function Min(a: int, b: int): int {
    if a <= b then a else b
  }
}
