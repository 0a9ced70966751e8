/** Unsigned 64-bit integers and Rust's `std::time::Duration`, as far as the
    fake clocks use them: `Duration::from_secs`, `Duration::new` (which carries
    surplus nanoseconds into the seconds and panics when that carry overflows)
    and the total length in nanoseconds. */
module Durations {

  const U64_MAX: nat := 0xFFFF_FFFF_FFFF_FFFF
  const U32_MAX: nat := 0xFFFF_FFFF
  const NANOS_PER_SEC: nat := 1_000_000_000

  type uint64 = x: int | 0 <= x <= U64_MAX
  type uint32 = x: int | 0 <= x <= U32_MAX

  /** The sub-second part of a duration: always below one second. */
  type SubsecNanos = n: nat | n < NANOS_PER_SEC

  datatype Option<T> = None | Some(value: T)

  /** A span of time: whole seconds plus a normalised nanosecond part. */
  datatype Duration = Duration(secs: uint64, nanos: SubsecNanos)

  /** The whole duration measured in nanoseconds (`Duration::as_nanos`). */
  function TotalNanos(d: Duration): nat
  {
    d.secs * NANOS_PER_SEC + d.nanos
  }

  /** Two durations of the same length are the same duration: the pair
      (seconds, nanoseconds) is a unique representation. */
  lemma TotalNanosInjective(a: Duration, b: Duration)
    requires TotalNanos(a) == TotalNanos(b)
    ensures a == b
  {
  }

  /** `Duration::from_secs`: never fails, and has no sub-second part. */
  function FromSecs(secs: uint64): (d: Duration)
    ensures TotalNanos(d) == secs * NANOS_PER_SEC
    ensures d.nanos == 0
  {
    Duration(secs, 0)
  }

  /** `Duration::new(secs, nanos)`: nanoseconds of one second or more carry
      into the seconds; `None` stands for the panic raised when that carry
      takes the seconds beyond the 64-bit range. */
  function New(secs: uint64, nanos: uint32): (r: Option<Duration>)
    ensures r.Some? <==> secs + nanos / NANOS_PER_SEC <= U64_MAX
    ensures r.Some? ==> TotalNanos(r.value) == secs * NANOS_PER_SEC + nanos
  {
    var carried := secs + nanos / NANOS_PER_SEC;
    if carried <= U64_MAX then Some(Duration(carried, nanos % NANOS_PER_SEC)) else None
  }

  /** When the nanoseconds are already below one second, `Duration::new`
      keeps both parts as given. */
  lemma NewNormalised(secs: uint64, nanos: uint32)
    requires nanos < NANOS_PER_SEC
    ensures New(secs, nanos) == Some(Duration(secs, nanos))
  {
  }
}
