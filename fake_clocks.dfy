/** The deterministic clock providers built by the `api_time` test:
    a wall clock frozen at 1431648000 s + 100 ns with a one-second
    resolution, and a monotonic clock whose counter starts at 0 and moves
    forward by 42 seconds (in nanoseconds) every time it is read. */
module FakeClocks {
  import opened Durations

  // ---------------------------------------------------------------------
  // Wall clock: a provider without state.
  // ---------------------------------------------------------------------

  const WALL_SECS: uint64 := 1431648000
  const WALL_NANOS: uint32 := 100

  /** `FakeWallClock::resolution`: one whole second. */
  function WallResolution(): (d: Duration)
    ensures TotalNanos(d) == NANOS_PER_SEC
  {
    FromSecs(1)
  }

  /** `FakeWallClock::now`: `Duration::new(1431648000, 100)`, which cannot
      panic, read as the (seconds, nanoseconds) pair of the fixed instant.
      A function of no arguments: every call, in any history, gives the
      same reading. */
  function WallNow(): (d: Duration)
    ensures d.secs == WALL_SECS && d.nanos == WALL_NANOS
    ensures TotalNanos(d) == 1_431_648_000_000_000_100
  {
    NewNormalised(WALL_SECS, WALL_NANOS);
    New(WALL_SECS, WALL_NANOS).value
  }

  // ---------------------------------------------------------------------
  // Monotonic clock: a counter advanced on every reading.
  // ---------------------------------------------------------------------

  /** The amount `now()` adds to the counter: 42 seconds in nanoseconds. */
  const STEP: nat := 42 * NANOS_PER_SEC

  /** The number of readings a clock started at 0 can give before the next
      addition would leave the 64-bit range. */
  const MAX_READINGS: nat := U64_MAX / STEP

  /** The readings that `k` successive `now()` calls return when the
      counter holds `counter` before the first of them: each call hands back
      the counter and then advances it by STEP. */
  function Run(counter: nat, k: nat): seq<nat>
    decreases k
  {
    if k == 0 then [] else [counter] + Run(counter + STEP, k - 1)
  }

  /** The i-th of those readings is the starting counter plus i steps. */
  lemma {:induction false} RunAt(counter: nat, k: nat, i: nat)
    requires i < k
    ensures |Run(counter, k)| == k
    ensures Run(counter, k)[i] == counter + i * STEP
    decreases k
  {
    if i == 0 {
      RunLength(counter + STEP, k - 1);
    } else {
      RunAt(counter + STEP, k - 1, i - 1);
    }
  }

  /** k calls give exactly k readings. */
  lemma {:induction false} RunLength(counter: nat, k: nat)
    ensures |Run(counter, k)| == k
    decreases k
  {
    if k > 0 {
      RunLength(counter + STEP, k - 1);
    }
  }

  /** One more call appends the next reading to the end of the run. */
  lemma {:induction false} RunSnoc(counter: nat, k: nat)
    ensures Run(counter, k + 1) == Run(counter, k) + [counter + k * STEP]
    decreases k
  {
    if k > 0 {
      RunSnoc(counter + STEP, k - 1);
      assert Run(counter, k + 1) == [counter] + Run(counter + STEP, k);
    }
  }

  /** Readings of a run strictly increase (so they never decrease), and
      neighbouring readings are exactly STEP apart. */
  lemma RunIncreasing(counter: nat, k: nat, i: nat, j: nat)
    requires i < j < k
    ensures |Run(counter, k)| == k
    ensures Run(counter, k)[i] < Run(counter, k)[j]
    ensures j == i + 1 ==> Run(counter, k)[j] - Run(counter, k)[i] == STEP
  {
    RunAt(counter, k, i);
    RunAt(counter, k, j);
  }

  /** A clock started at 0 returns 0, 42e9, 84e9, ... : the k-th reading
      (counting from 0) is k * 42e9. */
  lemma FromZero(k: nat, i: nat)
    requires i < k
    ensures |Run(0, k)| == k && Run(0, k)[i] == i * 42_000_000_000
  {
    RunAt(0, k, i);
  }

  /** After k readings of a clock started at 0 the counter, k * STEP, still
      leaves room for one more addition exactly when k < MAX_READINGS. */
  lemma StepsFit(k: nat)
    ensures MAX_READINGS == 439_208_192
    ensures k * STEP + STEP <= U64_MAX <==> k < MAX_READINGS
  {
  }

  /** `FakeMonotonicClock`: the `Mutex<u64>` of the source is the plain
      64-bit field `counter`. The ghost field `history` lists the readings
      handed out so far. */
  class FakeMonotonicClock {
    var counter: uint64
    ghost var history: seq<nat>

    /** The clock has been read |history| times since it was built at 0,
        and gave out exactly the run of readings that implies. */
    ghost predicate Valid()
      reads this
    {
      counter == |history| * STEP && history == Run(0, |history|)
    }

    /** `FakeMonotonicClock { now: Mutex::new(0) }`. */
    constructor ()
      ensures Valid()
      ensures counter == 0 && history == []
    {
      counter := 0;
      history := [];
    }

    /** `resolution()`: one second in nanoseconds; reads no state. */
    function Resolution(): (r: uint64)
      ensures r == NANOS_PER_SEC
    {
      1_000_000_000
    }

    /** `now()`: returns the counter held before the call and advances it
        by STEP. The caller must leave room for the 64-bit addition. */
    method Now() returns (reading: uint64)
      requires Valid()
      requires counter + STEP <= U64_MAX
      modifies this
      ensures Valid()
      ensures reading == old(counter) && counter == old(counter) + STEP
      ensures history == old(history) + [reading]
      ensures reading == |old(history)| * STEP
      ensures forall i :: 0 <= i < |old(history)| ==> old(history)[i] < reading
    {
      reading := counter;
      counter := counter + STEP;
      ghost var n := |history|;
      RunSnoc(0, n);
      history := history + [reading];
      forall i | 0 <= i < n
        ensures old(history)[i] < reading
      {
        RunAt(0, n, i);
      }
    }
  }

  /** The precondition of `Now` holds on a valid clock exactly while fewer
      than MAX_READINGS (439 208 192) readings have been taken: that many
      calls succeed, and the next one would overflow the 64-bit counter. */
  lemma OverflowBoundary(c: FakeMonotonicClock)
    requires c.Valid()
    ensures MAX_READINGS == 439_208_192
    ensures c.counter + STEP <= U64_MAX <==> |c.history| < MAX_READINGS
  {
    StepsFit(|c.history|);
  }

  /** The clock set-up of `api_time` (a monotonic clock built at 0 and the
      fixed wall clock), followed by one sample call sequence chosen here:
      monotonic, wall, monotonic, wall, monotonic. The monotonic readings
      are 0, 42e9 and 84e9; both wall readings are the same fixed instant. */
  method ApiTime() returns (m0: uint64, m1: uint64, m2: uint64, w0: Duration, w1: Duration)
    ensures m0 == 0 && m1 == 42_000_000_000 && m2 == 84_000_000_000
    ensures w0 == w1 && w0.secs == 1431648000 && w0.nanos == 100
  {
    var mono := new FakeMonotonicClock();
    m0 := mono.Now();
    w0 := WallNow();
    m1 := mono.Now();
    w1 := WallNow();
    m2 := mono.Now();
  }
}
