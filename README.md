# Fake clock providers of the WASI `api_time` test

Wasmtime's WASI host lets an embedder replace the wall clock and the
monotonic clock of a guest's execution context with its own providers. Each
provider has two operations, `resolution()` and `now()`. The `api_time`
integration test installs two deterministic fakes:

- `FakeWallClock` has no state. `now()` always returns the instant
  1431648000 s + 100 ns. `resolution()` returns one second.
- `FakeMonotonicClock` holds one `u64` counter, built at 0. `now()` returns
  the counter and then adds 42 seconds' worth of nanoseconds
  (42 000 000 000) to it. `resolution()` returns 1 000 000 000.

This project models both fakes in Dafny and the parts of Rust's
`std::time::Duration` they use. It proves the properties the fakes are
built to have:

- a fresh monotonic clock reads 0 first;
- the k-th reading (counting from 0) is k * 42e9;
- readings strictly increase;
- the u64 addition overflows after exactly 439 208 192 readings;
- the wall clock always reads the same (seconds, nanoseconds) pair, with
  the nanoseconds below one second.

Files:

- `durations.dfy` (module `Durations`): the 64-bit and 32-bit integer
  ranges and `Duration`. `Duration::new` carries surplus nanoseconds into
  the seconds and panics when that carry overflows. The panic is the `None`
  result.
- `fake_clocks.dfy` (module `FakeClocks`): the wall clock as constant
  functions. The monotonic clock as the class `FakeMonotonicClock`. The
  function `Run` specifies the readings of k successive `now()` calls, and
  lemmas state what `Run` guarantees. `ApiTime` models the clock set-up of
  `api_time` (a monotonic clock built at 0, the fixed wall clock) and then
  one sample call sequence chosen here (monotonic, wall, monotonic, wall,
  monotonic). Its readings match the sequence 0, 42e9, 84e9, … and the
  fixed wall instant.

The source wraps the counter in a `Mutex`. That only gives interior
mutability behind `&self`, so here the counter is a plain mutable field.
The ghost field `history` records the readings handed out so far. The class
invariant `Valid()` ties `counter` and `history` to `Run`.

The overflow at `*now += 42 * 1_000_000_000` is a precondition of `Now`.
In a debug build, which is how tests run, Rust panics on that overflow; a
release build would wrap. Neither behaviour is part of what the test
exercises. `OverflowBoundary` says, for a valid clock, exactly how many
calls fit.

## Model

| member | source | states |
|---|---|---|
| Durations.FromSecs | crates/wasi/tests/all/api.rs:59 | `Duration::from_secs(s)` is exactly `s` seconds long and has no sub-second part |
| Durations.New | crates/wasi/tests/all/api.rs:63 | `Duration::new(secs, nanos)` succeeds exactly when `secs + nanos / 1e9` fits in 64 bits, and then it is `secs * 1e9 + nanos` nanoseconds long |
| Durations.TotalNanosInjective | crates/wasi/tests/all/api.rs:62-64 | a normalised (seconds, nanoseconds) pair is determined by its length in nanoseconds |
| Durations.NewNormalised | crates/wasi/tests/all/api.rs:63 | with nanoseconds below one second, `Duration::new` keeps both parts unchanged and does not panic |
| FakeClocks.WallResolution | crates/wasi/tests/all/api.rs:58-60 | the wall clock's resolution is exactly one second |
| FakeClocks.WallNow | crates/wasi/tests/all/api.rs:62-64 | the wall clock reads (1431648000 s, 100 ns), i.e. 1 431 648 000 000 000 100 ns since the epoch; a function without state, so the reading is the same on every call whatever happened before |
| FakeClocks.FakeMonotonicClock.constructor | crates/wasi/tests/all/api.rs:86 | a new monotonic clock holds counter 0, has given no readings and satisfies the class invariant |
| FakeClocks.FakeMonotonicClock.Resolution | crates/wasi/tests/all/api.rs:72-74 | the monotonic resolution is 1 000 000 000 ns; it reads no state, so it cannot change the counter |
| FakeClocks.FakeMonotonicClock.Now | crates/wasi/tests/all/api.rs:76-81 | returns the counter held before the call and adds 42e9 to it, nothing else changes; the reading is (number of earlier calls) * 42e9 and exceeds every earlier reading; needs room for the u64 addition |
| FakeClocks.RunAt | crates/wasi/tests/all/api.rs:77-80 | k successive calls from counter c give k readings, the i-th being c + i * 42e9 |
| FakeClocks.RunSnoc | crates/wasi/tests/all/api.rs:77-80 | one more call appends the reading c + k * 42e9 to the readings already given |
| FakeClocks.RunIncreasing | crates/wasi/tests/all/api.rs:76-81 | of any two readings the later one is strictly greater, and successive readings differ by exactly 42e9 |
| FakeClocks.FromZero | crates/wasi/tests/all/api.rs:76-86 | a clock built at 0 reads 0, 42e9, 84e9, …: the i-th reading is i * 42 000 000 000 |
| FakeClocks.OverflowBoundary | crates/wasi/tests/all/api.rs:79 | on a valid clock, the precondition of `Now` (room for the u64 addition) holds exactly while fewer than 439 208 192 readings have been taken |
| FakeClocks.ApiTime | crates/wasi/tests/all/api.rs:84-88 | after the set-up of a monotonic clock at 0 and the fixed wall clock, a sample sequence of three monotonic and two wall calls gives 0, 42e9 and 84e9 and the same wall instant twice |

## Left out

- `FakeClocks.FakeMonotonicClock.Now`: the overflow of the u64 addition is excluded by a precondition. The debug-build panic and the release-build wrap-around are not modelled.
- The `Mutex` around the counter: it only gives interior mutability under `&self`. Locking, poisoning (`unwrap` on a poisoned lock) and concurrent callers are not modelled.
- `instantiate`, the engine, linker and component loading, and the `bindgen!` macro: engine plumbing and code generation whose implementation is not part of this model.
- The test bodies of `api_time`, `api_read_only` and `api_reactor`, and the guest calls they make (`call_run`, `call_add_strings`, `call_get_strings`, `call_write_strings_to`, `call_pass_an_imported_record`): they run guest programs whose code is not part of this model. In particular, the order and number of clock readings the `api_time` guest makes, and the checks it applies to them, are not modelled: `ApiTime` uses one call sequence of its own after the set-up. The context builder's installation of the clocks (`monotonic_clock`, `wall_clock`) is not modelled either; `ApiTime` builds the clock object and calls the wall-clock function directly.
- `ResourceTable`, `WasiCtxBuilder`, `DirPerms`/`FilePerms`, `MemoryOutputPipe` and `WasiView`: they are defined in files that are not part of this model. The `WasiView` accessors on `CommandCtx` are plain field getters.
- Temporary-directory and filesystem set-up, and the `DescriptorStat` `Debug` formatting comparison: real I/O and Rust's derived formatting.
- `Duration` is modelled only as far as the clocks use it: `from_secs`, `new` and the total length in nanoseconds.
- `FakeClocks.FakeMonotonicClock.Resolution`: the `u64` it returns is read as nanoseconds (one second). The trait that fixes this unit is defined in a file that is not part of this model.
