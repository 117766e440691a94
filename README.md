# LTTng clock plugin example, modelled in Dafny

The LTTng clock plugin example replaces the tracer's clock with a coarse
1 KHz clock. It reads the kernel's monotonic nanosecond time and scales it to
ticks without a division: shift right by 10, multiply by 537, shift right by 19.
In NMI context it returns the sentinel `(u64) -EIO` instead. It also has four
constant callbacks: the frequency (1000), an identifier that `memcpy` copies
into the caller's buffer, a name and a description. All five are bundled in
the `ltc` table that the module registers with the tracer.

The model has three modules:

- `U64` (`u64.dfy`): C's `u64` arithmetic. Values are integers in [0, 2^64).
  A conversion or a product reduces modulo 2^64, and `>>` by a count below 64
  is floor division by a power of two. Wrap-around is written out, so "the
  multiply never wraps" is a theorem and not an assumption.
- `CString` (`cstring.dfy`): a C string literal is its characters followed by
  NUL. The text a consumer sees is everything before the first NUL.
- `ClockPluginExample` (`clock_plugin_example.dfy`): the callbacks, the `ltc`
  table, and the properties of the scaling and of the sentinel.
  - `ktime_get()` and `in_nmi()` are not called. The nanosecond count, already
    cast to `u64`, and the NMI status are parameters of `Read64`.
  - The pure callbacks are functions.
  - `trace_clock_uuid_example` writes into the caller's buffer, so it is a
    method over an `array<char>`.
  - The value of `LTTNG_MODULES_UUID_STR_LEN` comes from a header that is not
    part of this model. It is the method's `uuidStrLen` parameter. The copy
    must not read past the 37-byte literal (36 digits and NUL) and must not
    write past the buffer.

`trace_clock_uuid_example` copies `LTTNG_MODULES_UUID_STR_LEN` bytes of the
37-byte array `myuuid` (36 digits and NUL); the model copies `uuidStrLen <= 37`
bytes.

## Model

| member | source | states |
|---|---|---|
| `U64.FromInt` | lttng-clock-plugin-example.c:63 | the `(u64)` cast gives the value congruent modulo 2^64. It is the identity on [0, 2^64) and gives `2^64 + x` for a negative `x` |
| `U64.Mul` | lttng-clock-plugin-example.c:66 | the `u64` product is congruent to the true product modulo 2^64, and equals it when the true product is below 2^64 |
| `U64.ShiftRight` | lttng-clock-plugin-example.c:66-67 | `x >> k` is the `r` with `r * 2^k <= x < (r + 1) * 2^k` |
| `ClockPluginExample.Read64` | lttng-clock-plugin-example.c:53-68 | returns the sentinel exactly when called in NMI context; any other reading is below 2^45 |
| `ClockPluginExample.CoarseTicks` | lttng-clock-plugin-example.c:66-67 | the shift-multiply-shift on `u64` gives a tick count below 2^45, far from the sentinel's range |
| `ClockPluginExample.Freq` | lttng-clock-plugin-example.c:70-73 | the frequency is 1 KHz: `Freq() * 1000000 == NS_PER_SEC`, so one tick lasts one millisecond; `ReadMatchesFreq` connects it to the scaling |
| `ClockPluginExample.ProductNeverWraps` | lttng-clock-plugin-example.c:40-47 | for every 64-bit `ns`, `537 * (ns >> 10) < 2^64`, so shifting first keeps the multiply from wrapping |
| `ClockPluginExample.ReadIsExactFormula` | lttng-clock-plugin-example.c:65-67 | a reading equals `floor(floor(ns / 1024) * 537 / 2^19)` computed on unbounded integers |
| `ClockPluginExample.ReadMonotonic` | lttng-clock-plugin-example.c:95 | the clock is monotonic: `ns1 <= ns2` implies `Read64(ns1) <= Read64(ns2)` |
| `ClockPluginExample.ReadTruncationBound` | lttng-clock-plugin-example.c:33-39 | a reading `r` satisfies `(ns - 1023) * 537 / 2^29 - 1 < r <= ns * 537 / 2^29` |
| `ClockPluginExample.ScaleFactorNearOneMillionth` | lttng-clock-plugin-example.c:33-39 | `1/1000000 < 537/2^29 < 1.00025/1000000`, as the derivation computes |
| `ClockPluginExample.ReadMatchesFreq` | lttng-clock-plugin-example.c:70-73 | the scaling agrees with `Freq()`: at most 1.00025 × `Freq()` ticks per second of `ns`, and less than one tick (plus the 1023 ns dropped by the first shift) behind `ns * Freq() / 10^9` |
| `ClockPluginExample.ReadLagsMillisecondsByAtMostOne` | lttng-clock-plugin-example.c:28-39 | against `ns / 1000000` a reading is at most one tick behind, and ahead by at most `ns / 4·10^9 + 1` |
| `ClockPluginExample.ElapsedTicksBound` | lttng-clock-plugin-example.c:66-67 | ticks elapsed between two readings exceed `(ns2 - ns1 + 1023) * 537 / 2^29` by less than one |
| `ClockPluginExample.ReadAtOneThousandSeconds` | lttng-clock-plugin-example.c:39 | 10^12 ns (1000 s) reads as 1000240 ticks |
| `ClockPluginExample.LargestReading` | lttng-clock-plugin-example.c:66-67 | no reading exceeds 18451179503615, the reading at `2^64 - 1` ns |
| `ClockPluginExample.ReadErrorIsMinusEio` | lttng-clock-plugin-example.c:63 | the sentinel `(u64) -EIO` is `2^64 - 5` |
| `ClockPluginExample.SentinelDisjointFromReadings` | lttng-clock-plugin-example.c:62-67 | an NMI-context call returns the sentinel, and no non-NMI reading at any time equals it |
| `ClockPluginExample.Name` | lttng-clock-plugin-example.c:88-91 | returns a NUL-terminated string whose text is `my_example_clock` (16 characters) |
| `ClockPluginExample.Description` | lttng-clock-plugin-example.c:93-96 | returns a NUL-terminated string whose text is `Coarse monotonic clock at 1KHz` (30 characters) |
| `ClockPluginExample.UuidLiteral` | lttng-clock-plugin-example.c:77 | the identifier array has 37 bytes, 36 characters then NUL, and its text is `123456789012345678901234567890123456` |
| `ClockPluginExample.Uuid` | lttng-clock-plugin-example.c:75-86 | returns 0. The first `uuidStrLen` bytes of the buffer equal the literal's first `uuidStrLen` bytes (the NUL too when `uuidStrLen` is 37). No other byte changes |
| `ClockPluginExample.LtcDescribesCoarseMonotonicClock` | lttng-clock-plugin-example.c:98-105 | the `ltc` table (the constant `Ltc`) advertises 1000 Hz, a monotonic `read64` whose NMI result is the sentinel and whose other results never are, and the name and description texts |
| `CString.Length` | lttng-clock-plugin-example.c:90 | a C string's length is the index of its first NUL, with no NUL before it |
| `CString.TextOfLiteral` | lttng-clock-plugin-example.c:90 | a string literal laid out with its terminator denotes exactly its text |

## Left out

- `ktime_get()`, `ktime_to_ns()` and `in_nmi()`: kernel primitives. Their values are parameters of `Read64`. The `(u64)` cast of a negative `ktime_to_ns` result is not modelled, because the monotonic clock is never negative.
- `lttng_clock_plugin_init` / `lttng_clock_plugin_exit` (lines 107-119): they only call `lttng_clock_register_plugin` and `lttng_clock_unregister_plugin` from the lttng-modules registry, which is not part of this model. `init` returns the registry's status unchanged.
- NMI reentrancy and the seqlock inside `ktime_get()` (lines 49-61): these are about concurrency. The model keeps only the sentinel branch that avoids them.
- The `uuid` entry of the `ltc` table: a Dafny datatype cannot hold a method that writes into an array. The table holds the other four callbacks, and `Uuid` is a method beside it.
- The value of `LTTNG_MODULES_UUID_STR_LEN`: it comes from an lttng-modules header that is not part of this model. It is a parameter bounded by the literal's 37 bytes.
- Module metadata (`MODULE_LICENSE`, `MODULE_AUTHOR`, `MODULE_DESCRIPTION`, lines 121-123): scaffolding.
