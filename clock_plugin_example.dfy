/**
 * The example clock plugin: a coarse 1 KHz clock derived from the kernel's
 * monotonic nanosecond time by a shift-multiply-shift, plus the constant
 * frequency, identifier, name and description callbacks, bundled in the table
 * the plugin registers with the tracer.
 *
 * The kernel's `ktime_get()` and `in_nmi()` are not called: the nanosecond
 * count (already converted to `u64`) and the NMI status are parameters.
 */
module ClockPluginExample {
  import opened U64
  import opened CString

  // Fixed-point scaling constants: 537 / 2^(10 + 19) approximates 1 / 1000000.
  const DIV_CLOCK_SHIFT1: nat := 10
  const DIV_CLOCK_MUL: u64 := 537
  const DIV_CLOCK_SHIFT2: nat := 19

  /** Linux errno for an I/O error. */
  const EIO: int := 5

  /** What `read64` returns when it cannot read the clock: `(u64) -EIO`. */
  const READ_ERROR: u64 := FromInt(-EIO)

  /** Every successful reading lies below this bound (2^45). */
  const READING_BOUND: int := 0x2000_0000_0000

  const NS_PER_SEC: int := 1_000_000_000

  /** Length of the identifier literal plus its terminator. */
  const UUID_LITERAL_LEN: nat := 37

  /**
   * `(DIV_CLOCK_MUL * (ns >> DIV_CLOCK_SHIFT1)) >> DIV_CLOCK_SHIFT2` on `u64`:
   * the coarse tick count for a nanosecond count. It never reaches the error
   * sentinel's range.
   */
  function CoarseTicks(ns: u64): (ticks: u64)
    ensures ticks < READING_BOUND
  {
    ProductNeverWraps(ns);
    ShiftRight(Mul(DIV_CLOCK_MUL, ShiftRight(ns, DIV_CLOCK_SHIFT1)), DIV_CLOCK_SHIFT2)
  }

  /**
   * `trace_clock_read64_example`: the error sentinel in NMI context, a coarse
   * tick count otherwise. The sentinel is returned exactly when `inNmi` holds.
   */
  function Read64(ns: u64, inNmi: bool): (r: u64)
    ensures r == READ_ERROR <==> inNmi
    ensures !inNmi ==> r < READING_BOUND
  {
    if inNmi then FromInt(-EIO) else CoarseTicks(ns)
  }

  /**
   * `trace_clock_freq_example`: ticks per second. One tick lasts one
   * millisecond of the nanosecond base.
   */
  function Freq(): (f: u64)
    ensures f * 1_000_000 == NS_PER_SEC
  {
    1000
  }

  /** `trace_clock_name_example`: a C string naming the clock. */
  function Name(): (s: seq<char>)
    ensures '\0' in s && Length(s) == 16
    ensures Text(s) == "my_example_clock"
  {
    TextOfLiteral("my_example_clock");
    Literal("my_example_clock")
  }

  /** `trace_clock_description_example`: a C string describing the clock. */
  function Description(): (s: seq<char>)
    ensures '\0' in s && Length(s) == 30
    ensures Text(s) == "Coarse monotonic clock at 1KHz"
  {
    TextOfLiteral("Coarse monotonic clock at 1KHz");
    Literal("Coarse monotonic clock at 1KHz")
  }

  /** The identifier array `myuuid`: 36 digits and the terminator. */
  function UuidLiteral(): (s: seq<char>)
    ensures |s| == UUID_LITERAL_LEN && '\0' in s && Length(s) == 36
    ensures Text(s) == "123456789012345678901234567890123456"
  {
    TextOfLiteral("123456789012345678901234567890123456");
    Literal("123456789012345678901234567890123456")
  }

  /**
   * `trace_clock_uuid_example`: copies the first `uuidStrLen` characters of the
   * identifier literal into `buf` (the `memcpy`) and returns 0. `uuidStrLen`
   * stands for LTTNG_MODULES_UUID_STR_LEN; the copy may not read past the
   * literal nor write past the buffer.
   */
  method Uuid(buf: array<char>, uuidStrLen: nat) returns (status: int)
    requires uuidStrLen <= UUID_LITERAL_LEN
    requires uuidStrLen <= buf.Length
    modifies buf
    ensures status == 0
    ensures buf[..uuidStrLen] == UuidLiteral()[..uuidStrLen]
    ensures buf[uuidStrLen..] == old(buf[uuidStrLen..])
  {
    var myuuid := UuidLiteral();
    forall i | 0 <= i < uuidStrLen {
      buf[i] := myuuid[i];
    }
    status := 0;
  }

  /** The callback table `ltc`. The `uuid` entry is the method `Uuid` above. */
  datatype TraceClock = TraceClock(
    read64: (u64, bool) -> u64,
    freq: () -> u64,
    name: () -> seq<char>,
    description: () -> seq<char>)

  const Ltc: TraceClock := TraceClock(Read64, Freq, Name, Description)

  // ---------------------------------------------------------------------------
  // Properties of the scaling

  /** Shifting right by 10 first keeps `537 * (ns >> 10)` below 2^64. */
  lemma ProductNeverWraps(ns: u64)
    ensures DIV_CLOCK_MUL * ShiftRight(ns, DIV_CLOCK_SHIFT1) < TWO_TO_THE_64
  {
    Pow2Constants();
    var q := ShiftRight(ns, DIV_CLOCK_SHIFT1);
    assert q * 1024 <= ns;
    assert q < 0x40_0000_0000_0000;
  }

  /** With no wrap-around, a reading is the exact formula on unbounded integers. */
  lemma ReadIsExactFormula(ns: u64)
    ensures Read64(ns, false) == (ns / 1024) * 537 / 524288
  {
    Pow2Constants();
    ProductNeverWraps(ns);
    // The asserts below record the derivation step by step.
    var q := ShiftRight(ns, DIV_CLOCK_SHIFT1);
    assert q == ns / 1024;
    var p := Mul(DIV_CLOCK_MUL, q);
    assert p == q * 537;
    var r := ShiftRight(p, DIV_CLOCK_SHIFT2);
    assert r == p / 524288;
  }

  /** The clock is monotonic: a later nanosecond count never reads fewer ticks. */
  lemma ReadMonotonic(ns1: u64, ns2: u64)
    requires ns1 <= ns2
    ensures Read64(ns1, false) <= Read64(ns2, false)
  {
    ReadIsExactFormula(ns1);
    ReadIsExactFormula(ns2);
    var q1, q2 := ns1 / 1024, ns2 / 1024;
    assert q1 <= q2;
    var p1, p2 := q1 * 537, q2 * 537;
    assert p1 <= p2;
    assert p1 / 524288 <= p2 / 524288;
  }

  /**
   * Truncation bound: a reading `r` satisfies
   * `(ns - 1023) * 537 / 2^29 - 1 < r <= ns * 537 / 2^29`.
   */
  lemma ReadTruncationBound(ns: u64)
    ensures Read64(ns, false) * 536870912 <= ns * 537
    ensures (ns - 1023) * 537 < (Read64(ns, false) + 1) * 536870912
  {
    ReadIsExactFormula(ns);
    // The asserts below record the derivation step by step.
    var r := Read64(ns, false);
    var q := ns / 1024;
    var p := q * 537;
    assert r * 524288 <= p < (r + 1) * 524288;
    assert q * 1024 <= ns < q * 1024 + 1024;
    assert r * 536870912 <= p * 1024;
    assert p * 1024 == q * 1024 * 537;
    assert (ns - 1023) * 537 <= q * 1024 * 537;
    assert p * 1024 < (r + 1) * 536870912;
  }

  /** 537 / 2^29 lies between 1/1000000 and 1.00025/1000000. */
  lemma ScaleFactorNearOneMillionth()
    ensures Pow2(29) < 537 * 1_000_000
    ensures 537 * 100_000_000_000 < 100_025 * Pow2(29)
  {
    Pow2Constants();
  }

  /**
   * The scaling agrees with `Freq()`: over `ns` nanoseconds a reading counts at
   * most 1.00025 times `Freq()` ticks per second, and lags the exact tick count
   * `ns * Freq() / NS_PER_SEC` by less than one tick plus the 1023 ns dropped by
   * the first shift.
   */
  lemma ReadMatchesFreq(ns: u64)
    ensures Read64(ns, false) * NS_PER_SEC * 100_000 <= ns * Freq() * 100_025
    ensures ns * Freq() < (Read64(ns, false) + 1) * NS_PER_SEC + 1023 * Freq()
  {
    ReadTruncationBound(ns);
    ScaleFactorNearOneMillionth();
    Pow2Constants();
    var r := Read64(ns, false);
    // The asserts below record the derivation step by step.
    // r * 2^29 <= ns * 537, and 537 * 10^11 < 100025 * 2^29
    assert r * 536870912 * 100_000_000_000 <= ns * 537 * 100_000_000_000;
    assert ns * 537 * 100_000_000_000 <= ns * 100_025 * 536870912;
    assert r * 100_000_000_000 <= ns * 100_025;
    // (ns - 1023) * 537 < (r + 1) * 2^29 < (r + 1) * 537 * 10^6
    assert (r + 1) * 536870912 <= (r + 1) * 537_000_000;
    assert (ns - 1023) < (r + 1) * 1_000_000;
  }

  /**
   * Against the exact millisecond count `ns / 1000000`, a reading is at most one
   * tick behind, and ahead by at most 0.025% of the elapsed time plus one tick.
   */
  lemma ReadLagsMillisecondsByAtMostOne(ns: u64)
    ensures ns / 1_000_000 <= Read64(ns, false) + 1
    ensures Read64(ns, false) <= ns / 1_000_000 + ns / 4_000_000_000 + 1
  {
    ReadMatchesFreq(ns);
    var r := Read64(ns, false);
    var ms := ns / 1_000_000;
    assert ms * 1_000_000 <= ns < (r + 1) * 1_000_000 + 1023;
    assert r * 100_000_000_000 <= ns * 100_025;
  }

  /**
   * Ticks elapsed between two non-NMI readings are bounded by the elapsed
   * nanoseconds: `r2 - r1 - 1 < (ns2 - ns1 + 1023) * 537 / 2^29`.
   */
  lemma ElapsedTicksBound(ns1: u64, ns2: u64)
    requires ns1 <= ns2
    ensures (Read64(ns2, false) - Read64(ns1, false) - 1) * 536870912 < (ns2 - ns1 + 1023) * 537
  {
    ReadTruncationBound(ns1);
    ReadTruncationBound(ns2);
  }

  /** One thousand seconds read as 1000240 ticks (0.024% fast). */
  lemma ReadAtOneThousandSeconds()
    ensures Read64(1_000_000_000_000, false) == 1_000_240
  {
    ReadIsExactFormula(1_000_000_000_000);
  }

  /** The largest reading, at the last representable nanosecond count. */
  lemma LargestReading(ns: u64)
    ensures Read64(ns, false) <= Read64(TWO_TO_THE_64 - 1, false) == 18_451_179_503_615
  {
    ReadMonotonic(ns, TWO_TO_THE_64 - 1);
    ReadIsExactFormula(TWO_TO_THE_64 - 1);
  }

  // ---------------------------------------------------------------------------
  // The error sentinel

  /**
   * The sentinel is the two's-complement encoding of -EIO, 2^64 - 5.
   * A corollary of `FromInt`'s contract, stated for the record.
   */
  lemma ReadErrorIsMinusEio()
    ensures READ_ERROR == TWO_TO_THE_64 - 5
  {
  }

  /**
   * No successful reading, at any time, can be mistaken for the sentinel.
   * A corollary of `Read64`'s contract, stated for the record.
   */
  lemma SentinelDisjointFromReadings(ns: u64, ns': u64)
    ensures Read64(ns', true) == READ_ERROR
    ensures Read64(ns, false) != Read64(ns', true)
  {
  }

  // ---------------------------------------------------------------------------
  // The callback table

  /**
   * The registered table advertises a monotonic clock at 1 KHz whose readings
   * are never the sentinel, named and described by its string callbacks.
   */
  lemma LtcDescribesCoarseMonotonicClock()
    ensures Ltc.freq() == 1000
    ensures forall ns1: u64, ns2: u64 :: ns1 <= ns2 ==> Ltc.read64(ns1, false) <= Ltc.read64(ns2, false)
    ensures forall ns: u64 :: Ltc.read64(ns, true) == READ_ERROR
    ensures forall ns: u64 :: Ltc.read64(ns, false) != READ_ERROR
    ensures Text(Ltc.name()) == "my_example_clock"
    ensures Text(Ltc.description()) == "Coarse monotonic clock at 1KHz"
  {
    forall ns1: u64, ns2: u64 | ns1 <= ns2
      ensures Ltc.read64(ns1, false) <= Ltc.read64(ns2, false)
    {
      ReadMonotonic(ns1, ns2);
    }
  }
}
