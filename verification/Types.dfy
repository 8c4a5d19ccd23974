/** The records, constants and clock arithmetic shared by every part of the driver model. */
module Types {

  const U32: nat := 0x1_0000_0000
  const U64: nat := 0x1_0000_0000_0000_0000

  /** A 32-bit field of a structure that user space fills. */
  type Word32 = n: nat | n < 0x1_0000_0000

  // Kernel error numbers, returned negated.
  const EINVAL: int := 22
  const ENOENT: int := 2
  const E2BIG: int := 7
  const ENOMEM: int := 12
  const EFAULT: int := 14
  const ECANCELED: int := 125

  const MAX_BUFFER: nat := 64 * 1024 * 1024

  // The timer frequency is a build-time constant of the kernel, here left arbitrary.
  type Hertz = n: nat | 1 <= n <= 1000 witness 250
  const HZ: Hertz

  datatype TaskState = Free | Pending | Running | Complete | Failed | Cancelled

  /** One slot of the task array. The list node `entry` is modelled separately. */
  datatype Task = Task(
    id: nat,
    state: TaskState,
    accelType: nat,
    priority: nat,
    inputAddr: nat,
    inputSize: nat,
    outputAddr: nat,
    outputSize: nat,
    timeoutMs: Word32,
    submitJiffies: nat,
    completeJiffies: nat,
    errorCode: int,
    done: bool)

  /** The all-zero slot that kzalloc and memset leave behind. */
  const ZERO_TASK := Task(0, Free, 0, 0, 0, 0, 0, 0, 0, 0, 0, 0, false)

  datatype Desc = Desc(
    accelType: nat,
    priority: nat,
    inputSize: nat,
    outputSize: nat,
    inputAddr: nat,
    outputAddr: nat,
    timeoutMs: Word32,
    flags: nat)

  datatype Status = Status(taskId: nat, state: TaskState, execUsec: nat, errorCode: int)

  /** `jiffies` is the low 64 bits of an ever-growing tick count. */
  function Jiffies(now: nat): nat {
    now % U64
  }

  /** `unsigned long` subtraction. */
  function JiffiesSince(later: nat, earlier: nat): nat {
    (later - earlier) % U64
  }

  /** msecs_to_jiffies: rounds up, and a value with the top bit set means "for ever". */
  function Ticks(ms: nat): nat {
    if ms < U32 / 2 then RoundUp(ms * HZ) else U64 / 4 - 2
  }

  function RoundUp(x: nat): nat {
    (x + 999) / 1000
  }

  lemma RoundUpMeans(x: nat)
    ensures x <= 1000 * RoundUp(x) < x + 1000
  {
  }

  /** The timer runs at no more than 1000 Hz. */
  lemma AtMostKilohertz(ms: nat)
    ensures ms * HZ <= ms * 1000
  {
    assert ms * (1000 - HZ) >= 0;
  }

  /** Below 2^31 ms the conversion is exact up to rounding up to a whole tick; from there on it is
      the kernel's "for ever". */
  lemma TicksAreMilliseconds(ms: nat)
    ensures ms < 0x8000_0000 ==> ms * HZ <= 1000 * Ticks(ms) < ms * HZ + 1000
    ensures ms >= 0x8000_0000 ==> Ticks(ms) == 0x3fff_ffff_ffff_fffe
  {
    hide RoundUp;
    RoundUpMeans(ms * HZ);
  }

  /** In no case is the wait shorter than the time asked for. */
  lemma TicksAtLeast(ms: Word32)
    ensures 1000 * Ticks(ms) >= ms * HZ
  {
    hide Ticks;
    TicksAreMilliseconds(ms);
    AtMostKilohertz(ms);
  }

  lemma TicksBound(ms: nat)
    ensures Ticks(ms) < U64 / 4
  {
    hide Ticks;
    TicksAreMilliseconds(ms);
    AtMostKilohertz(ms);
  }

  /** A longer timeout never waits less, and "for ever" waits longer than every finite one. */
  lemma TicksMonotone(a: nat, b: nat)
    requires a <= b
    ensures Ticks(a) <= Ticks(b)
    ensures a < 0x8000_0000 <= b ==> Ticks(a) < Ticks(b)
  {
    hide Ticks;
    TicksAreMilliseconds(a);
    TicksAreMilliseconds(b);
    if b < 0x8000_0000 {
      FiniteMonotone(a, b);
    } else {
      AtMostKilohertz(a);
    }
  }

  lemma FiniteMonotone(a: nat, b: nat)
    requires a <= b < 0x8000_0000
    ensures Ticks(a) <= Ticks(b)
  {
    MulMonotone(a, b);
  }

  lemma TicksPositive(ms: nat)
    requires ms > 0
    ensures Ticks(ms) >= 1
  {
    MulMonotone(1, ms);
  }

  /** The shortest time a task occupies its accelerator when nobody cuts it short. */
  function MinRun(timeoutMs: nat): nat {
    if timeoutMs > 0 then Ticks(timeoutMs) else Ticks(10)
  }

  /** The same in milliseconds: the timeout, or 10 ms if there is none. */
  function RunMs(timeoutMs: nat): nat {
    if timeoutMs > 0 then timeoutMs else 10
  }

  lemma MinRunIsMilliseconds(timeoutMs: Word32)
    ensures 1000 * MinRun(timeoutMs) >= (if timeoutMs > 0 then timeoutMs else 10) * HZ
    ensures timeoutMs < 0x8000_0000 ==>
              1000 * MinRun(timeoutMs) < (if timeoutMs > 0 then timeoutMs else 10) * HZ + 1000
  {
    TicksAtLeast(RunMs(timeoutMs));
    TicksAreMilliseconds(RunMs(timeoutMs));
  }

  lemma AddMilliseconds(x: nat, y: nat, ms: nat, more: nat)
    requires 1000 * x >= ms * HZ && 1000 * y >= more * HZ
    ensures 1000 * (x + y) >= (ms + more) * HZ
  {
    assert (ms + more) * HZ == ms * HZ + more * HZ;
  }

  /** The exec_usec expression: everything is computed in 64-bit unsigned arithmetic. */
  function ExecUsec(complete: nat, submit: nat): nat {
    (JiffiesSince(complete, submit) * 1000000 % U64) / HZ
  }

  /** Modular subtraction recovers the true elapsed time, whatever the counter's wrap. */
  lemma ElapsedIsExact(from: nat, to: nat)
    requires from <= to < from + 0x1_0000_0000_0000_0000
    ensures JiffiesSince(Jiffies(to), Jiffies(from)) == to - from
  {
    var d := Jiffies(to) - Jiffies(from);
    var k := to / U64 - from / U64;
    assert to - from == k * U64 + d;
    ModUnique(to - from, d, k);
  }

  lemma ModUnique(r: int, d: int, k: int)
    requires 0 <= r < U64 && r == k * U64 + d
    ensures d % U64 == r
  {
    assert d == -k * U64 + r;
  }

  /** Without any bound on the elapsed time the modular difference can only be too small. */
  lemma ElapsedNeverTooBig(from: nat, to: nat)
    requires from <= to
    ensures JiffiesSince(Jiffies(to), Jiffies(from)) <= to - from
  {
    var q := (to - from) / U64;
    var r := (to - from) % U64;
    assert from + r <= to && to == from + r + q * U64;
    assert Jiffies(to) == Jiffies(from + r) by { ModShift(from + r, q); }
    ElapsedIsExact(from, from + r);
  }

  lemma ModShift(x: nat, q: nat)
    ensures (x + q * U64) % U64 == x % U64
  {
    var a := x / U64;
    assert x + q * U64 == (a + q) * U64 + x % U64;
  }

  /** The reported time is the true one in microseconds, rounded down, exactly when the
      64-bit product does not overflow. */
  lemma ExecUsecExactIffNoOverflow(from: nat, to: nat)
    requires from <= to < from + U64
    ensures ExecUsec(Jiffies(to), Jiffies(from)) == (to - from) * 1000000 / HZ
            <==> (to - from) * 1000000 < 0x1_0000_0000_0000_0000
  {
    ElapsedIsExact(from, to);
    TruncationShows((to - from) * 1000000);
  }

  lemma TruncationShows(x: nat)
    ensures x % U64 / HZ == x / HZ <==> x < U64
  {
    var low := x % U64;
    if x >= U64 {
      assert low + HZ <= x;
      QuotientGap(low, x);
    } else {
      assert low == x;
    }
  }

  lemma QuotientGap(low: nat, x: nat)
    requires low + HZ <= x
    ensures low / HZ < x / HZ
  {
    var p, q := low / HZ, x / HZ;
    assert HZ * p <= low && x < HZ * (q + 1);
    assert HZ * (p + 1) == HZ * p + HZ;
    MulLess(p + 1, q + 1);
  }

  lemma MulLess(a: nat, b: nat)
    requires HZ * a < HZ * b
    ensures a < b
  {
  }

  lemma MulMonotone(a: nat, b: nat)
    requires a <= b
    ensures HZ * a <= HZ * b
  {
  }
}
