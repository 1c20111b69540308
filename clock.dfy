/**
 * Clock arithmetic shared by the clock controllers (RCM): the system-clock
 * frequency selected by the CFG register, the conversion of executed ticks
 * into emulated picoseconds, and the oscillator start-up delays.
 */
module Clock {
  import opened Bits
  import opened PeripheralRegistry

  /** HSE start-up delay, in ticks. */
  const HseDelayTicks: nat := 1000
  /** PLL lock delay, in ticks. */
  const PllDelayTicks: nat := 750
  /** Picoseconds per second. */
  const PsPerSecond: nat := 1_000_000_000_000

  /** The oscillator frequencies and the frequency cap of a clock controller, in Hz. */
  datatype ClockSources = ClockSources(hsi: U64, hse: U64, maxCpu: U64)

  /** HSI = HSE = 8 MHz, cap 96 MHz. */
  function DefaultSources(): (c: ClockSources)
    ensures c.hsi == 8_000_000 && c.hse == 8_000_000 && c.maxCpu == 96_000_000
  {
    ClockSources(8_000_000, 8_000_000, 96_000_000)
  }

  /** The PLL input: HSI/2 when PLLSRCSEL (bit 16) is 0, else HSE, halved when PLLHSEPSC (bit 17) is 1. */
  function PllInput(cfg: Word, c: ClockSources): nat {
    if !cfg[16] then c.hsi / 2
    else if cfg[17] then c.hse / 2
    else c.hse
  }

  /**
   * getSysClockFrequency: SYSCLKSEL (bits 1:0) 0 selects HSI, 1 HSE, 2 the
   * PLL, whose output is the input times PLLMULCFG (bits 21:18) + 2, capped
   * at the maximum; 3 falls back to HSI.
   */
  function SysClockFrequency(cfg: Word, c: ClockSources): (f: nat)
    ensures f == c.hsi || f == c.hse || f <= c.maxCpu
  {
    var sel := ToNat(Extract(cfg, 0, 2));
    if sel == 0 then c.hsi
    else if sel == 1 then c.hse
    else if sel == 2 then
      var n := ToNat(Extract(cfg, 18, 4)) + 2;
      var out := PllInput(cfg, c) * n;
      if out < c.maxCpu then out else c.maxCpu
    else c.hsi
  }

  /** The value of four consecutive bits starting at s, weighted 1, 2, 4, 8. */
  function Nibble(cfg: Word, s: nat): nat
    requires s + 4 <= WordBits
  {
    (if cfg[s] then 1 else 0) + (if cfg[s + 1] then 2 else 0) + (if cfg[s + 2] then 4 else 0) + (if cfg[s + 3] then 8 else 0)
  }

  /** A field of width up to 4 read through Extract is the weighted sum of its bits. */
  lemma ExtractNibble(cfg: Word, s: nat)
    requires s + 4 <= WordBits
    ensures ToNat(Extract(cfg, s, 4)) == Nibble(cfg, s)
    ensures ToNat(Extract(cfg, s, 2)) == (if cfg[s] then 1 else 0) + (if cfg[s + 1] then 2 else 0)
  {
    var e := Extract(cfg, s, 4);
    ExtractBits(cfg, s, 4);
    ZeroIff(e[4..]);
    assert ToNat(e) == (if e[0] then 1 else 0) + 2 * ToNat(e[1..]);
    assert ToNat(e[1..]) == (if e[1] then 1 else 0) + 2 * ToNat(e[2..]);
    assert ToNat(e[2..]) == (if e[2] then 1 else 0) + 2 * ToNat(e[3..]);
    assert ToNat(e[3..]) == (if e[3] then 1 else 0) + 2 * ToNat(e[4..]);
    var e2 := Extract(cfg, s, 2);
    ExtractBits(cfg, s, 2);
    ZeroIff(e2[2..]);
    assert ToNat(e2) == (if e2[0] then 1 else 0) + 2 * ToNat(e2[1..]);
    assert ToNat(e2[1..]) == (if e2[1] then 1 else 0) + 2 * ToNat(e2[2..]);
  }

  /**
   * The frequency by the bits of CFG: SYSCLKSEL = 0 or 3 gives HSI, 1 gives
   * HSE, 2 gives min(input * (PLLMULCFG + 2), max).
   */
  lemma SysClockByBits(cfg: Word, c: ClockSources)
    ensures !cfg[0] && !cfg[1] ==> SysClockFrequency(cfg, c) == c.hsi
    ensures cfg[0] && cfg[1] ==> SysClockFrequency(cfg, c) == c.hsi
    ensures cfg[0] && !cfg[1] ==> SysClockFrequency(cfg, c) == c.hse
    ensures !cfg[0] && cfg[1] ==>
      var out := PllInput(cfg, c) * (Nibble(cfg, 18) + 2);
      SysClockFrequency(cfg, c) == if out < c.maxCpu then out else c.maxCpu
  {
    ExtractNibble(cfg, 0);
    ExtractNibble(cfg, 18);
  }

  /** Only SYSCLKSEL, PLLSRCSEL, PLLHSEPSC and PLLMULCFG decide the frequency. */
  lemma SysClockReadsOnlyClockBits(cfg: Word, cfg': Word, c: ClockSources)
    requires cfg[0] == cfg'[0] && cfg[1] == cfg'[1] && cfg[16] == cfg'[16] && cfg[17] == cfg'[17]
    requires forall i :: 18 <= i < 22 ==> cfg[i] == cfg'[i]
    ensures SysClockFrequency(cfg, c) == SysClockFrequency(cfg', c)
  {
    SysClockByBits(cfg, c);
    SysClockByBits(cfg', c);
    assert Nibble(cfg, 18) == Nibble(cfg', 18) by {
      assert cfg[18] == cfg'[18] && cfg[19] == cfg'[19] && cfg[20] == cfg'[20] && cfg[21] == cfg'[21];
    }
  }

  /** With the default sources every selection runs the core between 8 and 96 MHz, so never at 0 Hz. */
  lemma DefaultFrequencyRange(cfg: Word)
    ensures 8_000_000 <= SysClockFrequency(cfg, DefaultSources()) <= 96_000_000
  {
    SysClockByBits(cfg, DefaultSources());
  }

  /** HSI = 8 MHz, PLL from HSI/2, PLLMULCFG = 14: 4 MHz * 16 = 64 MHz. */
  lemma PllExample(cfg: Word)
    requires !cfg[0] && cfg[1] && !cfg[16]
    requires !cfg[18] && cfg[19] && cfg[20] && cfg[21]
    ensures SysClockFrequency(cfg, DefaultSources()) == 64_000_000
  {
    SysClockByBits(cfg, DefaultSources());
  }

  // ---------------------------------------------------------------------
  // Ticks to picoseconds
  // ---------------------------------------------------------------------

  /**
   * getMcuTime: whole seconds and the remainder converted separately, the
   * remainder through a 128-bit product, then doubled; the final uint64
   * arithmetic wraps.
   */
  function McuTime(ticks: U64, freq: nat): (t: U64)
    requires freq > 0
  {
    var seconds := ticks / freq;
    var remainder := ticks % freq;
    var remainderPs := remainder * PsPerSecond / freq;
    ((seconds * PsPerSecond + remainderPs) * 2) % AddressSpace
  }

  /** The split computation equals floor(ticks * 10^12 / freq). */
  lemma SplitDivision(t: nat, f: nat, p: nat)
    requires f > 0
    ensures (t / f) * p + (t % f) * p / f == t * p / f
  {
    DivMod(t, f);
    DivMod((t % f) * p, f);
    DivMod(t * p, f);
    SplitProduct(t, f, p, t / f, t % f, (t % f) * p / f, (t % f) * p % f);
    QuotientUnique((t / f) * p + (t % f) * p / f, t * p / f, f, (t % f) * p % f, t * p % f);
  }

  lemma DivMod(n: nat, f: nat)
    requires f > 0
    ensures n == n / f * f + n % f && n % f < f
  {
  }

  /** With t == q * f + r and r * p == y * f + z, t * p splits as (q * p + y) * f + z. */
  lemma SplitProduct(t: nat, f: nat, p: nat, q: nat, r: nat, y: nat, z: nat)
    requires t == q * f + r && r * p == y * f + z
    ensures t * p == (q * p + y) * f + z
  {
    MulAddRight(q * f, r, p);
    MulSwap(q, f, p);
    MulAddRight(q * p, y, f);
  }

  lemma MulAddRight(a: int, b: int, c: int)
    ensures (a + b) * c == a * c + b * c
  {
  }

  lemma MulSwap(a: int, b: int, c: int)
    ensures a * b * c == a * c * b
  {
  }

  lemma MulMonotone(a: nat, b: nat, f: nat)
    ensures a <= b ==> a * f <= b * f
  {
  }

  /** Two splits a * f + z == b * f + w with remainders below f have the same quotient. */
  lemma QuotientUnique(a: nat, b: nat, f: nat, z: nat, w: nat)
    requires f > 0 && z < f && w < f && a * f + z == b * f + w
    ensures a == b
  {
    if a < b {
      MulMonotone(a + 1, b, f);
      MulAddRight(a, 1, f);
    } else if b < a {
      MulMonotone(b + 1, a, f);
      MulAddRight(b, 1, f);
    }
  }

  /** Without wrap-around the MCU time is 2 * floor(ticks * 10^12 / freq). */
  lemma McuTimeExact(ticks: U64, freq: nat)
    requires freq > 0 && 2 * (ticks * PsPerSecond / freq) < AddressSpace
    ensures McuTime(ticks, freq) == 2 * (ticks * PsPerSecond / freq)
  {
    SplitDivision(ticks, freq, PsPerSecond);
  }

  lemma DivMonotone(a: nat, b: nat, f: nat)
    requires f > 0 && a <= b
    ensures a / f <= b / f
  {
    assert a / f * f <= a;
    assert b < b / f * f + f;
    MulMonotone(b / f + 1, a / f, f);
    assert (b / f + 1) * f == b / f * f + f;
  }

  /** At a fixed frequency and below the wrap-around the MCU time does not decrease as ticks grow. */
  lemma McuTimeMonotone(t1: U64, t2: U64, freq: nat)
    requires freq > 0 && t1 <= t2 && 2 * (t2 * PsPerSecond / freq) < AddressSpace
    ensures McuTime(t1, freq) <= McuTime(t2, freq)
  {
    assert t1 * PsPerSecond <= t2 * PsPerSecond;
    DivMonotone(t1 * PsPerSecond, t2 * PsPerSecond, freq);
    McuTimeExact(t1, freq);
    McuTimeExact(t2, freq);
  }

  /**
   * All ticks are rescaled at the current frequency: after switching from
   * 8 MHz to 16 MHz one more tick reads as an earlier MCU time.
   */
  lemma FrequencyChangeRescalesPast()
    ensures McuTime(8_000_001, 16_000_000) < McuTime(8_000_000, 8_000_000)
  {
    McuTimeExact(8_000_001, 16_000_000);
    McuTimeExact(8_000_000, 8_000_000);
  }
}
