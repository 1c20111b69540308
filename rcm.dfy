/**
 * The live clock controller (RCM) of the STM32/APM32F103: ten registers at
 * 0x40021000, a tick counter advanced once per executed instruction, the HSE
 * start-up delay, and the system-clock frequency and MCU time derived from
 * CFG and the tick count.
 *
 * The register definitions give each field a name, position and width but
 * no access policy, so every field takes the default read-write policy; the
 * controller writes and reads whole 32-bit words.
 */
module Stm32Rcm {
  import opened Wrappers
  import opened Bits
  import opened RegisterEngine
  import opened PeripheralRegistry
  import opened QemuDevice
  import opened Clock

  const RcmBase: nat := 0x4002_1000
  const RcmEnd: nat := 0x4002_1400

  const CtrlOffset: nat := 0x00
  const CfgOffset: nat := 0x04
  const IntOffset: nat := 0x08
  const Apb2RstOffset: nat := 0x0C
  const Apb1RstOffset: nat := 0x10
  const AhbClkEnOffset: nat := 0x14
  const Apb2ClkEnOffset: nat := 0x18
  const Apb1ClkEnOffset: nat := 0x1C
  const BdCtrlOffset: nat := 0x20
  const CstsOffset: nat := 0x24

  /** The number of registers; they sit at offsets 0x00, 0x04, ..., 0x24. */
  const RegisterCount: nat := 10

  /** An offset with a registered register (`m_registers.count(offset)`). */
  predicate IsRegisterOffset(o: nat) {
    o % 4 == 0 && o / 4 < RegisterCount
  }

  /** Index of HSEEN in CTRL and of SYSCLKSEL in CFG. */
  const HseEnIndex: nat := 4
  const SysClkSelIndex: nat := 0

  /** Bit positions of HSEEN and HSERDYFLG in CTRL. */
  const HseEnBit: nat := 16
  const HseReadyBit: nat := 17

  // ---------------------------------------------------------------------
  // Register layouts
  // ---------------------------------------------------------------------

  function Field(name: string, start: nat, width: nat): BitField {
    BitField(name, start, width, RW)
  }

  function Flag(name: string, bit: nat): BitField {
    Field(name, bit, 1)
  }

  function CtrlFields(): seq<BitField> {
    [Flag("HSIEN", 0), Flag("HSIRDYFLG", 1), Field("HSITRM", 3, 5), Field("HSICAL", 8, 8),
     Flag("HSEEN", 16), Flag("HSERDYFLG", 17), Flag("HSEBCFG", 18), Flag("CSSEN", 19),
     Flag("PLLEN", 24), Flag("PLLRDYFLG", 25)]
  }

  function CfgFields(): seq<BitField> {
    [Field("SYSCLKSEL", 0, 2), Field("SCLKSELSTS", 2, 2), Field("AHBPSC", 4, 4), Field("APB1PSC", 8, 3),
     Field("APB2PSC", 11, 3), Field("ADCPSC", 14, 2), Flag("PLLSRCSEL", 16), Flag("PLLHSEPSC", 17),
     Field("PLLMULCFG", 18, 4), Field("USBDPSC", 22, 2), Field("MCOSEL", 24, 3), Flag("FPUPSC", 27)]
  }

  function IntFields(): seq<BitField> {
    [Flag("LSIRDYFLG", 0), Flag("LSERDYFLG", 1), Flag("HSIRDYFLG", 2), Flag("HSERDYFLG", 3),
     Flag("PLLRDYFLG", 4), Flag("CSSFLG", 7), Flag("LSIRDYEN", 8), Flag("LSERDYEN", 9),
     Flag("HSIRDYEN", 10), Flag("HSERDYEN", 11), Flag("PLLRDYEN", 12), Flag("LSIRDYCLR", 16),
     Flag("LSERDYCLR", 17), Flag("HSIRDYCLR", 18), Flag("HSERDYCLR", 19), Flag("PLLRDYCLR", 20),
     Flag("CSSCLR", 23)]
  }

  function Apb2RstFields(): seq<BitField> {
    [Flag("AFIORST", 0), Flag("PARST", 2), Flag("PBRST", 3), Flag("PCRST", 4), Flag("PDRST", 5),
     Flag("PERST", 6), Flag("ADC1RST", 9), Flag("ADC2RST", 10), Flag("TMR1RST", 11),
     Flag("SPI1RST", 12), Flag("USART1RST", 14)]
  }

  function Apb1RstFields(): seq<BitField> {
    [Flag("TMR2RST", 0), Flag("TMR3RST", 1), Flag("TMR4RST", 2), Flag("WWDTRST", 11),
     Flag("SPI2RST", 14), Flag("USART2RST", 17), Flag("USART3RST", 18), Flag("I2C1RST", 21),
     Flag("I2C2RST", 22), Flag("USBDRST", 23), Flag("CAN1RST", 25), Flag("CAN2RST", 26),
     Flag("BAKPRST", 27), Flag("PMURST", 28), Flag("DACRST", 29)]
  }

  function AhbClkEnFields(): seq<BitField> {
    [Flag("DMAEN", 0), Flag("SRAMEN", 2), Flag("FPUEN", 3), Flag("FMCEN", 4), Flag("QSPIEN", 5),
     Flag("CRCEN", 6)]
  }

  function Apb2ClkEnFields(): seq<BitField> {
    [Flag("AFIOEN", 0), Flag("PAEN", 2), Flag("PBEN", 3), Flag("PCEN", 4), Flag("PDEN", 5),
     Flag("PEEN", 6), Flag("ADC1EN", 9), Flag("ADC2EN", 10), Flag("TMR1EN", 11), Flag("SPI1EN", 12),
     Flag("USART1EN", 14)]
  }

  function Apb1ClkEnFields(): seq<BitField> {
    [Flag("TMR2EN", 0), Flag("TMR3EN", 1), Flag("TMR4EN", 2), Flag("WWDTEN", 11), Flag("SPI2EN", 14),
     Flag("USART2EN", 17), Flag("USART3EN", 18), Flag("I2C1EN", 21), Flag("I2C2EN", 22),
     Flag("USBDEN", 23), Flag("CAN1EN", 25), Flag("CAN2EN", 26), Flag("BAKPEN", 27), Flag("PMUEN", 28)]
  }

  function BdCtrlFields(): seq<BitField> {
    [Flag("LSEEN", 0), Flag("LSERDYFLG", 1), Flag("LSEBCFG", 2), Field("RTCSRCSEL", 8, 2),
     Flag("RTCCLKEN", 15), Flag("BDRST", 16)]
  }

  function CstsFields(): seq<BitField> {
    [Flag("LSIEN", 0), Flag("LSIRDYFLG", 1), Flag("RSTFLGCLR", 24), Flag("NRSTFLG", 26),
     Flag("PODRSTFLG", 27), Flag("SWRSTFLG", 28), Flag("IWDTRSTFLG", 29), Flag("WWDTRSTFLG", 30),
     Flag("LPWRRSTFLG", 31)]
  }

  /** The field table of the register at offset o. */
  function Layout(o: nat): seq<BitField> {
    if o == CtrlOffset then CtrlFields()
    else if o == CfgOffset then CfgFields()
    else if o == IntOffset then IntFields()
    else if o == Apb2RstOffset then Apb2RstFields()
    else if o == Apb1RstOffset then Apb1RstFields()
    else if o == AhbClkEnOffset then AhbClkEnFields()
    else if o == Apb2ClkEnOffset then Apb2ClkEnFields()
    else if o == Apb1ClkEnOffset then Apb1ClkEnFields()
    else if o == BdCtrlOffset then BdCtrlFields()
    else if o == CstsOffset then CstsFields()
    else []
  }

  /** The name each register is created with. */
  function RegisterName(o: nat): string {
    if o == CtrlOffset then "RCM_CTRL (时钟控制)"
    else if o == CfgOffset then "RCM_CFG (时钟配置)"
    else if o == IntOffset then "RCM_INT (时钟中断)"
    else if o == Apb2RstOffset then "RCM_APB2RST (APB2外设复位)"
    else if o == Apb1RstOffset then "RCM_APB1RST (APB1外设复位)"
    else if o == AhbClkEnOffset then "RCM_AHBCLKEN (AHB时钟使能)"
    else if o == Apb2ClkEnOffset then "RCM_APB2CLKEN (APB2时钟使能)"
    else if o == Apb1ClkEnOffset then "RCM_APB1CLKEN (APB1时钟使能)"
    else if o == BdCtrlOffset then "RCM_BDCTRL (备份域控制)"
    else "RCM_CSTS (控制/状态)"
  }

  /** Reset values by their set bits: CTRL 0x83, AHBCLKEN 0x14, CSTS 0x0C000000, all others 0. */
  function ResetValue(o: nat): Word {
    if o == CtrlOffset then BitSet({0, 1, 7})
    else if o == AhbClkEnOffset then BitSet({2, 4})
    else if o == CstsOffset then BitSet({26, 27})
    else Zero()
  }

  /** The field table of the register with index k, at offset 4 * k. */
  function LayoutAt(k: nat): seq<BitField> {
    Layout(4 * k)
  }

  /** CTRL resets to 0x83. */
  lemma CtrlResetValue()
    ensures ToNat(ResetValue(CtrlOffset)) == 0x83
  {
    var w := ResetValue(CtrlOffset);
    var low: seq<bool> := [true, true, false, false, false, false, false, true];
    assert w[..8] == low;
    LowByteValue(w, low);
  }

  /** AHBCLKEN resets to 0x14: SRAMEN and FMCEN set. */
  lemma AhbClkEnResetValue()
    ensures ToNat(ResetValue(AhbClkEnOffset)) == 0x14
  {
    var w := ResetValue(AhbClkEnOffset);
    var low: seq<bool> := [false, false, true, false, true, false, false, false];
    assert w[..8] == low;
    LowByteValue(w, low);
  }

  /** CSTS resets to 0x0C000000: NRSTFLG and PODRSTFLG set. */
  lemma CstsResetValue()
    ensures ToNat(ResetValue(CstsOffset)) == 0x0C00_0000
  {
    var w := ResetValue(CstsOffset);
    ToNatSplit(w, 26);
    ZeroIff(w[..26]);
    var high: seq<bool> := [true, true, false, false, false, false];
    assert w[26..] == high;
    assert ToNat(high) == 3;
    Pow2Add(2, 2);
    Pow2Add(4, 4);
    Pow2Add(8, 8);
    Pow2Add(16, 8);
    Pow2Add(24, 2);
  }

  /** A field table the engine can rely on: inside the word, ascending, all read-write. */
  predicate WellFormedLayout(fs: seq<BitField>) {
    WithinWord(fs) && Ascending(fs) && forall j :: 0 <= j < |fs| ==> fs[j].access == RW
  }

  lemma CtrlWellFormed()
    ensures WellFormedLayout(CtrlFields())
  {
  }

  lemma CfgWellFormed()
    ensures WellFormedLayout(CfgFields())
  {
  }

  lemma IntWellFormed()
    ensures WellFormedLayout(IntFields())
  {
  }

  lemma Apb2RstWellFormed()
    ensures WellFormedLayout(Apb2RstFields())
  {
  }

  lemma Apb1RstWellFormed()
    ensures WellFormedLayout(Apb1RstFields())
  {
  }

  lemma AhbClkEnWellFormed()
    ensures WellFormedLayout(AhbClkEnFields())
  {
  }

  lemma Apb2ClkEnWellFormed()
    ensures WellFormedLayout(Apb2ClkEnFields())
  {
  }

  lemma Apb1ClkEnWellFormed()
    ensures WellFormedLayout(Apb1ClkEnFields())
  {
  }

  lemma BdCtrlWellFormed()
    ensures WellFormedLayout(BdCtrlFields())
  {
  }

  lemma CstsWellFormed()
    ensures WellFormedLayout(CstsFields())
  {
  }

  /** Every register's fields lie in the word, in ascending order, and are read-write. */
  lemma LayoutsWellFormed(o: nat)
    requires IsRegisterOffset(o)
    ensures WellFormedLayout(Layout(o)) && Disjoint(Layout(o))
  {
    LayoutWellFormed(o);
    AscendingDisjoint(Layout(o));
  }

  /** The same, for every register index. */
  lemma LayoutsSound()
    ensures forall k :: 0 <= k < RegisterCount ==> WellFormedLayout(LayoutAt(k)) && Disjoint(LayoutAt(k))
  {
    forall k | 0 <= k < RegisterCount
      ensures WellFormedLayout(LayoutAt(k)) && Disjoint(LayoutAt(k))
    {
      LayoutsWellFormed(4 * k);
    }
  }

  lemma LayoutWellFormed(o: nat)
    requires IsRegisterOffset(o)
    ensures WellFormedLayout(Layout(o))
  {
    if o == CtrlOffset {
      CtrlWellFormed();
    }     else if o == CfgOffset {
      CfgWellFormed();
    }     else if o == IntOffset {
      IntWellFormed();
    }     else if o == Apb2RstOffset {
      Apb2RstWellFormed();
    }     else if o == Apb1RstOffset {
      Apb1RstWellFormed();
    }     else if o == AhbClkEnOffset {
      AhbClkEnWellFormed();
    }     else if o == Apb2ClkEnOffset {
      Apb2ClkEnWellFormed();
    }     else if o == Apb1ClkEnOffset {
      Apb1ClkEnWellFormed();
    }     else if o == BdCtrlOffset {
      BdCtrlWellFormed();
    }     else if o == CstsOffset {
      CstsWellFormed();
    }
  }

  /** find_field("SCLKSELSTS") on CFG: the name occurs once, at index 1. */
  lemma CfgFindSelectionStatus(r: Register)
    requires r.Valid() && r.fields == LayoutAt(CfgOffset / 4)
    ensures r.FindField("SCLKSELSTS") == Some(1)
  {
    var fs := CfgFields();
    assert fs[1].name == "SCLKSELSTS";
    assert forall j | 0 <= j < |fs| && j != 1 :: fs[j].name != "SCLKSELSTS" by {
      forall j | 0 <= j < |fs| && j != 1
        ensures fs[j].name != "SCLKSELSTS"
      {
        assert fs[j].name[..2] != "SC" || |fs[j].name| != 10;
      }
    }
  }

  /** find_field("HSERDYFLG") on CTRL: the name occurs once, at index 5. */
  lemma CtrlFindHseReady(r: Register)
    requires r.Valid() && r.fields == LayoutAt(CtrlOffset / 4)
    ensures r.FindField("HSERDYFLG") == Some(5)
    ensures r.fields[5].start == HseReadyBit && r.fields[5].width == 1
  {
    var fs := CtrlFields();
    assert fs[5].name == "HSERDYFLG";
    assert forall j | 0 <= j < |fs| && j != 5 :: fs[j].name != "HSERDYFLG" by {
      forall j | 0 <= j < |fs| && j != 5
        ensures fs[j].name != "HSERDYFLG"
      {
        assert fs[j].name[2] != 'E' || |fs[j].name| != 9;
      }
    }
  }

  // ---------------------------------------------------------------------
  // Specification of a register write
  // ---------------------------------------------------------------------

  /** The HSEEN callback is due with value 1: the firmware has just enabled HSE. */
  predicate StartsHse(fs: seq<BitField>, o: nat, prior: Word, v: Word) {
    o == CtrlOffset &&
    match FiringOf(WriteOutcomeOf(fs, prior, v, WordBits).fired, HseEnIndex)
    case Some(x) => ToNat(x) == 1
    case None => false
  }

  /**
   * The register value after a 32-bit write of v, its callbacks included:
   * on CFG the SYSCLKSEL callback copies the new selection into SCLKSELSTS.
   */
  function WriteResult(fs: seq<BitField>, o: nat, prior: Word, v: Word): Word {
    var eff := EffectiveValue(fs, prior, v, WordBits);
    if o == CfgOffset then
      match FiringOf(WriteOutcomeOf(fs, prior, v, WordBits).fired, SysClkSelIndex)
      case Some(x) => Insert(eff, 2, 2, x)
      case None => eff
    else eff
  }

  /** Outside CFG a write stores exactly the written bits that lie in a field. */
  lemma WriteStoresFieldBits(o: nat, prior: Word, v: Word)
    requires IsRegisterOffset(o) && o != CfgOffset
    ensures forall i :: 0 <= i < WordBits ==> WriteResult(Layout(o), o, prior, v)[i] == (v[i] && Covered(Layout(o), i))
  {
    LayoutsWellFormed(o);
    FullWriteOfReadWriteFields(Layout(o), prior, v);
  }

  /** SYSCLKSEL covers bits 1:0, SCLKSELSTS bits 3:2, and the clock bits 16 to 21 lie in fields. */
  lemma CfgClockBitsCovered()
    ensures forall i :: 0 <= i < 4 || 16 <= i < 22 ==> Covered(CfgFields(), i)
  {
    var fs := CfgFields();
    forall i | 0 <= i < 4 || 16 <= i < 22
      ensures Covered(fs, i)
    {
      if i < 2 {
        assert FieldMask(fs[0])[i];
      } else if i < 4 {
        assert FieldMask(fs[1])[i];
      } else if i == 16 {
        assert FieldMask(fs[6])[i];
      } else if i == 17 {
        assert FieldMask(fs[7])[i];
      } else {
        assert FieldMask(fs[8])[i];
      }
    }
  }

  /** The SYSCLKSEL callback runs exactly when a CFG write changes bit 0 or 1, and receives the written selection. */
  lemma CfgSelectionFiring(prior: Word, v: Word)
    ensures FiringOf(WriteOutcomeOf(CfgFields(), prior, v, WordBits).fired, SysClkSelIndex) ==
      if prior[0] != v[0] || prior[1] != v[1] then Some(Extract(v, 0, 2)) else None
  {
    var f := CfgFields()[SysClkSelIndex];
    LayoutsWellFormed(CfgOffset);
    FullWriteFiring(CfgFields(), prior, v, SysClkSelIndex);
    assert FieldMask(f)[0] && FieldMask(f)[1];
    assert forall i :: 2 <= i < WordBits ==> !FieldMask(f)[i];
  }

  /**
   * A CFG write stores the written field bits, except SCLKSELSTS (bits 3:2):
   * it mirrors the new SYSCLKSEL when the write changed SYSCLKSEL, and
   * otherwise keeps the bits written to it.
   */
  lemma CfgWriteMirrorsSelection(prior: Word, v: Word)
    ensures var r := WriteResult(CfgFields(), CfgOffset, prior, v);
      && (forall i :: 0 <= i < WordBits && !(2 <= i < 4) ==> r[i] == (v[i] && Covered(CfgFields(), i)))
      && Extract(r, 2, 2) == if prior[0] != v[0] || prior[1] != v[1] then Extract(v, 0, 2) else Extract(v, 2, 2)
  {
    var fs := CfgFields();
    LayoutsWellFormed(CfgOffset);
    FullWriteOfReadWriteFields(fs, prior, v);
    CfgSelectionFiring(prior, v);
    CfgClockBitsCovered();
    var eff := EffectiveValue(fs, prior, v, WordBits);
    if prior[0] != v[0] || prior[1] != v[1] {
      InsertOutside(eff, 2, 2, Extract(v, 0, 2));
      ExtractInsert(eff, 2, 2, Extract(v, 0, 2));
      ExtractFits(v, 0, 2);
      ClampFits(Extract(v, 0, 2), 2);
    } else {
      ExtractBits(eff, 2, 2);
      ExtractBits(v, 2, 2);
    }
  }

  /** A CTRL write starts the HSE timer exactly when it turns HSEEN (bit 16) from 0 to 1. */
  lemma HseStartIffEnabled(prior: Word, v: Word)
    ensures StartsHse(CtrlFields(), CtrlOffset, prior, v) <==> !prior[HseEnBit] && v[HseEnBit]
  {
    var f := CtrlFields()[HseEnIndex];
    LayoutsWellFormed(CtrlOffset);
    FullWriteFiring(CtrlFields(), prior, v, HseEnIndex);
    assert FieldMask(f)[HseEnBit];
    assert forall i :: 0 <= i < WordBits && i != HseEnBit ==> !FieldMask(f)[i];
    var x := Extract(v, HseEnBit, 1);
    ExtractBits(v, HseEnBit, 1);
    ZeroIff(x[1..]);
    assert ToNat(x) == (if x[0] then 1 else 0) + 2 * ToNat(x[1..]);
  }

  /** A CFG write selects the frequency its own value selects: SCLKSELSTS plays no part. */
  lemma CfgWriteSetsFrequency(prior: Word, v: Word, c: ClockSources)
    ensures SysClockFrequency(WriteResult(CfgFields(), CfgOffset, prior, v), c) == SysClockFrequency(v, c)
  {
    CfgWriteMirrorsSelection(prior, v);
    CfgClockBitsCovered();
    SysClockReadsOnlyClockBits(WriteResult(CfgFields(), CfgOffset, prior, v), v, c);
  }

  // ---------------------------------------------------------------------
  // The HSE start-up timer
  // ---------------------------------------------------------------------

  /** run_tick's test: a start tick is recorded and at least HSE_DELAY_TICKS have elapsed (uint64). */
  predicate HseReadyDue(start: U64, now: U64) {
    start != 0 && (now - start) % AddressSpace >= HseDelayTicks
  }

  /**
   * Without wrap-around HSE becomes ready exactly HSE_DELAY_TICKS after the
   * start tick; a start recorded at tick 0 is indistinguishable from no
   * start, so that HSE never becomes ready.
   */
  lemma HseReadyTiming(start: U64, now: U64)
    ensures 0 < start <= now ==> (HseReadyDue(start, now) <==> now >= start + HseDelayTicks)
    ensures !HseReadyDue(0, now)
  {
  }

  /** Setting the one-bit HSERDYFLG field to 1 sets bit 17 and nothing else. */
  lemma HseReadyFlagSet(w: Word)
    ensures forall i :: 0 <= i < WordBits ==> Insert(w, HseReadyBit, 1, Ones(1))[i] == (i == HseReadyBit || w[i])
  {
  }

  // ---------------------------------------------------------------------
  // The controller
  // ---------------------------------------------------------------------

  class Rcm {
    /** m_registers: the register at offset o is regs[o / 4]. */
    const regs: seq<Register>
    const sources: ClockSources
    var ticks: U64
    var hseStartTick: U64
    var pllStartTick: U64

    ghost predicate Valid() {
      |regs| == RegisterCount &&
      (forall k :: 0 <= k < |regs| ==>
        regs[k].Valid() && regs[k].offset == 4 * k && WellFormedLayout(regs[k].fields) && Disjoint(regs[k].fields)) &&
      forall k {:trigger LayoutAt(k)} :: 0 <= k < |regs| ==> regs[k].fields == LayoutAt(k)
    }

    /** The stored value of every register, by index. */
    ghost function Values(): seq<Word>
      reads regs
    {
      seq(|regs|, k requires 0 <= k < |regs| reads regs => regs[k].value)
    }

    /**
     * initialize_registers, in Rcm(hsi, hse, max); the default constructor
     * passes DefaultSources().
     */
    constructor(sources: ClockSources)
      ensures Valid()
      ensures forall k :: 0 <= k < |regs| ==> regs[k].value == ResetValue(4 * k)
      ensures this.sources == sources && ticks == 0 && hseStartTick == 0 && pllStartTick == 0
    {
      var rs: seq<Register> := [];
      var k := 0;
      while k < RegisterCount
        invariant k <= RegisterCount && |rs| == k
        invariant forall j :: 0 <= j < k ==>
          rs[j].Valid() && rs[j].offset == 4 * j && rs[j].fields == LayoutAt(j) && rs[j].value == ResetValue(4 * j)
      {
        var r := new Register(4 * k, RegisterName(4 * k), LayoutAt(k), ResetValue(4 * k));
        rs := rs + [r];
        k := k + 1;
      }
      LayoutsSound();
      regs := rs;
      this.sources := sources;
      ticks := 0;
      hseStartTick := 0;
      pllStartTick := 0;
    }

    /** getBaseAddress, getName and getSize. */
    function Descriptor(): (d: Device)
      ensures d.base == RcmBase && d.size == RcmEnd - RcmBase
    {
      Device("CMU (rcm)", RcmBase, RcmEnd - RcmBase)
    }

    /**
     * handle_write: only 4-byte writes to a registered offset succeed; the
     * value is cast to uint32 and written as a full word, then the HSEEN and
     * SYSCLKSEL callbacks run on what the write reported.
     */
    method HandleWrite(address: U64, size: int, value: int) returns (ok: bool)
      requires Valid()
      modifies this, regs
      ensures Valid()
      ensures ok <==> size == 4 && IsRegisterOffset(RegisterOffset(address, RcmBase))
      ensures ticks == old(ticks) && pllStartTick == old(pllStartTick)
      ensures !ok ==> Values() == old(Values()) && hseStartTick == old(hseStartTick)
      ensures ok ==>
        var o := RegisterOffset(address, RcmBase);
        var v := StoredWord(value);
        var fs := regs[o / 4].fields;
        && Values() == old(Values())[o / 4 := WriteResult(fs, o, old(Values())[o / 4], v)]
        && hseStartTick == if StartsHse(fs, o, old(Values())[o / 4], v) then ticks else old(hseStartTick)
    {
      if size != 4 {
        return false;
      }
      var o := RegisterOffset(address, RcmBase);
      if !IsRegisterOffset(o) {
        return false;
      }
      var reg := regs[o / 4];
      var v := StoredWord(value);
      var out := reg.Write(v, WordBits);
      if o == CtrlOffset {
        match FiringOf(out.fired, HseEnIndex) {
          case Some(x) =>
            if ToNat(x) == 1 {
              hseStartTick := ticks;
            }
          case None =>
        }
      } else if o == CfgOffset {
        match FiringOf(out.fired, SysClkSelIndex) {
          case Some(x) =>
            CfgFindSelectionStatus(reg);
            reg.SetFieldNonIntrusive("SCLKSELSTS", x);
          case None =>
        }
      }
      ok := true;
      assert Values() == old(Values())[o / 4 := reg.value];
    }

    /**
     * handle_read: a 4-byte read with a result pointer returns the stored
     * word of a registered offset; an unregistered offset yields 0 and fails.
     */
    method HandleRead(address: U64, size: int, hasResult: bool) returns (r: ReadReply)
      requires Valid()
      modifies regs
      ensures Values() == old(Values())
      ensures size != 4 || !hasResult ==> r == ReadReply(false, None)
      ensures size == 4 && hasResult && !IsRegisterOffset(RegisterOffset(address, RcmBase)) ==> r == ReadReply(false, Some(0))
      ensures size == 4 && hasResult && IsRegisterOffset(RegisterOffset(address, RcmBase)) ==>
        r == ReadReply(true, Some(ToNat(old(Values())[RegisterOffset(address, RcmBase) / 4])))
    {
      if size != 4 || !hasResult {
        return ReadReply(false, None);
      }
      var o := RegisterOffset(address, RcmBase);
      if !IsRegisterOffset(o) {
        return ReadReply(false, Some(0));
      }
      var reg := regs[o / 4];
      var stored := reg.value;
      NoHooksKeepStorage(reg.fields, |reg.fields|, stored, NoFieldHook);
      ClearWriteOnlyWithoutWO(reg.fields, |reg.fields|, stored);
      var x := reg.Read(NoFieldHook, NoRegisterHook);
      r := ReadReply(true, Some(ToNat(x)));
      assert Values() == old(Values());
    }

    /**
     * run_tick: count the instruction; once HSE_DELAY_TICKS have elapsed
     * since HSE was enabled, set HSERDYFLG without callbacks and forget the
     * start tick.
     */
    method RunTick()
      requires Valid()
      modifies this, regs[CtrlOffset / 4]
      ensures Valid()
      ensures ticks == (old(ticks) + 1) % AddressSpace && pllStartTick == old(pllStartTick)
      ensures HseReadyDue(old(hseStartTick), ticks) ==>
        hseStartTick == 0 && Values() == old(Values())[CtrlOffset / 4 := Insert(old(Values())[CtrlOffset / 4], HseReadyBit, 1, Ones(1))]
      ensures !HseReadyDue(old(hseStartTick), ticks) ==>
        hseStartTick == old(hseStartTick) && Values() == old(Values())
    {
      ticks := (ticks + 1) % AddressSpace;
      if hseStartTick != 0 {
        var elapsed := (ticks - hseStartTick) % AddressSpace;
        if elapsed >= HseDelayTicks {
          SetHseReady();
          hseStartTick := 0;
        }
      }
    }

    /** set_field_value_non_intrusive("HSERDYFLG", 1) on CTRL. */
    method SetHseReady()
      requires Valid()
      modifies regs[CtrlOffset / 4]
      ensures Valid()
      ensures Values() == old(Values())[CtrlOffset / 4 := Insert(old(Values())[CtrlOffset / 4], HseReadyBit, 1, Ones(1))]
    {
      var ctrl := regs[CtrlOffset / 4];
      CtrlFindHseReady(ctrl);
      ctrl.SetFieldNonIntrusive("HSERDYFLG", Ones(1));
      assert Values() == old(Values())[CtrlOffset / 4 := ctrl.value];
    }

    /** getSysClockFrequency: the frequency CFG selects. */
    function SysClock(): (f: nat)
      requires Valid()
      reads regs[CfgOffset / 4]
      ensures f == sources.hsi || f == sources.hse || f <= sources.maxCpu
    {
      SysClockFrequency(regs[CfgOffset / 4].value, sources)
    }

    /** getMcuTime: the tick count in emulated picoseconds at the current frequency. */
    function McuNow(): U64
      requires Valid() && SysClock() > 0
      reads this, regs[CfgOffset / 4]
    {
      McuTime(ticks, SysClock())
    }

    /** getRcmTicks. */
    function RcmTicks(): (t: U64)
      reads this
      ensures t == ticks
    {
      ticks
    }
  }

  /** With the default sources the controller never runs at 0 Hz, so getMcuTime never divides by zero. */
  lemma DefaultRcmClockPositive(r: Rcm)
    requires r.Valid() && r.sources == DefaultSources()
    ensures r.SysClock() > 0
  {
    DefaultFrequencyRange(r.regs[CfgOffset / 4].value);
  }
}
