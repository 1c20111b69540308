/**
 * The raw-struct reset and clock manager (rcm.h, rcm.cpp): ten uint32_t
 * registers written through per-register masks instead of the register
 * engine, HSE and PLL readiness raised by run_tick after fixed delays, and
 * reads filtered through read masks.
 */
module LegacyRcm {
  import opened Wrappers
  import opened Bits
  import opened PeripheralRegistry
  import opened QemuDevice
  import Clock

  const RcmBase: nat := 0x4002_1000
  const RcmEnd: nat := 0x4002_1400

  const CtrlOffset: nat := 0x00
  const CfgOffset: nat := 0x04
  const IntOffset: nat := 0x08
  const Apb2rstOffset: nat := 0x0C
  const Apb1rstOffset: nat := 0x10
  const AhbclkenOffset: nat := 0x14
  const Apb2clkenOffset: nat := 0x18
  const Apb1clkenOffset: nat := 0x1C
  const BdctrlOffset: nat := 0x20
  const CstsOffset: nat := 0x24

  const RegisterCount: nat := 10

  /** The offsets of the ten registers of RCM_TypeDef. */
  predicate IsRegisterOffset(o: nat) {
    o % 4 == 0 && o <= CstsOffset
  }

  const HseEnableBit: nat := 16
  const HseReadyBit: nat := 17
  const PllEnableBit: nat := 24
  const PllReadyBit: nat := 25

  // ---------------------------------------------------------------------
  // Masks, as the sets of bits the hexadecimal constants have set
  // ---------------------------------------------------------------------

  /** RCM_CTRL_W_MASK, 0x011C00BD: it leaves out HSEEN (bit 16). */
  function CtrlHeaderWriteMask(): Word { BitSet({0, 2, 3, 4, 5, 7, 18, 19, 20, 24}) }

  /** W_MASK_FORCED in handle_write: HSEEN | HSIEN | (0x011C00BD without them), that is 0x011D00BD. */
  function CtrlWriteMask(): Word { Or(BitSet({HseEnableBit, 0}), And(CtrlHeaderWriteMask(), Not(BitSet({HseEnableBit, 0})))) }

  /** RCM_CTRL_R_MASK, 0x031CFFBF. */
  function CtrlReadMask(): Word { BitSet({0, 1, 2, 3, 4, 5, 7, 8, 9, 10, 11, 12, 13, 14, 15, 18, 19, 20, 24, 25}) }

  /** RCM_CFG_W_MASK and RCM_CFG_R_MASK, 0x0FEF7FFF: bits 15 and 20 are left out. */
  function CfgMask(): Word { BitSet({0, 1, 2, 3, 4, 5, 6, 7, 8, 9, 10, 11, 12, 13, 14, 16, 17, 18, 19, 21, 22, 23, 24, 25, 26, 27}) }

  /** RCM_INT_W_MASK, 0x00FF1F00. */
  function IntWriteMask(): Word { BitSet({8, 9, 10, 11, 12, 16, 17, 18, 19, 20, 21, 22, 23}) }

  /** RCM_INT_R_MASK, 0x00001F8F. */
  function IntReadMask(): Word { BitSet({0, 1, 2, 3, 7, 8, 9, 10, 11, 12}) }

  /** RCM_INT_RC_MASK, 0x00FF0000. */
  function IntClearMask(): Word { BitSet({16, 17, 18, 19, 20, 21, 22, 23}) }

  /** The INT enable bits 12:8 (en_mask 0x1F00). */
  function IntEnableMask(): Word { BitSet({8, 9, 10, 11, 12}) }

  /** RCM_APB2RST_W/R_MASK and RCM_APB2CLKEN_W/R_MASK, 0x00004FDE. */
  function Apb2Mask(): Word { BitSet({1, 2, 3, 4, 6, 7, 8, 9, 10, 11, 14}) }

  /** RCM_APB1RST_W/R_MASK, 0x37E4C807. */
  function Apb1rstMask(): Word { BitSet({0, 1, 2, 11, 14, 15, 18, 21, 22, 23, 24, 25, 26, 28, 29}) }

  /** RCM_AHBCLKEN_W/R_MASK, 0x0000007D. */
  function AhbclkenMask(): Word { BitSet({0, 2, 3, 4, 5, 6}) }

  /** RCM_APB1CLKEN_W/R_MASK, 0x17E4C807. */
  function Apb1clkenMask(): Word { BitSet({0, 1, 2, 11, 14, 15, 18, 21, 22, 23, 24, 25, 26, 28}) }

  /** RCM_BDCTRL_W_MASK, 0x00018305. */
  function BdctrlWriteMask(): Word { BitSet({0, 2, 8, 9, 15, 16}) }

  /** RCM_BDCTRL_R_MASK, 0x00018307. */
  function BdctrlReadMask(): Word { BitSet({0, 1, 2, 8, 9, 15, 16}) }

  /** RCM_CSTS_W_MASK, 0x01000001. */
  function CstsWriteMask(): Word { BitSet({0, 24}) }

  /** RCM_CSTS_R_MASK, 0xFF000003. */
  function CstsReadMask(): Word { BitSet({0, 1, 24, 25, 26, 27, 28, 29, 30, 31}) }

  /** RCM_CSTS_RC_MASK, 0x01000000. */
  function CstsClearMask(): Word { BitSet({24}) }

  /** The write mask handle_write uses for offset o. */
  function WriteMask(o: nat): Word
    requires IsRegisterOffset(o)
  {
    if o == CtrlOffset then CtrlWriteMask()
    else if o == CfgOffset then CfgMask()
    else if o == IntOffset then IntWriteMask()
    else if o == Apb2rstOffset || o == Apb2clkenOffset then Apb2Mask()
    else if o == Apb1rstOffset then Apb1rstMask()
    else if o == AhbclkenOffset then AhbclkenMask()
    else if o == Apb1clkenOffset then Apb1clkenMask()
    else if o == BdctrlOffset then BdctrlWriteMask()
    else CstsWriteMask()
  }

  /** The read mask handle_read uses for offset o. */
  function ReadMask(o: nat): Word
    requires IsRegisterOffset(o)
  {
    if o == CtrlOffset then CtrlReadMask()
    else if o == CfgOffset then CfgMask()
    else if o == IntOffset then IntReadMask()
    else if o == Apb2rstOffset || o == Apb2clkenOffset then Apb2Mask()
    else if o == Apb1rstOffset then Apb1rstMask()
    else if o == AhbclkenOffset then AhbclkenMask()
    else if o == Apb1clkenOffset then Apb1clkenMask()
    else if o == BdctrlOffset then BdctrlReadMask()
    else CstsReadMask()
  }

  /**
   * The forced CTRL mask is the header mask with HSEEN added; the
   * write-1-to-clear masks lie inside the write masks.
   */
  lemma MaskRelations()
    ensures forall i :: 0 <= i < WordBits ==> CtrlWriteMask()[i] == (CtrlHeaderWriteMask()[i] || i == HseEnableBit)
    ensures !CtrlHeaderWriteMask()[HseEnableBit]
    ensures forall i :: 0 <= i < WordBits && IntClearMask()[i] ==> IntWriteMask()[i]
    ensures forall i :: 0 <= i < WordBits && CstsClearMask()[i] ==> CstsWriteMask()[i]
  {
  }

  // ---------------------------------------------------------------------
  // Writes
  // ---------------------------------------------------------------------

  /** One step of the INT write: clear bit flag when bit clear of v is set. */
  function ClearIfSet(cur: Word, v: Word, clear: nat, flag: nat): (r: Word)
    requires clear < WordBits && flag < WordBits
    ensures forall i :: 0 <= i < WordBits ==> r[i] == (cur[i] && !(i == flag && v[clear]))
  {
    if v[clear] then And(cur, Not(BitSet({flag}))) else cur
  }

  /**
   * The INT write: CSSCLR (23) clears CSSFLG (7), the ready-clear bits 20
   * to 16 clear the ready flags 4 to 0, then the enable bits 12:8 take v.
   */
  function IntWrite(cur: Word, v: Word): Word {
    var c0 := ClearIfSet(cur, v, 23, 7);
    var c1 := ClearIfSet(c0, v, 20, 4);
    var c2 := ClearIfSet(c1, v, 19, 3);
    var c3 := ClearIfSet(c2, v, 18, 2);
    var c4 := ClearIfSet(c3, v, 17, 1);
    var c5 := ClearIfSet(c4, v, 16, 0);
    Or(And(c5, Not(IntEnableMask())), And(v, IntEnableMask()))
  }

  /** The register at offset o after handle_write stores v (size 4). */
  function RegisterWrite(o: nat, cur: Word, v: Word): Word
    requires IsRegisterOffset(o)
  {
    if o == IntOffset then IntWrite(cur, v)
    else if o == Apb2rstOffset || o == Apb1rstOffset then Or(cur, And(v, WriteMask(o)))
    else if o == CstsOffset then Merge(And(cur, Not(And(v, CstsClearMask()))), WriteMask(o), v)
    else Merge(cur, WriteMask(o), v)
  }

  /**
   * A CTRL write changes exactly the bits of 0x011D00BD to those of v; in
   * particular the ready flags HSERDY (17) and PLLRDY (25) are never
   * changed by software.
   */
  lemma CtrlWriteBits(cur: Word, v: Word)
    ensures forall i :: 0 <= i < WordBits ==>
      RegisterWrite(CtrlOffset, cur, v)[i] == if i in {0, 2, 3, 4, 5, 7, 16, 18, 19, 20, 24} then v[i] else cur[i]
    ensures RegisterWrite(CtrlOffset, cur, v)[HseReadyBit] == cur[HseReadyBit]
    ensures RegisterWrite(CtrlOffset, cur, v)[PllReadyBit] == cur[PllReadyBit]
  {
  }

  /**
   * An INT write: bit 23 of v clears bit 7, bits 20 to 16 clear bits 4 to
   * 0, bits 12:8 are replaced, and every other bit is unchanged.
   */
  lemma IntWriteBits(cur: Word, v: Word)
    ensures forall i :: 8 <= i < 13 ==> IntWrite(cur, v)[i] == v[i]
    ensures forall i :: 0 <= i < 5 ==> IntWrite(cur, v)[i] == (cur[i] && !v[i + 16])
    ensures IntWrite(cur, v)[7] == (cur[7] && !v[23])
    ensures forall i :: 13 <= i < WordBits || i == 5 || i == 6 ==> IntWrite(cur, v)[i] == cur[i]
  {
    forall i | 0 <= i < WordBits
      ensures IntWrite(cur, v)[i] == IntWriteBit(cur, v, i)
    {
      IntWriteAt(cur, v, i);
    }
  }

  /** Bit i of an INT write, case by case. */
  function IntWriteBit(cur: Word, v: Word, i: nat): bool
    requires i < WordBits
  {
    if 8 <= i < 13 then v[i]
    else if i < 5 then cur[i] && !v[i + 16]
    else if i == 7 then cur[7] && !v[23]
    else cur[i]
  }

  lemma IntWriteAt(cur: Word, v: Word, i: nat)
    requires i < WordBits
    ensures IntWrite(cur, v)[i] == IntWriteBit(cur, v, i)
  {
    var c2 := ClearIfSet(ClearIfSet(ClearIfSet(cur, v, 23, 7), v, 20, 4), v, 19, 3);
    var c5 := ClearIfSet(ClearIfSet(ClearIfSet(c2, v, 18, 2), v, 17, 1), v, 16, 0);
    ClearThree(cur, v, 23, 7, 20, 4, 19, 3, i);
    ClearThree(c2, v, 18, 2, 17, 1, 16, 0, i);
    assert IntEnableMask()[i] == (8 <= i < 13);
  }

  /** Three ClearIfSet steps in a row, at bit i. */
  lemma ClearThree(cur: Word, v: Word, k0: nat, f0: nat, k1: nat, f1: nat, k2: nat, f2: nat, i: nat)
    requires k0 < WordBits && f0 < WordBits && k1 < WordBits && f1 < WordBits && k2 < WordBits && f2 < WordBits && i < WordBits
    ensures ClearIfSet(ClearIfSet(ClearIfSet(cur, v, k0, f0), v, k1, f1), v, k2, f2)[i] ==
      (cur[i] && !(i == f0 && v[k0]) && !(i == f1 && v[k1]) && !(i == f2 && v[k2]))
  {
    var a := ClearIfSet(cur, v, k0, f0);
    var b := ClearIfSet(a, v, k1, f1);
    assert a[i] == (cur[i] && !(i == f0 && v[k0]));
    assert b[i] == (a[i] && !(i == f1 && v[k1]));
  }

  /** An APB2RST or APB1RST write sets the writable bits of v and never clears a bit. */
  lemma ResetWriteNeverClears(o: nat, cur: Word, v: Word)
    requires o == Apb2rstOffset || o == Apb1rstOffset
    ensures forall i :: 0 <= i < WordBits ==> RegisterWrite(o, cur, v)[i] == (cur[i] || (v[i] && WriteMask(o)[i]))
  {
  }

  /**
   * A CSTS write: LSIEN (0) and RSTFLGCLR (24) take v, everything else,
   * the reset flags 31:26 included, keeps its value.
   */
  lemma CstsWriteBits(cur: Word, v: Word)
    ensures forall i :: 0 <= i < WordBits ==>
      RegisterWrite(CstsOffset, cur, v)[i] == if i == 0 || i == 24 then v[i] else cur[i]
  {
  }

  /** A CFG write never changes bits 15 and 20, so PLLMULCFG bit 2 keeps its reset value. */
  lemma CfgWriteKeepsUnwritableBits(cur: Word, v: Word)
    ensures RegisterWrite(CfgOffset, cur, v)[15] == cur[15]
    ensures RegisterWrite(CfgOffset, cur, v)[20] == cur[20]
  {
  }

  // ---------------------------------------------------------------------
  // Reads
  // ---------------------------------------------------------------------

  /**
   * The value handle_read masks: CFG with SYSCLKSEL copied into SCLKSELSTS
   * (bits 3:2), BDCTRL and CSTS with bit 1 (LSERDY, LSIRDY) set.
   */
  function Visible(regs: seq<Word>, o: nat): Word
    requires |regs| == RegisterCount && IsRegisterOffset(o)
  {
    var x := regs[o / 4];
    if o == CfgOffset then Or(x, Shl(And(x, BitSet({0, 1})), 2))
    else if o == BdctrlOffset || o == CstsOffset then Or(x, BitSet({1}))
    else x
  }

  /** The value a 4-byte read of a register offset returns. */
  function ReadValue(regs: seq<Word>, o: nat): Word
    requires |regs| == RegisterCount && IsRegisterOffset(o)
  {
    And(Visible(regs, o), ReadMask(o))
  }

  /**
   * The CTRL read mask 0x031CFFBF leaves out bits 16 and 17, so a read never
   * shows HSEEN or HSERDY, whatever run_tick has set; PLLRDY is shown.
   */
  lemma CtrlReadHidesHse(regs: seq<Word>)
    requires |regs| == RegisterCount
    ensures !ReadValue(regs, CtrlOffset)[HseEnableBit] && !ReadValue(regs, CtrlOffset)[HseReadyBit]
    ensures ReadValue(regs, CtrlOffset)[PllReadyBit] == regs[0][PllReadyBit]
  {
  }

  /** A CFG read reports SCLKSELSTS as the selected source (bits 1:0) ORed with the stored bits 3:2. */
  lemma CfgReadReportsSelection(regs: seq<Word>)
    requires |regs| == RegisterCount
    ensures ReadValue(regs, CfgOffset)[2] == (regs[1][2] || regs[1][0])
    ensures ReadValue(regs, CfgOffset)[3] == (regs[1][3] || regs[1][1])
    ensures ReadValue(regs, CfgOffset)[0] == regs[1][0] && ReadValue(regs, CfgOffset)[1] == regs[1][1]
  {
  }

  /** BDCTRL and CSTS always read LSERDY and LSIRDY (bit 1) as set. */
  lemma LowSpeedClocksReadReady(regs: seq<Word>)
    requires |regs| == RegisterCount
    ensures ReadValue(regs, BdctrlOffset)[1] && ReadValue(regs, CstsOffset)[1]
  {
  }

  /**
   * Reading back a write: the bits both writable and readable show v, except
   * on CFG, where SCLKSELSTS also shows SYSCLKSEL; RSTFLGCLR reads back as
   * written.
   */
  lemma {:induction false} WriteThenRead(regs: seq<Word>, o: nat, v: Word)
    requires |regs| == RegisterCount && IsRegisterOffset(o)
    requires o != IntOffset && o != Apb2rstOffset && o != Apb1rstOffset
    ensures var after := ReadValue(regs[o / 4 := RegisterWrite(o, regs[o / 4], v)], o);
      forall i :: 0 <= i < WordBits && WriteMask(o)[i] && ReadMask(o)[i] && !(o == CfgOffset && 2 <= i < 4) && !((o == BdctrlOffset || o == CstsOffset) && i == 1) ==>
        after[i] == v[i]
  {
    var w := RegisterWrite(o, regs[o / 4], v);
    var regs' := regs[o / 4 := w];
    assert regs'[o / 4] == w;
    forall i | 0 <= i < WordBits && WriteMask(o)[i] && ReadMask(o)[i] && !(o == CfgOffset && 2 <= i < 4) && !((o == BdctrlOffset || o == CstsOffset) && i == 1)
      ensures ReadValue(regs', o)[i] == v[i]
    {
      assert w[i] == v[i];
    }
  }

  // ---------------------------------------------------------------------
  // Timing
  // ---------------------------------------------------------------------

  /** Ticks elapsed since start, in uint64 arithmetic. */
  function Elapsed(now: U64, start: U64): U64 {
    (now - start) % AddressSpace
  }

  /**
   * CTRL after run_tick at tick now (already incremented): PLLRDY is set
   * when PLLEN is set and 750 ticks have passed since pllStart, then HSERDY
   * when HSEEN is set and 1000 ticks have passed since hseStart.
   */
  function TickCtrl(ctrl: Word, now: U64, hseStart: U64, pllStart: U64): (r: Word)
    ensures forall i :: 0 <= i < WordBits && i != HseReadyBit && i != PllReadyBit ==> r[i] == ctrl[i]
  {
    var c1 :=
      if ctrl[PllEnableBit] && !ctrl[PllReadyBit] && Elapsed(now, pllStart) >= Clock.PllDelayTicks then Or(ctrl, BitSet({PllReadyBit}))
      else ctrl;
    if c1[HseEnableBit] && !c1[HseReadyBit] && Elapsed(now, hseStart) >= Clock.HseDelayTicks then Or(c1, BitSet({HseReadyBit}))
    else c1
  }

  /** CTRL after n calls of run_tick starting at tick now. */
  function TickCtrlTimes(ctrl: Word, now: U64, hseStart: U64, pllStart: U64, n: nat): Word
    decreases n
  {
    if n == 0 then ctrl
    else
      var next := (now + 1) % AddressSpace;
      TickCtrlTimes(TickCtrl(ctrl, next, hseStart, pllStart), next, hseStart, pllStart, n - 1)
  }

  /**
   * While HSEEN stays set and the tick counter does not wrap, HSERDY is set
   * after n further ticks exactly when it already was, or when the last of
   * them lies 1000 or more ticks after hseStart.
   */
  lemma {:induction false} HseReadyTiming(ctrl: Word, now: U64, hseStart: U64, pllStart: U64, n: nat)
    requires ctrl[HseEnableBit] && hseStart <= now && now + n < AddressSpace
    ensures TickCtrlTimes(ctrl, now, hseStart, pllStart, n)[HseEnableBit]
    ensures TickCtrlTimes(ctrl, now, hseStart, pllStart, n)[HseReadyBit] <==>
      ctrl[HseReadyBit] || (n > 0 && now + n - hseStart >= Clock.HseDelayTicks)
    decreases n
  {
    if n > 0 {
      var next := now + 1;
      assert (now + 1) % AddressSpace == next;
      HseReadyStep(ctrl, next, hseStart, pllStart);
      HseReadyTiming(TickCtrl(ctrl, next, hseStart, pllStart), next, hseStart, pllStart, n - 1);
    }
  }

  /** One tick with HSEEN set and no wrap keeps HSEEN and raises HSERDY once 1000 ticks have passed. */
  lemma HseReadyStep(ctrl: Word, now: U64, hseStart: U64, pllStart: U64)
    requires ctrl[HseEnableBit] && hseStart <= now
    ensures TickCtrl(ctrl, now, hseStart, pllStart)[HseEnableBit]
    ensures TickCtrl(ctrl, now, hseStart, pllStart)[HseReadyBit] <==>
      ctrl[HseReadyBit] || now - hseStart >= Clock.HseDelayTicks
  {
  }

  /** Enabling HSE at tick t (which records t) makes HSERDY appear exactly at tick t + 1000. */
  lemma HseReadyAfterDelay(ctrl: Word, t: U64, pllStart: U64, n: nat)
    requires ctrl[HseEnableBit] && !ctrl[HseReadyBit] && t + n < AddressSpace
    ensures TickCtrlTimes(ctrl, t, t, pllStart, n)[HseReadyBit] <==> n >= Clock.HseDelayTicks
  {
    HseReadyTiming(ctrl, t, t, pllStart, n);
  }

  /**
   * pll_start_tick is never written, so PLLRDY is raised on the first tick
   * with PLLEN set once 750 ticks have passed since start-up, however
   * recently PLLEN was set.
   */
  lemma PllReadyIgnoresEnableTime(ctrl: Word, now: U64, hseStart: U64)
    requires ctrl[PllEnableBit] && now >= Clock.PllDelayTicks
    ensures TickCtrl(ctrl, now, hseStart, 0)[PllReadyBit]
  {
  }

  /** Reset values: CTRL 0x83 (HSIEN, HSIRDY, bit 7), AHBCLKEN 0x14, CSTS 0x0C000000, the rest 0. */
  function InitialRegisters(): (regs: seq<Word>)
    ensures |regs| == RegisterCount
  {
    [BitSet({0, 1, 7}), Zero(), Zero(), Zero(), Zero(), BitSet({2, 4}), Zero(), Zero(), Zero(), BitSet({26, 27})]
  }

  class Rcm {
    /** m_registers: the register at offset o is regs[o / 4]. */
    var regs: seq<Word>
    /** m_clock_timing. */
    var ticks: U64
    var hseStartTick: U64
    var pllStartTick: U64
    /** HSI_FREQ, HSE_FREQ and MAX_CPU_FREQ. */
    const sources: Clock.ClockSources

    predicate Valid()
      reads this
    {
      |regs| == RegisterCount
    }

    /**
     * Rcm(hsi, hse, max), and Rcm() with the default sources: the reset
     * values, with HSERDY and PLLRDY cleared, and all counters at 0.
     */
    constructor(sources: Clock.ClockSources)
      ensures Valid() && regs == InitialRegisters()
      ensures ticks == 0 && hseStartTick == 0 && pllStartTick == 0 && this.sources == sources
    {
      this.sources := sources;
      ticks, hseStartTick, pllStartTick := 0, 0, 0;
      var ctrl := BitSet({0, 1, 7});
      ctrl := And(ctrl, Not(BitSet({HseReadyBit, PllReadyBit})));
      assert ctrl == BitSet({0, 1, 7});
      regs := [ctrl, Zero(), Zero(), Zero(), Zero(), BitSet({2, 4}), Zero(), Zero(), Zero(), BitSet({26, 27})];
    }

    /** getBaseAddress, getName and getSize. */
    function Descriptor(): (d: Device)
      ensures d == Device("CMU (rcm)", RcmBase, RcmEnd - RcmBase) && d.size == 0x400
    {
      Device("CMU (rcm)", RcmBase, RcmEnd - RcmBase)
    }

    /**
     * handle_write: a write that is not 4 bytes is ignored and reported
     * handled; otherwise the register at the offset takes RegisterWrite, an
     * unknown offset fails, and a CTRL write turning HSEEN on records the
     * current tick.
     */
    method HandleWrite(address: U64, size: int, value: int) returns (ok: bool)
      requires Valid()
      modifies this
      ensures Valid() && ticks == old(ticks) && pllStartTick == old(pllStartTick)
      ensures size != 4 ==> ok && regs == old(regs) && hseStartTick == old(hseStartTick)
      ensures size == 4 ==> (ok <==> IsRegisterOffset(RegisterOffset(address, RcmBase)))
      ensures size == 4 && !ok ==> regs == old(regs) && hseStartTick == old(hseStartTick)
      ensures size == 4 && ok ==> var o := RegisterOffset(address, RcmBase);
        regs == old(regs)[o / 4 := RegisterWrite(o, old(regs)[o / 4], StoredWord(value))]
      ensures size == 4 && ok ==> var o, v := RegisterOffset(address, RcmBase), StoredWord(value);
        hseStartTick == if o == CtrlOffset && v[HseEnableBit] && !old(regs)[0][HseEnableBit] then ticks else old(hseStartTick)
    {
      if size != 4 {
        return true;
      }
      var o := RegisterOffset(address, RcmBase);
      var data := StoredWord(value);
      if o == CtrlOffset {
        if data[HseEnableBit] && !regs[0][HseEnableBit] {
          hseStartTick := ticks;
        }
        var m := CtrlWriteMask();
        regs := regs[0 := Or(And(regs[0], Not(m)), And(data, m))];
        return true;
      }
      if o == IntOffset {
        regs := regs[2 := IntWrite(regs[2], data)];
        return true;
      }
      if !IsRegisterOffset(o) {
        return false;
      }
      var k := o / 4;
      if o == Apb2rstOffset || o == Apb1rstOffset {
        regs := regs[k := Or(regs[k], And(data, WriteMask(o)))];
        return true;
      }
      var reg := regs[k];
      if o == CstsOffset {
        reg := And(reg, Not(And(data, CstsClearMask())));
      }
      var w := WriteMask(o);
      reg := Or(And(reg, Not(w)), And(data, w));
      regs := regs[k := reg];
      ok := true;
    }

    /**
     * handle_read: without a host instance or with a size other than 4 the
     * read fails and yields nothing; an unknown offset fails and yields 0;
     * otherwise the register's visible value under its read mask.
     */
    method HandleRead(address: U64, size: int, hasInstance: bool) returns (r: ReadReply)
      requires Valid()
      ensures !hasInstance || size != 4 ==> r == ReadReply(false, None)
      ensures hasInstance && size == 4 && !IsRegisterOffset(RegisterOffset(address, RcmBase)) ==> r == ReadReply(false, Some(0))
      ensures hasInstance && size == 4 && IsRegisterOffset(RegisterOffset(address, RcmBase)) ==>
        r == ReadReply(true, Some(ToNat(ReadValue(regs, RegisterOffset(address, RcmBase)))))
    {
      if !hasInstance || size != 4 {
        return ReadReply(false, None);
      }
      var o := RegisterOffset(address, RcmBase);
      if !IsRegisterOffset(o) {
        return ReadReply(false, Some(0));
      }
      var x := regs[o / 4];
      if o == CfgOffset {
        x := Or(x, Shl(And(x, BitSet({0, 1})), 2));
      } else if o == BdctrlOffset || o == CstsOffset {
        x := Or(x, BitSet({1}));
      }
      r := ReadReply(true, Some(ToNat(And(x, ReadMask(o)))));
    }

    /** run_tick: count one tick, then raise PLLRDY and HSERDY when their delays have passed. */
    method RunTick()
      requires Valid()
      modifies this
      ensures Valid() && ticks == (old(ticks) + 1) % AddressSpace
      ensures hseStartTick == old(hseStartTick) && pllStartTick == old(pllStartTick)
      ensures regs == old(regs)[0 := TickCtrl(old(regs)[0], ticks, hseStartTick, pllStartTick)]
    {
      ticks := (ticks + 1) % AddressSpace;
      if regs[0][PllEnableBit] && !regs[0][PllReadyBit] {
        if (ticks - pllStartTick) % AddressSpace >= Clock.PllDelayTicks {
          regs := regs[0 := Or(regs[0], BitSet({PllReadyBit}))];
        }
      }
      if regs[0][HseEnableBit] && !regs[0][HseReadyBit] {
        if (ticks - hseStartTick) % AddressSpace >= Clock.HseDelayTicks {
          regs := regs[0 := Or(regs[0], BitSet({HseReadyBit}))];
        }
      }
    }

    /** is_ahb_clock_enabled: some bit of the mask is set in AHBCLKEN. */
    function IsAhbClockEnabled(mask: Word): (r: bool)
      requires Valid()
      reads this
      ensures r <==> exists i :: 0 <= i < WordBits && regs[5][i] && mask[i]
    {
      AnyCommonBit(regs[AhbclkenOffset / 4], mask)
    }

    /** is_apb2_clock_enabled: some bit of the mask is set in APB2CLKEN. */
    function IsApb2ClockEnabled(mask: Word): (r: bool)
      requires Valid()
      reads this
      ensures r <==> exists i :: 0 <= i < WordBits && regs[6][i] && mask[i]
    {
      AnyCommonBit(regs[Apb2clkenOffset / 4], mask)
    }

    /** is_apb1_clock_enabled: some bit of the mask is set in APB1CLKEN. */
    function IsApb1ClockEnabled(mask: Word): (r: bool)
      requires Valid()
      reads this
      ensures r <==> exists i :: 0 <= i < WordBits && regs[7][i] && mask[i]
    {
      AnyCommonBit(regs[Apb1clkenOffset / 4], mask)
    }

    /** getSysClockFrequency: the same selection as the register-engine RCM, on this CFG. */
    function SysClock(): (f: nat)
      requires Valid()
      reads this
      ensures f == sources.hsi || f == sources.hse || f <= sources.maxCpu
    {
      Clock.SysClockFrequency(regs[CfgOffset / 4], sources)
    }
  }

  /** (reg & mask) != 0. */
  function AnyCommonBit(reg: Word, mask: Word): (r: bool)
    ensures r <==> exists i :: 0 <= i < WordBits && reg[i] && mask[i]
  {
    var both := And(reg, mask);
    if both == Zero() then
      assert forall i :: 0 <= i < WordBits ==> !(reg[i] && mask[i]) by {
        forall i | 0 <= i < WordBits
          ensures !(reg[i] && mask[i])
        {
          assert both[i] == Zero()[i];
        }
      }
      false
    else
      assert exists i :: 0 <= i < WordBits && both[i] != Zero()[i];
      true
  }
}
