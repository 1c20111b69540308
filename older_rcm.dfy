/**
 * The older raw-struct reset and clock manager (Rcm.cpp): the same ten
 * registers and reset values as rcm.cpp, but a generic write path for every
 * register (write-1-to-clear, then masked write), reads that pretend HSI, HSE
 * and PLL are always ready, and a PLL countdown in run_tick that also
 * self-clears the peripheral reset registers.
 *
 * Its header Rcm.h is not part of this model, so the write and read masks,
 * the write-1-to-clear masks and the initial PLL wait count are parameters;
 * the register offsets are taken to be those of rcm.h.
 */
module OlderRcm {
  import opened Wrappers
  import opened Bits
  import opened PeripheralRegistry
  import opened QemuDevice
  import Clock
  import LegacyRcm

  /** The masks Rcm.h defines: per register a write and a read mask, and the INT and CSTS clear masks. */
  datatype Masks = Masks(write: seq<Word>, read: seq<Word>, intClear: Word, cstsClear: Word)
  {
    predicate WellFormed() {
      |write| == LegacyRcm.RegisterCount && |read| == LegacyRcm.RegisterCount
    }

    /** The write-1-to-clear mask of offset o: RCM_INT_RC_MASK, RCM_CSTS_RC_MASK, or none. */
    function ClearMask(o: nat): Word {
      if o == LegacyRcm.IntOffset then intClear
      else if o == LegacyRcm.CstsOffset then cstsClear
      else Zero()
    }
  }

  predicate IsResetRegister(o: nat) {
    o == LegacyRcm.Apb2rstOffset || o == LegacyRcm.Apb1rstOffset
  }

  /**
   * The register at offset o after a 4-byte write of v: the reset registers
   * OR in the writable bits of v; every other register first clears the
   * bits v sets in its clear mask, then takes the writable bits of v.
   */
  function RegisterWrite(m: Masks, o: nat, cur: Word, v: Word): Word
    requires m.WellFormed() && LegacyRcm.IsRegisterOffset(o)
  {
    var w := m.write[o / 4];
    if IsResetRegister(o) then Or(cur, And(v, w))
    else
      var cleared := if m.ClearMask(o) != Zero() then And(cur, Not(And(v, m.ClearMask(o)))) else cur;
      Or(And(cleared, Not(w)), And(v, w))
  }

  /**
   * A write sets a writable bit to v's bit; a bit outside the write mask is
   * kept, or cleared when v sets it in the clear mask; a reset register
   * never loses a bit.
   */
  lemma WriteBits(m: Masks, o: nat, cur: Word, v: Word)
    requires m.WellFormed() && LegacyRcm.IsRegisterOffset(o)
    ensures IsResetRegister(o) ==> forall i :: 0 <= i < WordBits ==>
      RegisterWrite(m, o, cur, v)[i] == (cur[i] || (v[i] && m.write[o / 4][i]))
    ensures !IsResetRegister(o) ==> forall i :: 0 <= i < WordBits ==>
      RegisterWrite(m, o, cur, v)[i] == if m.write[o / 4][i] then v[i] else cur[i] && !(v[i] && m.ClearMask(o)[i])
  {
    if !IsResetRegister(o) && m.ClearMask(o) == Zero() {
      forall i | 0 <= i < WordBits
        ensures !m.ClearMask(o)[i]
      {
        assert m.ClearMask(o)[i] == Zero()[i];
      }
    }
  }

  /**
   * The value handle_read masks: CTRL with HSIRDY, HSERDY and PLLRDY (bits
   * 1, 17, 25) forced on, CFG with SYSCLKSEL copied into bits 3:2, BDCTRL
   * and CSTS with bit 1 forced on.
   */
  function Visible(regs: seq<Word>, o: nat): Word
    requires |regs| == LegacyRcm.RegisterCount && LegacyRcm.IsRegisterOffset(o)
  {
    var x := regs[o / 4];
    if o == LegacyRcm.CtrlOffset then Or(x, BitSet({1, 17, 25}))
    else if o == LegacyRcm.CfgOffset then Or(x, Shl(And(x, BitSet({0, 1})), 2))
    else if o == LegacyRcm.BdctrlOffset || o == LegacyRcm.CstsOffset then Or(x, BitSet({1}))
    else x
  }

  function ReadValue(m: Masks, regs: seq<Word>, o: nat): Word
    requires m.WellFormed() && |regs| == LegacyRcm.RegisterCount && LegacyRcm.IsRegisterOffset(o)
  {
    And(Visible(regs, o), m.read[o / 4])
  }

  /**
   * A CTRL read reports HSIRDY, HSERDY and PLLRDY exactly as the read mask
   * allows, whatever the stored flags and the PLL countdown say.
   */
  lemma CtrlReadClaimsClocksReady(m: Masks, regs: seq<Word>)
    requires m.WellFormed() && |regs| == LegacyRcm.RegisterCount
    ensures forall i :: i in {1, 17, 25} ==> ReadValue(m, regs, LegacyRcm.CtrlOffset)[i] == m.read[0][i]
    ensures forall i :: 0 <= i < WordBits && !(i in {1, 17, 25}) ==>
      ReadValue(m, regs, LegacyRcm.CtrlOffset)[i] == (regs[0][i] && m.read[0][i])
  {
  }

  // ---------------------------------------------------------------------
  // The PLL countdown
  // ---------------------------------------------------------------------

  const PllEnableBit: nat := 24
  const PllReadyBit: nat := 25

  datatype PllState = PllState(ctrl: Word, wait: nat)

  /**
   * One run_tick step of the PLL: while PLLEN is set, PLLRDY is clear and
   * the count is positive, the count drops by one and PLLRDY is set when it
   * reaches 0.
   */
  function PllTick(s: PllState): (r: PllState)
    ensures forall i :: 0 <= i < WordBits && i != PllReadyBit ==> r.ctrl[i] == s.ctrl[i]
  {
    if s.ctrl[PllEnableBit] && !s.ctrl[PllReadyBit] && s.wait > 0 then
      var w := s.wait - 1;
      PllState(if w == 0 then Or(s.ctrl, BitSet({PllReadyBit})) else s.ctrl, w)
    else s
  }

  /** The PLL state after n ticks. */
  function PllTicks(s: PllState, n: nat): PllState
    decreases n
  {
    if n == 0 then s else PllTicks(PllTick(s), n - 1)
  }

  /**
   * With PLLEN set, PLLRDY clear and a count of wait > 0, PLLRDY is set
   * after n ticks exactly when n >= wait, and the count is then wait - n,
   * floored at 0.
   */
  lemma {:induction false} PllReadyAfterWait(s: PllState, n: nat)
    requires s.ctrl[PllEnableBit] && !s.ctrl[PllReadyBit] && s.wait > 0
    ensures PllTicks(s, n).ctrl[PllReadyBit] <==> n >= s.wait
    ensures PllTicks(s, n).wait == if n >= s.wait then 0 else s.wait - n
    ensures PllTicks(s, n).ctrl[PllEnableBit]
    decreases n
  {
    if n > 0 {
      var t := PllTick(s);
      if s.wait == 1 {
        assert t.ctrl[PllReadyBit] && t.wait == 0;
        PllStaysPut(t, n - 1);
      } else {
        PllReadyAfterWait(t, n - 1);
      }
    }
  }

  /**
   * Once the count has run out the PLL state no longer moves: a PLL enabled
   * again after the count is spent never becomes ready.
   */
  lemma {:induction false} PllStaysPut(s: PllState, n: nat)
    requires s.wait == 0
    ensures PllTicks(s, n) == s
    decreases n
  {
    if n > 0 {
      assert PllTick(s) == s;
      PllStaysPut(s, n - 1);
    }
  }

  class Rcm {
    /** m_registers: the register at offset o is regs[o / 4]. */
    var regs: seq<Word>
    /** m_pll_wait_cycles. */
    var pllWaitCycles: nat
    const masks: Masks
    const sources: Clock.ClockSources

    predicate Valid()
      reads this
    {
      |regs| == LegacyRcm.RegisterCount && masks.WellFormed()
    }

    /** Rcm(): the reset values of rcm.cpp, with the PLL count Rcm.h starts from. */
    constructor(masks: Masks, pllWaitCycles: nat, sources: Clock.ClockSources)
      requires masks.WellFormed()
      ensures Valid() && regs == LegacyRcm.InitialRegisters()
      ensures this.pllWaitCycles == pllWaitCycles && this.masks == masks && this.sources == sources
    {
      this.masks, this.pllWaitCycles, this.sources := masks, pllWaitCycles, sources;
      regs := LegacyRcm.InitialRegisters();
    }

    /**
     * handle_write: a write that is not 4 bytes is ignored and reported
     * handled, an unknown offset fails, any other write stores RegisterWrite.
     */
    method HandleWrite(address: U64, size: int, value: int) returns (ok: bool)
      requires Valid()
      modifies this
      ensures Valid() && pllWaitCycles == old(pllWaitCycles)
      ensures ok <==> size != 4 || LegacyRcm.IsRegisterOffset(RegisterOffset(address, LegacyRcm.RcmBase))
      ensures size != 4 || !ok ==> regs == old(regs)
      ensures size == 4 && ok ==> var o := RegisterOffset(address, LegacyRcm.RcmBase);
        regs == old(regs)[o / 4 := RegisterWrite(masks, o, old(regs)[o / 4], StoredWord(value))]
    {
      if size != 4 {
        return true;
      }
      var o := RegisterOffset(address, LegacyRcm.RcmBase);
      var data := StoredWord(value);
      if !LegacyRcm.IsRegisterOffset(o) {
        return false;
      }
      var k := o / 4;
      var w := masks.write[k];
      if IsResetRegister(o) {
        regs := regs[k := Or(regs[k], And(data, w))];
        return true;
      }
      var rc := masks.ClearMask(o);
      var reg := regs[k];
      if rc != Zero() {
        reg := And(reg, Not(And(data, rc)));
      }
      reg := And(reg, Not(w));
      reg := Or(reg, And(data, w));
      regs := regs[k := reg];
      ok := true;
    }

    /**
     * handle_read: a size other than 4 or a missing result pointer fails
     * with nothing written; an unknown offset yields 0 and fails; otherwise
     * the visible value under the read mask.
     */
    method HandleRead(address: U64, size: int, hasResult: bool) returns (r: ReadReply)
      requires Valid()
      ensures size != 4 || !hasResult ==> r == ReadReply(false, None)
      ensures size == 4 && hasResult && !LegacyRcm.IsRegisterOffset(RegisterOffset(address, LegacyRcm.RcmBase)) ==>
        r == ReadReply(false, Some(0))
      ensures size == 4 && hasResult && LegacyRcm.IsRegisterOffset(RegisterOffset(address, LegacyRcm.RcmBase)) ==>
        r == ReadReply(true, Some(ToNat(ReadValue(masks, regs, RegisterOffset(address, LegacyRcm.RcmBase)))))
    {
      if size != 4 || !hasResult {
        return ReadReply(false, None);
      }
      var o := RegisterOffset(address, LegacyRcm.RcmBase);
      if !LegacyRcm.IsRegisterOffset(o) {
        return ReadReply(false, Some(0));
      }
      var x := regs[o / 4];
      if o == LegacyRcm.CtrlOffset {
        x := Or(x, BitSet({1, 17, 25}));
      } else if o == LegacyRcm.CfgOffset {
        x := Or(x, Shl(And(x, BitSet({0, 1})), 2));
      } else if o == LegacyRcm.BdctrlOffset || o == LegacyRcm.CstsOffset {
        x := Or(x, BitSet({1}));
      }
      r := ReadReply(true, Some(ToNat(And(x, masks.read[o / 4]))));
    }

    /** run_tick: one PLL countdown step, then APB2RST and APB1RST clear themselves. */
    method RunTick()
      requires Valid()
      modifies this
      ensures Valid()
      ensures PllState(regs[0], pllWaitCycles) == PllTick(PllState(old(regs)[0], old(pllWaitCycles)))
      ensures regs == old(regs)[0 := regs[0]][3 := Zero()][4 := Zero()]
    {
      if regs[0][PllEnableBit] && !regs[0][PllReadyBit] {
        if pllWaitCycles > 0 {
          pllWaitCycles := pllWaitCycles - 1;
          if pllWaitCycles == 0 {
            regs := regs[0 := Or(regs[0], BitSet({PllReadyBit}))];
          }
        }
      }
      if regs[3] != Zero() {
        regs := regs[3 := Zero()];
      }
      if regs[4] != Zero() {
        regs := regs[4 := Zero()];
      }
    }

    /** getSysClockFrequency: the same selection as rcm.cpp, on this CFG. */
    function SysClock(): (f: nat)
      requires Valid()
      reads this
      ensures f == sources.hsi || f == sources.hse || f <= sources.maxCpu
    {
      Clock.SysClockFrequency(regs[LegacyRcm.CfgOffset / 4], sources)
    }
  }
}
