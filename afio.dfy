/**
 * The alternate-function I/O block (AFIO) at 0x40010000: six plain 32-bit
 * registers in a struct, read and written directly without the register
 * engine. Only REMAP1 is special: its SWJCFG bits 26:24 are write-only and
 * read as 0.
 */
module Stm32Afio {
  import opened Wrappers
  import opened Bits
  import opened PeripheralRegistry
  import opened QemuDevice

  const AfioBase: nat := 0x4001_0000
  const AfioSize: nat := 0x18

  const EvctrlOffset: nat := 0x00
  const Remap1Offset: nat := 0x04
  const Eintsel1Offset: nat := 0x08
  const Eintsel2Offset: nat := 0x0C
  const Eintsel3Offset: nat := 0x10
  const Eintsel4Offset: nat := 0x14

  const RegisterCount: nat := 6

  /** The offsets of EVCTRL, REMAP1 and EINTSEL1 to EINTSEL4. */
  predicate IsRegisterOffset(o: nat) {
    o % 4 == 0 && o <= Eintsel4Offset
  }

  /** AFIO_REMAP1_SWJCFG_MASK: bits 26:24. */
  function SwjcfgMask(): Word {
    seq(WordBits, i requires 0 <= i < WordBits => 24 <= i < 27)
  }

  lemma SwjcfgMaskValue()
    ensures ToNat(SwjcfgMask()) == 0x0700_0000
  {
    HighBitsValue(SwjcfgMask());
  }

  lemma HighBitsValue(m: Word)
    requires forall i :: 0 <= i < WordBits ==> m[i] == (24 <= i < 27)
    ensures ToNat(m) == 0x0700_0000
  {
    ToNatSplit(m, 24);
    var low, high := m[..24], m[24..];
    ZeroIff(low);
    var seven: seq<bool> := [true, true, true, false, false, false, false, false];
    assert high == seven;
    assert ToNat(seven) == 7;
    Pow2Of24();
    assert ToNat(m) == ToNat(low) + 0x100_0000 * ToNat(high);
  }

  /**
   * The two assignments handle_write makes to REMAP1: first the read/write
   * bits from v with SWJCFG kept, then SWJCFG from v with the rest kept.
   * Together they store v itself.
   */
  function Remap1Write(stored: Word, v: Word): (r: Word)
    ensures r == v
  {
    var m := SwjcfgMask();
    var first := Or(And(stored, m), And(v, Not(m)));
    var second := Or(And(first, Not(m)), And(v, m));
    assert forall i :: 0 <= i < WordBits ==> second[i] == v[i];
    second
  }

  /** The registers after a write of v to the register offset o. */
  function WriteSpec(regs: seq<Word>, o: nat, v: Word): (r: seq<Word>)
    requires |regs| == RegisterCount && IsRegisterOffset(o)
    ensures |r| == RegisterCount
  {
    regs[o / 4 := if o == Remap1Offset then Remap1Write(regs[o / 4], v) else v]
  }

  /** The value a read of offset o returns: REMAP1 without SWJCFG, 0 for an unknown offset. */
  function ReadSpec(regs: seq<Word>, o: nat): (r: Word)
    requires |regs| == RegisterCount
    ensures !IsRegisterOffset(o) ==> r == Zero()
    ensures o == Remap1Offset ==> forall i :: 0 <= i < WordBits ==> r[i] == (regs[1][i] && !(24 <= i < 27))
    ensures IsRegisterOffset(o) && o != Remap1Offset ==> r == regs[o / 4]
  {
    if !IsRegisterOffset(o) then Zero()
    else if o == Remap1Offset then And(regs[o / 4], Not(SwjcfgMask()))
    else regs[o / 4]
  }

  /**
   * Reading back a register just written gives the written value, except
   * the SWJCFG bits of REMAP1, which read as 0; no other register changes.
   */
  lemma WriteThenRead(regs: seq<Word>, o: nat, v: Word)
    requires |regs| == RegisterCount && IsRegisterOffset(o)
    ensures o != Remap1Offset ==> ReadSpec(WriteSpec(regs, o, v), o) == v
    ensures o == Remap1Offset ==> ReadSpec(WriteSpec(regs, o, v), o) == And(v, Not(SwjcfgMask()))
    ensures forall p: nat :: IsRegisterOffset(p) && p != o ==> ReadSpec(WriteSpec(regs, o, v), p) == ReadSpec(regs, p)
  {
    forall p: nat | IsRegisterOffset(p) && p != o
      ensures p / 4 != o / 4
    {
    }
  }

  class Afio {
    /** m_registers: EVCTRL, REMAP1, EINTSEL1 to EINTSEL4, by offset / 4. */
    var regs: seq<Word>

    predicate Valid()
      reads this
    {
      |regs| == RegisterCount
    }

    /** Afio(): every register resets to 0. */
    constructor()
      ensures Valid() && regs == seq(RegisterCount, _ => Zero())
    {
      regs := seq(RegisterCount, _ => Zero());
    }

    /** getBaseAddress, getName and getSize. */
    function Descriptor(): (d: Device)
      ensures d == Device("AFIO", AfioBase, AfioSize)
    {
      Device("AFIO", AfioBase, AfioSize)
    }

    /** is_clock_enabled: the AFIO clock gate is not consulted and always reads as enabled. */
    function IsClockEnabled(): (r: bool)
      ensures r
    {
      true
    }

    /**
     * handle_read: a 4-byte read returns the register at the offset (REMAP1
     * without SWJCFG), and 0 for an unknown offset, and succeeds either way.
     */
    method HandleRead(address: U64, size: int) returns (r: ReadReply)
      requires Valid()
      ensures size != 4 ==> r == ReadReply(false, None)
      ensures size == 4 ==> r == ReadReply(true, Some(ToNat(ReadSpec(regs, RegisterOffset(address, AfioBase)))))
    {
      if size != 4 {
        return ReadReply(false, None);
      }
      var o := RegisterOffset(address, AfioBase);
      var x := Zero();
      if o == EvctrlOffset || o == Eintsel1Offset || o == Eintsel2Offset || o == Eintsel3Offset || o == Eintsel4Offset {
        x := regs[o / 4];
      } else if o == Remap1Offset {
        x := And(regs[1], Not(SwjcfgMask()));
      }
      r := ReadReply(true, Some(ToNat(x)));
    }

    /**
     * handle_write: a 4-byte write to a known offset stores the value cast
     * to uint32; any other write fails and changes nothing.
     */
    method HandleWrite(address: U64, size: int, value: int) returns (ok: bool)
      requires Valid()
      modifies this
      ensures Valid()
      ensures ok <==> size == 4 && IsRegisterOffset(RegisterOffset(address, AfioBase))
      ensures !ok ==> regs == old(regs)
      ensures ok ==> regs == WriteSpec(old(regs), RegisterOffset(address, AfioBase), StoredWord(value))
    {
      if size != 4 {
        return false;
      }
      var o := RegisterOffset(address, AfioBase);
      var v := StoredWord(value);
      if !IsRegisterOffset(o) {
        return false;
      }
      if o == Remap1Offset {
        var m := SwjcfgMask();
        var first := Or(And(regs[1], m), And(v, Not(m)));
        regs := regs[1 := first];
        regs := regs[1 := Or(And(regs[1], Not(m)), And(v, m))];
      } else {
        regs := regs[o / 4 := v];
      }
      ok := true;
    }
  }
}
