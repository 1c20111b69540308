/**
 * The flash memory controller (FMC) at 0x40022000, built on the register
 * engine: eight registers with field tables and no callbacks.
 *
 * Like the GPIO ports, the controller passes the byte count 4 to the
 * register as its write size, which the register engine reads as a bit
 * count, so an MMIO write reaches bits 3:0 only. There is no key sequence:
 * the LOCK bit of CTRL2 (bit 7) is out of reach of every write and stays
 * at its reset value 1.
 */
module Stm32Fmc {
  import opened Wrappers
  import opened Bits
  import opened RegisterEngine
  import opened PeripheralRegistry
  import opened QemuDevice

  const FmcBase: nat := 0x4002_2000
  const FmcSize: nat := 0x24

  const Ctrl1Offset: nat := 0x00
  const KeyOffset: nat := 0x04
  const ObkeyOffset: nat := 0x08
  const StsOffset: nat := 0x0C
  const Ctrl2Offset: nat := 0x10
  const AddrOffset: nat := 0x14
  const ObcsOffset: nat := 0x1C
  const WrtprotOffset: nat := 0x20

  const RegisterCount: nat := 8

  /** The byte count handed to Register::write. */
  const AccessSize: nat := 4

  /** The offsets with a register: 0x00 to 0x20 in steps of 4, except 0x18. */
  predicate IsRegisterOffset(o: nat) {
    o % 4 == 0 && o <= WrtprotOffset && o != 0x18
  }

  /** The offset of the register with index k: the registers in offset order. */
  function OffsetOf(k: nat): nat {
    if k < 6 then 4 * k else 4 * k + 4
  }

  /** The index of the register at offset o. */
  function Index(o: nat): nat {
    if o < 0x18 then o / 4 else o / 4 - 1
  }

  /** The register map holds exactly eight offsets, each at its own index. */
  lemma RegisterOffsets()
    ensures forall o :: IsRegisterOffset(o) <==> exists k :: 0 <= k < RegisterCount && OffsetOf(k) == o
    ensures forall k :: 0 <= k < RegisterCount ==> Index(OffsetOf(k)) == k
    ensures forall o :: IsRegisterOffset(o) ==> Index(o) < RegisterCount && OffsetOf(Index(o)) == o
  {
    forall o | IsRegisterOffset(o)
      ensures exists k :: 0 <= k < RegisterCount && OffsetOf(k) == o
    {
      assert OffsetOf(Index(o)) == o;
    }
  }

  // ---------------------------------------------------------------------
  // Layouts and reset values
  // ---------------------------------------------------------------------

  function Ctrl1Fields(): seq<BitField> {
    [BitField("WS", 0, 3, RW), BitField("HCAEN", 3, 1, RW), BitField("PBEN", 4, 1, RW), BitField("PBSF", 5, 1, RO)]
  }

  function KeyFields(): seq<BitField> {
    [BitField("KEY", 0, 32, WO)]
  }

  function ObkeyFields(): seq<BitField> {
    [BitField("OBKEY", 0, 32, WO)]
  }

  function StsFields(): seq<BitField> {
    [BitField("BUSYF", 0, 1, RO), BitField("PEF", 2, 1, RW), BitField("WPEF", 4, 1, RW), BitField("OCF", 5, 1, RW)]
  }

  function Ctrl2Fields(): seq<BitField> {
    [BitField("PG", 0, 1, RW), BitField("PAGEERA", 1, 1, RW), BitField("MASSERA", 2, 1, RW),
     BitField("OBP", 4, 1, RW), BitField("OBE", 5, 1, RW), BitField("STA", 6, 1, RW),
     BitField("LOCK", 7, 1, RW), BitField("OBWEN", 9, 1, RW), BitField("ERRIE", 10, 1, RW),
     BitField("OCIE", 12, 1, RW)]
  }

  function AddrFields(): seq<BitField> {
    [BitField("ADDR", 0, 32, WO)]
  }

  function ObcsFields(): seq<BitField> {
    [BitField("OBE", 0, 1, RO), BitField("READPROT", 1, 1, RO), BitField("UOB", 2, 8, RO),
     BitField("DATA0", 10, 8, RO), BitField("DATA1", 18, 8, RO)]
  }

  function WrtprotFields(): seq<BitField> {
    [BitField("WRTPROT", 0, 32, RO)]
  }

  function Layout(o: nat): seq<BitField> {
    if o == Ctrl1Offset then Ctrl1Fields()
    else if o == KeyOffset then KeyFields()
    else if o == ObkeyOffset then ObkeyFields()
    else if o == StsOffset then StsFields()
    else if o == Ctrl2Offset then Ctrl2Fields()
    else if o == AddrOffset then AddrFields()
    else if o == ObcsOffset then ObcsFields()
    else if o == WrtprotOffset then WrtprotFields()
    else []
  }

  /** The field table of the register with index k. */
  function LayoutAt(k: nat): seq<BitField> {
    Layout(OffsetOf(k))
  }

  /** All eight field tables, by register index. */
  function FmcLayouts(): (fss: seq<seq<BitField>>)
    ensures |fss| == RegisterCount
  {
    seq(RegisterCount, k requires 0 <= k < RegisterCount => LayoutAt(k))
  }

  function RegisterName(o: nat): string {
    if o == Ctrl1Offset then "FMC_CTRL1"
    else if o == KeyOffset then "FMC_KEY"
    else if o == ObkeyOffset then "FMC_OBKEY"
    else if o == StsOffset then "FMC_STS"
    else if o == Ctrl2Offset then "FMC_CTRL2"
    else if o == AddrOffset then "FMC_ADDR"
    else if o == ObcsOffset then "FMC_OBCS"
    else "FMC_WRTPROT"
  }

  /**
   * CTRL1 resets to 0x30 (bits 4 and 5), CTRL2 to 0x80 (LOCK), OBCS to
   * 0x03FFFFFC (bits 2 to 25), WRTPROT to all ones; the others to 0.
   */
  function ResetValue(o: nat): Word {
    if o == Ctrl1Offset then seq(WordBits, i requires 0 <= i < WordBits => i == 4 || i == 5)
    else if o == Ctrl2Offset then seq(WordBits, i requires 0 <= i < WordBits => i == 7)
    else if o == ObcsOffset then seq(WordBits, i requires 0 <= i < WordBits => 2 <= i < 26)
    else if o == WrtprotOffset then Ones(WordBits)
    else Zero()
  }

  lemma Ctrl1ResetValue()
    ensures ToNat(ResetValue(Ctrl1Offset)) == 0x30
  {
    var c1: seq<bool> := [false, false, false, false, true, true, false, false];
    assert ResetValue(Ctrl1Offset)[..8] == c1;
    LowByteValue(ResetValue(Ctrl1Offset), c1);
  }

  lemma Ctrl2ResetValue()
    ensures ToNat(ResetValue(Ctrl2Offset)) == 0x80
  {
    var c2: seq<bool> := [false, false, false, false, false, false, false, true];
    assert ResetValue(Ctrl2Offset)[..8] == c2;
    LowByteValue(ResetValue(Ctrl2Offset), c2);
  }

  lemma ObcsResetValue()
    ensures ToNat(ResetValue(ObcsOffset)) == 0x03FF_FFFC
  {
    var ob := ResetValue(ObcsOffset);
    ToNatSplit(ob, 2);
    ZeroIff(ob[..2]);
    OnesValue(ob[2..], 24);
    Pow2Of24();
  }

  /** The reset values as numbers. */
  lemma ResetValues()
    ensures ToNat(ResetValue(Ctrl1Offset)) == 0x30
    ensures ToNat(ResetValue(Ctrl2Offset)) == 0x80
    ensures ToNat(ResetValue(ObcsOffset)) == 0x03FF_FFFC
    ensures ToNat(ResetValue(WrtprotOffset)) == 0xFFFF_FFFF
    ensures forall o :: o in {KeyOffset, ObkeyOffset, StsOffset, AddrOffset} ==> ResetValue(o) == Zero()
  {
    Ctrl1ResetValue();
    Ctrl2ResetValue();
    ObcsResetValue();
    OnesValue(Ones(WordBits), WordBits);
    Pow2Word();
  }

  /** A field table inside the word, in ascending order. */
  predicate SoundLayout(fs: seq<BitField>) {
    WithinWord(fs) && Ascending(fs)
  }

  lemma LayoutSound(k: nat)
    requires k < RegisterCount
    ensures SoundLayout(LayoutAt(k)) && Disjoint(LayoutAt(k))
  {
    var fs := LayoutAt(k);
    if k == 0 {
      assert fs == Ctrl1Fields();
    } else if k == 1 {
      assert fs == KeyFields();
    } else if k == 2 {
      assert fs == ObkeyFields();
    } else if k == 3 {
      assert fs == StsFields();
    } else if k == 4 {
      assert fs == Ctrl2Fields();
    } else if k == 5 {
      assert fs == AddrFields();
    } else if k == 6 {
      assert fs == ObcsFields();
    } else {
      assert fs == WrtprotFields();
    }
    TableSound(fs);
  }

  /** Each of the eight field tables is sound and disjoint. */
  lemma TableSound(fs: seq<BitField>)
    requires fs in {Ctrl1Fields(), KeyFields(), ObkeyFields(), StsFields(), Ctrl2Fields(), AddrFields(), ObcsFields(), WrtprotFields()}
    ensures SoundLayout(fs) && Disjoint(fs)
  {
    assert SoundLayout(fs);
    AscendingDisjoint(fs);
  }

  /** Every register's fields lie in the word and are pairwise disjoint. */
  lemma LayoutsSound()
    ensures forall k :: 0 <= k < RegisterCount ==> SoundLayout(LayoutAt(k)) && Disjoint(LayoutAt(k))
  {
    forall k | 0 <= k < RegisterCount
      ensures SoundLayout(LayoutAt(k)) && Disjoint(LayoutAt(k))
    {
      LayoutSound(k);
    }
  }

  // ---------------------------------------------------------------------
  // Writes and reads
  // ---------------------------------------------------------------------

  /** The register values after a write of v at the registered offset o. */
  function WriteSpec(fss: seq<seq<BitField>>, values: seq<Word>, o: nat, v: Word): (r: seq<Word>)
    requires |fss| == |values| == RegisterCount && IsRegisterOffset(o)
    ensures |r| == RegisterCount
  {
    RegisterOffsets();
    var k := Index(o);
    values[k := EffectiveValue(fss[k], values[k], v, AccessSize)]
  }

  /** A write changes only the addressed register, and only its bits 3:0. */
  lemma WriteKeepsHighBits(fss: seq<seq<BitField>>, values: seq<Word>, o: nat, v: Word)
    requires |fss| == |values| == RegisterCount && IsRegisterOffset(o)
    ensures forall k :: 0 <= k < RegisterCount && k != Index(o) ==> WriteSpec(fss, values, o, v)[k] == values[k]
    ensures forall k, i :: 0 <= k < RegisterCount && AccessSize <= i < WordBits ==> WriteSpec(fss, values, o, v)[k][i] == values[k][i]
  {
    RegisterOffsets();
    var k := Index(o);
    WriteKeepsBitsOutsideMask(fss[k], values[k], v, AccessSize);
  }

  /**
   * Read-only fields keep their bits: a write leaves OBCS and WRTPROT as
   * they were, and BUSYF (STS bit 0) too.
   */
  lemma ReadOnlyRegistersKeep(fss: seq<seq<BitField>>, values: seq<Word>, o: nat, v: Word)
    requires |fss| == |values| == RegisterCount && IsRegisterOffset(o)
    requires fss[Index(ObcsOffset)] == ObcsFields() && fss[Index(WrtprotOffset)] == WrtprotFields()
    requires fss[Index(StsOffset)] == StsFields()
    ensures WriteSpec(fss, values, o, v)[Index(ObcsOffset)] == values[Index(ObcsOffset)]
    ensures WriteSpec(fss, values, o, v)[Index(WrtprotOffset)] == values[Index(WrtprotOffset)]
    ensures WriteSpec(fss, values, o, v)[Index(StsOffset)][0] == values[Index(StsOffset)][0]
  {
    RegisterOffsets();
    var k := Index(o);
    var fs, prior := fss[k], values[k];
    var eff := EffectiveValue(fs, prior, v, AccessSize);
    WriteKeepsBitsOutsideMask(fs, prior, v, AccessSize);
    if o == ObcsOffset {
      AscendingDisjoint(fs);
      WriteFieldPolicy(fs, prior, v, AccessSize, 0);
      WriteFieldPolicy(fs, prior, v, AccessSize, 1);
      WriteFieldPolicy(fs, prior, v, AccessSize, 2);
      forall i | 0 <= i < WordBits
        ensures eff[i] == prior[i]
      {
        if i < 2 {
          assert FieldMask(fs[i])[i];
        } else if i < AccessSize {
          assert FieldMask(fs[2])[i];
        }
      }
    } else if o == WrtprotOffset {
      WriteFieldPolicy(fs, prior, v, AccessSize, 0);
      assert forall i :: 0 <= i < WordBits ==> FieldMask(fs[0])[i];
    } else if o == StsOffset {
      AscendingDisjoint(fs);
      WriteFieldPolicy(fs, prior, v, AccessSize, 0);
      assert FieldMask(fs[0])[0];
    }
  }

  /** A write to KEY, OBKEY or ADDR stores bits 3:0 of v and keeps bits 31:4. */
  lemma WriteOnlyRegisterWrite(fss: seq<seq<BitField>>, values: seq<Word>, o: nat, v: Word)
    requires |fss| == |values| == RegisterCount && o in {KeyOffset, ObkeyOffset, AddrOffset}
    requires fss[Index(o)] == Layout(o)
    ensures forall i :: 0 <= i < WordBits ==>
      WriteSpec(fss, values, o, v)[Index(o)][i] == if i < AccessSize then v[i] else values[Index(o)][i]
  {
    var fs := Layout(o);
    LowWrite(fs, values[Index(o)], v, AccessSize, 0);
  }

  /** A write to CTRL1 sets WS and HCAEN (bits 3:0) from v; PBEN and the RO flag PBSF keep their values. */
  lemma Ctrl1Write(fss: seq<seq<BitField>>, values: seq<Word>, v: Word)
    requires |fss| == |values| == RegisterCount && fss[Index(Ctrl1Offset)] == Ctrl1Fields()
    ensures forall i :: 0 <= i < WordBits ==>
      WriteSpec(fss, values, Ctrl1Offset, v)[Index(Ctrl1Offset)][i] == if i < AccessSize then v[i] else values[Index(Ctrl1Offset)][i]
  {
    var fs, prior := Ctrl1Fields(), values[Index(Ctrl1Offset)];
    AscendingDisjoint(fs);
    WriteKeepsBitsOutsideMask(fs, prior, v, AccessSize);
    WriteFieldPolicy(fs, prior, v, AccessSize, 0);
    WriteFieldPolicy(fs, prior, v, AccessSize, 1);
    assert FieldMask(fs[0])[0] && FieldMask(fs[0])[1] && FieldMask(fs[0])[2] && FieldMask(fs[1])[3];
  }

  /**
   * A write to STS sets PEF (bit 2) from v, keeps BUSYF (bit 0) and clears
   * the reserved bits 1 and 3, which no field covers; bits 31:4 are kept.
   */
  lemma StsWrite(fss: seq<seq<BitField>>, values: seq<Word>, v: Word)
    requires |fss| == |values| == RegisterCount && fss[Index(StsOffset)] == StsFields()
    ensures var prior, r := values[Index(StsOffset)], WriteSpec(fss, values, StsOffset, v)[Index(StsOffset)];
      && r[0] == prior[0] && !r[1] && r[2] == v[2] && !r[3]
      && forall i :: AccessSize <= i < WordBits ==> r[i] == prior[i]
  {
    var fs, prior := StsFields(), values[Index(StsOffset)];
    AscendingDisjoint(fs);
    WriteKeepsBitsOutsideMask(fs, prior, v, AccessSize);
    WriteClearsUncoveredBits(fs, prior, v, AccessSize);
    WriteFieldPolicy(fs, prior, v, AccessSize, 0);
    WriteFieldPolicy(fs, prior, v, AccessSize, 1);
    assert FieldMask(fs[0])[0] && FieldMask(fs[1])[2];
    assert WriteMask(AccessSize)[1] && WriteMask(AccessSize)[3];
  }

  /**
   * A write to CTRL2 sets PG, PAGEERA and MASSERA (bits 2:0) from v, clears
   * the reserved bit 3 and keeps bits 31:4, so LOCK (bit 7) never changes.
   */
  lemma Ctrl2Write(fss: seq<seq<BitField>>, values: seq<Word>, v: Word)
    requires |fss| == |values| == RegisterCount && fss[Index(Ctrl2Offset)] == Ctrl2Fields()
    ensures var prior, r := values[Index(Ctrl2Offset)], WriteSpec(fss, values, Ctrl2Offset, v)[Index(Ctrl2Offset)];
      && r[0] == v[0] && r[1] == v[1] && r[2] == v[2] && !r[3]
      && forall i :: AccessSize <= i < WordBits ==> r[i] == prior[i]
  {
    var fs, prior := Ctrl2Fields(), values[Index(Ctrl2Offset)];
    AscendingDisjoint(fs);
    WriteKeepsBitsOutsideMask(fs, prior, v, AccessSize);
    WriteClearsUncoveredBits(fs, prior, v, AccessSize);
    WriteFieldPolicy(fs, prior, v, AccessSize, 0);
    WriteFieldPolicy(fs, prior, v, AccessSize, 1);
    WriteFieldPolicy(fs, prior, v, AccessSize, 2);
    assert FieldMask(fs[0])[0] && FieldMask(fs[1])[1] && FieldMask(fs[2])[2];
    assert WriteMask(AccessSize)[3];
  }

  /** KEY, OBKEY and ADDR read as 0; every other register reads as stored. */
  lemma ReadsMaskWriteOnly(o: nat, w: Word)
    requires IsRegisterOffset(o)
    ensures o in {KeyOffset, ObkeyOffset, AddrOffset} ==> ClearWriteOnly(Layout(o), |Layout(o)|, w) == Zero()
    ensures o !in {KeyOffset, ObkeyOffset, AddrOffset} ==> ClearWriteOnly(Layout(o), |Layout(o)|, w) == w
  {
    var fs := Layout(o);
    if o in {KeyOffset, ObkeyOffset, AddrOffset} {
      forall i | 0 <= i < WordBits
        ensures ClearWriteOnly(fs, |fs|, w)[i] == false
      {
        ClearWriteOnlyBits(fs, |fs|, w, i);
        assert FieldMask(fs[0])[i];
      }
    } else {
      ClearWriteOnlyWithoutWO(fs, |fs|, w);
    }
  }

  // ---------------------------------------------------------------------
  // The controller
  // ---------------------------------------------------------------------

  class Fmc {
    /** m_registers, in offset order: the register at offset o is regs[Index(o)]. */
    const regs: seq<Register>

    ghost predicate Valid() {
      |regs| == RegisterCount &&
      (forall k :: 0 <= k < |regs| ==> regs[k].Valid() && regs[k].offset == OffsetOf(k)) &&
      (forall k {:trigger LayoutAt(k)} :: 0 <= k < |regs| ==> regs[k].fields == LayoutAt(k))
    }

    /** The stored value of every register, by index. */
    ghost function Values(): seq<Word>
      reads regs
    {
      seq(|regs|, k requires 0 <= k < |regs| reads regs => regs[k].value)
    }

    /** The field table of every register, by index. */
    ghost function Tables(): seq<seq<BitField>> {
      seq(|regs|, k requires 0 <= k < |regs| => regs[k].fields)
    }

    /** Fmc(): initialize_registers puts the eight registers at their reset values. */
    constructor()
      ensures Valid()
      ensures Tables() == FmcLayouts()
      ensures forall k :: 0 <= k < |regs| ==> regs[k].value == ResetValue(OffsetOf(k))
    {
      var rs: seq<Register> := [];
      var k := 0;
      while k < RegisterCount
        invariant k <= RegisterCount && |rs| == k
        invariant forall j :: 0 <= j < k ==>
          rs[j].Valid() && rs[j].offset == OffsetOf(j) && rs[j].fields == LayoutAt(j) && rs[j].value == ResetValue(OffsetOf(j))
      {
        var r := new Register(OffsetOf(k), RegisterName(OffsetOf(k)), LayoutAt(k), ResetValue(OffsetOf(k)));
        rs := rs + [r];
        k := k + 1;
      }
      regs := rs;
    }

    /** getBaseAddress, getName and getSize. */
    function Descriptor(): (d: Device)
      ensures d == Device("FMC", FmcBase, FmcSize)
    {
      Device("FMC", FmcBase, FmcSize)
    }

    /**
     * handle_write: only 4-byte writes to a registered offset succeed; the
     * value is cast to uint32 and written with size 4. Nothing else happens:
     * no key sequence, no lock logic.
     */
    method HandleWrite(address: U64, size: int, value: int) returns (ok: bool)
      requires Valid()
      modifies regs
      ensures ok <==> size == 4 && IsRegisterOffset(RegisterOffset(address, FmcBase))
      ensures !ok ==> Values() == old(Values())
      ensures ok ==> Values() == WriteSpec(Tables(), old(Values()), RegisterOffset(address, FmcBase), StoredWord(value))
    {
      if size != 4 {
        return false;
      }
      var o := RegisterOffset(address, FmcBase);
      if !IsRegisterOffset(o) {
        return false;
      }
      RegisterOffsets();
      var reg := regs[Index(o)];
      var _ := reg.Write(StoredWord(value), AccessSize);
      ok := true;
      assert Values() == old(Values())[Index(o) := reg.value];
    }

    /**
     * handle_read: a 4-byte read of a registered offset returns the stored
     * word with write-only bits cleared; an unregistered offset yields 0 and
     * fails.
     */
    method HandleRead(address: U64, size: int) returns (r: ReadReply)
      requires Valid()
      modifies regs
      ensures Values() == old(Values())
      ensures size != 4 ==> r == ReadReply(false, None)
      ensures size == 4 && !IsRegisterOffset(RegisterOffset(address, FmcBase)) ==> r == ReadReply(false, Some(0))
      ensures size == 4 && IsRegisterOffset(RegisterOffset(address, FmcBase)) ==>
        var k := Index(RegisterOffset(address, FmcBase));
        k < RegisterCount && r == ReadReply(true, Some(ToNat(ClearWriteOnly(Tables()[k], |Tables()[k]|, old(Values())[k]))))
    {
      if size != 4 {
        return ReadReply(false, None);
      }
      var o := RegisterOffset(address, FmcBase);
      if !IsRegisterOffset(o) {
        return ReadReply(false, Some(0));
      }
      RegisterOffsets();
      var reg := regs[Index(o)];
      NoHooksKeepStorage(reg.fields, |reg.fields|, reg.value, NoFieldHook);
      var x := reg.Read(NoFieldHook, NoRegisterHook);
      r := ReadReply(true, Some(ToNat(x)));
      assert Values() == old(Values());
    }
  }

  /** A valid controller's registers carry the controller's field tables. */
  lemma TablesOfValid(f: Fmc)
    requires f.Valid()
    ensures f.Tables() == FmcLayouts()
  {
  }

  /**
   * Since no write reaches bit 7 of CTRL2, the flash stays locked: from
   * reset, CTRL2's LOCK bit reads 1 after any write.
   */
  lemma LockNeverClears(values: seq<Word>, o: nat, v: Word)
    requires |values| == RegisterCount && IsRegisterOffset(o)
    requires values[Index(Ctrl2Offset)][7]
    ensures WriteSpec(FmcLayouts(), values, o, v)[Index(Ctrl2Offset)][7]
    ensures var w := WriteSpec(FmcLayouts(), values, o, v)[Index(Ctrl2Offset)];
      ClearWriteOnly(Ctrl2Fields(), |Ctrl2Fields()|, w)[7]
  {
    WriteKeepsHighBits(FmcLayouts(), values, o, v);
    ReadsMaskWriteOnly(Ctrl2Offset, WriteSpec(FmcLayouts(), values, o, v)[Index(Ctrl2Offset)]);
  }
}
