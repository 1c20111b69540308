/**
 * One GPIO port of the STM32/APM32F103 (ports A to E, 0x400 bytes apart from
 * 0x40010800): seven registers, of which CFGLOW, CFGHIG, ODATA, BSC and BC
 * have write callbacks that schedule pin events on the host.
 *
 * The port handles 4-byte accesses only and passes that byte count to the
 * register as its write size, which the register engine reads as a bit
 * count: every write therefore reaches bits 3:0 only, so it can touch pins
 * 0 to 3 of ODATA and the configuration of pin 0 (CFGLOW) or pin 8 (CFGHIG).
 */
module Stm32Gpio {
  import opened Wrappers
  import opened Bits
  import opened RegisterEngine
  import opened PeripheralRegistry
  import opened QemuDevice

  const GpioaBase: nat := 0x4001_0800
  const GpiobBase: nat := 0x4001_0C00
  const GpiocBase: nat := 0x4001_1000
  const GpiodBase: nat := 0x4001_1400
  const GpioeBase: nat := 0x4001_1800
  /** GPIO_REG_SIZE: the window of one port. */
  const GpioSize: nat := 0x20

  const CfgLowOffset: nat := 0x00
  const CfgHighOffset: nat := 0x04
  const IdataOffset: nat := 0x08
  const OdataOffset: nat := 0x0C
  const BscOffset: nat := 0x10
  const BcOffset: nat := 0x14
  const LockOffset: nat := 0x18

  /** Registers sit at 0x00, 0x04, ..., 0x18. */
  const RegisterCount: nat := 7

  /** The only access size the port accepts, in bytes; it is also the size handed to write. */
  const AccessSize: nat := 4

  /** Width of the pin data in ODATA and of a port state. */
  const PinCount: nat := 16

  predicate IsRegisterOffset(o: nat) {
    o % 4 == 0 && o / 4 < RegisterCount
  }

  predicate IsPortBase(base: nat) {
    base == GpioaBase || base == GpiobBase || base == GpiocBase || base == GpiodBase || base == GpioeBase
  }

  /** The port number of the constructor: A to E are 1 to 5; an unknown base gets 1, with a warning. */
  function PortNumber(base: nat): (p: nat)
    ensures 1 <= p <= 5
    ensures IsPortBase(base) ==> base == GpioaBase + 0x400 * (p - 1)
    ensures !IsPortBase(base) ==> p == 1
  {
    if base == GpiobBase then 2
    else if base == GpiocBase then 3
    else if base == GpiodBase then 4
    else if base == GpioeBase then 5
    else 1
  }

  // ---------------------------------------------------------------------
  // Register layouts
  // ---------------------------------------------------------------------

  /** to_string(y) for a pin number. */
  function DecimalName(y: nat): string
    requires y < 16
  {
    if y < 10 then [('0' as int + y) as char] else ['1', ('0' as int + y - 10) as char]
  }

  /**
   * CFGLOW (first = 0) and CFGHIG (first = 8): for each of eight pins y a
   * two-bit MODEy field followed by a two-bit CFGy field, all read-write, so
   * field j covers bits 2j+1:2j.
   */
  function CfgFields(first: nat): seq<BitField>
    requires first <= 8
  {
    seq(16, j requires 0 <= j < 16 =>
      BitField((if j % 2 == 0 then "MODE" else "CFG") + DecimalName(first + j / 2), 2 * j, 2, RW))
  }

  function IdataFields(): seq<BitField> {
    [BitField("IDATA", 0, 16, RO)]
  }

  function OdataFields(): seq<BitField> {
    [BitField("ODATA", 0, 16, RW)]
  }

  function BscFields(): seq<BitField> {
    [BitField("BS", 0, 16, WO), BitField("BC", 16, 16, WO)]
  }

  function BcFields(): seq<BitField> {
    [BitField("BC", 0, 16, WO)]
  }

  function LockFields(): seq<BitField> {
    [BitField("LOCK", 0, 16, RW), BitField("LOCKKEY", 16, 1, RW)]
  }

  function Layout(o: nat): seq<BitField> {
    if o == CfgLowOffset then CfgFields(0)
    else if o == CfgHighOffset then CfgFields(8)
    else if o == IdataOffset then IdataFields()
    else if o == OdataOffset then OdataFields()
    else if o == BscOffset then BscFields()
    else if o == BcOffset then BcFields()
    else if o == LockOffset then LockFields()
    else []
  }

  /** The field table of the register with index k, at offset 4 * k. */
  function LayoutAt(k: nat): seq<BitField> {
    Layout(4 * k)
  }

  /** All seven field tables, by register index. */
  function PortLayouts(): (fss: seq<seq<BitField>>)
    ensures |fss| == RegisterCount
  {
    seq(RegisterCount, k requires 0 <= k < RegisterCount => LayoutAt(k))
  }

  /**
   * The register names. The constructor hands the port name to
   * initialize_registers after moving it into m_port_name, so the registers
   * are built from the emptied string: "GPIO_CFGLOW" and so on.
   */
  function RegisterName(o: nat): string {
    if o == CfgLowOffset then "GPIO_CFGLOW"
    else if o == CfgHighOffset then "GPIO_CFGHIG"
    else if o == IdataOffset then "GPIO_IDATA"
    else if o == OdataOffset then "GPIO_ODATA"
    else if o == BscOffset then "GPIO_BSC"
    else if o == BcOffset then "GPIO_BC"
    else "GPIO_LOCK"
  }

  /** CFGLOW and CFGHIG reset to 0x44444444, bit 2 of every nibble; all others to 0. */
  function ResetValue(o: nat): Word {
    if o == CfgLowOffset || o == CfgHighOffset then seq(WordBits, i requires 0 <= i < WordBits => i % 4 == 2)
    else Zero()
  }

  /** A bit pattern with bit 2 of every nibble set is worth 4 * (2^n - 1) / 15: 0x4, 0x44, 0x444, ... */
  lemma {:induction false} NibblePatternValue(b: seq<bool>)
    requires |b| % 4 == 0 && forall i :: 0 <= i < |b| ==> b[i] == (i % 4 == 2)
    ensures 15 * ToNat(b) == 4 * (Pow2(|b|) - 1)
  {
    if |b| > 0 {
      ToNatSplit(b, 4);
      var low: seq<bool> := [false, false, true, false];
      assert b[..4] == low;
      assert ToNat(low) == 4;
      var rest := b[4..];
      forall i | 0 <= i < |rest|
        ensures rest[i] == (i % 4 == 2)
      {
        assert rest[i] == b[i + 4] && (i + 4) % 4 == i % 4;
      }
      NibblePatternValue(rest);
      Pow2Add(4, |b| - 4);
      assert Pow2(4) == 16;
      assert 15 * ToNat(rest) == 4 * (Pow2(|rest|) - 1);
      assert ToNat(b) == 4 + 16 * ToNat(rest);
    }
  }

  /** The configuration registers reset to 0x44444444. */
  lemma CfgResetValue()
    ensures ToNat(ResetValue(CfgLowOffset)) == 0x4444_4444
    ensures ResetValue(CfgHighOffset) == ResetValue(CfgLowOffset)
  {
    NibblePatternValue(ResetValue(CfgLowOffset));
    Pow2Word();
  }

  /** At reset every pin is configured MODE = 0, CFG = 1: a floating input. */
  lemma ResetPinsFloatingInput(y: nat)
    requires y < 8
    ensures var w := ResetValue(CfgLowOffset);
      !w[4 * y] && !w[4 * y + 1] && w[4 * y + 2] && !w[4 * y + 3]
  {
  }

  /** A field table inside the word, in ascending order. */
  predicate SoundLayout(fs: seq<BitField>) {
    WithinWord(fs) && Ascending(fs)
  }

  lemma CfgSound(first: nat)
    requires first <= 8
    ensures SoundLayout(CfgFields(first))
  {
  }

  /** Every register's fields lie in the word and are pairwise disjoint. */
  lemma LayoutsSound()
    ensures forall k :: 0 <= k < RegisterCount ==> SoundLayout(LayoutAt(k)) && Disjoint(LayoutAt(k))
  {
    forall k | 0 <= k < RegisterCount
      ensures SoundLayout(LayoutAt(k)) && Disjoint(LayoutAt(k))
    {
      if k < 2 {
        CfgSound(4 * k * 2);
      }
      AscendingDisjoint(LayoutAt(k));
    }
  }

  /** find_field("ODATA") on ODATA: its only field. */
  lemma OdataFind(r: Register)
    requires r.Valid() && r.fields == LayoutAt(OdataOffset / 4)
    ensures r.FindField("ODATA") == Some(0)
    ensures r.fields[0] == BitField("ODATA", 0, 16, RW)
  {
  }

  // ---------------------------------------------------------------------
  // Specification of a write
  // ---------------------------------------------------------------------

  /** `static_cast<uint16_t>(x & 0xFFFF)`: the pin state carried by an event. */
  function PinState(w: Word): (s: seq<bool>)
    ensures |s| == PinCount && forall i :: 0 <= i < PinCount ==> s[i] == w[i]
  {
    w[..PinCount]
  }

  /** `time - circTime` in uint64: the delay an event is scheduled with. */
  function EventTime(mcuTime: U64, circTime: U64): (t: U64)
    ensures circTime <= mcuTime ==> t == mcuTime - circTime
  {
    (mcuTime - circTime) % AddressSpace
  }

  /** The events one action puts on the heap. */
  function Scheduled(a: Option<EventAction>, t: U64): seq<ScheduledEvent> {
    match a
    case None => []
    case Some(x) => [ScheduledEvent(t, x)]
  }

  /**
   * The ODATA field callback, given what the ODATA write fired and the
   * ODATA word it stored: the stored pin data or-ed with the callback value,
   * as a pin-set event for this port.
   */
  function PinEvent(port: nat, fired: seq<Firing>, odata: Word): Option<EventAction> {
    match FiringOf(fired, 0)
    case None => None
    case Some(x) => Some(PinSet(port, PinState(Or(Extract(odata, 0, 16), x))))
  }

  /**
   * An event scheduled `time - circTime` ahead, on a callback the simulator
   * records at circTime plus that delay, is due exactly at the MCU time.
   */
  lemma PendingAtMcuTime(mcuTime: U64, circTime: U64)
    ensures Pending(EventTime(mcuTime, circTime), circTime) == mcuTime
  {
    var t := EventTime(mcuTime, circTime);
    assert (t + circTime) % AddressSpace == mcuTime by {
      if circTime <= mcuTime {
        assert t + circTime == mcuTime;
      } else {
        assert t == mcuTime - circTime + AddressSpace;
        assert t + circTime == mcuTime + AddressSpace;
      }
    }
  }

  /** The event a write of w over the ODATA word prior schedules, if any. */
  function OdataAction(ofs: seq<BitField>, port: nat, prior: Word, w: Word): Option<EventAction> {
    PinEvent(port, WriteOutcomeOf(ofs, prior, w, AccessSize).fired, EffectiveValue(ofs, prior, w, AccessSize))
  }

  /**
   * The BSC and BC register callbacks: from the value the register callback
   * receives and the current ODATA field, the new ODATA field value they
   * write through set_field_value, or None when they return early (nothing
   * to set or clear, or no change).
   */
  function OdataRequest(o: nat, regValue: Word, cur: Word): Option<Word> {
    if o == BscOffset then
      var clear := And(Shr(regValue, 16), Ones(16));
      var setMask := And(regValue, Ones(16));
      if setMask == Zero() && clear == Zero() then None
      else
        var n := Or(And(cur, Not(clear)), setMask);
        if n == cur then None else Some(n)
    else if o == BcOffset then
      var clear := And(regValue, Ones(16));
      if clear == Zero() then None
      else
        var n := And(cur, Not(clear));
        if n == cur then None else Some(n)
    else None
  }

  /** The stored words after a write and the event it schedules. */
  datatype WriteEffect = WriteEffect(values: seq<Word>, action: Option<EventAction>)

  /**
   * A 4-byte write of v at register offset o, given the field tables and
   * stored words of all registers: the register write itself, then its
   * callbacks. CFGLOW and CFGHIG always schedule a configuration event with
   * the value the register callback receives; ODATA's field callback
   * schedules a pin event when it fires; BSC and BC may rewrite ODATA
   * through set_field_value, whose write runs ODATA's callback.
   */
  function WriteSpec(fss: seq<seq<BitField>>, port: nat, values: seq<Word>, o: nat, v: Word): WriteEffect
    requires |fss| == |values| == RegisterCount && IsRegisterOffset(o)
  {
    var k := o / 4;
    var od := OdataOffset / 4;
    var eff := EffectiveValue(fss[k], values[k], v, AccessSize);
    var after := values[k := eff];
    if o == CfgLowOffset || o == CfgHighOffset then
      WriteEffect(after, Some(PortConfig(port, And(eff, WriteMask(AccessSize)), if o == CfgLowOffset then 0 else 8)))
    else if o == OdataOffset then
      WriteEffect(after, OdataAction(fss[od], port, values[od], v))
    else
      match OdataRequest(o, And(eff, WriteMask(AccessSize)), Extract(values[od], 0, 16))
      case None => WriteEffect(after, None)
      case Some(n) =>
        var w := Insert(values[od], 0, 16, n);
        WriteEffect(after[od := EffectiveValue(fss[od], values[od], w, AccessSize)], OdataAction(fss[od], port, values[od], w))
  }

  // ---------------------------------------------------------------------
  // Properties of a write
  // ---------------------------------------------------------------------

  /** Some of the low four bits differ between two words. */
  predicate LowNibbleDiffers(a: Word, b: Word) {
    exists i :: 0 <= i < AccessSize && a[i] != b[i]
  }

  /**
   * A 4-byte access reaches bits 3:0 only: whatever the field tables, no
   * write changes bit 4 or above of any register.
   */
  lemma WriteKeepsHighBits(fss: seq<seq<BitField>>, port: nat, values: seq<Word>, o: nat, v: Word)
    requires |fss| == |values| == RegisterCount && IsRegisterOffset(o)
    ensures var e := WriteSpec(fss, port, values, o, v);
      |e.values| == RegisterCount &&
      forall k, i :: 0 <= k < RegisterCount && AccessSize <= i < WordBits ==> e.values[k][i] == values[k][i]
  {
    var od := OdataOffset / 4;
    WriteKeepsBitsOutsideMask(fss[o / 4], values[o / 4], v, AccessSize);
    var eff := EffectiveValue(fss[o / 4], values[o / 4], v, AccessSize);
    if o == BscOffset || o == BcOffset {
      match OdataRequest(o, And(eff, WriteMask(AccessSize)), Extract(values[od], 0, 16)) {
        case None =>
        case Some(n) =>
          WriteKeepsBitsOutsideMask(fss[od], values[od], Insert(values[od], 0, 16, n), AccessSize);
      }
    }
  }

  /**
   * A write to ODATA stores bits 3:0 of v and keeps the rest; the ODATA
   * callback then schedules the new pin data exactly when one of pins 0 to 3
   * changed.
   */
  lemma OdataWriteEffect(fss: seq<seq<BitField>>, port: nat, values: seq<Word>, v: Word)
    requires |fss| == |values| == RegisterCount && fss[OdataOffset / 4] == OdataFields()
    ensures var e := WriteSpec(fss, port, values, OdataOffset, v);
      var prior := values[OdataOffset / 4];
      var stored := e.values[OdataOffset / 4];
      && e.values == values[OdataOffset / 4 := stored]
      && (forall i :: 0 <= i < WordBits ==> stored[i] == if i < AccessSize then v[i] else prior[i])
      && e.action == if LowNibbleDiffers(prior, v) then Some(PinSet(port, PinState(stored))) else None
  {
    var fs := OdataFields();
    var prior := values[OdataOffset / 4];
    LowWrite(fs, prior, v, AccessSize, 0);
    LowWriteFiring(fs, prior, v, AccessSize, 0);
    var stored := EffectiveValue(fs, prior, v, AccessSize);
    var x := Extract(stored, 0, 16);
    assert PinState(Or(x, x)) == PinState(stored);
  }

  /** The BSC callback's clear mask is always 0: the register callback only ever sees bits 3:0. */
  lemma BscClearMaskZero(eff: Word)
    ensures And(Shr(And(eff, WriteMask(AccessSize)), 16), Ones(16)) == Zero()
  {
  }

  /**
   * set_field_value("ODATA", 4, n) with n a 16-bit value differing from the
   * current pin data only in bits 3:0: ODATA takes n's low four bits, and
   * the ODATA callback schedules the new pin data.
   */
  lemma OdataRewrite(port: nat, prior: Word, n: Word)
    requires FitsIn(n, 16) && n != Extract(prior, 0, 16)
    requires forall i :: AccessSize <= i < WordBits ==> n[i] == Extract(prior, 0, 16)[i]
    ensures var w := Insert(prior, 0, 16, n);
      var stored := EffectiveValue(OdataFields(), prior, w, AccessSize);
      && (forall i :: 0 <= i < WordBits ==> stored[i] == if i < AccessSize then n[i] else prior[i])
      && OdataAction(OdataFields(), port, prior, w) == Some(PinSet(port, PinState(stored)))
  {
    var fs := OdataFields();
    var w := Insert(prior, 0, 16, n);
    ClampFits(n, 16);
    ExtractBits(prior, 0, 16);
    assert forall i :: 0 <= i < WordBits ==> w[i] == if i < 16 then n[i] else prior[i];
    var i :| 0 <= i < WordBits && n[i] != Extract(prior, 0, 16)[i];
    assert i < AccessSize && prior[i] != w[i];
    LowWrite(fs, prior, w, AccessSize, 0);
    LowWriteFiring(fs, prior, w, AccessSize, 0);
    var stored := EffectiveValue(fs, prior, w, AccessSize);
    var x := Extract(stored, 0, 16);
    assert PinState(Or(x, x)) == PinState(stored);
  }

  /** The value the BSC register callback receives: bits 3:0 of v. */
  lemma BscRegisterValue(prior: Word, v: Word)
    ensures forall i :: 0 <= i < WordBits ==>
      And(EffectiveValue(BscFields(), prior, v, AccessSize), WriteMask(AccessSize))[i] == (i < AccessSize && v[i])
  {
    AscendingDisjoint(BscFields());
    LowWrite(BscFields(), prior, v, AccessSize, 0);
  }

  /** The value the BC register callback receives: bits 3:0 of v. */
  lemma BcRegisterValue(prior: Word, v: Word)
    ensures forall i :: 0 <= i < WordBits ==>
      And(EffectiveValue(BcFields(), prior, v, AccessSize), WriteMask(AccessSize))[i] == (i < AccessSize && v[i])
  {
    LowWrite(BcFields(), prior, v, AccessSize, 0);
  }

  /**
   * The BSC callback asks for a new ODATA field exactly when v sets one of
   * pins 0 to 3 that is clear; the request is the pin data with those pins set.
   */
  lemma BscRequest(bscPrior: Word, prior: Word, v: Word)
    ensures var r := OdataRequest(BscOffset, And(EffectiveValue(BscFields(), bscPrior, v, AccessSize), WriteMask(AccessSize)), Extract(prior, 0, 16));
      && (r.Some? <==> exists i :: 0 <= i < AccessSize && v[i] && !prior[i])
      && (r.Some? ==>
            FitsIn(r.value, 16) && r.value != Extract(prior, 0, 16) &&
            forall i :: 0 <= i < WordBits ==> r.value[i] == ((i < 16 && prior[i]) || (i < AccessSize && v[i])))
  {
    var eff := EffectiveValue(BscFields(), bscPrior, v, AccessSize);
    var regValue := And(eff, WriteMask(AccessSize));
    BscRegisterValue(bscPrior, v);
    BscClearMaskZero(eff);
    var cur := Extract(prior, 0, 16);
    ExtractBits(prior, 0, 16);
    var setMask := And(regValue, Ones(16));
    var n := Or(And(cur, Not(Zero())), setMask);
    assert forall i :: 0 <= i < WordBits ==> n[i] == ((i < 16 && prior[i]) || (i < AccessSize && v[i]));
    if exists i :: 0 <= i < AccessSize && v[i] && !prior[i] {
      var i :| 0 <= i < AccessSize && v[i] && !prior[i];
      assert n[i] != cur[i];
    } else if setMask != Zero() {
      assert n == cur;
    }
  }

  /**
   * The BC callback asks for a new ODATA field exactly when v clears one of
   * pins 0 to 3 that is set; the request is the pin data with those pins clear.
   */
  lemma BcRequest(bcPrior: Word, prior: Word, v: Word)
    ensures var r := OdataRequest(BcOffset, And(EffectiveValue(BcFields(), bcPrior, v, AccessSize), WriteMask(AccessSize)), Extract(prior, 0, 16));
      && (r.Some? <==> exists i :: 0 <= i < AccessSize && v[i] && prior[i])
      && (r.Some? ==>
            FitsIn(r.value, 16) && r.value != Extract(prior, 0, 16) &&
            forall i :: 0 <= i < WordBits ==> r.value[i] == (i < 16 && prior[i] && !(i < AccessSize && v[i])))
  {
    var eff := EffectiveValue(BcFields(), bcPrior, v, AccessSize);
    var regValue := And(eff, WriteMask(AccessSize));
    BcRegisterValue(bcPrior, v);
    var cur := Extract(prior, 0, 16);
    ExtractBits(prior, 0, 16);
    var clear := And(regValue, Ones(16));
    var n := And(cur, Not(clear));
    assert forall i :: 0 <= i < WordBits ==> n[i] == (i < 16 && prior[i] && !(i < AccessSize && v[i]));
    if exists i :: 0 <= i < AccessSize && v[i] && prior[i] {
      var i :| 0 <= i < AccessSize && v[i] && prior[i];
      assert n[i] != cur[i];
    } else if clear != Zero() {
      assert n == cur;
    }
  }

  /**
   * What a write of v to BSC does to ODATA: pins 0 to 3 whose bit in v is
   * set are set, nothing is ever cleared (the BC half of BSC is beyond the
   * write mask), and a pin event follows exactly when some pin was newly set.
   */
  lemma BscWriteEffect(fss: seq<seq<BitField>>, port: nat, values: seq<Word>, v: Word)
    requires |fss| == |values| == RegisterCount
    requires fss[OdataOffset / 4] == OdataFields() && fss[BscOffset / 4] == BscFields()
    ensures var e := WriteSpec(fss, port, values, BscOffset, v);
      var prior := values[OdataOffset / 4];
      var odata := e.values[OdataOffset / 4];
      && |e.values| == RegisterCount
      && (forall i :: 0 <= i < WordBits ==> odata[i] == if i < AccessSize then prior[i] || v[i] else prior[i])
      && e.action == if exists i :: 0 <= i < AccessSize && v[i] && !prior[i] then Some(PinSet(port, PinState(odata))) else None
  {
    var prior := values[OdataOffset / 4];
    BscRequest(values[BscOffset / 4], prior, v);
    var r := OdataRequest(BscOffset, And(EffectiveValue(BscFields(), values[BscOffset / 4], v, AccessSize), WriteMask(AccessSize)), Extract(prior, 0, 16));
    if r.Some? {
      ExtractBits(prior, 0, 16);
      OdataRewrite(port, prior, r.value);
    }
  }

  /**
   * What a write of v to BC does to ODATA: pins 0 to 3 whose bit in v is set
   * are cleared, and a pin event follows exactly when some pin was cleared.
   */
  lemma BcWriteEffect(fss: seq<seq<BitField>>, port: nat, values: seq<Word>, v: Word)
    requires |fss| == |values| == RegisterCount
    requires fss[OdataOffset / 4] == OdataFields() && fss[BcOffset / 4] == BcFields()
    ensures var e := WriteSpec(fss, port, values, BcOffset, v);
      var prior := values[OdataOffset / 4];
      var odata := e.values[OdataOffset / 4];
      && |e.values| == RegisterCount
      && (forall i :: 0 <= i < WordBits ==> odata[i] == if i < AccessSize then prior[i] && !v[i] else prior[i])
      && e.action == if exists i :: 0 <= i < AccessSize && v[i] && prior[i] then Some(PinSet(port, PinState(odata))) else None
  {
    var prior := values[OdataOffset / 4];
    BcRequest(values[BcOffset / 4], prior, v);
    var r := OdataRequest(BcOffset, And(EffectiveValue(BcFields(), values[BcOffset / 4], v, AccessSize), WriteMask(AccessSize)), Extract(prior, 0, 16));
    if r.Some? {
      ExtractBits(prior, 0, 16);
      OdataRewrite(port, prior, r.value);
    }
  }

  /** A 4-byte write to CFGLOW or CFGHIG stores bits 3:0 of v: the MODE and CFG fields of the first pin. */
  lemma CfgLowNibble(first: nat, prior: Word, v: Word)
    requires first == 0 || first == 8
    ensures forall i :: 0 <= i < WordBits ==>
      EffectiveValue(CfgFields(first), prior, v, AccessSize)[i] == if i < AccessSize then v[i] else prior[i]
  {
    var fs := CfgFields(first);
    CfgSound(first);
    AscendingDisjoint(fs);
    WriteKeepsBitsOutsideMask(fs, prior, v, AccessSize);
    WriteFieldPolicy(fs, prior, v, AccessSize, 0);
    WriteFieldPolicy(fs, prior, v, AccessSize, 1);
    assert FieldMask(fs[0])[0] && FieldMask(fs[0])[1] && FieldMask(fs[1])[2] && FieldMask(fs[1])[3];
  }

  /**
   * Every write to CFGLOW or CFGHIG schedules a configuration event, whether
   * or not it changed anything, and the configuration it carries holds bits
   * 3:0 of v (pin 0, or pin 8) and zeros above.
   */
  lemma CfgWriteEvent(fss: seq<seq<BitField>>, port: nat, values: seq<Word>, o: nat, v: Word)
    requires |fss| == |values| == RegisterCount && (o == CfgLowOffset || o == CfgHighOffset)
    requires fss[o / 4] == CfgFields(if o == CfgLowOffset then 0 else 8)
    ensures var e := WriteSpec(fss, port, values, o, v);
      var stored := e.values[o / 4];
      && e.values == values[o / 4 := stored]
      && (forall i :: 0 <= i < WordBits ==> stored[i] == if i < AccessSize then v[i] else values[o / 4][i])
      && e.action.Some? && e.action.value.PortConfig?
      && e.action.value.shift == (if o == CfgLowOffset then 0 else 8)
      && forall i :: 0 <= i < WordBits ==> e.action.value.config[i] == (i < AccessSize && v[i])
  {
    CfgLowNibble(if o == CfgLowOffset then 0 else 8, values[o / 4], v);
  }

  /** Writes to IDATA change nothing and schedule nothing: its only field is read-only. */
  lemma IdataWriteIgnored(fss: seq<seq<BitField>>, port: nat, values: seq<Word>, v: Word)
    requires |fss| == |values| == RegisterCount && fss[IdataOffset / 4] == IdataFields()
    ensures WriteSpec(fss, port, values, IdataOffset, v) == WriteEffect(values, None)
  {
    var fs := IdataFields();
    var prior := values[IdataOffset / 4];
    WriteKeepsBitsOutsideMask(fs, prior, v, AccessSize);
    WriteFieldPolicy(fs, prior, v, AccessSize, 0);
    assert forall i :: 0 <= i < AccessSize ==> FieldMask(fs[0])[i];
    assert EffectiveValue(fs, prior, v, AccessSize) == prior;
    assert values[IdataOffset / 4 := prior] == values;
  }

  /** A write to LOCK stores bits 3:0 of v and schedules nothing: the LOCKKEY callback does nothing. */
  lemma LockWriteEffect(fss: seq<seq<BitField>>, port: nat, values: seq<Word>, v: Word)
    requires |fss| == |values| == RegisterCount && fss[LockOffset / 4] == LockFields()
    ensures var e := WriteSpec(fss, port, values, LockOffset, v);
      var stored := e.values[LockOffset / 4];
      && e.action.None?
      && e.values == values[LockOffset / 4 := stored]
      && forall i :: 0 <= i < WordBits ==> stored[i] == if i < AccessSize then v[i] else values[LockOffset / 4][i]
  {
    var fs := LockFields();
    AscendingDisjoint(fs);
    LowWrite(fs, values[LockOffset / 4], v, AccessSize, 0);
  }

  /** A read returns the stored word with write-only bits cleared: BSC always reads 0, BC reads without bits 15:0. */
  lemma ReadsMaskWriteOnly(o: nat, w: Word)
    requires IsRegisterOffset(o)
    ensures o == BscOffset ==> ClearWriteOnly(Layout(o), |Layout(o)|, w) == Zero()
    ensures o == BcOffset ==> forall i :: 0 <= i < WordBits ==> ClearWriteOnly(Layout(o), |Layout(o)|, w)[i] == (16 <= i && w[i])
    ensures o != BscOffset && o != BcOffset ==> ClearWriteOnly(Layout(o), |Layout(o)|, w) == w
  {
    var fs := Layout(o);
    if o == BscOffset || o == BcOffset {
      forall i | 0 <= i < WordBits
        ensures ClearWriteOnly(fs, |fs|, w)[i] == (w[i] && !WriteOnlyBit(fs, |fs|, i))
      {
        ClearWriteOnlyBits(fs, |fs|, w, i);
      }
      forall i | 0 <= i < WordBits
        ensures WriteOnlyBit(fs, |fs|, i) == (i < 16 || o == BscOffset)
      {
        if i < 16 {
          assert FieldMask(fs[0])[i];
        } else if o == BscOffset {
          assert FieldMask(fs[1])[i];
        }
      }
    } else {
      ClearWriteOnlyWithoutWO(fs, |fs|, w);
    }
  }

  // ---------------------------------------------------------------------
  // The port
  // ---------------------------------------------------------------------

  class Gpio {
    /** m_registers: the register at offset o is regs[o / 4]. */
    const regs: seq<Register>
    const base: U64
    const portName: string
    /** m_port: 1 to 5 for ports A to E. */
    const port: nat

    ghost predicate Valid() {
      |regs| == RegisterCount &&
      (forall k :: 0 <= k < |regs| ==> regs[k].Valid() && regs[k].offset == 4 * k) &&
      (forall k {:trigger LayoutAt(k)} :: 0 <= k < |regs| ==> regs[k].fields == LayoutAt(k))
    }

    /** The stored value of every register, by index. */
    ghost function Values(): seq<Word>
      reads regs
    {
      seq(|regs|, k requires 0 <= k < |regs| reads regs => regs[k].value)
    }

    /** The field table of every register, by index. */
    ghost function Tables(): seq<seq<BitField>> {
      seq(|regs|, k requires 0 <= k < |regs| => regs[k].fields)
    }

    /** Gpio(base_addr, port_name): the registers at their reset values and the port number of the base. */
    constructor(base: U64, portName: string)
      ensures Valid()
      ensures Tables() == PortLayouts()
      ensures forall k :: 0 <= k < |regs| ==> regs[k].value == ResetValue(4 * k)
      ensures this.base == base && this.portName == portName && port == PortNumber(base)
    {
      var rs: seq<Register> := [];
      var k := 0;
      while k < RegisterCount
        invariant k <= RegisterCount && |rs| == k
        invariant forall j :: 0 <= j < k ==>
          rs[j].Valid() && rs[j].offset == 4 * j && rs[j].fields == LayoutAt(j) && rs[j].value == ResetValue(4 * j)
      {
        var r := new Register(4 * k, RegisterName(4 * k), LayoutAt(k), ResetValue(4 * k));
        rs := rs + [r];
        k := k + 1;
      }
      regs := rs;
      this.base := base;
      this.portName := portName;
      port := PortNumber(base);
    }

    /** getBaseAddress, getName and getSize. */
    function Descriptor(): (d: Device)
      ensures d.base == base && d.size == GpioSize && d.name == "GPIO (" + portName + ")"
    {
      Device("GPIO (" + portName + ")", base, GpioSize)
    }

    /**
     * The ODATA field callback, on the outcome of an ODATA write: when the
     * field fired, schedule the stored pin data or-ed with the callback
     * value, at the MCU time less the simulator's time.
     */
    method OdataCallback(out: WriteOutcome, t: U64, circTime: U64, sched: Scheduler)
      requires Valid()
      modifies sched
      ensures var evs := Scheduled(PinEvent(port, out.fired, regs[OdataOffset / 4].value), t);
        && sched.heap == old(sched.heap) + evs
        && sched.State() == ArmEach(old(sched.State()), Times(evs), circTime)
    {
      match FiringOf(out.fired, 0) {
        case None =>
        case Some(x) =>
          var odata := regs[OdataOffset / 4];
          OdataFind(odata);
          var current := odata.GetFieldNonIntrusive("ODATA");
          sched.ScheduleEvent(t, PinSet(port, PinState(Or(current, x))), circTime);
      }
    }

    /**
     * handle_write: only 4-byte writes to a registered offset succeed; the
     * value is cast to uint32 and written with size 4, and the register's
     * callbacks run: CFGLOW and CFGHIG schedule a configuration event, ODATA
     * a pin event when pins changed, BSC and BC rewrite ODATA through
     * set_field_value when the pin data changes.
     */
    method HandleWrite(address: U64, size: int, value: int, mcuTime: U64, circTime: U64, sched: Scheduler) returns (ok: bool)
      requires Valid()
      modifies regs, sched
      ensures ok <==> size == 4 && IsRegisterOffset(RegisterOffset(address, base))
      ensures !ok ==> Values() == old(Values()) && sched.heap == old(sched.heap) && sched.State() == old(sched.State())
      ensures ok ==>
        var e := WriteSpec(Tables(), port, old(Values()), RegisterOffset(address, base), StoredWord(value));
        var evs := Scheduled(e.action, EventTime(mcuTime, circTime));
        && Values() == e.values
        && sched.heap == old(sched.heap) + evs
        && sched.State() == ArmEach(old(sched.State()), Times(evs), circTime)
    {
      if size != 4 {
        return false;
      }
      var o := RegisterOffset(address, base);
      if !IsRegisterOffset(o) {
        return false;
      }
      var v := StoredWord(value);
      var t := EventTime(mcuTime, circTime);
      var reg := regs[o / 4];
      var out := reg.Write(v, AccessSize);
      ok := true;
      ghost var written := old(Values())[o / 4 := reg.value];
      assert Values() == written;
      if o == CfgLowOffset || o == CfgHighOffset {
        sched.ScheduleEvent(t, PortConfig(port, out.registerValue, if o == CfgLowOffset then 0 else 8), circTime);
      } else if o == OdataOffset {
        OdataCallback(out, t, circTime, sched);
      } else {
        RequestCallback(o, out.registerValue, t, circTime, sched);
        assert Values() == written[OdataOffset / 4 := regs[OdataOffset / 4].value];
      }
    }

    /**
     * The BSC and BC register callbacks: compute the requested ODATA field
     * from the stored pin data and, when there is one, write it with
     * set_field_value, whose write runs the ODATA callback. For the other
     * registers (IDATA, LOCK) nothing happens.
     */
    method RequestCallback(o: nat, regValue: Word, t: U64, circTime: U64, sched: Scheduler)
      requires Valid()
      modifies regs[OdataOffset / 4], sched
      ensures var prior := old(regs[OdataOffset / 4].value);
        var ofs := regs[OdataOffset / 4].fields;
        match OdataRequest(o, regValue, Extract(prior, 0, 16))
        case None =>
          regs[OdataOffset / 4].value == prior && sched.heap == old(sched.heap) && sched.State() == old(sched.State())
        case Some(n) =>
          var w := Insert(prior, 0, 16, n);
          var evs := Scheduled(OdataAction(ofs, port, prior, w), t);
          && regs[OdataOffset / 4].value == EffectiveValue(ofs, prior, w, AccessSize)
          && sched.heap == old(sched.heap) + evs
          && sched.State() == ArmEach(old(sched.State()), Times(evs), circTime)
    {
      var odata := regs[OdataOffset / 4];
      OdataFind(odata);
      var current := odata.GetFieldNonIntrusive("ODATA");
      match OdataRequest(o, regValue, current) {
        case None =>
        case Some(n) =>
          var res := odata.SetField("ODATA", AccessSize, n);
          OdataCallback(res.value, t, circTime, sched);
      }
    }

    /**
     * handle_read: a 4-byte read of a registered offset returns the stored
     * word with write-only bits cleared; an unregistered offset yields 0 and
     * fails. The result pointer is not checked.
     */
    method HandleRead(address: U64, size: int) returns (r: ReadReply)
      requires Valid()
      modifies regs
      ensures Values() == old(Values())
      ensures size != 4 ==> r == ReadReply(false, None)
      ensures size == 4 && !IsRegisterOffset(RegisterOffset(address, base)) ==> r == ReadReply(false, Some(0))
      ensures size == 4 && IsRegisterOffset(RegisterOffset(address, base)) ==>
        var o := RegisterOffset(address, base);
        r == ReadReply(true, Some(ToNat(ClearWriteOnly(Tables()[o / 4], |Tables()[o / 4]|, old(Values())[o / 4]))))
    {
      if size != 4 {
        return ReadReply(false, None);
      }
      var o := RegisterOffset(address, base);
      if !IsRegisterOffset(o) {
        return ReadReply(false, Some(0));
      }
      var reg := regs[o / 4];
      NoHooksKeepStorage(reg.fields, |reg.fields|, reg.value, NoFieldHook);
      var x := reg.Read(NoFieldHook, NoRegisterHook);
      r := ReadReply(true, Some(ToNat(x)));
      assert Values() == old(Values());
    }
  }

  /** A valid port's registers carry the port's field tables. */
  lemma TablesOfValid(g: Gpio)
    requires g.Valid()
    ensures g.Tables() == PortLayouts()
  {
  }
}
