/**
 * The raw-struct GPIO port (gpio.h, gpio.cpp): a GPIO_TypeDef of 32-bit
 * registers read and written directly. Configuration writes are refused
 * while LOCKKEY (LOCK bit 16) is set, BSC and BC set and clear output bits,
 * and IDATA, being const, always reads 0.
 */
module LegacyGpio {
  import opened Wrappers
  import opened Bits
  import opened PeripheralRegistry
  import opened QemuDevice

  const GpioRegSize: nat := 0x20

  const CfglowOffset: nat := 0x00
  const CfghigOffset: nat := 0x04
  const IdataOffset: nat := 0x08
  const OdataOffset: nat := 0x0C
  const BscOffset: nat := 0x10
  const BcOffset: nat := 0x14
  const LockOffset: nat := 0x18

  const LockKeyBit: nat := 16

  /** The registers handle_write and handle_read act on; IDATA, BSC and BC are never stored. */
  datatype Regs = Regs(cfgLow: Word, cfgHigh: Word, odata: Word, lock: Word)

  /** 0x0000FFFF. */
  function Low16(): Word { Ones(16) }

  /** 0x00010000, the only value that sets LOCKKEY. */
  function LockKey(): Word { BitSet({LockKeyBit}) }

  /** The reset values: CFGLOW and CFGHIG 0x44444444 (floating inputs), the rest 0. */
  function InitialRegs(): Regs {
    var floating := BitSet({2, 6, 10, 14, 18, 22, 26, 30});
    Regs(floating, floating, Zero(), Zero())
  }

  /** ODATA never has a bit above bit 15 set. */
  predicate OutputFits(r: Regs) {
    FitsIn(r.odata, 16)
  }

  /** The LOCK write: the four-way if of handle_write. */
  function LockWrite(lock: Word, v: Word): Word {
    if v == LockKey() then Or(And(lock, Low16()), And(v, Ones(17)))
    else if v == Zero() && lock[LockKeyBit] then Or(And(lock, Low16()), And(v, Ones(17)))
    else Or(And(lock, Not(Low16())), And(v, Low16()))
  }

  /**
   * The registers after a 4-byte write of v at offset o, or None for an
   * offset handle_write rejects. IDATA writes are accepted and ignored.
   */
  function WriteSpec(r: Regs, o: nat, v: Word): Option<Regs> {
    if o == CfglowOffset || o == CfghigOffset then
      if r.lock[LockKeyBit] then Some(r)
      else if o == CfglowOffset then Some(r.(cfgLow := v))
      else Some(r.(cfgHigh := v))
    else if o == IdataOffset then Some(r)
    else if o == OdataOffset then Some(r.(odata := Or(And(r.odata, Not(Low16())), And(v, Low16()))))
    else if o == BscOffset then Some(r.(odata := Or(And(r.odata, Not(And(Shr(v, 16), Low16()))), And(v, Low16()))))
    else if o == BcOffset then Some(r.(odata := And(r.odata, Not(And(v, Low16())))))
    else if o == LockOffset then Some(r.(lock := LockWrite(r.lock, v)))
    else None
  }

  /** The value a 4-byte read at offset o returns: ODATA and IDATA low halves, 0 for BSC, BC and unknown offsets. */
  function ReadSpec(r: Regs, o: nat): Word {
    if o == CfglowOffset then r.cfgLow
    else if o == CfghigOffset then r.cfgHigh
    else if o == IdataOffset then And(Zero(), Low16())
    else if o == OdataOffset then And(r.odata, Low16())
    else if o == LockOffset then r.lock
    else Zero()
  }

  /** Exactly the seven register offsets are writable. */
  lemma WriteAccepts(r: Regs, o: nat, v: Word)
    ensures WriteSpec(r, o, v).Some? <==> o % 4 == 0 && o <= LockOffset
  {
  }

  /**
   * A BSC write: for pins 0 to 15 a set bit wins over a clear bit, a clear
   * bit (v bit pin + 16) clears, and otherwise the pin keeps its level; the
   * upper half of ODATA is untouched.
   */
  lemma BscSetWins(r: Regs, v: Word)
    ensures var o := WriteSpec(r, BscOffset, v).value.odata;
      forall i :: 0 <= i < 16 ==> o[i] == (v[i] || (r.odata[i] && !v[i + 16]))
    ensures var o := WriteSpec(r, BscOffset, v).value.odata;
      forall i :: 16 <= i < WordBits ==> o[i] == r.odata[i]
    ensures WriteSpec(r, BscOffset, v).value.(odata := r.odata) == r
  {
  }

  /** A BC write clears the pins whose bit is set in the low half of v and nothing else. */
  lemma BcClears(r: Regs, v: Word)
    ensures var o := WriteSpec(r, BcOffset, v).value.odata;
      forall i :: 0 <= i < WordBits ==> o[i] == (r.odata[i] && !(i < 16 && v[i]))
    ensures WriteSpec(r, BcOffset, v).value.(odata := r.odata) == r
  {
  }

  /**
   * Reading ODATA after writing it gives the low half of the value; BSC, BC
   * and IDATA always read 0.
   */
  lemma OutputWriteThenRead(r: Regs, v: Word)
    ensures ReadSpec(WriteSpec(r, OdataOffset, v).value, OdataOffset) == And(v, Low16())
    ensures ReadSpec(r, BscOffset) == Zero() && ReadSpec(r, BcOffset) == Zero() && ReadSpec(r, IdataOffset) == Zero()
  {
    var o := WriteSpec(r, OdataOffset, v).value.odata;
    assert And(o, Low16()) == And(v, Low16());
  }

  /** Every accepted write keeps the upper half of ODATA clear. */
  lemma WritesKeepOutputFit(r: Regs, o: nat, v: Word)
    requires OutputFits(r) && WriteSpec(r, o, v).Some?
    ensures OutputFits(WriteSpec(r, o, v).value)
  {
  }

  /**
   * While LOCKKEY is set a configuration write is accepted but changes
   * nothing; while it is clear the value is stored as written.
   */
  lemma ConfigurationLock(r: Regs, o: nat, v: Word)
    requires o == CfglowOffset || o == CfghigOffset
    ensures r.lock[LockKeyBit] ==> WriteSpec(r, o, v) == Some(r)
    ensures !r.lock[LockKeyBit] ==> ReadSpec(WriteSpec(r, o, v).value, o) == v
  {
  }

  /**
   * LOCKKEY is set by writing exactly 0x00010000, cleared by writing 0
   * while it is set, and kept by every other write; bits 15:0 of LOCK are
   * replaced unless the write is one of those two.
   */
  lemma LockKeyTransitions(lock: Word, v: Word)
    ensures LockWrite(lock, v)[LockKeyBit] == if v == LockKey() then true else if v == Zero() then false else lock[LockKeyBit]
    ensures v != LockKey() && !(v == Zero() && lock[LockKeyBit]) ==>
      forall i :: 0 <= i < 16 ==> LockWrite(lock, v)[i] == v[i]
    ensures v == LockKey() || (v == Zero() && lock[LockKeyBit]) ==>
      forall i :: 0 <= i < 16 ==> LockWrite(lock, v)[i] == lock[i]
  {
    if v == Zero() && !lock[LockKeyBit] {
      assert LockWrite(lock, v)[LockKeyBit] == lock[LockKeyBit];
    }
  }

  /**
   * The lock does not hold: after LOCKKEY is set, writing 0 to LOCK
   * releases it and the next configuration write is stored again.
   */
  lemma LockCanBeReleased(r: Regs, v: Word)
    ensures var locked := WriteSpec(r, LockOffset, LockKey()).value;
      var released := WriteSpec(locked, LockOffset, Zero()).value;
      locked.lock[LockKeyBit] && WriteSpec(locked, CfglowOffset, v) == Some(locked) &&
      !released.lock[LockKeyBit] && ReadSpec(WriteSpec(released, CfglowOffset, v).value, CfglowOffset) == v
  {
    var locked := WriteSpec(r, LockOffset, LockKey()).value;
    LockKeyTransitions(r.lock, LockKey());
    assert Zero() != LockKey() by {
      assert LockKey()[LockKeyBit];
    }
    LockKeyTransitions(locked.lock, Zero());
  }

  class Gpio {
    var regs: Regs
    /** m_base_addr and m_port_name. */
    const base: U64
    const portName: string

    predicate Valid()
      reads this
    {
      OutputFits(regs)
    }

    /** Gpio(base_addr, port_name): the reset values. */
    constructor(base: U64, portName: string)
      ensures Valid() && regs == InitialRegs() && this.base == base && this.portName == portName
    {
      this.base, this.portName := base, portName;
      regs := InitialRegs();
    }

    /** getBaseAddress, getName ("GPIO (" + port name + ")") and getSize. */
    function Descriptor(): (d: Device)
      reads this
      ensures d == Device("GPIO (" + portName + ")", base, GpioRegSize)
    {
      Device("GPIO (" + portName + ")", base, GpioRegSize)
    }

    /** is_clock_enabled: always true. */
    function IsClockEnabled(): (r: bool)
      ensures r
    {
      true
    }

    /** handle_read: a size other than 4 fails; otherwise the register's value, 0 at an unknown offset. */
    method HandleRead(address: U64, size: int) returns (r: ReadReply)
      ensures size != 4 ==> r == ReadReply(false, None)
      ensures size == 4 ==> r == ReadReply(true, Some(ToNat(ReadSpec(regs, RegisterOffset(address, base)))))
    {
      if size != 4 {
        return ReadReply(false, None);
      }
      var o := RegisterOffset(address, base);
      var x := Zero();
      if o == CfglowOffset {
        x := regs.cfgLow;
      } else if o == CfghigOffset {
        x := regs.cfgHigh;
      } else if o == IdataOffset {
        x := And(Zero(), Low16());
      } else if o == OdataOffset {
        x := And(regs.odata, Low16());
      } else if o == LockOffset {
        x := regs.lock;
      }
      r := ReadReply(true, Some(ToNat(x)));
    }

    /**
     * handle_write: a size other than 4 and an unknown offset fail and
     * change nothing; any other write stores WriteSpec.
     */
    method HandleWrite(address: U64, size: int, value: int) returns (ok: bool)
      requires Valid()
      modifies this
      ensures Valid()
      ensures ok <==> size == 4 && WriteSpec(old(regs), RegisterOffset(address, base), StoredWord(value)).Some?
      ensures !ok ==> regs == old(regs)
      ensures ok ==> regs == WriteSpec(old(regs), RegisterOffset(address, base), StoredWord(value)).value
    {
      if size != 4 {
        return false;
      }
      var o := RegisterOffset(address, base);
      var v := StoredWord(value);
      if o == CfglowOffset || o == CfghigOffset {
        if !regs.lock[LockKeyBit] {
          if o == CfglowOffset {
            regs := regs.(cfgLow := v);
          } else {
            regs := regs.(cfgHigh := v);
          }
        }
      } else if o == IdataOffset {
      } else if o == OdataOffset {
        regs := regs.(odata := Or(And(regs.odata, Not(Low16())), And(v, Low16())));
      } else if o == BscOffset {
        var setMask := And(v, Low16());
        var clearMask := And(Shr(v, 16), Low16());
        regs := regs.(odata := And(regs.odata, Not(clearMask)));
        regs := regs.(odata := Or(regs.odata, setMask));
      } else if o == BcOffset {
        regs := regs.(odata := And(regs.odata, Not(And(v, Low16()))));
      } else if o == LockOffset {
        var lock := regs.lock;
        if v == LockKey() {
          lock := Or(And(lock, Low16()), And(v, Ones(17)));
        } else if v == Zero() && lock[LockKeyBit] {
          lock := Or(And(lock, Low16()), And(v, Ones(17)));
        } else {
          lock := Or(And(lock, Not(Low16())), And(v, Low16()));
        }
        regs := regs.(lock := lock);
      } else {
        return false;
      }
      WritesKeepOutputFit(old(regs), o, v);
      ok := true;
    }
  }
}
