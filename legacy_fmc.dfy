/**
 * The raw-struct flash memory controller (fmc.h, fmc.cpp): CTRL1, STS,
 * CTRL2 and OBCS are stored, KEY, OBKEY, ADDR and WRTPROT are const members
 * that stay 0. Writing KEY1 then KEY2 to KEY unlocks the controller, and
 * setting LOCK in CTRL2 locks it again; while locked, CTRL2 keeps its value.
 */
module LegacyFmc {
  import opened Wrappers
  import opened Bits
  import opened PeripheralRegistry
  import opened QemuDevice

  const FmcBase: nat := 0x4002_2000
  const FmcRegSize: nat := 0x24

  const Ctrl1Offset: nat := 0x00
  const KeyOffset: nat := 0x04
  const ObkeyOffset: nat := 0x08
  const StsOffset: nat := 0x0C
  const Ctrl2Offset: nat := 0x10
  const AddrOffset: nat := 0x14
  const ObcsOffset: nat := 0x1C
  const WrtprotOffset: nat := 0x20

  /** FMC_CTRL2_LOCK is bit 7. */
  const LockBit: nat := 7

  /** The offsets handle_write accepts. */
  predicate IsRegisterOffset(o: nat) {
    o in {Ctrl1Offset, KeyOffset, ObkeyOffset, StsOffset, Ctrl2Offset, AddrOffset, ObcsOffset, WrtprotOffset}
  }

  /** FMC_KEY1, 0x45670123. */
  function Key1(): Word { Word32(0x4567_0123) }

  /** FMC_KEY2, 0xCDEF89AB. */
  function Key2(): Word { Word32(0xCDEF_89AB) }

  /** FMC_CTRL2_LOCK, 0x00000080. */
  function LockMask(): Word { BitSet({LockBit}) }

  lemma KeysDiffer()
    ensures Key1() != Key2()
  {
    Pow2Word();
    ToNatFromNat(0x4567_0123, WordBits);
    ToNatFromNat(0xCDEF_89AB, WordBits);
  }

  /** The stored registers and the unlock state: m_is_locked and m_key_sequence_step. */
  datatype State = State(ctrl1: Word, sts: Word, ctrl2: Word, obcs: Word, locked: bool, step: nat)

  /** The reset values: CTRL1 0x30, STS 0, CTRL2 0x80 (locked), OBCS 0x03FFFFFC. */
  function InitialState(): (s: State)
    ensures s.locked && s.ctrl2[LockBit] && s.step == 0
  {
    State(BitSet({4, 5}), Zero(), LockMask(), Word32(0x03FF_FFFC), true, 0)
  }

  /** m_is_locked agrees with the LOCK bit of CTRL2. */
  predicate Consistent(s: State) {
    s.locked == s.ctrl2[LockBit]
  }

  /** The KEY write: KEY1 starts the sequence, KEY2 right after it unlocks, anything else restarts it. */
  function KeyWrite(s: State, v: Word): State {
    if v == Key1() then s.(step := 1)
    else if s.step == 1 && v == Key2() then s.(locked := false, ctrl2 := And(s.ctrl2, Not(LockMask())), step := 0)
    else s.(step := 0)
  }

  /**
   * The CTRL2 write: a value with LOCK set locks the controller; an
   * unlocked controller stores the value, a locked one only ORs LOCK in.
   */
  function Ctrl2Write(s: State, v: Word): State {
    var locked := s.locked || v[LockBit];
    var w := if v[LockBit] then Or(v, LockMask()) else v;
    if !locked then s.(ctrl2 := w, locked := locked)
    else s.(ctrl2 := Or(s.ctrl2, And(w, LockMask())), locked := locked)
  }

  /** The state after a 4-byte write of v at offset o, or None when handle_write rejects the offset. */
  function WriteSpec(s: State, o: nat, v: Word): Option<State> {
    if o == Ctrl1Offset then Some(s.(ctrl1 := v))
    else if o == KeyOffset then Some(KeyWrite(s, v))
    else if o == Ctrl2Offset then Some(Ctrl2Write(s, v))
    else if IsRegisterOffset(o) then Some(s)
    else None
  }

  /** The register value handle_read loads: the stored ones, 0 for the const and unknown ones. */
  function ReadSpec(s: State, o: nat): Word {
    if o == Ctrl1Offset then s.ctrl1
    else if o == StsOffset then s.sts
    else if o == Ctrl2Offset then s.ctrl2
    else if o == ObcsOffset then s.obcs
    else Zero()
  }

  /**
   * The uint32 value as the int reg_value holds it, then widened to
   * int64: a value with bit 31 set becomes negative.
   */
  function Signed(w: Word): (r: int)
    ensures r % 0x1_0000_0000 == ToNat(w)
    ensures r < 0 <==> w[31]
    ensures -0x8000_0000 <= r < 0x8000_0000
  {
    WordBound(w);
    SignBit(w);
    if w[31] then ToNat(w) - 0x1_0000_0000 else ToNat(w)
  }

  /** Bit 31 is set exactly when the value is at least 2^31. */
  lemma SignBit(w: Word)
    ensures w[31] <==> ToNat(w) >= 0x8000_0000
  {
    ToNatSplit(w, 31);
    ToNatBound(w[..31]);
    assert w[31..] == [w[31]];
    assert Pow2(31) == 0x8000_0000 by {
      Pow2Add(24, 7);
      Pow2Of24();
    }
  }

  /** Every accepted write keeps m_is_locked in step with CTRL2's LOCK bit. */
  lemma WritesKeepConsistent(s: State, o: nat, v: Word)
    requires Consistent(s) && WriteSpec(s, o, v).Some?
    ensures Consistent(WriteSpec(s, o, v).value)
  {
    if o == KeyOffset {
      var t := KeyWrite(s, v);
      if v != Key1() && s.step == 1 && v == Key2() {
        assert !And(s.ctrl2, Not(LockMask()))[LockBit];
      }
      assert Consistent(t);
    } else if o == Ctrl2Offset {
      var t := Ctrl2Write(s, v);
      if s.locked || v[LockBit] {
        assert Or(s.ctrl2, And(if v[LockBit] then Or(v, LockMask()) else v, LockMask()))[LockBit] == (s.ctrl2[LockBit] || v[LockBit]);
      }
      assert Consistent(t);
    }
  }

  /**
   * Writing KEY1 and then KEY2 unlocks the controller from any state:
   * LOCK is cleared, the other CTRL2 bits and the other registers are kept.
   */
  lemma UnlockSequence(s: State)
    ensures var t := KeyWrite(KeyWrite(s, Key1()), Key2());
      !t.locked && !t.ctrl2[LockBit] && t.step == 0 &&
      t.ctrl1 == s.ctrl1 && t.sts == s.sts && t.obcs == s.obcs &&
      forall i :: 0 <= i < WordBits && i != LockBit ==> t.ctrl2[i] == s.ctrl2[i]
  {
    KeysDiffer();
  }

  /**
   * A KEY write that is neither KEY1 nor KEY2 right after KEY1 restarts
   * the sequence and changes nothing else; KEY2 alone never unlocks.
   */
  lemma WrongKeyRestarts(s: State, v: Word)
    requires v != Key1() && !(s.step == 1 && v == Key2())
    ensures KeyWrite(s, v) == s.(step := 0)
  {
  }

  /** A locked controller is unlocked only by a KEY write. */
  lemma OnlyKeysUnlock(s: State, o: nat, v: Word)
    requires s.locked && o != KeyOffset && WriteSpec(s, o, v).Some?
    ensures WriteSpec(s, o, v).value.locked
    ensures WriteSpec(s, o, v).value.ctrl2[LockBit] == (s.ctrl2[LockBit] || (o == Ctrl2Offset && v[LockBit]))
  {
  }

  /**
   * CTRL2 writes: an unlocked controller stores a value without LOCK as
   * written; a value with LOCK, or any value while locked, changes CTRL2
   * only by setting LOCK.
   */
  lemma Ctrl2WriteEffect(s: State, v: Word)
    ensures !s.locked && !v[LockBit] ==> Ctrl2Write(s, v).ctrl2 == v && !Ctrl2Write(s, v).locked
    ensures s.locked || v[LockBit] ==> Ctrl2Write(s, v).locked
    ensures s.locked || v[LockBit] ==>
      forall i :: 0 <= i < WordBits ==> Ctrl2Write(s, v).ctrl2[i] == (s.ctrl2[i] || (i == LockBit && v[LockBit]))
  {
  }

  class Fmc {
    var ctrl1: Word
    var sts: Word
    var ctrl2: Word
    var obcs: Word
    /** m_is_locked. */
    var isLocked: bool
    /** m_key_sequence_step. */
    var keyStep: nat

    function Snapshot(): State
      reads this
    {
      State(ctrl1, sts, ctrl2, obcs, isLocked, keyStep)
    }

    predicate Valid()
      reads this
    {
      Consistent(Snapshot())
    }

    /** Fmc(): the reset values; locked exactly because CTRL2's LOCK bit is set. */
    constructor()
      ensures Valid() && Snapshot() == InitialState()
    {
      var c2 := LockMask();
      ctrl1, sts, ctrl2, obcs := BitSet({4, 5}), Zero(), c2, Word32(0x03FF_FFFC);
      isLocked := c2[LockBit];
      keyStep := 0;
    }

    /** getBaseAddress, getName and getSize. */
    function Descriptor(): (d: Device)
      ensures d == Device("FMC", FmcBase, FmcRegSize)
    {
      Device("FMC", FmcBase, FmcRegSize)
    }

    /**
     * handle_read: a size other than 4 fails; otherwise the loaded value,
     * sign-extended from int, and the read succeeds whatever the offset.
     */
    method HandleRead(address: U64, size: int) returns (r: ReadReply)
      ensures size != 4 ==> r == ReadReply(false, None)
      ensures size == 4 ==> r == ReadReply(true, Some(Signed(ReadSpec(Snapshot(), RegisterOffset(address, FmcBase)))))
    {
      if size != 4 {
        return ReadReply(false, None);
      }
      var o := RegisterOffset(address, FmcBase);
      var x := Zero();
      if o == Ctrl1Offset {
        x := ctrl1;
      } else if o == StsOffset {
        x := sts;
      } else if o == Ctrl2Offset {
        x := ctrl2;
      } else if o == ObcsOffset {
        x := obcs;
      }
      r := ReadReply(true, Some(Signed(x)));
    }

    /**
     * handle_write: a size other than 4 and an unknown offset fail and
     * change nothing; any other write moves to WriteSpec.
     */
    method HandleWrite(address: U64, size: int, value: int) returns (ok: bool)
      requires Valid()
      modifies this
      ensures Valid()
      ensures ok <==> size == 4 && IsRegisterOffset(RegisterOffset(address, FmcBase))
      ensures !ok ==> Snapshot() == old(Snapshot())
      ensures ok ==> Snapshot() == WriteSpec(old(Snapshot()), RegisterOffset(address, FmcBase), StoredWord(value)).value
    {
      if size != 4 {
        return false;
      }
      var o := RegisterOffset(address, FmcBase);
      var v := StoredWord(value);
      if o == Ctrl1Offset {
        ctrl1 := v;
      } else if o == KeyOffset {
        WriteKey(v);
      } else if o == Ctrl2Offset {
        WriteCtrl2(v);
      } else if !IsRegisterOffset(o) {
        return false;
      }
      WritesKeepConsistent(old(Snapshot()), o, StoredWord(value));
      ok := true;
    }

    /** The KEY case of handle_write: the unlock sequence. */
    method WriteKey(v: Word)
      modifies this
      ensures Snapshot() == KeyWrite(old(Snapshot()), v)
    {
      if v == Key1() {
        keyStep := 1;
      } else if keyStep == 1 && v == Key2() {
        isLocked := false;
        ctrl2 := And(ctrl2, Not(LockMask()));
        keyStep := 0;
      } else {
        keyStep := 0;
      }
    }

    /** The CTRL2 case of handle_write: LOCK locks, and a locked CTRL2 only gains LOCK. */
    method WriteCtrl2(v: Word)
      modifies this
      ensures Snapshot() == Ctrl2Write(old(Snapshot()), v)
    {
      var w := v;
      if w[LockBit] {
        isLocked := true;
        w := Or(w, LockMask());
      }
      if !isLocked {
        ctrl2 := w;
      } else {
        ctrl2 := Or(ctrl2, And(w, LockMask()));
      }
    }
  }
}
