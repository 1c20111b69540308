/**
 * The Unicorn host adapter's own logic: scheduled events and their
 * time-ordered heap, MMIO routing into the peripheral registry, the reset
 * vector, the instruction-budget guards, the hook return values and the
 * memory map.
 */
module QemuDevice {
  import opened Wrappers
  import opened Bits
  import opened PeripheralRegistry

  // ---------------------------------------------------------------------
  // Scheduled events
  // ---------------------------------------------------------------------

  /**
   * What an event does when it runs: drive a port's pins from a 16-bit
   * state, or reconfigure a port from a CFGLOW/CFGHIG value and a pin shift.
   */
  datatype EventAction =
    | NoAction
    | PinSet(port: nat, state: seq<bool>)
    | PortConfig(port: nat, config: Word, shift: nat)

  datatype ScheduledEvent = ScheduledEvent(time: U64, action: EventAction)

  /** A default-constructed event: time 0 and no action. */
  function DefaultEvent(): (e: ScheduledEvent)
    ensures e.time == 0 && e.action.NoAction?
  {
    ScheduledEvent(0, NoAction)
  }

  /** EventComparator: a orders below b in the max-heap when it is later. */
  predicate Later(a: ScheduledEvent, b: ScheduledEvent) {
    a.time > b.time
  }

  /** The comparator is a strict order: irreflexive and transitive. */
  lemma LaterIsStrictOrder(a: ScheduledEvent, b: ScheduledEvent, c: ScheduledEvent)
    ensures !Later(a, a)
    ensures Later(a, b) && Later(b, c) ==> Later(a, c)
    ensures Later(a, b) ==> !Later(b, a)
  {
  }

  /** The heap top under EventComparator: no event is earlier. */
  predicate IsTop(heap: seq<ScheduledEvent>, e: ScheduledEvent) {
    e in heap && forall x :: x in heap ==> !Later(e, x)
  }

  /** The top is an event with the smallest scheduled time. */
  lemma TopIsEarliest(heap: seq<ScheduledEvent>, e: ScheduledEvent)
    requires IsTop(heap, e)
    ensures forall x :: x in heap ==> e.time <= x.time
  {
  }

  /** The index of the first event of smallest time. */
  method EarliestIndex(heap: seq<ScheduledEvent>) returns (k: nat)
    requires |heap| > 0
    ensures k < |heap| && IsTop(heap, heap[k])
  {
    k := 0;
    var i := 1;
    while i < |heap|
      invariant 1 <= i <= |heap| && k < i
      invariant forall j :: 0 <= j < i ==> heap[k].time <= heap[j].time
    {
      if heap[i].time < heap[k].time {
        k := i;
      }
      i := i + 1;
    }
  }

  /** The scheduled times of a sequence of events, in order. */
  function Times(evs: seq<ScheduledEvent>): (ts: seq<U64>)
    ensures |ts| == |evs| && forall i :: 0 <= i < |evs| ==> ts[i] == evs[i].time
  {
    seq(|evs|, i requires 0 <= i < |evs| => evs[i].time)
  }

  /**
   * The absolute time Simulator::addEvent records in the device's eventTime
   * for a callback requested `time` after the simulator's current time
   * circTime (uint64).
   */
  function Pending(time: U64, circTime: U64): (p: U64)
    ensures time + circTime < AddressSpace ==> p == time + circTime
  {
    (time + circTime) % AddressSpace
  }

  /** The device's side of the simulator's event list: its eventTime and every callback time it asked for. */
  datatype Arming = Arming(eventTime: U64, armed: seq<U64>)

  /**
   * Offering the callback times ts in order, each with the guard
   * `eventTime == 0`: a callback is asked for only while none is pending,
   * and asking records it as pending.
   */
  function ArmEach(s: Arming, ts: seq<U64>, circTime: U64): Arming
    decreases |ts|
  {
    if |ts| == 0 then s
    else
      var p := ArmEach(s, ts[..|ts| - 1], circTime);
      var t := ts[|ts| - 1];
      if p.eventTime == 0 then Arming(Pending(t, circTime), p.armed + [t]) else p
  }

  /** One more time offered after ts. */
  lemma ArmEachAppend(s: Arming, ts: seq<U64>, t: U64, circTime: U64)
    ensures ArmEach(s, ts + [t], circTime) ==
      var p := ArmEach(s, ts, circTime);
      if p.eventTime == 0 then Arming(Pending(t, circTime), p.armed + [t]) else p
  {
    assert (ts + [t])[..|ts|] == ts;
  }

  /**
   * While no requested time lands on absolute time 0, the guard lets through
   * at most one callback: the first time offered, and only when none was
   * pending; otherwise nothing changes.
   */
  lemma {:induction false} ArmsAtMostOnce(s: Arming, ts: seq<U64>, circTime: U64)
    requires forall i :: 0 <= i < |ts| ==> Pending(ts[i], circTime) != 0
    ensures ArmEach(s, ts, circTime) ==
      if s.eventTime == 0 && |ts| > 0 then Arming(Pending(ts[0], circTime), s.armed + [ts[0]]) else s
    decreases |ts|
  {
    if |ts| > 0 {
      var init := ts[..|ts| - 1];
      ArmsAtMostOnce(s, init, circTime);
      if |init| > 0 {
        assert init[0] == ts[0];
      }
    }
  }

  /**
   * The event heap together with the simulator's eventTime for this device
   * (0 while no callback is pending) and the times the device has asked the
   * simulator to call it back.
   */
  class Scheduler {
    var heap: seq<ScheduledEvent>
    var eventTime: U64
    var armed: seq<U64>

    constructor()
      ensures heap == [] && eventTime == 0 && armed == []
    {
      heap := [];
      eventTime := 0;
      armed := [];
    }

    /** The pending callback and the callbacks asked for so far. */
    function State(): Arming
      reads this
    {
      Arming(eventTime, armed)
    }

    /**
     * schedule_event: push exactly one event, and ask for a callback at its
     * time only while no callback is pending (eventTime == 0).
     */
    method ScheduleEvent(time: U64, action: EventAction, circTime: U64)
      modifies this
      ensures heap == old(heap) + [ScheduledEvent(time, action)]
      ensures State() == ArmEach(old(State()), [time], circTime)
    {
      heap := heap + [ScheduledEvent(time, action)];
      if eventTime == 0 {
        AddEvent(time, circTime);
      }
      assert [time][..0] == [];
    }

    /**
     * Simulator::addEvent(time, this): ask for a callback `time` after the
     * simulator's current time, which the simulator records as pending in
     * eventTime.
     */
    method AddEvent(time: U64, circTime: U64)
      modifies this
      ensures State() == Arming(Pending(time, circTime), old(armed) + [time])
      ensures heap == old(heap)
    {
      armed := armed + [time];
      eventTime := Pending(time, circTime);
    }

    /** top() then pop(): remove and return an event of smallest time. */
    method PopEarliest() returns (e: ScheduledEvent)
      requires |heap| > 0
      modifies this
      ensures IsTop(old(heap), e)
      ensures multiset(heap) + multiset{e} == multiset(old(heap))
      ensures eventTime == old(eventTime) && armed == old(armed)
    {
      var k := EarliestIndex(heap);
      e := heap[k];
      assert heap == heap[..k] + [e] + heap[k + 1..];
      heap := heap[..k] + heap[k + 1..];
    }
  }

  // ---------------------------------------------------------------------
  // MMIO routing
  // ---------------------------------------------------------------------

  const PeripheralBase: nat := 0x4000_0000

  /** The bus address of an MMIO offset: 0x40000000 + offset in uint64. */
  function BusAddress(offset: U64): (a: U64)
    ensures offset < AddressSpace - PeripheralBase ==> a == PeripheralBase + offset
  {
    (PeripheralBase + offset) % AddressSpace
  }

  /**
   * An int64 result reinterpreted as uint64: the one value below 2^64 with
   * the same bit pattern, that is congruent to v modulo 2^64.
   */
  function AsUnsigned(v: int): (r: U64)
    requires -0x8000_0000_0000_0000 <= v < 0x8000_0000_0000_0000
    ensures (r - v) % AddressSpace == 0
    ensures r < 0x8000_0000_0000_0000 <==> v >= 0
  {
    if v >= 0 then v else v + AddressSpace
  }

  /**
   * mmio_read_callback: route to the owning device, whose handler leaves its
   * int64 result in a variable that starts at 0 (`handle`, and its success
   * flag is ignored); with no owner the read yields 0. For a registry keyed
   * by base with non-overlapping ranges, the owner is the device whose range
   * holds the bus address.
   */
  function MmioRead(devices: map<U64, Device>, offset: U64, handle: (Device, U64) -> int): (r: U64)
    requires forall d, a :: -0x8000_0000_0000_0000 <= handle(d, a) < 0x8000_0000_0000_0000
    ensures KeyedByBase(devices) && NonOverlapping(devices) ==>
      forall d :: d in devices.Values && Owns(d, BusAddress(offset)) ==> r == AsUnsigned(handle(d, BusAddress(offset)))
    ensures KeyedByBase(devices) && NonOverlapping(devices) && (forall d :: d in devices.Values ==> !Owns(d, BusAddress(offset))) ==>
      r == 0
  {
    var a := BusAddress(offset);
    OwnerFound(devices, a);
    match FindIn(devices, a)
    case None => 0
    case Some(d) => AsUnsigned(handle(d, a))
  }

  /**
   * mmio_write_callback: the device and bus address the write is delivered
   * to, or None when the write is dropped; for a registry keyed by base with
   * non-overlapping ranges, the owner of the bus address, dropped iff there
   * is none.
   */
  function MmioWriteTarget(devices: map<U64, Device>, offset: U64): (r: Option<(Device, U64)>)
    ensures r.Some? ==> r.value.1 == BusAddress(offset) && r.value.0 in devices.Values && r.value.0.base <= r.value.1
    ensures KeyedByBase(devices) && NonOverlapping(devices) ==>
      forall d :: d in devices.Values && Owns(d, BusAddress(offset)) ==> r == Some((d, BusAddress(offset)))
    ensures KeyedByBase(devices) && NonOverlapping(devices) ==>
      (r.None? <==> forall d :: d in devices.Values ==> !Owns(d, BusAddress(offset)))
  {
    var a := BusAddress(offset);
    OwnerFound(devices, a);
    match FindIn(devices, a)
    case None => None
    case Some(d) => Some((d, a))
  }

  /** FindUniqueOwner, for a registry that may or may not be well laid out. */
  lemma OwnerFound(devices: map<U64, Device>, a: U64)
    ensures KeyedByBase(devices) && NonOverlapping(devices) ==>
      && (forall d :: d in devices.Values ==> (FindIn(devices, a) == Some(d) <==> Owns(d, a)))
      && (FindIn(devices, a).None? <==> forall d :: d in devices.Values ==> !Owns(d, a))
  {
    if KeyedByBase(devices) && NonOverlapping(devices) {
      FindUniqueOwner(devices, a);
    }
  }

  /**
   * The register offset a peripheral computes from a bus address:
   * `static_cast<uint32_t>(address - BASE)`, the uint64 difference cast to uint32.
   */
  function RegisterOffset(address: U64, base: nat): (r: nat)
    ensures r < 0x1_0000_0000
    ensures base <= address < base + 0x1_0000_0000 ==> r == address - base
  {
    (address - base) % 0x1_0000_0000
  }

  /** The int64 value of a write cast to uint32_t: its low 32 bits. */
  function StoredWord(value: int): (w: Word)
    ensures ToNat(w) == value % 0x1_0000_0000
  {
    Pow2Word();
    ToNatFromNat(value % 0x1_0000_0000, WordBits);
    Word32(value % 0x1_0000_0000)
  }

  // ---------------------------------------------------------------------
  // Reset vector
  // ---------------------------------------------------------------------

  /** The stack pointer loaded from flash, if any, and the start PC (0 on failure). */
  datatype Boot = Boot(sp: Option<Word>, startPc: nat)

  /** pc | 1: the Thumb bit forced on. */
  function ThumbAddress(pc: Word): Word {
    Or(pc, Ones(1))
  }

  /**
   * getStartPc from the two flash words read (None when uc_mem_read failed):
   * SP is word 0 and is loaded as soon as it is read; the start PC is word 1
   * with bit 0 set; either failure returns 0 (`return false`).
   */
  function StartPc(word0: Option<Word>, word1: Option<Word>): (r: Boot)
    ensures r.sp == word0
    ensures word0.None? || word1.None? ==> r.startPc == 0
    ensures word0.Some? && word1.Some? ==>
              && r.startPc % 2 == 1
              && r.startPc / 2 == ToNat(word1.value) / 2
              && r.startPc < 0x1_0000_0000
  {
    match word0
    case None => Boot(None, 0)
    case Some(_) =>
      match word1
      case None => Boot(word0, 0)
      case Some(pc) =>
        var t := ThumbAddress(pc);
        assert t[1..] == pc[1..];
        WordBound(t);
        Boot(word0, ToNat(t))
  }

  /** A start PC from two successful reads is never 0, the value stamp() treats as failure. */
  lemma StartPcNonZeroIffRead(word0: Option<Word>, word1: Option<Word>)
    ensures StartPc(word0, word1).startPc != 0 <==> word0.Some? && word1.Some?
  {
  }

  // ---------------------------------------------------------------------
  // Instruction budget and hooks
  // ---------------------------------------------------------------------

  /**
   * calculateInstructionsToExecute: 0 when the target is not after the
   * current time, 0 when an instruction takes under 1 ps, otherwise the time
   * gap over ps per instruction rounded to the nearest whole number, halves
   * up (std::round on a positive value). The arithmetic is exact here.
   */
  function InstructionsToExecute(target: U64, current: U64, psPerInst: real): (r: U64)
    ensures target <= current || psPerInst < 1.0 ==> r == 0
    ensures current < target && psPerInst >= 1.0 ==>
      var x := (target - current) as real / psPerInst;
      x - 0.5 < r as real <= x + 0.5
  {
    if target <= current then 0
    else if psPerInst < 1.0 then 0
    else
      var gap := (target - current) as real;
      var x := gap / psPerInst;
      QuotientBounds(gap, psPerInst, x);
      (x + 0.5).Floor
  }

  /** A non-negative quotient by at least 1 is at most the dividend, and times the divisor gives it back. */
  lemma QuotientBounds(gap: real, ps: real, x: real)
    requires 0.0 <= gap && ps >= 1.0 && x == gap / ps
    ensures 0.0 <= x <= gap && x * ps == gap
  {
    assert x * ps == gap;
    assert x * ps >= x * 1.0;
  }

  /** The base hook_code lets emulation continue. */
  function HookCode(): (r: bool)
    ensures r
  {
    true
  }

  /** hook_mem_unmapped reports the access as not handled, so Unicorn stops. */
  function HookMemUnmapped(): (r: bool)
    ensures !r
  {
    false
  }

  /** The base registerPeripheral registers nothing and fails. */
  function BaseRegisterPeripheral(): (r: bool)
    ensures !r
  {
    false
  }

  // ---------------------------------------------------------------------
  // Memory map
  // ---------------------------------------------------------------------

  datatype MemoryParams = MemoryParams(
    flashStart: U64, flashSize: U64,
    sramStart: U64, sramSize: U64,
    sysMemStart: U64, sysMemSize: U64,
    romStart: U64, romSize: U64,
    peripheralStart: U64, peripheralEnd: U64,
    ppbStart: U64, ppbSize: U64)

  /** The QemuDevice defaults. */
  function DefaultMemoryParams(): MemoryParams {
    MemoryParams(
      0x0800_0000, 32 * 1024,
      0x2000_0000, 4 * 1024,
      0x0002_0000, 1 * 1024,
      0, 0,
      0x4000_0000, 0x4001_14FF,
      0xE000_0000, 0x10_0000)
  }

  /** Stm32::setupDeviceParams over the defaults. */
  function Stm32MemoryParams(): (p: MemoryParams)
    ensures p.romSize == p.flashSize
    ensures p.romStart == DefaultMemoryParams().romStart && p.flashStart == DefaultMemoryParams().flashStart
  {
    DefaultMemoryParams().(
      flashSize := 256 * 1024,
      sramSize := 64 * 1024,
      romSize := 256 * 1024,
      sysMemStart := 0x0002_0000,
      sysMemSize := 1 * 1024,
      peripheralStart := 0x4000_0000,
      peripheralEnd := 0x4002_3000,
      ppbStart := 0xE000_0000)
  }

  /** [s, s + n) and [t, t + m) do not meet. */
  predicate Apart(s: nat, n: nat, t: nat, m: nat) {
    s + n <= t || t + m <= s
  }

  /**
   * The regions stamp() maps (flash, SRAM, ROM, the MMIO window and the PPB)
   * are pairwise disjoint and lie in the 32-bit address space.
   */
  predicate MappedRegionsDisjoint(p: MemoryParams) {
    var regions := [(p.flashStart, p.flashSize), (p.sramStart, p.sramSize), (p.romStart, p.romSize),
                    (p.peripheralStart, p.peripheralEnd - p.peripheralStart), (p.ppbStart, p.ppbSize)];
    && p.peripheralStart <= p.peripheralEnd
    && (forall i :: 0 <= i < |regions| ==> regions[i].0 + regions[i].1 <= 0x1_0000_0000)
    && (forall i, j :: 0 <= i < j < |regions| ==> Apart(regions[i].0, regions[i].1, regions[j].0, regions[j].1))
  }

  /** The default map and the STM32 map both lay out disjoint regions in 32-bit space. */
  lemma MemoryMapsDisjoint()
    ensures MappedRegionsDisjoint(DefaultMemoryParams())
    ensures MappedRegionsDisjoint(Stm32MemoryParams())
  {
  }

  /** An address lies in the MMIO window Unicorn forwards to the callbacks. */
  predicate InPeripheralWindow(p: MemoryParams, a: nat) {
    p.peripheralStart <= a < p.peripheralEnd
  }
}
