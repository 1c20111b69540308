/**
 * The STM32 host adapter: the peripherals it registers and where they sit,
 * the instruction budget it hands to the emulation thread, the sub-batches
 * that thread runs, the pin events it replays in time order, and the
 * decoding of GPIO configuration nibbles into pin modes.
 *
 * The emulator itself (Unicorn) appears as a function from a start PC and
 * an instruction budget to an outcome; the pins are records with the
 * attributes cofigPort and setPortState set and the input level readInputs
 * reads.
 */
module Stm32Host {
  import opened Wrappers
  import opened Bits
  import opened PeripheralRegistry
  import opened QemuDevice
  import Stm32Rcm
  import Stm32Fmc
  import Stm32Afio
  import Stm32Gpio

  // ---------------------------------------------------------------------
  // Peripheral layout
  // ---------------------------------------------------------------------

  function GpioDevice(portName: string, base: U64): Device {
    Device("GPIO (" + portName + ")", base, Stm32Gpio.GpioSize)
  }

  /** What registerPeripheral registers, in order: RCM, FMC, AFIO, then GPIO ports A to E. */
  function LiveDevices(): (ds: seq<Device>)
    ensures |ds| == 8
  {
    [Device("CMU (rcm)", Stm32Rcm.RcmBase, Stm32Rcm.RcmEnd - Stm32Rcm.RcmBase),
     Device("FMC", Stm32Fmc.FmcBase, Stm32Fmc.FmcSize),
     Device("AFIO", Stm32Afio.AfioBase, Stm32Afio.AfioSize),
     GpioDevice("Port A", Stm32Gpio.GpioaBase),
     GpioDevice("Port B", Stm32Gpio.GpiobBase),
     GpioDevice("Port C", Stm32Gpio.GpiocBase),
     GpioDevice("Port D", Stm32Gpio.GpiodBase),
     GpioDevice("Port E", Stm32Gpio.GpioeBase)]
  }

  /** registerDevice on the device map: a device whose base is taken is dropped. */
  function Registered(m: map<U64, Device>, d: Device): map<U64, Device> {
    if d.base in m then m else m[d.base := d]
  }

  /** The device map after registering ds in order. */
  function RegisterAll(m: map<U64, Device>, ds: seq<Device>): map<U64, Device>
    decreases |ds|
  {
    if |ds| == 0 then m else Registered(RegisterAll(m, ds[..|ds| - 1]), ds[|ds| - 1])
  }

  /** The device map of a fresh registry after registerPeripheral, in base order. */
  function LiveMap(): map<U64, Device> {
    var ds := LiveDevices();
    map[Stm32Afio.AfioBase := ds[2], Stm32Gpio.GpioaBase := ds[3], Stm32Gpio.GpiobBase := ds[4],
        Stm32Gpio.GpiocBase := ds[5], Stm32Gpio.GpiodBase := ds[6], Stm32Gpio.GpioeBase := ds[7],
        Stm32Rcm.RcmBase := ds[0], Stm32Fmc.FmcBase := ds[1]]
  }

  lemma RegisterAllStep(m: map<U64, Device>, ds: seq<Device>, k: nat)
    requires k < |ds|
    ensures RegisterAll(m, ds[..k + 1]) == Registered(RegisterAll(m, ds[..k]), ds[k])
  {
    assert ds[..k + 1][..k] == ds[..k];
  }

  /**
   * Registering devices with distinct bases, none already taken, keeps
   * every one of them and every device registered before.
   */
  lemma {:induction false} RegisterAllDistinct(m: map<U64, Device>, ds: seq<Device>)
    requires forall i, j :: 0 <= i < j < |ds| ==> ds[i].base != ds[j].base
    requires forall i :: 0 <= i < |ds| ==> ds[i].base !in m
    ensures RegisteredAll(RegisterAll(m, ds), m, ds)
    decreases |ds|
  {
    if |ds| > 0 {
      var init := ds[..|ds| - 1];
      var last := ds[|ds| - 1];
      assert forall i :: 0 <= i < |init| ==> init[i] == ds[i];
      RegisterAllDistinct(m, init);
      RegisteredAllStep(RegisterAll(m, init), m, ds);
    }
  }

  /** r holds m and the devices of ds, each under its base, and nothing else. */
  ghost predicate RegisteredAll(r: map<U64, Device>, m: map<U64, Device>, ds: seq<Device>) {
    && (forall b :: b in r <==> b in m || exists i :: 0 <= i < |ds| && ds[i].base == b)
    && (forall i :: 0 <= i < |ds| ==> ds[i].base in r && r[ds[i].base] == ds[i])
    && (forall b :: b in m ==> b in r && r[b] == m[b])
  }

  /** Adding the last device of ds, whose base is new, to a map registering the others registers all of ds. */
  lemma RegisteredAllStep(r: map<U64, Device>, m: map<U64, Device>, ds: seq<Device>)
    requires |ds| > 0 && RegisteredAll(r, m, ds[..|ds| - 1])
    requires forall i :: 0 <= i < |ds| - 1 ==> ds[i].base != ds[|ds| - 1].base
    requires ds[|ds| - 1].base !in m
    ensures ds[|ds| - 1].base !in r
    ensures RegisteredAll(r[ds[|ds| - 1].base := ds[|ds| - 1]], m, ds)
  {
    var init := ds[..|ds| - 1];
    var last := ds[|ds| - 1];
    assert forall i :: 0 <= i < |init| ==> init[i] == ds[i];
    var r' := r[last.base := last];
    forall b
      ensures b in r' <==> b in m || exists i :: 0 <= i < |ds| && ds[i].base == b
    {
      if exists i :: 0 <= i < |ds| && ds[i].base == b {
        var i :| 0 <= i < |ds| && ds[i].base == b;
        if i < |init| {
          assert init[i].base == b;
        }
      }
    }
  }

  /** No two live devices share a base. */
  lemma LiveBasesDistinct()
    ensures forall i, j :: 0 <= i < j < |LiveDevices()| ==> LiveDevices()[i].base != LiveDevices()[j].base
  {
  }

  /** Registering the live devices into an empty registry keeps all eight. */
  lemma RegisterLiveDevices()
    ensures RegisterAll(map[], LiveDevices()) == LiveMap()
  {
    var ds := LiveDevices();
    LiveBasesDistinct();
    RegisterAllDistinct(map[], ds);
    LiveMapKeys();
    SameMapOfList(RegisterAll(map[], ds), LiveMap(), ds);
  }

  /** The live map holds exactly the live bases, each mapped to its device. */
  lemma LiveMapKeys()
    ensures RegisteredAll(LiveMap(), map[], LiveDevices())
  {
    var ds := LiveDevices();
    forall b | b in LiveMap()
      ensures exists i :: 0 <= i < |ds| && ds[i].base == b
    {
      if b == Stm32Rcm.RcmBase { assert ds[0].base == b; }
      else if b == Stm32Fmc.FmcBase { assert ds[1].base == b; }
      else if b == Stm32Afio.AfioBase { assert ds[2].base == b; }
      else if b == Stm32Gpio.GpioaBase { assert ds[3].base == b; }
      else if b == Stm32Gpio.GpiobBase { assert ds[4].base == b; }
      else if b == Stm32Gpio.GpiocBase { assert ds[5].base == b; }
      else if b == Stm32Gpio.GpiodBase { assert ds[6].base == b; }
      else { assert ds[7].base == b; }
    }
    forall i | 0 <= i < |ds|
      ensures ds[i].base in LiveMap() && LiveMap()[ds[i].base] == ds[i]
    {
      LiveMapAt(i);
    }
  }

  /** The i-th live device sits in the live map under its base. */
  lemma LiveMapAt(i: nat)
    requires i < |LiveDevices()|
    ensures LiveDevices()[i].base in LiveMap() && LiveMap()[LiveDevices()[i].base] == LiveDevices()[i]
  {
    if i == 0 {} else if i == 1 {} else if i == 2 {} else if i == 3 {}
    else if i == 4 {} else if i == 5 {} else if i == 6 {} else {}
  }

  /** Two maps that each hold exactly the bases of ds, each mapped to its device, are equal. */
  lemma SameMapOfList(m1: map<U64, Device>, m2: map<U64, Device>, ds: seq<Device>)
    requires RegisteredAll(m1, map[], ds) && RegisteredAll(m2, map[], ds)
    ensures m1 == m2
  {
    forall b | b in m1
      ensures b in m2 && m1[b] == m2[b]
    {
      var i :| 0 <= i < |ds| && ds[i].base == b;
    }
    assert m1.Keys == m2.Keys;
  }

  /** The live ranges are keyed by base, end below 2^64 and do not overlap. */
  lemma LiveLayoutNonOverlapping()
    ensures KeyedByBase(LiveMap()) && NonOverlapping(LiveMap())
  {
    var m := LiveMap();
    LiveMapKeys();
    forall b | b in m
      ensures m[b].base == b && b % Page == 0 && m[b].size <= Page && b + Page < AddressSpace
    {
      var i :| 0 <= i < |LiveDevices()| && LiveDevices()[i].base == b;
      LiveDeviceAligned(i);
    }
    AlignedApart(m);
  }

  /** Each live device starts on a page and fits in it. */
  lemma LiveDeviceAligned(i: nat)
    requires i < |LiveDevices()|
    ensures var d := LiveDevices()[i]; d.base % Page == 0 && d.size <= Page && d.base + Page < AddressSpace
  {
    if i == 0 {} else if i == 1 {} else if i == 2 {} else if i == 3 {}
    else if i == 4 {} else if i == 5 {} else if i == 6 {} else {}
  }

  /** Every live base is a multiple of this, and no live device is larger. */
  const Page: nat := 0x400

  /** Page-aligned devices no larger than a page never overlap. */
  lemma AlignedApart(m: map<U64, Device>)
    requires forall b :: b in m ==> b % Page == 0 && m[b].size <= Page && b + Page < AddressSpace
    ensures NonOverlapping(m)
  {
    forall b, c | b in m && c in m && b < c
      ensures b + m[b].size <= c
    {
      assert b == Page * (b / Page) && c == Page * (c / Page);
      assert b / Page < c / Page;
    }
  }

  /** The devices of the live map are exactly the live devices. */
  lemma LiveMapValues()
    ensures forall i :: 0 <= i < |LiveDevices()| ==> LiveDevices()[i] in LiveMap().Values
    ensures forall d :: d in LiveMap().Values ==> d in LiveDevices()
  {
    var ds := LiveDevices();
    forall i | 0 <= i < |ds|
      ensures ds[i] in LiveMap().Values
    {
      assert LiveMap()[ds[i].base] == ds[i];
    }
    forall d | d in LiveMap().Values
      ensures d in ds
    {
      var b :| b in LiveMap() && LiveMap()[b] == d;
    }
  }

  /** FindUniqueOwner, stated over a list naming exactly the map's devices. */
  lemma UniqueOwnerAmong(m: map<U64, Device>, ds: seq<Device>, a: U64)
    requires KeyedByBase(m) && NonOverlapping(m)
    requires forall i :: 0 <= i < |ds| ==> ds[i] in m.Values
    requires forall d :: d in m.Values ==> d in ds
    ensures forall i :: 0 <= i < |ds| ==> (FindIn(m, a) == Some(ds[i]) <==> Owns(ds[i], a))
    ensures FindIn(m, a).None? <==> forall i :: 0 <= i < |ds| ==> !Owns(ds[i], a)
  {
    FindUniqueOwner(m, a);
  }

  /**
   * On the live layout, every bus address is routed to exactly the device
   * whose range holds it, and to none when no range does.
   */
  lemma LiveUniqueOwner(a: U64)
    ensures forall i :: 0 <= i < |LiveDevices()| ==> (FindIn(LiveMap(), a) == Some(LiveDevices()[i]) <==> Owns(LiveDevices()[i], a))
    ensures FindIn(LiveMap(), a).None? <==> forall i :: 0 <= i < |LiveDevices()| ==> !Owns(LiveDevices()[i], a)
  {
    LiveLayoutNonOverlapping();
    LiveMapValues();
    UniqueOwnerAmong(LiveMap(), LiveDevices(), a);
  }

  /**
   * MMIO on the live layout: an access at offset reaches the live device
   * whose range holds 0x40000000 + offset, reads return its handler's
   * result as uint64 and writes are delivered to it; an address no live
   * device holds reads 0 and drops the write.
   */
  lemma LiveMmioRouting(offset: U64, handle: (Device, U64) -> int)
    requires forall d, a :: -0x8000_0000_0000_0000 <= handle(d, a) < 0x8000_0000_0000_0000
    ensures var a := BusAddress(offset);
      forall i :: 0 <= i < |LiveDevices()| && Owns(LiveDevices()[i], a) ==>
        && MmioRead(LiveMap(), offset, handle) == AsUnsigned(handle(LiveDevices()[i], a))
        && MmioWriteTarget(LiveMap(), offset) == Some((LiveDevices()[i], a))
    ensures var a := BusAddress(offset);
      (forall i :: 0 <= i < |LiveDevices()| ==> !Owns(LiveDevices()[i], a)) ==>
        MmioRead(LiveMap(), offset, handle) == 0 && MmioWriteTarget(LiveMap(), offset).None?
  {
    var a := BusAddress(offset);
    LiveUniqueOwner(a);
  }

  // ---------------------------------------------------------------------
  // Instruction budget
  // ---------------------------------------------------------------------

  /** A task larger than this is taken for a jump of the time axis and dropped. */
  const MaxTaskCount: nat := 1_000_000_000

  /** emuLoop hands at most this many instructions to the engine per call. */
  const BatchSize: nat := 500_000

  /** The clock used without an RCM, or when it reports 0 Hz. */
  const FallbackClock: nat := 8_000_000

  /** The clock runToTime divides by: the RCM frequency, or 8 MHz when the RCM is absent or reports 0. */
  function ClockInUse(rcmClock: Option<nat>): (f: nat)
    ensures f > 0
    ensures rcmClock.Some? && rcmClock.value > 0 ==> f == rcmClock.value
    ensures rcmClock.None? || rcmClock.value == 0 ==> f == FallbackClock
  {
    if rcmClock.Some? && rcmClock.value > 0 then rcmClock.value else FallbackClock
  }

  function Min(a: nat, b: nat): nat {
    if a <= b then a else b
  }

  function Total(ts: seq<nat>): nat {
    if |ts| == 0 then 0 else ts[0] + Total(ts[1..])
  }

  lemma {:induction false} TotalAppend(ts: seq<nat>, x: nat)
    ensures Total(ts + [x]) == Total(ts) + x
  {
    if |ts| > 0 {
      TotalAppend(ts[1..], x);
      assert (ts + [x])[1..] == ts[1..] + [x];
    }
  }

  lemma TotalSingle(x: nat)
    ensures Total([x]) == x
  {
    assert [x][1..] == [];
  }

  /**
   * The task queue after runToTime adds count instructions: added to the
   * last task when there is one (in uint64), pushed as a new task otherwise.
   */
  function Enqueue(tasks: seq<U64>, count: U64): seq<U64> {
    if |tasks| == 0 then [count]
    else tasks[..|tasks| - 1] + [(tasks[|tasks| - 1] + count) % AddressSpace]
  }

  /**
   * The queue never holds more than one task, and it holds exactly count
   * more instructions unless the last task's count wraps past 2^64.
   */
  lemma EnqueueAddsCount(tasks: seq<U64>, count: U64)
    requires |tasks| <= 1
    ensures |Enqueue(tasks, count)| == 1
    ensures |tasks| == 0 || tasks[0] + count < AddressSpace ==> Total(Enqueue(tasks, count)) == Total(tasks) + count
  {
    if |tasks| == 1 {
      var sum := (tasks[0] + count) % AddressSpace;
      assert Enqueue(tasks, count) == [sum];
      TotalSingle(sum);
      TotalSingle(tasks[0]);
      assert tasks == [tasks[0]];
    }
  }

  /** The sub-batch sizes emuLoop uses for a task of count instructions. */
  function Batches(count: nat): seq<nat>
    decreases count
  {
    if count == 0 then [] else [Min(count, BatchSize)] + Batches(count - Min(count, BatchSize))
  }

  /**
   * The sub-batches add up to the task, each is between 1 and 500000
   * instructions, and all but the last are full.
   */
  lemma {:induction false} BatchesShape(count: nat)
    ensures Total(Batches(count)) == count
    ensures forall i :: 0 <= i < |Batches(count)| ==> 0 < Batches(count)[i] <= BatchSize
    ensures forall i :: 0 <= i < |Batches(count)| - 1 ==> Batches(count)[i] == BatchSize
    decreases count
  {
    if count > 0 {
      var step := Min(count, BatchSize);
      BatchesShape(count - step);
      if count - step > 0 {
        assert step == BatchSize;
      }
    }
  }

  /** What one engine call reports: success, and the PC to resume from. */
  datatype EmuResult = EmuResult(ok: bool, pc: U64)

  /** The PC the k-th engine call starts from: the initial PC, then the PC stored after the previous call. */
  function StartOf(pc0: U64, pcs: seq<U64>, k: nat): U64
    requires k <= |pcs|
  {
    if k == 0 then pc0 else pcs[k - 1]
  }

  /** Each stored PC is the one the engine returned from the call it follows. */
  ghost predicate Chained(pc0: U64, emu: (U64, nat) -> EmuResult, issued: seq<nat>, pcs: seq<U64>) {
    |pcs| == |issued| && forall k :: 0 <= k < |issued| ==> pcs[k] == emu(StartOf(pc0, pcs, k), issued[k]).pc
  }

  /** The first n engine calls succeeded. */
  ghost predicate OkUpTo(pc0: U64, emu: (U64, nat) -> EmuResult, issued: seq<nat>, pcs: seq<U64>, n: nat)
    requires n <= |issued| == |pcs|
  {
    forall k :: 0 <= k < n ==> emu(StartOf(pc0, pcs, k), issued[k]).ok
  }

  /** One more engine call, resuming from the last stored PC, extends the chain and keeps the earlier outcomes. */
  lemma ChainedExtend(pc0: U64, emu: (U64, nat) -> EmuResult, issued: seq<nat>, pcs: seq<U64>, step: nat)
    requires Chained(pc0, emu, issued, pcs)
    ensures var res := emu(StartOf(pc0, pcs, |pcs|), step);
      && Chained(pc0, emu, issued + [step], pcs + [res.pc])
      && (OkUpTo(pc0, emu, issued + [step], pcs + [res.pc], |issued|) <==> OkUpTo(pc0, emu, issued, pcs, |issued|))
      && (OkUpTo(pc0, emu, issued + [step], pcs + [res.pc], |issued| + 1) <==> OkUpTo(pc0, emu, issued, pcs, |issued|) && res.ok)
  {
    var res := emu(StartOf(pc0, pcs, |pcs|), step);
    var pcs', issued' := pcs + [res.pc], issued + [step];
    assert forall k :: 0 <= k <= |pcs| ==> StartOf(pc0, pcs', k) == StartOf(pc0, pcs, k);
    assert forall k :: 0 <= k < |issued| ==> issued'[k] == issued[k];
  }

  /** The plan for count instructions starts with one sub-batch and continues with the plan for the rest. */
  lemma BatchesStep(count: nat, issued: seq<nat>, full: seq<nat>)
    requires count > 0 && issued + Batches(count) == full
    ensures (issued + [Min(count, BatchSize)]) + Batches(count - Min(count, BatchSize)) == full
  {
    assert Batches(count) == [Min(count, BatchSize)] + Batches(count - Min(count, BatchSize));
  }

  lemma PrefixOfSum(a: seq<nat>, b: seq<nat>, c: seq<nat>)
    requires a + b == c
    ensures a <= c
  {
    assert c[..|a|] == a;
  }

  /**
   * A run of one task from pc0 that made the engine calls issued, each
   * storing the PC in pcs: the calls follow the sub-batch plan from the
   * start, each one resumes where the previous stopped, every call but the
   * last succeeded, and the plan was cut short only by a failing call.
   */
  ghost predicate RanTask(pc0: U64, count: nat, emu: (U64, nat) -> EmuResult, issued: seq<nat>, pcs: seq<U64>) {
    && issued <= Batches(count)
    && Chained(pc0, emu, issued, pcs)
    && (|issued| > 0 ==> OkUpTo(pc0, emu, issued, pcs, |issued| - 1))
    && (OkUpTo(pc0, emu, issued, pcs, |issued|) ==> issued == Batches(count))
  }

  /** What holds between two engine calls of a task: the calls so far follow the plan, chain their PCs and all succeeded. */
  ghost predicate TaskLoop(pc0: U64, count: nat, emu: (U64, nat) -> EmuResult, issued: seq<nat>, pcs: seq<U64>, remaining: nat) {
    && issued + Batches(remaining) == Batches(count)
    && Chained(pc0, emu, issued, pcs)
    && OkUpTo(pc0, emu, issued, pcs, |issued|)
  }

  /**
   * One more engine call: when it succeeds the loop goes on with the rest
   * of the plan, and when it fails the run so far is a complete run.
   */
  lemma TaskStep(pc0: U64, count: nat, emu: (U64, nat) -> EmuResult, issued: seq<nat>, pcs: seq<U64>, remaining: nat)
    requires remaining > 0 && TaskLoop(pc0, count, emu, issued, pcs, remaining)
    ensures var step := Min(remaining, BatchSize);
      var res := emu(StartOf(pc0, pcs, |pcs|), step);
      && (res.ok ==> TaskLoop(pc0, count, emu, issued + [step], pcs + [res.pc], remaining - step))
      && (!res.ok ==> RanTask(pc0, count, emu, issued + [step], pcs + [res.pc]))
  {
    var step := Min(remaining, BatchSize);
    ChainedExtend(pc0, emu, issued, pcs, step);
    BatchesStep(remaining, issued, Batches(count));
    PrefixOfSum(issued + [step], Batches(remaining - step), Batches(count));
  }

  /** A loop that used up the plan is a complete run. */
  lemma TaskDone(pc0: U64, count: nat, emu: (U64, nat) -> EmuResult, issued: seq<nat>, pcs: seq<U64>)
    requires TaskLoop(pc0, count, emu, issued, pcs, 0)
    ensures RanTask(pc0, count, emu, issued, pcs)
  {
    assert issued + [] == issued;
  }

  /** When every engine call succeeds, the task's instructions are all executed. */
  lemma CompleteRunExecutesTask(pc0: U64, count: nat, emu: (U64, nat) -> EmuResult, issued: seq<nat>, pcs: seq<U64>)
    requires RanTask(pc0, count, emu, issued, pcs)
    requires OkUpTo(pc0, emu, issued, pcs, |issued|)
    ensures Total(issued) == count
  {
    BatchesShape(count);
  }

  // ---------------------------------------------------------------------
  // Pins and their configuration
  // ---------------------------------------------------------------------

  const PinCount: nat := 16

  /** m_state holds seven 16-bit port states. */
  const SavedPorts: nat := 7

  datatype PinMode = Input | Output | OpenCollector

  /**
   * What the host sets on a pin (mode, pull, analog, alternate, the driven
   * port state) and what it reads (whether the input is high).
   */
  datatype Pin = Pin(mode: PinMode, pull: bool, analog: bool, alternate: bool, portState: bool, inputHigh: bool)

  /** Bits 4i to 4i + 3 of a configuration word: the MODE and CNF bits of pin i. */
  function Nibble(config: Word, i: nat): (nib: seq<bool>)
    requires i < 8
    ensures |nib| == 4 && forall b :: 0 <= b < 4 ==> nib[b] == config[4 * i + b]
  {
    config[4 * i..4 * i + 4]
  }

  /**
   * One iteration of cofigPort: MODE (bits 1:0) non-zero selects output,
   * open-collector when bit 2 is set; otherwise input, pulled when bit 3 is
   * set. Analog is set when bits 3:2 are 0, in either mode, and alternate
   * when bit 3 is set. When the pin's setAlternate answers false, the pin's
   * port state is restored from the saved port state.
   */
  function ConfigurePin(pin: Pin, nib: seq<bool>, setAlternate: (Pin, bool) -> bool, saved: bool): Pin
    requires |nib| == 4
  {
    var moded :=
      if nib[0] || nib[1] then pin.(mode := if nib[2] then OpenCollector else Output)
      else pin.(mode := Input, pull := nib[3]);
    var withAnalog := moded.(analog := !nib[2] && !nib[3]);
    var withAlternate := withAnalog.(alternate := nib[3]);
    if setAlternate(withAnalog, nib[3]) then withAlternate else withAlternate.(portState := saved)
  }

  /**
   * How the configuration comment in the source reads the nibble: MODE 00
   * is input, where CNF 00 is analog, 01 floating and 1x pulled; otherwise
   * output, where CNF0 selects open drain and CNF1 the alternate function.
   */
  datatype PinSetting = PinSetting(output: bool, openDrain: bool, pulled: bool, analog: bool, alternate: bool)

  function DocumentedSetting(nib: seq<bool>): PinSetting
    requires |nib| == 4
  {
    var output := nib[0] || nib[1];
    PinSetting(output, output && nib[2], !output && nib[3], !output && !nib[2] && !nib[3], output && nib[3])
  }

  /**
   * cofigPort agrees with the documented reading on direction, open drain
   * and pull, and on analog for inputs; it marks an output analog exactly
   * when CNF is 00 (push-pull, general purpose), which the comment does not;
   * and it sets alternate on pulled inputs too.
   */
  lemma ConfigurePinAgainstDocumented(pin: Pin, nib: seq<bool>, setAlternate: (Pin, bool) -> bool, saved: bool)
    requires |nib| == 4
    ensures var r, d := ConfigurePin(pin, nib, setAlternate, saved), DocumentedSetting(nib);
      && (r.mode != Input <==> d.output)
      && (r.mode == OpenCollector <==> d.openDrain)
      && (r.mode == Input ==> r.pull == d.pulled)
      && (r.mode != Input ==> r.pull == pin.pull)
      && (!d.output ==> r.analog == d.analog)
      && (d.output ==> (r.analog <==> !nib[2] && !nib[3]))
      && (d.output ==> r.alternate == d.alternate)
      && (!d.output ==> (r.alternate <==> d.pulled))
      && r.inputHigh == pin.inputHigh
  {
  }

  /** The defect in concrete form: MODE 01, CNF 00 (10 MHz push-pull output) comes out as an analog output. */
  lemma PushPullOutputMarkedAnalog(pin: Pin, setAlternate: (Pin, bool) -> bool, saved: bool)
    ensures var r := ConfigurePin(pin, [true, false, false, false], setAlternate, saved);
      r.mode == Output && r.analog && !DocumentedSetting([true, false, false, false]).analog
  {
  }

  /** A port after cofigPort with shift 0: pins 0 to 7 configured from their nibbles, pins 8 to 15 untouched. */
  function ConfiguredPort(pins: seq<Pin>, config: Word, setAlternate: (Pin, bool) -> bool, saved: seq<bool>): (r: seq<Pin>)
    requires |pins| == PinCount && |saved| == PinCount
    ensures |r| == PinCount
    ensures forall i :: 8 <= i < PinCount ==> r[i] == pins[i]
  {
    seq(PinCount, i requires 0 <= i < PinCount =>
      if i < 8 then ConfigurePin(pins[i], Nibble(config, i), setAlternate, saved[i]) else pins[i])
  }

  /** A port after setPortState: pin i driven from bit i, every other attribute kept. */
  function Driven(pins: seq<Pin>, state: seq<bool>): (r: seq<Pin>)
    requires |pins| == |state|
    ensures |r| == |pins|
  {
    seq(|pins|, i requires 0 <= i < |pins| => pins[i].(portState := state[i]))
  }

  /** setPortState changes each pin's driven level to its bit and nothing else. */
  lemma DrivenPins(pins: seq<Pin>, state: seq<bool>)
    requires |pins| == |state|
    ensures forall i :: 0 <= i < |pins| ==>
      && Driven(pins, state)[i].portState == state[i]
      && Driven(pins, state)[i].(portState := pins[i].portState) == pins[i]
  {
  }

  predicate PortsShape(ports: seq<seq<Pin>>) {
    forall p :: 0 <= p < |ports| ==> |ports[p]| == PinCount
  }

  predicate SavedShape(saved: seq<seq<bool>>) {
    |saved| == SavedPorts && forall p :: 0 <= p < |saved| ==> |saved[p]| == PinCount
  }

  /** An event the host can replay: its port exists (ports are numbered from 1) and a pin state has 16 bits. */
  predicate Fits(a: EventAction, portCount: nat) {
    match a
    case NoAction => true
    case PinSet(port, state) => 1 <= port <= portCount && |state| == PinCount
    case PortConfig(port, _, _) => 1 <= port <= portCount && port < SavedPorts
  }

  /**
   * The pins after one event: a pin set drives the port, a configuration
   * with shift 0 reconfigures pins 0 to 7. A configuration with shift 8
   * leaves the pins as they are (see the left-out notes), and so does an
   * event with no action.
   */
  function Apply(ports: seq<seq<Pin>>, saved: seq<seq<bool>>, a: EventAction, setAlternate: (Pin, bool) -> bool): (r: seq<seq<Pin>>)
    requires PortsShape(ports) && SavedShape(saved) && Fits(a, |ports|)
    ensures |r| == |ports| && PortsShape(r)
  {
    match a
    case NoAction => ports
    case PinSet(port, state) => ports[port - 1 := Driven(ports[port - 1], state)]
    case PortConfig(port, config, shift) =>
      if shift == 0 then ports[port - 1 := ConfiguredPort(ports[port - 1], config, setAlternate, saved[port])] else ports
  }

  /** The pins after replaying evs in order. */
  function ApplyAll(ports: seq<seq<Pin>>, saved: seq<seq<bool>>, evs: seq<ScheduledEvent>, setAlternate: (Pin, bool) -> bool): (r: seq<seq<Pin>>)
    requires PortsShape(ports) && SavedShape(saved) && forall e :: e in evs ==> Fits(e.action, |ports|)
    ensures |r| == |ports| && PortsShape(r)
    decreases |evs|
  {
    if |evs| == 0 then ports
    else
      var before := ApplyAll(ports, saved, evs[..|evs| - 1], setAlternate);
      Apply(before, saved, evs[|evs| - 1].action, setAlternate)
  }

  // ---------------------------------------------------------------------
  // Event order
  // ---------------------------------------------------------------------

  /** The smallest scheduled time in a non-empty heap. */
  function MinTime(heap: seq<ScheduledEvent>): (t: U64)
    requires |heap| > 0
    ensures exists e :: e in heap && e.time == t
    ensures forall e :: e in heap ==> t <= e.time
  {
    if |heap| == 1 then heap[0].time
    else
      var m := MinTime(heap[1..]);
      assert forall e :: e in heap ==> e == heap[0] || e in heap[1..];
      if heap[0].time <= m then heap[0].time else m
  }

  /** The heap's top has the smallest scheduled time. */
  lemma TopTime(heap: seq<ScheduledEvent>, e: ScheduledEvent)
    requires |heap| > 0 && IsTop(heap, e)
    ensures e.time == MinTime(heap)
  {
  }

  /** The callback times a complete runEvent offers to the guard: the time of each event after the first, when it is at the top. */
  function Rearms(processed: seq<ScheduledEvent>): seq<U64> {
    if |processed| == 0 then [] else Times(processed[1..])
  }

  /** Replaying one more event applies it to the pins the earlier ones left. */
  lemma ApplyAllStep(ports: seq<seq<Pin>>, saved: seq<seq<bool>>, evs: seq<ScheduledEvent>, e: ScheduledEvent, setAlternate: (Pin, bool) -> bool)
    requires PortsShape(ports) && SavedShape(saved) && forall x :: x in evs + [e] ==> Fits(x.action, |ports|)
    ensures forall x :: x in evs ==> Fits(x.action, |ports|)
    ensures ApplyAll(ports, saved, evs + [e], setAlternate) == Apply(ApplyAll(ports, saved, evs, setAlternate), saved, e.action, setAlternate)
  {
    assert (evs + [e])[..|evs|] == evs;
    assert forall x :: x in evs ==> x in evs + [e];
  }

  /** One more replayed event offers its own time, unless it was the first. */
  lemma RearmsAppend(processed: seq<ScheduledEvent>, e: ScheduledEvent)
    ensures Rearms(processed + [e]) == Rearms(processed) + (if |processed| > 0 then [e.time] else [])
  {
    if |processed| > 0 {
      assert (processed + [e])[1..] == processed[1..] + [e];
    }
  }

  /**
   * Events popped so far from a heap that started as h0, and the heap
   * left: together they are h0, the popped ones are in time order, and
   * none is later than an event still waiting.
   */
  ghost predicate Progress(h0: seq<ScheduledEvent>, heap: seq<ScheduledEvent>, processed: seq<ScheduledEvent>) {
    && multiset(heap) + multiset(processed) == multiset(h0)
    && (forall x :: x in heap ==> x in h0)
    && (forall x :: x in processed ==> x in h0)
    && (forall i, j :: 0 <= i < j < |processed| ==> processed[i].time <= processed[j].time)
    && (forall i, x :: 0 <= i < |processed| && x in heap ==> processed[i].time <= x.time)
  }

  /** Popping the top keeps the popped events in time order and ahead of the rest. */
  lemma ProgressStep(h0: seq<ScheduledEvent>, heap: seq<ScheduledEvent>, processed: seq<ScheduledEvent>, e: ScheduledEvent, rest: seq<ScheduledEvent>)
    requires Progress(h0, heap, processed)
    requires IsTop(heap, e) && multiset(rest) + multiset{e} == multiset(heap)
    requires forall x :: x in rest ==> x in heap
    ensures Progress(h0, rest, processed + [e])
  {
    TopIsEarliest(heap, e);
    assert multiset(processed + [e]) == multiset(processed) + multiset{e};
    var p' := processed + [e];
    forall i, j | 0 <= i < j < |p'|
      ensures p'[i].time <= p'[j].time
    {
      if j == |processed| {
        assert p'[j] == e;
      }
    }
  }

  /**
   * The callback times runEvent has offered to the simulator after popping
   * processed, with heap still waiting: after each pop that leaves events,
   * the new top's time.
   */
  function Offered(processed: seq<ScheduledEvent>, heap: seq<ScheduledEvent>): seq<U64> {
    Rearms(processed) + (if |processed| > 0 && |heap| > 0 then [MinTime(heap)] else [])
  }

  /** Popping the top e, which leaves rest, offers the new top's time when events remain. */
  lemma OfferedStep(processed: seq<ScheduledEvent>, heap: seq<ScheduledEvent>, e: ScheduledEvent, rest: seq<ScheduledEvent>)
    requires |heap| > 0 && e.time == MinTime(heap)
    ensures Offered(processed + [e], rest) == Offered(processed, heap) + (if |rest| > 0 then [MinTime(rest)] else [])
  {
    RearmsAppend(processed, e);
  }

  /** Arming state after offering ts, then one more list of at most one time. */
  lemma ArmEachThen(s: Arming, ts: seq<U64>, extra: seq<U64>, circTime: U64)
    requires |extra| <= 1
    ensures ArmEach(ArmEach(s, ts, circTime), extra, circTime) == ArmEach(s, ts + extra, circTime)
  {
    if |extra| == 0 {
      assert ts + extra == ts;
    } else {
      ArmEachAppend(s, ts, extra[0], circTime);
      assert extra == [extra[0]];
      ArmEachAppend(ArmEach(s, ts, circTime), [], extra[0], circTime);
      assert [] + [extra[0]] == extra;
    }
  }

  /** The arming state runEvent keeps after one more replayed event. */
  lemma ArmedAfterStep(s0: Arming, mid: Arming, after: Arming, processed: seq<ScheduledEvent>, heap: seq<ScheduledEvent>,
                       e: ScheduledEvent, rest: seq<ScheduledEvent>, circTime: U64)
    requires |heap| > 0 && e.time == MinTime(heap)
    requires mid == ArmEach(s0, Offered(processed, heap), circTime)
    requires after == ArmEach(mid, if |rest| > 0 then [MinTime(rest)] else [], circTime)
    ensures after == ArmEach(s0, Offered(processed + [e], rest), circTime)
  {
    OfferedStep(processed, heap, e, rest);
    ArmEachThen(s0, Offered(processed, heap), if |rest| > 0 then [MinTime(rest)] else [], circTime);
  }

  /**
   * With no callback landing on absolute time 0, runEvent asks for at most
   * one callback, at the time of the second event it replays, and only when
   * none was pending on entry.
   */
  lemma RunEventArmsOnce(s: Arming, processed: seq<ScheduledEvent>, circTime: U64)
    requires forall i :: 0 <= i < |processed| ==> Pending(processed[i].time, circTime) != 0
    ensures ArmEach(s, Rearms(processed), circTime) ==
      if s.eventTime == 0 && |processed| > 1 then Arming(Pending(processed[1].time, circTime), s.armed + [processed[1].time]) else s
  {
    var ts := Rearms(processed);
    assert forall i :: 0 <= i < |ts| ==> ts[i] == processed[i + 1].time;
    ArmsAtMostOnce(s, ts, circTime);
  }

  // ---------------------------------------------------------------------
  // The host
  // ---------------------------------------------------------------------

  class Host {
    /** last_target_time: the simulator time already turned into instructions (0: none yet). */
    var lastTargetTime: U64
    /** m_taskQueue: the instruction counts waiting for the emulation thread. */
    var tasks: seq<U64>
    /** target_instr_begin: where the next engine call starts. */
    var resumePc: U64
    /** m_ports: the pins of each port, port p at index p - 1. */
    var ports: seq<seq<Pin>>
    /** m_state: the saved 16-bit state of each port. */
    var savedStates: seq<seq<bool>>

    ghost predicate Valid()
      reads this
    {
      |tasks| <= 1 && PortsShape(ports) && SavedShape(savedStates)
    }

    constructor(ports: seq<seq<Pin>>, savedStates: seq<seq<bool>>, startPc: U64)
      requires PortsShape(ports) && SavedShape(savedStates)
      ensures Valid()
      ensures lastTargetTime == 0 && tasks == [] && resumePc == startPc
      ensures this.ports == ports && this.savedStates == savedStates
    {
      lastTargetTime := 0;
      tasks := [];
      resumePc := startPc;
      this.ports := ports;
      this.savedStates := savedStates;
    }

    /**
     * runToTime, with the instruction count for the time gap given (it is
     * computed in floating point from the gap and ClockInUse): the first
     * call only records the time; a time not after the last one changes
     * nothing; a count of 0 or above 10^9 changes nothing, so an over-large
     * gap is met again by the next call; otherwise the count is queued and
     * the time recorded.
     */
    method RunToTime(time: U64, count: U64)
      requires Valid()
      modifies this`lastTargetTime, this`tasks
      ensures Valid()
      ensures old(lastTargetTime) == 0 ==> lastTargetTime == time && tasks == old(tasks)
      ensures old(lastTargetTime) != 0 && (time <= old(lastTargetTime) || count == 0 || count > MaxTaskCount) ==>
        lastTargetTime == old(lastTargetTime) && tasks == old(tasks)
      ensures old(lastTargetTime) != 0 && old(lastTargetTime) < time && 0 < count <= MaxTaskCount ==>
        lastTargetTime == time && tasks == Enqueue(old(tasks), count)
    {
      if lastTargetTime == 0 {
        lastTargetTime := time;
        return;
      }
      if time <= lastTargetTime {
        return;
      }
      if count > MaxTaskCount {
        return;
      }
      if count > 0 {
        EnqueueAddsCount(tasks, count);
        tasks := Enqueue(tasks, count);
        lastTargetTime := time;
      }
    }

    /**
     * The inner loop of emuLoop for one task: call the engine with
     * sub-batches of at most 500000 instructions, storing the current PC
     * after every call, and abandon the task on the first failing call.
     */
    method RunTask(count: U64, emu: (U64, nat) -> EmuResult) returns (issued: seq<nat>, pcs: seq<U64>)
      modifies this`resumePc
      ensures RanTask(old(resumePc), count, emu, issued, pcs)
      ensures resumePc == StartOf(old(resumePc), pcs, |pcs|)
    {
      ghost var pc0 := resumePc;
      var remaining: nat := count;
      issued, pcs := [], [];
      assert issued + Batches(remaining) == Batches(count);
      while remaining > 0
        invariant TaskLoop(pc0, count, emu, issued, pcs, remaining)
        invariant resumePc == StartOf(pc0, pcs, |pcs|)
      {
        var step := Min(remaining, BatchSize);
        var res := emu(resumePc, step);
        TaskStep(pc0, count, emu, issued, pcs, remaining);
        issued := issued + [step];
        pcs := pcs + [res.pc];
        resumePc := res.pc;
        remaining := remaining - step;
        if !res.ok {
          return;
        }
      }
      TaskDone(pc0, count, emu, issued, pcs);
    }

    /**
     * One round of emuLoop once a task is queued: take the front task and
     * run it.
     */
    method ServeNextTask(emu: (U64, nat) -> EmuResult) returns (issued: seq<nat>, pcs: seq<U64>)
      requires Valid() && |tasks| > 0
      modifies this`tasks, this`resumePc
      ensures Valid() && tasks == old(tasks)[1..]
      ensures RanTask(old(resumePc), old(tasks)[0], emu, issued, pcs)
      ensures resumePc == StartOf(old(resumePc), pcs, |pcs|)
    {
      var task := tasks[0];
      tasks := tasks[1..];
      issued, pcs := RunTask(task, emu);
    }

    /** setPortState: pin i of the port is driven from bit i of state. */
    method SetPortState(port: nat, state: seq<bool>)
      requires Valid() && 1 <= port <= |ports| && |state| == PinCount
      modifies this`ports
      ensures Valid()
      ensures ports == old(ports)[port - 1 := Driven(old(ports)[port - 1], state)]
    {
      var pins := ports[port - 1];
      var i := 0;
      while i < |pins|
        invariant i <= |pins| == PinCount
        invariant forall j :: 0 <= j < |pins| ==> pins[j] == if j < i then old(ports)[port - 1][j].(portState := state[j]) else old(ports)[port - 1][j]
      {
        pins := pins[i := pins[i].(portState := state[i])];
        i := i + 1;
      }
      assert pins == Driven(old(ports)[port - 1], state);
      ports := ports[port - 1 := pins];
    }

    /** cofigPort with shift 0: pins 0 to 7 take the mode their nibble of config selects. */
    method CofigPort(port: nat, config: Word, shift: nat, setAlternate: (Pin, bool) -> bool)
      requires Valid() && 1 <= port <= |ports| && port < SavedPorts && shift == 0
      modifies this`ports
      ensures Valid()
      ensures ports == old(ports)[port - 1 := ConfiguredPort(old(ports)[port - 1], config, setAlternate, savedStates[port])]
    {
      var pins := ports[port - 1];
      var i := shift;
      while i < shift + 8
        invariant shift <= i <= shift + 8 && |pins| == PinCount
        invariant forall j :: 0 <= j < i ==>
          pins[j] == ConfigurePin(old(ports)[port - 1][j], Nibble(config, j), setAlternate, savedStates[port][j])
        invariant forall j :: i <= j < PinCount ==> pins[j] == old(ports)[port - 1][j]
      {
        pins := pins[i := ConfigurePin(pins[i], Nibble(config, i), setAlternate, savedStates[port][i])];
        i := i + 1;
      }
      assert pins == ConfiguredPort(old(ports)[port - 1], config, setAlternate, savedStates[port]);
      ports := ports[port - 1 := pins];
    }

    /** readInputs: bit i of the result is set exactly when pin i reads high. */
    method ReadInputs(port: nat) returns (state: seq<bool>)
      requires Valid() && 1 <= port <= |ports|
      ensures |state| == PinCount
      ensures forall i :: 0 <= i < PinCount ==> state[i] == ports[port - 1][i].inputHigh
    {
      var pins := ports[port - 1];
      state := seq(PinCount, _ => false);
      var i := 0;
      while i < |pins|
        invariant i <= |pins| == PinCount == |state|
        invariant forall j :: 0 <= j < PinCount ==> state[j] == (j < i && pins[j].inputHigh)
      {
        if pins[i].inputHigh {
          state := state[i := true];
        }
        i := i + 1;
      }
    }

    /** The switch in runEvent: a pin set or a configuration (shift 0) reaches the pins. */
    method RunAction(a: EventAction, setAlternate: (Pin, bool) -> bool)
      requires Valid() && Fits(a, |ports|)
      modifies this`ports
      ensures Valid()
      ensures ports == Apply(old(ports), savedStates, a, setAlternate)
    {
      match a {
        case NoAction =>
        case PinSet(port, state) =>
          SetPortState(port, state);
        case PortConfig(port, config, shift) =>
          if shift == 0 {
            CofigPort(port, config, shift, setAlternate);
          }
      }
    }

    /**
     * One iteration of runEvent: pop the top event, replay it, and ask for a
     * callback at the new top's time when events remain and none is pending.
     */
    method RunNextEvent(sched: Scheduler, setAlternate: (Pin, bool) -> bool, circTime: U64) returns (e: ScheduledEvent)
      requires Valid() && |sched.heap| > 0 && forall x :: x in sched.heap ==> Fits(x.action, |ports|)
      modifies this`ports, sched
      ensures Valid()
      ensures IsTop(old(sched.heap), e) && e.time == MinTime(old(sched.heap))
      ensures multiset(sched.heap) + multiset{e} == multiset(old(sched.heap))
      ensures forall x :: x in sched.heap ==> x in old(sched.heap)
      ensures ports == Apply(old(ports), savedStates, e.action, setAlternate)
      ensures sched.State() == ArmEach(old(sched.State()), if |sched.heap| > 0 then [MinTime(sched.heap)] else [], circTime)
    {
      e := sched.PopEarliest();
      TopTime(old(sched.heap), e);
      assert e in multiset(old(sched.heap));
      RunAction(e.action, setAlternate);
      forall x | x in sched.heap
        ensures x in old(sched.heap)
      {
        assert x in multiset(sched.heap) + multiset{e};
      }
      ghost var before := sched.State();
      if |sched.heap| > 0 && sched.eventTime == 0 {
        var k := EarliestIndex(sched.heap);
        TopTime(sched.heap, sched.heap[k]);
        sched.AddEvent(sched.heap[k].time, circTime);
      }
      if |sched.heap| > 0 {
        ArmEachAppend(before, [], MinTime(sched.heap), circTime);
        assert [] + [MinTime(sched.heap)] == [MinTime(sched.heap)];
      }
    }

    /**
     * runEvent: replay every scheduled event, earliest first, until the
     * heap is empty; after each event, when events remain and no callback is
     * pending, ask for one at the new top's time.
     */
    method RunEvent(sched: Scheduler, setAlternate: (Pin, bool) -> bool, circTime: U64) returns (processed: seq<ScheduledEvent>)
      requires Valid() && forall x :: x in sched.heap ==> Fits(x.action, |ports|)
      modifies this`ports, sched
      ensures Valid() && |ports| == |old(ports)|
      ensures sched.heap == []
      ensures multiset(processed) == multiset(old(sched.heap))
      ensures forall i, j :: 0 <= i < j < |processed| ==> processed[i].time <= processed[j].time
      ensures forall x :: x in processed ==> Fits(x.action, |old(ports)|)
      ensures ports == ApplyAll(old(ports), savedStates, processed, setAlternate)
      ensures sched.State() == ArmEach(old(sched.State()), Rearms(processed), circTime)
      ensures (forall i :: 0 <= i < |processed| ==> Pending(processed[i].time, circTime) != 0) ==>
        sched.State() == if old(sched.eventTime) == 0 && |processed| > 1
          then Arming(Pending(processed[1].time, circTime), old(sched.armed) + [processed[1].time])
          else old(sched.State())
    {
      ghost var h0 := sched.heap;
      processed := [];
      while |sched.heap| > 0
        invariant Valid() && |ports| == |old(ports)|
        invariant Progress(h0, sched.heap, processed)
        invariant forall x :: x in h0 ==> Fits(x.action, |old(ports)|)
        invariant ports == ApplyAll(old(ports), savedStates, processed, setAlternate)
        invariant sched.State() == ArmEach(old(sched.State()), Offered(processed, sched.heap), circTime)
        decreases |sched.heap|
      {
        ghost var before, heapBefore, mid := processed, sched.heap, sched.State();
        var e := RunNextEvent(sched, setAlternate, circTime);
        ProgressStep(h0, heapBefore, before, e, sched.heap);
        ArmedAfterStep(old(sched.State()), mid, sched.State(), before, heapBefore, e, sched.heap, circTime);
        ApplyAllStep(old(ports), savedStates, before, e, setAlternate);
        processed := processed + [e];
      }
      assert Offered(processed, sched.heap) == Rearms(processed);
      if forall i :: 0 <= i < |processed| ==> Pending(processed[i].time, circTime) != 0 {
        RunEventArmsOnce(old(sched.State()), processed, circTime);
      }
    }

    /** hook_code: advance the RCM by one tick, then let emulation continue. */
    method HookCode(rcm: Stm32Rcm.Rcm) returns (r: bool)
      requires rcm.Valid()
      modifies rcm, rcm.regs[Stm32Rcm.CtrlOffset / 4]
      ensures rcm.Valid() && r
      ensures rcm.ticks == (old(rcm.ticks) + 1) % AddressSpace
    {
      rcm.RunTick();
      r := QemuDevice.HookCode();
    }
  }

  /** registerPeripheral: register the eight live devices, in order, and report success. */
  method RegisterPeripherals(reg: Registry) returns (ok: bool)
    requires reg.Valid()
    modifies reg
    ensures reg.Valid() && ok
    ensures reg.devices == RegisterAll(old(reg.devices), LiveDevices())
  {
    var ds := LiveDevices();
    ghost var m := reg.devices;
    assert RegisterAll(m, ds[..0]) == m;
    RegisterNext(reg, m, ds, 0);
    RegisterNext(reg, m, ds, 1);
    RegisterNext(reg, m, ds, 2);
    RegisterNext(reg, m, ds, 3);
    RegisterNext(reg, m, ds, 4);
    RegisterNext(reg, m, ds, 5);
    RegisterNext(reg, m, ds, 6);
    RegisterNext(reg, m, ds, 7);
    assert ds[..8] == ds;
    ok := true;
  }

  /** One registerDevice call of registerPeripheral: the k-th device joins the map. */
  method RegisterNext(reg: Registry, ghost m: map<U64, Device>, ds: seq<Device>, k: nat)
    requires reg.Valid() && k < |ds| && reg.devices == RegisterAll(m, ds[..k])
    modifies reg
    ensures reg.Valid() && reg.devices == RegisterAll(m, ds[..k + 1])
  {
    reg.RegisterDevice(Some(ds[k]));
    RegisterAllStep(m, ds, k);
  }
}
