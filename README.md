# STM32/APM32F103 peripheral core, modelled in Dafny

This project models the memory-mapped peripheral core of a microcontroller
simulator. The simulator runs STM32/APM32F103 firmware on the Unicorn CPU
engine.

- Unicorn forwards every access to the peripheral window `0x40000000…` to
  the simulator's MMIO callbacks.
- The callbacks look up the owning device in a registry ordered by base
  address and call its `handle_read` or `handle_write`.
- The live peripherals are the RCM (reset and clock management), the FMC
  (flash controller), AFIO and GPIO ports A to E. They are built on a
  generic `Register` engine. In that engine each register is a list of bit
  fields with an access policy (RO, WO, RW, W1C, W0C) and optional
  callbacks.
- The GPIO callbacks put pin events on a time-ordered heap. The simulator
  pops that heap in `runEvent`.
- The instruction budget comes from the RCM clock (`runToTime`). It is
  executed in batches of at most 500000 instructions (`emuLoop`).
- Next to the live peripherals the source keeps older raw-struct
  versions, which are modelled too: `rcm.cpp`, the older `Rcm.cpp`,
  `gpio.cpp` and `fmc.cpp`.

Modules:

- `Bits`: 32-bit register words, as sequences of 32 booleans, least
  significant bit first. Also `&`, `|`, `~`, shifts, masks, field
  extraction and insertion, and conversion to and from numbers.
  `Wrappers` holds `Option`.
- `RegisterEngine` (Register.h): the `Register` class. Its `write`,
  `read`, `get_field_value`, `set_field_value` and their non-intrusive
  versions are methods, each proved against specification functions.
  Callbacks are not function pointers. `Write` returns the list of fields
  whose callback is due, with the value each receives, and the peripheral
  acts on that list.
- `PeripheralRegistry` (peripheral_factory.h/.cpp): the device map and
  `findDevice`. Also the base `PeripheralDevice` defaults.
- `QemuDevice` (qemudevice.h/.cpp): the event heap, the MMIO callbacks,
  the start-PC computation, the instruction count and the memory map.
- `Clock` and `Stm32Rcm` (stm32Rcm.*): the live RCM, its clock selection
  and the MCU time.
- `Stm32Gpio`, `Stm32Fmc`, `Stm32Afio`: the live GPIO, FMC and AFIO.
- `Stm32Host` (stm32/stm32.cpp): peripheral registration, `runToTime`,
  `emuLoop`, `runEvent`, and the pin-facing `setPortState`, `cofigPort`
  and `readInputs`.
- `LegacyRcm` (rcm.h/rcm.cpp), `OlderRcm` (Rcm.cpp), `LegacyGpio`
  (gpio.h/gpio.cpp), `LegacyFmc` (fmc.h/fmc.cpp): the raw-struct versions.

Where the code does something other than its comments or the chip manual
describe, the model follows the code. The lemmas state the consequence:

- Every peripheral passes the access size in bytes (4) to
  `Register::write`, which reads it as a bit count. The write mask is
  therefore `0xF`, and an MMIO write reaches bits 3:0 only. The effects:
  - the FMC `LOCK` bit can never be cleared (`Stm32Fmc.LockNeverClears`);
  - the BSC clear half never acts (`Stm32Gpio.BscClearMaskZero`);
  - only pin 0, or pin 8, of a configuration write arrives
    (`Stm32Gpio.CfgWriteEvent`).
- The live RCM calls `write(new_value)` with one argument. That does not
  match the two-argument `write` of the Register.h shown. It is modelled
  as a full 32-bit write with every field read-write, as the register
  definitions in stm32RcmReg.h declare them.
- `cofigPort` marks every output mode (MODE 01, 10 or 11) with CNF 00,
  a push-pull output, as analog (`Stm32Host.PushPullOutputMarkedAnalog`).
- The legacy RCM hides HSEEN and HSERDY on read, because its read mask
  leaves out bits 16 and 17 (`LegacyRcm.CtrlReadHidesHse`). It also never
  records `pll_start_tick` (`LegacyRcm.PllReadyIgnoresEnableTime`).
- The legacy GPIO lock is released by writing 0
  (`LegacyGpio.LockCanBeReleased`).
- A start tick of 0 means "no start" in the live RCM, so HSE enabled at
  tick 0 never becomes ready (`Stm32Rcm.HseReadyTiming`).

## Model

| member | source | states |
|---|---|---|
| RegisterEngine.BuildFieldMap | src/microsim/cores/qemu/Register.h:118-123 | the loop builds exactly the map that enters the fields in order, so a later duplicate name wins |
| RegisterEngine.FieldMapOfIsFieldMap | src/microsim/cores/qemu/Register.h:118-123 | that map holds exactly the declared names, each mapped to the last field carrying it |
| RegisterEngine.FieldMapStep | src/microsim/cores/qemu/Register.h:120-122 | entering one more field keeps the map correct for the longer table |
| RegisterEngine.AscendingDisjoint | src/microsim/cores/qemu/Register.h:84-94 | a field table listed in ascending, non-overlapping order has no bit in two fields |
| RegisterEngine.AscendingApart | src/microsim/cores/qemu/Register.h:84-94 | in such a table every earlier field ends before every later one starts |
| RegisterEngine.WriteMaskMatchesSource | src/microsim/cores/qemu/Register.h:247 | the write mask is (1 << size) - 1 below 32 and all ones from 32 on |
| RegisterEngine.LastCover | src/microsim/cores/qemu/Register.h:255-285 | finds the last field whose bits inside the write mask hold bit i, or reports that none does |
| RegisterEngine.StepBit | src/microsim/cores/qemu/Register.h:255-285 | one pass of the first write loop changes only the bits of its field inside the write mask, by that field's policy |
| RegisterEngine.EffectiveBit | src/microsim/cores/qemu/Register.h:247-286 | each stored bit is the old bit outside the mask, else the policy bit of the last field covering it, else 0 |
| RegisterEngine.WriteKeepsBitsOutsideMask | src/microsim/cores/qemu/Register.h:247-286 | write never changes a bit outside the write mask, so no bit at or above `size` |
| RegisterEngine.WriteClearsUncoveredBits | src/microsim/cores/qemu/Register.h:250-286 | bits inside the mask that no field covers are 0 after a write |
| RegisterEngine.WriteFieldPolicy | src/microsim/cores/qemu/Register.h:255-285 | inside the mask, RO and W1C bits keep their value, RW and WO bits take the written bit, and W0C bits clear exactly when the written field is 0 |
| RegisterEngine.FiringsSound | src/microsim/cores/qemu/Register.h:288-322 | every reported callback is due, carries the value its policy passes, and the list follows field order |
| RegisterEngine.FiringsComplete | src/microsim/cores/qemu/Register.h:288-322 | every due callback is reported |
| RegisterEngine.FiresIffChanged | src/microsim/cores/qemu/Register.h:298-305 | an RO field never fires; an RW or WO field fires exactly when one of its bits inside the mask changed |
| RegisterEngine.FullWriteOfReadWriteFields | src/microsim/cores/qemu/Register.h:246-286 | a full 32-bit write to an all-RW register stores the written bits inside fields and 0 elsewhere |
| RegisterEngine.WriteFiring | src/microsim/cores/qemu/Register.h:288-322 | per policy: RO never fires; RW/WO fire iff a masked bit changed; W1C iff the written field value is 1; W0C iff it is 0 |
| RegisterEngine.FullWriteFiring | src/microsim/cores/qemu/Register.h:298-305 | on a full write to an all-RW register, a field's callback runs iff one of its bits differs from v, and receives v's field bits |
| RegisterEngine.LowWrite | src/microsim/cores/qemu/Register.h:246-286 | a write of `size` bits through an RW/WO field at bit 0 stores exactly v's low `size` bits and keeps the rest |
| RegisterEngine.LowWriteFiring | src/microsim/cores/qemu/Register.h:298-305 | that field's callback fires iff one of the low `size` bits changed, with the field's stored value |
| RegisterEngine.FiringOfUpTo | src/microsim/cores/qemu/Register.h:288-322 | looking up field j among the reported callbacks yields its value iff it fired |
| RegisterEngine.FiringOfAppend | src/microsim/cores/qemu/Register.h:288-322 | appending a later field's callback leaves the lookup of earlier fields unchanged |
| RegisterEngine.FiringOfWrite | src/microsim/cores/qemu/Register.h:288-322 | after write, field j's callback received a value iff it fired, and that value is what its policy passes |
| RegisterEngine.ClearWriteOnlyBits | src/microsim/cores/qemu/Register.h:180-186 | read clears exactly the bits of write-only fields |
| RegisterEngine.ClearWriteOnlyWithoutWO | src/microsim/cores/qemu/Register.h:180-186 | a register without WO fields reads back its value unchanged |
| RegisterEngine.NoHooksKeepStorage | src/microsim/cores/qemu/Register.h:160-174 | without field read callbacks a read leaves storage untouched |
| RegisterEngine.HooksStayInFields | src/microsim/cores/qemu/Register.h:160-174 | field read callbacks change storage only inside their own fields |
| RegisterEngine.ApplyPolicies | src/microsim/cores/qemu/Register.h:250-285 | the first loop of write computes the effective value of the specification |
| RegisterEngine.CollectFirings | src/microsim/cores/qemu/Register.h:288-322 | the second loop collects exactly the due callbacks, in field order |
| RegisterEngine.MaskWriteOnly | src/microsim/cores/qemu/Register.h:180-186 | the last loop of read clears the write-only fields |
| RegisterEngine.Register.constructor | src/microsim/cores/qemu/Register.h:113-114 | a register with the given offset, name, fields and reset value, and a field map consistent with its fields |
| RegisterEngine.Register.FindField | src/microsim/cores/qemu/Register.h:130-136 | None iff no field has the name; otherwise the last field with that name |
| RegisterEngine.Register.Write | src/microsim/cores/qemu/Register.h:246-331 | stores the policy-combined value and reports the due field callbacks and the register callback's value |
| RegisterEngine.Register.Read | src/microsim/cores/qemu/Register.h:156-193 | runs the field read callbacks on storage and returns the register callback's view with WO bits cleared |
| RegisterEngine.Register.GetField | src/microsim/cores/qemu/Register.h:202-219 | a full read, then the named field's bits, or 0 for an unknown name |
| RegisterEngine.Register.GetFieldNonIntrusive | src/microsim/cores/qemu/Register.h:227-240 | 0 for an unknown name, otherwise a value that fits in the field's width |
| RegisterEngine.Register.SetField | src/microsim/cores/qemu/Register.h:340-378 | unknown name: nothing changes; else a full write of the old value with the field replaced by v |
| RegisterEngine.Register.SetFieldNonIntrusive | src/microsim/cores/qemu/Register.h:385-412 | replaces only the field's bits, and the field then reads back as v clamped to its width |
| Bits.ClampTestMatchesSource | src/microsim/cores/qemu/Register.h:357-361 | the clamp of set_field_value keeps a value below 2^width and replaces a larger one by the all-ones field |
| Bits.OnesMatchesSource | src/microsim/cores/qemu/Register.h:247 | the mask of `size` ones is worth 2^size - 1 |
| PeripheralRegistry.DefaultBaseAddress | src/microsim/cores/qemu/peripheral_factory.cpp:19-22 | the base device reports base 0 |
| PeripheralRegistry.DefaultSize | src/microsim/cores/qemu/peripheral_factory.cpp:27-29 | the base device's size is -1 as uint64, the largest uint64 |
| PeripheralRegistry.DefaultHandleRead | src/microsim/cores/qemu/peripheral_factory.cpp:11-17 | the base read succeeds, and yields 0 exactly when a result pointer is given |
| PeripheralRegistry.DefaultHandleWrite | src/microsim/cores/qemu/peripheral_factory.cpp:6-9 | the base write succeeds |
| PeripheralRegistry.GreatestAtMostExists | src/microsim/cores/qemu/peripheral_factory.h:47-49 | a greatest base at or below the address exists when some base is |
| PeripheralRegistry.GreatestBaseAtMost | src/microsim/cores/qemu/peripheral_factory.h:47-49 | `--upper_bound(a)`: None iff every base exceeds a, otherwise the greatest base at or below a |
| PeripheralRegistry.FindIn | src/microsim/cores/qemu/peripheral_factory.h:46-57 | a found device is a registered one whose base lies at or below the address |
| PeripheralRegistry.Registry.constructor | src/microsim/cores/qemu/peripheral_factory.h:32 | a new registry is empty |
| PeripheralRegistry.Registry.RegisterDevice | src/microsim/cores/qemu/peripheral_factory.h:33-44 | a null device or a taken base leaves the map unchanged; otherwise the device is added under its base |
| PeripheralRegistry.Registry.FindDevice | src/microsim/cores/qemu/peripheral_factory.h:46-57 | the lookup on the current map |
| PeripheralRegistry.Registry.Reset | src/microsim/cores/qemu/peripheral_factory.h:63-65 | the map becomes empty |
| PeripheralRegistry.FindBelowEveryBase | src/microsim/cores/qemu/peripheral_factory.h:47-50 | an address below every base finds nothing |
| PeripheralRegistry.FindAfterReset | src/microsim/cores/qemu/peripheral_factory.h:63-65 | after reset no address finds a device |
| PeripheralRegistry.FindUniqueOwner | src/microsim/cores/qemu/peripheral_factory.h:46-57 | with non-overlapping ranges the lookup finds a device iff its range holds the address, and nothing iff no range does |
| PeripheralRegistry.OverlapHidesEarlierDevice | src/microsim/cores/qemu/peripheral_factory.h:46-57 | with overlapping ranges an address inside an earlier device but past a later one finds nothing |
| PeripheralRegistry.DefaultSizeWraps | src/microsim/cores/qemu/peripheral_factory.h:52 | a device of the default size at a non-zero base owns no address, because base + size wraps |
| QemuDevice.DefaultEvent | src/microsim/cores/qemu/qemudevice.h:52-56 | a default event has time 0 and no action |
| QemuDevice.LaterIsStrictOrder | src/microsim/cores/qemu/qemudevice.h:57-61 | the heap comparator is irreflexive, transitive and asymmetric |
| QemuDevice.TopIsEarliest | src/microsim/cores/qemu/qemudevice.h:57-61 | the top of the heap has the smallest time of all events in it |
| QemuDevice.EarliestIndex | src/microsim/cores/qemu/qemudevice.h:111 | `top()`: finds an event of smallest time |
| QemuDevice.Scheduler.constructor | src/microsim/cores/qemu/qemudevice.h:111 | empty heap, no pending callback |
| QemuDevice.Scheduler.ScheduleEvent | src/microsim/cores/qemu/qemudevice.cpp:73-84 | the event is added to the heap; a callback is requested for it only when none is pending, and the request becomes the pending one |
| QemuDevice.Scheduler.AddEvent | src/microsim/cores/qemu/qemudevice.cpp:82 | requests a simulator callback at the given delay, which becomes pending in eventTime; the heap is unchanged |
| QemuDevice.ArmEachAppend | src/microsim/cores/qemu/qemudevice.cpp:79-83 | offering one more callback time asks for it exactly when none is pending after the earlier ones |
| QemuDevice.ArmsAtMostOnce | src/microsim/cores/qemu/qemudevice.cpp:79-83 | behind the `eventTime == 0` guard, a sequence of requests arms at most one callback, the first, and only if none was pending |
| QemuDevice.Scheduler.PopEarliest | src/microsim/cores/qemu/stm32/stm32.cpp:253-255 | removes and returns an event of smallest time; the heap loses exactly that event |
| QemuDevice.BusAddress | src/microsim/cores/qemu/qemudevice.cpp:152 | the bus address is 0x40000000 + offset when it does not wrap |
| QemuDevice.AsUnsigned | src/microsim/cores/qemu/qemudevice.cpp:157 | the int64 result as uint64 keeps its bit pattern: congruent modulo 2^64, and below 2^63 iff non-negative |
| QemuDevice.MmioRead | src/microsim/cores/qemu/qemudevice.cpp:150-161 | on a registry keyed by base with disjoint ranges: the handler result, as uint64, of the device whose range holds 0x40000000 + offset, or 0 when none does |
| QemuDevice.MmioWriteTarget | src/microsim/cores/qemu/qemudevice.cpp:164-171 | the write goes to a registered device at or below the bus address; on a well laid out registry to the device whose range holds it, dropped iff none does |
| QemuDevice.RegisterOffset | src/microsim/cores/qemu/stm32/stm32Gpio.cpp:283 | the offset is below 2^32 and equals address - base for an address within 4 GiB above the base |
| QemuDevice.StoredWord | src/microsim/cores/qemu/stm32/stm32Gpio.cpp:285 | the written int64 value cast to uint32: its value modulo 2^32 |
| QemuDevice.StartPc | src/microsim/cores/qemu/qemudevice.cpp:485-507 | SP is word 0 once read; the start PC is word 1 with bit 0 set, or 0 when either read fails |
| QemuDevice.StartPcNonZeroIffRead | src/microsim/cores/qemu/qemudevice.cpp:485-507 | the start PC is non-zero iff both reads succeeded |
| QemuDevice.InstructionsToExecute | src/microsim/cores/qemu/qemudevice.cpp:268-281 | 0 when the target is not ahead or an instruction takes under 1 ps; else the whole number nearest to the time gap over ps per instruction, halves rounded up |
| QemuDevice.QuotientBounds | src/microsim/cores/qemu/qemudevice.cpp:276-278 | the quotient by at least 1 ps is no larger than the gap, so the rounded count fits in uint64 |
| QemuDevice.HookCode | src/microsim/cores/qemu/qemudevice.cpp:434-441 | the base code hook lets emulation continue |
| QemuDevice.HookMemUnmapped | src/microsim/cores/qemu/qemudevice.cpp:442-448 | an unmapped access is reported not handled |
| QemuDevice.BaseRegisterPeripheral | src/microsim/cores/qemu/qemudevice.cpp:449-452 | the base class registers nothing and fails |
| QemuDevice.Stm32MemoryParams | src/microsim/cores/qemu/stm32/stm32.cpp:423-432 | the STM32 map: ROM mirrors flash in size; flash and ROM starts stay the defaults |
| QemuDevice.MemoryMapsDisjoint | src/microsim/cores/qemu/qemudevice.h:154-167 | the default and the STM32 memory maps lay out disjoint regions inside 32-bit space |
| Clock.DefaultSources | src/microsim/cores/qemu/stm32/stm32Rcm.h:60-62 | HSI = HSE = 8 MHz, maximum 96 MHz |
| Clock.SysClockFrequency | src/microsim/cores/qemu/stm32/stm32Rcm.cpp:137-184 | the frequency is HSI, HSE, or at most the maximum CPU frequency |
| Clock.ExtractNibble | src/microsim/cores/qemu/stm32/stm32Rcm.cpp:137-184 | the PLLMULCFG and SYSCLKSEL fields read as the weighted sum of their bits |
| Clock.SysClockByBits | src/microsim/cores/qemu/stm32/stm32Rcm.cpp:137-184 | SYSCLKSEL 0 or 3 gives HSI, 1 gives HSE, 2 gives min(PLL input × (PLLMULCFG + 2), max) |
| Clock.SysClockReadsOnlyClockBits | src/microsim/cores/qemu/stm32/stm32Rcm.cpp:137-184 | only SYSCLKSEL, PLLSRCSEL, PLLHSEPSC and PLLMULCFG decide the frequency |
| Clock.DefaultFrequencyRange | src/microsim/cores/qemu/stm32/stm32Rcm.cpp:137-184 | with the default sources every configuration runs between 8 and 96 MHz, never 0 |
| Clock.PllExample | src/microsim/cores/qemu/stm32/stm32Rcm.cpp:137-184 | PLL from HSI/2 with PLLMULCFG 14 runs at 64 MHz |
| Clock.McuTimeExact | src/microsim/cores/qemu/stm32/stm32Rcm.h:67-78 | without wrap-around, the split seconds/remainder computation equals 2 × floor(ticks × 10^12 / freq) |
| Clock.McuTimeMonotone | src/microsim/cores/qemu/stm32/stm32Rcm.h:67-78 | at a fixed frequency the MCU time does not decrease as ticks grow |
| Clock.FrequencyChangeRescalesPast | src/microsim/cores/qemu/stm32/stm32Rcm.h:67-78 | past ticks are rescaled at the current frequency, so raising it makes the MCU time jump back |
| Stm32Rcm.CtrlResetValue | src/microsim/cores/qemu/stm32/stm32RcmReg.h:12 | CTRL resets to 0x83 |
| Stm32Rcm.AhbClkEnResetValue | src/microsim/cores/qemu/stm32/stm32RcmReg.h:318 | AHBCLKEN resets to 0x14 |
| Stm32Rcm.CstsResetValue | src/microsim/cores/qemu/stm32/stm32RcmReg.h:427 | CSTS resets to 0x0C000000 |
| Stm32Rcm.CtrlWellFormed | src/microsim/cores/qemu/stm32/stm32RcmReg.h:7-93 | the CTRL fields lie in the word, ascending, all read-write |
| Stm32Rcm.CfgWellFormed | src/microsim/cores/qemu/stm32/stm32RcmReg.h:96-209 | the same for CFG |
| Stm32Rcm.IntWellFormed | src/microsim/cores/qemu/stm32/stm32RcmReg.h:212-249 | the same for INT |
| Stm32Rcm.Apb2RstWellFormed | src/microsim/cores/qemu/stm32/stm32RcmReg.h:252-277 | the same for APB2RST |
| Stm32Rcm.Apb1RstWellFormed | src/microsim/cores/qemu/stm32/stm32RcmReg.h:280-311 | the same for APB1RST |
| Stm32Rcm.AhbClkEnWellFormed | src/microsim/cores/qemu/stm32/stm32RcmReg.h:314-332 | the same for AHBCLKEN |
| Stm32Rcm.Apb2ClkEnWellFormed | src/microsim/cores/qemu/stm32/stm32RcmReg.h:335-360 | the same for APB2CLKEN |
| Stm32Rcm.Apb1ClkEnWellFormed | src/microsim/cores/qemu/stm32/stm32RcmReg.h:363-393 | the same for APB1CLKEN |
| Stm32Rcm.BdCtrlWellFormed | src/microsim/cores/qemu/stm32/stm32RcmReg.h:396-420 | the same for BDCTRL |
| Stm32Rcm.CstsWellFormed | src/microsim/cores/qemu/stm32/stm32RcmReg.h:423-446 | the same for CSTS |
| Stm32Rcm.LayoutWellFormed | src/microsim/cores/qemu/stm32/stm32RcmReg.h:7-446 | every register offset's field table is well formed |
| Stm32Rcm.LayoutsWellFormed | src/microsim/cores/qemu/stm32/stm32RcmReg.h:7-446 | every register's fields are well formed and pairwise disjoint |
| Stm32Rcm.LayoutsSound | src/microsim/cores/qemu/stm32/stm32Rcm.cpp:23-60 | the same, for every register index built by initialize_registers |
| Stm32Rcm.CfgFindSelectionStatus | src/microsim/cores/qemu/stm32/stm32RcmReg.h:111-117 | find_field("SCLKSELSTS") on CFG is field 1 |
| Stm32Rcm.CtrlFindHseReady | src/microsim/cores/qemu/stm32/stm32RcmReg.h:51-57 | find_field("HSERDYFLG") on CTRL is field 5 |
| Stm32Rcm.WriteStoresFieldBits | src/microsim/cores/qemu/stm32/stm32Rcm.cpp:63-80 | outside CFG a write stores exactly the written bits that lie in a field |
| Stm32Rcm.CfgClockBitsCovered | src/microsim/cores/qemu/stm32/stm32RcmReg.h:96-209 | SYSCLKSEL, SCLKSELSTS and the PLL configuration bits all lie in fields |
| Stm32Rcm.CfgSelectionFiring | src/microsim/cores/qemu/stm32/stm32Rcm.cpp:55-59 | the SYSCLKSEL callback runs iff a CFG write changes bits 1:0, and receives the new selection |
| Stm32Rcm.CfgWriteMirrorsSelection | src/microsim/cores/qemu/stm32/stm32Rcm.cpp:55-59 | after a CFG write SCLKSELSTS holds the new selection when it changed, else the written bits 3:2 |
| Stm32Rcm.HseStartIffEnabled | src/microsim/cores/qemu/stm32/stm32Rcm.cpp:46-54 | a CTRL write starts the HSE timer iff it turns HSEEN from 0 to 1 |
| Stm32Rcm.CfgWriteSetsFrequency | src/microsim/cores/qemu/stm32/stm32Rcm.cpp:137-184 | after a CFG write the frequency is the one the written value selects |
| Stm32Rcm.HseReadyTiming | src/microsim/cores/qemu/stm32/stm32Rcm.cpp:111-121 | HSE becomes ready iff 1000 ticks passed since a non-zero start tick; a start tick of 0 never does |
| Stm32Rcm.HseReadyFlagSet | src/microsim/cores/qemu/stm32/stm32Rcm.cpp:111-121 | setting HSERDYFLG sets bit 17 and nothing else |
| Stm32Rcm.Rcm.constructor | src/microsim/cores/qemu/stm32/stm32Rcm.cpp:10-60 | every register at its reset value, counters at 0, the given clock sources |
| Stm32Rcm.Rcm.Descriptor | src/microsim/cores/qemu/stm32/stm32Rcm.h:55-57 | base RCM_BASE, size RCM_END - RCM_BASE |
| Stm32Rcm.Rcm.HandleWrite | src/microsim/cores/qemu/stm32/stm32Rcm.cpp:63-80 | fails iff the size is not 4 or the offset is unknown; otherwise stores the full-word write, mirrors SYSCLKSEL and starts HSE as the callbacks do |
| Stm32Rcm.Rcm.HandleRead | src/microsim/cores/qemu/stm32/stm32Rcm.cpp:83-102 | without a result pointer or for a size other than 4 it fails; unknown offset: 0 and failure; otherwise the stored word |
| Stm32Rcm.Rcm.RunTick | src/microsim/cores/qemu/stm32/stm32Rcm.cpp:104-133 | counts one tick (mod 2^64) and, once the HSE delay has passed, sets HSERDYFLG and forgets the start tick |
| Stm32Rcm.Rcm.SetHseReady | src/microsim/cores/qemu/stm32/stm32Rcm.cpp:115-118 | sets only the HSERDYFLG bit of CTRL and leaves every other register as it was |
| Stm32Rcm.Rcm.SysClock | src/microsim/cores/qemu/stm32/stm32Rcm.cpp:137-184 | the frequency CFG selects: HSI, HSE or at most the maximum |
| Stm32Rcm.DefaultRcmClockPositive | src/microsim/cores/qemu/stm32/stm32Rcm.h:67-78 | with the default sources getMcuTime never divides by zero |
| Stm32Fmc.RegisterOffsets | src/microsim/cores/qemu/stm32/stm32Fmc.h:16-23 | the eight register offsets correspond one-to-one to register indices |
| Stm32Fmc.FmcLayouts | src/microsim/cores/qemu/stm32/stm32Fmc.cpp:20-29 | one field table per register, eight in all |
| Stm32Fmc.Ctrl1ResetValue | src/microsim/cores/qemu/stm32/stm32FmcReg.h:19 | CTRL1 resets to 0x30 |
| Stm32Fmc.Ctrl2ResetValue | src/microsim/cores/qemu/stm32/stm32FmcReg.h:182 | CTRL2 resets to 0x80, LOCK set |
| Stm32Fmc.ObcsResetValue | src/microsim/cores/qemu/stm32/stm32FmcReg.h:286 | OBCS resets to 0x03FFFFFC |
| Stm32Fmc.ResetValues | src/microsim/cores/qemu/stm32/stm32FmcReg.h:19-324 | all reset values, WRTPROT 0xFFFFFFFF, KEY, OBKEY, STS and ADDR 0 |
| Stm32Fmc.LayoutSound | src/microsim/cores/qemu/stm32/stm32FmcReg.h:16-339 | each register's fields lie in the word and are pairwise disjoint |
| Stm32Fmc.LayoutsSound | src/microsim/cores/qemu/stm32/stm32FmcReg.h:16-339 | the same for all eight registers at once |
| Stm32Fmc.WriteSpec | src/microsim/cores/qemu/stm32/stm32Fmc.cpp:64-81 | a write yields eight registers again |
| Stm32Fmc.WriteKeepsHighBits | src/microsim/cores/qemu/stm32/stm32Fmc.cpp:73 | a write changes only the addressed register, and only its bits 3:0 |
| Stm32Fmc.ReadOnlyRegistersKeep | src/microsim/cores/qemu/stm32/stm32FmcReg.h:126-128 | OBCS, WRTPROT and BUSYF never change on a write |
| Stm32Fmc.WriteOnlyRegisterWrite | src/microsim/cores/qemu/stm32/stm32FmcReg.h:76-79 | KEY, OBKEY and ADDR store v's bits 3:0 and keep the rest |
| Stm32Fmc.Ctrl1Write | src/microsim/cores/qemu/stm32/stm32FmcReg.h:16-66 | a CTRL1 write sets bits 3:0 from v and keeps everything else, PBSF included |
| Stm32Fmc.StsWrite | src/microsim/cores/qemu/stm32/stm32FmcReg.h:121-172 | an STS write keeps BUSYF, sets PEF from v, clears the unused bits 1 and 3, keeps bits 31:4 |
| Stm32Fmc.Ctrl2Write | src/microsim/cores/qemu/stm32/stm32FmcReg.h:179-252 | a CTRL2 write sets PG, PAGEERA and MASSERA from v, clears bit 3, keeps bits 31:4 |
| Stm32Fmc.ReadsMaskWriteOnly | src/microsim/cores/qemu/stm32/stm32Fmc.cpp:34-54 | KEY, OBKEY and ADDR read 0; every other register reads as stored |
| Stm32Fmc.LockNeverClears | src/microsim/cores/qemu/stm32/stm32FmcReg.h:216-218 | once LOCK is set, no write clears it and reads keep showing it |
| Stm32Fmc.Fmc.constructor | src/microsim/cores/qemu/stm32/stm32Fmc.cpp:9-29 | eight registers with their field tables and reset values |
| Stm32Fmc.Fmc.Descriptor | src/microsim/cores/qemu/stm32/stm32Fmc.h:54-56 | name "FMC", base 0x40022000, size FMC_REG_SIZE |
| Stm32Fmc.Fmc.HandleWrite | src/microsim/cores/qemu/stm32/stm32Fmc.cpp:64-81 | fails iff the size is not 4 or the offset is unknown, with nothing changed; otherwise the register write with size 4 |
| Stm32Fmc.Fmc.HandleRead | src/microsim/cores/qemu/stm32/stm32Fmc.cpp:34-54 | registers unchanged; size other than 4 fails; unknown offset yields 0 and fails; otherwise the stored word with WO bits cleared |
| Stm32Gpio.PortNumber | src/microsim/cores/qemu/stm32/stm32Gpio.cpp:20-41 | ports A to E map to 1 to 5 by base; an unknown base gets 1 |
| Stm32Gpio.PortLayouts | src/microsim/cores/qemu/stm32/stm32Gpio.cpp:50-62 | one field table per register, seven in all |
| Stm32Gpio.CfgResetValue | src/microsim/cores/qemu/stm32/stm32GpioReg.h:23 | CFGLOW and CFGHIG reset to 0x44444444 |
| Stm32Gpio.ResetPinsFloatingInput | src/microsim/cores/qemu/stm32/stm32GpioReg.h:23 | at reset every pin is MODE 00, CNF 01: a floating input |
| Stm32Gpio.CfgSound | src/microsim/cores/qemu/stm32/stm32GpioReg.h:29 | the 16 generated MODE/CFG fields lie in the word, ascending |
| Stm32Gpio.LayoutsSound | src/microsim/cores/qemu/stm32/stm32GpioReg.h:20-260 | every register's fields lie in the word and are pairwise disjoint |
| Stm32Gpio.OdataFind | src/microsim/cores/qemu/stm32/stm32GpioReg.h:152 | find_field("ODATA") on ODATA is its single 16-bit RW field |
| Stm32Gpio.PinState | src/microsim/cores/qemu/stm32/stm32Gpio.cpp:69-92 | the event's pin state is bits 15:0 of the word |
| Stm32Gpio.EventTime | src/microsim/cores/qemu/stm32/stm32Gpio.cpp:69-92 | the event delay is MCU time less circuit time, when that does not wrap |
| Stm32Gpio.WriteKeepsHighBits | src/microsim/cores/qemu/stm32/stm32Gpio.cpp:277-293 | no MMIO write changes bit 4 or above of any register |
| Stm32Gpio.OdataWriteEffect | src/microsim/cores/qemu/stm32/stm32Gpio.cpp:69-92 | an ODATA write stores v's bits 3:0 and schedules the new pin data iff pins 0 to 3 changed |
| Stm32Gpio.BscClearMaskZero | src/microsim/cores/qemu/stm32/stm32Gpio.cpp:96-131 | the BSC callback's clear mask is always 0 |
| Stm32Gpio.OdataRewrite | src/microsim/cores/qemu/stm32/stm32Gpio.cpp:96-149 | set_field_value("ODATA") from a callback stores the new bits 3:0 and schedules the new pin data |
| Stm32Gpio.BscRegisterValue | src/microsim/cores/qemu/stm32/stm32Gpio.cpp:96-131 | the BSC callback receives v's bits 3:0 |
| Stm32Gpio.BcRegisterValue | src/microsim/cores/qemu/stm32/stm32Gpio.cpp:132-149 | the BC callback receives v's bits 3:0 |
| Stm32Gpio.BscRequest | src/microsim/cores/qemu/stm32/stm32Gpio.cpp:96-131 | BSC asks for a new ODATA iff v sets a clear pin among 0 to 3, and asks for the pins with those set |
| Stm32Gpio.BcRequest | src/microsim/cores/qemu/stm32/stm32Gpio.cpp:132-149 | BC asks for a new ODATA iff v clears a set pin among 0 to 3, and asks for the pins with those cleared |
| Stm32Gpio.BscWriteEffect | src/microsim/cores/qemu/stm32/stm32Gpio.cpp:96-131 | a BSC write sets the pins 0 to 3 that v sets, clears none, and schedules an event iff a pin was newly set |
| Stm32Gpio.BcWriteEffect | src/microsim/cores/qemu/stm32/stm32Gpio.cpp:132-149 | a BC write clears the pins 0 to 3 that v sets, and schedules an event iff a pin was cleared |
| Stm32Gpio.CfgLowNibble | src/microsim/cores/qemu/stm32/stm32GpioReg.h:20-117 | a configuration write stores v's bits 3:0 and keeps the rest |
| Stm32Gpio.CfgWriteEvent | src/microsim/cores/qemu/stm32/stm32Gpio.cpp:157-186 | a CFGLOW/CFGHIG write always schedules a configuration event, carrying only bits 3:0 of v |
| Stm32Gpio.IdataWriteIgnored | src/microsim/cores/qemu/stm32/stm32GpioReg.h:124-126 | an IDATA write changes nothing and schedules nothing |
| Stm32Gpio.LockWriteEffect | src/microsim/cores/qemu/stm32/stm32Gpio.cpp:190-202 | a LOCK write stores v's bits 3:0 and schedules nothing |
| Stm32Gpio.ReadsMaskWriteOnly | src/microsim/cores/qemu/stm32/stm32GpioReg.h:173-232 | BSC reads 0, BC reads without bits 15:0, the other registers read as stored |
| Stm32Gpio.Gpio.constructor | src/microsim/cores/qemu/stm32/stm32Gpio.cpp:16-62 | seven registers at their reset values, port number from the base |
| Stm32Gpio.Gpio.Descriptor | src/microsim/cores/qemu/stm32/stm32Gpio.h:53-55 | name "GPIO (port)", the port's base, size GPIO_REG_SIZE |
| Stm32Gpio.Gpio.OdataCallback | src/microsim/cores/qemu/stm32/stm32Gpio.cpp:69-92 | schedules the stored pin data ORed with the callback value exactly when ODATA fired, arming a callback only if none is pending |
| Stm32Gpio.Gpio.HandleWrite | src/microsim/cores/qemu/stm32/stm32Gpio.cpp:277-293 | fails iff the size is not 4 or the offset is unknown, with nothing changed; otherwise the registers and scheduled events of the write specification, arming a callback only if none is pending |
| Stm32Gpio.Gpio.RequestCallback | src/microsim/cores/qemu/stm32/stm32Gpio.cpp:96-149 | BSC/BC rewrite ODATA through set_field_value when the pin data changes, firing ODATA's callback, arming a callback only if none is pending |
| Stm32Gpio.PendingAtMcuTime | src/microsim/cores/qemu/stm32/stm32Gpio.cpp:83-89 | an event scheduled MCU time less circuit time ahead is due exactly at the MCU time |
| Stm32Gpio.Gpio.HandleRead | src/microsim/cores/qemu/stm32/stm32Gpio.cpp:245-267 | registers unchanged; size other than 4 fails; unknown offset yields 0 and fails; otherwise the stored word with WO bits cleared |
| Stm32Afio.SwjcfgMaskValue | src/microsim/cores/qemu/stm32/Afio.h:40 | the SWJCFG mask is 0x07000000 |
| Stm32Afio.Remap1Write | src/microsim/cores/qemu/stm32/Afio.cpp:125-129 | the two masked REMAP1 assignments together store v itself |
| Stm32Afio.WriteSpec | src/microsim/cores/qemu/stm32/Afio.cpp:101-158 | a write keeps six registers |
| Stm32Afio.ReadSpec | src/microsim/cores/qemu/stm32/Afio.cpp:48-91 | unknown offset reads 0, REMAP1 reads without SWJCFG, the rest as stored |
| Stm32Afio.WriteThenRead | src/microsim/cores/qemu/stm32/Afio.cpp:48-158 | a read after a write returns v, without the SWJCFG bits for REMAP1; other registers are unaffected |
| Stm32Afio.Afio.constructor | src/microsim/cores/qemu/stm32/Afio.cpp:8-27 | every register resets to 0 |
| Stm32Afio.Afio.Descriptor | src/microsim/cores/qemu/stm32/Afio.h:72-74 | name "AFIO", its base and size |
| Stm32Afio.Afio.IsClockEnabled | src/microsim/cores/qemu/stm32/Afio.cpp:33-38 | always enabled |
| Stm32Afio.Afio.HandleRead | src/microsim/cores/qemu/stm32/Afio.cpp:48-91 | size other than 4 fails; otherwise success with the read specification's value |
| Stm32Afio.Afio.HandleWrite | src/microsim/cores/qemu/stm32/Afio.cpp:101-158 | fails iff the size is not 4 or the offset is unknown, with nothing changed; otherwise the write specification |
| Stm32Host.LiveDevices | src/microsim/cores/qemu/stm32/stm32.cpp:447-457 | eight devices registered |
| Stm32Host.RegisterAllDistinct | src/microsim/cores/qemu/peripheral_factory.h:33-44 | registering devices with distinct free bases keeps each of them and every earlier device |
| Stm32Host.RegisterLiveDevices | src/microsim/cores/qemu/stm32/stm32.cpp:447-457 | registering the live devices keeps all eight |
| Stm32Host.LiveLayoutNonOverlapping | src/microsim/cores/qemu/stm32/stm32.cpp:447-457 | the live ranges do not overlap and stay below 2^64 |
| Stm32Host.LiveUniqueOwner | src/microsim/cores/qemu/stm32/stm32.cpp:447-457 | on the live layout every bus address reaches exactly the device whose range holds it, or none |
| Stm32Host.LiveMmioRouting | src/microsim/cores/qemu/qemudevice.cpp:150-171 | on the live layout an MMIO read returns the handler result of the device holding 0x40000000 + offset and a write is delivered to it; an address no device holds reads 0 and drops the write |
| Stm32Host.ClockInUse | src/microsim/cores/qemu/stm32/stm32.cpp:185 | the RCM frequency when present and non-zero, else 8 MHz; never 0 |
| Stm32Host.EnqueueAddsCount | src/microsim/cores/qemu/stm32/stm32.cpp:201-211 | the queue keeps one task, which grows by exactly count unless it wraps |
| Stm32Host.BatchesShape | src/microsim/cores/qemu/stm32/stm32.cpp:151 | the sub-batches sum to the task, each 1 to 500000, all but the last full |
| Stm32Host.ChainedExtend | src/microsim/cores/qemu/stm32/stm32.cpp:135-165 | one more engine call from the stored PC extends the run and keeps earlier outcomes |
| Stm32Host.TaskStep | src/microsim/cores/qemu/stm32/stm32.cpp:135-165 | each loop step follows the plan, and a failing call ends the run as complete |
| Stm32Host.TaskDone | src/microsim/cores/qemu/stm32/stm32.cpp:135-165 | a loop that used up the plan is a complete run |
| Stm32Host.CompleteRunExecutesTask | src/microsim/cores/qemu/stm32/stm32.cpp:135-165 | when every engine call succeeds the run executes exactly the task's instructions |
| Stm32Host.Nibble | src/microsim/cores/qemu/stm32/stm32.cpp:499-501 | pin i's configuration is bits 4i to 4i+3 |
| Stm32Host.ConfigurePinAgainstDocumented | src/microsim/cores/qemu/stm32/stm32.cpp:496-526 | cofigPort agrees with the MODE/CNF encoding on direction, open drain, pull and input analog; outputs are analog iff CNF is 00 |
| Stm32Host.PushPullOutputMarkedAnalog | src/microsim/cores/qemu/stm32/stm32.cpp:519-520 | MODE 01, CNF 00 comes out as an analog output, which the encoding does not call analog |
| Stm32Host.ConfiguredPort | src/microsim/cores/qemu/stm32/stm32.cpp:490-527 | cofigPort with shift 0 leaves pins 8 to 15 as they were |
| Stm32Host.Driven | src/microsim/cores/qemu/stm32/stm32.cpp:468-478 | setPortState keeps the port's pin count |
| Stm32Host.DrivenPins | src/microsim/cores/qemu/stm32/stm32.cpp:468-478 | setPortState sets each pin's level from its bit and changes nothing else |
| Stm32Host.Apply | src/microsim/cores/qemu/stm32/stm32.cpp:256-269 | an event keeps the shape of the ports |
| Stm32Host.ApplyAll | src/microsim/cores/qemu/stm32/stm32.cpp:250-282 | replaying events keeps the shape of the ports |
| Stm32Host.MinTime | src/microsim/cores/qemu/stm32/stm32.cpp:253-255 | the smallest scheduled time, attained by some event |
| Stm32Host.TopTime | src/microsim/cores/qemu/stm32/stm32.cpp:253-255 | the top event's time is the minimum |
| Stm32Host.ApplyAllStep | src/microsim/cores/qemu/stm32/stm32.cpp:250-282 | replaying one more event applies it to the pins the earlier ones left |
| Stm32Host.RearmsAppend | src/microsim/cores/qemu/stm32/stm32.cpp:276-279 | each replayed event after the first is offered as a callback time, its own |
| Stm32Host.ProgressStep | src/microsim/cores/qemu/stm32/stm32.cpp:250-282 | popping the top keeps processed events in time order and ahead of those left |
| Stm32Host.OfferedStep | src/microsim/cores/qemu/stm32/stm32.cpp:276-279 | after each replayed event that leaves events waiting, runEvent offers the new top's time |
| Stm32Host.ArmEachThen | src/microsim/cores/qemu/stm32/stm32.cpp:276-279 | offering times in two rounds arms as offering them in one |
| Stm32Host.ArmedAfterStep | src/microsim/cores/qemu/stm32/stm32.cpp:276-279 | the arming state after one more replayed event is that of offering the times so far plus the new top's |
| Stm32Host.RunEventArmsOnce | src/microsim/cores/qemu/stm32/stm32.cpp:276-279 | one runEvent arms at most one callback, at the second replayed event's time, and only if none was pending |
| Stm32Host.Host.constructor | src/microsim/cores/qemu/stm32/stm32.cpp:166-173 | no target time yet, no tasks, the start PC |
| Stm32Host.Host.RunToTime | src/microsim/cores/qemu/stm32/stm32.cpp:166-249 | first call records the time only; a non-advancing time, zero or over 10^9 instructions changes nothing; otherwise records the time and enqueues the count |
| Stm32Host.Host.RunTask | src/microsim/cores/qemu/stm32/stm32.cpp:135-165 | runs the task in planned sub-batches, each resuming from the stored PC, until done or the first failing call |
| Stm32Host.Host.ServeNextTask | src/microsim/cores/qemu/stm32/stm32.cpp:135-165 | takes the first task off the queue and runs it |
| Stm32Host.Host.SetPortState | src/microsim/cores/qemu/stm32/stm32.cpp:468-478 | the addressed port's pins are driven from the state bits; other ports unchanged |
| Stm32Host.Host.CofigPort | src/microsim/cores/qemu/stm32/stm32.cpp:490-527 | pins 0 to 7 of the port take the mode their nibble selects |
| Stm32Host.Host.ReadInputs | src/microsim/cores/qemu/stm32/stm32.cpp:434-446 | bit i is set iff pin i reads high |
| Stm32Host.Host.RunAction | src/microsim/cores/qemu/stm32/stm32.cpp:256-269 | a pin set or a configuration event reaches the pins; no action changes nothing |
| Stm32Host.Host.RunNextEvent | src/microsim/cores/qemu/stm32/stm32.cpp:253-279 | pops an earliest event, applies it, and asks for a callback at the new top's time when events remain and none is pending |
| Stm32Host.Host.RunEvent | src/microsim/cores/qemu/stm32/stm32.cpp:250-282 | empties the heap, processing every event once in time order and applying each to the pins; while no request lands at absolute time 0, arms at most one callback, at the second event's time, and only when none was pending |
| Stm32Host.Host.HookCode | src/microsim/cores/qemu/stm32/stm32.cpp:458-465 | advances the RCM by one tick and continues |
| Stm32Host.RegisterPeripherals | src/microsim/cores/qemu/stm32/stm32.cpp:447-457 | registers the eight live devices in order and succeeds |
| LegacyRcm.MaskRelations | src/microsim/cores/qemu/stm32/rcm.cpp:101 | the forced CTRL write mask is the header mask plus HSEEN; the write-1-to-clear masks lie inside the write masks |
| LegacyRcm.ClearIfSet | src/microsim/cores/qemu/stm32/rcm.cpp:138-189 | clears the flag bit exactly when its clear bit is set in v |
| LegacyRcm.CtrlWriteBits | src/microsim/cores/qemu/stm32/rcm.cpp:88-133 | a CTRL write takes v on the forced writable bits and keeps HSERDY and PLLRDY |
| LegacyRcm.IntWriteBits | src/microsim/cores/qemu/stm32/rcm.cpp:138-189 | enables 12:8 take v, ready flags 4:0 and CSSFLG clear on their clear bits, all else kept |
| LegacyRcm.ResetWriteNeverClears | src/microsim/cores/qemu/stm32/rcm.cpp:194-205 | an APB reset write sets the writable bits of v and never clears |
| LegacyRcm.CstsWriteBits | src/microsim/cores/qemu/stm32/rcm.cpp:222-226 | a CSTS write changes only LSIEN and RSTFLGCLR |
| LegacyRcm.CfgWriteKeepsUnwritableBits | src/microsim/cores/qemu/stm32/rcm.cpp:134-137 | CFG bits 15 and 20 never change |
| LegacyRcm.CtrlReadHidesHse | src/microsim/cores/qemu/stm32/rcm.h:39 | a CTRL read never shows HSEEN or HSERDY; PLLRDY is shown |
| LegacyRcm.CfgReadReportsSelection | src/microsim/cores/qemu/stm32/rcm.cpp:294-298 | a CFG read reports SCLKSELSTS as the selection ORed with the stored bits |
| LegacyRcm.LowSpeedClocksReadReady | src/microsim/cores/qemu/stm32/rcm.cpp:324-332 | BDCTRL and CSTS always read bit 1 as ready |
| LegacyRcm.WriteThenRead | src/microsim/cores/qemu/stm32/rcm.cpp:73-346 | a read after a write shows v on bits both writable and readable, apart from the forced ones |
| LegacyRcm.TickCtrl | src/microsim/cores/qemu/stm32/rcm.cpp:379-414 | a tick changes at most HSERDY and PLLRDY |
| LegacyRcm.HseReadyTiming | src/microsim/cores/qemu/stm32/rcm.cpp:397-403 | over n ticks HSERDY is set iff it was, or 1000 ticks passed since the start |
| LegacyRcm.HseReadyAfterDelay | src/microsim/cores/qemu/stm32/rcm.cpp:104-107 | HSE enabled at tick t becomes ready exactly at t + 1000 |
| LegacyRcm.PllReadyIgnoresEnableTime | src/microsim/cores/qemu/stm32/rcm.cpp:390-395 | PLLRDY rises on the first tick past 750 however late PLLEN was set |
| LegacyRcm.InitialRegisters | src/microsim/cores/qemu/stm32/rcm.cpp:23-70 | ten registers at reset |
| LegacyRcm.AnyCommonBit | src/microsim/cores/qemu/stm32/rcm.h:152-160 | true iff the register and the mask share a set bit |
| LegacyRcm.Rcm.constructor | src/microsim/cores/qemu/stm32/rcm.cpp:10-70 | reset registers, HSERDY and PLLRDY cleared, counters 0 |
| LegacyRcm.Rcm.Descriptor | src/microsim/cores/qemu/stm32/rcm.h:148-150 | name "CMU (rcm)", size 0x400 |
| LegacyRcm.Rcm.HandleWrite | src/microsim/cores/qemu/stm32/rcm.cpp:73-266 | a size other than 4 is ignored but succeeds; an unknown offset fails; otherwise the register write, starting HSE on enable |
| LegacyRcm.Rcm.HandleRead | src/microsim/cores/qemu/stm32/rcm.cpp:269-346 | no instance or wrong size fails; unknown offset 0 and failure; otherwise the visible value under the read mask |
| LegacyRcm.Rcm.RunTick | src/microsim/cores/qemu/stm32/rcm.cpp:379-414 | counts a tick and updates CTRL's ready flags |
| LegacyRcm.Rcm.IsAhbClockEnabled | src/microsim/cores/qemu/stm32/rcm.h:152-154 | true iff AHBCLKEN shares a bit with the mask |
| LegacyRcm.Rcm.IsApb2ClockEnabled | src/microsim/cores/qemu/stm32/rcm.h:155-157 | true iff APB2CLKEN shares a bit with the mask |
| LegacyRcm.Rcm.IsApb1ClockEnabled | src/microsim/cores/qemu/stm32/rcm.h:158-160 | true iff APB1CLKEN shares a bit with the mask |
| LegacyRcm.Rcm.SysClock | src/microsim/cores/qemu/stm32/rcm.cpp:418-466 | HSI, HSE or at most the maximum CPU frequency |
| OlderRcm.WriteBits | src/microsim/cores/qemu/stm32/Rcm.cpp:65-146 | reset registers only gain bits; others take v on writable bits and clear set clear-mask bits |
| OlderRcm.CtrlReadClaimsClocksReady | src/microsim/cores/qemu/stm32/Rcm.cpp:164 | CTRL reads HSIRDY, HSERDY and PLLRDY as the read mask allows, regardless of state |
| OlderRcm.PllTick | src/microsim/cores/qemu/stm32/Rcm.cpp:227-237 | a tick changes only PLLRDY |
| OlderRcm.PllReadyAfterWait | src/microsim/cores/qemu/stm32/Rcm.cpp:227-237 | PLLRDY appears exactly after the wait count of ticks |
| OlderRcm.PllStaysPut | src/microsim/cores/qemu/stm32/Rcm.cpp:227-237 | with the count spent, ticks change nothing |
| OlderRcm.Rcm.constructor | src/microsim/cores/qemu/stm32/Rcm.cpp:8-62 | reset registers and the given masks and PLL count |
| OlderRcm.Rcm.HandleWrite | src/microsim/cores/qemu/stm32/Rcm.cpp:65-146 | succeeds iff the size is not 4 or the offset is known; stores the register write |
| OlderRcm.Rcm.HandleRead | src/microsim/cores/qemu/stm32/Rcm.cpp:149-217 | wrong size or no result fails; unknown offset 0 and failure; otherwise the visible value under the read mask |
| OlderRcm.Rcm.RunTick | src/microsim/cores/qemu/stm32/Rcm.cpp:220-249 | one PLL countdown step, then both reset registers clear |
| OlderRcm.Rcm.SysClock | src/microsim/cores/qemu/stm32/Rcm.cpp:250-297 | HSI, HSE or at most the maximum CPU frequency |
| LegacyGpio.WriteAccepts | src/microsim/cores/qemu/stm32/gpio.cpp:119-194 | exactly the seven register offsets are writable |
| LegacyGpio.BscSetWins | src/microsim/cores/qemu/stm32/gpio.cpp:144-161 | a set bit wins over a clear bit; the upper half of ODATA and other registers are kept |
| LegacyGpio.BcClears | src/microsim/cores/qemu/stm32/gpio.cpp:162-166 | BC clears exactly the pins set in v's low half |
| LegacyGpio.OutputWriteThenRead | src/microsim/cores/qemu/stm32/gpio.cpp:74-83 | ODATA reads back v's low half; BSC, BC and IDATA read 0 |
| LegacyGpio.WritesKeepOutputFit | src/microsim/cores/qemu/stm32/gpio.cpp:140-166 | no write sets ODATA's upper half |
| LegacyGpio.ConfigurationLock | src/microsim/cores/qemu/stm32/gpio.cpp:120-133 | with LOCKKEY set a configuration write changes nothing; without it the value reads back |
| LegacyGpio.LockKeyTransitions | src/microsim/cores/qemu/stm32/gpio.cpp:167-187 | LOCKKEY is set only by 0x00010000, cleared by 0 while set, kept otherwise; bits 15:0 follow |
| LegacyGpio.LockCanBeReleased | src/microsim/cores/qemu/stm32/gpio.cpp:177-179 | after locking, writing 0 releases the lock and configuration writes store again |
| LegacyGpio.Gpio.constructor | src/microsim/cores/qemu/stm32/gpio.cpp:11-41 | reset registers, the given base and name |
| LegacyGpio.Gpio.Descriptor | src/microsim/cores/qemu/stm32/gpio.h:102-104 | name "GPIO (port)", its base, size 0x20 |
| LegacyGpio.Gpio.IsClockEnabled | src/microsim/cores/qemu/stm32/gpio.cpp:42-44 | always enabled |
| LegacyGpio.Gpio.HandleRead | src/microsim/cores/qemu/stm32/gpio.cpp:54-99 | wrong size fails; otherwise the read specification's value |
| LegacyGpio.Gpio.HandleWrite | src/microsim/cores/qemu/stm32/gpio.cpp:109-197 | fails iff the size is not 4 or the offset is unknown, with nothing changed; otherwise the write specification |
| LegacyFmc.KeysDiffer | src/microsim/cores/qemu/stm32/fmc.h:51-52 | KEY1 and KEY2 differ |
| LegacyFmc.InitialState | src/microsim/cores/qemu/stm32/fmc.cpp:21-36 | the controller starts locked, LOCK set, no key step |
| LegacyFmc.Signed | src/microsim/cores/qemu/stm32/fmc.cpp:65-104 | the value through an int: congruent mod 2^32, negative iff bit 31 is set |
| LegacyFmc.WritesKeepConsistent | src/microsim/cores/qemu/stm32/fmc.cpp:119-207 | every accepted write keeps the lock flag equal to CTRL2's LOCK bit |
| LegacyFmc.UnlockSequence | src/microsim/cores/qemu/stm32/fmc.cpp:135-151 | KEY1 then KEY2 unlocks, clearing only LOCK |
| LegacyFmc.WrongKeyRestarts | src/microsim/cores/qemu/stm32/fmc.cpp:146-149 | any other KEY write just restarts the sequence |
| LegacyFmc.OnlyKeysUnlock | src/microsim/cores/qemu/stm32/fmc.cpp:119-207 | a locked controller stays locked except by a KEY write |
| LegacyFmc.Ctrl2WriteEffect | src/microsim/cores/qemu/stm32/fmc.cpp:160-180 | unlocked without LOCK: CTRL2 stored; otherwise locked and only LOCK can be added |
| LegacyFmc.Fmc.constructor | src/microsim/cores/qemu/stm32/fmc.cpp:10-36 | the reset state |
| LegacyFmc.Fmc.Descriptor | src/microsim/cores/qemu/stm32/fmc.h:71-73 | name "FMC", base 0x40022000, size 0x24 |
| LegacyFmc.Fmc.HandleRead | src/microsim/cores/qemu/stm32/fmc.cpp:58-109 | wrong size fails; otherwise success with the loaded value sign-extended |
| LegacyFmc.Fmc.HandleWrite | src/microsim/cores/qemu/stm32/fmc.cpp:119-207 | fails iff size is not 4 or the offset is unknown, nothing changed; otherwise the write specification |
| LegacyFmc.Fmc.WriteKey | src/microsim/cores/qemu/stm32/fmc.cpp:135-151 | the KEY write: the state becomes the key-sequence specification of the old state and the value |
| LegacyFmc.Fmc.WriteCtrl2 | src/microsim/cores/qemu/stm32/fmc.cpp:160-180 | the CTRL2 write: the state becomes the CTRL2 specification (LOCK sticks once set) |

## Left out

- Threads, the task queue's locking and the emulation thread are not modelled. `emuLoop` is modelled as serving one task.
- Floating point is not modelled. The instruction count of `runToTime` is computed in floating point; it is a parameter here (`count`).
- QemuDevice.InstructionsToExecute: divides and rounds in exact real arithmetic; the rounding error of IEEE doubles for large time gaps is not modelled.
- Simulator::addEvent is not part of this model. QemuDevice.Scheduler.AddEvent records the callback as pending in eventTime, at circTime plus the delay, which is what the `eventTime == 0` guards of qemudevice.cpp:79 and stm32.cpp:276 rely on; the simulator's check of the simulator's state, and the simulator clearing eventTime before it calls runEvent, are not modelled.
- Clock.SysClockFrequency: the uint64 product of the PLL input and the multiplier is taken as unbounded; it is not checked for overflow.
- The Unicorn engine is not modelled. Memory reads, register writes and `uc_emu_start` are parameters: `StartPc` takes the two read results and `RunTask` an engine function.
- File I/O, Qt debug output and printing have no effect on the modelled state and are left out.
- `doAction`, STM32 remapping, `ModMcu` and the USART, I2C, SPI and timer peripherals lie outside the peripheral core and are left out.
- The live GPIO `is_clock_enabled` and the RCM `isAHPB*ClockEnabled` helpers only gate debug output in the shown code and are left out.
- The internals of `Stm32Pin` are not part of this model. `setAlternate` is a parameter, and a pin is the record of the attributes `cofigPort` and `setPortState` set.
- The system memory region is not modelled. `MemoryMapsDisjoint` covers flash, SRAM, ROM, the peripheral window and the PPB only.
- Rcm.h, the header of the older Rcm.cpp, is not part of this model. Its masks and PLL wait count are parameters of `OlderRcm.Rcm.constructor`.
- Stm32Host.Host.CofigPort: requires shift 0 and leaves pins 8 to 15 alone (`Stm32Host.ConfiguredPort`). With shift 8 the source's loop runs over pins 8 to 15 with `0b1111 << (i * 4)` for shifts 32 to 60, which is undefined behaviour on a 32-bit value, and configures those pins from whatever bits that yields.
- Stm32Fmc.ReadOnlyRegistersKeep, Stm32Fmc.WriteOnlyRegisterWrite and Stm32Fmc.ReadsMaskWriteOnly: take the mask of a width-32 field (KEY, OBKEY, ADDR, WRTPROT) as all ones (`Bits.Ones`). Register.h builds it as `((1U << width) - 1) << start_bit`, and a 32-bit shift is undefined behaviour. A build that masks the shift count gets mask 0, and Register.h then skips the field. In that build a WRTPROT write clears bits 3:0 (0xFFFFFFFF becomes 0xFFFFFFF0), a KEY, OBKEY or ADDR write stores 0 in bits 3:0, and a read does not clear those fields.
- Stm32Rcm.Rcm.HandleWrite: the one-argument `write(new_value)` call is modelled as a 32-bit write, because the header shown has no such overload.
- Stm32Host.Host.RunToTime: the `count > 1e9` test is on the floating-point count; the model tests the integer count.
- Clock.McuTimeExact and Clock.McuTimeMonotone: hold only below the uint64 wrap-around, which the model writes out.
- Stm32Host.EnqueueAddsCount: holds only when the merged count does not wrap past 2^64.
- LegacyFmc.Fmc.HandleRead: WRTPROT is a const member of a value-initialised struct and reads 0, not its documented 0xFFFFFFFF.
- Event heap ties: the order of events with equal times is unspecified; the model pops the first of them.
