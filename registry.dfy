/**
 * The peripheral registry: devices keyed by base address in an ordered map,
 * and the address lookup the MMIO callbacks use. A lookup checks only the
 * device with the greatest base at or below the address, and the end of its
 * range is computed in uint64 arithmetic.
 */
module PeripheralRegistry {
  import opened Wrappers

  const AddressSpace: nat := 0x1_0000_0000_0000_0000

  /** A uint64 value. */
  type U64 = n: nat | n < AddressSpace

  /** What the registry sees of a peripheral: its name, base address and size. */
  datatype Device = Device(name: string, base: U64, size: U64)

  // ---------------------------------------------------------------------
  // Base-class defaults of PeripheralDevice
  // ---------------------------------------------------------------------

  /** The base getBaseAddress(). */
  function DefaultBaseAddress(): (r: U64)
    ensures r == 0
  {
    0
  }

  /** The base getSize(): -1 converted to uint64, the largest uint64. */
  function DefaultSize(): (r: U64)
    ensures r == AddressSpace - 1
  {
    AddressSpace - 1
  }

  /** The value a read leaves in the caller's result, and whether it succeeded. */
  datatype ReadReply = ReadReply(ok: bool, value: Option<int>)

  /**
   * The base handle_read: succeeds and stores 0 into the result when there
   * is one (None stands for a null result pointer).
   */
  function DefaultHandleRead(hasResult: bool): (r: ReadReply)
    ensures r.ok
    ensures hasResult <==> r.value == Some(0)
    ensures !hasResult <==> r.value.None?
  {
    ReadReply(true, if hasResult then Some(0) else None)
  }

  /** The base handle_write: changes nothing and succeeds. */
  function DefaultHandleWrite(address: U64, size: int, value: int): (ok: bool)
    ensures ok
  {
    true
  }

  // ---------------------------------------------------------------------
  // Lookup
  // ---------------------------------------------------------------------

  /** m is the greatest element of bases at or below a. */
  predicate IsGreatestAtMost(bases: set<nat>, a: nat, m: nat) {
    m in bases && m <= a && forall b | b in bases && b <= a :: b <= m
  }

  lemma {:induction false} GreatestAtMostExists(bases: set<nat>, a: nat)
    requires exists b :: b in bases && b <= a
    ensures exists m :: IsGreatestAtMost(bases, a, m)
    decreases bases
  {
    var x :| x in bases && x <= a;
    var rest := bases - {x};
    if exists b :: b in rest && b <= a {
      GreatestAtMostExists(rest, a);
      var m: nat :| IsGreatestAtMost(rest, a, m);
      var g := if m < x then x else m;
      forall b | b in bases && b <= a
        ensures b <= g
      {
        if b != x {
          assert b in rest;
        }
      }
      assert IsGreatestAtMost(bases, a, g);
    } else {
      assert forall b :: b in bases && b <= a ==> b == x || b in rest;
      assert IsGreatestAtMost(bases, a, x);
    }
  }

  /** The greatest base at or below a: the key `--upper_bound(a)` reaches, or None when it would be begin(). */
  function GreatestBaseAtMost(bases: set<nat>, a: nat): (r: Option<nat>)
    ensures r.None? <==> forall b :: b in bases ==> a < b
    ensures r.Some? ==> IsGreatestAtMost(bases, a, r.value)
  {
    if forall b | b in bases :: a < b then None
    else
      GreatestAtMostExists(bases, a);
      var m: nat :| IsGreatestAtMost(bases, a, m);
      Some(m)
  }

  /**
   * findDevice(a): the device with the greatest base at or below a, if a lies
   * before base + size (mod 2^64). It is meant for maps keyed by base
   * (`KeyedByBase`, kept by `Registry.Valid()`), where the test
   * `devices[b].base == b` always holds; findDevice itself trusts the key.
   */
  function FindIn(devices: map<U64, Device>, a: U64): (r: Option<Device>)
    ensures r.Some? ==> r.value in devices.Values && r.value.base <= a
  {
    match GreatestBaseAtMost(devices.Keys, a)
    case None => None
    case Some(b) =>
      var d := devices[b];
      if devices[b].base == b && a < (b + d.size) % AddressSpace then Some(d) else None
  }

  /** Every device sits under its own base address. */
  ghost predicate KeyedByBase(devices: map<U64, Device>) {
    forall b :: b in devices ==> devices[b].base == b
  }

  /**
   * Device ranges end below 2^64, so base + size does not wrap, and do not
   * overlap.
   */
  ghost predicate NonOverlapping(devices: map<U64, Device>) {
    && (forall b :: b in devices ==> b + devices[b].size < AddressSpace)
    && (forall b, c :: b in devices && c in devices && b < c ==> b + devices[b].size <= c)
  }

  /** The device whose range [base, base + size) contains a. */
  ghost predicate Owns(d: Device, a: nat) {
    d.base <= a < d.base + d.size
  }

  class Registry {
    var devices: map<U64, Device>

    ghost predicate Valid()
      reads this
    {
      KeyedByBase(devices)
    }

    constructor()
      ensures Valid() && devices == map[]
    {
      devices := map[];
    }

    /**
     * registerDevice: a null device (None) is ignored, and a device whose base
     * is already taken is rejected, leaving the first one in place.
     */
    method RegisterDevice(device: Option<Device>)
      requires Valid()
      modifies this
      ensures Valid()
      ensures device.None? ==> devices == old(devices)
      ensures device.Some? && device.value.base in old(devices) ==> devices == old(devices)
      ensures device.Some? && device.value.base !in old(devices) ==> devices == old(devices)[device.value.base := device.value]
    {
      match device {
        case None =>
        case Some(d) =>
          if d.base !in devices {
            devices := devices[d.base := d];
          }
      }
    }

    function FindDevice(a: U64): (r: Option<Device>)
      reads this
      ensures r == FindIn(devices, a)
    {
      FindIn(devices, a)
    }

    /** reset: forget every device. */
    method Reset()
      modifies this
      ensures Valid() && devices == map[]
    {
      devices := map[];
    }
  }

  // ---------------------------------------------------------------------
  // Properties of the lookup
  // ---------------------------------------------------------------------

  /** An address below every registered base has no device. */
  lemma FindBelowEveryBase(devices: map<U64, Device>, a: U64)
    requires forall b :: b in devices ==> a < b
    ensures FindIn(devices, a).None?
  {
  }

  /** After reset no address has a device. */
  lemma FindAfterReset(a: U64)
    ensures FindIn(map[], a).None?
  {
  }

  /**
   * With keyed, non-overlapping ranges the lookup finds exactly the device
   * whose range contains the address, and nothing when none does.
   */
  lemma FindUniqueOwner(devices: map<U64, Device>, a: U64)
    requires KeyedByBase(devices) && NonOverlapping(devices)
    ensures forall d :: d in devices.Values ==> (FindIn(devices, a) == Some(d) <==> Owns(d, a))
    ensures FindIn(devices, a).None? <==> forall d :: d in devices.Values ==> !Owns(d, a)
  {
    match GreatestBaseAtMost(devices.Keys, a)
    case None =>
      forall d | d in devices.Values
        ensures !Owns(d, a)
      {
        var c :| c in devices && devices[c] == d;
      }
    case Some(b) =>
      var d0 := devices[b];
      assert (b + d0.size) % AddressSpace == b + d0.size;
      forall d | d in devices.Values && Owns(d, a)
        ensures d == d0
      {
        var c :| c in devices && devices[c] == d;
        assert c < b ==> c + devices[c].size <= b;
      }
  }

  /**
   * With overlapping ranges an address inside an earlier device but past the
   * end of a later one finds nothing: only the greatest base is checked.
   */
  lemma OverlapHidesEarlierDevice()
    ensures var outer := Device("outer", 0x100, 0x100);
      var inner := Device("inner", 0x180, 0x10);
      Owns(outer, 0x1A0) && FindIn(map[0x100 := outer, 0x180 := inner], 0x1A0).None?
  {
    var outer := Device("outer", 0x100, 0x100);
    var inner := Device("inner", 0x180, 0x10);
    var devices := map[0x100 := outer, 0x180 := inner];
    assert devices.Keys == {0x100, 0x180};
    assert GreatestBaseAtMost(devices.Keys, 0x1A0) == Some(0x180);
  }

  /**
   * A device of the default size 2^64 - 1 at a base above 0 is never found,
   * because base + size wraps to base - 1; at base 0 it owns every address
   * except the last.
   */
  lemma DefaultSizeWraps(d: Device, a: U64)
    requires d.size == DefaultSize()
    ensures d.base > 0 ==> FindIn(map[d.base := d], a).None?
    ensures d.base == 0 ==> (FindIn(map[0 := d], a) == Some(d) <==> a < AddressSpace - 1)
  {
    assert map[d.base := d].Keys == {d.base};
    if d.base > 0 && d.base <= a {
      assert GreatestBaseAtMost({d.base}, a) == Some(d.base);
      assert (d.base + d.size) % AddressSpace == d.base - 1;
    }
    if d.base == 0 {
      assert GreatestBaseAtMost({0}, a) == Some(0);
    }
  }
}
