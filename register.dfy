/**
 * The generic bit-field register of the peripheral layer: a 32-bit value, a
 * table of named fields with access policies, and the read/write paths that
 * apply those policies and decide which write callbacks fire.
 *
 * Callbacks are not stored in the register. `Write` returns the firings (the
 * field and the value its callback receives, in field order) and the value
 * the register-level callback receives; the owning peripheral runs its
 * callbacks on them. This is exact: in the C++ both the firing decisions and
 * the callback values come from the local old and effective values, which no
 * callback can change.
 */
module RegisterEngine {
  import opened Wrappers
  import opened Bits

  /** Access policy of a bit field. */
  datatype Access = RW | RO | WO | W1C | W0C

  /** A named field of `width` bits starting at bit `start`. */
  datatype BitField = BitField(name: string, start: nat, width: nat, access: Access)

  /** A field write callback that is due: the field's index and the value it receives. */
  datatype Firing = Firing(field: nat, value: Word)

  /** What a write hands to callbacks: field firings first, then the register callback's value. */
  datatype WriteOutcome = WriteOutcome(fired: seq<Firing>, registerValue: Word)

  function FieldMask(f: BitField): Word {
    Mask(f.start, f.width)
  }

  /**
   * The write mask `(size >= 32) ? 0xFFFFFFFF : (1U << size) - 1`: `size`
   * counts bits, although the peripherals pass a byte count.
   */
  function WriteMask(size: nat): Word {
    Ones(size)
  }

  /** No bit belongs to two fields. */
  predicate Disjoint(fs: seq<BitField>) {
    forall j, k, i :: 0 <= j < k < |fs| && 0 <= i < WordBits ==> !(FieldMask(fs[j])[i] && FieldMask(fs[k])[i])
  }

  /** Every field lies inside the word and is at least one bit wide. */
  predicate WithinWord(fs: seq<BitField>) {
    forall j :: 0 <= j < |fs| ==> 1 <= fs[j].width && fs[j].start + fs[j].width <= WordBits
  }

  /** Fields listed by increasing start bit, each ending at or before the next begins. */
  predicate Ascending(fs: seq<BitField>) {
    forall j :: 0 <= j < |fs| - 1 ==> fs[j].start + fs[j].width <= fs[j + 1].start
  }

  lemma {:induction false} AscendingApart(fs: seq<BitField>, j: nat, k: nat)
    requires Ascending(fs) && j < k < |fs|
    ensures fs[j].start + fs[j].width <= fs[k].start
    decreases k - j
  {
    if j + 1 < k {
      AscendingApart(fs, j + 1, k);
    }
  }

  /** A field table in ascending order has pairwise disjoint fields. */
  lemma AscendingDisjoint(fs: seq<BitField>)
    requires Ascending(fs)
    ensures Disjoint(fs)
  {
    forall j, k, i | 0 <= j < k < |fs| && 0 <= i < WordBits
      ensures !(FieldMask(fs[j])[i] && FieldMask(fs[k])[i])
    {
      AscendingApart(fs, j, k);
    }
  }

  // ---------------------------------------------------------------------
  // Field lookup
  // ---------------------------------------------------------------------

  /** `m` is the name map of `fs`: each name maps to the last field carrying it. */
  ghost predicate IsFieldMap(fs: seq<BitField>, m: map<string, nat>) {
    (forall nm :: nm in m <==> exists j :: 0 <= j < |fs| && fs[j].name == nm)
    && (forall nm :: nm in m ==> m[nm] < |fs| && fs[m[nm]].name == nm)
    && (forall nm, j :: nm in m && m[nm] < j < |fs| ==> fs[j].name != nm)
  }

  /** The name map after the first |fs| fields have been entered in order. */
  function FieldMapOf(fs: seq<BitField>): map<string, nat> {
    if |fs| == 0 then map[]
    else FieldMapOf(fs[..|fs| - 1])[fs[|fs| - 1].name := |fs| - 1]
  }

  /** Entering the fields in order maps each name to the last field carrying it. */
  lemma {:induction false} FieldMapOfIsFieldMap(fs: seq<BitField>)
    ensures IsFieldMap(fs, FieldMapOf(fs))
  {
    if |fs| > 0 {
      var n := |fs| - 1;
      FieldMapOfIsFieldMap(fs[..n]);
      FieldMapStep(fs, FieldMapOf(fs[..n]));
    }
  }

  /** Entering the last field into the map of the others. */
  lemma FieldMapStep(fs: seq<BitField>, m: map<string, nat>)
    requires |fs| > 0 && IsFieldMap(fs[..|fs| - 1], m)
    ensures IsFieldMap(fs, m[fs[|fs| - 1].name := |fs| - 1])
  {
    var n := |fs| - 1;
    var pre := fs[..n];
    var m' := m[fs[n].name := n];
    forall nm
      ensures nm in m' <==> exists j :: 0 <= j < |fs| && fs[j].name == nm
    {
      if nm in m' && nm != fs[n].name {
        var j :| 0 <= j < n && pre[j].name == nm;
        assert fs[j].name == nm;
      }
      if exists j :: 0 <= j < |fs| && fs[j].name == nm {
        var j :| 0 <= j < |fs| && fs[j].name == nm;
        assert j < n ==> pre[j].name == nm;
      }
    }
    forall nm, j | nm in m' && m'[nm] < j < |fs|
      ensures fs[j].name != nm
    {
      assert j < n ==> pre[j] == fs[j];
    }
  }

  /** build_field_map: one pass over the fields, a later duplicate name replacing an earlier one. */
  method BuildFieldMap(fs: seq<BitField>) returns (m: map<string, nat>)
    ensures m == FieldMapOf(fs)
  {
    m := map[];
    var n := 0;
    while n < |fs|
      invariant n <= |fs|
      invariant m == FieldMapOf(fs[..n])
    {
      assert fs[..n + 1][..n] == fs[..n];
      m := m[fs[n].name := n];
      n := n + 1;
    }
    assert fs[..n] == fs;
  }

  // ---------------------------------------------------------------------
  // Specification of write
  // ---------------------------------------------------------------------

  /** What the first loop of write does with one field, given the value built so far. */
  function WriteStep(f: BitField, eff: Word, prior: Word, incoming: Word, wm: Word): Word {
    var em := And(FieldMask(f), wm);
    if em == Zero() then eff
    else match f.access
      case RO => Merge(eff, em, prior)
      case W1C => Merge(eff, em, prior)
      case RW => Merge(eff, em, incoming)
      case WO => Merge(eff, em, incoming)
      case W0C =>
        var kept := Merge(eff, em, prior);
        if Extract(incoming, f.start, f.width) == Zero() then And(kept, Not(em)) else kept
  }

  /** The effective value after the first n fields, starting from the old value with the write mask cleared. */
  function EffectiveUpTo(fs: seq<BitField>, n: nat, prior: Word, incoming: Word, wm: Word): Word
    requires n <= |fs|
  {
    if n == 0 then And(prior, Not(wm))
    else WriteStep(fs[n - 1], EffectiveUpTo(fs, n - 1, prior, incoming, wm), prior, incoming, wm)
  }

  /** The value `write(v, size)` stores. */
  function EffectiveValue(fs: seq<BitField>, prior: Word, v: Word, size: nat): Word {
    var wm := WriteMask(size);
    EffectiveUpTo(fs, |fs|, prior, And(v, wm), wm)
  }

  /** The value a field's write callback receives. */
  function CallbackValue(f: BitField, eff: Word, incoming: Word): Word {
    match f.access
    case RW => Extract(eff, f.start, f.width)
    case WO => Extract(eff, f.start, f.width)
    case W1C => Extract(incoming, f.start, f.width)
    case W0C => Extract(incoming, f.start, f.width)
    case RO => Zero()
  }

  /** Whether the second loop of write calls the field's callback. */
  predicate Fires(f: BitField, prior: Word, eff: Word, incoming: Word, wm: Word) {
    var em := And(FieldMask(f), wm);
    em != Zero() &&
    match f.access
    case RW => Shr(And(prior, em), f.start) != Shr(And(eff, em), f.start)
    case WO => Shr(And(prior, em), f.start) != Shr(And(eff, em), f.start)
    case W1C => ToNat(Extract(incoming, f.start, f.width)) == 1
    case W0C => Extract(incoming, f.start, f.width) == Zero()
    case RO => false
  }

  function FiringsUpTo(fs: seq<BitField>, n: nat, prior: Word, eff: Word, incoming: Word, wm: Word): seq<Firing>
    requires n <= |fs|
  {
    if n == 0 then []
    else
      FiringsUpTo(fs, n - 1, prior, eff, incoming, wm)
      + (if Fires(fs[n - 1], prior, eff, incoming, wm) then [Firing(n - 1, CallbackValue(fs[n - 1], eff, incoming))] else [])
  }

  /** The callbacks `write(v, size)` fires, and what it passes to the register callback. */
  function WriteOutcomeOf(fs: seq<BitField>, prior: Word, v: Word, size: nat): WriteOutcome {
    var wm := WriteMask(size);
    var eff := EffectiveValue(fs, prior, v, size);
    WriteOutcome(FiringsUpTo(fs, |fs|, prior, eff, And(v, wm), wm), And(eff, wm))
  }

  /** The value the callback of field j received, if it fired. */
  function FiringOf(fired: seq<Firing>, j: nat): Option<Word> {
    if |fired| == 0 then None
    else if fired[0].field == j then Some(fired[0].value)
    else FiringOf(fired[1..], j)
  }

  // ---------------------------------------------------------------------
  // Properties of write
  // ---------------------------------------------------------------------

  /** The write mask as a number is (1 << size) - 1 below 32 bits, and all ones from 32 bits on. */
  lemma WriteMaskMatchesSource(size: nat)
    ensures size < WordBits ==> ToNat(WriteMask(size)) == Pow2(size) - 1
    ensures size >= WordBits ==> forall i :: 0 <= i < WordBits ==> WriteMask(size)[i]
  {
    if size < WordBits {
      OnesMatchesSource(size);
    }
  }

  /** The last field among the first n whose bits inside the write mask include bit i. */
  function LastCover(fs: seq<BitField>, n: nat, wm: Word, i: nat): (r: Option<nat>)
    requires n <= |fs| && i < WordBits
    ensures r.None? <==> forall k :: 0 <= k < n ==> !And(FieldMask(fs[k]), wm)[i]
    ensures r.Some? ==> r.value < n && And(FieldMask(fs[r.value]), wm)[i]
  {
    if n == 0 then None
    else if And(FieldMask(fs[n - 1]), wm)[i] then Some(n - 1)
    else LastCover(fs, n - 1, wm, i)
  }

  /** The bit a field's policy leaves at position i. */
  function FieldBit(f: BitField, prior: Word, incoming: Word, i: nat): bool
    requires i < WordBits
  {
    match f.access
    case RO => prior[i]
    case W1C => prior[i]
    case RW => incoming[i]
    case WO => incoming[i]
    case W0C => prior[i] && Extract(incoming, f.start, f.width) != Zero()
  }

  /**
   * Bit by bit, the sequential first loop of write agrees with this
   * description: outside the write mask the old bit; inside it, the bit the
   * last field covering it leaves, or 0 if no field covers it.
   */
  /** One step of the first loop changes only the bits of the field inside the write mask. */
  lemma StepBit(f: BitField, eff: Word, prior: Word, incoming: Word, wm: Word, i: nat)
    requires i < WordBits
    ensures WriteStep(f, eff, prior, incoming, wm)[i] ==
      if And(FieldMask(f), wm)[i] then FieldBit(f, prior, incoming, i) else eff[i]
  {
  }

  lemma {:induction false} EffectiveBit(fs: seq<BitField>, n: nat, prior: Word, incoming: Word, wm: Word, i: nat)
    requires n <= |fs| && i < WordBits
    ensures EffectiveUpTo(fs, n, prior, incoming, wm)[i] ==
      if !wm[i] then prior[i]
      else match LastCover(fs, n, wm, i)
        case None => false
        case Some(j) => FieldBit(fs[j], prior, incoming, i)
  {
    if n > 0 {
      EffectiveBit(fs, n - 1, prior, incoming, wm, i);
      StepBit(fs[n - 1], EffectiveUpTo(fs, n - 1, prior, incoming, wm), prior, incoming, wm, i);
    }
  }

  /** write leaves every bit outside the write mask, so every bit at position size or above, as it was. */
  lemma WriteKeepsBitsOutsideMask(fs: seq<BitField>, prior: Word, v: Word, size: nat)
    ensures forall i :: 0 <= i < WordBits && !WriteMask(size)[i] ==> EffectiveValue(fs, prior, v, size)[i] == prior[i]
    ensures forall i :: size <= i < WordBits ==> EffectiveValue(fs, prior, v, size)[i] == prior[i]
  {
    forall i | 0 <= i < WordBits && !WriteMask(size)[i]
      ensures EffectiveValue(fs, prior, v, size)[i] == prior[i]
    {
      EffectiveBit(fs, |fs|, prior, And(v, WriteMask(size)), WriteMask(size), i);
    }
  }

  /** Bits inside the write mask that no field covers are 0 after write. */
  lemma WriteClearsUncoveredBits(fs: seq<BitField>, prior: Word, v: Word, size: nat)
    ensures forall i ::
      (0 <= i < WordBits && WriteMask(size)[i] && (forall j :: 0 <= j < |fs| ==> !FieldMask(fs[j])[i]))
      ==> !EffectiveValue(fs, prior, v, size)[i]
  {
    forall i | 0 <= i < WordBits && WriteMask(size)[i] && (forall j :: 0 <= j < |fs| ==> !FieldMask(fs[j])[i])
      ensures !EffectiveValue(fs, prior, v, size)[i]
    {
      EffectiveBit(fs, |fs|, prior, And(v, WriteMask(size)), WriteMask(size), i);
    }
  }

  /**
   * With disjoint fields, inside the write mask: RO and W1C bits keep their
   * old value, RW and WO bits take the written bits, and a W0C bit is cleared
   * exactly when the written field value is 0, keeping its old value otherwise.
   */
  lemma WriteFieldPolicy(fs: seq<BitField>, prior: Word, v: Word, size: nat, j: nat)
    requires Disjoint(fs) && j < |fs|
    ensures var f := fs[j];
      var eff := EffectiveValue(fs, prior, v, size);
      forall i :: 0 <= i < WordBits && FieldMask(f)[i] && WriteMask(size)[i] ==>
        match f.access
        case RO => eff[i] == prior[i]
        case W1C => eff[i] == prior[i]
        case RW => eff[i] == v[i]
        case WO => eff[i] == v[i]
        case W0C => eff[i] == (prior[i] && Extract(And(v, WriteMask(size)), f.start, f.width) != Zero())
  {
    var wm := WriteMask(size);
    forall i | 0 <= i < WordBits && FieldMask(fs[j])[i] && wm[i]
      ensures EffectiveValue(fs, prior, v, size)[i] == FieldBit(fs[j], prior, And(v, wm), i)
    {
      EffectiveBit(fs, |fs|, prior, And(v, wm), wm, i);
      var last := LastCover(fs, |fs|, wm, i);
      assert And(FieldMask(fs[j]), wm)[i];
      if last.value != j {
        assert FieldMask(fs[last.value])[i];
      }
    }
  }

  /** fired lists due callbacks of the first n fields, each with the value it receives, in increasing field order. */
  predicate FiringsWellFormed(fired: seq<Firing>, fs: seq<BitField>, n: nat, prior: Word, eff: Word, incoming: Word, wm: Word)
    requires n <= |fs|
  {
    (forall k :: 0 <= k < |fired| ==>
      fired[k].field < n && Fires(fs[fired[k].field], prior, eff, incoming, wm)
      && fired[k].value == CallbackValue(fs[fired[k].field], eff, incoming))
    && (forall k, l :: 0 <= k < l < |fired| ==> fired[k].field < fired[l].field)
  }

  /** Every entry of FiringsUpTo is a due callback, with the value it receives, in increasing field order. */
  lemma {:induction false} FiringsSound(fs: seq<BitField>, n: nat, prior: Word, eff: Word, incoming: Word, wm: Word)
    requires n <= |fs|
    ensures FiringsWellFormed(FiringsUpTo(fs, n, prior, eff, incoming, wm), fs, n, prior, eff, incoming, wm)
  {
    if n > 0 {
      FiringsSound(fs, n - 1, prior, eff, incoming, wm);
      var before := FiringsUpTo(fs, n - 1, prior, eff, incoming, wm);
      var fired := FiringsUpTo(fs, n, prior, eff, incoming, wm);
      if Fires(fs[n - 1], prior, eff, incoming, wm) {
        var x := Firing(n - 1, CallbackValue(fs[n - 1], eff, incoming));
        assert fired == before + [x];
        FiringsAppend(before, x, fs, n, prior, eff, incoming, wm);
      } else {
        assert fired == before;
      }
    }
  }

  /** A well-formed list stays well formed when the next due field's callback is appended. */
  lemma FiringsAppend(before: seq<Firing>, x: Firing, fs: seq<BitField>, n: nat, prior: Word, eff: Word, incoming: Word, wm: Word)
    requires 0 < n <= |fs| && FiringsWellFormed(before, fs, n - 1, prior, eff, incoming, wm)
    requires x.field == n - 1 && Fires(fs[n - 1], prior, eff, incoming, wm) && x.value == CallbackValue(fs[n - 1], eff, incoming)
    ensures FiringsWellFormed(before + [x], fs, n, prior, eff, incoming, wm)
  {
    var fired := before + [x];
    forall k, l | 0 <= k < l < |fired|
      ensures fired[k].field < fired[l].field
    {
      if l == |before| {
        assert fired[k] == before[k];
      }
    }
  }

  /** Every due callback among the first n fields appears in FiringsUpTo. */
  lemma {:induction false} FiringsComplete(fs: seq<BitField>, n: nat, prior: Word, eff: Word, incoming: Word, wm: Word, j: nat)
    requires j < n <= |fs| && Fires(fs[j], prior, eff, incoming, wm)
    ensures exists k :: 0 <= k < |FiringsUpTo(fs, n, prior, eff, incoming, wm)| && FiringsUpTo(fs, n, prior, eff, incoming, wm)[k].field == j
  {
    var before := FiringsUpTo(fs, n - 1, prior, eff, incoming, wm);
    var fired := FiringsUpTo(fs, n, prior, eff, incoming, wm);
    if j == n - 1 {
      assert fired[|before|].field == j;
    } else {
      FiringsComplete(fs, n - 1, prior, eff, incoming, wm, j);
      var k :| 0 <= k < |before| && before[k].field == j;
      assert fired[k] == before[k];
    }
  }

  /** An RO field never fires. An RW or WO field fires exactly when its bits inside the write mask changed. */
  lemma FiresIffChanged(f: BitField, prior: Word, eff: Word, incoming: Word, wm: Word)
    ensures f.access == RO ==> !Fires(f, prior, eff, incoming, wm)
    ensures f.access == RW || f.access == WO ==>
      (Fires(f, prior, eff, incoming, wm) <==>
        exists i :: 0 <= i < WordBits && FieldMask(f)[i] && wm[i] && prior[i] != eff[i])
  {
    var em := And(FieldMask(f), wm);
    ShrInjective(And(prior, em), And(eff, em), f.start);
    if And(prior, em) != And(eff, em) {
      var i :| 0 <= i < WordBits && And(prior, em)[i] != And(eff, em)[i];
      assert FieldMask(f)[i] && wm[i] && prior[i] != eff[i];
    }
    if exists i :: 0 <= i < WordBits && FieldMask(f)[i] && wm[i] && prior[i] != eff[i] {
      var i :| 0 <= i < WordBits && FieldMask(f)[i] && wm[i] && prior[i] != eff[i];
      assert And(prior, em)[i] != And(eff, em)[i];
    }
  }

  /** Some field of the table covers bit i. */
  predicate Covered(fs: seq<BitField>, i: nat) {
    i < WordBits && exists j :: 0 <= j < |fs| && FieldMask(fs[j])[i]
  }

  /**
   * A full 32-bit write to a register whose fields are all read-write stores
   * the written bits inside the fields and 0 elsewhere.
   */
  lemma FullWriteOfReadWriteFields(fs: seq<BitField>, prior: Word, v: Word)
    requires Disjoint(fs) && forall j :: 0 <= j < |fs| ==> fs[j].access == RW
    ensures forall i :: 0 <= i < WordBits ==> EffectiveValue(fs, prior, v, WordBits)[i] == (v[i] && Covered(fs, i))
  {
    WriteClearsUncoveredBits(fs, prior, v, WordBits);
    forall i | 0 <= i < WordBits && Covered(fs, i)
      ensures EffectiveValue(fs, prior, v, WordBits)[i] == v[i]
    {
      var j :| 0 <= j < |fs| && FieldMask(fs[j])[i];
      WriteFieldPolicy(fs, prior, v, WordBits, j);
    }
  }

  /**
   * With disjoint fields, an RW or WO field's callback fires after write(v,
   * size) exactly when some bit of the field inside the write mask differs
   * between the old value and v; a W1C field's exactly when its written value
   * is 1, a W0C field's exactly when it is 0, and only if the field meets the
   * write mask.
   */
  lemma WriteFiring(fs: seq<BitField>, prior: Word, v: Word, size: nat, j: nat)
    requires Disjoint(fs) && j < |fs|
    ensures var f := fs[j];
      var wm := WriteMask(size);
      var fires := Fires(f, prior, EffectiveValue(fs, prior, v, size), And(v, wm), wm);
      var written := Extract(And(v, wm), f.start, f.width);
      var touched := exists i :: 0 <= i < WordBits && FieldMask(f)[i] && wm[i];
      && (f.access == RO ==> !fires)
      && (f.access == RW || f.access == WO ==>
            (fires <==> exists i :: 0 <= i < WordBits && FieldMask(f)[i] && wm[i] && prior[i] != v[i]))
      && (f.access == W1C ==> (fires <==> touched && ToNat(written) == 1))
      && (f.access == W0C ==> (fires <==> touched && written == Zero()))
  {
    var f := fs[j];
    var wm := WriteMask(size);
    var eff := EffectiveValue(fs, prior, v, size);
    var em := And(FieldMask(f), wm);
    FiresIffChanged(f, prior, eff, And(v, wm), wm);
    WriteFieldPolicy(fs, prior, v, size, j);
    if exists i :: 0 <= i < WordBits && FieldMask(f)[i] && wm[i] {
      var i :| 0 <= i < WordBits && FieldMask(f)[i] && wm[i];
      assert em[i];
    }
  }

  /**
   * After a full 32-bit write to a register of disjoint read-write fields,
   * field j's callback runs exactly when one of its bits differs between the
   * old value and v, and it receives the field's bits of v.
   */
  lemma FullWriteFiring(fs: seq<BitField>, prior: Word, v: Word, j: nat)
    requires Disjoint(fs) && j < |fs| && forall k :: 0 <= k < |fs| ==> fs[k].access == RW
    ensures FiringOf(WriteOutcomeOf(fs, prior, v, WordBits).fired, j) ==
      if exists i :: 0 <= i < WordBits && FieldMask(fs[j])[i] && prior[i] != v[i]
      then Some(Extract(v, fs[j].start, fs[j].width)) else None
  {
    var f := fs[j];
    var wm := WriteMask(WordBits);
    var eff := EffectiveValue(fs, prior, v, WordBits);
    FiringOfWrite(fs, prior, v, WordBits, j);
    WriteFiring(fs, prior, v, WordBits, j);
    WriteFieldPolicy(fs, prior, v, WordBits, j);
    assert And(v, wm) == v;
    assert Extract(eff, f.start, f.width) == Extract(v, f.start, f.width) by {
      ExtractBits(eff, f.start, f.width);
      ExtractBits(v, f.start, f.width);
      forall b | f.start <= b < f.start + f.width && b < WordBits
        ensures eff[b] == v[b]
      {
        assert FieldMask(f)[b];
      }
    }
  }

  /**
   * A write of size bits to a register whose field j is read-write or
   * write-only, starts at bit 0 and is at least size bits wide stores the
   * low size bits of v and keeps every other bit.
   */
  lemma LowWrite(fs: seq<BitField>, prior: Word, v: Word, size: nat, j: nat)
    requires Disjoint(fs) && j < |fs| && fs[j].start == 0 && size <= fs[j].width && size <= WordBits
    requires fs[j].access == RW || fs[j].access == WO
    ensures forall i :: 0 <= i < WordBits ==> EffectiveValue(fs, prior, v, size)[i] == if i < size then v[i] else prior[i]
  {
    var eff := EffectiveValue(fs, prior, v, size);
    WriteKeepsBitsOutsideMask(fs, prior, v, size);
    WriteFieldPolicy(fs, prior, v, size, j);
    forall i | 0 <= i < WordBits
      ensures eff[i] == if i < size then v[i] else prior[i]
    {
      if i < size {
        assert FieldMask(fs[j])[i] && WriteMask(size)[i];
      } else {
        assert !WriteMask(size)[i];
      }
    }
  }

  /**
   * Under the same conditions field j's callback runs exactly when one of
   * the low size bits of v differs from the old value, and receives the
   * field's stored bits.
   */
  lemma LowWriteFiring(fs: seq<BitField>, prior: Word, v: Word, size: nat, j: nat)
    requires Disjoint(fs) && j < |fs| && fs[j].start == 0 && size <= fs[j].width && size <= WordBits
    requires fs[j].access == RW || fs[j].access == WO
    ensures FiringOf(WriteOutcomeOf(fs, prior, v, size).fired, j) ==
      if exists i :: 0 <= i < size && prior[i] != v[i]
      then Some(Extract(EffectiveValue(fs, prior, v, size), 0, fs[j].width)) else None
  {
    var f := fs[j];
    var wm := WriteMask(size);
    FiringOfWrite(fs, prior, v, size, j);
    WriteFiring(fs, prior, v, size, j);
    assert forall i :: 0 <= i < size ==> FieldMask(f)[i] && wm[i];
    if exists i :: 0 <= i < WordBits && FieldMask(f)[i] && wm[i] && prior[i] != v[i] {
      var i :| 0 <= i < WordBits && FieldMask(f)[i] && wm[i] && prior[i] != v[i];
      assert i < size;
    }
  }

  lemma {:induction false} FiringOfUpTo(fs: seq<BitField>, n: nat, prior: Word, eff: Word, incoming: Word, wm: Word, j: nat)
    requires j < |fs| && n <= |fs|
    ensures FiringOf(FiringsUpTo(fs, n, prior, eff, incoming, wm), j) ==
      if j < n && Fires(fs[j], prior, eff, incoming, wm) then Some(CallbackValue(fs[j], eff, incoming)) else None
  {
    if n > 0 {
      FiringOfUpTo(fs, n - 1, prior, eff, incoming, wm, j);
      FiringsSound(fs, n - 1, prior, eff, incoming, wm);
      var before := FiringsUpTo(fs, n - 1, prior, eff, incoming, wm);
      var x := CallbackValue(fs[n - 1], eff, incoming);
      FiringOfAppend(before, n - 1, x, j);
      if Fires(fs[n - 1], prior, eff, incoming, wm) {
        assert FiringsUpTo(fs, n, prior, eff, incoming, wm) == before + [Firing(n - 1, x)];
      } else {
        assert FiringsUpTo(fs, n, prior, eff, incoming, wm) == before;
      }
    }
  }

  lemma {:induction false} FiringOfAppend(before: seq<Firing>, n: nat, x: Word, j: nat)
    requires forall k :: 0 <= k < |before| ==> before[k].field < n
    ensures FiringOf(before + [Firing(n, x)], j) ==
      if j == n then Some(x) else FiringOf(before, j)
    ensures j >= n ==> FiringOf(before, j).None?
  {
    if |before| > 0 {
      assert (before + [Firing(n, x)])[1..] == before[1..] + [Firing(n, x)];
      FiringOfAppend(before[1..], n, x, j);
    }
  }

  /**
   * After write(v, size), field j's callback received a value exactly when it
   * fired, and that value is the one its access policy passes.
   */
  lemma FiringOfWrite(fs: seq<BitField>, prior: Word, v: Word, size: nat, j: nat)
    requires j < |fs|
    ensures var wm := WriteMask(size);
      var eff := EffectiveValue(fs, prior, v, size);
      FiringOf(WriteOutcomeOf(fs, prior, v, size).fired, j) ==
        if Fires(fs[j], prior, eff, And(v, wm), wm) then Some(CallbackValue(fs[j], eff, And(v, wm))) else None
  {
    var wm := WriteMask(size);
    FiringOfUpTo(fs, |fs|, prior, EffectiveValue(fs, prior, v, size), And(v, wm), wm, j);
  }

  // ---------------------------------------------------------------------
  // Properties of read
  // ---------------------------------------------------------------------

  /** read returns the given value with exactly the bits of write-only fields cleared. */
  lemma {:induction false} ClearWriteOnlyBits(fs: seq<BitField>, n: nat, v: Word, i: nat)
    requires n <= |fs| && i < WordBits
    ensures ClearWriteOnly(fs, n, v)[i] == (v[i] && !WriteOnlyBit(fs, n, i))
  {
    if n > 0 {
      ClearWriteOnlyBits(fs, n - 1, v, i);
    }
  }

  /** Without field read callbacks, read leaves storage as it was. */
  lemma {:induction false} NoHooksKeepStorage(fs: seq<BitField>, n: nat, cur: Word, hook: (nat, Word) -> Option<Word>)
    requires n <= |fs|
    requires forall j, x :: hook(j, x).None?
    ensures HookedUpTo(fs, n, cur, hook) == cur
  {
    if n > 0 {
      NoHooksKeepStorage(fs, n - 1, cur, hook);
    }
  }

  /** Field read callbacks change storage only inside the fields' own bits. */
  lemma {:induction false} HooksStayInFields(fs: seq<BitField>, n: nat, cur: Word, hook: (nat, Word) -> Option<Word>, i: nat)
    requires n <= |fs| && i < WordBits
    requires forall j :: 0 <= j < n ==> !FieldMask(fs[j])[i]
    ensures HookedUpTo(fs, n, cur, hook)[i] == cur[i]
  {
    if n > 0 {
      HooksStayInFields(fs, n - 1, cur, hook, i);
    }
  }

  // ---------------------------------------------------------------------
  // Specification of read
  // ---------------------------------------------------------------------

  /** The stored value after the field read callbacks of the first n fields ran. */
  function HookedUpTo(fs: seq<BitField>, n: nat, cur: Word, hook: (nat, Word) -> Option<Word>): Word
    requires n <= |fs|
  {
    if n == 0 then cur
    else
      var before := HookedUpTo(fs, n - 1, cur, hook);
      match hook(n - 1, Extract(before, fs[n - 1].start, fs[n - 1].width))
      case None => before
      case Some(fv) => Merge(before, FieldMask(fs[n - 1]), Shl(fv, fs[n - 1].start))
  }

  /** v with the bits of the write-only fields among the first n cleared. */
  function ClearWriteOnly(fs: seq<BitField>, n: nat, v: Word): Word
    requires n <= |fs|
  {
    if n == 0 then v
    else
      var before := ClearWriteOnly(fs, n - 1, v);
      if fs[n - 1].access == WO then And(before, Not(FieldMask(fs[n - 1]))) else before
  }

  /** Some write-only field among the first n covers bit i. */
  predicate WriteOnlyBit(fs: seq<BitField>, n: nat, i: nat)
    requires n <= |fs|
  {
    exists j :: 0 <= j < n && fs[j].access == WO && i < WordBits && FieldMask(fs[j])[i]
  }

  /** A register without write-only fields reads back its stored value. */
  lemma {:induction false} ClearWriteOnlyWithoutWO(fs: seq<BitField>, n: nat, v: Word)
    requires n <= |fs| && forall j :: 0 <= j < n ==> fs[j].access != WO
    ensures ClearWriteOnly(fs, n, v) == v
  {
    if n > 0 {
      ClearWriteOnlyWithoutWO(fs, n - 1, v);
    }
  }

  /** The first loop of write: the value each field's access policy leaves inside the write mask. */
  method ApplyPolicies(fs: seq<BitField>, prior: Word, incoming: Word, wm: Word) returns (eff: Word)
    ensures eff == EffectiveUpTo(fs, |fs|, prior, incoming, wm)
  {
    eff := And(prior, Not(wm));
    var n := 0;
    while n < |fs|
      invariant n <= |fs|
      invariant eff == EffectiveUpTo(fs, n, prior, incoming, wm)
    {
      var f := fs[n];
      var em := And(FieldMask(f), wm);
      if em != Zero() {
        match f.access {
          case RO =>
            eff := Merge(eff, em, prior);
          case W1C =>
            eff := Merge(eff, em, prior);
          case RW =>
            eff := Merge(eff, em, incoming);
          case WO =>
            eff := Merge(eff, em, incoming);
          case W0C =>
            var written := Extract(incoming, f.start, f.width);
            eff := Merge(eff, em, prior);
            if written == Zero() {
              eff := And(eff, Not(em));
            }
        }
      }
      n := n + 1;
    }
  }

  /** The second loop of write: the field callbacks that are due, in field order. */
  method CollectFirings(fs: seq<BitField>, prior: Word, eff: Word, incoming: Word, wm: Word) returns (fired: seq<Firing>)
    ensures fired == FiringsUpTo(fs, |fs|, prior, eff, incoming, wm)
  {
    fired := [];
    var n := 0;
    while n < |fs|
      invariant n <= |fs|
      invariant fired == FiringsUpTo(fs, n, prior, eff, incoming, wm)
    {
      var f := fs[n];
      var em := And(FieldMask(f), wm);
      if em != Zero() {
        var shouldCall := false;
        var callbackValue := Zero();
        match f.access {
          case RW =>
            callbackValue := Extract(eff, f.start, f.width);
            shouldCall := Shr(And(prior, em), f.start) != Shr(And(eff, em), f.start);
          case WO =>
            callbackValue := Extract(eff, f.start, f.width);
            shouldCall := Shr(And(prior, em), f.start) != Shr(And(eff, em), f.start);
          case W1C =>
            callbackValue := Extract(incoming, f.start, f.width);
            shouldCall := ToNat(callbackValue) == 1;
          case W0C =>
            callbackValue := Extract(incoming, f.start, f.width);
            shouldCall := callbackValue == Zero();
          case RO =>
        }
        if shouldCall {
          fired := fired + [Firing(n, callbackValue)];
        }
      }
      n := n + 1;
    }
  }

  /** The last loop of read: clear the bits of every write-only field. */
  method MaskWriteOnly(fs: seq<BitField>, v: Word) returns (r: Word)
    ensures r == ClearWriteOnly(fs, |fs|, v)
  {
    r := v;
    var n := 0;
    while n < |fs|
      invariant n <= |fs|
      invariant r == ClearWriteOnly(fs, n, v)
    {
      if fs[n].access == WO {
        r := And(r, Not(FieldMask(fs[n])));
      }
      n := n + 1;
    }
  }

  /** No field read callback installed. */
  function NoFieldHook(j: nat, x: Word): Option<Word> {
    None
  }

  /** No register read callback installed: the value passes through. */
  function NoRegisterHook(w: Word): Word {
    w
  }

  class Register {
    const offset: nat
    const name: string
    const fields: seq<BitField>
    const fieldMap: map<string, nat>
    var value: Word

    ghost predicate Valid() {
      fieldMap == FieldMapOf(fields)
    }

    /** A register at `offset` with reset value `reset`; the field map is built once the fields are known. */
    constructor(offset: nat, name: string, fields: seq<BitField>, reset: Word)
      ensures Valid()
      ensures this.offset == offset && this.name == name && this.fields == fields && value == reset
    {
      this.offset := offset;
      this.name := name;
      this.fields := fields;
      var m := BuildFieldMap(fields);
      this.fieldMap := m;
      this.value := reset;
    }

    /** find_field: the index of the last field named nm, or None. */
    function FindField(nm: string): (r: Option<nat>)
      requires Valid()
      ensures r.None? <==> forall j :: 0 <= j < |fields| ==> fields[j].name != nm
      ensures r.Some? ==>
        && r.value < |fields| && fields[r.value].name == nm
        && forall j :: r.value < j < |fields| ==> fields[j].name != nm
    {
      FieldMapOfIsFieldMap(fields);
      if nm in fieldMap then Some(fieldMap[nm]) else None
    }

    /** write(v, size): apply each field's policy inside the write mask, store, and report the due callbacks. */
    method Write(v: Word, size: nat) returns (out: WriteOutcome)
      modifies this
      ensures value == EffectiveValue(fields, old(value), v, size)
      ensures out == WriteOutcomeOf(fields, old(value), v, size)
    {
      var wm := WriteMask(size);
      var incoming := And(v, wm);
      var previous := value;
      var eff := ApplyPolicies(fields, previous, incoming, wm);
      value := eff;
      var fired := CollectFirings(fields, previous, eff, incoming, wm);
      out := WriteOutcome(fired, And(eff, wm));
    }

    /**
     * read: run the field read callbacks (`hook` gives, per field index and
     * current field value, the value the callback leaves, or None when the
     * field has no callback) against storage, then return the register
     * callback's view of the value taken before them, with write-only bits 0.
     */
    method Read(hook: (nat, Word) -> Option<Word>, registerHook: Word -> Word) returns (r: Word)
      modifies this
      ensures value == HookedUpTo(fields, |fields|, old(value), hook)
      ensures r == ClearWriteOnly(fields, |fields|, registerHook(old(value)))
    {
      var snapshot := value;
      var cur := snapshot;
      var n := 0;
      while n < |fields|
        invariant n <= |fields|
        invariant cur == HookedUpTo(fields, n, snapshot, hook)
      {
        var f := fields[n];
        var fieldValue := Extract(cur, f.start, f.width);
        match hook(n, fieldValue) {
          case None =>
          case Some(fv) =>
            cur := Merge(cur, FieldMask(f), Shl(fv, f.start));
        }
        n := n + 1;
      }
      value := cur;
      r := MaskWriteOnly(fields, registerHook(snapshot));
    }

    /** get_field_value: a full read, then the field's value, or 0 for an unknown name. */
    method GetField(nm: string, hook: (nat, Word) -> Option<Word>, registerHook: Word -> Word) returns (r: Word)
      requires Valid()
      modifies this
      ensures value == HookedUpTo(fields, |fields|, old(value), hook)
      ensures r == match FindField(nm)
        case None => Zero()
        case Some(j) => Extract(ClearWriteOnly(fields, |fields|, registerHook(old(value))), fields[j].start, fields[j].width)
    {
      var current := Read(hook, registerHook);
      match FindField(nm) {
        case None =>
          r := Zero();
        case Some(j) =>
          r := Extract(current, fields[j].start, fields[j].width);
      }
    }

    /** get_field_value_non_intrusive: the stored field value, or 0 for an unknown name. */
    function GetFieldNonIntrusive(nm: string): (r: Word)
      requires Valid()
      reads this
      ensures FindField(nm).None? ==> r == Zero()
      ensures FindField(nm).Some? ==> FitsIn(r, fields[FindField(nm).value].width)
    {
      match FindField(nm)
      case None => Zero()
      case Some(j) => Extract(value, fields[j].start, fields[j].width)
    }

    /** set_field_value: a full write of the old value with the field replaced by the clamped v; None for an unknown name. */
    method SetField(nm: string, size: nat, v: Word) returns (out: Option<WriteOutcome>)
      requires Valid()
      modifies this
      ensures FindField(nm).None? ==> out.None? && value == old(value)
      ensures FindField(nm).Some? ==>
        var f := fields[FindField(nm).value];
        var written := Insert(old(value), f.start, f.width, v);
        value == EffectiveValue(fields, old(value), written, size)
        && out == Some(WriteOutcomeOf(fields, old(value), written, size))
    {
      match FindField(nm) {
        case None =>
          out := None;
        case Some(j) =>
          var f := fields[j];
          var written := Insert(value, f.start, f.width, v);
          var o := Write(written, size);
          out := Some(o);
      }
    }

    /** set_field_value_non_intrusive: replace the field's stored bits by the clamped v, with no callback. */
    method SetFieldNonIntrusive(nm: string, v: Word)
      requires Valid()
      modifies this
      ensures FindField(nm).None? ==> value == old(value)
      ensures FindField(nm).Some? ==>
        var f := fields[FindField(nm).value];
        value == Insert(old(value), f.start, f.width, v)
      ensures FindField(nm).Some? && fields[FindField(nm).value].start + fields[FindField(nm).value].width <= WordBits ==>
        GetFieldNonIntrusive(nm) == Clamp(v, fields[FindField(nm).value].width)
    {
      match FindField(nm) {
        case None =>
        case Some(j) =>
          if fields[j].start + fields[j].width <= WordBits {
            ExtractInsert(value, fields[j].start, fields[j].width, v);
          }
          value := Insert(value, fields[j].start, fields[j].width, v);
      }
    }
  }
}
