/**
 * 32-bit register words and the uint32 bit arithmetic the peripherals use.
 *
 * A word is the sequence of its 32 bits, bit 0 (the least significant) first,
 * so `w[i]` is bit i. The C++ operators `&`, `|`, `~`, `<<` and `>>` on
 * `uint32_t` become the pointwise functions below; numbers enter through the
 * truncating cast `FromNat(n, 32)` and leave through `ToNat`.
 */
module Bits {
  const WordBits: nat := 32

  type Word = w: seq<bool> | |w| == WordBits witness Zero()

  /** The word 0. */
  function Zero(): seq<bool> {
    seq(WordBits, _ => false)
  }

  function Pow2(n: nat): nat {
    if n == 0 then 1 else 2 * Pow2(n - 1)
  }

  /** Unsigned value of a little-endian bit sequence. */
  function ToNat(b: seq<bool>): nat {
    if |b| == 0 then 0 else (if b[0] then 1 else 0) + 2 * ToNat(b[1..])
  }

  /** The low k bits of n, little-endian: a cast of n to an unsigned k-bit integer. */
  function FromNat(n: nat, k: nat): (b: seq<bool>)
    ensures |b| == k
  {
    if k == 0 then [] else [n % 2 == 1] + FromNat(n / 2, k - 1)
  }

  /** The uint32 holding n, truncated as a cast to uint32_t truncates. */
  function Word32(n: nat): Word {
    FromNat(n, WordBits)
  }

  /** The word whose set bits are exactly the positions in s. */
  function BitSet(s: set<nat>): Word {
    seq(WordBits, i requires 0 <= i < WordBits => i in s)
  }

  function And(a: Word, b: Word): Word {
    seq(WordBits, i requires 0 <= i < WordBits => a[i] && b[i])
  }

  function Or(a: Word, b: Word): Word {
    seq(WordBits, i requires 0 <= i < WordBits => a[i] || b[i])
  }

  function Not(a: Word): Word {
    seq(WordBits, i requires 0 <= i < WordBits => !a[i])
  }

  /** a << s; bits shifted past bit 31 are lost. */
  function Shl(a: Word, s: nat): Word {
    seq(WordBits, i requires 0 <= i < WordBits => s <= i && a[i - s])
  }

  /** a >> s (logical). */
  function Shr(a: Word, s: nat): Word {
    seq(WordBits, i requires 0 <= i < WordBits => i + s < WordBits && a[i + s])
  }

  /**
   * (1 << w) - 1: the low w bits set. For w >= 32 the C++ expression is
   * undefined; the intended all-ones word is taken.
   */
  function Ones(w: nat): Word {
    seq(WordBits, i requires 0 <= i < WordBits => i < w)
  }

  /** ((1 << w) - 1) << s: the mask of a field of width w at bit s. */
  function Mask(s: nat, w: nat): Word {
    Shl(Ones(w), s)
  }

  /** No bit at position w or above is set. */
  predicate FitsIn(v: Word, w: nat) {
    forall i :: w <= i < WordBits ==> !v[i]
  }

  /** `if (v >= (1U << w)) v = (1U << w) - 1;` */
  function Clamp(v: Word, w: nat): Word {
    if FitsIn(v, w) then v else Ones(w)
  }

  /** (cur & ~m) | (x & m): the bits of m taken from x, all others from cur. */
  function Merge(cur: Word, m: Word, x: Word): Word {
    Or(And(cur, Not(m)), And(x, m))
  }

  /** (cur & mask) >> s: the value of the field of width w at bit s. */
  function Extract(cur: Word, s: nat, w: nat): Word {
    Shr(And(cur, Mask(s, w)), s)
  }

  /** cur with the field of width w at bit s replaced by the clamped value v. */
  function Insert(cur: Word, s: nat, w: nat, v: Word): Word {
    Merge(cur, Mask(s, w), Shl(Clamp(v, w), s))
  }

  // ---------------------------------------------------------------------
  // Fields
  // ---------------------------------------------------------------------

  /** Bit i of a field value is bit s + i of the word, for i below the width. */
  lemma ExtractBits(cur: Word, s: nat, w: nat)
    ensures forall i :: 0 <= i < WordBits ==> Extract(cur, s, w)[i] == (i < w && s + i < WordBits && cur[s + i])
  {
  }

  /** An extracted field value always fits in the field's width. */
  lemma ExtractFits(cur: Word, s: nat, w: nat)
    ensures FitsIn(Extract(cur, s, w), w)
  {
  }

  /** Reading back a field just inserted gives the clamped value. */
  lemma ExtractInsert(cur: Word, s: nat, w: nat, v: Word)
    requires s + w <= WordBits
    ensures Extract(Insert(cur, s, w, v), s, w) == Clamp(v, w)
  {
    var r := Extract(Insert(cur, s, w, v), s, w);
    forall i | 0 <= i < WordBits
      ensures r[i] == Clamp(v, w)[i]
    {
    }
  }

  /** Inserting a field changes no bit outside it. */
  lemma InsertOutside(cur: Word, s: nat, w: nat, v: Word)
    ensures forall i :: 0 <= i < WordBits && !(s <= i < s + w) ==> Insert(cur, s, w, v)[i] == cur[i]
  {
  }

  /** A clamped value fits in the width and equals v whenever v already fits. */
  lemma ClampFits(v: Word, w: nat)
    ensures FitsIn(Clamp(v, w), w)
    ensures FitsIn(v, w) <==> Clamp(v, w) == v
  {
  }

  /**
   * Shifting right by s loses nothing for words whose low s bits are 0, so
   * such words are equal exactly when their shifted values are.
   */
  lemma ShrInjective(x: Word, y: Word, s: nat)
    requires forall i :: 0 <= i < s && i < WordBits ==> !x[i] && !y[i]
    ensures Shr(x, s) == Shr(y, s) <==> x == y
  {
    if Shr(x, s) == Shr(y, s) {
      forall i | 0 <= i < WordBits
        ensures x[i] == y[i]
      {
        if i >= s {
          assert Shr(x, s)[i - s] == Shr(y, s)[i - s];
        }
      }
    }
  }

  // ---------------------------------------------------------------------
  // Numbers
  // ---------------------------------------------------------------------

  lemma {:induction false} ToNatBound(b: seq<bool>)
    ensures ToNat(b) < Pow2(|b|)
  {
    if |b| > 0 {
      ToNatBound(b[1..]);
    }
  }

  lemma {:induction false} Pow2Add(a: nat, b: nat)
    ensures Pow2(a + b) == Pow2(a) * Pow2(b)
  {
    if a > 0 {
      Pow2Add(a - 1, b);
      assert Pow2(a + b) == 2 * (Pow2(a - 1) * Pow2(b));
      DoubleProduct(Pow2(a - 1), Pow2(b));
    }
  }

  lemma Pow2Word()
    ensures Pow2(WordBits) == 0x1_0000_0000
  {
    Pow2Add(2, 2);
    Pow2Add(4, 4);
    Pow2Add(8, 8);
    Pow2Add(16, 16);
  }

  lemma Pow2Of24()
    ensures Pow2(24) == 0x100_0000
  {
    Pow2Add(2, 2);
    Pow2Add(4, 4);
    Pow2Add(8, 8);
    Pow2Add(8, 16);
  }

  /** A word's value is below 2^32. */
  lemma WordBound(w: Word)
    ensures ToNat(w) < 0x1_0000_0000
  {
    ToNatBound(w);
    Pow2Word();
  }

  /** A cast to k bits keeps every number below 2^k. */
  lemma {:induction false} ToNatFromNat(n: nat, k: nat)
    requires n < Pow2(k)
    ensures ToNat(FromNat(n, k)) == n
  {
    if k > 0 {
      ToNatFromNat(n / 2, k - 1);
      assert FromNat(n, k)[1..] == FromNat(n / 2, k - 1);
    }
  }

  /** Every bit sequence is the cast of its own value. */
  lemma {:induction false} FromNatToNat(b: seq<bool>)
    ensures FromNat(ToNat(b), |b|) == b
  {
    if |b| > 0 {
      FromNatToNat(b[1..]);
    }
  }

  lemma {:induction false} ZeroIff(b: seq<bool>)
    ensures (forall i :: 0 <= i < |b| ==> !b[i]) <==> ToNat(b) == 0
  {
    if |b| > 0 {
      ZeroIff(b[1..]);
      assert (forall i :: 1 <= i < |b| ==> !b[i]) <==> (forall i :: 0 <= i < |b| - 1 ==> !b[1..][i]);
    }
  }

  /** A sequence has no bit at w or above exactly when its value is below 2^w. */
  lemma {:induction false} FitsIffBelow(b: seq<bool>, w: nat)
    requires w <= |b|
    ensures (forall i :: w <= i < |b| ==> !b[i]) <==> ToNat(b) < Pow2(w)
  {
    if w == 0 {
      ZeroIff(b);
    } else {
      FitsIffBelow(b[1..], w - 1);
      assert (forall i :: w <= i < |b| ==> !b[i]) <==> (forall i :: w - 1 <= i < |b| - 1 ==> !b[1..][i]);
    }
  }

  /** The clamp test `v >= (1U << w)` is the negation of FitsIn, for every width up to 32. */
  lemma ClampTestMatchesSource(v: Word, w: nat)
    requires w <= WordBits
    ensures !FitsIn(v, w) <==> ToNat(v) >= Pow2(w)
  {
    FitsIffBelow(v, w);
  }

  /** The value of a bit sequence splits at any position k into its low k bits and the rest. */
  lemma {:induction false} ToNatSplit(b: seq<bool>, k: nat)
    requires k <= |b|
    ensures ToNat(b) == ToNat(b[..k]) + Pow2(k) * ToNat(b[k..])
  {
    if k > 0 {
      var c := b[..k];
      ToNatSplit(b[1..], k - 1);
      assert b[1..][..k - 1] == c[1..];
      assert b[1..][k - 1..] == b[k..];
      SplitStep(ToNat(b), ToNat(c), ToNat(b[1..]), if b[0] then 1 else 0, ToNat(c[1..]), Pow2(k - 1), ToNat(b[k..]));
    }
  }

  /** A word whose set bits all lie in its low byte is worth the value of that byte. */
  lemma LowByteValue(w: Word, low: seq<bool>)
    requires |low| == 8 && w[..8] == low && forall i :: 8 <= i < WordBits ==> !w[i]
    ensures ToNat(w) == ToNat(low)
  {
    ToNatSplit(w, 8);
    ZeroIff(w[8..]);
  }

  /** The arithmetic of one ToNatSplit step: peeling bit 0 off both sides. */
  lemma SplitStep(t: nat, c: nat, rest: nat, bit: nat, lo: nat, p: nat, hi: nat)
    requires t == bit + 2 * rest && c == bit + 2 * lo && rest == lo + p * hi
    ensures t == c + (2 * p) * hi
  {
    DoubleProduct(p, hi);
  }

  lemma DoubleProduct(p: nat, q: nat)
    ensures 2 * (p * q) == (2 * p) * q
  {
  }

  lemma FromNatZero(k: nat)
    ensures forall i :: 0 <= i < k ==> !FromNat(0, k)[i]
  {
  }

  /** The literal 1 as a word is the single low bit. */
  lemma OneIsLowBit()
    ensures Word32(1) == Ones(1)
  {
    FromNatZero(WordBits - 1);
    assert Word32(1) == [true] + FromNat(0, WordBits - 1);
  }

  /** The value of the low w ones is 2^w - 1, the C++ `(1U << w) - 1`. */
  lemma {:induction false} OnesValue(b: seq<bool>, w: nat)
    requires w <= |b|
    requires forall i :: 0 <= i < |b| ==> b[i] == (i < w)
    ensures ToNat(b) == Pow2(w) - 1
  {
    if |b| > 0 {
      if w == 0 {
        ZeroIff(b);
      } else {
        OnesValue(b[1..], w - 1);
      }
    }
  }

  /** Ones(w) as a number is (1 << w) - 1 for every width below 32. */
  lemma OnesMatchesSource(w: nat)
    requires w < WordBits
    ensures ToNat(Ones(w)) == Pow2(w) - 1
  {
    OnesValue(Ones(w), w);
  }
}
