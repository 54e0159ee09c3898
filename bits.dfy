/**
 * Single-bit masks and bit updates on 32-bit register words.
 *
 * The generic mask, field and update lemmas live here, as small
 * quantifier-free lemmas over a mask or a `bv32` bit position; the other
 * modules instantiate them for the driver's registers and lines.
 */
module Bits {

  /** The word with only bit `k` set: `0x1 << k` in the driver. */
  function BitMask(k: bv32): bv32
    requires k < 32
  {
    1 << k
  }

  /** Bit `k` of `w`, as 0 or 1. */
  function Bit(w: bv32, k: bv32): bv32
    requires k < 32
  {
    (w >> k) & 1
  }

  /** The lowest bit of the 3-bit function-select field of slot `j`. */
  function FieldShift(j: bv32): (k: bv32)
    requires j < 10
    ensures k < 30
  {
    3 * j
  }

  /** The three function-select bits of slot `j`: `0x7 << (3 * j)`. */
  function FieldMask(j: bv32): bv32
    requires j < 10
  {
    7 << FieldShift(j)
  }

  /** The 3-bit field of slot `j` of a function-select word, as a value 0..7. */
  function Field(w: bv32, j: bv32): bv32
    requires j < 10
  {
    (w >> FieldShift(j)) & 7
  }

  /** `1 << k` has exactly one bit set, and that bit is bit `k`. */
  lemma MaskIsOneBit(k: bv32)
    requires k < 32
    ensures BitMask(k) != 0 && BitMask(k) & (BitMask(k) - 1) == 0
    ensures Bit(BitMask(k), k) == 1
  {
  }

  /** Masks of two different positions share no bit. */
  lemma MasksDisjoint(j: bv32, k: bv32)
    requires j < 32 && k < 32 && j != k
    ensures BitMask(j) & BitMask(k) == 0
  {
  }

  /** OR-ing in a mask sets the mask's bits and keeps every other bit. */
  lemma OrMask(w: bv32, m: bv32)
    ensures (w | m) & m == m
    ensures (w | m) & !m == w & !m
  {
  }

  /** AND-ing with the complement of a mask clears its bits and keeps every other bit. */
  lemma AndNotMask(w: bv32, m: bv32)
    ensures (w & !m) & m == 0
    ensures (w & !m) & !m == w & !m
  {
  }

  /** Words that agree inside and outside a mask are equal. */
  lemma AgreeInsideOutside(a: bv32, b: bv32, m: bv32)
    requires a & m == b & m
    requires a & !m == b & !m
    ensures a == b
  {
  }

  /** The driver's level extraction `(w & (1 << k)) >> k` yields bit `k`. */
  lemma MaskThenShift(w: bv32, k: bv32)
    requires k < 32
    ensures (w & BitMask(k)) >> k == Bit(w, k)
  {
  }

  /** Bit `k` of a word is 1 exactly when the word's bits under `1 << k` are the mask. */
  lemma BitUnderMask(r: bv32, k: bv32)
    requires k < 32
    ensures r & BitMask(k) == BitMask(k) ==> Bit(r, k) == 1
    ensures r & BitMask(k) == 0 ==> Bit(r, k) == 0
  {
  }

  /**
   * A word that agrees with `w` everywhere except (possibly) bit `FieldShift(s)`
   * has, in every other slot `j`, the same 3-bit field as `w`.
   */
  lemma OtherFieldsKept(w: bv32, r: bv32, j: bv32, s: bv32)
    requires j < 10 && s < 10 && j != s
    requires r & !BitMask(FieldShift(s)) == w & !BitMask(FieldShift(s))
    ensures Field(r, j) == Field(w, j)
  {
    assert FieldMask(j) & BitMask(FieldShift(s)) == 0;
    assert r & FieldMask(j) == w & FieldMask(j);
  }

  /**
   * Changing only bit `FieldShift(s)` keeps the two upper bits of field `s`.
   */
  lemma FieldHighBitsKept(w: bv32, r: bv32, s: bv32)
    requires s < 10
    requires r & !BitMask(FieldShift(s)) == w & !BitMask(FieldShift(s))
    ensures Field(r, s) & 6 == Field(w, s) & 6
  {
  }

  /** The low bit of field `s` is bit `FieldShift(s)` of the word. */
  lemma FieldLowBit(r: bv32, s: bv32)
    requires s < 10
    ensures Field(r, s) & 1 == Bit(r, FieldShift(s))
  {
  }

  /**
   * The word `w` with the bits of mask `m` set (`high`) or cleared: the
   * read-modify-write `w | m` or `w & ~m` of the driver.
   */
  function Update(w: bv32, m: bv32, high: bool): bv32 {
    if high then w | m else w & !m
  }

  /** An update decides the bits under the mask and keeps every other bit. */
  lemma UpdateBits(w: bv32, m: bv32, high: bool)
    ensures Update(w, m, high) & !m == w & !m
    ensures Update(w, m, high) & m == if high then m else 0
  {
    UpdateOutside(w, m, high);
    UpdateInside(w, m, high);
  }

  lemma UpdateOutside(w: bv32, m: bv32, high: bool)
    ensures Update(w, m, high) & !m == w & !m
  {
    if high { OrMask(w, m); } else { AndNotMask(w, m); }
  }

  lemma UpdateInside(w: bv32, m: bv32, high: bool)
    ensures Update(w, m, high) & m == if high then m else 0
  {
    if high { OrMask(w, m); } else { AndNotMask(w, m); }
  }

  /** Repeating an update changes nothing more. */
  lemma UpdateIdempotent(w: bv32, m: bv32, high: bool)
    ensures Update(Update(w, m, high), m, high) == Update(w, m, high)
  {
    var once := Update(w, m, high);
    UpdateBits(w, m, high);
    UpdateBits(once, m, high);
    AgreeInsideOutside(Update(once, m, high), once, m);
  }

  /** Setting and then clearing the bits of a mask is the same as only clearing them. */
  lemma ClearAfterSet(w: bv32, m: bv32)
    ensures (w | m) & !m == w & !m
  {
    OrMask(w, m);
    AndNotMask(w | m, m);
    AndNotMask(w, m);
    AgreeInsideOutside((w | m) & !m, w & !m, m);
  }

  /** Updating bit `FieldShift(s)` makes the low bit of field `s` 1 (set) or 0 (cleared). */
  lemma FieldLowBitUpdate(w: bv32, s: bv32, high: bool)
    requires s < 10
    ensures Field(Update(w, BitMask(FieldShift(s)), high), s) & 1 == if high then 1 else 0
  {
    var r := Update(w, BitMask(FieldShift(s)), high);
    UpdateBits(w, BitMask(FieldShift(s)), high);
    BitUnderMask(r, FieldShift(s));
    FieldLowBit(r, s);
  }

  /** Updating bit `FieldShift(s)` keeps the two upper bits of field `s`. */
  lemma FieldHighBitsUpdate(w: bv32, s: bv32, high: bool)
    requires s < 10
    ensures Field(Update(w, BitMask(FieldShift(s)), high), s) & 6 == Field(w, s) & 6
  {
    UpdateBits(w, BitMask(FieldShift(s)), high);
    FieldHighBitsKept(w, Update(w, BitMask(FieldShift(s)), high), s);
  }

  /** Updating bit `FieldShift(s)` leaves the field of every other slot as it was. */
  lemma OtherFieldUpdate(w: bv32, j: bv32, s: bv32, high: bool)
    requires j < 10 && s < 10 && j != s
    ensures Field(Update(w, BitMask(FieldShift(s)), high), j) == Field(w, j)
  {
    UpdateBits(w, BitMask(FieldShift(s)), high);
    OtherFieldsKept(w, Update(w, BitMask(FieldShift(s)), high), j, s);
  }
}
