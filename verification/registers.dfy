/** 32-bit memory-mapped register words and the read-modify-write idioms the
    firmware applies to them: single bits (`w |= (1U << k)`,
    `w &= ~(1U << k)`, `w & (1U << k)`) and 2-bit-per-pin configuration
    fields (`w &= ~(3U << (2 * p))`, `w |= (v << (2 * p))`).

    Each operation's contract states what it does to the bit or field it
    writes; that it leaves every other bit and field alone is stated index
    by index by the lemmas below. */
module Registers {

  /** Position of a bit inside a 32-bit register word: every 5-bit value is one. */
  type BitIndex = bv5

  /** The C expression `1U << k`. */
  function Mask(k: BitIndex): bv32
  {
    (1 as bv32) << k
  }

  /** Bit k of w, which is what the C test `w & (1U << k)` asks for. */
  predicate Bit(w: bv32, k: BitIndex)
  {
    (w >> k) & 1 == 1
  }

  /** `w |= (1U << k)` */
  function SetBit(w: bv32, k: BitIndex): (r: bv32)
    ensures Bit(r, k)
  {
    w | Mask(k)
  }

  /** `w &= ~(1U << k)` */
  function ClearBit(w: bv32, k: BitIndex): (r: bv32)
    ensures !Bit(r, k)
  {
    w & !Mask(k)
  }

  /** The two branches of an `if (on) w |= (1U << k); else w &= ~(1U << k);`
      statement. */
  function WriteBit(w: bv32, k: BitIndex, on: bool): (r: bv32)
    ensures Bit(r, k) <==> on
  {
    if on then SetBit(w, k) else ClearBit(w, k)
  }

  /** The C test `w & (1U << k)` is non-zero exactly when bit k is 1. */
  lemma MaskTestIsBit(w: bv32, k: BitIndex)
    ensures (w & Mask(k) != 0) <==> Bit(w, k)
  {
  }

  /** Setting bit k makes bit k one and leaves every other bit as it was. */
  lemma SetBitAt(w: bv32, k: BitIndex, j: BitIndex)
    ensures Bit(SetBit(w, k), j) <==> j == k || Bit(w, j)
  {
  }

  /** Clearing bit k makes bit k zero and leaves every other bit as it was. */
  lemma ClearBitAt(w: bv32, k: BitIndex, j: BitIndex)
    ensures Bit(ClearBit(w, k), j) <==> j != k && Bit(w, j)
  {
  }

  /** Writing bit k gives it the written value and leaves every other bit
      as it was. */
  lemma WriteBitAt(w: bv32, k: BitIndex, on: bool, j: BitIndex)
    ensures Bit(WriteBit(w, k, on), j) <==> if j == k then on else Bit(w, j)
  {
    if on {
      SetBitAt(w, k, j);
    } else {
      ClearBitAt(w, k, j);
    }
  }

  /** A write to a bit inside `m` leaves the word unchanged outside `m`. */
  lemma WriteBitOutside(w: bv32, k: BitIndex, on: bool, m: bv32)
    requires Mask(k) & m == Mask(k)
    ensures WriteBit(w, k, on) & !m == w & !m
  {
  }

  /** The frame of `w |= (1U << k)`, for all positions at once. */
  lemma SetBitFrame(w: bv32, k: BitIndex)
    ensures Bit(SetBit(w, k), k)
    ensures forall j: BitIndex :: j != k ==> (Bit(SetBit(w, k), j) <==> Bit(w, j))
  {
    SetBitAt(w, k, k);
    forall j: BitIndex | j != k
      ensures Bit(SetBit(w, k), j) <==> Bit(w, j)
    {
      SetBitAt(w, k, j);
    }
  }

  /** The frame of `w &= ~(1U << k)`, for all positions at once. */
  lemma ClearBitFrame(w: bv32, k: BitIndex)
    ensures !Bit(ClearBit(w, k), k)
    ensures forall j: BitIndex :: j != k ==> (Bit(ClearBit(w, k), j) <==> Bit(w, j))
  {
    ClearBitAt(w, k, k);
    forall j: BitIndex | j != k
      ensures Bit(ClearBit(w, k), j) <==> Bit(w, j)
    {
      ClearBitAt(w, k, j);
    }
  }

  /** Two words that agree outside `mask` agree on every bit `mask` does not cover. */
  lemma AgreeOutsideMask(a: bv32, b: bv32, mask: bv32)
    requires a & !mask == b & !mask
    ensures forall j: BitIndex :: !Bit(mask, j) ==> (Bit(a, j) <==> Bit(b, j))
  {
    forall j: BitIndex | !Bit(mask, j)
      ensures Bit(a, j) <==> Bit(b, j)
    {
      AgreeOutsideBit(a, b, mask, j);
    }
  }

  lemma AgreeOutsideBit(a: bv32, b: bv32, mask: bv32, j: BitIndex)
    requires a & !mask == b & !mask
    requires !Bit(mask, j)
    ensures Bit(a, j) <==> Bit(b, j)
  {
  }

  /** Index of a 2-bit-per-pin configuration field (MODER, PUPDR) of a
      16-pin port; field p occupies bits 2p and 2p+1. */
  type PinIndex = bv4

  /** The shift distance `2 * p` of field p. */
  function Offset(p: PinIndex): bv5
  {
    (p as bv5) << 1
  }

  /** The C expression `3U << (2 * p)`. */
  function FieldMask(p: PinIndex): bv32
  {
    (3 as bv32) << Offset(p)
  }

  /** The two bits of field p, moved down to the bottom of the word. */
  function Field(w: bv32, p: PinIndex): bv32
  {
    (w >> Offset(p)) & 3
  }

  /** `w &= ~(3U << (2 * p))` */
  function ClearField(w: bv32, p: PinIndex): (r: bv32)
    ensures Field(r, p) == 0
  {
    w & !FieldMask(p)
  }

  /** `w |= (v << (2 * p))` for a 2-bit constant v. */
  function OrField(w: bv32, p: PinIndex, v: bv2): (r: bv32)
    ensures Field(r, p) == Field(w, p) | v as bv32
  {
    w | ((v as bv32) << Offset(p))
  }

  lemma FieldOfOr(a: bv32, b: bv32, q: PinIndex)
    ensures Field(a | b, q) == Field(a, q) | Field(b, q)
  {
  }

  lemma FieldOfPlaced(v: bv2, p: PinIndex, q: PinIndex)
    ensures Field((v as bv32) << Offset(p), q) == if q == p then v as bv32 else 0
  {
  }

  /** Clearing field p makes it 00 and leaves every other field as it was. */
  lemma ClearFieldAt(w: bv32, p: PinIndex, q: PinIndex)
    ensures Field(ClearField(w, p), q) == if q == p then 0 else Field(w, q)
  {
  }

  /** Or-ing v into field p adds v's one-bits to field p, keeps the bits it
      had, and leaves every other field as it was. */
  lemma OrFieldAt(w: bv32, p: PinIndex, v: bv2, q: PinIndex)
    ensures Field(OrField(w, p, v), q) == if q == p then Field(w, p) | v as bv32 else Field(w, q)
  {
    FieldOfOr(w, (v as bv32) << Offset(p), q);
    FieldOfPlaced(v, p, q);
  }

  /** Two words that agree outside `mask` agree on every field `mask` does not touch. */
  lemma AgreeOutsideFields(a: bv32, b: bv32, mask: bv32)
    requires a & !mask == b & !mask
    ensures forall q: PinIndex :: mask & FieldMask(q) == 0 ==> Field(a, q) == Field(b, q)
  {
    forall q: PinIndex | mask & FieldMask(q) == 0
      ensures Field(a, q) == Field(b, q)
    {
      AgreeOutsideField(a, b, mask, q);
    }
  }

  lemma AgreeOutsideField(a: bv32, b: bv32, mask: bv32, q: PinIndex)
    requires a & !mask == b & !mask
    requires mask & FieldMask(q) == 0
    ensures Field(a, q) == Field(b, q)
  {
  }
}
