/** 32-bit words bit by bit, apart from everything else. */
module WordBits {

  function Mask(k: nat): bv32
    requires k < 32
  {
    match k
    case 0 => 0x1
    case 1 => 0x2
    case 2 => 0x4
    case 3 => 0x8
    case 4 => 0x10
    case 5 => 0x20
    case 6 => 0x40
    case 7 => 0x80
    case 8 => 0x100
    case 9 => 0x200
    case 10 => 0x400
    case 11 => 0x800
    case 12 => 0x1000
    case 13 => 0x2000
    case 14 => 0x4000
    case 15 => 0x8000
    case 16 => 0x10000
    case 17 => 0x20000
    case 18 => 0x40000
    case 19 => 0x80000
    case 20 => 0x100000
    case 21 => 0x200000
    case 22 => 0x400000
    case 23 => 0x800000
    case 24 => 0x1000000
    case 25 => 0x2000000
    case 26 => 0x4000000
    case 27 => 0x8000000
    case 28 => 0x10000000
    case 29 => 0x20000000
    case 30 => 0x40000000
    case _ => 0x80000000
  }

  /** Bit k, counting from the least significant. */
  predicate Bit(r: bv32, k: nat)
    requires k < 32
  {
    r & Mask(k) != 0
  }

  lemma MaskOne(k: nat)
    requires k < 32
    ensures var m := Mask(k); m & (m - 1) == 0 && m != 0
    ensures k > 0 ==> Mask(k) & 1 == 0
  {
  }

  function Dbl(m: bv32): bv32 {
    m << 1
  }

  lemma MaskNext(k: nat)
    requires k < 31
    ensures Mask(k + 1) == Dbl(Mask(k)) && Mask(k) & 0x8000_0000 == 0
  {
    if k < 16 {
      MaskNextLow(k);
    } else {
      MaskNextHigh(k);
    }
  }

  lemma MaskNextLow(k: nat)
    requires k < 16
    ensures Mask(k + 1) == Dbl(Mask(k)) && Mask(k) & 0x8000_0000 == 0
  {
  }

  lemma MaskNextHigh(k: nat)
    requires 16 <= k < 31
    ensures Mask(k + 1) == Dbl(Mask(k)) && Mask(k) & 0x8000_0000 == 0
  {
  }

  predicate Overlap(r: bv32, m: bv32) {
    r & m != 0
  }

  predicate Below(m: bv32) {
    m & 0x8000_0000 == 0
  }

  lemma ShiftedRight(r: bv32, m: bv32)
    requires Below(m)
    ensures Overlap(Shr1(r), m) <==> Overlap(r, Dbl(m))
  {
  }

  lemma ShiftedLeft(r: bv32, b: bv32, m: bv32)
    requires m & 0x8000_0000 == 0
    ensures TakeIn(r, b) & Dbl(m) != 0 <==> r & m != 0
  {
  }

  lemma Mixed(a: bv32, b: bv32, m: bv32)
    requires m & (m - 1) == 0
    ensures (a ^ b) & m != 0 <==> ((a & m != 0) != (b & m != 0))
  {
  }

  // ---- words as the CRC uses them ----

  function Shr1(r: bv32): bv32 {
    r >> 1
  }

  function Shr8(r: bv32): bv32 {
    r >> 8
  }

  function Mix(a: bv32, b: bv32): bv32 {
    a ^ b
  }

  predicate LowBit(r: bv32) {
    r & 1 == 1
  }

  function LowByte(r: bv32): bv32 {
    r & 0xFF
  }

  /** Takes the low bit of b in at the low end. */
  function TakeIn(r: bv32, b: bv32): bv32 {
    (r << 1) | (b & 1)
  }

  function Wide(b: bv8): bv32 {
    b as bv32
  }

  lemma LowBitIs(r: bv32)
    ensures LowBit(r) == Bit(r, 0)
  {
  }

  lemma Shr1Bit(r: bv32, k: nat)
    requires k < 31
    ensures Bit(Shr1(r), k) == Bit(r, k + 1)
  {
    hide Mask, Shr1, Dbl, Bit, Overlap, Below;
    NextMask(k);
    ShiftedRight(r, Mask(k));
    BitOverlaps(Shr1(r), k);
    BitOverlaps(r, k + 1);
  }

  lemma NextMask(k: nat)
    requires k < 31
    ensures Mask(k + 1) == Dbl(Mask(k)) && Below(Mask(k))
  {
    hide Mask, Dbl;
    MaskNext(k);
  }

  lemma BitOverlaps(r: bv32, k: nat)
    requires k < 32
    ensures Bit(r, k) == Overlap(r, Mask(k))
  {
    hide Mask;
  }

  lemma MixBit(a: bv32, b: bv32, k: nat)
    requires k < 32
    ensures Bit(Mix(a, b), k) == (Bit(a, k) != Bit(b, k))
  {
    hide Mask;
    MaskOne(k);
    Mixed(a, b, Mask(k));
  }

  lemma TakeInBit(r: bv32, b: bv32, k: nat)
    requires k < 31
    ensures Bit(TakeIn(r, b), k + 1) == Bit(r, k)
  {
    hide Mask, TakeIn, Dbl;
    MaskNext(k);
    var t, m := TakeIn(r, b), Mask(k);
    ShiftedLeft(r, b, m);
    BitIs(t, k + 1, Dbl(m));
    BitIs(r, k, m);
    hide Bit;
  }

  lemma BitIs(r: bv32, k: nat, m: bv32)
    requires k < 32 && Mask(k) == m
    ensures Bit(r, k) == (r & m != 0)
  {
  }

  lemma TakeInLow(r: bv32, b: bv32)
    ensures Bit(TakeIn(r, b), 0) == Bit(b, 0)
  {
  }

  lemma BelowByBits(r: bv32)
    requires forall k :: 24 <= k < 32 ==> !Bit(r, k)
    ensures r < 0x100_0000
  {
    assert !Bit(r, 24) && !Bit(r, 25) && !Bit(r, 26) && !Bit(r, 27);
    assert !Bit(r, 28) && !Bit(r, 29) && !Bit(r, 30) && !Bit(r, 31);
  }

  lemma BitsOfBelow(r: bv32, k: nat)
    requires r < 0x100_0000 && 24 <= k < 32
    ensures !Bit(r, k)
  {
  }
}
