/** Facts about shifted bytes, apart from everything else. */
module ByteBits {

  predicate Bit(b: bv8, k: nat)
    requires k < 8
  {
    b & Mask(k) != 0
  }

  /** Bit k counting from the most significant. */
  function Mask(k: nat): bv8
    requires k < 8
  {
    match k
    case 0 => 0x80
    case 1 => 0x40
    case 2 => 0x20
    case 3 => 0x10
    case 4 => 0x08
    case 5 => 0x04
    case 6 => 0x02
    case _ => 0x01
  }

  /** A byte shifted left by one, taking its last bit from the next byte. */
  function Join(a: bv8, b: bv8): bv8 {
    (a << 1) | (b >> 7)
  }

  /** The last byte shifted left by one, with the field's constant added if a bit fell out. */
  function Last(a: bv8, out: bool): bv8 {
    if out then (a << 1) ^ 0x87 else a << 1
  }

  lemma ShiftedHigh(a: bv8, b: bv8)
    ensures var r := (a << 1) | (b >> 7);
            && (r & 0x80 != 0 <==> a & 0x40 != 0) && (r & 0x40 != 0 <==> a & 0x20 != 0)
            && (r & 0x20 != 0 <==> a & 0x10 != 0) && (r & 0x10 != 0 <==> a & 0x08 != 0)
  {
  }

  lemma ShiftedLow(a: bv8, b: bv8)
    ensures var r := (a << 1) | (b >> 7);
            && (r & 0x08 != 0 <==> a & 0x04 != 0) && (r & 0x04 != 0 <==> a & 0x02 != 0)
            && (r & 0x02 != 0 <==> a & 0x01 != 0) && (r & 0x01 != 0 <==> b & 0x80 != 0)
  {
  }

  /** The bits of a byte that takes its last bit from the next one. */
  lemma Shifted(a: bv8, b: bv8, k: nat)
    requires k < 8
    ensures Bit(Join(a, b), k) == if k < 7 then Bit(a, k + 1) else Bit(b, 0)
  {
    ShiftedHigh(a, b);
    ShiftedLow(a, b);
  }

  lemma LastHigh(a: bv8)
    ensures var r := (a << 1) ^ 0x87;
            && (r & 0x80 != 0 <==> a & 0x40 == 0) && (r & 0x40 != 0 <==> a & 0x20 != 0)
            && (r & 0x20 != 0 <==> a & 0x10 != 0) && (r & 0x10 != 0 <==> a & 0x08 != 0)
  {
  }

  lemma LastLow(a: bv8)
    ensures var r := (a << 1) ^ 0x87;
            && (r & 0x08 != 0 <==> a & 0x04 != 0) && (r & 0x04 != 0 <==> a & 0x02 == 0)
            && (r & 0x02 != 0 <==> a & 0x01 == 0) && r & 0x01 != 0
  {
  }

  /** The bits of the last byte, with the field's constant added. */
  lemma Reduced(a: bv8, k: nat)
    requires k < 8
    ensures Bit(Last(a, true), k) == ((k < 7 && Bit(a, k + 1)) != (k == 0 || k >= 5))
  {
    LastHigh(a);
    LastLow(a);
  }

  lemma Unreduced(a: bv8, k: nat)
    requires k < 8
    ensures Bit(Last(a, false), k) == (k < 7 && Bit(a, k + 1))
  {
    ZeroBits();
    Shifted(a, 0, k);
    OrNothing(a);
  }

  lemma ZeroBits()
    ensures 0 as bv8 & 0x80 == 0
  {
  }

  lemma OrNothing(a: bv8)
    ensures (a << 1) | (0 as bv8 >> 7) == a << 1
  {
  }

  // ---- two doublings at once ----

  function Join2(a: bv8, b: bv8): bv8 {
    (a << 2) | (b >> 6)
  }

  function Top(a: bv8): bv8 {
    a >> 7
  }

  function Top2(a: bv8): bv8 {
    a >> 6
  }

  function Half(t: bv8): bv8 {
    t >> 1
  }

  /** The constant for the bits that fall out, shifting by one or by two. */
  function CXor(t: bv8): bv8 {
    if t == 0 then 0x00 else if t == 1 then 0x87 else if t == 2 then 0x0e else 0x89
  }

  function Shift1(a: bv8): bv8 {
    a << 1
  }

  function Shift2(a: bv8): bv8 {
    a << 2
  }

  lemma LastByTable(a: bv8, first: bv8)
    ensures Shift1(a) ^ CXor(Top(first)) == Last(a, Bit(first, 0))
  {
    TopIsBit(first);
    if !Bit(first, 0) {
      XorNothing(Shift1(a));
    }
  }

  lemma XorNothing(a: bv8)
    ensures a ^ 0 == a
  {
  }

  lemma TopIsBit(a: bv8)
    ensures Top(a) == if Bit(a, 0) then 1 else 0
  {
  }

  lemma Top2IsBits(a: bv8, b: bv8)
    ensures Top2(a) == (if Bit(a, 0) then 2 else 0) + (if Bit(Join(a, b), 0) then 1 else 0)
    ensures Half(Top2(a)) == Top(a)
  {
  }

  lemma LastPair(a: bv8, b: bv8, out: bool)
    ensures Join(Join(a, b), Last(b, out)) == Join2(a, b) ^ (if out then 1 else 0)
  {
  }

  lemma LastTwice(b: bv8, out: bool, next: bool)
    ensures Last(Last(b, out), next) == Shift2(b) ^ ((if out then 0x0e else 0) ^ (if next then 0x87 else 0))
  {
  }

  lemma CXorSplits(t: bv8, out: bool, next: bool)
    requires t == (if out then 2 else 0) + (if next then 1 else 0)
    ensures CXor(t) == (if out then 0x0e else 0) ^ (if next then 0x87 else 0)
  {
  }

  lemma JoinTwice(a: bv8, b: bv8, c: bv8)
    ensures Join(Join(a, b), Join(b, c)) == Join2(a, b)
  {
  }

  /** The last two bytes after two doublings; first and second are the block's first bytes. */
  lemma LastTwoBytes(a: bv8, b: bv8, first: bv8, second: bv8)
    ensures Join2(a, b) ^ Half(Top2(first)) == Join(Join(a, b), Last(b, Bit(first, 0)))
    ensures Shift2(b) ^ CXor(Top2(first)) == Last(Last(b, Bit(first, 0)), Bit(Join(first, second), 0))
  {
    hide Join2, Join, Last, Shift2, Top2, Top, Half, Bit, CXor;
    Top2IsBits(first, second);
    TopIsBit(first);
    LastPair(a, b, Bit(first, 0));
    LastTwice(b, Bit(first, 0), Bit(Join(first, second), 0));
    CXorSplits(Top2(first), Bit(first, 0), Bit(Join(first, second), 0));
  }
}
