/** Doubling in GF(2^128), as section 2.3 of RFC 4493 makes subkeys. */
module GfDouble {
  import opened ByteBits
  import opened Bytes

  /** Bit i of a block, most significant first. */
  predicate BlockBit(b: Block, i: nat)
    requires i < 128
  {
    Bit(b[i / 8], i % 8)
  }

  function Doubled(b: Block): Block {
    seq(16, i requires 0 <= i < 16 => if i < 15 then Join(b[i], b[i + 1]) else Last(b[15], Bit(b[0], 0)))
  }

  /** What doubling means: shift left by one bit, and add the constant
      x^7 + x^2 + x + 1 if a bit was shifted out. */
  lemma DoubledBits(b: Block, i: nat)
    requires i < 128
    ensures BlockBit(Doubled(b), i)
         == ((i < 127 && BlockBit(b, i + 1)) != (BlockBit(b, 0) && (i == 120 || i >= 125)))
  {
    hide Bit;
    var q, k := i / 8, i % 8;
    if q < 15 {
      Shifted(b[q], b[q + 1], k);
    } else if Bit(b[0], 0) {
      Reduced(b[15], k);
    } else {
      Unreduced(b[15], k);
    }
  }

  method GfMulx(pad: array<byte>)
    requires pad.Length == 16
    modifies pad
    ensures pad[..] == Doubled(old(pad[..]))
  {
    hide Join, Last, Bit, Top, CXor, Shift1, Doubled;
    var t := Top(pad[0]);
    for i := 0 to BLOCK_SIZE - 1
      invariant forall j :: 0 <= j < i ==> pad[j] == Join(old(pad[j]), old(pad[j + 1]))
      invariant forall j :: i <= j < 16 ==> pad[j] == old(pad[j])
    {
      pad[i] := Join(pad[i], pad[i + 1]);
    }
    ghost var b: Block := old(pad[..]);
    pad[15] := Shift1(pad[15]) ^ CXor(t);
    forall i | 0 <= i < 16 ensures pad[i] == Doubled(b)[i] {
      DoubledOnce(b, i);
    }
  }

  /** Doubles twice in one pass. */
  method GfMulx2(pad: array<byte>)
    requires pad.Length == 16
    modifies pad
    ensures pad[..] == Doubled(Doubled(old(pad[..])))
  {
    hide Join, Join2, Last, Bit, Top2, CXor, Shift2, Half, Doubled;
    var t := Top2(pad[0]);
    for i := 0 to BLOCK_SIZE - 1
      invariant forall j :: 0 <= j < i ==> pad[j] == Join2(old(pad[j]), old(pad[j + 1]))
      invariant forall j :: i <= j < 16 ==> pad[j] == old(pad[j])
    {
      pad[i] := Join2(pad[i], pad[i + 1]);
    }
    ghost var b: Block := old(pad[..]);
    pad[14] := pad[14] ^ Half(t);
    pad[15] := Shift2(pad[15]) ^ CXor(t);
    forall i | 0 <= i < 16 ensures pad[i] == Doubled(Doubled(b))[i] {
      DoubledTwice(b, i);
    }
  }

  lemma DoubledOnce(b: Block, i: nat)
    requires i < 16
    ensures Doubled(b)[i] == if i < 15 then Join(b[i], b[i + 1]) else Shift1(b[15]) ^ CXor(Top(b[0]))
  {
    hide Join, Last, Bit, Top, CXor, Shift1;
    LastByTable(b[15], b[0]);
  }

  lemma DoubledTwice(b: Block, i: nat)
    requires i < 16
    ensures Doubled(Doubled(b))[i] == if i < 14 then Join2(b[i], b[i + 1])
                                      else if i == 14 then Join2(b[14], b[15]) ^ Half(Top2(b[0]))
                                      else Shift2(b[15]) ^ CXor(Top2(b[0]))
  {
    hide Join, Join2, Last, Bit, Top2, CXor, Shift2, Half;
    if i < 14 {
      JoinTwice(b[i], b[i + 1], b[i + 2]);
    } else {
      LastTwoBytes(b[14], b[15], b[0], b[1]);
    }
  }
}
