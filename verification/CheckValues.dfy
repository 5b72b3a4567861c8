/** Published values that the constants of the checksums, the whitening, SHA-256 and CCM are
    checked against. */
module CheckValues {
  import opened Bytes
  import opened Crc32
  import opened WordBits
  import Ccm
  import ByteBits
  import Crc24
  import Crc24Step
  import Sha256Spec
  import Whitening

  /** The digits 1 to 9 in ASCII. */
  const DIGITS: seq<byte> := [0x31, 0x32, 0x33, 0x34, 0x35, 0x36, 0x37, 0x38, 0x39]

  lemma OneMore(n: nat, c: bv32)
    requires n < 9 && TakeBytes(0xFFFF_FFFF, DIGITS[..n]) == c
    ensures TakeBytes(0xFFFF_FFFF, DIGITS[..n + 1]) == TakeByte(c, DIGITS[n])
  {
    hide TakeByte;
    assert DIGITS[..n + 1][..n] == DIGITS[..n];
  }

  lemma Digit1()
    ensures TakeByte(0xffffffff, 0x31) == 0x7c231048
  {
  }

  lemma Digit2()
    ensures TakeByte(0x7c231048, 0x32) == 0xb0acbb32
  {
  }

  lemma Digit3()
    ensures TakeByte(0xb0acbb32, 0x33) == 0x77b79c2d
  {
  }

  lemma Digit4()
    ensures TakeByte(0x77b79c2d, 0x34) == 0x641c1f5c
  {
  }

  lemma Digit5()
    ensures TakeByte(0x641c1f5c, 0x35) == 0x340ac5e3
  {
  }

  lemma Digit6()
    ensures TakeByte(0x340ac5e3, 0x36) == 0xf68d2c9e
  {
  }

  lemma Digit7()
    ensures TakeByte(0xf68d2c9e, 0x37) == 0xaffc9660
  {
  }

  lemma Digit8()
    ensures TakeByte(0xaffc9660, 0x38) == 0x651f2550
  {
  }

  lemma Digit9()
    ensures TakeByte(0x651f2550, 0x39) == 0x340bc6d9
  {
  }

  /** The CRC-32 of the digits is the value the standard's catalogues give. */
  lemma CrcOfDigits()
    ensures Crc(0, DIGITS) == 0xCBF43926
  {
    hide TakeByte, TakeBytes;
    TakesNothing();
    Digit1();
    OneMore(0, 0xffffffff);
    Digit2();
    OneMore(1, 0x7c231048);
    Digit3();
    OneMore(2, 0xb0acbb32);
    Digit4();
    OneMore(3, 0x77b79c2d);
    Digit5();
    OneMore(4, 0x641c1f5c);
    Digit6();
    OneMore(5, 0x340ac5e3);
    Digit7();
    OneMore(6, 0xf68d2c9e);
    Digit8();
    OneMore(7, 0xaffc9660);
    Digit9();
    OneMore(8, 0x651f2550);
    assert DIGITS[..9] == DIGITS;
    assert Not(0) == 0xFFFF_FFFF;
  }

  lemma TakesNothing()
    ensures TakeBytes(0xFFFF_FFFF, DIGITS[..0]) == 0xFFFF_FFFF
  {
  }

  /** h is the first 32 bits behind the point of the square root of p. */
  predicate RootBits(p: nat, h: bv32) {
    exists a: nat :: a < 5 && Squeezed(p, a, h)
  }

  predicate Squeezed(p: nat, a: nat, h: bv32) {
    var v := a * 0x1_0000_0000 + h as int;
    v * v <= p * 0x1_0000_0000_0000_0000 < (v + 1) * (v + 1)
  }

  lemma Root(p: nat, a: nat, h: bv32)
    requires a < 5 && Squeezed(p, a, h)
    ensures RootBits(p, h)
  {
  }

  lemma FirstRoots()
    ensures Squeezed(2, 1, 0x6a09e667) && Squeezed(3, 1, 0xbb67ae85)
    ensures Squeezed(5, 2, 0x3c6ef372) && Squeezed(7, 2, 0xa54ff53a)
  {
  }

  lemma LastRoots()
    ensures Squeezed(11, 3, 0x510e527f) && Squeezed(13, 3, 0x9b05688c)
    ensures Squeezed(17, 4, 0x1f83d9ab) && Squeezed(19, 4, 0x5be0cd19)
  {
  }

  /** The starting state of section 5.3.3 of FIPS 180-4: the roots of the first eight primes. */
  lemma StartIsRoots()
    ensures RootBits(2, Sha256Spec.H0[0]) && RootBits(3, Sha256Spec.H0[1]) && RootBits(5, Sha256Spec.H0[2])
    ensures RootBits(7, Sha256Spec.H0[3]) && RootBits(11, Sha256Spec.H0[4]) && RootBits(13, Sha256Spec.H0[5])
    ensures RootBits(17, Sha256Spec.H0[6]) && RootBits(19, Sha256Spec.H0[7])
  {
    hide Squeezed, RootBits;
    FirstRoots();
    LastRoots();
    Root(2, 1, 0x6a09e667);
    Root(3, 1, 0xbb67ae85);
    Root(5, 2, 0x3c6ef372);
    Root(7, 2, 0xa54ff53a);
    Root(11, 3, 0x510e527f);
    Root(13, 3, 0x9b05688c);
    Root(17, 4, 0x1f83d9ab);
    Root(19, 4, 0x5be0cd19);
  }

  /** The return codes of the CCM implementation's header. */
  lemma ReturnCodes()
    ensures Ccm.RETURN_WARN == 1 && Ccm.RETURN_GOOD == 0 && Ccm.RETURN_ERROR == -1
    ensures Ccm.CCM_BAD_AUTH_FIELD_LENGTH == -3 && Ccm.CCM_BAD_NONCE_LENGTH == -4 && Ccm.CCM_BAD_AUTH_CALL == -5
    ensures Ccm.CCM_AUTH_LENGTH_ERROR == -6 && Ccm.CCM_MSG_LENGTH_ERROR == -7
  {
  }

  // ---- CRC-24 ----

  function Crc24Next(r: bv32, b: byte): bv32 {
    Mix(Shr8(r), Crc24Step.Entry(LowByte(Mix(r, Wide(b)))))
  }

  lemma Entry1()
    ensures Crc24Step.Entry(0x9b) == 0xce5740
  {
  }

  lemma Crc24Digit1()
    ensures Crc24Next(0xaaaaaa, 0x31) == 0xcefdea
  {
    Entry1();
    assert LowByte(Mix(0xaaaaaa, Wide(0x31))) == 0x9b;
    hide Crc24Step.Entry;
  }

  lemma Entry2()
    ensures Crc24Step.Entry(0xd8) == 0xa1ba00
  {
  }

  lemma Crc24Digit2()
    ensures Crc24Next(0xcefdea, 0x32) == 0xa174fd
  {
    Entry2();
    assert LowByte(Mix(0xcefdea, Wide(0x32))) == 0xd8;
    hide Crc24Step.Entry;
  }

  lemma Entry3()
    ensures Crc24Step.Entry(0xce) == 0xbf4c80
  {
  }

  lemma Crc24Digit3()
    ensures Crc24Next(0xa174fd, 0x33) == 0xbfedf4
  {
    Entry3();
    assert LowByte(Mix(0xa174fd, Wide(0x33))) == 0xce;
    hide Crc24Step.Entry;
  }

  lemma Entry4()
    ensures Crc24Step.Entry(0xc0) == 0xb75000
  {
  }

  lemma Crc24Digit4()
    ensures Crc24Next(0xbfedf4, 0x34) == 0xb7efed
  {
    Entry4();
    assert LowByte(Mix(0xbfedf4, Wide(0x34))) == 0xc0;
    hide Crc24Step.Entry;
  }

  lemma Entry5()
    ensures Crc24Step.Entry(0xd8) == 0xa1ba00
  {
  }

  lemma Crc24Digit5()
    ensures Crc24Next(0xb7efed, 0x35) == 0xa10def
  {
    Entry5();
    assert LowByte(Mix(0xb7efed, Wide(0x35))) == 0xd8;
    hide Crc24Step.Entry;
  }

  lemma Entry6()
    ensures Crc24Step.Entry(0xd9) == 0xa00ec0
  {
  }

  lemma Crc24Digit6()
    ensures Crc24Next(0xa10def, 0x36) == 0xa0afcd
  {
    Entry6();
    assert LowByte(Mix(0xa10def, Wide(0x36))) == 0xd9;
    hide Crc24Step.Entry;
  }

  lemma Entry7()
    ensures Crc24Step.Entry(0xfa) == 0x944b80
  {
  }

  lemma Crc24Digit7()
    ensures Crc24Next(0xa0afcd, 0x37) == 0x94eb2f
  {
    Entry7();
    assert LowByte(Mix(0xa0afcd, Wide(0x37))) == 0xfa;
    hide Crc24Step.Entry;
  }

  lemma Entry8()
    ensures Crc24Step.Entry(0x17) == 0x1f4240
  {
  }

  lemma Crc24Digit8()
    ensures Crc24Next(0x94eb2f, 0x38) == 0x1fd6ab
  {
    Entry8();
    assert LowByte(Mix(0x94eb2f, Wide(0x38))) == 0x17;
    hide Crc24Step.Entry;
  }

  lemma Entry9()
    ensures Crc24Step.Entry(0x92) == 0xc24580
  {
  }

  lemma Crc24Digit9()
    ensures Crc24Next(0x1fd6ab, 0x39) == 0xc25a56
  {
    Entry9();
    assert LowByte(Mix(0x1fd6ab, Wide(0x39))) == 0x92;
    hide Crc24Step.Entry;
  }

  lemma Crc24OneMore(n: nat, r: bv32)
    requires n < 9 && Crc24.Computes(r, 0x55_5555, DIGITS[..n])
    ensures Crc24.Computes(Crc24Next(r, DIGITS[n]), 0x55_5555, DIGITS[..n + 1])
  {
    hide Crc24.Computes, Mix, Shr8, LowByte, Wide, Crc24Step.Entry;
    Crc24.ComputesNext(r, 0x55_5555, DIGITS[..n], DIGITS[n]);
    assert DIGITS[..n] + [DIGITS[n]] == DIGITS[..n + 1];
  }

  lemma Crc24Preset()
    ensures Crc24.Computes(0xAA_AAAA, 0x55_5555, DIGITS[..0])
  {
    hide Crc24.Lfsr;
    assert DIGITS[..0] == [];
    assert Crc24.Positions(0xAA_AAAA) == Crc24.Preset(0x55_5555);
    NoBits(Crc24.Preset(0x55_5555));
  }

  lemma NoBits(reg: Crc24.Register)
    ensures Crc24.Lfsr(reg, Crc24.DataBits([])) == reg
  {
  }

  /** From 0x555555 the link layer's CRC of the digits is the value the catalogues give. */
  lemma Crc24OfDigits()
    ensures Crc24.Computes(0xC2_5A56, 0x55_5555, DIGITS)
  {
    hide Crc24.Computes, Crc24Next;
    Crc24Preset();
    Crc24OneMore(0, 0xaaaaaa);
    Crc24Digit1();
    Crc24OneMore(1, 0xcefdea);
    Crc24Digit2();
    Crc24OneMore(2, 0xa174fd);
    Crc24Digit3();
    Crc24OneMore(3, 0xbfedf4);
    Crc24Digit4();
    Crc24OneMore(4, 0xb7efed);
    Crc24Digit5();
    Crc24OneMore(5, 0xa10def);
    Crc24Digit6();
    Crc24OneMore(6, 0xa0afcd);
    Crc24Digit7();
    Crc24OneMore(7, 0x94eb2f);
    Crc24Digit8();
    Crc24OneMore(8, 0x1fd6ab);
    Crc24Digit9();
    assert DIGITS[..9] == DIGITS;
  }

  // ---- whitening ----

  function Ticked(w: byte, n: nat): byte
    decreases n
  {
    if n == 0 then w else Ticked(Whitening.Next(w), n - 1)
  }

  function KeyByte(w: byte, j: nat): byte
    requires j <= 8
    decreases 8 - j
  {
    if j == 8 then 0
    else KeyByte(Whitening.Next(w), j + 1) ^ (if ByteBits.Half(w) & 1 != 0 then ByteBits.Mask(7 - j) else 0)
  }

  lemma {:induction false} TickedIs(w: byte, n: nat)
    ensures Whitening.Held(Ticked(w, n)) == Whitening.Clocks(Whitening.Held(w), n)
    decreases n
  {
    hide Whitening.Held, Whitening.Next, Whitening.Clock;
    if n > 0 {
      Whitening.NextIsClock(w);
      TickedIs(Whitening.Next(w), n - 1);
    }
  }

  lemma {:induction false} KeyByteIs(w: byte, j: nat)
    requires j <= 8
    ensures KeyByte(w, j) == Whitening.KeyFrom(Whitening.Held(w), j)
    decreases 8 - j
  {
    hide Whitening.Held, Whitening.Next, Whitening.Clock, ByteBits.Half, ByteBits.Mask;
    if j < 8 {
      Whitening.NextIsClock(w);
      KeyByteIs(Whitening.Next(w), j + 1);
    }
  }

  lemma NextKey(w: byte, n: nat)
    ensures Whitening.KeyStream(Whitening.Held(w), n + 1)
         == [KeyByte(w, 0)] + Whitening.KeyStream(Whitening.Held(Ticked(w, 8)), n)
  {
    hide Whitening.Held, Ticked, KeyByte, Whitening.Clocks, Whitening.KeyFrom;
    KeyByteIs(w, 0);
    TickedIs(w, 8);
  }

  lemma Key1()
    ensures KeyByte(0xca, 0) == 0x8d && Ticked(0xca, 8) == 0x85
  {
  }

  lemma Key2()
    ensures KeyByte(0x85, 0) == 0xd2 && Ticked(0x85, 8) == 0xdf
  {
  }

  lemma Key3()
    ensures KeyByte(0xdf, 0) == 0x57 && Ticked(0xdf, 8) == 0x52
  {
  }

  lemma Key4()
    ensures KeyByte(0x52, 0) == 0xa1 && Ticked(0x52, 8) == 0xab
  {
  }

  lemma Key5()
    ensures KeyByte(0xab, 0) == 0x3d && Ticked(0xab, 8) == 0x3e
  {
  }

  lemma Key6()
    ensures KeyByte(0x3e, 0) == 0xa7 && Ticked(0x3e, 8) == 0xad
  {
  }

  lemma Key7()
    ensures KeyByte(0xad, 0) == 0x66 && Ticked(0xad, 8) == 0x60
  {
  }

  lemma Key8()
    ensures KeyByte(0x60, 0) == 0xb0 && Ticked(0x60, 8) == 0xbb
  {
  }

  /** The first bytes of the whitening of advertising channel 37. */
  lemma WhiteningOf37()
    ensures Whitening.KeyStream(Whitening.Start(37), 8) == [0x8D, 0xD2, 0x57, 0xA1, 0x3D, 0xA7, 0x66, 0xB0]
  {
    hide Whitening.Held, Whitening.KeyStream, Ticked, KeyByte, Whitening.Start;
    Whitening.BeginHolds(37);
    assert Whitening.Begin(37) == 0xca;
    NextKey(0xca, 7);
    Key1();
    NextKey(0x85, 6);
    Key2();
    NextKey(0xdf, 5);
    Key3();
    NextKey(0x52, 4);
    Key4();
    NextKey(0xab, 3);
    Key5();
    NextKey(0x3e, 2);
    Key6();
    NextKey(0xad, 1);
    Key7();
    NextKey(0x60, 0);
    Key8();
    NoKey(Whitening.Held(0xbb));
  }

  lemma NoKey(reg: Whitening.Register)
    ensures Whitening.KeyStream(reg, 0) == []
  {
  }

  // ---- the digest ----

  /** Four bytes of a digest are one word, most significant byte first. */
  lemma DigestWord(s: Sha256Spec.State, i: nat)
    requires i < 8
    ensures var d := Sha256Spec.Digest(s);
            InOrder(s[i], d[4 * i], d[4 * i + 1], d[4 * i + 2], d[4 * i + 3])
  {
    WordBytes(s[i]);
    hide InOrder, Sha256Spec.WordByte;
  }

  predicate InOrder(w: bv32, a: byte, b: byte, c: byte, d: byte) {
    w == (a as bv32 << 24) | (b as bv32 << 16) | (c as bv32 << 8) | d as bv32
  }

  lemma WordBytes(w: bv32)
    ensures InOrder(w, Sha256Spec.WordByte(w, 3), Sha256Spec.WordByte(w, 2), Sha256Spec.WordByte(w, 1),
                    Sha256Spec.WordByte(w, 0))
  {
  }
}
