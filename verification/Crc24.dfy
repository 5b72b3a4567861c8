/** The link layer's CRC (section 3.1.1 of Vol 6 Part B of the Bluetooth Core Specification)
    as a 24-position shift register, and the table-driven computation of it. */
module Crc24 {
  import opened Bytes
  import opened Crc24Step
  import opened WordBits

  // ---- the shift register of the specification ----

  /** Feedback enters position 0 and is added where these positions take over. */
  predicate Tap(k: nat) {
    k == 1 || k == 3 || k == 4 || k == 6 || k == 9 || k == 10
  }

  type Register = s: seq<bool> | |s| == 24 witness seq(24, i => false)

  /** One bit of data: position 23 and the bit are fed back. */
  function Clock(reg: Register, d: bool): Register {
    var fb := reg[23] != d;
    seq(24, k requires 0 <= k < 24 => if k == 0 then fb else reg[k - 1] != (fb && Tap(k)))
  }

  function Lfsr(reg: Register, bits: seq<bool>): Register
    decreases |bits|
  {
    if bits == [] then reg else Lfsr(Clock(reg, bits[0]), bits[1..])
  }

  /** The initial value's bit k goes to position k. */
  function Preset(init: bv32): Register {
    seq(24, k requires 0 <= k < 24 => Bit(init, k))
  }

  /** A byte's bits, least significant first. */
  function ByteBits(b: byte): (r: seq<bool>)
    ensures |r| == 8
  {
    seq(8, k requires 0 <= k < 8 => Bit(Wide(b), k))
  }

  function DataBits(s: seq<byte>): seq<bool>
    decreases |s|
  {
    if s == [] then [] else DataBits(s[..|s| - 1]) + ByteBits(s[|s| - 1])
  }

  // ---- the word as the register ----

  /** The word holds the register upside down. */
  function Positions(r: bv32): Register {
    seq(24, k requires 0 <= k < 24 => Bit(r, 23 - k))
  }

  lemma PolynomialBits(k: nat)
    requires k < 24
    ensures Bit(0xDA6000, k) == (k == 23 || Tap(23 - k))
  {
  }

  lemma StepBit(r: bv32, d: bool, k: nat)
    requires r < 0x100_0000 && k < 24
    ensures Bit(Step(r, d), 23 - k) == Clock(Positions(r), d)[k]
  {
    hide Shr1, Mix, LowBit, Bit;
    LowBitIs(r);
    Shr1Bit(r, 23 - k);
    MixBit(Shr1(r), 0xDA6000, 23 - k);
    PolynomialBits(23 - k);
    BitsOfBelow(r, 24);
  }

  lemma StepIsClock(r: bv32, d: bool)
    requires r < 0x100_0000
    ensures Positions(Step(r, d)) == Clock(Positions(r), d)
  {
    hide Step, Bit;
    forall k | 0 <= k < 24 ensures Positions(Step(r, d))[k] == Clock(Positions(r), d)[k] {
      StepBit(r, d, k);
    }
  }

  function LowBits(c: bv32, n: nat): (s: seq<bool>)
    ensures |s| == n
    decreases n
  {
    if n == 0 then [] else [LowBit(c)] + LowBits(Shr1(c), n - 1)
  }

  lemma {:induction false} StepsAreClocks(r: bv32, c: bv32, n: nat)
    requires r < 0x100_0000
    ensures Positions(Steps(r, c, n)) == Lfsr(Positions(r), LowBits(c, n))
    decreases n
  {
    hide Step, Shr1, LowBit, Positions, Clock;
    if n > 0 {
      StepBelow(r, LowBit(c));
      StepIsClock(r, LowBit(c));
      StepsAreClocks(Step(r, LowBit(c)), Shr1(c), n - 1);
      assert LowBits(c, n)[1..] == LowBits(Shr1(c), n - 1);
    }
  }

  lemma {:induction false} LowBitsAt(c: bv32, n: nat, k: nat)
    requires k < n && k < 32
    ensures LowBits(c, n)[k] == Bit(c, k)
    decreases n
  {
    hide Shr1, LowBit, Bit;
    if k == 0 {
      LowBitIs(c);
    } else {
      LowBitsAt(Shr1(c), n - 1, k - 1);
      Shr1Bit(c, k - 1);
    }
  }

  lemma LowBitsOfByte(b: byte)
    ensures LowBits(Wide(b), 8) == ByteBits(b)
  {
    hide Bit, LowBits, Wide;
    forall k | 0 <= k < 8 ensures LowBits(Wide(b), 8)[k] == ByteBits(b)[k] {
      LowBitsAt(Wide(b), 8, k);
    }
  }

  lemma {:induction false} LfsrConcat(reg: Register, a: seq<bool>, b: seq<bool>)
    ensures Lfsr(reg, a + b) == Lfsr(Lfsr(reg, a), b)
    decreases |a|
  {
    if a == [] {
      assert a + b == b;
    } else {
      LfsrConcat(Clock(reg, a[0]), a[1..], b);
      assert (a + b)[1..] == a[1..] + b;
    }
  }

  /** One byte through the table clocks the register by the byte's bits. */
  lemma ByteIsClocks(r: bv32, b: byte)
    requires r < 0x100_0000
    ensures var t := Mix(Shr8(r), Entry(LowByte(Mix(r, Wide(b)))));
            t < 0x100_0000 && Positions(t) == Lfsr(Positions(r), ByteBits(b))
  {
    hide Mix, Shr8, LowByte, Wide, Entry, Positions, Lfsr, ByteBits, Steps, LowBits;
    ByteNarrow(b);
    ByteByTable(r, Wide(b));
    StepsBelow(r, Wide(b), 8);
    StepsAreClocks(r, Wide(b), 8);
    LowBitsOfByte(b);
  }

  lemma ByteNarrow(b: byte)
    ensures Wide(b) < 0x100
  {
  }

  /** What is done after the initial value has been loaded and s has gone through. */
  ghost predicate Computes(crc: bv32, init: bv32, s: seq<byte>) {
    crc < 0x100_0000 && Positions(crc) == Lfsr(Preset(init), DataBits(s))
  }

  lemma ComputesNext(crc: bv32, init: bv32, s: seq<byte>, b: byte)
    requires Computes(crc, init, s)
    ensures Computes(Mix(Shr8(crc), Entry(LowByte(Mix(crc, Wide(b))))), init, s + [b])
  {
    hide Mix, Shr8, LowByte, Wide, Entry, Positions, Lfsr, ByteBits;
    ByteIsClocks(crc, b);
    assert (s + [b])[..|s|] == s;
    LfsrConcat(Preset(init), DataBits(s), ByteBits(b));
  }

  // ---- loading the initial value ----

  /** i bits of init0 have been moved into crc, the first of them to the top. */
  ghost predicate Loaded(crc: bv32, init: bv32, init0: bv32, i: nat) {
    && i <= 24
    && (forall k :: 0 <= k < 32 ==> Bit(crc, k) == (k < i && Bit(init0, i - 1 - k)))
    && (forall k :: 0 <= k < 24 - i ==> Bit(init, k) == Bit(init0, k + i))
  }

  lemma LoadNext(crc: bv32, init: bv32, init0: bv32, i: nat)
    requires Loaded(crc, init, init0, i) && i < 24
    ensures Loaded(TakeIn(crc, init), Shr1(init), init0, i + 1)
  {
    hide Bit, TakeIn, Shr1;
    var c, n := TakeIn(crc, init), Shr1(init);
    forall k | 0 <= k < 32 ensures Bit(c, k) == (k < i + 1 && Bit(init0, i - k)) {
      if k == 0 {
        TakeInLow(crc, init);
        assert Bit(init, 0) == Bit(init0, i);
      } else {
        TakeInBit(crc, init, k - 1);
      }
    }
    forall k | 0 <= k < 24 - (i + 1) ensures Bit(n, k) == Bit(init0, k + (i + 1)) {
      Shr1Bit(init, k);
      assert Bit(init, k + 1) == Bit(init0, (k + 1) + i);
    }
  }

  lemma LoadStart(init: bv32)
    ensures Loaded(0, init, init, 0)
  {
    hide Bit;
    forall k | 0 <= k < 32 ensures !Bit(0, k) {
      NoBits(k);
    }
  }

  lemma NoBits(k: nat)
    requires k < 32
    ensures !Bit(0, k)
  {
    NoMask(Mask(k));
    hide Mask;
  }

  lemma NoMask(m: bv32)
    ensures 0 & m == 0
  {
  }

  lemma LoadEnd(crc: bv32, init: bv32, init0: bv32)
    requires Loaded(crc, init, init0, 24)
    ensures Computes(crc, init0, [])
  {
    hide Bit;
    BelowByBits(crc);
    assert Positions(crc) == Preset(init0);
  }
}
