/** The CRC-24 register as a word: one bit at a time, and eight bits by table. */
module Crc24Step {
  import opened WordBits

  /** One bit of data: the register is kept in reflected order, so it moves down. */
  function Step(r: bv32, d: bool): bv32 {
    if LowBit(r) != d then Mix(Shr1(r), 0xDA6000) else Shr1(r)
  }

  /** n bits of c, lowest first. */
  function Steps(r: bv32, c: bv32, n: nat): bv32
    decreases n
  {
    if n == 0 then r else Steps(Step(r, LowBit(c)), Shr1(c), n - 1)
  }

  function Shrs(c: bv32, n: nat): bv32
    decreases n
  {
    if n == 0 then c else Shrs(Shr1(c), n - 1)
  }

  /** The table's entry for i: what the bits of i make of an empty register. */
  function Entry(i: bv32): bv32 {
    Steps(0, i, 8)
  }

  // ---- a step without data is linear ----

  lemma LowMix(a: bv32, b: bv32)
    ensures LowBit(Mix(a, b)) == (LowBit(a) != LowBit(b))
  {
  }

  lemma ShrMix(a: bv32, b: bv32)
    ensures Shr1(Mix(a, b)) == Mix(Shr1(a), Shr1(b))
  {
  }

  lemma MixLast(a: bv32, b: bv32, p: bv32)
    ensures Mix(Mix(a, b), p) == Mix(Mix(a, p), b)
  {
    hide Mix;
    MixInner(a, b, p);
    MixSwap(b, p);
    MixInner(a, p, b);
  }

  lemma MixSwap(a: bv32, b: bv32)
    ensures Mix(a, b) == Mix(b, a)
  {
  }

  lemma MixInner(a: bv32, b: bv32, p: bv32)
    ensures Mix(Mix(a, b), p) == Mix(a, Mix(b, p))
  {
  }

  lemma MixTwice(a: bv32, p: bv32)
    ensures Mix(Mix(a, p), p) == a
  {
  }

  lemma StepLinear(a: bv32, b: bv32)
    ensures Step(Mix(a, b), false) == Mix(Step(a, false), Step(b, false))
  {
    hide Mix, Shr1, LowBit;
    var x, y, p := Shr1(a), Shr1(b), 0xDA6000;
    LowMix(a, b);
    ShrMix(a, b);
    MixLast(x, y, p);
    MixInner(x, y, p);
    MixTwice(Mix(x, y), p);
    MixInner(Mix(x, p), y, p);
  }

  lemma StepMoves(r: bv32, c: bv32)
    ensures Mix(Step(r, LowBit(c)), Shr1(c)) == Step(Mix(r, c), false)
  {
    hide Mix, Shr1, LowBit;
    LowMix(r, c);
    ShrMix(r, c);
    MixLast(Shr1(r), Shr1(c), 0xDA6000);
  }

  /** Data may as well be mixed into the register beforehand. */
  lemma {:induction false} StepsMixed(r: bv32, c: bv32, n: nat)
    ensures Mix(Steps(r, c, n), Shrs(c, n)) == Steps(Mix(r, c), 0, n)
    decreases n
  {
    hide Step, Mix, Shr1, LowBit;
    if n > 0 {
      StepMoves(r, c);
      StepsMixed(Step(r, LowBit(c)), Shr1(c), n - 1);
      ZeroData();
    }
  }

  lemma ZeroData()
    ensures Shr1(0) == 0 && !LowBit(0)
  {
  }

  lemma {:induction false} StepsLinear(a: bv32, b: bv32, n: nat)
    ensures Steps(Mix(a, b), 0, n) == Mix(Steps(a, 0, n), Steps(b, 0, n))
    decreases n
  {
    hide Step, Mix, Shr1, LowBit;
    if n > 0 {
      ZeroData();
      StepLinear(a, b);
      StepsLinear(Step(a, false), Step(b, false), n - 1);
    }
  }

  // ---- eight steps ----

  lemma ShrsEight(c: bv32)
    ensures Shrs(c, 8) == Shr1(Shr1(Shr1(Shr1(Shr1(Shr1(Shr1(Shr1(c))))))))
  {
    hide Shr1;
    var c4 := Shr1(Shr1(Shr1(Shr1(c))));
    assert Shrs(c, 8) == Shrs(Shr1(Shr1(c)), 6) == Shrs(c4, 4) == Shrs(Shr1(Shr1(c4)), 2);
  }

  lemma ByteOut(c: bv32)
    requires c < 0x100
    ensures Shr1(Shr1(Shr1(Shr1(Shr1(Shr1(Shr1(Shr1(c)))))))) == 0
  {
  }

  lemma NoLowByte(v: bv32)
    requires LowByte(v) == 0
    ensures !LowBit(v) && !LowBit(Shr1(v)) && !LowBit(Shr1(Shr1(v))) && !LowBit(Shr1(Shr1(Shr1(v))))
  {
  }

  lemma NoLowByte2(v: bv32)
    requires LowByte(v) == 0
    ensures var w := Shr1(Shr1(Shr1(Shr1(v))));
            !LowBit(w) && !LowBit(Shr1(w)) && !LowBit(Shr1(Shr1(w))) && !LowBit(Shr1(Shr1(Shr1(w))))
    ensures Shr1(Shr1(Shr1(Shr1(Shr1(Shr1(Shr1(Shr1(v)))))))) == Shr8(v)
  {
  }

  lemma FourIdle(v: bv32, n: nat)
    requires !LowBit(v) && !LowBit(Shr1(v)) && !LowBit(Shr1(Shr1(v))) && !LowBit(Shr1(Shr1(Shr1(v))))
    ensures Steps(v, 0, n + 4) == Steps(Shr1(Shr1(Shr1(Shr1(v)))), 0, n)
  {
    ZeroData();
    hide Shr1, LowBit, Mix;
    assert Steps(v, 0, n + 4) == Steps(Shr1(v), 0, n + 3) == Steps(Shr1(Shr1(v)), 0, n + 2)
           == Steps(Shr1(Shr1(Shr1(v))), 0, n + 1);
  }

  /** A register whose low byte is empty just moves down. */
  lemma EightIdle(v: bv32)
    requires LowByte(v) == 0
    ensures Steps(v, 0, 8) == Shr8(v)
  {
    NoLowByte(v);
    NoLowByte2(v);
    hide Shr1, LowBit, Mix, LowByte, Shr8;
    FourIdle(v, 4);
    FourIdle(Shr1(Shr1(Shr1(Shr1(v)))), 0);
  }

  lemma Upper(x: bv32)
    ensures LowByte(x) < 0x100 && LowByte(Mix(x, LowByte(x))) == 0
  {
  }

  lemma UpperMoves(x: bv32)
    ensures Shr8(Mix(x, LowByte(x))) == Shr8(x)
  {
  }

  lemma ByteMoves(r: bv32, c: bv32)
    requires c < 0x100
    ensures Shr8(Mix(r, c)) == Shr8(r)
  {
  }

  lemma Halves(r: bv32, c: bv32)
    requires c < 0x100
    ensures var low := LowByte(Mix(r, c));
            low < 0x100 && LowByte(Mix(Mix(r, c), low)) == 0
            && Mix(Mix(Mix(r, c), low), low) == Mix(r, c) && Shr8(Mix(Mix(r, c), low)) == Shr8(r)
  {
    hide Mix, LowByte, Shr8;
    Upper(Mix(r, c));
    UpperMoves(Mix(r, c));
    ByteMoves(r, c);
    MixTwice(Mix(r, c), LowByte(Mix(r, c)));
  }

  lemma MixNothing(a: bv32)
    ensures Mix(a, 0) == a && Mix(0, a) == a
  {
  }

  /** A byte by table is the same as its eight bits. */
  lemma ByteByTable(r: bv32, c: bv32)
    requires c < 0x100
    ensures Steps(r, c, 8) == Mix(Shr8(r), Entry(LowByte(Mix(r, c))))
  {
    hide Step, Mix, Shr1, LowBit, LowByte, Shr8, Steps, Shrs;
    var v, low := Mix(r, c), LowByte(Mix(r, c));
    Halves(r, c);
    StepsMixed(r, c, 8);
    StepsMixed(0, low, 8);
    ShrsEight(c);
    ByteOut(c);
    ShrsEight(low);
    ByteOut(low);
    MixNothing(Steps(r, c, 8));
    MixNothing(Steps(0, low, 8));
    MixNothing(low);
    StepsLinear(Mix(v, low), low, 8);
    EightIdle(Mix(v, low));
  }

  // ---- 24 bits suffice ----

  lemma StepBelow(r: bv32, d: bool)
    requires r < 0x100_0000
    ensures Step(r, d) < 0x100_0000
  {
  }

  lemma {:induction false} StepsBelow(r: bv32, c: bv32, n: nat)
    requires r < 0x100_0000
    ensures Steps(r, c, n) < 0x100_0000
    decreases n
  {
    hide Step, LowBit, Shr1;
    if n > 0 {
      StepBelow(r, LowBit(c));
      StepsBelow(Step(r, LowBit(c)), Shr1(c), n - 1);
    }
  }
}
