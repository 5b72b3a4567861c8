/** CRC-32 as both ends of the update protocol compute it. */
module Crc32 {
  import opened Bytes
  import opened WordBits

  function Not(c: bv32): bv32 {
    !c
  }

  /** One shift of the register. */
  function Shift(c: bv32): bv32 {
    (c >> 1) ^ (0xEDB8_8320 & if c & 1 == 1 then 0xFFFF_FFFF else 0)
  }

  function Shifts(c: bv32, n: nat): bv32 {
    if n == 0 then c else Shift(Shifts(c, n - 1))
  }

  /** A byte is xored into the low end, then the register is shifted eight times. */
  function TakeByte(c: bv32, b: byte): bv32 {
    Shifts(Mix(c, Wide(b)), 8)
  }

  function TakeBytes(c: bv32, s: seq<byte>): bv32
    decreases |s|
  {
    if s == [] then c else TakeByte(TakeBytes(c, s[..|s| - 1]), s[|s| - 1])
  }

  /** The CRC of s continuing from the CRC of what came before it; seed 0 starts afresh. */
  function Crc(seed: bv32, s: seq<byte>): bv32 {
    Not(TakeBytes(Not(seed), s))
  }

  lemma {:induction false} TakeBytesConcat(c: bv32, a: seq<byte>, b: seq<byte>)
    ensures TakeBytes(c, a + b) == TakeBytes(TakeBytes(c, a), b)
    decreases |b|
  {
    hide TakeByte;
    if b == [] {
      assert a + b == a;
    } else {
      var n := |b| - 1;
      TakeBytesConcat(c, a, b[..n]);
      assert (a + b)[..|a + b| - 1] == a + b[..n];
    }
  }

  lemma NotNot(c: bv32)
    ensures Not(Not(c)) == c
  {
  }

  /** CRCs compose: the second part is seeded with the CRC of the first. */
  lemma CrcConcat(seed: bv32, a: seq<byte>, b: seq<byte>)
    ensures Crc(seed, a + b) == Crc(Crc(seed, a), b)
  {
    hide TakeBytes, Not;
    TakeBytesConcat(Not(seed), a, b);
    NotNot(TakeBytes(Not(seed), a));
  }

  lemma ShiftInjective(a: bv32, b: bv32)
    requires Shift(a) == Shift(b)
    ensures a == b
  {
  }

  lemma {:induction false} ShiftsInjective(a: bv32, b: bv32, n: nat)
    requires Shifts(a, n) == Shifts(b, n)
    ensures a == b
  {
    hide Shift;
    if n > 0 {
      ShiftInjective(Shifts(a, n - 1), Shifts(b, n - 1));
      ShiftsInjective(a, b, n - 1);
    }
  }

  lemma MixInjective(a: bv32, b: bv32, m: bv32)
    requires Mix(a, m) == Mix(b, m)
    ensures a == b
  {
  }

  lemma {:induction false} TakeBytesInjective(a: bv32, b: bv32, s: seq<byte>)
    requires TakeBytes(a, s) == TakeBytes(b, s)
    ensures a == b
    decreases |s|
  {
    hide Shifts, Mix;
    if s != [] {
      var n := |s| - 1;
      var w := Wide(s[n]);
      ShiftsInjective(Mix(TakeBytes(a, s[..n]), w), Mix(TakeBytes(b, s[..n]), w), 8);
      MixInjective(TakeBytes(a, s[..n]), TakeBytes(b, s[..n]), w);
      TakeBytesInjective(a, b, s[..n]);
    }
  }

  /** The same bytes never make two different CRCs agree. */
  lemma CrcInjective(a: bv32, b: bv32, s: seq<byte>)
    ensures Crc(a, s) == Crc(b, s) <==> a == b
  {
    hide TakeBytes, Not;
    if Crc(a, s) == Crc(b, s) {
      NotNot(TakeBytes(Not(a), s));
      NotNot(TakeBytes(Not(b), s));
      TakeBytesInjective(Not(a), Not(b), s);
      NotNot(a);
      NotNot(b);
    }
  }

  lemma CrcNothing()
    ensures Crc(0, []) == 0
  {
    hide Not;
    NotNot(0);
  }

  /** The nested loop of both implementations. */
  method Compute(data: seq<byte>, seed: bv32) returns (r: bv32)
    ensures r == Crc(seed, data)
  {
    hide TakeBytes, Mix, Wide, Not, Shifts;
    var crc := Not(seed);
    var i := 0;
    TakeBytesStep(crc, data, 0);
    while i < |data|
      invariant i <= |data| && crc == TakeBytes(Not(seed), data[..i])
    {
      TakeBytesStep(Not(seed), data, i);
      crc := Mix(crc, Wide(data[i]));
      crc := EightShifts(crc);
      i := i + 1;
    }
    assert data[..i] == data;
    r := Not(crc);
  }

  lemma TakeBytesStep(c: bv32, s: seq<byte>, i: nat)
    requires i <= |s|
    ensures TakeBytes(c, s[..0]) == c
    ensures i < |s| ==> TakeBytes(c, s[..i + 1]) == Shifts(Mix(TakeBytes(c, s[..i]), Wide(s[i])), 8)
  {
    hide Shifts;
    if i < |s| {
      assert s[..i + 1][..i] == s[..i];
    }
  }

  method EightShifts(c: bv32) returns (crc: bv32)
    ensures crc == Shifts(c, 8)
  {
    hide Shift;
    crc := c;
    var j := 8;
    while j > 0
      invariant 0 <= j <= 8 && crc == Shifts(c, 8 - j)
    {
      crc := Shift(crc);
      j := j - 1;
    }
  }
}
