/** Data whitening (section 3.2 of Vol 6 Part B of the Bluetooth Core Specification): a
    7-position shift register whose output is xored into the data. */
module Whitening {
  import opened ByteBits
  import opened Bytes

  type Register = s: seq<bool> | |s| == 7 witness seq(7, i => false)

  /** Position 6 goes out, back into position 0, and into position 4. */
  function Clock(reg: Register): Register {
    [reg[6], reg[0], reg[1], reg[2], reg[3] != reg[6], reg[4], reg[5]]
  }

  /** Position 0 is one, the channel index follows with its highest bit first. */
  function Start(channel: byte): Register {
    [true, Bit(channel, 2), Bit(channel, 3), Bit(channel, 4), Bit(channel, 5), Bit(channel, 6), Bit(channel, 7)]
  }

  function Clocks(reg: Register, n: nat): Register
    decreases n
  {
    if n == 0 then reg else Clocks(Clock(reg), n - 1)
  }

  /** What the next outputs do to bits j and up of a byte. */
  function KeyFrom(reg: Register, j: nat): byte
    requires j <= 8
    decreases 8 - j
  {
    if j == 8 then 0 else KeyFrom(Clock(reg), j + 1) ^ (if reg[6] then Mask(7 - j) else 0)
  }

  function KeyStream(reg: Register, n: nat): (r: seq<byte>)
    ensures |r| == n
    decreases n
  {
    if n == 0 then [] else [KeyFrom(reg, 0)] + KeyStream(Clocks(reg, 8), n - 1)
  }

  // ---- the register in a byte ----

  /** The byte holds the register in its upper seven bits. */
  function Held(w: byte): Register {
    [Bit(w, 0), Bit(w, 1), Bit(w, 2), Bit(w, 3), Bit(w, 4), Bit(w, 5), Bit(w, 6)]
  }

  function Next(w: byte): byte {
    if Half(w) & 1 != 0 then Half(w) ^ 0x88 else Half(w)
  }

  lemma NextHigh(w: byte)
    ensures var r := Next(w); var out := w & 0x02 != 0;
            && (Half(w) & 1 != 0 <==> out)
            && (r & 0x80 != 0 <==> out) && (r & 0x40 != 0 <==> w & 0x80 != 0) && (r & 0x20 != 0 <==> w & 0x40 != 0)
            && (r & 0x10 != 0 <==> w & 0x20 != 0)
  {
  }

  lemma NextLow(w: byte)
    ensures var r := Next(w); var out := w & 0x02 != 0;
            && (r & 0x08 != 0 <==> ((w & 0x10 != 0) != out)) && (r & 0x04 != 0 <==> w & 0x08 != 0)
            && (r & 0x02 != 0 <==> w & 0x04 != 0)
  {
  }

  lemma NextIsClock(w: byte)
    ensures Held(Next(w)) == Clock(Held(w)) && (Half(w) & 1 != 0 <==> Held(w)[6])
  {
    NextHigh(w);
    NextLow(w);
    hide Next, Half;
  }

  function Begin(channel: byte): byte {
    (channel << 1) | 0x80
  }

  lemma BeginHolds(channel: byte)
    ensures Held(Begin(channel)) == Start(channel)
  {
    BeginHigh(channel);
    BeginLow(channel);
    hide Begin;
  }

  lemma BeginHigh(c: byte)
    ensures var r := Begin(c);
            && r & 0x80 != 0 && (r & 0x40 != 0 <==> c & 0x20 != 0) && (r & 0x20 != 0 <==> c & 0x10 != 0)
            && (r & 0x10 != 0 <==> c & 0x08 != 0)
  {
  }

  lemma BeginLow(c: byte)
    ensures var r := Begin(c);
            && (r & 0x08 != 0 <==> c & 0x04 != 0) && (r & 0x04 != 0 <==> c & 0x02 != 0)
              && (r & 0x02 != 0 <==> c & 0x01 != 0)
  {
  }

  // ---- whitening as it runs ----

  lemma XorOrder(d: byte, m: byte, k: byte)
    ensures (d ^ m) ^ k == d ^ (k ^ m)
  {
  }

  function MaskAt(j: nat): byte
    requires j <= 8
  {
    if j == 8 then 0 else Mask(7 - j)
  }

  lemma MaskDoubles(j: nat)
    requires j < 8
    ensures MaskAt(j + 1) == Dbl(MaskAt(j)) && MaskAt(j) != 0
  {
  }

  function Put(d: byte, m: byte): byte {
    d ^ m
  }

  /** Moves the register on; out is the bit that left it. */
  method Tick(from: byte) returns (w: byte, out: bool)
    ensures Held(w) == Clock(Held(from)) && out == Held(from)[6]
  {
    NextIsClock(from);
    w := Half(from);
    out := w & 1 != 0;
    if out {
      w := w ^ 0x88;
    }
    assert w == Next(from);
    hide *;
  }

  /** One byte: eight outputs, lowest bit first. */
  method WhitenByte(data: byte, from: byte) returns (d: byte, w: byte)
    ensures d == Put(data, KeyFrom(Held(from), 0)) && Held(w) == Clocks(Held(from), 8)
  {
    hide Held, Clock, Mask, Put, MaskAt, KeyFrom;
    d, w := data, from;
    var i: byte := 1;
    ghost var j: nat := 0;
    MaskEnds();
    while i != 0
      invariant j <= 8 && i == MaskAt(j)
      invariant Put(d, KeyFrom(Held(w), j)) == Put(data, KeyFrom(Held(from), 0))
      invariant Clocks(Held(w), 8 - j) == Clocks(Held(from), 8)
      decreases 8 - j
    {
      MaskDoubles(j);
      MaskIs(j);
      KeyNext(d, Held(w), j);
      var out;
      w, out := Tick(w);
      if out {
        d := Put(d, i);
      }
      i, j := Dbl(i), j + 1;
    }
    if j < 8 {
      MaskDoubles(j);
    }
    KeyDone(d, Held(w));
  }

  function Dbl(i: byte): byte {
    i << 1
  }

  lemma MaskEnds()
    ensures MaskAt(0) == 1 && MaskAt(8) == 0
  {
  }

  lemma MaskIs(j: nat)
    requires j < 8
    ensures MaskAt(j) == Mask(7 - j)
  {
  }

  lemma KeyNext(d: byte, reg: Register, j: nat)
    requires j < 8
    ensures Put(d, KeyFrom(reg, j)) == Put(if reg[6] then Put(d, Mask(7 - j)) else d, KeyFrom(Clock(reg), j + 1))
  {
    hide Clock, Mask;
    XorOrder(d, Mask(7 - j), KeyFrom(Clock(reg), j + 1));
    XorNothing(KeyFrom(Clock(reg), j + 1));
  }

  lemma KeyDone(d: byte, reg: Register)
    ensures Put(d, KeyFrom(reg, 8)) == d
  {
    XorNothing(d);
  }

  method Whiten(data: array<byte>, channel: byte)
    modifies data
    ensures data[..] == Xor(old(data[..]), KeyStream(Start(channel), data.Length))
  {
    hide Held, Start, KeyFrom, Clocks, Begin;
    BeginHolds(channel);
    var w := Begin(channel);
    ghost var key := KeyStream(Start(channel), data.Length);
    for p := 0 to data.Length
      invariant forall k :: 0 <= k < p ==> data[k] == old(data[k]) ^ key[k]
      invariant forall k :: p <= k < data.Length ==> data[k] == old(data[k])
      invariant key[p..] == KeyStream(Held(w), data.Length - p)
    {
      assert key[p] == key[p..][0] == KeyFrom(Held(w), 0);
      assert key[p + 1..] == key[p..][1..];
      var d;
      d, w := WhitenByte(data[p], w);
      data[p] := d;
    }
  }

  /** Whitening with the same channel once more takes the whitening off. */
  method WhitenTwice(data: array<byte>, channel: byte)
    modifies data
    ensures data[..] == old(data[..])
  {
    hide KeyStream, Start, Xor;
    XorTwice(data[..], KeyStream(Start(channel), data.Length));
    Whiten(data, channel);
    Whiten(data, channel);
  }
}
