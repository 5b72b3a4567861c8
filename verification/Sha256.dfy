/** The hashing context as it runs: a 64-byte buffer that is compressed whenever it is full. */
module Sha256 {
  import opened Bytes
  import opened Cuttings
  import opened Sha256Spec

  class Context {
    const transform: Compress
    const data: array<byte>
    var datalen: nat
    var bitlen: nat
    var state: State

    /** m has gone in. */
    ghost predicate Holds(m: seq<byte>)
      reads this, data
    {
      data.Length == 64 && datalen < 64 && Stands(transform, m, data[..datalen], bitlen, state)
    }

    constructor (transform: Compress)
      ensures Holds([]) && fresh(data) && this.transform == transform
    {
      this.transform := transform;
      data := new byte[64](i => 0);
      datalen, bitlen, state := 0, 0, H0;
      StandsEmpty(transform);
    }

    method Update(input: seq<byte>, ghost m: seq<byte>)
      requires Holds(m) && |input| < 0x1_0000_0000
      modifies this, data
      ensures Holds(m + input)
    {
      hide Stands, Wrap;
      assert m + input[..0] == m;
      for i := 0 to |input|
        invariant Holds(m + input[..i])
      {
        assert m + input[..i + 1] == (m + input[..i]) + [input[i]];
        Put(input[i], m + input[..i]);
      }
      assert input[..|input|] == input;
    }

    /** One turn of the loop. */
    method Put(b: byte, ghost m: seq<byte>)
      requires Holds(m)
      modifies this, data
      ensures Holds(m + [b])
    {
      hide Stands, Wrap;
      StandsByte(transform, m, data[..datalen], bitlen, state, b);
      ghost var open := data[..datalen];
      data[datalen] := b;
      datalen := datalen + 1;
      assert data[..datalen] == open + [b];
      if datalen == 64 {
        assert data[..] == open + [b];
        state := transform(state, data[..]);
        bitlen := Wrap(bitlen + 512);
        datalen := 0;
        assert data[..0] == [];
      }
    }

    /** The digest, in the byte order the build selects: last byte first. */
    method Final(ghost m: seq<byte>) returns (hash: seq<byte>)
      requires Holds(m)
      modifies this, data
      ensures hash == Reverse(Sha256Spec.Sha256(transform, m))
    {
      hide Stands, Wrap, Fold, Digest, Ending, Padding;
      StandsEnd(transform, m, data[..datalen], bitlen, state);
      bitlen := Wrap(bitlen + datalen * 8);
      state := Close(transform, data, datalen, bitlen, state);
      state := transform(state, data[..]);
      hash := Output(state);
    }
  }

  /** The words last to first, each least significant byte first. */
  method Output(s: State) returns (hash: seq<byte>)
    ensures hash == Reverse(Digest(s))
  {
    DigestReversed(s);
    return seq(32, i requires 0 <= i < 32 => WordByte(s[7 - i / 4], i % 4));
  }

  /** Fills the last block, compressing one before it if the length does not fit. */
  method Close(f: Compress, data: array<byte>, datalen: nat, bits: nat, s: State) returns (t: State)
    requires data.Length == 64 && datalen < 64
    modifies data
    ensures f(t, data[..]) == Fold(f, s, Ending(old(data[..datalen]), bits))
  {
    hide Fold, BigEndian;
    t := s;
    if datalen < 56 {
      PadTo(data, datalen, 56);
      Length(data, bits);
      assert data[..] == Ending(old(data[..datalen]), bits);
      FoldOne(f, s, data[..]);
    } else {
      PadTo(data, datalen, 64);
      assert data[..64] == data[..];
      ghost var first := data[..];
      t := f(s, data[..]);
      Clear(data);
      Length(data, bits);
      TwoBlocks(f, s, first, data[..]);
    }
  }

  lemma TwoBlocks(f: Compress, s: State, c: Chunk, d: Chunk)
    ensures Fold(f, s, c + d) == f(f(s, c), d)
  {
    FoldConcat(f, s, c, d);
    FoldOne(f, s, c);
    FoldOne(f, f(s, c), d);
  }

  lemma DigestReversed(s: State)
    ensures seq(32, i requires 0 <= i < 32 => WordByte(s[7 - i / 4], i % 4)) == Reverse(Digest(s))
  {
    hide WordByte;
    forall i | 0 <= i < 32 ensures WordByte(s[7 - i / 4], i % 4) == Reverse(Digest(s))[i] {
      assert (31 - i) / 4 == 7 - i / 4 && 3 - (31 - i) % 4 == i % 4;
    }
  }

  /** The mark and zeros up to the given position. */
  method PadTo(data: array<byte>, from: nat, to: nat)
    requires data.Length == 64 && from < to <= 64
    modifies data
    ensures data[..to] == old(data[..from]) + [0x80] + Zeros(to - from - 1)
  {
    data[from] := 0x80;
    var i := from + 1;
    while i < to
      invariant from < i <= to && data[..i] == old(data[..from]) + [0x80] + Zeros(i - from - 1)
    {
      data[i] := 0x00;
      i := i + 1;
    }
  }

  method Clear(data: array<byte>)
    requires data.Length == 64
    modifies data
    ensures data[..56] == Zeros(56)
  {
    forall i | 0 <= i < 56 {
      data[i] := 0;
    }
  }

  method Length(data: array<byte>, bits: nat)
    requires data.Length == 64
    modifies data
    ensures data[..] == old(data[..56]) + BigEndian(bits, 8)
  {
    hide ShiftedBytes, BigEndian, ShiftRight, ToByte;
    var b := ShiftedBytes(bits, 8);
    ShiftedBytesAreBigEndian(bits, 8);
    data[63], data[62], data[61], data[60] := b[7], b[6], b[5], b[4];
    data[59], data[58], data[57], data[56] := b[3], b[2], b[1], b[0];
    assert data[56..] == b;
  }

  /** Any cutting of a message into updates gives the digest of the whole. */
  method HashInPieces(transform: Compress, pieces: seq<seq<byte>>) returns (hash: seq<byte>)
    requires forall i :: 0 <= i < |pieces| ==> |pieces[i]| < 0x1_0000_0000
    ensures hash == Reverse(Sha256Spec.Sha256(transform, Joined(pieces)))
  {
    hide Fold, Stands, Wrap, Digest, Padding;
    var ctx := new Context(transform);
    for i := 0 to |pieces|
      invariant fresh(ctx) && fresh(ctx.data) && ctx.transform == transform && ctx.Holds(Joined(pieces[..i]))
    {
      JoinedNext(pieces, i);
      ctx.Update(pieces[i], Joined(pieces[..i]));
    }
    assert pieces[..|pieces|] == pieces;
    hash := ctx.Final(Joined(pieces));
  }
}
