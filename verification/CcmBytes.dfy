/** The blocks of RFC 3610 byte by byte, and CCM in terms of any blocks that look like them. */
module CcmBytes {
  import opened Bytes
  import opened CbcMac
  import opened Rfc3610
  import Ccm

  /** The number a field stands for, most significant byte first. */
  function Value(s: seq<byte>): nat {
    if s == [] then 0 else 256 * Value(s[..|s| - 1]) + s[|s| - 1] as int
  }

  function Power(l: nat): nat {
    if l == 0 then 1 else 256 * Power(l - 1)
  }

  lemma {:induction false} FieldValue(n: nat, l: nat)
    requires n < Power(l)
    ensures Value(BigEndian(n, l)) == n
    decreases l
  {
    hide ToByte;
    if l > 0 {
      FieldValue(n / 256, l - 1);
      var f := BigEndian(n, l);
      assert f[..l - 1] == BigEndian(n / 256, l - 1);
    }
  }

  lemma {:induction false} ValueField(s: seq<byte>)
    ensures s == BigEndian(Value(s), |s|)
    decreases |s|
  {
    hide BigEndian;
    if s == [] {
      NoField();
    } else {
      var n := |s| - 1;
      ValueField(s[..n]);
      FieldSnoc(Value(s[..n]), n, s[n]);
      assert s == s[..n] + [s[n]];
    }
  }

  lemma NoField()
    ensures BigEndian(0, 0) == []
  {
  }

  lemma FieldSnoc(v: nat, l: nat, b: byte)
    ensures BigEndian(256 * v + b as int, l + 1) == BigEndian(v, l) + [b]
  {
    hide ToByte;
    LastDigit(v, b);
    SameByte(ToByte(b as int), b);
  }

  lemma LastDigit(v: nat, b: byte)
    ensures (256 * v + b as int) / 256 == v && (256 * v + b as int) % 256 == b as int
  {
  }

  /** A block that starts with one byte and the nonce, and ends in a number. */
  ghost predicate Tailed(b: Block, nonce: seq<byte>, n: nat)
    requires ValidNonce(nonce)
  {
    b[1..1 + |nonce|] == nonce && Value(b[1 + |nonce|..]) == n
  }

  /** Section 2.3: the flags of a counter block are L - 1. */
  ghost predicate IsCounter(b: Block, nonce: seq<byte>, i: nat)
    requires ValidNonce(nonce)
  {
    Tailed(b, nonce, i) && b[0] as int == 14 - |nonce|
  }

  /** Section 2.2: the flags of the first block. */
  ghost predicate IsFirst(b: Block, nonce: seq<byte>, adata: bool, m: nat, msgLen: nat)
    requires ValidNonce(nonce)
  {
    && Tailed(b, nonce, msgLen)
    && b[0] & 0x80 == 0 && (b[0] & 0x40 != 0 <==> adata)
    && ((b[0] >> 3) & 7) as int == (m - 2) / 2 && (b[0] & 7) as int == 14 - |nonce|
  }

  lemma TailedIs(b: Block, nonce: seq<byte>, n: nat)
    requires ValidNonce(nonce) && Tailed(b, nonce, n)
    ensures b == [b[0]] + nonce + BigEndian(n, 15 - |nonce|)
  {
    ValueField(b[1 + |nonce|..]);
    assert b == [b[0]] + b[1..1 + |nonce|] + b[1 + |nonce|..];
  }

  lemma CounterIs(b: Block, nonce: seq<byte>, i: nat)
    requires ValidNonce(nonce) && IsCounter(b, nonce, i)
    ensures b == CounterBlock(nonce, i)
  {
    hide ToByte, BigEndian;
    TailedIs(b, nonce, i);
    SameByte(b[0], ToByte(LengthSize(nonce) - 1));
  }

  lemma FlagBits(f: byte, g: byte)
    requires f & 0xC0 == g & 0xC0 && (f >> 3) & 7 == (g >> 3) & 7 && f & 7 == g & 7
    ensures f == g
  {
  }

  lemma FlagsHave(adata: bool, x: byte, y: byte)
    requires x & 7 == x && y & 7 == y
    ensures var f := (if adata then 0x40 else 0) | (x << 3) | y;
            f & 0xC0 == (if adata then 0x40 else 0) && (f >> 3) & 7 == x && f & 7 == y
  {
  }

  lemma SmallBits(b: byte)
    requires b as int < 8
    ensures b & 7 == b
  {
    SmallByte(b);
  }

  lemma FlagsAre(b0: byte, adata: bool, m: nat, l: nat)
    requires ValidTagLength(m) && 1 <= l <= 8
    requires b0 & 0x80 == 0 && (b0 & 0x40 != 0 <==> adata)
    requires ((b0 >> 3) & 7) as int == (m - 2) / 2 && (b0 & 7) as int == l - 1
    ensures b0 == Flags(adata, m, l)
  {
    hide ToByte;
    var x, y := ToByte((m - 2) / 2), ToByte(l - 1);
    SmallBits(x);
    SmallBits(y);
    FlagsHave(adata, x, y);
    SameByte((b0 >> 3) & 7, x);
    SameByte(b0 & 7, y);
    TopBits(b0, adata);
    FlagBits(b0, Flags(adata, m, l));
  }

  lemma TopBits(b0: byte, adata: bool)
    requires b0 & 0x80 == 0 && (b0 & 0x40 != 0 <==> adata)
    ensures b0 & 0xC0 == if adata then 0x40 else 0
  {
  }

  lemma FirstIs(b: Block, nonce: seq<byte>, adata: bool, m: nat, msgLen: nat)
    requires ValidNonce(nonce) && ValidTagLength(m) && IsFirst(b, nonce, adata, m, msgLen)
    ensures b == B0(nonce, adata, m, msgLen)
  {
    hide ToByte, BigEndian, Flags;
    TailedIs(b, nonce, msgLen);
    FlagsAre(b[0], adata, m, 15 - |nonce|);
  }

  /** Every byte of an encrypted message: the byte of the message xored with that of an encrypted
      counter block, the first block's being number 1. */
  lemma CryptByte(e: Cipher, nonce: seq<byte>, msg: seq<byte>, j: nat, a: Block)
    requires ValidNonce(nonce) && j < |msg| && IsCounter(a, nonce, j / 16 + 1)
    ensures Crypt(e, nonce, msg)[j] == msg[j] ^ e(a)[j % 16]
  {
    CounterIs(a, nonce, j / 16 + 1);
  }

  /** Every byte of a tag: the chain from the encrypted first block over length, header and
      message, xored with the encrypted counter block number 0. */
  lemma TagByte(e: Cipher, nonce: seq<byte>, hdr: seq<byte>, msg: seq<byte>, m: nat, j: nat, b: Block, a: Block)
    requires ValidNonce(nonce) && ValidTagLength(m) && j < m
    requires IsFirst(b, nonce, hdr != [], m, |msg|) && IsCounter(a, nonce, 0)
    ensures Tag(e, nonce, hdr, msg, m)[j]
         == Chain(e, Chain(e, e(b), Pad(HeaderLength(|hdr|) + hdr)), Pad(msg))[j] ^ e(a)[j]
  {
    hide Chain, Pad, HeaderLength;
    CounterIs(a, nonce, 0);
    FirstIs(b, nonce, hdr != [], m, |msg|);
  }

  /** Section 2.2: how the length of a header is encoded. */
  lemma HeaderLengthBytes(n: nat)
    requires n < 0x1_0000_0000_0000_0000
    ensures var r := HeaderLength(n);
            if n == 0 then r == []
            else if n < 65280 then |r| == 2 && Value(r) == n
            else if n < 4294967296 then |r| == 6 && r[0] == 0xff && r[1] == 0xfe && Value(r[2..]) == n
            else |r| == 10 && r[0] == 0xff && r[1] == 0xff && Value(r[2..]) == n
  {
    hide BigEndian, Value;
    assert Power(2) == 0x1_0000 && Power(4) == 0x1_0000_0000 && Power(8) == 0x1_0000_0000_0000_0000 by { Powers(); }
    if 0 < n < 65280 {
      FieldValue(n, 2);
    } else if 65280 <= n < 4294967296 {
      FieldValue(n, 4);
      assert HeaderLength(n)[2..] == BigEndian(n, 4);
    } else if n > 0 {
      FieldValue(n, 8);
      assert HeaderLength(n)[2..] == BigEndian(n, 8);
    }
  }

  lemma Powers()
    ensures Power(2) == 0x1_0000 && Power(4) == 0x1_0000_0000 && Power(8) == 0x1_0000_0000_0000_0000
  {
    assert Power(4) == 256 * 256 * Power(2) && Power(8) == 256 * 256 * 256 * 256 * Power(4);
  }

  /** A nonce length of 0 stands for the longest nonce that leaves room for the message length. */
  lemma NonceLongest(msgLen: nat)
    requires msgLen < 0x1_0000_0000_0000_0000
    ensures var n := Ccm.NonceLength(0, msgLen);
            7 <= n <= 13 && msgLen < Power(15 - n) && (n < 13 ==> msgLen >= Power(14 - n))
  {
    Powers();
    assert Power(3) == 0x100_0000 && Power(5) == 0x100_0000_0000;
    assert Power(6) == 0x1_0000_0000_0000 && Power(7) == 0x100_0000_0000_0000;
  }
}
