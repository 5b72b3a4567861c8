/** CCM as RFC 3610 defines it: one-shot functions over whole messages. */
module Rfc3610 {
  import opened Bytes
  import opened CbcMac

  ghost predicate ValidNonce(nonce: seq<byte>) {
    7 <= |nonce| <= 13
  }

  ghost predicate ValidTagLength(m: nat) {
    4 <= m <= 16 && m % 2 == 0
  }

  /** The size L of the length field. */
  function LengthSize(nonce: seq<byte>): nat
    requires ValidNonce(nonce)
  {
    15 - |nonce|
  }

  /** Section 2.2: bit 6 is Adata, bits 5..3 hold (M - 2) / 2, bits 2..0 hold L - 1. */
  function Flags(adata: bool, m: nat, l: nat): byte
    requires ValidTagLength(m) && 1 <= l <= 8
  {
    (if adata then 0x40 else 0) | (ToByte((m - 2) / 2) << 3) | ToByte(l - 1)
  }

  /** The first authentication block. */
  function B0(nonce: seq<byte>, adata: bool, m: nat, msgLen: nat): Block
    requires ValidNonce(nonce) && ValidTagLength(m)
  {
    [Flags(adata, m, LengthSize(nonce))] + nonce + BigEndian(msgLen, LengthSize(nonce))
  }

  /** Section 2.2: the encoding of l(a). */
  function HeaderLength(n: nat): (r: seq<byte>)
    ensures |r| <= 10
  {
    if n == 0 then []
    else if n < 0x1_0000 - 0x100 then BigEndian(n, 2)
    else if n < 0x1_0000_0000 then [0xff, 0xfe] + BigEndian(n, 4)
    else [0xff, 0xff] + BigEndian(n, 8)
  }

  /** The CBC-MAC value once the header blocks are in. */
  function AfterHeader(e: Cipher, nonce: seq<byte>, hdr: seq<byte>, m: nat, msgLen: nat): Block
    requires ValidNonce(nonce) && ValidTagLength(m)
  {
    Chain(e, e(B0(nonce, hdr != [], m, msgLen)), Pad(HeaderLength(|hdr|) + hdr))
  }

  /** Section 2.3: the counter block A_i. */
  function CounterBlock(nonce: seq<byte>, i: nat): Block
    requires ValidNonce(nonce)
  {
    [ToByte(LengthSize(nonce) - 1)] + nonce + BigEndian(i, LengthSize(nonce))
  }

  /** Byte j of S_1 S_2 S_3 ... */
  function KeyStream(e: Cipher, nonce: seq<byte>, j: nat): byte
    requires ValidNonce(nonce)
  {
    e(CounterBlock(nonce, j / 16 + 1))[j % 16]
  }

  /** Section 2.3: encrypting or decrypting the part of a message that starts at byte off. */
  function CryptFrom(e: Cipher, nonce: seq<byte>, off: nat, msg: seq<byte>): (r: seq<byte>)
    requires ValidNonce(nonce)
    ensures |r| == |msg|
  {
    seq(|msg|, j requires 0 <= j < |msg| => msg[j] ^ KeyStream(e, nonce, off + j))
  }

  function Crypt(e: Cipher, nonce: seq<byte>, msg: seq<byte>): (r: seq<byte>)
    requires ValidNonce(nonce)
    ensures |r| == |msg|
  {
    CryptFrom(e, nonce, 0, msg)
  }

  /** Sections 2.2 and 2.3: the encrypted authentication value U. */
  function Tag(e: Cipher, nonce: seq<byte>, hdr: seq<byte>, msg: seq<byte>, m: nat): (u: seq<byte>)
    requires ValidNonce(nonce) && ValidTagLength(m)
    ensures |u| == m
  {
    Xor(Chain(e, AfterHeader(e, nonce, hdr, m, |msg|), Pad(msg))[..m], e(CounterBlock(nonce, 0))[..m])
  }

  /** Encryption and decryption are the same operation (section 2.5). */
  lemma CryptTwice(e: Cipher, nonce: seq<byte>, msg: seq<byte>)
    requires ValidNonce(nonce)
    ensures Crypt(e, nonce, Crypt(e, nonce, msg)) == msg
  {
    var c := Crypt(e, nonce, msg);
    forall j | 0 <= j < |msg| ensures Crypt(e, nonce, c)[j] == msg[j] {
      var k := KeyStream(e, nonce, 0 + j);
      assert c[j] == msg[j] ^ k && Crypt(e, nonce, c)[j] == c[j] ^ k;
      assert (msg[j] ^ k) ^ k == msg[j];
    }
  }

  lemma CryptNothing(e: Cipher, nonce: seq<byte>)
    requires ValidNonce(nonce)
    ensures CryptFrom(e, nonce, 0, []) == []
  {
  }

  /** Cutting a message anywhere commutes with encrypting it. */
  lemma CryptCut(e: Cipher, nonce: seq<byte>, off: nat, a: seq<byte>, b: seq<byte>)
    requires ValidNonce(nonce)
    ensures CryptFrom(e, nonce, off, a + b)
         == CryptFrom(e, nonce, off, a) + CryptFrom(e, nonce, off + |a|, b)
  {
    var l, r := CryptFrom(e, nonce, off, a + b), CryptFrom(e, nonce, off, a) + CryptFrom(e, nonce, off + |a|, b);
    forall j | 0 <= j < |a| + |b| ensures l[j] == r[j] {
      if j >= |a| {
        assert off + j == (off + |a|) + (j - |a|);
      }
    }
  }

  lemma {:induction false} BigEndianZero(l: nat)
    ensures BigEndian(0, l) == Zeros(l)
  {
    if l > 0 {
      BigEndianZero(l - 1);
    }
  }

  /** Adding one to a big-endian field, dropping the last carry. */
  function Increment(s: seq<byte>): (r: seq<byte>)
    ensures |r| == |s|
  {
    if s == [] then []
    else
      var n := |s| - 1;
      if s[n] + 1 == 0 then Increment(s[..n]) + [0] else s[..n] + [s[n] + 1]
  }

  lemma {:induction false} IncrementIsSucc(n: nat, l: nat)
    ensures Increment(BigEndian(n, l)) == BigEndian(n + 1, l)
    decreases l
  {
    hide ToByte, BigEndian, Increment;
    if l > 0 {
      IncrementIsSucc(n / 256, l - 1);
      BigEndianLast(n, l);
      BigEndianLast(n + 1, l);
      IncrementLast(BigEndian(n / 256, l - 1), ToByte(n % 256));
      ToByteSucc(n % 256);
      IncByte(ToByte(n % 256));
      SuccDigits(n);
    } else {
      NoIncrement(n);
    }
  }

  lemma BigEndianLast(n: nat, l: nat)
    requires l > 0
    ensures BigEndian(n, l) == BigEndian(n / 256, l - 1) + [ToByte(n % 256)]
  {
    hide ToByte;
  }

  lemma IncrementLast(s: seq<byte>, b: byte)
    ensures Increment(s + [b]) == if b + 1 == 0 then Increment(s) + [0] else s + [b + 1]
  {
    assert (s + [b])[..|s|] == s;
  }

  lemma NoIncrement(n: nat)
    ensures Increment(BigEndian(n, 0)) == BigEndian(n + 1, 0)
  {
  }

  /** g is f after a carry that turned the last z bytes from 0xff to 0 and stopped. */
  ghost predicate Rippled(f: seq<byte>, g: seq<byte>, z: nat)
    requires |f| == |g| && z <= |f|
  {
    var k := |f| - z;
    && (forall i | k <= i < |f| :: f[i] + 1 == 0 && g[i] == 0)
    && (k > 0 ==> f[k - 1] + 1 != 0 && g[k - 1] == f[k - 1] + 1)
    && (forall i | 0 <= i < k - 1 :: g[i] == f[i])
  }

  lemma {:induction false} RippledIsIncrement(f: seq<byte>, g: seq<byte>, z: nat)
    requires |f| == |g| && z <= |f| && Rippled(f, g, z)
    ensures g == Increment(f)
    decreases z
  {
    if z > 0 {
      var n := |f| - 1;
      RippledIsIncrement(f[..n], g[..n], z - 1);
      assert g == g[..n] + [0];
    } else if f != [] {
      var n := |f| - 1;
      assert g == f[..n] + [f[n] + 1];
    }
  }

  lemma SuccDigits(n: nat)
    ensures (n + 1) / 256 == if n % 256 == 255 then n / 256 + 1 else n / 256
    ensures (n + 1) % 256 == if n % 256 == 255 then 0 else n % 256 + 1
  {
  }

  /** The counter length can be read back from the first byte of a counter block. */
  lemma LengthBits(l: nat)
    requires 1 <= l <= 8
    ensures (ToByte(l - 1) & 7) as int + 1 == l
  {
    SmallByte(ToByte(l - 1));
  }

  lemma SmallByte(b: byte)
    requires (b as int) < 8
    ensures b & 7 == b && b <= 7
  {
  }

  lemma {:induction false} ToByteDouble(k: nat)
    requires 2 * k < 256
    ensures ToByte(2 * k) == ToByte(k) + ToByte(k)
  {
    if k > 0 {
      ToByteDouble(k - 1);
      assert ToByte(2 * k) == ToByte(2 * k - 1) + 1;
      assert ToByte(2 * k - 1) == ToByte(2 * k - 2) + 1;
    }
  }

  lemma FlagBits(a: byte, b: byte, c: byte, d: byte)
    requires (a == 0 || a == 0x40) && b == c + c && c <= 7 && d <= 7
    ensures d | (a + (b << 2)) == a | (c << 3) | d
  {
  }

  /** The flags byte as the implementation assembles it: the header flag and the tag length
      are added and then merged into the counter length. */
  lemma FlagsAssembled(adata: bool, m: nat, l: nat)
    requires ValidTagLength(m) && 1 <= l <= 8
    ensures ToByte(l - 1) | ((if adata then 0x40 else 0) + (ToByte(m - 2) << 2)) == Flags(adata, m, l)
  {
    var k := (m - 2) / 2;
    ToByteDouble(k);
    SmallByte(ToByte(k));
    SmallByte(ToByte(l - 1));
    FlagBits(if adata then 0x40 else 0, ToByte(m - 2), ToByte(k), ToByte(l - 1));
  }

  lemma CounterBlockSucc(nonce: seq<byte>, i: nat)
    requires ValidNonce(nonce)
    ensures var l, c := LengthSize(nonce), CounterBlock(nonce, i);
            CounterBlock(nonce, i + 1) == c[..16 - l] + Increment(c[16 - l..])
  {
    var l, c := LengthSize(nonce), CounterBlock(nonce, i);
    IncrementIsSucc(i, l);
    assert c[16 - l..] == BigEndian(i, l);
  }
}
