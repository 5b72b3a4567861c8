/** Bytes, 16-byte blocks and block ciphers, as every cipher mode below uses them. */
module Bytes {

  type byte = bv8

  const BLOCK_SIZE: nat := 16

  type Block = b: seq<byte> | |b| == 16 witness seq(16, i => 0)

  /** A block cipher under one fixed key. AES itself is left uninterpreted. */
  type Cipher = Block -> Block

  /** AES-128: key, then plaintext. */
  type Aes = (Block, Block) -> Block

  function Zeros(n: nat): (z: seq<byte>)
    ensures |z| == n
  {
    seq(n, i => 0)
  }

  function ZeroBlock(): Block {
    Zeros(16)
  }

  /** Byte-wise exclusive or of two strings of the same length. */
  function Xor(a: seq<byte>, b: seq<byte>): (r: seq<byte>)
    requires |a| == |b|
    ensures |r| == |a|
  {
    seq(|a|, i requires 0 <= i < |a| => a[i] ^ b[i])
  }

  /** Zero bytes up to the next multiple of 16. */
  function Pad(s: seq<byte>): (r: seq<byte>)
    ensures |r| % 16 == 0 && |s| <= |r| < |s| + 16 && s <= r
  {
    s + Zeros((16 - |s| % 16) % 16)
  }

  function Reverse(s: seq<byte>): (r: seq<byte>)
    ensures |r| == |s|
  {
    seq(|s|, i requires 0 <= i < |s| => s[|s| - 1 - i])
  }

  /** The byte with value k. */
  function ToByte(k: nat): (b: byte)
    requires k < 256
    ensures b as int == k
  {
    if k == 0 then 0
    else
      var b := ToByte(k - 1);
      IncByte(b);
      b + 1
  }

  lemma IncByte(b: byte)
    ensures b as int == 255 <==> b == 255
    ensures b == 255 <==> b + 1 == 0
    ensures b != 255 ==> (b + 1) as int == b as int + 1
  {
  }

  lemma SameByte(a: byte, b: byte)
    requires a as int == b as int
    ensures a == b
  {
    assert (a as int) as bv8 == a;
  }

  lemma ToByteSucc(k: nat)
    requires k < 256
    ensures ToByte(k) + 1 == if k == 255 then 0 else ToByte(k + 1)
  {
    IncByte(ToByte(k));
  }

  /** The low four bytes of n, least significant first. */
  function LittleEndian32(n: nat): (r: seq<byte>)
    ensures |r| == 4
  {
    [ToByte(n % 256), ToByte(n / 0x100 % 256), ToByte(n / 0x1_0000 % 256), ToByte(n / 0x100_0000 % 256)]
  }

  function LittleEndian16(n: nat): (r: seq<byte>)
    ensures |r| == 2
  {
    [ToByte(n % 256), ToByte(n / 0x100 % 256)]
  }

  function Decode16(b: seq<byte>): nat
    requires |b| == 2
  {
    b[0] as int + 0x100 * (b[1] as int)
  }

  lemma Decode16Inverts(n: nat)
    requires n < 0x1_0000
    ensures Decode16(LittleEndian16(n)) == n
  {
    Digits16(n);
  }

  lemma Digits16(n: nat)
    requires n < 0x1_0000
    ensures n == n % 256 + 0x100 * (n / 0x100 % 256)
  {
  }

  /** The number four such bytes stand for. */
  function Decode32(b: seq<byte>): nat
    requires |b| == 4
  {
    b[0] as int + 0x100 * (b[1] as int) + 0x1_0000 * (b[2] as int) + 0x100_0000 * (b[3] as int)
  }

  lemma Decode32Inverts(n: nat)
    requires n < 0x1_0000_0000
    ensures Decode32(LittleEndian32(n)) == n
  {
    Digits32(n);
  }

  lemma Digits32(n: nat)
    requires n < 0x1_0000_0000
    ensures n == n % 256 + 0x100 * (n / 0x100 % 256) + 0x1_0000 * (n / 0x1_0000 % 256)
                 + 0x100_0000 * (n / 0x100_0000 % 256)
  {
  }

  lemma XorTwice(a: seq<byte>, b: seq<byte>)
    requires |a| == |b|
    ensures Xor(Xor(a, b), b) == a
  {
    forall i | 0 <= i < |a| ensures Xor(Xor(a, b), b)[i] == a[i] {
      assert (a[i] ^ b[i]) ^ b[i] == a[i];
    }
  }

  // ---- big-endian fields ----

  /** n as a big-endian field of l bytes. */
  function BigEndian(n: nat, l: nat): (r: seq<byte>)
    ensures |r| == l
  {
    if l == 0 then [] else BigEndian(n / 256, l - 1) + [ToByte(n % 256)]
  }

  /** n shifted right by k bytes. */
  function ShiftRight(n: nat, k: nat): nat {
    if k == 0 then n else ShiftRight(n / 256, k - 1)
  }

  lemma {:induction false} BigEndianAt(n: nat, l: nat, i: nat)
    requires i < l
    ensures BigEndian(n, l)[i] == ToByte(ShiftRight(n, l - 1 - i) % 256)
    decreases l
  {
    if i < l - 1 {
      BigEndianAt(n / 256, l - 1, i);
    }
  }

  /** The l low bytes of n, most significant first, each obtained by its own shift. */
  function ShiftedBytes(n: nat, l: nat): (r: seq<byte>)
    ensures |r| == l
  {
    seq(l, i requires 0 <= i < l => ToByte(ShiftRight(n, l - 1 - i) % 256))
  }

  lemma ShiftedBytesAreBigEndian(n: nat, l: nat)
    ensures ShiftedBytes(n, l) == BigEndian(n, l)
  {
    forall i | 0 <= i < l ensures ShiftedBytes(n, l)[i] == BigEndian(n, l)[i] {
      BigEndianAt(n, l, i);
    }
  }
}
