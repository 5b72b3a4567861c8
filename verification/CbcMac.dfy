/** The CBC-MAC chain, once in whole blocks and once byte by byte.

    CbcMac is the block-at-a-time definition both RFC 3610 (section 2.2) and RFC 4493
    (section 2.4) are written in. LazyBuf and EagerBuf describe the 16-byte work buffer
    of an incremental implementation after any number of bytes: lazily, a full block
    stays unencrypted until the next byte arrives; eagerly, it is encrypted at once. */
module CbcMac {
  import opened Bytes

  function Chain(e: Cipher, x: Block, bs: seq<byte>): Block
    requires |bs| % 16 == 0
    decreases |bs|
  {
    if bs == [] then x else Chain(e, e(Xor(x, bs[..16])), bs[16..])
  }

  function XorByte(buf: Block, p: nat, d: byte): Block
    requires p < 16
  {
    buf[p := buf[p] ^ d]
  }

  function LazyBuf(e: Cipher, x: Block, s: seq<byte>): Block
    decreases |s|
  {
    if s == [] then x
    else
      var n := |s| - 1;
      var prev := LazyBuf(e, x, s[..n]);
      XorByte(if n % 16 == 0 && n > 0 then e(prev) else prev, n % 16, s[n])
  }

  function EagerBuf(e: Cipher, x: Block, s: seq<byte>): Block {
    var b := LazyBuf(e, x, s);
    if |s| % 16 == 0 && s != [] then e(b) else b
  }

  /** buf and pos are a correct work buffer after the bytes s: position 16 means a full
      block that is still to be encrypted, position 0 a block boundary already encrypted. */
  ghost predicate Holds(e: Cipher, x: Block, s: seq<byte>, buf: Block, pos: nat): (r: bool)
    ensures r ==> pos <= 16
  {
    && pos <= 16
    && |s| % 16 == pos % 16
    && buf == (if pos == 16 then LazyBuf(e, x, s) else EagerBuf(e, x, s))
    && (pos == 16 ==> s != [])
  }

  /** Xoring the run d into buf from position p on. */
  function XorRun(buf: Block, p: nat, d: seq<byte>): Block
    requires p + |d| <= 16
  {
    seq(16, i requires 0 <= i < 16 => if p <= i < p + |d| then buf[i] ^ d[i - p] else buf[i])
  }

  lemma NextPos(n: nat, p: nat)
    requires n % 16 == p % 16 && p < 16
    ensures n % 16 == p && (n + 1) % 16 == (p + 1) % 16
  {
  }

  lemma HoldsByte(e: Cipher, x: Block, s: seq<byte>, buf: Block, p: nat, d: byte)
    requires Holds(e, x, s, buf, p) && p < 16
    ensures Holds(e, x, s + [d], XorByte(buf, p, d), p + 1)
  {
    NextPos(|s|, p);
    LazyBufSnoc(e, x, s, d);
  }

  lemma LazyBufSnoc(e: Cipher, x: Block, s: seq<byte>, d: byte)
    ensures LazyBuf(e, x, s + [d]) == XorByte(EagerBuf(e, x, s), |s| % 16, d)
  {
    assert (s + [d])[..|s|] == s;
  }

  lemma XorRunSnoc(buf: Block, p: nat, d: seq<byte>, b: byte)
    requires p + |d| < 16
    ensures XorRun(buf, p, d + [b]) == XorByte(XorRun(buf, p, d), p + |d|, b)
  {
    assert forall i | 0 <= i < |d| :: (d + [b])[i] == d[i];
  }

  lemma XorRunEmpty(buf: Block, p: nat)
    requires p <= 16
    ensures XorRun(buf, p, []) == buf
  {
  }

  lemma {:induction false} HoldsRun(e: Cipher, x: Block, s: seq<byte>, buf: Block, p: nat, d: seq<byte>)
    requires Holds(e, x, s, buf, p)
    requires p + |d| <= 16
    ensures Holds(e, x, s + d, XorRun(buf, p, d), p + |d|)
    decreases |d|
  {
    hide Holds, XorRun, XorByte;
    if d == [] {
      assert s + d == s;
      XorRunEmpty(buf, p);
    } else {
      var n := |d| - 1;
      var i, b := d[..n], d[n];
      assert d == i + [b];
      HoldsRun(e, x, s, buf, p, i);
      HoldsByte(e, x, s + i, XorRun(buf, p, i), p + n, b);
      XorRunSnoc(buf, p, i, b);
      assert s + d == (s + i) + [b];
    }
  }

  lemma HoldsEncrypt(e: Cipher, x: Block, s: seq<byte>, buf: Block)
    requires Holds(e, x, s, buf, 16)
    ensures Holds(e, x, s, e(buf), 0)
  {
  }

  /** Where the last, possibly incomplete, block of a non-empty string starts. */
  function LastStart(s: seq<byte>): (q: nat)
    requires s != []
    ensures q % 16 == 0 && q < |s| <= q + 16
  {
    (|s| - 1) / 16 * 16
  }

  lemma HoldsBuf(e: Cipher, x: Block, s: seq<byte>, buf: Block, p: nat)
    requires Holds(e, x, s, buf, p) && p > 0
    ensures |s| % 16 == p % 16 && s != []
    ensures EagerBuf(e, x, s) == if p == 16 then e(buf) else buf
    ensures Holds(e, x, s, EagerBuf(e, x, s), |s| % 16)
  {
  }

  /** The work buffer in terms of the block definition: the chain over all blocks but the
      last, xored with the last block, zero padded. */
  lemma {:induction false} LazyBufIsChain(e: Cipher, x: Block, s: seq<byte>)
    requires s != []
    ensures var q := LastStart(s);
            LazyBuf(e, x, s) == XorRun(Chain(e, x, s[..q]), 0, s[q..])
    decreases |s|
  {
    var q := LastStart(s);
    var t, u := s[..q], s[q..];
    assert s == t + u;
    WholeBlocksHold(e, x, t);
    HoldsRun(e, x, t, Chain(e, x, t), 0, u);
    if |u| < 16 {
      assert Holds(e, x, s, LazyBuf(e, x, s), |u|);
    }
  }

  lemma {:induction false} WholeBlocksHold(e: Cipher, x: Block, t: seq<byte>)
    requires |t| % 16 == 0
    ensures Holds(e, x, t, Chain(e, x, t), 0)
    decreases |t|
  {
    if t != [] {
      var n := |t| - 16;
      var h, u := t[..n], t[n..];
      assert t == h + u;
      WholeBlocksHold(e, x, h);
      HoldsRun(e, x, h, Chain(e, x, h), 0, u);
      ChainSnoc(e, x, t);
    }
  }

  /** Over whole blocks the chain encrypts, per block, what the work buffer holds. */
  lemma {:induction false} ChainSnoc(e: Cipher, x: Block, s: seq<byte>)
    requires s != [] && |s| % 16 == 0
    ensures Chain(e, x, s) == e(XorRun(Chain(e, x, s[..|s| - 16]), 0, s[|s| - 16..]))
    decreases |s|
  {
    var r := |s| - 16;
    assert forall a: Block, b: Block :: XorRun(a, 0, b) == Xor(a, b);
    if r == 0 {
      assert s[..16] == s && s[r..] == s && s[..r] == [];
    } else {
      ChainSnoc(e, e(Xor(x, s[..16])), s[16..]);
      assert s[16..][..r - 16] == s[..r][16..];
      assert s[16..][r - 16..] == s[r..];
      assert s[..r][..16] == s[..16];
    }
  }

  /** Finishing the stream: encrypting once more if a block is incomplete gives the chain
      over the zero-padded bytes. */
  lemma EagerBufIsChain(e: Cipher, x: Block, s: seq<byte>)
    ensures Chain(e, x, Pad(s)) == if |s| % 16 == 0 then EagerBuf(e, x, s) else e(EagerBuf(e, x, s))
  {
    if s == [] {
      assert Pad(s) == [];
    } else {
      LazyBufIsChain(e, x, s);
      PadIsLastBlock(e, x, s);
    }
  }

  lemma PadIsLastBlock(e: Cipher, x: Block, s: seq<byte>)
    requires s != []
    ensures var q := LastStart(s);
            Chain(e, x, Pad(s)) == e(XorRun(Chain(e, x, s[..q]), 0, s[q..]))
  {
    var q, p := LastStart(s), Pad(s);
    PadLength(s);
    ChainSnoc(e, x, p);
    assert p[..q] == s[..q];
    PaddingIsNeutral(Chain(e, x, s[..q]), s[q..], p[q..]);
  }

  lemma PadLength(s: seq<byte>)
    requires s != []
    ensures |Pad(s)| == LastStart(s) + 16
    ensures forall i | |s| <= i < |Pad(s)| :: Pad(s)[i] == 0
  {
  }

  lemma PaddingIsNeutral(buf: Block, d: seq<byte>, p: seq<byte>)
    requires |d| <= |p| == 16 && d <= p
    requires forall i | |d| <= i < 16 :: p[i] == 0
    ensures XorRun(buf, 0, p) == XorRun(buf, 0, d)
  {
  }
}
