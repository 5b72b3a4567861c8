/** Building the first CCM blocks in place. */
module CcmStart {
  import opened Bytes
  import opened CbcMac
  import opened CcmState
  import opened Rfc3610
  import CbcStream
  import CounterField
  import CtrStream

  /** The counter block with counter 0: L - 1, the nonce, and a cleared counter field. */
  method ZeroCounter(a: array<byte>, iv: seq<byte>, l: nat)
    requires a.Length == 16 && 2 <= l <= 8 && 15 - l <= |iv|
    modifies a
    ensures a[..] == CounterBlock(iv[..15 - l], 0)
  {
    a[0] := ToByte(l - 1);
    var i := 1;
    while i < 16 - l
      invariant 1 <= i <= 16 - l && a[0] == ToByte(l - 1)
      invariant forall k | 1 <= k < i :: a[k] == iv[k - 1]
    {
      a[i] := iv[i - 1];
      i := i + 1;
    }
    forall k | 16 - l <= k < 16 {
      a[k] := 0;
    }
    ZeroCounterBytes(a[..], iv, l);
  }

  lemma ZeroCounterBytes(a: Block, iv: seq<byte>, l: nat)
    requires 2 <= l <= 8 && 15 - l <= |iv|
    requires a[0] == ToByte(l - 1)
    requires forall k | 1 <= k < 16 - l :: a[k] == iv[k - 1]
    requires forall k | 16 - l <= k < 16 :: a[k] == 0
    ensures a == CounterBlock(iv[..15 - l], 0)
  {
    var c := CounterBlock(iv[..15 - l], 0);
    BigEndianZero(l);
    hide ToByte, BigEndian;
    forall k | 0 <= k < 16 ensures a[k] == c[k] {
      if k >= 16 - l {
        assert c[k] == Zeros(l)[k - (16 - l)];
      }
    }
  }

  lemma CounterBlockParts(nonce: seq<byte>)
    requires ValidNonce(nonce)
    ensures var c, l := CounterBlock(nonce, 0), LengthSize(nonce);
            c[0] == ToByte(l - 1) && c[..16 - l] == [ToByte(l - 1)] + nonce
  {
  }

  /** From the counter block to the first authentication block: the message length goes where
      the counter was, the flags are merged into byte 0, and the block is encrypted. */
  method FirstAuthBlock(aes: Cipher, a: array<byte>, adata: bool, tagLen: nat, msgLen: nat, ghost nonce: seq<byte>)
    requires a.Length == 16 && ValidNonce(nonce) && ValidTagLength(tagLen)
    requires a[..] == CounterBlock(nonce, 0)
    modifies a
    ensures a[..] == aes(B0(nonce, adata, tagLen, msgLen))
  {
    ghost var l := LengthSize(nonce);
    LengthBits(l);
    CounterBlockParts(nonce);
    assert a[0] == a[..][0];
    CounterField.SetCtr(a, msgLen, l);
    ghost var b := a[..];
    var flags := (if adata then 0x40 else 0) + (ToByte(tagLen - 2) << 2);
    FlagsMerged(b, nonce, adata, tagLen, msgLen);
    assert b[0] == a[0];
    a[0] := a[0] | flags;
    assert a[..] == b[0 := b[0] | flags];
    CbcStream.AesEncrypt(aes, a, a);
  }

  lemma FlagsMerged(b: Block, nonce: seq<byte>, adata: bool, tagLen: nat, msgLen: nat)
    requires ValidNonce(nonce) && ValidTagLength(tagLen)
    requires b == [ToByte(LengthSize(nonce) - 1)] + nonce + BigEndian(msgLen, LengthSize(nonce))
    ensures b[0 := b[0] | ((if adata then 0x40 else 0) + (ToByte(tagLen - 2) << 2))] == B0(nonce, adata, tagLen, msgLen)
  {
    FlagsAssembled(adata, tagLen, LengthSize(nonce));
    hide Flags, ToByte, BigEndian;
  }

  /** The encoding of a non-zero header length, in one of three forms. */
  function HeaderLengthBytes(n: nat): (r: seq<byte>)
    requires n > 0
    ensures |r| <= 10
  {
    if n < 0x1_0000 - 0x100 then ShiftedBytes(n, 2)
    else if n < 0x1_0000_0000 then [0xff, 0xfe] + ShiftedBytes(n, 4)
    else [0xff, 0xff] + ShiftedBytes(n, 8)
  }

  lemma HeaderLengthAgrees(n: nat)
    requires n > 0
    ensures HeaderLengthBytes(n) == HeaderLength(n)
  {
    ShiftedBytesAreBigEndian(n, 2);
    ShiftedBytesAreBigEndian(n, 4);
    ShiftedBytesAreBigEndian(n, 8);
  }

  method XorHeaderLength(aes: Cipher, a: array<byte>, n: nat) returns (k: nat)
    requires a.Length == 16 && n > 0
    modifies a
    ensures k == |HeaderLength(n)|
    ensures Holds(aes, old(a[..]), HeaderLength(n), a[..], k)
  {
    ghost var x := a[..];
    var f := HeaderLengthBytes(n);
    HeaderLengthAgrees(n);
    k := |f|;
    CbcStream.XorIn(a, 0, f);
    assert Holds(aes, x, [], x, 0);
    HoldsRun(aes, x, [], x, 0, f);
    assert [] + f == f;
  }

  /** Sets up the counter block and the CBC buffer for a message; k is the position after the
      header length field. */
  method FirstBlocks(aes: Cipher, ctr: array<byte>, buf: array<byte>, ghost enc: Block, iv: seq<byte>, n: nat,
                     hdrLen: nat, msgLen: nat, tagLen: nat) returns (k: nat)
    requires ctr.Length == buf.Length == 16 && ctr != buf
    requires 7 <= n <= 13 && n <= |iv| && ValidTagLength(tagLen)
    modifies ctr, buf
    ensures var p := Params(iv[..n], hdrLen, msgLen, tagLen);
            && k == |p.Prefix()|
            && (hdrLen > 0 ==> InHeader(aes, p, [], ctr[..], buf[..], k))
            && (hdrLen == 0 ==> InMessage(aes, p, [], [], ctr[..], enc, buf[..], k))
  {
    hide InHeader, InMessage, CounterBlock, B0;
    ghost var p := Params(iv[..n], hdrLen, msgLen, tagLen);
    ZeroCounter(ctr, iv, 15 - n);
    forall i | 0 <= i < 16 {
      buf[i] := ctr[i];
    }
    assert buf[..] == ctr[..];
    FirstAuthBlock(aes, buf, hdrLen > 0, tagLen, msgLen, p.nonce);
    if hdrLen != 0 {
      k := XorHeaderLength(aes, buf, hdrLen);
      BeginHeader(aes, p, ctr[..], buf[..], k);
    } else {
      k := 0;
      BeginMessage(aes, p, ctr[..], enc, buf[..]);
    }
  }

  /** Takes in one piece of the header and, at the end of the header or of a block, encrypts. */
  method HeaderPiece(aes: Cipher, buf: array<byte>, piece: seq<byte>, cnt: nat, hdrLim: nat,
                     ghost ctr: Block, ghost enc: Block, ghost p: Params, ghost hdr: seq<byte>)
    requires buf.Length == 16 && piece != [] && |piece| < CbcStream.MAX_CALL
    requires InHeader(aes, p, hdr, ctr, buf[..], cnt)
    requires hdrLim == |p.Prefix()| + p.hdrLen && cnt + |piece| <= hdrLim
    modifies buf
    ensures cnt + |piece| < hdrLim ==> InHeader(aes, p, hdr + piece, ctr, buf[..], cnt + |piece|)
    ensures cnt + |piece| == hdrLim ==> InMessage(aes, p, hdr + piece, [], ctr, enc, buf[..], 0)
  {
    hide InHeader, InMessage;
    ghost var was: Block := buf[..];
    HeaderOpen(aes, p, hdr, ctr, was, cnt);
    var bPos := CbcStream.Absorb(aes, buf, piece, cnt % 16, p.Start(aes), p.Prefix() + hdr);
    ghost var full: Block := buf[..];
    if bPos == BLOCK_SIZE || cnt + |piece| == hdrLim {
      CbcStream.AesEncrypt(aes, buf, buf);
    }
    if cnt + |piece| == hdrLim {
      HeaderDone(aes, p, hdr, piece, ctr, enc, was, full, cnt, bPos);
    } else {
      HeaderGrows(aes, p, hdr, piece, ctr, was, full, cnt, bPos, buf[..]);
    }
  }

  /** Takes in one piece of the message and encrypts at the end of a block. */
  method TextPiece(aes: Cipher, buf: array<byte>, piece: seq<byte>, pos: nat, ghost ctr: Block, ghost enc: Block,
                   ghost p: Params, ghost hdr: seq<byte>, ghost text: seq<byte>, ghost cnt: nat)
    requires buf.Length == 16 && |piece| < CbcStream.MAX_CALL
    requires InMessage(aes, p, hdr, text, ctr, enc, buf[..], cnt)
    requires pos == |text| % 16 && |text| + |piece| <= p.msgLen
    modifies buf
    ensures InMessage(aes, p, hdr, text + piece, ctr, enc, buf[..], cnt)
  {
    hide InMessage;
    ghost var was: Block := buf[..];
    TextOpen(aes, p, hdr, text, ctr, enc, was, cnt);
    var bPos := CbcStream.Absorb(aes, buf, piece, pos, AfterHeader(aes, p.nonce, hdr, p.tagLen, p.msgLen), text);
    ghost var full: Block := buf[..];
    if bPos == BLOCK_SIZE {
      CbcStream.AesEncrypt(aes, buf, buf);
    }
    TextTaken(aes, p, hdr, text, piece, ctr, enc, was, full, cnt, bPos, buf[..]);
  }

  /** The closing encryption of the CBC buffer, the key stream block S_0, and the tag. */
  method WriteTag(aes: Cipher, ctr: array<byte>, enc: array<byte>, buf: array<byte>, tag: array<byte>, cnt: nat,
                  tagLen: nat, ghost p: Params, ghost hdr: seq<byte>, ghost text: seq<byte>)
    requires ctr.Length == enc.Length == buf.Length == 16 && ctr != enc && ctr != buf && enc != buf
    requires tag != ctr && tag != enc && tag != buf && tagLen <= tag.Length
    requires InMessage(aes, p, hdr, text, ctr[..], enc[..], buf[..], cnt)
    requires cnt == |text| == p.msgLen && tagLen == p.tagLen
    modifies enc, buf, tag
    ensures p.Good() && tag[..tagLen] == Tag(aes, p.nonce, hdr, text, tagLen)
    ensures tag[tagLen..] == old(tag[tagLen..])
  {
    hide InMessage;
    TextComplete(aes, p, hdr, text, ctr[..], enc[..], buf[..], cnt);
    TextOpen(aes, p, hdr, text, ctr[..], enc[..], buf[..], cnt);
    ghost var t: Block := Chain(aes, AfterHeader(aes, p.nonce, hdr, p.tagLen, |text|), Pad(text));
    if cnt % 16 != 0 {
      CbcStream.AesEncrypt(aes, buf, buf);
    }
    assert buf[..] == t;
    ZeroKey(aes, ctr, enc, p.nonce, cnt);
    XorTag(buf, enc, tag, tagLen);
    assert buf[..tagLen] == t[..tagLen];
    assert enc[..tagLen] == enc[..][..tagLen];
  }

  method XorTag(buf: array<byte>, enc: array<byte>, tag: array<byte>, tagLen: nat)
    requires enc.Length == buf.Length == 16 && tagLen <= 16
    requires tag != enc && tag != buf && tagLen <= tag.Length
    modifies tag
    ensures tag[..tagLen] == Xor(buf[..tagLen], enc[..tagLen])
    ensures tag[tagLen..] == old(tag[tagLen..])
  {
    var i := 0;
    while i < tagLen
      invariant i <= tagLen
      invariant forall k | 0 <= k < i :: tag[k] == buf[k] ^ enc[k]
      invariant forall k | tagLen <= k < tag.Length :: tag[k] == old(tag[k])
    {
      tag[i] := buf[i] ^ enc[i];
      i := i + 1;
    }
  }

  /** Encrypts or decrypts one piece of the message. */
  method CryptPiece(aes: Cipher, ctr: array<byte>, enc: array<byte>, data: array<byte>, cnt: nat, ghost buf: Block,
                    ghost p: Params, ghost hdr: seq<byte>, ghost text: seq<byte>)
    requires ctr.Length == enc.Length == 16 && ctr != enc && data != ctr && data != enc
    requires data.Length < CbcStream.MAX_CALL
    requires InMessage(aes, p, hdr, text, ctr[..], enc[..], buf, cnt) && cnt + data.Length <= p.msgLen
    modifies ctr, enc, data
    ensures InMessage(aes, p, hdr, text, ctr[..], enc[..], buf, cnt + data.Length) && p.Good()
    ensures data[..] == CryptFrom(aes, p.nonce, cnt, old(data[..]))
  {
    hide InMessage, CtrStream.Ready, CryptFrom;
    ghost var c: Block, e: Block := ctr[..], enc[..];
    TextOpen(aes, p, hdr, text, c, e, buf, cnt);
    CtrStream.CryptInPlace(aes, ctr, enc, data, cnt % 16, p.nonce, cnt);
    Crypted(aes, p, hdr, text, c, e, buf, cnt, ctr[..], enc[..], data.Length);
  }

  lemma CounterOf(aes: Cipher, nonce: seq<byte>, ctr: Block, enc: Block, j: nat) returns (n: nat)
    requires ValidNonce(nonce) && CtrStream.Ready(aes, nonce, ctr, enc, j, j % 16)
    ensures ctr == CounterBlock(nonce, n)
  {
    n := if j % 16 == 0 then j / 16 else j / 16 + 1;
  }

  /** S_0: the counter block with its counter cleared, encrypted. */
  method ZeroKey(aes: Cipher, ctr: array<byte>, enc: array<byte>, ghost nonce: seq<byte>, ghost j: nat)
    requires ctr.Length == enc.Length == 16 && ctr != enc && ValidNonce(nonce)
    requires CtrStream.Ready(aes, nonce, ctr[..], enc[..], j, j % 16)
    modifies enc
    ensures enc[..] == aes(CounterBlock(nonce, 0))
  {
    hide CtrStream.Ready, CounterBlock, BigEndian;
    ghost var n := CounterOf(aes, nonce, ctr[..], enc[..], j);
    forall i | 0 <= i < 16 {
      enc[i] := ctr[i];
    }
    assert enc[..] == ctr[..];
    ghost var l := LengthSize(nonce);
    CounterCleared(nonce, n);
    LengthBits(l);
    assert enc[0] == enc[..][0];
    assert enc[..16 - l] == enc[..][..16 - l];
    assert enc[..16 - l] == CounterBlock(nonce, n)[..16 - l];
    CounterField.SetCtr(enc, 0, l);
    assert enc[..] == CounterBlock(nonce, 0);
    CbcStream.AesEncrypt(aes, enc, enc);
  }
}
