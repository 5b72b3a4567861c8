/** The CMAC context as it runs. The buffer's last full block stays unencrypted until the
    next byte of the same call. */
module Cmac {
  import opened Bytes
  import opened CbcMac
  import opened CbcStream
  import opened Cuttings
  import opened GfDouble
  import opened Rfc4493

  class Context {
    const aes: Cipher
    const txtCbc: array<byte>
    var txtCnt: nat

    ghost predicate Valid()
      reads this
    {
      txtCbc.Length == 16
    }

    constructor (aes: Cipher)
      ensures Valid() && this.aes == aes && txtCbc[..] == ZeroBlock() && txtCnt == 0 && fresh(txtCbc)
    {
      this.aes := aes;
      txtCbc := new byte[16](i => 0);
      txtCnt := 0;
      new;
      assert txtCbc[..] == ZeroBlock();
    }

    /** Takes in some bytes of the message. */
    method Data(data: seq<byte>)
      requires Valid() && |data| < MAX_CALL && txtCnt + |data| < 0x1_0000_0000
      modifies this`txtCnt, txtCbc
      ensures txtCbc[..] == Feed(aes, old(txtCbc[..]), old(txtCnt), data)
      ensures txtCnt == old(txtCnt) + |data|
    {
      hide LazyBuf, EagerBuf;
      if data == [] {
        return;
      }
      var start := txtCnt % 16;
      AbsorbLazily(aes, txtCbc, data, start);
      txtCnt := txtCnt + |data|;
    }

    /** The tag of the message. */
    method End() returns (tag: Block)
      requires Valid()
      modifies txtCbc
      ensures tag == EndTag(aes, old(txtCbc[..]), txtCnt)
    {
      hide Xor, XorRun, XorByte, K1, K2;
      var i := txtCnt % 16;
      var pad;
      if txtCnt == 0 || i != 0 {
        EndMark(txtCbc, i);
        pad := Subkey(aes, true);
      } else {
        pad := Subkey(aes, false);
      }
      tag := Finish(aes, pad, txtCbc);
    }
  }

  method EndMark(cbc: array<byte>, i: nat)
    requires cbc.Length == 16 && i < 16
    modifies cbc
    ensures cbc[..] == XorByte(old(cbc[..]), i, 0x80)
  {
    cbc[i] := cbc[i] ^ 0x80;
  }

  /** The key for an incomplete last block is doubled twice, the other once. */
  method Subkey(aes: Cipher, incomplete: bool) returns (pad: array<byte>)
    ensures fresh(pad) && pad.Length == 16
    ensures pad[..] == if incomplete then K2(aes) else K1(aes)
  {
    hide Doubled;
    pad := new byte[16](i => 0);
    assert pad[..] == ZeroBlock();
    AesEncrypt(aes, pad, pad);
    if incomplete {
      GfMulx2(pad);
    } else {
      GfMulx(pad);
    }
  }

  method Finish(aes: Cipher, pad: array<byte>, cbc: array<byte>) returns (tag: Block)
    requires pad.Length == cbc.Length == 16 && pad != cbc
    modifies pad
    ensures tag == aes(Xor(old(pad[..]), cbc[..]))
  {
    hide Xor, XorRun;
    RunIsXor(pad[..], cbc[..]);
    XorIn(pad, 0, cbc[..]);
    AesEncrypt(aes, pad, pad);
    tag := pad[..];
  }

  lemma RunIsXor(a: Block, b: Block)
    ensures XorRun(a, 0, b) == Xor(a, b)
  {
  }

  /** The whole computation in one call is the CMAC of the message. */
  method Mac(aes: Cipher, data: seq<byte>) returns (tag: Block)
    requires |data| < MAX_CALL
    ensures tag == Rfc4493.Cmac(aes, data)
  {
    hide LazyBuf, EndTag, Rfc4493.Cmac;
    var ctx := new Context(aes);
    assert ctx.txtCbc[..] == LazyBuf(aes, ZeroBlock(), []) by { LazyNothing(aes, ZeroBlock()); }
    CallRight(aes, [], data);
    assert [] + data == data;
    ctx.Data(data);
    EndIsCmac(aes, data);
    tag := ctx.End();
  }

  /** So does any cutting into calls of which no later one starts at a multiple of 16. */
  method MacInPieces(aes: Cipher, calls: seq<seq<byte>>) returns (tag: Block)
    requires Guarded(calls) && |Joined(calls)| < MAX_CALL
    ensures tag == Rfc4493.Cmac(aes, Joined(calls))
  {
    hide LazyBuf, EndTag, Rfc4493.Cmac, Feed, Guarded;
    var ctx := new Context(aes);
    for i := 0 to |calls|
      invariant ctx.Valid() && fresh(ctx) && fresh(ctx.txtCbc) && ctx.aes == aes
      invariant ctx.txtCbc[..] == FeedAll(aes, calls[..i]) && ctx.txtCnt == |Joined(calls[..i])|
    {
      JoinedNext(calls, i);
      assert calls[..i + 1][..i] == calls[..i];
      ctx.Data(calls[i]);
    }
    assert calls[..|calls|] == calls;
    SplitIsCmac(aes, calls);
    tag := ctx.End();
  }

  /** The loops of a call: words and blocks when the data is aligned with the open block,
      bytes and blocks when not. */
  method AbsorbLazily(aes: Cipher, buf: array<byte>, data: seq<byte>, start: nat)
    requires buf.Length == 16 && start < 16 && data != [] && |data| < MAX_CALL
    modifies buf
    ensures buf[..] == LazyBuf(aes, old(buf[..]), Zeros(start) + data)
  {
    hide Holds, LazyBuf, EagerBuf;
    ghost var x: Block, s := buf[..], Zeros(start);
    StartsOpen(aes, x, start);
    assert s + data[..0] == s;
    var aligned: bool := *;
    var cnt, bPos;
    if aligned {
      cnt, bPos := AbsorbUnits(aes, buf, data, start, x, s);
    } else {
      cnt, bPos := AbsorbUnaligned(aes, buf, data, start, x, s);
    }
    while cnt < |data|
      invariant Progress(aes, x, s, data, start, buf[..], cnt, bPos)
    {
      if bPos == BLOCK_SIZE {
        Flush(aes, buf, x, s + data[..cnt]);
        bPos := 0;
      }
      Take(aes, buf, bPos, data, cnt, 1, x, s);
      bPos, cnt := bPos + 1, cnt + 1;
    }
    assert data[..cnt] == data;
    EndsLazy(aes, x, s + data, buf[..], bPos);
  }

  lemma StartsOpen(e: Cipher, x: Block, start: nat)
    requires start < 16
    ensures Holds(e, x, Zeros(start), x, start)
  {
    ZerosIn(e, x, start);
    hide LazyBuf;
  }

  lemma EndsLazy(e: Cipher, x: Block, s: seq<byte>, buf: Block, pos: nat)
    requires Holds(e, x, s, buf, pos) && pos > 0
    ensures buf == LazyBuf(e, x, s)
  {
    hide LazyBuf;
  }

  /** The aligned loops: bytes up to a word boundary, then, as long as a whole block is
      left, words up to the end of the open block and whole blocks. */
  method AbsorbUnits(aes: Cipher, buf: array<byte>, data: seq<byte>, start: nat, ghost x: Block, ghost s: seq<byte>)
    returns (cnt: nat, bPos: nat)
    requires buf.Length == 16 && start < 16 && |data| < MAX_CALL
    requires Progress(aes, x, s, data, start, buf[..], 0, start)
    modifies buf
    ensures Progress(aes, x, s, data, start, buf[..], cnt, bPos)
  {
    hide Holds;
    cnt, bPos := 0, start;
    while cnt < |data| && bPos % BUF_INC != 0
      invariant Progress(aes, x, s, data, start, buf[..], cnt, bPos)
    {
      Take(aes, buf, bPos, data, cnt, 1, x, s);
      bPos, cnt := bPos + 1, cnt + 1;
    }
    while cnt + BLOCK_SIZE <= |data|
      invariant Progress(aes, x, s, data, start, buf[..], cnt, bPos)
      invariant cnt == |data| || bPos == 0 || bPos == 8 || bPos == 16
    {
      ghost var from := cnt;
      while cnt + BUF_INC <= |data| && bPos <= BLOCK_SIZE - BUF_INC
        invariant Progress(aes, x, s, data, start, buf[..], cnt, bPos)
        invariant cnt == |data| || bPos == 0 || bPos == 8 || bPos == 16
        invariant from <= cnt && (cnt == from || cnt - from <= bPos)
      {
        Take(aes, buf, bPos, data, cnt, BUF_INC, x, s);
        bPos, cnt := bPos + BUF_INC, cnt + BUF_INC;
      }
      cnt := AbsorbBlocks(aes, buf, data, start, cnt, bPos, x, s);
    }
  }
}
