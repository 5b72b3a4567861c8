/** In-place operations on a 16-byte CBC work buffer, and the loops by which header and
    message authentication feed bytes into it. x is the value the buffer started from and s
    the bytes already in; both are only there to say what the buffer stands for. */
module CbcStream {
  import opened Bytes
  import opened CbcMac

  /** Bytes handled by one word operation. */
  const BUF_INC: nat := 8

  /** A call's own byte counter is 32 bits wide and is compared after adding 16. */
  const MAX_CALL: nat := 0x1_0000_0000 - 16

  /** Xors d into buf from p on: one byte, one word or one block. */
  method XorIn(buf: array<byte>, p: nat, d: seq<byte>)
    requires buf.Length == 16 && p + |d| <= 16
    modifies buf
    ensures buf[..] == XorRun(old(buf[..]), p, d)
  {
    forall i | p <= i < p + |d| {
      buf[i] := buf[i] ^ d[i - p];
    }
  }

  method AesEncrypt(aes: Cipher, src: array<byte>, dst: array<byte>)
    requires src.Length == dst.Length == 16
    modifies dst
    ensures dst[..] == aes(old(src[..]))
  {
    var r: Block := aes(src[..]);
    forall i | 0 <= i < 16 {
      dst[i] := r[i];
    }
  }

  /** The next k bytes of data go into the open block. */
  method Take(aes: Cipher, buf: array<byte>, p: nat, data: seq<byte>, at: nat, k: nat, ghost x: Block,
              ghost s: seq<byte>)
    requires buf.Length == 16 && p + k <= 16 && at + k <= |data|
    requires Holds(aes, x, s + data[..at], buf[..], p)
    modifies buf
    ensures Holds(aes, x, s + data[..at + k], buf[..], p + k)
  {
    hide Holds;
    HoldsRun(aes, x, s + data[..at], buf[..], p, data[at..at + k]);
    assert s + data[..at] + data[at..at + k] == s + data[..at + k];
    XorIn(buf, p, data[at..at + k]);
  }

  method Flush(aes: Cipher, buf: array<byte>, ghost x: Block, ghost s: seq<byte>)
    requires buf.Length == 16 && Holds(aes, x, s, buf[..], 16)
    modifies buf
    ensures Holds(aes, x, s, buf[..], 0)
  {
    hide Holds;
    HoldsEncrypt(aes, x, s, buf[..]);
    AesEncrypt(aes, buf, buf);
  }

  /** Invariant of the loops: cnt bytes of data are in, pos is the open position. */
  ghost predicate Progress(aes: Cipher, x: Block, s: seq<byte>, data: seq<byte>, start: nat,
                           buf: seq<byte>, cnt: nat, pos: nat)
  {
    && cnt <= |data| && |buf| == 16
    && (if cnt == 0 then pos == start else pos > 0)
    && Holds(aes, x, s + data[..cnt], buf, pos)
  }

  /** The byte, word and block loops that header and message authentication share. Whether
      the data is aligned with the open block decides between two sets of loops. */
  method Absorb(aes: Cipher, buf: array<byte>, data: seq<byte>, start: nat, ghost x: Block, ghost s: seq<byte>)
    returns (bPos: nat)
    requires buf.Length == 16 && start < 16 && |data| < MAX_CALL
    requires Holds(aes, x, s, buf[..], start)
    modifies buf
    ensures Holds(aes, x, s + data, buf[..], bPos)
    ensures if data == [] then bPos == start else bPos > 0
  {
    hide Holds;
    assert s + data[..0] == s;
    var aligned: bool := *;
    var cnt;
    if aligned {
      cnt, bPos := AbsorbAligned(aes, buf, data, start, x, s);
    } else {
      cnt, bPos := AbsorbUnaligned(aes, buf, data, start, x, s);
    }
    while cnt < |data|
      invariant Progress(aes, x, s, data, start, buf[..], cnt, bPos)
    {
      if bPos == BLOCK_SIZE {
        Flush(aes, buf, x, s + data[..cnt]);
        bPos := 0;
      }
      Take(aes, buf, bPos, data, cnt, 1, x, s);
      bPos, cnt := bPos + 1, cnt + 1;
    }
    assert data[..cnt] == data;
  }

  method AbsorbAligned(aes: Cipher, buf: array<byte>, data: seq<byte>, start: nat, ghost x: Block, ghost s: seq<byte>)
    returns (cnt: nat, bPos: nat)
    requires buf.Length == 16 && start < 16 && |data| < MAX_CALL
    requires Progress(aes, x, s, data, start, buf[..], 0, start)
    modifies buf
    ensures Progress(aes, x, s, data, start, buf[..], cnt, bPos)
  {
    hide Holds;
    cnt, bPos := 0, start;
    while cnt < |data| && bPos % BUF_INC != 0
      invariant Progress(aes, x, s, data, start, buf[..], cnt, bPos)
    {
      Take(aes, buf, bPos, data, cnt, 1, x, s);
      bPos, cnt := bPos + 1, cnt + 1;
    }
    while cnt + BUF_INC <= |data| && bPos <= BLOCK_SIZE - BUF_INC
      invariant Progress(aes, x, s, data, start, buf[..], cnt, bPos)
      invariant cnt == |data| || bPos == 0 || bPos == 8 || bPos == 16
    {
      Take(aes, buf, bPos, data, cnt, BUF_INC, x, s);
      bPos, cnt := bPos + BUF_INC, cnt + BUF_INC;
    }
    cnt := AbsorbBlocks(aes, buf, data, start, cnt, bPos, x, s);
  }

  method AbsorbUnaligned(aes: Cipher, buf: array<byte>, data: seq<byte>, start: nat, ghost x: Block, ghost s: seq<byte>)
    returns (cnt: nat, bPos: nat)
    requires buf.Length == 16 && start < 16 && |data| < MAX_CALL
    requires Progress(aes, x, s, data, start, buf[..], 0, start)
    modifies buf
    ensures Progress(aes, x, s, data, start, buf[..], cnt, bPos)
  {
    hide Holds;
    cnt, bPos := 0, start;
    while cnt < |data| && bPos < BLOCK_SIZE
      invariant Progress(aes, x, s, data, start, buf[..], cnt, bPos)
    {
      Take(aes, buf, bPos, data, cnt, 1, x, s);
      bPos, cnt := bPos + 1, cnt + 1;
    }
    cnt := AbsorbBlocks(aes, buf, data, start, cnt, bPos, x, s);
  }

  /** Whole blocks, with the open block full before and after each. */
  method AbsorbBlocks(aes: Cipher, buf: array<byte>, data: seq<byte>, ghost start: nat, from: nat, bPos: nat,
                      ghost x: Block, ghost s: seq<byte>)
    returns (cnt: nat)
    requires buf.Length == 16 && |data| < MAX_CALL
    requires Progress(aes, x, s, data, start, buf[..], from, bPos)
    requires from + BLOCK_SIZE <= |data| ==> bPos == BLOCK_SIZE
    modifies buf
    ensures Progress(aes, x, s, data, start, buf[..], cnt, bPos) && cnt + BLOCK_SIZE > |data|
  {
    hide Holds;
    cnt := from;
    while cnt + BLOCK_SIZE <= |data|
      invariant from <= cnt && Progress(aes, x, s, data, start, buf[..], cnt, bPos)
    {
      Flush(aes, buf, x, s + data[..cnt]);
      Take(aes, buf, 0, data, cnt, BLOCK_SIZE, x, s);
      cnt := cnt + BLOCK_SIZE;
    }
  }
}
