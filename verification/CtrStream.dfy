/** Counter-mode key stream, taken in pieces of any size. ctr is the counter block and enc
    its encryption; j counts the message bytes processed since the counter was 0. */
module CtrStream {
  import opened Bytes
  import opened CbcStream
  import CounterField
  import Rfc3610

  /** All of block j / 16 is used up; the next block is not made yet. */
  ghost predicate Edge(nonce: seq<byte>, ctr: Block, j: nat)
    requires Rfc3610.ValidNonce(nonce)
  {
    j % 16 == 0 && ctr == Rfc3610.CounterBlock(nonce, j / 16)
  }

  /** enc is the key stream block that byte j belongs to, and p the place of byte j in it. */
  ghost predicate Open(aes: Cipher, nonce: seq<byte>, ctr: Block, enc: Block, j: nat, p: nat)
    requires Rfc3610.ValidNonce(nonce)
  {
    p < 16 && j % 16 == p && ctr == Rfc3610.CounterBlock(nonce, j / 16 + 1) && enc == aes(ctr)
  }

  ghost predicate Ready(aes: Cipher, nonce: seq<byte>, ctr: Block, enc: Block, j: nat, p: nat)
    requires Rfc3610.ValidNonce(nonce)
  {
    if p == 0 || p == 16 then Edge(nonce, ctr, j) else Open(aes, nonce, ctr, enc, j, p)
  }

  /** now is was with its first n bytes encrypted or decrypted. */
  ghost predicate Crypted(aes: Cipher, nonce: seq<byte>, off: nat, was: seq<byte>, now: seq<byte>, n: nat)
    requires Rfc3610.ValidNonce(nonce)
  {
    && |was| == |now| && n <= |was|
    && (forall i | 0 <= i < n :: now[i] == was[i] ^ Rfc3610.KeyStream(aes, nonce, off + i))
    && (forall i | n <= i < |was| :: now[i] == was[i])
  }

  lemma CryptedAll(aes: Cipher, nonce: seq<byte>, off: nat, was: seq<byte>, now: seq<byte>)
    requires Rfc3610.ValidNonce(nonce) && Crypted(aes, nonce, off, was, now, |was|)
    ensures now == Rfc3610.CryptFrom(aes, nonce, off, was)
  {
  }

  method NextKey(aes: Cipher, ctr: array<byte>, enc: array<byte>, ghost nonce: seq<byte>, ghost j: nat)
    requires ctr.Length == enc.Length == 16 && ctr != enc
    requires Rfc3610.ValidNonce(nonce) && Edge(nonce, ctr[..], j)
    modifies ctr, enc
    ensures Open(aes, nonce, ctr[..], enc[..], j, 0)
  {
    ghost var l := Rfc3610.LengthSize(nonce);
    Rfc3610.LengthBits(l);
    Rfc3610.CounterBlockSucc(nonce, j / 16);
    CounterField.IncCtr(ctr, l);
    AesEncrypt(aes, ctr, enc);
  }

  /** Byte j + i of the key stream, for a run that stays inside one block. */
  lemma SameBlock(j: nat, i: nat)
    requires j % 16 + i < 16
    ensures (j + i) / 16 == j / 16 && (j + i) % 16 == j % 16 + i
  {
  }

  lemma NextBlock(j: nat, k: nat)
    requires j % 16 + k == 16
    ensures (j + k) / 16 == j / 16 + 1 && (j + k) % 16 == 0
  {
  }

  /** s with the run d xored in from position at on. */
  function XorAt(s: seq<byte>, at: nat, d: seq<byte>): (r: seq<byte>)
    requires at + |d| <= |s|
    ensures |r| == |s|
  {
    seq(|s|, i requires 0 <= i < |s| => if at <= i < at + |d| then s[i] ^ d[i - at] else s[i])
  }

  method XorKey(data: array<byte>, at: nat, k: nat, enc: array<byte>, p: nat)
    requires enc.Length == 16 && data != enc && at + k <= data.Length && p + k <= 16
    modifies data
    ensures data[..] == XorAt(old(data[..]), at, enc[p..p + k])
  {
    forall i | at <= i < at + k {
      data[i] := data[i] ^ enc[p + (i - at)];
    }
  }

  lemma OpenRun(aes: Cipher, nonce: seq<byte>, ctr: Block, enc: Block, j: nat, p: nat, i: nat)
    requires Rfc3610.ValidNonce(nonce) && Open(aes, nonce, ctr, enc, j, p) && p + i < 16
    ensures Rfc3610.KeyStream(aes, nonce, j + i) == enc[p + i]
  {
    SameBlock(j, i);
  }

  lemma CryptedRun(aes: Cipher, nonce: seq<byte>, ctr: Block, enc: Block, off: nat, was: seq<byte>, now: seq<byte>,
                   at: nat, p: nat, k: nat)
    requires Rfc3610.ValidNonce(nonce) && Open(aes, nonce, ctr, enc, off + at, p)
    requires p + k <= 16 && at + k <= |now| && Crypted(aes, nonce, off, was, now, at)
    ensures Crypted(aes, nonce, off, was, XorAt(now, at, enc[p..p + k]), at + k)
  {
    var r := XorAt(now, at, enc[p..p + k]);
    forall i | 0 <= i < at + k ensures r[i] == was[i] ^ Rfc3610.KeyStream(aes, nonce, off + i) {
      if at <= i {
        OpenRun(aes, nonce, ctr, enc, off + at, p, i - at);
        assert off + at + (i - at) == off + i;
        assert r[i] == now[i] ^ enc[p + (i - at)] && now[i] == was[i];
      } else {
        assert r[i] == now[i];
      }
    }
  }

  lemma ReadyRun(aes: Cipher, nonce: seq<byte>, ctr: Block, enc: Block, j: nat, p: nat, k: nat)
    requires Rfc3610.ValidNonce(nonce) && Open(aes, nonce, ctr, enc, j, p) && 0 < k && p + k <= 16
    ensures Ready(aes, nonce, ctr, enc, j + k, p + k)
  {
    hide Rfc3610.CounterBlock;
    if p + k == 16 {
      NextBlock(j, k);
    } else {
      SameBlock(j, k);
    }
  }

  /** data[at..at + k] is xored with k key stream bytes from the open block. */
  method Mix(aes: Cipher, ctr: array<byte>, enc: array<byte>, data: array<byte>, at: nat, k: nat, p: nat,
             ghost nonce: seq<byte>, ghost off: nat, ghost was: seq<byte>)
    requires ctr.Length == enc.Length == 16 && data != ctr && data != enc
    requires Rfc3610.ValidNonce(nonce) && Open(aes, nonce, ctr[..], enc[..], off + at, p)
    requires 0 < k && p + k <= 16 && at + k <= data.Length
    requires Crypted(aes, nonce, off, was, data[..], at)
    modifies data
    ensures Crypted(aes, nonce, off, was, data[..], at + k)
    ensures Ready(aes, nonce, ctr[..], enc[..], off + at + k, p + k)
  {
    CryptedRun(aes, nonce, ctr[..], enc[..], off, was, data[..], at, p, k);
    ReadyRun(aes, nonce, ctr[..], enc[..], off + at, p, k);
    assert enc[..][p..p + k] == enc[p..p + k];
    XorKey(data, at, k, enc, p);
  }

  /** Invariant of the loops: cnt bytes are done and pos is the place of the next key byte. */
  ghost predicate Progress(aes: Cipher, nonce: seq<byte>, ctr: Block, enc: Block, off: nat,
                           was: seq<byte>, now: seq<byte>, cnt: nat, pos: nat): (r: bool)
    ensures r ==> cnt <= |was| == |now| && pos <= 16
  {
    && pos <= 16 && Rfc3610.ValidNonce(nonce)
    && Crypted(aes, nonce, off, was, now, cnt)
    && Ready(aes, nonce, ctr, enc, off + cnt, pos)
  }

  /** One step of the loops inside an open block. */
  method Step(aes: Cipher, ctr: array<byte>, enc: array<byte>, data: array<byte>, at: nat, k: nat, p: nat,
              ghost nonce: seq<byte>, ghost off: nat, ghost was: seq<byte>)
    requires ctr.Length == enc.Length == 16 && data != ctr && data != enc
    requires Progress(aes, nonce, ctr[..], enc[..], off, was, data[..], at, p) && 0 < p < 16
    requires 0 < k && p + k <= 16 && at + k <= data.Length
    modifies data
    ensures Progress(aes, nonce, ctr[..], enc[..], off, was, data[..], at + k, p + k)
  {
    Mix(aes, ctr, enc, data, at, k, p, nonce, off, was);
  }

  /** The first k bytes of a fresh key stream block. */
  method Begin(aes: Cipher, ctr: array<byte>, enc: array<byte>, data: array<byte>, at: nat, k: nat, ghost p: nat,
               ghost nonce: seq<byte>, ghost off: nat, ghost was: seq<byte>)
    requires ctr.Length == enc.Length == 16 && data != ctr && data != enc && ctr != enc
    requires Progress(aes, nonce, ctr[..], enc[..], off, was, data[..], at, p) && (p == 0 || p == 16)
    requires 0 < k <= 16 && at + k <= data.Length
    modifies data, ctr, enc
    ensures Progress(aes, nonce, ctr[..], enc[..], off, was, data[..], at + k, k)
  {
    NextKey(aes, ctr, enc, nonce, off + at);
    Mix(aes, ctr, enc, data, at, k, 0, nonce, off, was);
  }

  lemma AtRest(aes: Cipher, nonce: seq<byte>, ctr: Block, enc: Block, j: nat, p: nat)
    requires Rfc3610.ValidNonce(nonce) && Ready(aes, nonce, ctr, enc, j, p)
    ensures Ready(aes, nonce, ctr, enc, j, j % 16)
  {
  }

  /** Encrypts or decrypts data in place, continuing at byte off of the key stream. */
  method CryptInPlace(aes: Cipher, ctr: array<byte>, enc: array<byte>, data: array<byte>, start: nat,
                      ghost nonce: seq<byte>, ghost off: nat)
    requires ctr.Length == enc.Length == 16 && data != ctr && data != enc && ctr != enc
    requires data.Length < MAX_CALL && start == off % 16
    requires Rfc3610.ValidNonce(nonce) && Ready(aes, nonce, ctr[..], enc[..], off, start)
    modifies data, ctr, enc
    ensures data[..] == Rfc3610.CryptFrom(aes, nonce, off, old(data[..]))
    ensures Ready(aes, nonce, ctr[..], enc[..], off + data.Length, (off + data.Length) % 16)
  {
    var aligned: bool := *;
    ghost var was := data[..];
    var cnt: nat, bPos: nat;
    if aligned {
      cnt, bPos := CryptAligned(aes, ctr, enc, data, start, nonce, off);
    } else {
      cnt, bPos := CryptUnaligned(aes, ctr, enc, data, start, nonce, off);
    }
    bPos := CryptTail(aes, ctr, enc, data, cnt, bPos, nonce, off, was);
    CryptedAll(aes, nonce, off, was, data[..]);
    AtRest(aes, nonce, ctr[..], enc[..], off + data.Length, bPos);
  }

  /** The remaining bytes, one at a time. */
  method CryptTail(aes: Cipher, ctr: array<byte>, enc: array<byte>, data: array<byte>, from: nat, start: nat,
                   ghost nonce: seq<byte>, ghost off: nat, ghost was: seq<byte>) returns (bPos: nat)
    requires ctr.Length == enc.Length == 16 && data != ctr && data != enc && ctr != enc
    requires Progress(aes, nonce, ctr[..], enc[..], off, was, data[..], from, start)
    modifies data, ctr, enc
    ensures Progress(aes, nonce, ctr[..], enc[..], off, was, data[..], data.Length, bPos)
  {
    hide Progress;
    var cnt := from;
    bPos := start;
    while cnt < data.Length
      invariant Progress(aes, nonce, ctr[..], enc[..], off, was, data[..], cnt, bPos)
    {
      if bPos == BLOCK_SIZE || bPos == 0 {
        Begin(aes, ctr, enc, data, cnt, 1, bPos, nonce, off, was);
        bPos := 0;
      } else {
        Step(aes, ctr, enc, data, cnt, 1, bPos, nonce, off, was);
      }
      bPos, cnt := bPos + 1, cnt + 1;
    }
  }

  method CryptAligned(aes: Cipher, ctr: array<byte>, enc: array<byte>, data: array<byte>, start: nat,
                      ghost nonce: seq<byte>, ghost off: nat) returns (cnt: nat, bPos: nat)
    requires ctr.Length == enc.Length == 16 && data != ctr && data != enc && ctr != enc
    requires data.Length < MAX_CALL && start < 16
    requires Progress(aes, nonce, ctr[..], enc[..], off, data[..], data[..], 0, start)
    modifies data, ctr, enc
    ensures Progress(aes, nonce, ctr[..], enc[..], off, old(data[..]), data[..], cnt, bPos)
  {
    hide Progress;
    ghost var was := data[..];
    cnt, bPos := 0, start;
    if bPos != 0 {
      while cnt < data.Length && bPos % BUF_INC != 0
        invariant 0 < bPos && Progress(aes, nonce, ctr[..], enc[..], off, was, data[..], cnt, bPos)
      {
        Step(aes, ctr, enc, data, cnt, 1, bPos, nonce, off, was);
        bPos, cnt := bPos + 1, cnt + 1;
      }
      while cnt + BUF_INC <= data.Length && bPos <= BLOCK_SIZE - BUF_INC
        invariant 0 < bPos && Progress(aes, nonce, ctr[..], enc[..], off, was, data[..], cnt, bPos)
        invariant cnt == data.Length || bPos == 8 || bPos == 16
      {
        Step(aes, ctr, enc, data, cnt, BUF_INC, bPos, nonce, off, was);
        bPos, cnt := bPos + BUF_INC, cnt + BUF_INC;
      }
    }
    cnt := CryptBlocks(aes, ctr, enc, data, cnt, bPos, nonce, off, was);
  }

  method CryptUnaligned(aes: Cipher, ctr: array<byte>, enc: array<byte>, data: array<byte>, start: nat,
                        ghost nonce: seq<byte>, ghost off: nat) returns (cnt: nat, bPos: nat)
    requires ctr.Length == enc.Length == 16 && data != ctr && data != enc && ctr != enc
    requires data.Length < MAX_CALL && start < 16
    requires Progress(aes, nonce, ctr[..], enc[..], off, data[..], data[..], 0, start)
    modifies data, ctr, enc
    ensures Progress(aes, nonce, ctr[..], enc[..], off, old(data[..]), data[..], cnt, bPos)
  {
    hide Progress;
    ghost var was := data[..];
    cnt, bPos := 0, start;
    if bPos != 0 {
      while cnt < data.Length && bPos < BLOCK_SIZE
        invariant 0 < bPos && Progress(aes, nonce, ctr[..], enc[..], off, was, data[..], cnt, bPos)
      {
        Step(aes, ctr, enc, data, cnt, 1, bPos, nonce, off, was);
        bPos, cnt := bPos + 1, cnt + 1;
      }
    }
    cnt := CryptBlocks(aes, ctr, enc, data, cnt, bPos, nonce, off, was);
  }

  /** Whole blocks. The in-block position is not touched: it is an edge before and after. */
  method CryptBlocks(aes: Cipher, ctr: array<byte>, enc: array<byte>, data: array<byte>, from: nat, bPos: nat,
                     ghost nonce: seq<byte>, ghost off: nat, ghost was: seq<byte>) returns (cnt: nat)
    requires ctr.Length == enc.Length == 16 && data != ctr && data != enc && ctr != enc
    requires data.Length < MAX_CALL
    requires Progress(aes, nonce, ctr[..], enc[..], off, was, data[..], from, bPos)
    requires from + BLOCK_SIZE <= data.Length ==> bPos == 0 || bPos == BLOCK_SIZE
    modifies data, ctr, enc
    ensures Progress(aes, nonce, ctr[..], enc[..], off, was, data[..], cnt, bPos)
  {
    cnt := from;
    while cnt + BLOCK_SIZE <= data.Length
      invariant Progress(aes, nonce, ctr[..], enc[..], off, was, data[..], cnt, bPos)
    {
      Begin(aes, ctr, enc, data, cnt, BLOCK_SIZE, bPos, nonce, off, was);
      cnt := cnt + BLOCK_SIZE;
    }
  }
}
