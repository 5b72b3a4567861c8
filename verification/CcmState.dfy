/** What the buffers of a CCM context stand for, between calls. */
module CcmState {
  import opened Bytes
  import opened CbcMac
  import CtrStream
  import Rfc3610

  datatype Params = Params(nonce: seq<byte>, hdrLen: nat, msgLen: nat, tagLen: nat) {
    ghost predicate Good() {
      Rfc3610.ValidNonce(nonce) && Rfc3610.ValidTagLength(tagLen)
    }

    /** The CBC value after the first authentication block. */
    function Start(e: Cipher): Block
      requires Good()
    {
      e(Rfc3610.B0(nonce, hdrLen > 0, tagLen, msgLen))
    }

    function Prefix(): seq<byte> {
      Rfc3610.HeaderLength(hdrLen)
    }
  }

  /** The header bytes hdr, not yet the whole header, are authenticated. */
  ghost predicate InHeader(e: Cipher, p: Params, hdr: seq<byte>, ctr: Block, buf: Block, cnt: nat)
  {
    && p.Good() && |hdr| < p.hdrLen
    && cnt == |p.Prefix()| + |hdr|
    && ctr == Rfc3610.CounterBlock(p.nonce, 0)
    && Holds(e, p.Start(e), p.Prefix() + hdr, buf, cnt % 16)
  }

  /** The whole header and the message bytes text are authenticated, and cnt message bytes
      are encrypted or decrypted. */
  ghost predicate InMessage(e: Cipher, p: Params, hdr: seq<byte>, text: seq<byte>,
                            ctr: Block, enc: Block, buf: Block, cnt: nat)
  {
    && p.Good() && |hdr| == p.hdrLen && |text| <= p.msgLen && cnt <= p.msgLen
    && Authenticated(e, p, hdr, text, buf)
    && CtrStream.Ready(e, p.nonce, ctr, enc, cnt, cnt % 16)
  }

  ghost predicate Authenticated(e: Cipher, p: Params, hdr: seq<byte>, text: seq<byte>, buf: Block)
    requires p.Good()
  {
    Holds(e, Rfc3610.AfterHeader(e, p.nonce, hdr, p.tagLen, p.msgLen), text, buf, |text| % 16)
  }

  lemma BeginHeader(e: Cipher, p: Params, ctr: Block, buf: Block, cnt: nat)
    requires p.Good() && p.hdrLen > 0
    requires ctr == Rfc3610.CounterBlock(p.nonce, 0)
    requires cnt == |p.Prefix()| && Holds(e, p.Start(e), p.Prefix(), buf, cnt)
    ensures InHeader(e, p, [], ctr, buf, cnt)
  {
    assert p.Prefix() + [] == p.Prefix();
  }

  lemma BeginMessage(e: Cipher, p: Params, ctr: Block, enc: Block, buf: Block)
    requires p.Good() && p.hdrLen == 0
    requires ctr == Rfc3610.CounterBlock(p.nonce, 0) && buf == p.Start(e)
    ensures InMessage(e, p, [], [], ctr, enc, buf, 0)
  {
    assert Pad(Rfc3610.HeaderLength(0) + []) == [];
  }

  /** Before the next piece of the header goes in. */
  lemma HeaderOpen(e: Cipher, p: Params, hdr: seq<byte>, ctr: Block, buf: Block, cnt: nat)
    requires InHeader(e, p, hdr, ctr, buf, cnt)
    ensures p.Good() && Holds(e, p.Start(e), p.Prefix() + hdr, buf, cnt % 16) && cnt == |p.Prefix()| + |hdr|
  {
  }

  /** After it went in and the header is still not complete. */
  lemma HeaderGrows(e: Cipher, p: Params, hdr: seq<byte>, piece: seq<byte>, ctr: Block, was: Block,
                    buf: Block, cnt: nat, pos: nat, after: Block)
    requires InHeader(e, p, hdr, ctr, was, cnt) && |hdr| + |piece| < p.hdrLen
    requires pos > 0 && Holds(e, p.Start(e), p.Prefix() + hdr + piece, buf, pos)
    requires after == if pos == 16 then e(buf) else buf
    ensures InHeader(e, p, hdr + piece, ctr, after, cnt + |piece|)
  {
    HoldsBuf(e, p.Start(e), p.Prefix() + hdr + piece, buf, pos);
    assert p.Prefix() + (hdr + piece) == p.Prefix() + hdr + piece;
    hide Holds;
  }

  /** After the last piece went in and the buffer was encrypted. */
  lemma HeaderDone(e: Cipher, p: Params, hdr: seq<byte>, piece: seq<byte>, ctr: Block, enc: Block, was: Block,
                   buf: Block, cnt: nat, pos: nat)
    requires InHeader(e, p, hdr, ctr, was, cnt) && |hdr| + |piece| == p.hdrLen
    requires pos > 0 && Holds(e, p.Start(e), p.Prefix() + hdr + piece, buf, pos)
    ensures InMessage(e, p, hdr + piece, [], ctr, enc, e(buf), 0)
  {
    assert p.Prefix() + (hdr + piece) == p.Prefix() + hdr + piece;
    WholeHeader(e, p, hdr + piece, buf, pos);
    ReadyAtZero(e, p.nonce, ctr, enc);
    hide Holds, Rfc3610.AfterHeader;
  }

  lemma ReadyAtZero(e: Cipher, nonce: seq<byte>, ctr: Block, enc: Block)
    requires Rfc3610.ValidNonce(nonce) && ctr == Rfc3610.CounterBlock(nonce, 0)
    ensures CtrStream.Ready(e, nonce, ctr, enc, 0, 0)
  {
  }

  lemma WholeHeader(e: Cipher, p: Params, hdr: seq<byte>, buf: Block, pos: nat)
    requires p.Good() && |hdr| == p.hdrLen > 0
    requires pos > 0 && Holds(e, p.Start(e), p.Prefix() + hdr, buf, pos)
    ensures Authenticated(e, p, hdr, [], e(buf))
  {
    hide Holds, EagerBuf, LazyBuf, Chain, Pad, Rfc3610.B0, Rfc3610.HeaderLength;
    HoldsBuf(e, p.Start(e), p.Prefix() + hdr, buf, pos);
    EagerBufIsChain(e, p.Start(e), p.Prefix() + hdr);
    HoldsEmpty(e, e(buf));
    assert e(buf) == Rfc3610.AfterHeader(e, p.nonce, hdr, p.tagLen, p.msgLen);
  }

  lemma HoldsEmpty(e: Cipher, x: Block)
    ensures Holds(e, x, [], x, 0)
  {
  }

  lemma TextOpen(e: Cipher, p: Params, hdr: seq<byte>, text: seq<byte>, ctr: Block, enc: Block, buf: Block, cnt: nat)
    requires InMessage(e, p, hdr, text, ctr, enc, buf, cnt)
    ensures p.Good()
    ensures Holds(e, Rfc3610.AfterHeader(e, p.nonce, hdr, p.tagLen, p.msgLen), text, buf, |text| % 16)
    ensures CtrStream.Ready(e, p.nonce, ctr, enc, cnt, cnt % 16)
    ensures |text| <= p.msgLen && cnt <= p.msgLen
  {
  }

  lemma TextTaken(e: Cipher, p: Params, hdr: seq<byte>, text: seq<byte>, piece: seq<byte>, ctr: Block, enc: Block,
                  was: Block, buf: Block, cnt: nat, pos: nat, after: Block)
    requires InMessage(e, p, hdr, text, ctr, enc, was, cnt) && |text| + |piece| <= p.msgLen
    requires Holds(e, Rfc3610.AfterHeader(e, p.nonce, hdr, p.tagLen, p.msgLen), text + piece, buf, pos)
    requires if piece == [] then pos == |text| % 16 else pos > 0
    requires after == if pos == 16 then e(buf) else buf
    ensures InMessage(e, p, hdr, text + piece, ctr, enc, after, cnt)
  {
    var x: Block := Rfc3610.AfterHeader(e, p.nonce, hdr, p.tagLen, p.msgLen);
    if piece == [] {
      assert text + piece == text;
    } else {
      HoldsBuf(e, x, text + piece, buf, pos);
    }
  }

  lemma Crypted(e: Cipher, p: Params, hdr: seq<byte>, text: seq<byte>, ctr: Block, enc: Block, buf: Block, cnt: nat,
                ctr': Block, enc': Block, k: nat)
    requires InMessage(e, p, hdr, text, ctr, enc, buf, cnt) && cnt + k <= p.msgLen
    requires CtrStream.Ready(e, p.nonce, ctr', enc', cnt + k, (cnt + k) % 16)
    ensures InMessage(e, p, hdr, text, ctr', enc', buf, cnt + k)
  {
  }

  /** At the end of the message, after the closing encryption where the code does it, the
      buffer holds the CBC-MAC value of RFC 3610. */
  lemma TextComplete(e: Cipher, p: Params, hdr: seq<byte>, text: seq<byte>, ctr: Block, enc: Block, buf: Block,
                     cnt: nat)
    requires InMessage(e, p, hdr, text, ctr, enc, buf, cnt) && |text| == p.msgLen
    ensures Chain(e, Rfc3610.AfterHeader(e, p.nonce, hdr, p.tagLen, |text|), Pad(text))
         == if |text| % 16 == 0 then buf else e(buf)
  {
    EagerBufIsChain(e, Rfc3610.AfterHeader(e, p.nonce, hdr, p.tagLen, p.msgLen), text);
  }

  /** The counter block with its counter cleared again. */
  lemma CounterCleared(nonce: seq<byte>, i: nat)
    requires Rfc3610.ValidNonce(nonce)
    ensures var c, l := Rfc3610.CounterBlock(nonce, i), Rfc3610.LengthSize(nonce);
            c[0] == ToByte(l - 1) && c[..16 - l] + BigEndian(0, l) == Rfc3610.CounterBlock(nonce, 0)
  {
  }
}
