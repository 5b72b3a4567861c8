/** The incremental CCM implementation: one context object, any number of calls. */
module Ccm {
  import opened Bytes
  import CbcStream
  import CcmStart
  import opened CcmState
  import Rfc3610

  const RETURN_GOOD := 0
  const RETURN_WARN := 1
  const RETURN_ERROR := -1
  const CCM_BAD_AUTH_FIELD_LENGTH := -3
  const CCM_BAD_NONCE_LENGTH := -4
  const CCM_BAD_AUTH_CALL := -5
  const CCM_AUTH_LENGTH_ERROR := -6
  const CCM_MSG_LENGTH_ERROR := -7

  const AUTH_STATE := 11
  const MSG_STATE := 12

  /** The nonce length in use: the one given, or, when 0 is given, the longest that still
      leaves room for the message length. */
  function NonceLength(ivLen: nat, msgLen: nat): nat {
    if ivLen != 0 then ivLen
    else if msgLen >= 0x100_0000_0000_0000 then 7
    else if msgLen >= 0x1_0000_0000_0000 then 8
    else if msgLen >= 0x100_0000_0000 then 9
    else if msgLen >= 0x1_0000_0000 then 10
    else if msgLen >= 0x100_0000 then 11
    else if msgLen >= 0x1_0000 then 12
    else 13
  }

  predicate BadTagLength(tagLen: nat) {
    tagLen < 4 || tagLen > 16 || tagLen % 2 == 1
  }

  predicate BadIvLength(ivLen: nat) {
    (ivLen != 0 && ivLen < 7) || ivLen > 13
  }

  class Context {
    const aes: Cipher
    const ctrVal: array<byte>
    const encCtr: array<byte>
    const cbcBuf: array<byte>
    var hdrLen: nat
    var msgLen: nat
    var hdrLim: nat
    var cnt: nat
    var txtAcnt: nat
    var tagLen: nat
    var state: int

    // What the context stands for: the nonce, the header and message bytes authenticated so
    // far, and whether the tag has been taken.
    ghost var nonce: seq<byte>
    ghost var hdr: seq<byte>
    ghost var text: seq<byte>
    ghost var sealed: bool

    ghost predicate Shape()
    {
      && ctrVal.Length == encCtr.Length == cbcBuf.Length == 16
      && ctrVal != encCtr && ctrVal != cbcBuf && encCtr != cbcBuf
    }

    ghost function P(): Params
      reads this
    {
      Params(nonce, hdrLen, msgLen, tagLen)
    }

    /** Part of the header is in. */
    ghost predicate Authenticating()
      requires Shape()
      reads this, ctrVal, cbcBuf
    {
      && !sealed && text == [] && hdrLim == |P().Prefix()| + hdrLen
      && InHeader(aes, P(), hdr, ctrVal[..], cbcBuf[..], cnt)
    }

    /** The whole header and part of the message are in. */
    ghost predicate Messaging()
      requires Shape()
      reads this, ctrVal, encCtr, cbcBuf
    {
      && !sealed && txtAcnt == |text|
      && InMessage(aes, P(), hdr, text, ctrVal[..], encCtr[..], cbcBuf[..], cnt)
    }

    ghost predicate Valid()
      reads this, ctrVal, encCtr, cbcBuf
    {
      && Shape()
      && (state < 0 || state == RETURN_GOOD || state == AUTH_STATE || state == MSG_STATE)
      && (state == AUTH_STATE ==> Authenticating())
      && (state == MSG_STATE ==> sealed || Messaging())
    }

    /** A message was begun, and its tag is not taken yet. */
    ghost predicate Started()
      reads this, ctrVal, encCtr, cbcBuf
    {
      Valid() && state != RETURN_GOOD && (state == MSG_STATE ==> !sealed)
    }

    constructor (aes: Cipher)
      ensures Valid() && this.aes == aes && state == RETURN_GOOD
      ensures fresh(ctrVal) && fresh(encCtr) && fresh(cbcBuf)
    {
      this.aes := aes;
      ctrVal, encCtr, cbcBuf := new byte[16], new byte[16], new byte[16];
      hdrLen, msgLen, hdrLim, cnt, txtAcnt, tagLen := 0, 0, 0, 0, 0, 0;
      state := RETURN_GOOD;
      nonce, hdr, text, sealed := [], [], [], false;
    }

    /** Builds B_0 and the counter block, and takes in the encoding of the header length. */
    method InitMessage(iv: seq<byte>, ivLen: nat, hdrLen: nat, msgLen: nat, tagLen: nat) returns (ret: int)
      requires Valid()
      requires !BadIvLength(ivLen) ==> NonceLength(ivLen, msgLen) <= |iv|
      modifies this, ctrVal, encCtr, cbcBuf
      ensures Valid()
      ensures ret == (if BadTagLength(tagLen) then CCM_BAD_AUTH_FIELD_LENGTH
                      else if BadIvLength(ivLen) then CCM_BAD_NONCE_LENGTH
                      else RETURN_GOOD)
      ensures ret == (if tagLen < 4 || tagLen > 16 || tagLen % 2 == 1 then -3
                      else if ivLen != 0 && (ivLen < 7 || ivLen > 13) then -4 else 0)
      ensures if ret != RETURN_GOOD then state == ret
              else (&& state == (if hdrLen > 0 then AUTH_STATE else MSG_STATE)
                    && P() == Params(iv[..NonceLength(ivLen, msgLen)], hdrLen, msgLen, tagLen)
                    && hdr == [] && text == [] && !sealed && (hdrLen == 0 ==> cnt == 0))
    {
      hide InHeader, InMessage;
      if BadTagLength(tagLen) {
        ret := CCM_BAD_AUTH_FIELD_LENGTH;
        state := ret;
      } else if BadIvLength(ivLen) {
        ret := CCM_BAD_NONCE_LENGTH;
        state := ret;
      } else {
        SetUp(iv, NonceLength(ivLen, msgLen), hdrLen, msgLen, tagLen);
        ret := RETURN_GOOD;
      }
    }

    method SetUp(iv: seq<byte>, n: nat, hdrLen: nat, msgLen: nat, tagLen: nat)
      requires Shape() && 7 <= n <= 13 && n <= |iv| && Rfc3610.ValidTagLength(tagLen)
      modifies this, ctrVal, encCtr, cbcBuf
      ensures Valid()
      ensures state == (if hdrLen > 0 then AUTH_STATE else MSG_STATE)
      ensures P() == Params(iv[..n], hdrLen, msgLen, tagLen)
      ensures hdr == [] && text == [] && !sealed && (hdrLen == 0 ==> cnt == 0)
    {
      hide InHeader, InMessage, Rfc3610.HeaderLength;
      var k := CcmStart.FirstBlocks(aes, ctrVal, cbcBuf, encCtr[..], iv, n, hdrLen, msgLen, tagLen);
      this.hdrLen, this.msgLen, this.tagLen := hdrLen, msgLen, tagLen;
      nonce, hdr, text, sealed := iv[..n], [], [], false;
      hdrLim, cnt, txtAcnt := hdrLen + k, k, k;
      state := if hdrLen != 0 then AUTH_STATE else MSG_STATE;
      assert hdrLen == 0 ==> k == 0 by {
        NoHeader();
      }
    }

    lemma NoHeader()
      ensures Rfc3610.HeaderLength(0) == []
    {
    }

    /** Authenticates the next piece of the header. */
    method AuthHeader(piece: seq<byte>) returns (ret: int)
      requires Started() && |piece| < CbcStream.MAX_CALL
      modifies this`hdr, this`cnt, this`txtAcnt, this`state, cbcBuf
      ensures Started()
      ensures ret == (if piece == [] then RETURN_GOOD
                      else if old(state) < 0 then old(state)
                      else if old(state) == MSG_STATE then CCM_BAD_AUTH_CALL
                      else if |old(hdr)| + |piece| > hdrLen then CCM_AUTH_LENGTH_ERROR
                      else RETURN_GOOD)
      ensures if piece == [] then state == old(state) && hdr == old(hdr) && cnt == old(cnt)
              else if ret != RETURN_GOOD then state == ret
              else (&& hdr == old(hdr) + piece
                    && state == (if |hdr| == hdrLen then MSG_STATE else AUTH_STATE)
                    && (state == MSG_STATE ==> cnt == 0))
    {
      hide InMessage;
      if piece == [] {
        ret := RETURN_GOOD;
      } else if state < 0 {
        ret := state;
      } else if state != AUTH_STATE {
        ret := CCM_BAD_AUTH_CALL;
        state := ret;
      } else if cnt + |piece| > hdrLim {
        ret := CCM_AUTH_LENGTH_ERROR;
        state := ret;
      } else {
        HeaderPiece(piece);
        ret := RETURN_GOOD;
      }
    }

    method HeaderPiece(piece: seq<byte>)
      requires Valid() && state == AUTH_STATE && piece != [] && |piece| < CbcStream.MAX_CALL
      requires cnt + |piece| <= hdrLim
      modifies this`hdr, this`cnt, this`txtAcnt, this`state, cbcBuf
      ensures Valid() && hdr == old(hdr) + piece
      ensures state == (if |hdr| == hdrLen then MSG_STATE else AUTH_STATE)
      ensures state == MSG_STATE ==> cnt == 0
    {
      hide InHeader, InMessage, Rfc3610.HeaderLength, Rfc3610.ValidNonce, Rfc3610.ValidTagLength;
      HeaderOpen(aes, P(), hdr, ctrVal[..], cbcBuf[..], cnt);
      CcmStart.HeaderPiece(aes, cbcBuf, piece, cnt, hdrLim, ctrVal[..], encCtr[..], P(), hdr);
      cnt, hdr := cnt + |piece|, hdr + piece;
      if cnt == hdrLim {
        state, cnt, txtAcnt := MSG_STATE, 0, 0;
      }
    }

    /** Authenticates the next piece of the plaintext. */
    method AuthData(piece: seq<byte>) returns (ret: int)
      requires Started() && |piece| < CbcStream.MAX_CALL
      modifies this`text, this`txtAcnt, this`state, cbcBuf
      ensures Started()
      ensures ret == (if old(state) < 0 then old(state)
                      else if old(state) == AUTH_STATE then CCM_AUTH_LENGTH_ERROR
                      else if |old(text)| + |piece| > msgLen then CCM_MSG_LENGTH_ERROR
                      else RETURN_GOOD)
      ensures if ret != RETURN_GOOD then state == ret && text == old(text)
              else state == MSG_STATE && text == old(text) + piece
    {
      hide InHeader;
      if state < 0 {
        ret := state;
      } else if state == AUTH_STATE {
        ret := CCM_AUTH_LENGTH_ERROR;
        state := ret;
      } else if txtAcnt + |piece| > msgLen {
        ret := CCM_MSG_LENGTH_ERROR;
        state := ret;
      } else {
        TextPiece(piece);
        ret := RETURN_GOOD;
      }
    }

    method TextPiece(piece: seq<byte>)
      requires Valid() && state == MSG_STATE && !sealed && |piece| < CbcStream.MAX_CALL
      requires |text| + |piece| <= msgLen
      modifies this`text, this`txtAcnt, cbcBuf
      ensures Valid() && text == old(text) + piece
    {
      hide InHeader, InMessage;
      CcmStart.TextPiece(aes, cbcBuf, piece, txtAcnt % 16, ctrVal[..], encCtr[..], P(), hdr, text, cnt);
      txtAcnt, text := txtAcnt + |piece|, text + piece;
    }

    /** Encrypts or decrypts the next piece of the message in place. */
    method CryptData(data: array<byte>) returns (ret: int)
      requires Started() && data.Length < CbcStream.MAX_CALL
      requires data != ctrVal && data != encCtr && data != cbcBuf
      modifies this`cnt, this`state, ctrVal, encCtr, data
      ensures Started()
      ensures ret == (if old(state) < 0 then old(state)
                      else if old(state) == AUTH_STATE then CCM_AUTH_LENGTH_ERROR
                      else if old(cnt) + data.Length > msgLen then CCM_MSG_LENGTH_ERROR
                      else RETURN_GOOD)
      ensures if ret != RETURN_GOOD then state == ret && cnt == old(cnt) && data[..] == old(data[..])
              else (&& state == MSG_STATE && cnt == old(cnt) + data.Length && P().Good()
                    && data[..] == Rfc3610.CryptFrom(aes, nonce, old(cnt), old(data[..])))
    {
      hide InHeader;
      if state < 0 {
        ret := state;
      } else if state == AUTH_STATE {
        ret := CCM_AUTH_LENGTH_ERROR;
        state := ret;
      } else if cnt + data.Length > msgLen {
        ret := CCM_MSG_LENGTH_ERROR;
        state := ret;
      } else if data.Length == 0 {
        ret := RETURN_GOOD;
      } else {
        CryptPiece(data);
        ret := RETURN_GOOD;
      }
    }

    method CryptPiece(data: array<byte>)
      requires Valid() && state == MSG_STATE && !sealed && data.Length < CbcStream.MAX_CALL
      requires data != ctrVal && data != encCtr && data != cbcBuf
      requires cnt + data.Length <= msgLen
      modifies this`cnt, ctrVal, encCtr, data
      ensures Valid() && cnt == old(cnt) + data.Length && P().Good()
      ensures data[..] == Rfc3610.CryptFrom(aes, nonce, old(cnt), old(data[..]))
    {
      hide InHeader, InMessage;
      CcmStart.CryptPiece(aes, ctrVal, encCtr, data, cnt, cbcBuf[..], P(), hdr, text);
      cnt := cnt + data.Length;
    }

    /** Closes the message and writes the tag. */
    method ComputeTag(tag: array<byte>, tagLen: nat) returns (ret: int)
      requires Started() && (tagLen == this.tagLen && state >= 0 ==> tagLen <= tag.Length)
      requires tag != ctrVal && tag != encCtr && tag != cbcBuf
      modifies this`state, this`sealed, encCtr, cbcBuf, tag
      ensures Valid()
      ensures ret == (if old(state) < 0 then old(state)
                      else if tagLen != this.tagLen || old(state) == AUTH_STATE then CCM_AUTH_LENGTH_ERROR
                      else if |text| != cnt && cnt > 0 then RETURN_ERROR
                      else if cnt < msgLen then CCM_MSG_LENGTH_ERROR
                      else RETURN_GOOD)
      ensures if ret != RETURN_GOOD then tag[..] == old(tag[..])
              else (&& P().Good() && cnt == |text| == msgLen && |hdr| == hdrLen && tagLen <= tag.Length
                    && tag[..tagLen] == Rfc3610.Tag(aes, nonce, hdr, text, tagLen)
                    && tag[tagLen..] == old(tag[tagLen..]))
    {
      if state < 0 {
        ret := state;
      } else if tagLen != this.tagLen || state == AUTH_STATE {
        ret := CCM_AUTH_LENGTH_ERROR;
        state := ret;
      } else if txtAcnt != cnt && cnt > 0 {
        ret := RETURN_ERROR;
      } else if cnt < msgLen || cnt + tagLen > msgLen + this.tagLen {
        ret := CCM_MSG_LENGTH_ERROR;
        state := ret;
      } else {
        TextOpen(aes, P(), hdr, text, ctrVal[..], encCtr[..], cbcBuf[..], cnt);
        sealed := true;
        CcmStart.WriteTag(aes, ctrVal, encCtr, cbcBuf, tag, cnt, tagLen, P(), hdr, text);
        ret := if cnt == txtAcnt then RETURN_GOOD else RETURN_WARN;
      }
    }

    /** Authenticates, then encrypts. */
    method Encrypt(data: array<byte>)
      requires Started() && data.Length < CbcStream.MAX_CALL
      requires data != ctrVal && data != encCtr && data != cbcBuf
      modifies this`text, this`txtAcnt, this`cnt, this`state, ctrVal, encCtr, cbcBuf, data
      ensures Started()
      ensures old(state) < 0 ==> state == old(state) && data[..] == old(data[..])
      ensures old(state) == MSG_STATE && |old(text)| == old(cnt) && old(cnt) + data.Length <= msgLen ==>
                && state == MSG_STATE && text == old(text) + old(data[..]) && cnt == |text| && P().Good()
                && data[..] == Rfc3610.CryptFrom(aes, nonce, old(cnt), old(data[..]))
    {
      hide InHeader, InMessage;
      var _ := AuthData(data[..]);
      var _ := CryptData(data);
    }

    /** Decrypts, then authenticates the result. */
    method Decrypt(data: array<byte>)
      requires Started() && data.Length < CbcStream.MAX_CALL
      requires data != ctrVal && data != encCtr && data != cbcBuf
      modifies this`text, this`txtAcnt, this`cnt, this`state, ctrVal, encCtr, cbcBuf, data
      ensures Started()
      ensures old(state) < 0 ==> state == old(state) && data[..] == old(data[..])
      ensures old(state) == MSG_STATE && |old(text)| == old(cnt) && old(cnt) + data.Length <= msgLen ==>
                && state == MSG_STATE && text == old(text) + data[..] && cnt == |text| && P().Good()
                && data[..] == Rfc3610.CryptFrom(aes, nonce, old(cnt), old(data[..]))
    {
      hide InHeader, InMessage;
      var _ := CryptData(data);
      var _ := AuthData(data[..]);
    }

    /** The two calls that open a whole-message operation; their results are not looked at. */
    method Begin(iv: seq<byte>, ivLen: nat, hdr: seq<byte>, msgLen: nat, tagLen: nat)
      requires Valid() && |hdr| < CbcStream.MAX_CALL
      requires !BadIvLength(ivLen) ==> NonceLength(ivLen, msgLen) <= |iv|
      modifies this, ctrVal, encCtr, cbcBuf
      ensures Started()
      ensures if BadTagLength(tagLen) || BadIvLength(ivLen) then state < 0
              else (&& state == MSG_STATE && cnt == 0 && text == [] && this.hdr == hdr
                    && P() == Params(iv[..NonceLength(ivLen, msgLen)], |hdr|, msgLen, tagLen))
    {
      hide InHeader, InMessage;
      var _ := InitMessage(iv, ivLen, |hdr|, msgLen, tagLen);
      var _ := AuthHeader(hdr);
      assert [] + hdr == hdr;
    }

    /** Encrypts a whole message in place and writes its tag. */
    method EncryptMessage(iv: seq<byte>, ivLen: nat, hdr: seq<byte>, msg: array<byte>, tag: array<byte>, tagLen: nat)
      returns (ret: int)
      requires Valid() && |hdr| < CbcStream.MAX_CALL && msg.Length < CbcStream.MAX_CALL
      requires !BadIvLength(ivLen) ==> NonceLength(ivLen, msg.Length) <= |iv|
      requires !BadTagLength(tagLen) ==> tagLen <= tag.Length
      requires msg != ctrVal && msg != encCtr && msg != cbcBuf
      requires tag != ctrVal && tag != encCtr && tag != cbcBuf && tag != msg
      modifies this, ctrVal, encCtr, cbcBuf, msg, tag
      ensures Valid()
      ensures if BadTagLength(tagLen) || BadIvLength(ivLen)
              then ret == RETURN_ERROR && msg[..] == old(msg[..]) && tag[..] == old(tag[..])
              else (var n := iv[..NonceLength(ivLen, msg.Length)];
                    && ret == RETURN_GOOD
                    && msg[..] == Rfc3610.Crypt(aes, n, old(msg[..]))
                    && tag[..tagLen] == Rfc3610.Tag(aes, n, hdr, old(msg[..]), tagLen)
                    && tag[tagLen..] == old(tag[tagLen..]))
    {
      hide Valid, Rfc3610.CryptFrom, Rfc3610.Tag;
      Begin(iv, ivLen, hdr, msg.Length, tagLen);
      Encrypt(msg);
      assert [] + old(msg[..]) == old(msg[..]);
      ret := ComputeTag(tag, tagLen);
      ret := if ret != RETURN_GOOD then RETURN_ERROR else RETURN_GOOD;
    }

    /** Decrypts a whole message in place and compares its tag with the one given. */
    method DecryptMessage(iv: seq<byte>, ivLen: nat, hdr: seq<byte>, msg: array<byte>, tag: seq<byte>, tagLen: nat)
      returns (ret: int)
      requires Valid() && |hdr| < CbcStream.MAX_CALL && msg.Length < CbcStream.MAX_CALL
      requires !BadIvLength(ivLen) ==> NonceLength(ivLen, msg.Length) <= |iv|
      requires !BadTagLength(tagLen) ==> tagLen <= |tag|
      requires msg != ctrVal && msg != encCtr && msg != cbcBuf
      modifies this, ctrVal, encCtr, cbcBuf, msg
      ensures Valid()
      ensures if BadTagLength(tagLen) || BadIvLength(ivLen)
              then ret == RETURN_ERROR && msg[..] == old(msg[..])
              else (var n := iv[..NonceLength(ivLen, msg.Length)];
                    && msg[..] == Rfc3610.Crypt(aes, n, old(msg[..]))
                    && ret == (if tag[..tagLen] == Rfc3610.Tag(aes, n, hdr, msg[..], tagLen)
                               then RETURN_GOOD else RETURN_ERROR))
    {
      hide Valid, Rfc3610.CryptFrom, Rfc3610.Tag;
      var localTag := new byte[16];
      Begin(iv, ivLen, hdr, msg.Length, tagLen);
      Decrypt(msg);
      assert [] + msg[..] == msg[..];
      var rr := ComputeTag(localTag, tagLen);
      ret := if rr != RETURN_GOOD || tag[..tagLen] != localTag[..tagLen] then RETURN_ERROR else RETURN_GOOD;
    }
  }
}
