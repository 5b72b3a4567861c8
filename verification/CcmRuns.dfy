/** Whole runs of the CCM context: messages handed over in any pieces, a round trip, and the
    link-layer encryption built on it. */
module CcmRuns {
  import opened Bytes
  import opened Ccm
  import opened Cuttings
  import CbcStream
  import CcmState
  import Rfc3610

  ghost predicate Callable(ps: seq<seq<byte>>) {
    forall i | 0 <= i < |ps| :: |ps[i]| < CbcStream.MAX_CALL
  }

  /** Hands the header over piece by piece. */
  method AuthHeaderPieces(c: Context, ps: seq<seq<byte>>)
    requires c.Started() && Callable(ps) && c.hdr == [] && c.hdrLen == |Joined(ps)|
    requires c.state == if c.hdrLen > 0 then AUTH_STATE else MSG_STATE
    requires c.state == MSG_STATE ==> c.cnt == 0
    requires c.text == []
    modifies c`hdr, c`cnt, c`txtAcnt, c`state, c.cbcBuf
    ensures c.Started() && c.state == MSG_STATE && c.cnt == 0 && c.hdr == Joined(ps)
  {
    hide Context.Valid;
    var i := 0;
    while i < |ps|
      invariant i <= |ps| && c.Started() && c.hdr == Joined(ps[..i])
      invariant c.state == if |c.hdr| < c.hdrLen then AUTH_STATE else MSG_STATE
      invariant c.state == MSG_STATE ==> c.cnt == 0
    {
      JoinedNext(ps, i);
      assert c.state == MSG_STATE ==> ps[i] == [];
      assert ps[i] == [] ==> c.hdr + ps[i] == c.hdr;
      var _ := c.AuthHeader(ps[i]);
      i := i + 1;
    }
    assert ps[..i] == ps;
  }

  /** Encrypts the message piece by piece; out collects what the calls leave in the buffers. */
  method EncryptPieces(c: Context, ps: seq<seq<byte>>) returns (out: seq<byte>)
    requires c.Started() && Callable(ps) && c.msgLen == |Joined(ps)|
    requires c.state == MSG_STATE && c.cnt == 0 && c.text == [] && c.P().Good()
    modifies c`text, c`txtAcnt, c`cnt, c`state, c.ctrVal, c.encCtr, c.cbcBuf
    ensures c.Started() && c.state == MSG_STATE && c.text == Joined(ps) && c.cnt == c.msgLen
    ensures out == Rfc3610.Crypt(c.aes, c.nonce, Joined(ps))
  {
    hide Context.Valid, Rfc3610.CryptFrom;
    var i := 0;
    out := [];
    Rfc3610.CryptNothing(c.aes, c.nonce);
    while i < |ps|
      invariant i <= |ps| && c.Started() && c.state == MSG_STATE && c.P().Good()
      invariant c.text == Joined(ps[..i]) && c.cnt == |c.text|
      invariant out == Rfc3610.CryptFrom(c.aes, c.nonce, 0, Joined(ps[..i]))
    {
      JoinedNext(ps, i);
      Rfc3610.CryptCut(c.aes, c.nonce, 0, Joined(ps[..i]), ps[i]);
      var data := new byte[|ps[i]|](k requires 0 <= k < |ps[i]| => ps[i][k]);
      assert data[..] == ps[i];
      c.Encrypt(data);
      out := out + data[..];
      i := i + 1;
    }
    assert ps[..i] == ps;
  }

  /** Decrypts the message piece by piece. */
  method DecryptPieces(c: Context, ps: seq<seq<byte>>) returns (out: seq<byte>)
    requires c.Started() && Callable(ps) && c.msgLen == |Joined(ps)|
    requires c.state == MSG_STATE && c.cnt == 0 && c.text == [] && c.P().Good()
    modifies c`text, c`txtAcnt, c`cnt, c`state, c.ctrVal, c.encCtr, c.cbcBuf
    ensures c.Started() && c.state == MSG_STATE && c.text == out && c.cnt == c.msgLen
    ensures out == Rfc3610.Crypt(c.aes, c.nonce, Joined(ps))
  {
    hide Context.Valid, Rfc3610.CryptFrom;
    var i := 0;
    out := [];
    Rfc3610.CryptNothing(c.aes, c.nonce);
    while i < |ps|
      invariant i <= |ps| && c.Started() && c.state == MSG_STATE && c.P().Good()
      invariant c.text == out && c.cnt == |out| == |Joined(ps[..i])|
      invariant out == Rfc3610.CryptFrom(c.aes, c.nonce, 0, Joined(ps[..i]))
    {
      JoinedNext(ps, i);
      Rfc3610.CryptCut(c.aes, c.nonce, 0, Joined(ps[..i]), ps[i]);
      var data := new byte[|ps[i]|](k requires 0 <= k < |ps[i]| => ps[i][k]);
      assert data[..] == ps[i];
      c.Decrypt(data);
      out := out + data[..];
      i := i + 1;
    }
    assert ps[..i] == ps;
  }

  /** The lengths a caller may choose. */
  ghost predicate Lengths(iv: seq<byte>, ivLen: nat, msgLen: nat, tagLen: nat) {
    !BadTagLength(tagLen) && !BadIvLength(ivLen) && NonceLength(ivLen, msgLen) <= |iv|
  }

  ghost function NonceOf(iv: seq<byte>, ivLen: nat, msgLen: nat, tagLen: nat): (n: seq<byte>)
    requires Lengths(iv, ivLen, msgLen, tagLen)
    ensures Rfc3610.ValidNonce(n) && Rfc3610.ValidTagLength(tagLen)
  {
    iv[..NonceLength(ivLen, msgLen)]
  }

  /** The two contexts and the message share no memory. */
  ghost predicate Apart(c: Context, d: Context, msg: array<byte>) {
    && c != d && c.ctrVal != d.ctrVal && c.ctrVal != d.encCtr && c.ctrVal != d.cbcBuf
    && c.encCtr != d.ctrVal && c.encCtr != d.encCtr && c.encCtr != d.cbcBuf
    && c.cbcBuf != d.ctrVal && c.cbcBuf != d.encCtr && c.cbcBuf != d.cbcBuf
    && msg != c.ctrVal && msg != c.encCtr && msg != c.cbcBuf && msg != d.ctrVal && msg != d.encCtr && msg != d.cbcBuf
  }

  /** A message encrypted in any pieces gives the ciphertext and the tag of RFC 3610. */
  method EncryptInPieces(c: Context, iv: seq<byte>, ivLen: nat, hs: seq<seq<byte>>, ps: seq<seq<byte>>, tagLen: nat)
    returns (out: seq<byte>, tag: seq<byte>)
    requires c.Valid() && Callable(hs) && Callable(ps)
    requires Lengths(iv, ivLen, |Joined(ps)|, tagLen)
    modifies c, c.ctrVal, c.encCtr, c.cbcBuf
    ensures var n := NonceOf(iv, ivLen, |Joined(ps)|, tagLen);
            && out == Rfc3610.Crypt(c.aes, n, Joined(ps))
            && tag == Rfc3610.Tag(c.aes, n, Joined(hs), Joined(ps), tagLen)
  {
    hide Context.Valid, Rfc3610.CryptFrom, Rfc3610.Tag;
    var _ := c.InitMessage(iv, ivLen, |Joined(hs)|, |Joined(ps)|, tagLen);
    AuthHeaderPieces(c, hs);
    out := EncryptPieces(c, ps);
    var t := new byte[tagLen];
    var _ := c.ComputeTag(t, tagLen);
    tag := t[..];
    assert t[..tagLen] == t[..];
  }

  /** Decrypting in any pieces recovers the message, and gives the tag of the message. */
  method DecryptInPieces(c: Context, iv: seq<byte>, ivLen: nat, hs: seq<seq<byte>>, ps: seq<seq<byte>>, tagLen: nat)
    returns (out: seq<byte>, tag: seq<byte>)
    requires c.Valid() && Callable(hs) && Callable(ps)
    requires Lengths(iv, ivLen, |Joined(ps)|, tagLen)
    modifies c, c.ctrVal, c.encCtr, c.cbcBuf
    ensures var n := NonceOf(iv, ivLen, |Joined(ps)|, tagLen);
            && Joined(ps) == Rfc3610.Crypt(c.aes, n, out)
            && tag == Rfc3610.Tag(c.aes, n, Joined(hs), out, tagLen)
  {
    hide Context.Valid, Rfc3610.CryptFrom, Rfc3610.Tag;
    var _ := c.InitMessage(iv, ivLen, |Joined(hs)|, |Joined(ps)|, tagLen);
    AuthHeaderPieces(c, hs);
    out := DecryptPieces(c, ps);
    var t := new byte[tagLen];
    var _ := c.ComputeTag(t, tagLen);
    tag := t[..];
    assert t[..tagLen] == t[..];
    Rfc3610.CryptTwice(c.aes, c.nonce, Joined(ps));
  }

  /** Encrypting and then decrypting with the same inputs restores the message, and the
      result is good exactly when the tag presented is the one that was produced. */
  method SealAndOpen(c: Context, d: Context, iv: seq<byte>, ivLen: nat, hdr: seq<byte>, msg: array<byte>, tagLen: nat,
                     presented: seq<byte>)
    returns (tag: seq<byte>, ret: int)
    requires c.Valid() && d.Valid() && c.aes == d.aes
    requires |hdr| < CbcStream.MAX_CALL && msg.Length < CbcStream.MAX_CALL
    requires Lengths(iv, ivLen, msg.Length, tagLen) && |presented| == tagLen && Apart(c, d, msg)
    modifies c, c.ctrVal, c.encCtr, c.cbcBuf, d, d.ctrVal, d.encCtr, d.cbcBuf, msg
    ensures msg[..] == old(msg[..])
    ensures ret == if presented == tag then RETURN_GOOD else RETURN_ERROR
    ensures tag == Rfc3610.Tag(c.aes, NonceOf(iv, ivLen, msg.Length, tagLen), hdr, msg[..], tagLen)
  {
    hide Rfc3610.CryptFrom, Rfc3610.Tag, CcmState.InHeader, CcmState.InMessage;
    var t := new byte[tagLen];
    var _ := c.EncryptMessage(iv, ivLen, hdr, msg, t, tagLen);
    tag := t[..tagLen];
    Rfc3610.CryptTwice(c.aes, NonceOf(iv, ivLen, msg.Length, tagLen), old(msg[..]));
    ret := d.DecryptMessage(iv, ivLen, hdr, msg, presented, tagLen);
    assert presented[..tagLen] == presented;
  }
}
