/** Link-layer packet encryption: CCM under a session key and a packet nonce. */
module LinkLayer {
  import opened Bytes
  import opened Ccm
  import Rfc3610

  /** Packet counter, direction bit, IV. */
  function PacketNonce(counter: nat, isMaster: bool, iv: seq<byte>): seq<byte> {
    LittleEndian32(counter) + [if isMaster then 0x80 else 0] + iv
  }

  /** The session key: the diversifier under the long-term key, all byte-reversed. */
  function SessionKey(aes: Aes, skdm: seq<byte>, skds: seq<byte>, ltk: Block): Block
    requires |skdm| == |skds| == 8
  {
    aes(Reverse(ltk), Reverse(skdm + skds))
  }

  /** k is s from its last byte to its first. */
  ghost predicate Turned(k: Block, s: Block) {
    forall i :: 0 <= i < 16 ==> k[i] == s[15 - i]
  }

  /** x holds the responder's half of the diversifier in its first 8 bytes and the initiator's
      in its last 8, each from its last byte to its first. */
  ghost predicate Diversifier(x: Block, skdm: seq<byte>, skds: seq<byte>)
    requires |skdm| == |skds| == 8
  {
    forall i :: 0 <= i < 16 ==> x[i] == if i < 8 then skds[7 - i] else skdm[15 - i]
  }

  /** The session key, byte by byte. */
  lemma SessionKeyBytes(aes: Aes, skdm: seq<byte>, skds: seq<byte>, ltk: Block, k: Block, x: Block)
    requires |skdm| == |skds| == 8 && Turned(k, ltk) && Diversifier(x, skdm, skds)
    ensures SessionKey(aes, skdm, skds, ltk) == aes(k, x)
  {
    assert k == Reverse(ltk);
    assert x == Reverse(skdm + skds);
  }

  /** The counter, lowest byte first, the direction, and the IV. */
  ghost predicate IsNonce(n: seq<byte>, counter: nat, isMaster: bool, iv: seq<byte>) {
    && |n| == 5 + |iv|
    && n[0] as int == counter % 256 && n[1] as int == counter / 256 % 256
    && n[2] as int == counter / 65536 % 256 && n[3] as int == counter / 16777216 % 256
    && n[4] == (if isMaster then 0x80 else 0)
    && forall i :: 0 <= i < |iv| ==> n[5 + i] == iv[i]
  }

  lemma NonceBytes(counter: nat, isMaster: bool, iv: seq<byte>)
    ensures IsNonce(PacketNonce(counter, isMaster, iv), counter, isMaster, iv)
  {
  }

  class Link {
    const ctx: Context
    const nonce: array<byte>
    ghost const iv: seq<byte>

    ghost predicate Valid()
      reads this, ctx, ctx.ctrVal, ctx.encCtr, ctx.cbcBuf, nonce
    {
      && ctx.Valid() && nonce.Length == 13 && nonce[5..] == iv
      && nonce != ctx.ctrVal && nonce != ctx.encCtr && nonce != ctx.cbcBuf
    }

    /** data is a buffer of the caller's. */
    ghost predicate Foreign(data: array<byte>)
      reads this
    {
      data != nonce && data != ctx.ctrVal && data != ctx.encCtr && data != ctx.cbcBuf
    }

    constructor (aes: Aes, skdm: seq<byte>, skds: seq<byte>, ltk: Block, ivm: seq<byte>, ivs: seq<byte>)
      requires |skdm| == |skds| == 8 && |ivm| == |ivs| == 4
      ensures Valid() && iv == ivm + ivs
      ensures forall b :: ctx.aes(b) == aes(SessionKey(aes, skdm, skds, ltk), b)
      ensures forall k: Block, x: Block, b: Block ::
                Turned(k, ltk) && Diversifier(x, skdm, skds) ==> ctx.aes(b) == aes(aes(k, x), b)
      ensures fresh(ctx) && fresh(nonce)
    {
      var sk: Block := SessionKey(aes, skdm, skds, ltk);
      ctx := new Context((b: Block) => aes(sk, b));
      nonce := new byte[13](k => 0);
      iv := ivm + ivs;
      new;
      forall k | 5 <= k < 13 {
        nonce[k] := (ivm + ivs)[k - 5];
      }
      forall k: Block, x: Block | Turned(k, ltk) && Diversifier(x, skdm, skds) ensures sk == aes(k, x) {
        SessionKeyBytes(aes, skdm, skds, ltk, k, x);
      }
    }

    /** Encrypts data, in place or into out, and writes the message integrity check. */
    method Encrypt(counter: nat, isMaster: bool, llid: byte, data: array<byte>, out: array?<byte>, mic: array<byte>)
      requires Valid() && counter < 0x1_0000_0000 && data.Length <= 255 && mic.Length == 4
      requires out != null ==> out.Length == data.Length && out != data && out != mic && Foreign(out)
      requires data != mic && Foreign(data) && Foreign(mic)
      modifies nonce, ctx, ctx.ctrVal, ctx.encCtr, ctx.cbcBuf, mic, if out == null then data else out
      ensures Valid() && nonce[..] == PacketNonce(counter, isMaster, iv)
      ensures IsNonce(nonce[..], counter, isMaster, iv)
      ensures (if out == null then data else out)[..] == Rfc3610.Crypt(ctx.aes, nonce[..], old(data[..]))
      ensures mic[..] == Rfc3610.Tag(ctx.aes, nonce[..], [llid & 3], old(data[..]), 4)
    {
      hide Context.Valid, Rfc3610.Crypt, Rfc3610.Tag, IsNonce;
      SetNonce(counter, isMaster);
      NonceBytes(counter, isMaster, iv);
      var target := CopyOut(data, out);
      ghost var n := nonce[..];
      assert n[..13] == n;
      var _ := ctx.EncryptMessage(nonce[..], 13, [llid & 3], target, mic, 4);
      assert mic[..4] == mic[..];
    }

    /** Decrypts data, in place or into out, under the nonce of the last packet encrypted. */
    method Decrypt(llid: byte, data: array<byte>, out: array?<byte>, mic: seq<byte>) returns (ret: int)
      requires Valid() && data.Length < 0x1_0000_0000 - 16 && |mic| == 4
      requires out != null ==> out.Length == data.Length && out != data && Foreign(out)
      requires Foreign(data)
      modifies ctx, ctx.ctrVal, ctx.encCtr, ctx.cbcBuf, if out == null then data else out
      ensures Valid()
      ensures (if out == null then data else out)[..] == Rfc3610.Crypt(ctx.aes, nonce[..], old(data[..]))
      ensures var text := (if out == null then data else out)[..];
              var tag := Rfc3610.Tag(ctx.aes, nonce[..], [llid & 3], text, 4);
              ret == if mic == tag then RETURN_GOOD else RETURN_ERROR
    {
      hide Context.Valid, Rfc3610.Crypt, Rfc3610.Tag;
      var target := CopyOut(data, out);
      ghost var n := nonce[..];
      assert n[..13] == n && mic[..4] == mic;
      ret := ctx.DecryptMessage(nonce[..], 13, [llid & 3], target, mic, 4);
    }

    method SetNonce(counter: nat, isMaster: bool)
      requires Valid()
      modifies nonce
      ensures nonce[..] == PacketNonce(counter, isMaster, iv)
    {
      nonce[4] := if isMaster then 0x80 else 0;
      var c := LittleEndian32(counter);
      nonce[0], nonce[1], nonce[2], nonce[3] := c[0], c[1], c[2], c[3];
      assert nonce[..] == nonce[..4] + [nonce[4]] + nonce[5..];
    }

    method CopyOut(data: array<byte>, out: array?<byte>) returns (target: array<byte>)
      requires out != null ==> out.Length == data.Length && out != data
      modifies if out == null then {} else {out}
      ensures target == if out == null then data else out
      ensures target[..] == old(data[..])
    {
      if out == null {
        return data;
      }
      target := out;
      forall k | 0 <= k < data.Length {
        target[k] := data[k];
      }
    }
  }

  /** A packet that is encrypted and then decrypted with the same header bits comes back
      unchanged, and is accepted exactly when the check value presented is the one written. */
  method RoundTrip(l: Link, counter: nat, isMaster: bool, llid: byte, data: array<byte>, mic: array<byte>,
                   presented: seq<byte>)
    returns (ret: int)
    requires l.Valid() && counter < 0x1_0000_0000 && data.Length <= 255 && mic.Length == |presented| == 4
    requires data != mic && l.Foreign(data) && l.Foreign(mic)
    modifies l.nonce, l.ctx, l.ctx.ctrVal, l.ctx.encCtr, l.ctx.cbcBuf, mic, data
    ensures data[..] == old(data[..])
    ensures ret == if presented == mic[..] then RETURN_GOOD else RETURN_ERROR
  {
    hide Context.Valid, Rfc3610.Crypt, Rfc3610.Tag;
    l.Encrypt(counter, isMaster, llid, data, null, mic);
    Rfc3610.CryptTwice(l.ctx.aes, l.nonce[..], old(data[..]));
    ret := l.Decrypt(llid, data, null, presented);
  }

  /** Different packets of one link never share a nonce. */
  lemma NoncesDiffer(c1: nat, m1: bool, c2: nat, m2: bool, iv: seq<byte>)
    requires c1 < 0x1_0000_0000 && c2 < 0x1_0000_0000
    requires PacketNonce(c1, m1, iv) == PacketNonce(c2, m2, iv)
    ensures c1 == c2 && m1 == m2
  {
    var a, b := PacketNonce(c1, m1, iv), PacketNonce(c2, m2, iv);
    assert a[..4] == LittleEndian32(c1) && b[..4] == LittleEndian32(c2);
    assert a[4] == b[4];
    Decode32Inverts(c1);
    Decode32Inverts(c2);
  }
}
