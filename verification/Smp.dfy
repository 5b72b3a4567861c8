/** One side of legacy pairing as it runs: static state, and a buffer that holds in turn the
    pairing messages, the confirm value that waits, and the input of the key. */
module Smp {
  import opened Bytes
  import opened SmpCrypto
  import opened SmpModel

  class Pairing {
    const encryptBuf: array<byte>
    const localRand: array<byte>
    const gap: Gap
    var role: bool
    var smpState: SmpState
    var encryptState: EncState
    var callback: bool

    ghost predicate Valid()
      reads this
    {
      encryptBuf.Length == 16 && localRand.Length == 16 && encryptBuf != localRand
    }

    ghost function Model(): Device
      requires Valid()
      reads this, encryptBuf, localRand
    {
      Device(role, gap, smpState, encryptState, encryptBuf[..], localRand[..], callback)
    }

    constructor (gap: Gap, role: bool)
      ensures Valid() && fresh(encryptBuf) && fresh(localRand)
      ensures Model() == Device(role, gap, Idle, NotEncrypting, Zeros(16), Zeros(16), false)
    {
      encryptBuf, localRand := new byte[16](i => 0), new byte[16](i => 0);
      this.gap, this.role := gap, role;
      smpState, encryptState, callback := Idle, NotEncrypting, false;
    }

    method HciEncrypt(plain: Block) returns (sent: seq<Out>)
      requires Valid()
      modifies this`callback
      ensures Reaction(Model(), sent) == Ask(old(Model()), plain, [])
    {
      if callback {
        return [];
      }
      callback := true;
      sent := [Encrypt(TK, plain)];
    }

    method CalculateConfirm() returns (sent: seq<Out>)
      requires Valid()
      modifies this, encryptBuf
      ensures Valid() && Reaction(Model(), sent) == CalConfirm(old(Model()), [])
    {
      if role {
        encryptBuf[0], encryptBuf[1] := gap.peerType, gap.localType;
      } else {
        encryptBuf[0], encryptBuf[1] := gap.localType, gap.peerType;
      }
      assert encryptBuf[..] == [Iat(old(Model())), Rat(old(Model()))] + old(encryptBuf[..])[2..];
      Bxor(localRand[..], encryptBuf);
      sent := HciEncrypt(encryptBuf[..]);
      encryptState := ConfirmCal1;
    }

    /** memcpy into the shared buffer. */
    method Put(at: nat, s: seq<byte>)
      requires Valid() && at + |s| <= 16
      modifies encryptBuf
      ensures encryptBuf[..] == Over(old(encryptBuf[..]), at, s)
    {
      forall i | 0 <= i < |s| {
        encryptBuf[at + i] := s[i];
      }
    }

    method HandleRequest(preq: Seven, drawn: Block) returns (sent: seq<Out>)
      requires Valid()
      modifies this, encryptBuf, localRand
      ensures Valid() && Reaction(Model(), sent) == OnRequest(old(Model()), preq, drawn)
    {
      hide Xor, Over;
      smpState := PairingReq;
      sent := [Pdu(RSP_DATA)];
      smpState := PairingRsp;
      Store(drawn, localRand);
      OverPairing(encryptBuf[..], preq, RSP_DATA);
      Put(2, preq);
      Put(9, RSP_DATA);
      var asked := CalculateConfirm();
      sent := sent + asked;
    }

    method HandleResponse(pres: Seven, drawn: Block) returns (sent: seq<Out>)
      requires Valid()
      modifies this, encryptBuf, localRand
      ensures Valid() && Reaction(Model(), sent) == OnResponse(old(Model()), pres, drawn)
    {
      hide Xor, Over;
      smpState := PairingRsp;
      Store(drawn, localRand);
      OverPairing(encryptBuf[..], encryptBuf[2..9], pres);
      Put(9, pres);
      sent := CalculateConfirm();
    }

    method HandleConfirm() returns (sent: seq<Out>)
      requires Valid()
      modifies this, encryptBuf
      ensures Valid() && Reaction(Model(), sent) == OnConfirm(old(Model()))
    {
      hide Over;
      sent := [];
      smpState := ConfirmReq;
      if role {
        if encryptState == ConfirmPending {
          encryptState := NotEncrypting;
          sent := [Pdu(ConfirmPdu(encryptBuf[..]))];
          smpState := ConfirmRsp;
        }
      } else {
        smpState := RandReq;
        OverHalves(encryptBuf[..], localRand[..8], localRand[..8]);
        Put(0, localRand[..8]);
        sent := [Pdu(RandPdu(localRand[..]))];
      }
    }

    method HandleRandom(half: seq<byte>) returns (sent: seq<Out>)
      requires Valid() && |half| == 8
      modifies this, encryptBuf
      ensures Valid() && Reaction(Model(), sent) == OnRandom(old(Model()), half)
    {
      hide Over;
      if role {
        smpState := RandReq;
        sent := [Pdu(RandPdu(localRand[..]))];
        smpState := RandRsp;
        OverHalves(encryptBuf[..], half, localRand[..8]);
        Put(8, localRand[..8]);
        Put(0, half);
      } else {
        OverHalves(encryptBuf[..], encryptBuf[..8], half);
        Put(8, half);
        encryptState := StkCal;
        sent := HciEncrypt(encryptBuf[..]);
      }
    }

    method Handle(pdu: seq<byte>, drawn: Block) returns (sent: seq<Out>)
      requires Valid() && Readable(pdu)
      modifies this, encryptBuf, localRand
      ensures Valid() && Reaction(Model(), sent) == OnPdu(old(Model()), pdu, drawn)
    {
      hide OnRequest, OnResponse, OnConfirm, OnRandom;
      sent := [];
      var code := pdu[0];
      if code == 1 {
        sent := HandleRequest(pdu[..7], drawn);
      } else if code == 2 {
        sent := HandleResponse(pdu[..7], drawn);
      } else if code == 3 {
        sent := HandleConfirm();
      } else if code == 4 {
        sent := HandleRandom(pdu[1..9]);
      } else if code == 5 {
        sent := [Disconnect(0x16)];
      }
    }

    method Encrypted(x: Block) returns (sent: seq<Out>)
      requires Valid()
      modifies this, encryptBuf
      ensures Valid() && Reaction(Model(), sent) == OnEncrypted(old(Model()), x)
    {
      sent := [];
      if !callback {
        return;
      }
      callback := false;
      match encryptState {
        case ConfirmCal1 =>
          var ia, ra := gap.local, gap.peer;
          if role {
            ia, ra := gap.peer, gap.local;
          }
          sent := HciEncrypt(Xor(x, ra + ia + Zeros(4)));
          encryptState := ConfirmCal2;
        case ConfirmCal2 =>
          if role {
            if smpState == ConfirmReq {
              sent := [Pdu(ConfirmPdu(x))];
              encryptState := NotEncrypting;
              smpState := ConfirmRsp;
            } else {
              Put(0, x);
              encryptState := ConfirmPending;
            }
          } else {
            encryptState := NotEncrypting;
            smpState := ConfirmReq;
            sent := [Pdu(ConfirmPdu(x))];
          }
        case StkCal =>
          smpState := LtkRsp;
          encryptState := NotEncrypting;
          sent := [if role then LtkReply(x) else StartEncryption(x)];
        case _ =>
      }
    }

    method GetLtk() returns (handled: bool, sent: seq<Out>)
      requires Valid()
      modifies this
      ensures Valid() && Reaction(Model(), sent) == OnLtkRequest(old(Model()))
      ensures handled <==> old(smpState) == RandRsp
    {
      handled, sent := false, [];
      if smpState == RandRsp {
        smpState := LtkReq;
        encryptState := StkCal;
        sent := HciEncrypt(encryptBuf[..]);
        handled := true;
      }
    }

    method Auth() returns (sent: seq<Out>)
      requires Valid()
      modifies this, encryptBuf
      ensures Valid() && Reaction(Model(), sent) == OnAuth(old(Model()))
    {
      if role {
        sent := [Pdu([0x0B, 0x01])];
      } else {
        smpState := PairingReq;
        OverPairing(encryptBuf[..], REQ_DATA, REQ_DATA);
        Put(2, REQ_DATA);
        sent := [Pdu(REQ_DATA)];
      }
    }
  }
  /** buf with s written over it from position at on. */
  function Over(buf: Block, at: nat, s: seq<byte>): Block
    requires at + |s| <= 16
  {
    buf[..at] + s + buf[at + |s|..]
  }

  lemma OverHalves(buf: Block, a: seq<byte>, b: seq<byte>)
    requires |a| == |b| == 8
    ensures Over(Over(buf, 8, b), 0, a) == a + b
    ensures Over(buf, 8, b) == buf[..8] + b && Over(buf, 0, a) == a + buf[8..]
  {
  }

  lemma OverPairing(buf: Block, preq: Seven, pres: Seven)
    ensures Over(Over(buf, 2, preq), 9, pres) == buf[..2] + preq + pres
    ensures Over(buf, 9, pres) == buf[..9] + pres
    ensures Over(buf, 2, preq) == buf[..2] + preq + buf[9..]
  {
  }
}
