/** One side of legacy pairing: how it reacts to each message, to each finished encryption,
    and to the controller asking for a key. */
module SmpModel {
  import opened Bytes
  import opened SmpCrypto

  datatype SmpState = Idle | PairingReq | PairingRsp | ConfirmReq | ConfirmRsp | RandReq | RandRsp | LtkReq
    | LtkRsp | EncRsp

  datatype EncState = NotEncrypting | ConfirmCal1 | ConfirmCal2 | ConfirmPending | StkCal

  /** What goes to the peer, to the controller, or to the connection. */
  datatype Out =
    | Pdu(bytes: seq<byte>)
    | Encrypt(key: Block, plain: Block)
    | StartEncryption(ltk: Block)
    | LtkReply(ltk: Block)
    | Disconnect(reason: byte)

  datatype Gap = Gap(localType: byte, local: Address, peerType: byte, peer: Address)

  /** busy: an encryption has been asked for and has not come back. */
  datatype Device = Device(responder: bool, gap: Gap, smp: SmpState, enc: EncState, buf: Block, rand: Block, busy: bool)

  datatype Reaction = Reaction(next: Device, sent: seq<Out>)

  const TK: Block := Zeros(16)
  const REQ_DATA: Seven := [0x01, 0x03, 0x00, 0x01, 0x10, 0x01, 0x01]
  const RSP_DATA: Seven := [0x02, 0x03, 0x00, 0x01, 0x10, 0x01, 0x01]

  function Iat(d: Device): byte {
    if d.responder then d.gap.peerType else d.gap.localType
  }

  function Rat(d: Device): byte {
    if d.responder then d.gap.localType else d.gap.peerType
  }

  function Ia(d: Device): Address {
    if d.responder then d.gap.peer else d.gap.local
  }

  function Ra(d: Device): Address {
    if d.responder then d.gap.local else d.gap.peer
  }

  /** Asks for an encryption, unless one is under way. */
  function Ask(d: Device, plain: Block, sent: seq<Out>): Reaction {
    if d.busy then Reaction(d, sent) else Reaction(d.(busy := true), sent + [Encrypt(TK, plain)])
  }

  function CalConfirm(d: Device, sent: seq<Out>): Reaction {
    var buf: Block := Xor([Iat(d), Rat(d)] + d.buf[2..], d.rand);
    Ask(d.(buf := buf, enc := ConfirmCal1), buf, sent)
  }

  function ConfirmPdu(c: Block): seq<byte> {
    [0x03] + c
  }

  function RandPdu(r: Block): seq<byte> {
    [0x04] + r
  }

  /** Long enough for what the handler reads from it. */
  ghost predicate Readable(pdu: seq<byte>) {
    && |pdu| >= 1
    && (pdu[0] == 1 || pdu[0] == 2 ==> |pdu| >= 7)
    && (pdu[0] == 4 ==> |pdu| >= 9)
  }

  ghost function OnRequest(d: Device, preq: Seven, drawn: Block): Reaction {
    CalConfirm(d.(smp := PairingRsp, rand := drawn, buf := d.buf[..2] + preq + RSP_DATA), [Pdu(RSP_DATA)])
  }

  ghost function OnResponse(d: Device, pres: Seven, drawn: Block): Reaction {
    CalConfirm(d.(smp := PairingRsp, rand := drawn, buf := d.buf[..9] + pres), [])
  }

  ghost function OnConfirm(d: Device): Reaction {
    if !d.responder then
      Reaction(d.(smp := RandReq, buf := d.rand[..8] + d.buf[8..]), [Pdu(RandPdu(d.rand))])
    else if d.enc == ConfirmPending then
      Reaction(d.(smp := ConfirmRsp, enc := NotEncrypting), [Pdu(ConfirmPdu(d.buf))])
    else Reaction(d.(smp := ConfirmReq), [])
  }

  /** half: the first 8 bytes of the peer's random value. */
  ghost function OnRandom(d: Device, half: seq<byte>): Reaction
    requires |half| == 8
  {
    if d.responder then
      Reaction(d.(smp := RandRsp, buf := half + d.rand[..8]), [Pdu(RandPdu(d.rand))])
    else
      var buf: Block := d.buf[..8] + half;
      Ask(d.(enc := StkCal, buf := buf), buf, [])
  }

  /** A message from the peer; drawn is what the random source would give now. */
  ghost function OnPdu(d: Device, pdu: seq<byte>, drawn: Block): Reaction
    requires Readable(pdu)
  {
    if pdu[0] == 1 then OnRequest(d, pdu[..7], drawn)
    else if pdu[0] == 2 then OnResponse(d, pdu[..7], drawn)
    else if pdu[0] == 3 then OnConfirm(d)
    else if pdu[0] == 4 then OnRandom(d, pdu[1..9])
    else if pdu[0] == 5 then Reaction(d, [Disconnect(0x16)])
    else Reaction(d, [])
  }

  /** The controller's answer to an encryption. */
  ghost function OnEncrypted(d: Device, x: Block): Reaction {
    if !d.busy then Reaction(d, [])
    else
      var f := d.(busy := false);
      match d.enc
      case ConfirmCal1 => Ask(f.(enc := ConfirmCal2), SecondInput(x, Ia(d), Ra(d)), [])
      case ConfirmCal2 =>
        if !d.responder then Reaction(f.(enc := NotEncrypting, smp := ConfirmReq), [Pdu(ConfirmPdu(x))])
        else if d.smp == ConfirmReq then Reaction(f.(enc := NotEncrypting, smp := ConfirmRsp), [Pdu(ConfirmPdu(x))])
        else Reaction(f.(enc := ConfirmPending, buf := x), [])
      case StkCal =>
        Reaction(f.(enc := NotEncrypting, smp := LtkRsp), [if d.responder then LtkReply(x) else StartEncryption(x)])
      case _ => Reaction(f, [])
  }

  /** The controller asks for the key of the link. */
  ghost function OnLtkRequest(d: Device): Reaction {
    if d.smp == RandRsp then Ask(d.(smp := LtkReq, enc := StkCal), d.buf, []) else Reaction(d, [])
  }

  /** The host asks for the link to be paired. */
  ghost function OnAuth(d: Device): Reaction {
    if d.responder then Reaction(d, [Pdu([0x0B, 0x01])])
    else Reaction(d.(smp := PairingReq, buf := d.buf[..2] + REQ_DATA + d.buf[9..]), [Pdu(REQ_DATA)])
  }
}
