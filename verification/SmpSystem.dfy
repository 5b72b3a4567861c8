/** Two hosts pairing, each with its controller: messages arrive in order, and encryptions
    finish whenever they finish. */
module SmpSystem {
  import opened Bytes
  import opened SmpCrypto
  import opened SmpModel

  /** toR and toI are the messages under way, iJobs and rJobs the answers the controllers
      still owe, and asked says that the responder's controller is about to ask for a key.
      The logs hold everything each host has sent to its peer or controller. */
  datatype Sys = Sys(i: Device, r: Device, toR: seq<seq<byte>>, toI: seq<seq<byte>>,
                     iJobs: seq<Block>, rJobs: seq<Block>, asked: bool, iLog: seq<Out>, rLog: seq<Out>)

  datatype Step = DeliverToR(drawn: Block) | DeliverToI(drawn: Block) | DoneI | DoneR | LtkEvent

  function Messages(sent: seq<Out>): seq<seq<byte>> {
    if sent == [] then []
    else (if sent[0].Pdu? then [sent[0].bytes] else []) + Messages(sent[1..])
  }

  function Jobs(e: Aes, sent: seq<Out>): seq<Block> {
    if sent == [] then []
    else (if sent[0].Encrypt? then [Controller(e, sent[0].key, sent[0].plain)] else []) + Jobs(e, sent[1..])
  }

  predicate Starts(sent: seq<Out>) {
    exists k :: 0 <= k < |sent| && sent[k].StartEncryption?
  }

  /** The initiator has reacted: what it sent goes on its way. */
  function FromI(e: Aes, s: Sys, re: Reaction): Sys {
    s.(i := re.next, toR := s.toR + Messages(re.sent), iJobs := s.iJobs + Jobs(e, re.sent),
       asked := s.asked || Starts(re.sent), iLog := s.iLog + re.sent)
  }

  function FromR(e: Aes, s: Sys, re: Reaction): Sys {
    s.(r := re.next, toI := s.toI + Messages(re.sent), rJobs := s.rJobs + Jobs(e, re.sent), rLog := s.rLog + re.sent)
  }

  ghost predicate Enabled(s: Sys, step: Step) {
    match step
    case DeliverToR(_) => s.toR != [] && Readable(s.toR[0])
    case DeliverToI(_) => s.toI != [] && Readable(s.toI[0])
    case DoneI => s.iJobs != []
    case DoneR => s.rJobs != []
    case LtkEvent => s.asked
  }

  ghost function Next(e: Aes, s: Sys, step: Step): Sys
    requires Enabled(s, step)
  {
    match step
    case DeliverToR(drawn) => FromR(e, s.(toR := s.toR[1..]), OnPdu(s.r, s.toR[0], drawn))
    case DeliverToI(drawn) => FromI(e, s.(toI := s.toI[1..]), OnPdu(s.i, s.toI[0], drawn))
    case DoneI => FromI(e, s.(iJobs := s.iJobs[1..]), OnEncrypted(s.i, s.iJobs[0]))
    case DoneR => FromR(e, s.(rJobs := s.rJobs[1..]), OnEncrypted(s.r, s.rJobs[0]))
    case LtkEvent => FromR(e, s.(asked := false), OnLtkRequest(s.r))
  }

  // ---- what the two sides should send ----

  /** A device without what changes during a pairing, once its random value is drawn. */
  function Who(d: Device): Device {
    Device(d.responder, d.gap, Idle, NotEncrypting, TK, d.rand, false)
  }

  function ConfirmOf(e: Aes, d: Device): Block {
    LegacyConfirm(e, TK, d.rand, REQ_DATA, RSP_DATA, Iat(d), Ia(d), Rat(d), Ra(d))
  }

  function First(d: Device): Block {
    FirstInput(d.rand, REQ_DATA, RSP_DATA, Iat(d), Rat(d))
  }

  function Second(e: Aes, d: Device): Block {
    SecondInput(Controller(e, TK, First(d)), Ia(d), Ra(d))
  }

  function Own(first: seq<byte>, e: Aes, d: Device): (r: seq<seq<byte>>)
    ensures |r| == 3
  {
    [first, ConfirmPdu(ConfirmOf(e, d)), RandPdu(d.rand)]
  }

  /** A host's whole part in a pairing, up to its last step: its first message, the two
      encryptions of its confirm value, one confirm message, one random message, and the
      encryption that gives the key. */
  function Part(first: seq<byte>, e: Aes, d: Device, irand: Block, rrand: Block): (r: seq<Out>)
    ensures |r| == 6
  {
    [Pdu(first), Encrypt(TK, First(d)), Encrypt(TK, Second(e, d)), Pdu(ConfirmPdu(ConfirmOf(e, d))),
     Pdu(RandPdu(d.rand)), Encrypt(TK, StkInput(irand, rrand))]
  }

  function ILog(e: Aes, s: Sys): (r: seq<Out>)
    ensures |r| == 7
  {
    Part(REQ_DATA, e, Who(s.i), s.i.rand, s.r.rand) + [StartEncryption(Stk(e, TK, s.r.rand, s.i.rand))]
  }

  function RLog(e: Aes, s: Sys): (r: seq<Out>)
    ensures |r| == 7
  {
    Part(RSP_DATA, e, Who(s.r), s.i.rand, s.r.rand) + [LtkReply(Stk(e, TK, s.r.rand, s.i.rand))]
  }

  // ---- how far each side has come ----

  datatype IPhase = IWait | ICal1 | ICal2 | ISentConfirm | ISentRand | IStk | IStarted

  /** Got: the peer's confirm message came while the own confirm value was being computed. */
  datatype RPhase = RWait | RCal1 | RCal2 | RPending | RCal1Got | RCal2Got | RSentConfirm | RSentRand | RStk | RReplied

  function IRank(p: IPhase): nat {
    match p
    case IWait => 0
    case ICal1 => 1
    case ICal2 => 2
    case ISentConfirm => 3
    case ISentRand => 4
    case IStk => 5
    case IStarted => 6
  }

  function RRank(p: RPhase): nat {
    match p
    case RWait => 0
    case RCal1 => 1
    case RCal2 => 2
    case RCal1Got => 2
    case RPending => 3
    case RCal2Got => 3
    case RSentConfirm => 4
    case RSentRand => 5
    case RStk => 6
    case RReplied => 7
  }

  function ILogged(p: IPhase): nat {
    IRank(p) + 1
  }

  function RLogged(p: RPhase): nat {
    match p
    case RWait => 0
    case RCal1 => 2
    case RCal1Got => 2
    case RCal2 => 3
    case RCal2Got => 3
    case RPending => 3
    case RSentConfirm => 4
    case RSentRand => 5
    case RStk => 6
    case RReplied => 7
  }

  function ISentCount(p: IPhase): nat {
    if p.ISentConfirm? then 2 else if IRank(p) > 3 then 3 else 1
  }

  function IGotCount(p: IPhase): nat {
    if p.IWait? then 0 else if p.ISentRand? then 2 else if IRank(p) > 4 then 3 else 1
  }

  function RSentCount(p: RPhase): nat {
    if p.RWait? then 0 else if RRank(p) < 4 then 1 else if p.RSentConfirm? then 2 else 3
  }

  function RGotCount(p: RPhase): nat {
    match p
    case RWait => 0
    case RCal1 => 1
    case RCal2 => 1
    case RPending => 1
    case RCal1Got => 2
    case RCal2Got => 2
    case RSentConfirm => 2
    case _ => 3
  }

  // ---- the invariant ----

  ghost predicate IDevice(d: Device, p: IPhase) {
    && !d.responder
    && d.busy == (p.ICal1? || p.ICal2? || p.IStk?)
    && match p {
      case IWait => d.smp == PairingReq && d.buf[2..9] == REQ_DATA
      case ICal1 => d.smp == PairingRsp && d.enc == ConfirmCal1
      case ICal2 => d.smp == PairingRsp && d.enc == ConfirmCal2
      case ISentConfirm => d.smp == ConfirmReq && d.enc == NotEncrypting
      case ISentRand => d.smp == RandReq && d.enc == NotEncrypting && d.buf[..8] == d.rand[..8]
      case IStk => d.smp == RandReq && d.enc == StkCal
      case IStarted => d.smp == LtkRsp && d.enc == NotEncrypting
    }
  }

  ghost predicate RDevice(e: Aes, d: Device, p: RPhase, irand: Block) {
    && d.responder
    && d.busy == (p.RCal1? || p.RCal1Got? || p.RCal2? || p.RCal2Got? || p.RStk?)
    && match p {
      case RWait => true
      case RCal1 => d.smp == PairingRsp && d.enc == ConfirmCal1
      case RCal2 => d.smp == PairingRsp && d.enc == ConfirmCal2
      case RPending => d.smp == PairingRsp && d.enc == ConfirmPending && d.buf == ConfirmOf(e, Who(d))
      case RCal1Got => d.smp == ConfirmReq && d.enc == ConfirmCal1
      case RCal2Got => d.smp == ConfirmReq && d.enc == ConfirmCal2
      case RSentConfirm => d.smp == ConfirmRsp && d.enc == NotEncrypting
      case RSentRand => d.smp == RandRsp && d.enc == NotEncrypting && d.buf == StkInput(irand, d.rand)
      case RStk => d.smp == LtkReq && d.enc == StkCal
      case RReplied => d.smp == LtkRsp && d.enc == NotEncrypting
    }
  }

  /** The answer a controller owes after cal encryptions have been asked for. */
  function Owed(e: Aes, d: Device, cal1: bool, cal2: bool, stk: bool, irand: Block, rrand: Block): seq<Block> {
    if cal1 then [Controller(e, TK, First(d))]
    else if cal2 then [ConfirmOf(e, d)]
    else if stk then [Stk(e, TK, rrand, irand)] else []
  }

  ghost predicate InFlight(s: Sys, e: Aes, ip: IPhase, rp: RPhase) {
    && RGotCount(rp) <= ISentCount(ip) && IGotCount(ip) <= RSentCount(rp)
    && s.toR == Own(REQ_DATA, e, Who(s.i))[RGotCount(rp)..ISentCount(ip)]
    && s.toI == Own(RSP_DATA, e, Who(s.r))[IGotCount(ip)..RSentCount(rp)]
  }

  ghost predicate Computing(s: Sys, e: Aes, ip: IPhase, rp: RPhase) {
    && s.iJobs == Owed(e, Who(s.i), ip.ICal1?, ip.ICal2?, ip.IStk?, s.i.rand, s.r.rand)
    && s.rJobs == Owed(e, Who(s.r), rp.RCal1? || rp.RCal1Got?, rp.RCal2? || rp.RCal2Got?, rp.RStk?, s.i.rand, s.r.rand)
    && s.asked == (ip.IStarted? && rp.RSentRand?)
    && (rp.RStk? || rp.RReplied? ==> ip.IStarted?)
  }

  ghost predicate Logged(s: Sys, e: Aes, ip: IPhase, rp: RPhase) {
    s.iLog == ILog(e, s)[..ILogged(ip)] && s.rLog == RLog(e, s)[..RLogged(rp)]
  }

  ghost predicate At(e: Aes, s: Sys, ip: IPhase, rp: RPhase) {
    && IDevice(s.i, ip) && RDevice(e, s.r, rp, s.i.rand)
    && InFlight(s, e, ip, rp) && Computing(s, e, ip, rp) && Logged(s, e, ip, rp)
  }
}
