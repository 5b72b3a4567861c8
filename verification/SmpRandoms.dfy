/** Where the two random values of a pairing come from, and what a pairing sends, byte by byte. */
module SmpRandoms {
  import opened Bytes
  import opened SmpCrypto
  import opened SmpModel
  import opened SmpSystem
  import opened SmpSteps
  import opened SmpRuns

  /** What the random source gave on the first delivery to the responder, or old if there was
      none. */
  function DrawnByR(steps: seq<Step>, was: Block): Block {
    if steps == [] then was
    else if steps[0].DeliverToR? then steps[0].drawn else DrawnByR(steps[1..], was)
  }

  function DrawnByI(steps: seq<Step>, was: Block): Block {
    if steps == [] then was
    else if steps[0].DeliverToI? then steps[0].drawn else DrawnByI(steps[1..], was)
  }

  /** A host draws its random value on a request or a response, and never otherwise. */
  lemma PduDraws(d: Device, pdu: seq<byte>, drawn: Block)
    requires Readable(pdu)
    ensures OnPdu(d, pdu, drawn).next.rand == if pdu[0] == 1 || pdu[0] == 2 then drawn else d.rand
  {
    hide Xor, ConfirmPdu, RandPdu;
  }

  lemma EncryptedDraws(d: Device, x: Block)
    ensures OnEncrypted(d, x).next.rand == d.rand
  {
    hide SecondInput, ConfirmPdu, RandPdu;
  }

  /** A request or a response is the first message each way. */
  lemma FirstMessages(e: Aes, s: Sys, ip: IPhase, rp: RPhase)
    requires At(e, s, ip, rp)
    ensures s.toR != [] ==> (s.toR[0][0] == 1 <==> rp == RWait) && s.toR[0][0] != 2
    ensures s.toI != [] ==> (s.toI[0][0] == 2 <==> ip == IWait) && s.toI[0][0] != 1
  {
    hide IDevice, RDevice, Computing, Logged, ConfirmOf, Own;
    OwnMessages(REQ_DATA, e, Who(s.i));
    OwnMessages(RSP_DATA, e, Who(s.r));
    if s.toR != [] {
      assert s.toR[0] == Own(REQ_DATA, e, Who(s.i))[RGotCount(rp)];
    }
    if s.toI != [] {
      assert s.toI[0] == Own(RSP_DATA, e, Who(s.r))[IGotCount(ip)];
    }
  }

  lemma OwnMessages(first: seq<byte>, e: Aes, d: Device)
    requires first != []
    ensures var m := Own(first, e, d); m[0] == first && m[1] != [] && m[1][0] == 3 && m[2] != [] && m[2][0] == 4
  {
    hide ConfirmOf;
  }

  lemma StepDraws(e: Aes, s: Sys, ip: IPhase, rp: RPhase, step: Step)
    requires At(e, s, ip, rp) && Enabled(s, step)
    ensures Next(e, s, step).r.rand == if step.DeliverToR? && rp == RWait then step.drawn else s.r.rand
    ensures Next(e, s, step).i.rand == if step.DeliverToI? && ip == IWait then step.drawn else s.i.rand
  {
    hide At, Messages, Jobs, Starts, OnPdu, OnEncrypted;
    FirstMessages(e, s, ip, rp);
    match step
    case DeliverToR(drawn) => PduDraws(s.r, s.toR[0], drawn);
    case DeliverToI(drawn) => PduDraws(s.i, s.toI[0], drawn);
    case DoneI => EncryptedDraws(s.i, s.iJobs[0]);
    case DoneR => EncryptedDraws(s.r, s.rJobs[0]);
    case LtkEvent =>
  }

  lemma {:induction false} RunDraws(e: Aes, s: Sys, ip: IPhase, rp: RPhase, steps: seq<Step>)
    requires At(e, s, ip, rp) && Possible(e, s, steps)
    ensures var t := After(e, s, steps);
            && t.r.rand == (if rp == RWait then DrawnByR(steps, s.r.rand) else s.r.rand)
            && t.i.rand == (if ip == IWait then DrawnByI(steps, s.i.rand) else s.i.rand)
    decreases |steps|
  {
    hide At, Enabled, Next;
    if steps != [] {
      StepDraws(e, s, ip, rp, steps[0]);
      StepMoves(e, s, ip, rp, steps[0]);
      RunDraws(e, Next(e, s, steps[0]), INext(ip, steps[0]), RNext(rp, steps[0]), steps[1..]);
    }
  }

  /** In every run each host's random value is the one drawn when its first message came. */
  lemma ValuesDrawn(e: Aes, s: Sys, steps: seq<Step>)
    requires Quiet(s) && Possible(e, Auth(e, s), steps)
    ensures var t := After(e, Auth(e, s), steps);
            t.i.rand == DrawnByI(steps, s.i.rand) && t.r.rand == DrawnByR(steps, s.r.rand)
  {
    AuthStarts(e, s);
    RunDraws(e, Auth(e, s), IWait, RWait, steps);
    hide At, After, Possible, Quiet, DrawnByI, DrawnByR, Messages, Jobs, Starts;
  }

  // ---- what is sent, byte by byte ----

  /** The random messages among what a host has sent. */
  function Randoms(log: seq<Out>): seq<seq<byte>> {
    if log == [] then []
    else (if log[0].Pdu? && log[0].bytes != [] && log[0].bytes[0] == 4 then [log[0].bytes] else []) + Randoms(log[1..])
  }

  lemma {:induction false} RandomsPrefix(a: seq<Out>, b: seq<Out>)
    requires a <= b
    ensures Randoms(a) <= Randoms(b)
    decreases |a|
  {
    if a != [] {
      RandomsPrefix(a[1..], b[1..]);
    }
  }

  lemma RandomsCons(a: Out, rest: seq<Out>, log: seq<Out>)
    requires log == [a] + rest
    ensures Randoms(log) == (if a.Pdu? && a.bytes != [] && a.bytes[0] == 4 then [a.bytes] else []) + Randoms(rest)
  {
    assert log[1..] == rest;
  }

  lemma RandomsNothing()
    ensures Randoms([]) == []
  {
  }

  lemma PartRandoms(first: seq<byte>, e: Aes, d: Device, irand: Block, rrand: Block, last: Out)
    requires first != [] && first[0] != 4 && !last.Pdu?
    ensures Randoms(Part(first, e, d, irand, rrand) + [last]) == [[4] + d.rand]
  {
    hide First, Second, ConfirmOf, StkInput, Randoms;
    var p := Part(first, e, d, irand, rrand);
    RandomsNothing();
    RandomsCons(last, [], [last]);
    RandomsCons(p[5], [last], [p[5], last]);
    RandomsCons(p[4], [p[5], last], [p[4], p[5], last]);
    RandomsCons(p[3], [p[4], p[5], last], [p[3], p[4], p[5], last]);
    RandomsCons(p[2], [p[3], p[4], p[5], last], [p[2], p[3], p[4], p[5], last]);
    RandomsCons(p[1], [p[2], p[3], p[4], p[5], last], [p[1], p[2], p[3], p[4], p[5], last]);
    RandomsCons(p[0], [p[1], p[2], p[3], p[4], p[5], last], [p[0], p[1], p[2], p[3], p[4], p[5], last]);
    assert p + [last] == [p[0], p[1], p[2], p[3], p[4], p[5], last];
  }

  /** In every run, with ri and rr the random values drawn when the first message came to each
      host: the first messages are the pairing request and response; each host sends its own
      value and the toolbox's confirm value of it, at most once; and the keys given to the
      controllers are the toolbox's of both values. */
  lemma PairingSends(e: Aes, s: Sys, steps: seq<Step>)
    requires Quiet(s) && Mirrored(s) && Possible(e, Auth(e, s), steps)
    ensures var t := After(e, Auth(e, s), steps);
            var ri, rr := DrawnByI(steps, s.i.rand), DrawnByR(steps, s.r.rand);
            var iat, rat, ia, ra := s.i.gap.localType, s.i.gap.peerType, s.i.gap.local, s.i.gap.peer;
            var req, rsp: Seven := [1, 3, 0, 1, 0x10, 1, 1], [2, 3, 0, 1, 0x10, 1, 1];
            && (t.iLog != [] ==> t.iLog[0] == Pdu(req)) && (t.rLog != [] ==> t.rLog[0] == Pdu(rsp))
            && Confirms(t.iLog) <= [[3] + LegacyConfirm(e, Zeros(16), ri, req, rsp, iat, ia, rat, ra)]
            && Confirms(t.rLog) <= [[3] + LegacyConfirm(e, Zeros(16), rr, req, rsp, iat, ia, rat, ra)]
            && Randoms(t.iLog) <= [[4] + ri] && Randoms(t.rLog) <= [[4] + rr]
            && Keys(t.iLog) <= [Stk(e, Zeros(16), rr, ri)] && Keys(t.rLog) <= [Stk(e, Zeros(16), rr, ri)]
  {
    hide After, Auth, Possible, Confirms, Keys, Randoms, Part, LegacyConfirm, Stk, Quiet, Enabled, DrawnByI, DrawnByR,
         Zeros;
    var t := After(e, Auth(e, s), steps);
    ValuesDrawn(e, s, steps);
    Interleavings(e, s, steps);
    OneConfirmOneKey(e, s, steps);
    RandomsPrefix(t.iLog, ILog(e, t));
    RandomsPrefix(t.rLog, RLog(e, t));
    PartRandoms(REQ_DATA, e, Who(t.i), t.i.rand, t.r.rand, StartEncryption(Stk(e, TK, t.r.rand, t.i.rand)));
    PartRandoms(RSP_DATA, e, Who(t.r), t.i.rand, t.r.rand, LtkReply(Stk(e, TK, t.r.rand, t.i.rand)));
    FirstEntries(e, t);
  }

  lemma FirstEntries(e: Aes, t: Sys)
    ensures ILog(e, t)[0] == Pdu(REQ_DATA) && RLog(e, t)[0] == Pdu(RSP_DATA)
  {
    hide First, Second, ConfirmOf, StkInput, Stk;
  }

  /** A failed pairing ends the connection, other messages do nothing, and a responder asks for
      pairing with a security request. */
  lemma OtherMessages(d: Device, pdu: seq<byte>, drawn: Block)
    requires Readable(pdu) && pdu[0] != 1 && pdu[0] != 2 && pdu[0] != 3 && pdu[0] != 4
    ensures OnPdu(d, pdu, drawn) == Reaction(d, if pdu[0] == 5 then [Disconnect(0x16)] else [])
    ensures d.responder ==> OnAuth(d) == Reaction(d, [Pdu([0x0B, 0x01])])
  {
  }

  // ---- one encryption at a time ----

  /** How many encryptions are asked for. */
  function Asked(sent: seq<Out>): nat {
    if sent == [] then 0 else (if sent[0].Encrypt? then 1 else 0) + Asked(sent[1..])
  }

  lemma AskedTwo(a: Out, b: Out)
    ensures Asked([]) == 0 && Asked([a]) == (if a.Encrypt? then 1 else 0)
    ensures Asked([a, b]) == (if a.Encrypt? then 1 else 0) + (if b.Encrypt? then 1 else 0)
  {
    assert [a, b][1..] == [b] && [a][1..] == [] && [b][1..] == [];
  }

  function Owes(d: Device): nat {
    if d.busy then 1 else 0
  }

  /** Whatever comes in, and in whatever state, a host never has two encryptions under way: it
      asks for one exactly when it becomes busy. */
  lemma OneAtATime(d: Device, pdu: seq<byte>, drawn: Block, x: Block)
    requires Readable(pdu)
    ensures var r := OnPdu(d, pdu, drawn); Owes(d) + Asked(r.sent) == Owes(r.next)
    ensures var r := OnLtkRequest(d); Owes(d) + Asked(r.sent) == Owes(r.next)
    ensures d.busy ==> var r := OnEncrypted(d, x); Asked(r.sent) == Owes(r.next)
  {
    PduOnce(d, pdu, drawn);
    EncryptedOnce(d, x);
    LtkOnce(d);
    hide OnPdu, OnEncrypted, OnLtkRequest, Asked;
  }

  lemma AskOnce(d: Device, plain: Block, sent: seq<Out>)
    requires |sent| <= 1 && (sent != [] ==> !sent[0].Encrypt?)
    ensures var r := Ask(d, plain, sent); Owes(d) + Asked(r.sent) == Owes(r.next)
  {
    hide Asked;
    var e := Encrypt(TK, plain);
    if sent == [] {
      AskedTwo(e, e);
      assert sent + [e] == [e];
    } else {
      AskedTwo(sent[0], e);
      assert sent == [sent[0]] && sent + [e] == [sent[0], e];
    }
  }

  lemma CalOnce(d: Device, sent: seq<Out>)
    requires |sent| <= 1 && (sent != [] ==> !sent[0].Encrypt?)
    ensures var r := CalConfirm(d, sent); Owes(d) + Asked(r.sent) == Owes(r.next)
  {
    hide Asked, Xor;
    var buf: Block := Xor([Iat(d), Rat(d)] + d.buf[2..], d.rand);
    AskOnce(d.(buf := buf, enc := ConfirmCal1), buf, sent);
  }

  lemma PduOnce(d: Device, pdu: seq<byte>, drawn: Block)
    requires Readable(pdu)
    ensures var r := OnPdu(d, pdu, drawn); Owes(d) + Asked(r.sent) == Owes(r.next)
  {
    hide Asked, Ask, CalConfirm, ConfirmPdu, RandPdu;
    AskedTwo(Pdu(RandPdu(d.rand)), Disconnect(0x16));
    AskedTwo(Pdu(ConfirmPdu(d.buf)), Disconnect(0x16));
    AskedTwo(Disconnect(0x16), Disconnect(0x16));
    if pdu[0] == 1 {
      CalOnce(d.(smp := PairingRsp, rand := drawn, buf := d.buf[..2] + pdu[..7] + RSP_DATA), [Pdu(RSP_DATA)]);
    } else if pdu[0] == 2 {
      CalOnce(d.(smp := PairingRsp, rand := drawn, buf := d.buf[..9] + pdu[..7]), []);
    } else if pdu[0] == 4 && !d.responder {
      var buf: Block := d.buf[..8] + pdu[1..9];
      AskOnce(d.(enc := StkCal, buf := buf), buf, []);
    }
  }

  lemma EncryptedOnce(d: Device, x: Block)
    ensures d.busy ==> var r := OnEncrypted(d, x); Asked(r.sent) == Owes(r.next)
  {
    hide Asked, Ask, SecondInput, ConfirmPdu;
    AskedTwo(Pdu(ConfirmPdu(x)), LtkReply(x));
    AskedTwo(StartEncryption(x), LtkReply(x));
    AskedTwo(LtkReply(x), LtkReply(x));
    AskOnce(d.(busy := false, enc := ConfirmCal2), SecondInput(x, Ia(d), Ra(d)), []);
  }

  lemma LtkOnce(d: Device)
    ensures var r := OnLtkRequest(d); Owes(d) + Asked(r.sent) == Owes(r.next)
  {
    hide Asked, Ask;
    AskedTwo(Disconnect(0x16), Disconnect(0x16));
    AskOnce(d.(smp := LtkReq, enc := StkCal), d.buf, []);
  }
}
