/** Every event moves exactly one of the two hosts on by one phase. */
module SmpSteps {
  import opened Bytes
  import opened SmpCrypto
  import opened SmpModel
  import opened SmpSystem

  function INext(p: IPhase, step: Step): IPhase {
    if step.DeliverToI? then
      if p.IWait? then ICal1 else if p.ISentConfirm? then ISentRand else if p.ISentRand? then IStk else p
    else if step.DoneI? then
      if p.ICal1? then ICal2 else if p.ICal2? then ISentConfirm else if p.IStk? then IStarted else p
    else p
  }

  function RNext(p: RPhase, step: Step): RPhase {
    if step.DeliverToR? then
      if p.RWait? then RCal1 else if p.RCal1? then RCal1Got else if p.RCal2? then RCal2Got
      else if p.RPending? then RSentConfirm else if p.RSentConfirm? then RSentRand else p
    else if step.DoneR? then
      if p.RCal1? then RCal2 else if p.RCal1Got? then RCal2Got else if p.RCal2? then RPending
      else if p.RCal2Got? then RSentConfirm else if p.RStk? then RReplied else p
    else if step.LtkEvent? && p.RSentRand? then RStk else p
  }

  // ---- reading what was sent ----

  lemma SentOne(e: Aes, a: Out)
    ensures Messages([a]) == if a.Pdu? then [a.bytes] else []
    ensures Jobs(e, [a]) == if a.Encrypt? then [Controller(e, a.key, a.plain)] else []
    ensures Starts([a]) == a.StartEncryption?
  {
    assert [a][1..] == [];
    if a.StartEncryption? {
      assert [a][0].StartEncryption?;
    }
  }

  lemma SentTwo(e: Aes, a: Out, b: Out)
    ensures Messages([a, b]) == Messages([a]) + Messages([b])
    ensures Jobs(e, [a, b]) == Jobs(e, [a]) + Jobs(e, [b])
    ensures Starts([a, b]) == (a.StartEncryption? || b.StartEncryption?)
  {
    assert [a, b][1..] == [b] && [a][1..] == [];
    if a.StartEncryption? {
      assert [a, b][0].StartEncryption?;
    } else if b.StartEncryption? {
      assert [a, b][1].StartEncryption?;
    }
  }

  lemma CalAsks(d: Device, head: seq<byte>, sent: seq<Out>)
    requires |head| == 2 && d.buf == head + REQ_DATA + RSP_DATA && !d.busy
    ensures CalConfirm(d, sent) == Reaction(d.(buf := First(Who(d)), enc := ConfirmCal1, busy := true),
            sent + [Encrypt(TK, First(Who(d)))])
  {
    assert (head + REQ_DATA + RSP_DATA)[2..] == REQ_DATA + RSP_DATA;
    assert [Iat(d), Rat(d)] + (REQ_DATA + RSP_DATA) == [Iat(d), Rat(d)] + REQ_DATA + RSP_DATA;
    hide Xor;
  }

  /** The inputs and the result of the two encryptions. */
  lemma Inputs(e: Aes, d: Device)
    ensures SecondInput(Controller(e, TK, First(Who(d))), Ia(d), Ra(d)) == Second(e, Who(d))
    ensures Controller(e, TK, Second(e, Who(d))) == ConfirmOf(e, Who(d))
  {
    hide Controller, LegacyConfirm, FirstInput, SecondInput;
    ConfirmInTwo(e, TK, d.rand, REQ_DATA, RSP_DATA, Iat(d), Ia(d), Rat(d), Ra(d));
  }

  // ---- the logs ----

  function IEntry(e: Aes, s: Sys, k: nat): Out
    requires k < 7
  {
    ILog(e, s)[k]
  }

  function REntry(e: Aes, s: Sys, k: nat): Out
    requires k < 7
  {
    RLog(e, s)[k]
  }

  /** Nothing a host has sent before it knew the peer's random value depends on it. */
  lemma LogsWait(e: Aes, s: Sys, t: Sys)
    requires t.i == s.i && t.r.gap == s.r.gap && t.r.responder == s.r.responder
    ensures ILog(e, t)[..5] == ILog(e, s)[..5]
    ensures forall k | 0 <= k <= 5 :: ILog(e, t)[..k] == ILog(e, s)[..k]
  {
    hide LegacyConfirm, Stk, StkInput, First, Second;
    assert forall k | 0 <= k <= 5 :: ILog(e, t)[..k] == ILog(e, t)[..5][..k] && ILog(e, s)[..k] == ILog(e, s)[..5][..k];
  }

  lemma RLogsWait(e: Aes, s: Sys, t: Sys)
    requires t.r.rand == s.r.rand && t.r.gap == s.r.gap && t.r.responder == s.r.responder
    ensures RLog(e, t)[..5] == RLog(e, s)[..5]
    ensures forall k | 0 <= k <= 5 :: RLog(e, t)[..k] == RLog(e, s)[..k]
  {
    hide LegacyConfirm, Stk, StkInput, FirstInput, SecondInput, Controller;
    assert forall k | 0 <= k <= 5 :: RLog(e, t)[..k] == RLog(e, t)[..5][..k] && RLog(e, s)[..k] == RLog(e, s)[..5][..k];
  }

  ghost predicate SameKeys(s: Sys, t: Sys) {
    && t.i.rand == s.i.rand && t.i.gap == s.i.gap && t.i.responder == s.i.responder
    && t.r.rand == s.r.rand && t.r.gap == s.r.gap && t.r.responder == s.r.responder
  }

  lemma SameLogs(e: Aes, s: Sys, t: Sys)
    requires SameKeys(s, t)
    ensures ILog(e, t) == ILog(e, s) && RLog(e, t) == RLog(e, s)
  {
  }

  lemma Extend(log: seq<Out>, whole: seq<Out>, n: nat)
    requires n < |whole| && log == whole[..n]
    ensures log + [whole[n]] == whole[..n + 1]
  {
  }

  lemma ILogs(e: Aes, s: Sys, t: Sys, ip: IPhase, jp: IPhase, rp: RPhase)
    requires Logged(s, e, ip, rp) && SameKeys(s, t) && ILogged(jp) == ILogged(ip) + 1
    requires t.iLog == s.iLog + [IEntry(e, t, ILogged(ip))] && t.rLog == s.rLog
    ensures Logged(t, e, jp, rp)
  {
    hide ILog, RLog, SameKeys;
    SameLogs(e, s, t);
    Extend(s.iLog, ILog(e, t), ILogged(ip));
  }

  lemma RLogs(e: Aes, s: Sys, t: Sys, ip: IPhase, rp: RPhase, qp: RPhase)
    requires Logged(s, e, ip, rp) && SameKeys(s, t) && RLogged(qp) == RLogged(rp) + 1
    requires t.rLog == s.rLog + [REntry(e, t, RLogged(rp))] && t.iLog == s.iLog
    ensures Logged(t, e, ip, qp)
  {
    hide ILog, RLog, SameKeys;
    SameLogs(e, s, t);
    Extend(s.rLog, RLog(e, t), RLogged(rp));
  }

  lemma LogsStay(e: Aes, s: Sys, t: Sys, ip: IPhase, rp: RPhase, qp: RPhase)
    requires Logged(s, e, ip, rp) && SameKeys(s, t) && RLogged(qp) == RLogged(rp)
    requires t.rLog == s.rLog && t.iLog == s.iLog
    ensures Logged(t, e, ip, qp)
  {
    hide ILog, RLog, SameKeys;
    SameLogs(e, s, t);
  }

  lemma Entries(e: Aes, s: Sys)
    ensures IEntry(e, s, 2) == Encrypt(TK, Second(e, Who(s.i))) && REntry(e, s, 2) == Encrypt(TK, Second(e, Who(s.r)))
    ensures IEntry(e, s, 3) == Pdu(ConfirmPdu(ConfirmOf(e, Who(s.i))))
            && REntry(e, s, 3) == Pdu(ConfirmPdu(ConfirmOf(e, Who(s.r))))
    ensures IEntry(e, s, 4) == Pdu(RandPdu(s.i.rand)) && REntry(e, s, 4) == Pdu(RandPdu(s.r.rand))
    ensures IEntry(e, s, 5) == REntry(e, s, 5) == Encrypt(TK, StkInput(s.i.rand, s.r.rand))
    ensures IEntry(e, s, 6) == StartEncryption(Stk(e, TK, s.r.rand, s.i.rand))
    ensures REntry(e, s, 6) == LtkReply(Stk(e, TK, s.r.rand, s.i.rand))
  {
    hide First, Second, ConfirmOf, ConfirmPdu, RandPdu, StkInput, Stk;
  }

  // ---- messages to the responder ----

  lemma RequestArrives(e: Aes, s: Sys, ip: IPhase, drawn: Block)
    requires At(e, s, ip, RWait) && s.toR != []
    ensures Readable(s.toR[0]) && At(e, Next(e, s, DeliverToR(drawn)), ip, RCal1)
  {
    hide Controller, LegacyConfirm, Stk, FirstInput, SecondInput, Messages, Jobs, Starts, CalConfirm, Logged, IEntry,
         REntry, StkInput, ConfirmOf, First, Second, IDevice;
    assert ip == IWait && s.toR == [REQ_DATA] && REQ_DATA[..7] == REQ_DATA;
    var t := Next(e, s, DeliverToR(drawn));
    CalAsks(s.r.(smp := PairingRsp, rand := drawn, buf := s.r.buf[..2] + REQ_DATA + RSP_DATA), s.r.buf[..2],
      [Pdu(RSP_DATA)]);
    assert OnPdu(s.r, REQ_DATA, drawn).sent == [Pdu(RSP_DATA), Encrypt(TK, First(Who(t.r)))];
    SentOne(e, Pdu(RSP_DATA));
    SentOne(e, Encrypt(TK, First(Who(t.r))));
    SentTwo(e, Pdu(RSP_DATA), Encrypt(TK, First(Who(t.r))));
    assert Logged(t, e, ip, RCal1) by { RequestLogs(e, s, t); }
  }

  lemma RequestLogs(e: Aes, s: Sys, t: Sys)
    requires Logged(s, e, IWait, RWait) && t.i == s.i && t.r.gap == s.r.gap && t.r.responder == s.r.responder
    requires t.rLog == s.rLog + [Pdu(RSP_DATA), Encrypt(TK, First(Who(t.r)))] && t.iLog == s.iLog
    ensures Logged(t, e, IWait, RCal1)
  {
    hide LegacyConfirm, Stk, StkInput, First, Second;
    assert RLog(e, t)[..2] == [Pdu(RSP_DATA), Encrypt(TK, First(Who(t.r)))];
    LogsWait(e, s, t);
  }

  lemma ConfirmArrivesAtR(e: Aes, s: Sys, ip: IPhase, rp: RPhase, drawn: Block)
    requires At(e, s, ip, rp) && (rp.RCal1? || rp.RCal2?) && s.toR != []
    ensures Readable(s.toR[0]) && At(e, Next(e, s, DeliverToR(drawn)), ip, RNext(rp, DeliverToR(drawn)))
  {
    hide Controller, LegacyConfirm, Stk, FirstInput, SecondInput, Messages, Jobs, Starts, CalConfirm, Logged, IEntry,
         REntry, StkInput, ConfirmOf, First, Second, IDevice;
    assert s.toR[0][0] == 3;
    var t := Next(e, s, DeliverToR(drawn));
    SentNone(e);
    LogsStay(e, s, t, ip, rp, RNext(rp, DeliverToR(drawn)));
  }

  lemma ConfirmArrivesLate(e: Aes, s: Sys, ip: IPhase, drawn: Block)
    requires At(e, s, ip, RPending) && s.toR != []
    ensures Readable(s.toR[0]) && At(e, Next(e, s, DeliverToR(drawn)), ip, RSentConfirm)
  {
    hide Controller, LegacyConfirm, Stk, FirstInput, SecondInput, Messages, Jobs, Starts, CalConfirm, Logged, IEntry,
         REntry, StkInput, ConfirmOf, First, Second, IDevice;
    assert s.toR[0][0] == 3;
    var t := Next(e, s, DeliverToR(drawn));
    SentOne(e, Pdu(ConfirmPdu(ConfirmOf(e, Who(s.r)))));
    Entries(e, t);
    RLogs(e, s, t, ip, RPending, RSentConfirm);
  }

  lemma HalfOf(r: Block)
    ensures RandPdu(r)[0] == 4 && RandPdu(r)[1..9] == r[..8]
  {
  }

  lemma SentNone(e: Aes)
    ensures Messages([]) == [] && Jobs(e, []) == [] && !Starts([])
  {
  }

  lemma RandomArrivesAtR(e: Aes, s: Sys, ip: IPhase, drawn: Block)
    requires At(e, s, ip, RSentConfirm) && s.toR != []
    ensures Readable(s.toR[0]) && At(e, Next(e, s, DeliverToR(drawn)), ip, RSentRand)
  {
    hide Controller, LegacyConfirm, Stk, FirstInput, SecondInput, Messages, Jobs, Starts, CalConfirm, Logged, IEntry,
         REntry, ConfirmOf, First, Second, IDevice;
    HalfOf(s.i.rand);
    assert s.toR[0] == RandPdu(s.i.rand);
    var t := Next(e, s, DeliverToR(drawn));
    SentOne(e, Pdu(RandPdu(s.r.rand)));
    Entries(e, t);
    RLogs(e, s, t, ip, RSentConfirm, RSentRand);
  }

  // ---- messages to the initiator ----

  lemma ResponseArrives(e: Aes, s: Sys, rp: RPhase, drawn: Block)
    requires At(e, s, IWait, rp) && s.toI != []
    ensures Readable(s.toI[0]) && At(e, Next(e, s, DeliverToI(drawn)), ICal1, rp)
  {
    hide Controller, LegacyConfirm, Stk, FirstInput, SecondInput, Messages, Jobs, Starts, CalConfirm, Logged, IEntry,
         REntry, StkInput, ConfirmOf, First, Second;
    assert s.toI == [RSP_DATA] && RSP_DATA[..7] == RSP_DATA;
    var t := Next(e, s, DeliverToI(drawn));
    assert s.i.buf[..9] + RSP_DATA == s.i.buf[..2] + REQ_DATA + RSP_DATA;
    CalAsks(s.i.(smp := PairingRsp, rand := drawn, buf := s.i.buf[..9] + RSP_DATA), s.i.buf[..2], []);
    assert OnPdu(s.i, RSP_DATA, drawn).sent == [Encrypt(TK, First(Who(t.i)))];
    SentOne(e, Encrypt(TK, First(Who(t.i))));
    assert Logged(t, e, ICal1, rp) by { ResponseLogs(e, s, t, rp); }
  }

  lemma ResponseLogs(e: Aes, s: Sys, t: Sys, rp: RPhase)
    requires Logged(s, e, IWait, rp) && RLogged(rp) <= 5 && t.r == s.r && t.i.gap == s.i.gap
             && t.i.responder == s.i.responder
    requires t.iLog == s.iLog + [Encrypt(TK, First(Who(t.i)))] && t.rLog == s.rLog
    ensures Logged(t, e, ICal1, rp)
  {
    hide LegacyConfirm, Stk, StkInput, First, Second;
    assert ILog(e, t)[..2] == ILog(e, s)[..1] + [Encrypt(TK, First(Who(t.i)))];
    RLogsWait(e, s, t);
  }

  lemma ConfirmArrivesAtI(e: Aes, s: Sys, rp: RPhase, drawn: Block)
    requires At(e, s, ISentConfirm, rp) && s.toI != []
    ensures Readable(s.toI[0]) && At(e, Next(e, s, DeliverToI(drawn)), ISentRand, rp)
  {
    hide Controller, LegacyConfirm, Stk, FirstInput, SecondInput, Messages, Jobs, Starts, CalConfirm, Logged, IEntry,
         REntry, StkInput, ConfirmOf, First, Second, RDevice;
    assert s.toI[0][0] == 3;
    var t := Next(e, s, DeliverToI(drawn));
    SentOne(e, Pdu(RandPdu(s.i.rand)));
    Entries(e, t);
    ILogs(e, s, t, ISentConfirm, ISentRand, rp);
  }

  lemma RandomArrivesAtI(e: Aes, s: Sys, rp: RPhase, drawn: Block)
    requires At(e, s, ISentRand, rp) && s.toI != []
    ensures Readable(s.toI[0]) && At(e, Next(e, s, DeliverToI(drawn)), IStk, rp)
  {
    hide Controller, LegacyConfirm, Stk, FirstInput, SecondInput, Messages, Jobs, Starts, CalConfirm, Logged, IEntry,
         REntry, ConfirmOf, First, Second, RDevice;
    HalfOf(s.r.rand);
    assert s.toI[0] == RandPdu(s.r.rand);
    assert OnPdu(s.i, s.toI[0], drawn).sent == [Encrypt(TK, StkInput(s.i.rand, s.r.rand))];
    var t := Next(e, s, DeliverToI(drawn));
    SentOne(e, Encrypt(TK, StkInput(s.i.rand, s.r.rand)));
    StkInOne(e, TK, s.i.rand, s.r.rand);
    Entries(e, t);
    ILogs(e, s, t, ISentRand, IStk, rp);
  }

  // ---- encryptions ----

  lemma ICal1Done(e: Aes, s: Sys, rp: RPhase)
    requires At(e, s, ICal1, rp)
    ensures s.iJobs != [] && At(e, Next(e, s, DoneI), ICal2, rp)
  {
    hide Controller, LegacyConfirm, Stk, FirstInput, SecondInput, Messages, Jobs, Starts, CalConfirm, Logged, IEntry,
         REntry, StkInput, ConfirmOf, First, Second, RDevice, ConfirmPdu, RandPdu;
    Inputs(e, s.i);
    var t := Next(e, s, DoneI);
    SentOne(e, Encrypt(TK, Second(e, Who(s.i))));
    assert OnEncrypted(s.i, s.iJobs[0]).sent == [Encrypt(TK, Second(e, Who(s.i)))];
    Entries(e, t);
    ILogs(e, s, t, ICal1, ICal2, rp);
  }

  lemma ICal2Done(e: Aes, s: Sys, rp: RPhase)
    requires At(e, s, ICal2, rp)
    ensures s.iJobs != [] && At(e, Next(e, s, DoneI), ISentConfirm, rp)
  {
    hide Controller, LegacyConfirm, Stk, FirstInput, SecondInput, Messages, Jobs, Starts, CalConfirm, Logged, IEntry,
         REntry, StkInput, ConfirmOf, First, Second, RDevice, ConfirmPdu, RandPdu;
    var t := Next(e, s, DoneI);
    SentOne(e, Pdu(ConfirmPdu(ConfirmOf(e, Who(s.i)))));
    assert OnEncrypted(s.i, s.iJobs[0]).sent == [Pdu(ConfirmPdu(ConfirmOf(e, Who(s.i))))];
    Entries(e, t);
    ILogs(e, s, t, ICal2, ISentConfirm, rp);
  }

  lemma IStkDone(e: Aes, s: Sys, rp: RPhase)
    requires At(e, s, IStk, rp)
    ensures s.iJobs != [] && At(e, Next(e, s, DoneI), IStarted, rp)
  {
    hide Controller, LegacyConfirm, Stk, FirstInput, SecondInput, Messages, Jobs, Starts, CalConfirm, Logged, IEntry,
         REntry, StkInput, ConfirmOf, First, Second, RDevice, ConfirmPdu, RandPdu;
    var t := Next(e, s, DoneI);
    SentOne(e, StartEncryption(Stk(e, TK, s.r.rand, s.i.rand)));
    assert OnEncrypted(s.i, s.iJobs[0]).sent == [StartEncryption(Stk(e, TK, s.r.rand, s.i.rand))];
    Entries(e, t);
    ILogs(e, s, t, IStk, IStarted, rp);
  }

  lemma RCal1Done(e: Aes, s: Sys, ip: IPhase)
    requires At(e, s, ip, RCal1)
    ensures s.rJobs != [] && At(e, Next(e, s, DoneR), ip, RCal2)
  {
    hide Controller, LegacyConfirm, Stk, FirstInput, SecondInput, Messages, Jobs, Starts, CalConfirm, Logged, IEntry,
         REntry, StkInput, ConfirmOf, First, Second, IDevice, ConfirmPdu, RandPdu;
    Inputs(e, s.r);
    var t := Next(e, s, DoneR);
    SentOne(e, Encrypt(TK, Second(e, Who(s.r))));
    assert OnEncrypted(s.r, s.rJobs[0]).sent == [Encrypt(TK, Second(e, Who(s.r)))];
    Entries(e, t);
    RLogs(e, s, t, ip, RCal1, RCal2);
  }

  lemma RCal1GotDone(e: Aes, s: Sys, ip: IPhase)
    requires At(e, s, ip, RCal1Got)
    ensures s.rJobs != [] && At(e, Next(e, s, DoneR), ip, RCal2Got)
  {
    hide Controller, LegacyConfirm, Stk, FirstInput, SecondInput, Messages, Jobs, Starts, CalConfirm, Logged, IEntry,
         REntry, StkInput, ConfirmOf, First, Second, IDevice, ConfirmPdu, RandPdu;
    Inputs(e, s.r);
    var t := Next(e, s, DoneR);
    SentOne(e, Encrypt(TK, Second(e, Who(s.r))));
    assert OnEncrypted(s.r, s.rJobs[0]).sent == [Encrypt(TK, Second(e, Who(s.r)))];
    Entries(e, t);
    RLogs(e, s, t, ip, RCal1Got, RCal2Got);
  }

  lemma RCal2Done(e: Aes, s: Sys, ip: IPhase)
    requires At(e, s, ip, RCal2)
    ensures s.rJobs != [] && At(e, Next(e, s, DoneR), ip, RPending)
  {
    hide Controller, LegacyConfirm, Stk, FirstInput, SecondInput, Messages, Jobs, Starts, CalConfirm, Logged, IEntry,
         REntry, StkInput, ConfirmOf, First, Second, IDevice, ConfirmPdu, RandPdu;
    var t := Next(e, s, DoneR);
    SentNone(e);
    LogsStay(e, s, t, ip, RCal2, RPending);
  }

  lemma RCal2GotDone(e: Aes, s: Sys, ip: IPhase)
    requires At(e, s, ip, RCal2Got)
    ensures s.rJobs != [] && At(e, Next(e, s, DoneR), ip, RSentConfirm)
  {
    hide Controller, LegacyConfirm, Stk, FirstInput, SecondInput, Messages, Jobs, Starts, CalConfirm, Logged, IEntry,
         REntry, StkInput, ConfirmOf, First, Second, IDevice, ConfirmPdu, RandPdu;
    var t := Next(e, s, DoneR);
    SentOne(e, Pdu(ConfirmPdu(ConfirmOf(e, Who(s.r)))));
    assert OnEncrypted(s.r, s.rJobs[0]).sent == [Pdu(ConfirmPdu(ConfirmOf(e, Who(s.r))))];
    Entries(e, t);
    RLogs(e, s, t, ip, RCal2Got, RSentConfirm);
  }

  lemma RStkDone(e: Aes, s: Sys, ip: IPhase)
    requires At(e, s, ip, RStk)
    ensures s.rJobs != [] && At(e, Next(e, s, DoneR), ip, RReplied)
  {
    hide Controller, LegacyConfirm, Stk, FirstInput, SecondInput, Messages, Jobs, Starts, CalConfirm, Logged, IEntry,
         REntry, StkInput, ConfirmOf, First, Second, IDevice, ConfirmPdu, RandPdu;
    var t := Next(e, s, DoneR);
    SentOne(e, LtkReply(Stk(e, TK, s.r.rand, s.i.rand)));
    assert OnEncrypted(s.r, s.rJobs[0]).sent == [LtkReply(Stk(e, TK, s.r.rand, s.i.rand))];
    Entries(e, t);
    RLogs(e, s, t, ip, RStk, RReplied);
  }

  lemma KeyAsked(e: Aes, s: Sys, ip: IPhase, rp: RPhase)
    requires At(e, s, ip, rp) && s.asked
    ensures At(e, Next(e, s, LtkEvent), ip, RNext(rp, LtkEvent))
  {
    hide Controller, LegacyConfirm, Stk, FirstInput, SecondInput, Messages, Jobs, Starts, CalConfirm, Logged, IEntry,
         REntry, StkInput, ConfirmOf, First, Second, IDevice, ConfirmPdu, RandPdu, Own;
    SentOne(e, Encrypt(TK, StkInput(s.i.rand, s.r.rand)));
    StkInOne(e, TK, s.i.rand, s.r.rand);
    assert OnLtkRequest(s.r).sent == [Encrypt(TK, StkInput(s.i.rand, s.r.rand))];
    var t := Next(e, s, LtkEvent);
    Entries(e, t);
    RLogs(e, s, t, ip, RSentRand, RStk);
  }

  // ---- any event ----

  lemma Takers(e: Aes, s: Sys, ip: IPhase, rp: RPhase)
    requires At(e, s, ip, rp)
    ensures s.toR != [] ==> rp.RWait? || rp.RCal1? || rp.RCal2? || rp.RPending? || rp.RSentConfirm?
    ensures s.toI != [] ==> ip.IWait? || ip.ISentConfirm? || ip.ISentRand?
    ensures s.iJobs != [] ==> ip.ICal1? || ip.ICal2? || ip.IStk?
    ensures s.rJobs != [] ==> rp.RCal1? || rp.RCal2? || rp.RCal1Got? || rp.RCal2Got? || rp.RStk?
    ensures s.asked ==> rp.RSentRand?
  {
    hide IDevice, RDevice, Logged, Owed, Own;
    assert s.iJobs != [] ==> ip.ICal1? || ip.ICal2? || ip.IStk? by {
      OwedWhen(e, Who(s.i), ip.ICal1?, ip.ICal2?, ip.IStk?, s.i.rand, s.r.rand);
    }
    assert s.rJobs != [] ==> rp.RCal1? || rp.RCal2? || rp.RCal1Got? || rp.RCal2Got? || rp.RStk? by {
      OwedWhen(e, Who(s.r), rp.RCal1? || rp.RCal1Got?, rp.RCal2? || rp.RCal2Got?, rp.RStk?, s.i.rand, s.r.rand);
    }
  }

  lemma OwedWhen(e: Aes, d: Device, cal1: bool, cal2: bool, stk: bool, irand: Block, rrand: Block)
    ensures Owed(e, d, cal1, cal2, stk, irand, rrand) != [] <==> cal1 || cal2 || stk
  {
  }

  lemma StepMovesR(e: Aes, s: Sys, ip: IPhase, rp: RPhase, drawn: Block)
    requires At(e, s, ip, rp) && s.toR != []
    ensures Readable(s.toR[0]) && At(e, Next(e, s, DeliverToR(drawn)), ip, RNext(rp, DeliverToR(drawn)))
    ensures RRank(RNext(rp, DeliverToR(drawn))) == RRank(rp) + 1
  {
    hide At, Next, Readable;
    Takers(e, s, ip, rp);
    if rp.RWait? {
      RequestArrives(e, s, ip, drawn);
    } else if rp.RSentConfirm? {
      RandomArrivesAtR(e, s, ip, drawn);
    } else if rp.RPending? {
      ConfirmArrivesLate(e, s, ip, drawn);
    } else {
      ConfirmArrivesAtR(e, s, ip, rp, drawn);
    }
  }

  lemma StepMovesI(e: Aes, s: Sys, ip: IPhase, rp: RPhase, drawn: Block)
    requires At(e, s, ip, rp) && s.toI != []
    ensures Readable(s.toI[0]) && At(e, Next(e, s, DeliverToI(drawn)), INext(ip, DeliverToI(drawn)), rp)
    ensures IRank(INext(ip, DeliverToI(drawn))) == IRank(ip) + 1
  {
    hide At, Next, Readable;
    Takers(e, s, ip, rp);
    if ip.IWait? {
      ResponseArrives(e, s, rp, drawn);
    } else if ip.ISentConfirm? {
      ConfirmArrivesAtI(e, s, rp, drawn);
    } else {
      RandomArrivesAtI(e, s, rp, drawn);
    }
  }

  lemma IEncrypts(e: Aes, s: Sys, ip: IPhase, rp: RPhase)
    requires At(e, s, ip, rp) && s.iJobs != []
    ensures At(e, Next(e, s, DoneI), INext(ip, DoneI), rp)
    ensures IRank(INext(ip, DoneI)) == IRank(ip) + 1
  {
    hide At, Next;
    Takers(e, s, ip, rp);
    if ip.ICal1? {
      ICal1Done(e, s, rp);
    } else if ip.ICal2? {
      ICal2Done(e, s, rp);
    } else {
      IStkDone(e, s, rp);
    }
  }

  lemma REncrypts(e: Aes, s: Sys, ip: IPhase, rp: RPhase)
    requires At(e, s, ip, rp) && s.rJobs != []
    ensures At(e, Next(e, s, DoneR), ip, RNext(rp, DoneR))
    ensures RRank(RNext(rp, DoneR)) == RRank(rp) + 1
  {
    hide At, Next;
    Takers(e, s, ip, rp);
    if rp.RCal1? {
      RCal1Done(e, s, ip);
    } else if rp.RCal1Got? {
      RCal1GotDone(e, s, ip);
    } else if rp.RCal2? {
      RCal2Done(e, s, ip);
    } else if rp.RCal2Got? {
      RCal2GotDone(e, s, ip);
    } else {
      RStkDone(e, s, ip);
    }
  }

  /** Any event in any reachable state. */
  lemma StepMoves(e: Aes, s: Sys, ip: IPhase, rp: RPhase, step: Step)
    requires At(e, s, ip, rp) && Enabled(s, step)
    ensures At(e, Next(e, s, step), INext(ip, step), RNext(rp, step))
    ensures IRank(INext(ip, step)) + RRank(RNext(rp, step)) == IRank(ip) + RRank(rp) + 1
  {
    hide At, Next, Readable;
    Takers(e, s, ip, rp);
    match step
    case DeliverToR(drawn) => StepMovesR(e, s, ip, rp, drawn);
    case DeliverToI(drawn) => StepMovesI(e, s, ip, rp, drawn);
    case DoneI => IEncrypts(e, s, ip, rp);
    case DoneR => REncrypts(e, s, ip, rp);
    case LtkEvent => KeyAsked(e, s, ip, rp);
  }

  /** Until both sides have their key, some event can happen. */
  lemma SomethingHappens(e: Aes, s: Sys, ip: IPhase, rp: RPhase) returns (step: Step)
    requires At(e, s, ip, rp) && IRank(ip) + RRank(rp) < 13
    ensures Enabled(s, step)
  {
    step := if s.iJobs != [] then DoneI else if s.rJobs != [] then DoneR else if s.asked then LtkEvent
            else if s.toR != [] then DeliverToR(TK) else DeliverToI(TK);
    hide IDevice, RDevice, Logged, Owed, Own;
    OwedWhen(e, Who(s.i), ip.ICal1?, ip.ICal2?, ip.IStk?, s.i.rand, s.r.rand);
    OwedWhen(e, Who(s.r), rp.RCal1? || rp.RCal1Got?, rp.RCal2? || rp.RCal2Got?, rp.RStk?, s.i.rand, s.r.rand);
    if s.toR != [] {
      StepMovesR(e, s, ip, rp, TK);
    } else if s.toI != [] {
      StepMovesI(e, s, ip, rp, TK);
    }
  }
}
