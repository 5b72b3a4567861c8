/** Whole pairings: every interleaving does the same thing. */
module SmpRuns {
  import opened Bytes
  import opened SmpCrypto
  import opened SmpModel
  import opened SmpSystem
  import opened SmpSteps

  /** Nothing under way; what earlier pairings left in the two hosts does not matter. */
  ghost predicate Quiet(s: Sys) {
    && !s.i.responder && s.r.responder && !s.i.busy && !s.r.busy
    && s.toR == [] && s.toI == [] && s.iJobs == [] && s.rJobs == [] && !s.asked
  }

  /** The hosts know each other's addresses. */
  ghost predicate Mirrored(s: Sys) {
    s.r.gap == Gap(s.i.gap.peerType, s.i.gap.peer, s.i.gap.localType, s.i.gap.local)
  }

  /** The initiator's host asks for pairing. */
  ghost function Auth(e: Aes, s: Sys): Sys {
    FromI(e, s.(iLog := [], rLog := []), OnAuth(s.i))
  }

  ghost predicate Possible(e: Aes, s: Sys, steps: seq<Step>)
    decreases |steps|
  {
    steps != [] ==> Enabled(s, steps[0]) && Possible(e, Next(e, s, steps[0]), steps[1..])
  }

  ghost function After(e: Aes, s: Sys, steps: seq<Step>): Sys
    requires Possible(e, s, steps)
    decreases |steps|
  {
    if steps == [] then s else After(e, Next(e, s, steps[0]), steps[1..])
  }

  lemma AuthStarts(e: Aes, s: Sys)
    requires Quiet(s)
    ensures At(e, Auth(e, s), IWait, RWait)
  {
    hide Controller, LegacyConfirm, Stk, FirstInput, SecondInput, StkInput, Messages, Jobs, Starts;
    var t := Auth(e, s);
    SentOne(e, Pdu(REQ_DATA));
    assert t.i.buf[2..9] == REQ_DATA;
    assert t.toR == Own(REQ_DATA, e, Who(t.i))[..1];
    assert t.iLog == ILog(e, t)[..1];
  }

  lemma {:induction false} RunMoves(e: Aes, s: Sys, ip: IPhase, rp: RPhase, steps: seq<Step>)
    returns (jp: IPhase, qp: RPhase)
    requires At(e, s, ip, rp) && Possible(e, s, steps)
    ensures At(e, After(e, s, steps), jp, qp)
    ensures IRank(jp) + RRank(qp) == IRank(ip) + RRank(rp) + |steps|
    decreases |steps|
  {
    hide At, Enabled, Next;
    jp, qp := ip, rp;
    if steps != [] {
      StepMoves(e, s, ip, rp, steps[0]);
      jp, qp := RunMoves(e, Next(e, s, steps[0]), INext(ip, steps[0]), RNext(rp, steps[0]), steps[1..]);
    }
  }

  /** In every interleaving, at every moment, each host has sent a first part of one fixed
      list: its first message, the encryptions that make up its confirm value, that value
      once, its random value once, the encryption that gives the key, and the key. */
  lemma Interleavings(e: Aes, s: Sys, steps: seq<Step>)
    requires Quiet(s) && Possible(e, Auth(e, s), steps)
    ensures var t := After(e, Auth(e, s), steps);
            t.iLog <= ILog(e, t) && t.rLog <= RLog(e, t) && |steps| <= 13
  {
    hide At, ILog, RLog, After, Auth, Possible, Quiet, Enabled;
    AuthStarts(e, s);
    var ip, rp := RunMoves(e, Auth(e, s), IWait, RWait, steps);
    LogsSoFar(e, After(e, Auth(e, s), steps), ip, rp);
  }

  lemma LogsSoFar(e: Aes, t: Sys, ip: IPhase, rp: RPhase)
    requires At(e, t, ip, rp)
    ensures t.iLog <= ILog(e, t) && t.rLog <= RLog(e, t)
  {
    hide ILog, RLog, IDevice, RDevice, InFlight, Computing;
  }

  /** A pairing stops only when both hosts have sent their whole list, after 13 events, and
      leaves everything ready for the next. */
  lemma Completion(e: Aes, s: Sys, steps: seq<Step>)
    requires Quiet(s) && Possible(e, Auth(e, s), steps)
    ensures var t := After(e, Auth(e, s), steps);
            && ((forall step :: !Enabled(t, step)) <==> |steps| == 13)
            && (|steps| == 13 ==> t.iLog == ILog(e, t) && t.rLog == RLog(e, t) && Quiet(t))
  {
    hide At, ILog, RLog, After, Auth, Possible, Quiet, Enabled;
    AuthStarts(e, s);
    var t := After(e, Auth(e, s), steps);
    var ip, rp := RunMoves(e, Auth(e, s), IWait, RWait, steps);
    if |steps| < 13 {
      var step := SomethingHappens(e, t, ip, rp);
    } else {
      AtEnd(e, t, ip, rp);
    }
  }

  lemma AtEnd(e: Aes, t: Sys, ip: IPhase, rp: RPhase)
    requires At(e, t, ip, rp) && IRank(ip) + RRank(rp) == 13
    ensures t.iLog == ILog(e, t) && t.rLog == RLog(e, t) && Quiet(t)
    ensures forall step :: !Enabled(t, step)
  {
    assert ip == IStarted && rp == RReplied;
    hide ILog, RLog, Own, ConfirmOf, Stk;
    assert ILog(e, t)[..7] == ILog(e, t) && RLog(e, t)[..7] == RLog(e, t);
  }

  // ---- what that means for the confirm values and the key ----

  /** The confirm messages among what a host has sent. */
  function Confirms(log: seq<Out>): seq<seq<byte>> {
    if log == [] then []
    else (if log[0].Pdu? && log[0].bytes != [] && log[0].bytes[0] == 3 then [log[0].bytes] else []) + Confirms(log[1..])
  }

  /** The keys a host has given its controller. */
  function Keys(log: seq<Out>): seq<Block> {
    if log == [] then []
    else (if log[0].StartEncryption? || log[0].LtkReply? then [log[0].ltk] else []) + Keys(log[1..])
  }

  lemma {:induction false} Prefixes(a: seq<Out>, b: seq<Out>)
    requires a <= b
    ensures Confirms(a) <= Confirms(b) && Keys(a) <= Keys(b)
    decreases |a|
  {
    if a != [] {
      Prefixes(a[1..], b[1..]);
    }
  }

  lemma PartSays(first: seq<byte>, e: Aes, d: Device, irand: Block, rrand: Block, last: Out)
    requires first != [] && first[0] != 3 && (last.StartEncryption? || last.LtkReply?)
    ensures var log := Part(first, e, d, irand, rrand) + [last];
            Confirms(log) == [ConfirmPdu(ConfirmOf(e, d))] && Keys(log) == [last.ltk]
  {
    hide First, Second, ConfirmOf, StkInput, Confirms, Keys;
    var p := Part(first, e, d, irand, rrand);
    Cons(last, [], [last]);
    Cons(p[5], [last], [p[5], last]);
    Cons(p[4], [p[5], last], [p[4], p[5], last]);
    Cons(p[3], [p[4], p[5], last], [p[3], p[4], p[5], last]);
    Cons(p[2], [p[3], p[4], p[5], last], [p[2], p[3], p[4], p[5], last]);
    Cons(p[1], [p[2], p[3], p[4], p[5], last], [p[1], p[2], p[3], p[4], p[5], last]);
    Cons(p[0], [p[1], p[2], p[3], p[4], p[5], last], [p[0], p[1], p[2], p[3], p[4], p[5], last]);
    assert p + [last] == [p[0], p[1], p[2], p[3], p[4], p[5], last];
    assert Confirms([]) == [] && Keys([]) == [] by { Nothing(); }
  }

  lemma Nothing()
    ensures Confirms([]) == [] && Keys([]) == []
  {
  }

  lemma Cons(a: Out, rest: seq<Out>, log: seq<Out>)
    requires log == [a] + rest
    ensures Confirms(log) == (if a.Pdu? && a.bytes != [] && a.bytes[0] == 3 then [a.bytes] else []) + Confirms(rest)
    ensures Keys(log) == (if a.StartEncryption? || a.LtkReply? then [a.ltk] else []) + Keys(rest)
  {
    assert log[1..] == rest;
  }

  /** Each host sends at most one confirm value, the one the toolbox computes from its own
      random value; and any key a host gives its controller is the toolbox's short term key
      of both random values. */
  lemma OneConfirmOneKey(e: Aes, s: Sys, steps: seq<Step>)
    requires Quiet(s) && Mirrored(s) && Possible(e, Auth(e, s), steps)
    ensures var t := After(e, Auth(e, s), steps);
            var iat, rat, ia, ra := s.i.gap.localType, s.i.gap.peerType, s.i.gap.local, s.i.gap.peer;
            && Confirms(t.iLog) <= [ConfirmPdu(LegacyConfirm(e, TK, t.i.rand, REQ_DATA, RSP_DATA, iat, ia, rat, ra))]
            && Confirms(t.rLog) <= [ConfirmPdu(LegacyConfirm(e, TK, t.r.rand, REQ_DATA, RSP_DATA, iat, ia, rat, ra))]
            && Keys(t.iLog) <= [Stk(e, TK, t.r.rand, t.i.rand)] && Keys(t.rLog) <= [Stk(e, TK, t.r.rand, t.i.rand)]
            && (|steps| == 13 ==> |Confirms(t.iLog)| == |Confirms(t.rLog)| == |Keys(t.iLog)| == |Keys(t.rLog)| == 1)
  {
    var t := After(e, Auth(e, s), steps);
    Interleavings(e, s, steps);
    Completion(e, s, steps);
    SameAddresses(e, s, steps);
    hide After, Auth, Possible, Confirms, Keys, Part, LegacyConfirm, Stk, ConfirmPdu, Quiet, Enabled;
    Prefixes(t.iLog, ILog(e, t));
    Prefixes(t.rLog, RLog(e, t));
    PartSays(REQ_DATA, e, t.i, t.i.rand, t.r.rand, StartEncryption(Stk(e, TK, t.r.rand, t.i.rand)));
    PartSays(RSP_DATA, e, t.r, t.i.rand, t.r.rand, LtkReply(Stk(e, TK, t.r.rand, t.i.rand)));
  }

  /** Same role, same addresses. */
  ghost predicate SamePart(d: Device, f: Device) {
    f.gap == d.gap && f.responder == d.responder
  }

  lemma PduKeepsPart(d: Device, pdu: seq<byte>, drawn: Block)
    requires Readable(pdu)
    ensures SamePart(d, OnPdu(d, pdu, drawn).next)
  {
    hide Xor, ConfirmPdu, RandPdu;
  }

  lemma EncryptedKeepsPart(d: Device, x: Block)
    ensures SamePart(d, OnEncrypted(d, x).next)
  {
    hide SecondInput, ConfirmPdu, RandPdu;
  }

  lemma StepKeepsAddresses(e: Aes, s: Sys, step: Step)
    requires Enabled(s, step)
    ensures SamePart(s.i, Next(e, s, step).i) && SamePart(s.r, Next(e, s, step).r)
  {
    hide Messages, Jobs, Starts, OnPdu, OnEncrypted, Readable;
    match step
    case DeliverToR(drawn) => PduKeepsPart(s.r, s.toR[0], drawn);
    case DeliverToI(drawn) => PduKeepsPart(s.i, s.toI[0], drawn);
    case DoneI => EncryptedKeepsPart(s.i, s.iJobs[0]);
    case DoneR => EncryptedKeepsPart(s.r, s.rJobs[0]);
    case LtkEvent =>
  }

  lemma {:induction false} RunKeepsAddresses(e: Aes, s: Sys, steps: seq<Step>)
    requires Possible(e, s, steps)
    ensures SamePart(s.i, After(e, s, steps).i) && SamePart(s.r, After(e, s, steps).r)
    decreases |steps|
  {
    hide Enabled, Next;
    if steps != [] {
      StepKeepsAddresses(e, s, steps[0]);
      RunKeepsAddresses(e, Next(e, s, steps[0]), steps[1..]);
    }
  }

  lemma SameAddresses(e: Aes, s: Sys, steps: seq<Step>)
    requires Quiet(s) && Mirrored(s) && Possible(e, Auth(e, s), steps)
    ensures var t := After(e, Auth(e, s), steps);
            && Iat(t.i) == Iat(t.r) == s.i.gap.localType && Rat(t.i) == Rat(t.r) == s.i.gap.peerType
            && Ia(t.i) == Ia(t.r) == s.i.gap.local && Ra(t.i) == Ra(t.r) == s.i.gap.peer
  {
    RunKeepsAddresses(e, Auth(e, s), steps);
    hide After, Possible, Messages, Jobs, Starts;
  }
}
