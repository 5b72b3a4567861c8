/** Every step of a resumed transfer: it stays beside the fresh one, or is decided. */
module DfuResumeSteps {
  import opened Bytes
  import opened Crc32
  import opened DfuModel
  import opened DfuControl
  import opened DfuSystem
  import opened DfuEcho
  import opened DfuPace
  import opened DfuResume
  import opened DfuProgress

  // ---- facts about states beside each other ----

  lemma EchoSteady(src: Source, x: Base, s: Sys, v: Sys)
    requires Echo(src, x, s, v)
    ensures Steady(src, s.c)
  {
    hide Shifted, Queued, Partly, Phase, Records, Outset, Crc, PeerMirrors, Pacing;
    assert Supplied(Part(src, x), v.c);
    MirrorsSupplied(src, x, s.c, v.c);
    hide Stuck;
  }

  // ---- a packet reaches the peer ----

  lemma PeerMirrorsData(x: Base, p: Peer, w: Peer, b: seq<byte>)
    requires PeerMirrors(x, p, w) && InSync(w) && w.offset + |b| < WORD
    ensures PeerMirrors(x, PeerNext(p, Data(b)), PeerNext(w, Data(b)))
  {
    hide Crc;
    CrcConcat(x.peerCrc, w.received, b);
    AddWord(x.peerOffset + w.offset, |b|);
    assert x.received + (w.received + b) == x.received + w.received + b;
  }

  lemma Delivered(s: Sys)
    requires s.out != [] && (s.out[0] == Ctrl([CAL_CHECKSUM]) || s.out[0].Data?)
    ensures DeliverToPeer(s) == if s.out[0].Data? then s.(p := PeerNext(s.p, s.out[0]), out := s.out[1..])
                                else s.(out := s.out[1..], back := s.back + [CrcReply(s.p)])
  {
    hide SelectReply, CrcReply, Crc;
    assert s.back + [] == s.back;
  }

  lemma EchoToPeer(src: Source, x: Base, s: Sys, v: Sys)
    requires Echo(src, x, s, v) && s.out != []
    ensures Echo(src, x, DeliverToPeer(s), DeliverToPeer(v))
  {
    hide Inv, Mirrors, Crc, Pacing, PeerMirrors, CrcReply, DeliverToPeer, PeerNext;
    ToPeerKeeps(Part(src, x), v);
    NextPacket(Part(src, x), v);
    Delivered(s);
    Delivered(v);
    if v.out[0].Data? {
      PeerMirrorsData(x, s.p, v.p, v.out[0].bytes);
    }
  }

  /** The next packet of a transfer is data, behind which the peer is still in order, or the
      one request for the CRC. */
  lemma NextPacket(src: Source, v: Sys)
    requires Inv(src, v) && Sending(v.c.state) && v.out != []
    ensures v.out[0] == Ctrl([CAL_CHECKSUM]) || v.out[0].Data?
    ensures v.out[0].Data? ==> InSync(v.p) && v.p.offset + |v.out[0].bytes| < WORD
    ensures v.back == []
  {
    hide Steady, Records, Outset, Crc, InSync;
    SizesBounded(src, v.c);
    if v.c.state == PdGetCrc {
      var n := |v.out| - 1;
      if n > 0 {
        assert v.out[..n][0] == v.out[0];
        FlowRoom(src, v.c, v.p, v.out[..n]);
      }
    } else {
      FlowRoom(src, v.c, v.p, v.out);
    }
    hide Flowing;
  }

  lemma FlowRoom(src: Source, c: Client, p: Peer, out: seq<Packet>)
    requires Flowing(src, c, p, out) && out != [] && |src.Bytes(c.cur)| < WORD
    ensures out[0].Data? && InSync(p) && p.offset + |out[0].bytes| < WORD
  {
    hide Crc;
    PayloadHead(out);
    assert |p.received + Payload(out)| <= |src.Bytes(c.cur)|;
  }

  // ---- the sending loop is entered ----

  lemma StWritePaced(src: Source, x: Base, v: Client)
    requires Based(src, x) && Writing(Part(src, x), v) && v.cur == Command
    requires v.sendLen == x.sendLen && v.prn == x.prn
    requires Paced(x, v.cmd.offset, v.prnCnt) && OnCourse(x, v.cmd.offset, true)
    ensures Goes(Part(src, x), v)
    ensures var w := StWrite(Part(src, x), v); Pacing(x, w) && Sending(w.state)
  {
    hide Partly, Queued, Loop, Streamed, Paced, OnCourse, Checkpoint;
    var p, d := Part(src, x), v.(state := Write);
    WritingGoes(p, v);
    StateFree(p, v);
    LoopPaced(src, x, d);
    LoopKeeps(p, d);
    var (w, ask) := Loop(p, d);
    if ask {
      AskedPaced(x, w);
    }
  }

  lemma AskedPaced(x: Base, w: Client)
    requires x.sendLen > 0 && Paced(x, w.cmd.offset, w.prnCnt) && OnCourse(x, w.cmd.offset, false)
    requires w.prnCnt == 0 && (w.cmd.offset < x.size ==> Checkpoint(x, w.cmd.offset))
    ensures Pacing(x, StGetCrc(w)) && Sending(StGetCrc(w).state)
  {
    hide Paced, OnCourse, Checkpoint;
  }

  /** Both clients enter the sending loop; what they send is put on its way. */
  lemma EchoWrites(src: Source, x: Base, s: Sys, v: Sys)
    requires Based(src, x) && 0 < x.size && x.offset < WORD && x.peerOffset < WORD
    requires Mirrors(src, x, s.c, v.c) && PeerMirrors(x, s.p, v.p) && Ends(s.c.events) == x.reported
    requires s.out == v.out && Writing(Part(src, x), v.c)
    requires Paced(x, v.c.cmd.offset, v.c.prnCnt) && OnCourse(x, v.c.cmd.offset, true)
    ensures Goes(src, s.c) && Goes(Part(src, x), v.c)
    ensures var e, w := StWrite(src, s.c), StWrite(Part(src, x), v.c);
            s.c.sent <= e.sent && v.c.sent <= w.sent
            && (Inv(Part(src, x), Moved(v, w, [])) ==> Echo(src, x, Moved(s, e, []), Moved(v, w, [])))
  {
    hide Partly, Queued, Stuck, StWrite, Paced, OnCourse, PeerMirrors, Inv, Pacing, Shifted;
    StWriteMirrors(src, x, s.c, v.c);
    StWritePaced(src, x, v.c);
    StWriteGrows(src, s.c);
    StWriteGrows(Part(src, x), v.c);
    hide Mirrors;
    SameSent(src, x, s.c, v.c);
    SameSent(src, x, StWrite(src, s.c), StWrite(Part(src, x), v.c));
  }

  lemma SameSent(src: Source, x: Base, c: Client, v: Client)
    requires Based(src, x) && Mirrors(src, x, c, v)
    ensures c.sent == v.sent
  {
  }

  lemma StWriteGrows(src: Source, c: Client)
    requires Goes(src, c)
    ensures c.sent <= StWrite(src, c).sent
  {
    var d := c.(state := Write);
    LoopWorks(src, d);
    hide Loop, Queued, Stuck;
  }

  lemma EchoGrant(src: Source, x: Base, s: Sys, v: Sys, n: nat)
    requires Echo(src, x, s, v) && n < 128
    ensures Acceptable(src, s, Grant(n)) && Act(src, s, Grant(n)).Live?
    ensures Echo(src, x, Act(src, s, Grant(n)).s, GrantCredits(Part(src, x), v, n))
  {
    hide Inv, Mirrors, PeerMirrors, Pacing, Act, Steady, GrantCredits;
    EchoSteady(src, x, s, v);
    GrantKeeps(Part(src, x), v, n);
    if v.c.state == Write {
      GrantWrite(src, x, s, v, n);
    } else {
      GrantWaiting(src, x, s, v, n);
    }
  }

  lemma GrantWrite(src: Source, x: Base, s: Sys, v: Sys, n: nat)
    requires Echo(src, x, s, v) && n < 128 && v.c.state == Write && Acceptable(src, s, Grant(n))
    requires Inv(Part(src, x), GrantCredits(Part(src, x), v, n))
    ensures Act(src, s, Grant(n)).Live?
    ensures Echo(src, x, Act(src, s, Grant(n)).s, GrantCredits(Part(src, x), v, n))
  {
    hide Partly, Queued, Stuck, Streamed, Phase, Records, Outset, PeerMirrors, StWrite;
    var p, d, w := Part(src, x), s.c.(credits := n), v.c.(credits := n);
    WriteGranted(p, v.c, n);
    assert v.back == [] by { WriteQuiet(p, v); }
    assert Writing(p, w);
    assert Mirrors(src, x, d, w);
    hide Mirrors, Shifted;
    EchoWrites(src, x, s.(c := d), v.(c := w));
    GrantIs(src, s, n);
    hide Echo;
  }

  lemma WriteQuiet(src: Source, v: Sys)
    requires Phase(src, v) && v.c.state == Write
    ensures v.back == []
  {
  }

  lemma GrantIs(src: Source, s: Sys, n: nat)
    requires Steady(src, s.c) && n < 128 && s.c.state == Write && Goes(src, s.c.(credits := n))
    ensures Acceptable(src, s, Grant(n)) && Act(src, s, Grant(n)).Live?
    ensures var e := StWrite(src, s.c.(credits := n));
            s.c.sent <= e.sent && Act(src, s, Grant(n)).s == Moved(s.(c := s.c.(credits := n)), e, s.back)
  {
    StWriteGrows(src, s.c.(credits := n));
    hide Queued, StWrite;
  }

  lemma GrantWaiting(src: Source, x: Base, s: Sys, v: Sys, n: nat)
    requires Echo(src, x, s, v) && n < 128 && v.c.state != Write && Acceptable(src, s, Grant(n))
    requires Inv(Part(src, x), GrantCredits(Part(src, x), v, n))
    ensures Act(src, s, Grant(n)).Live?
    ensures Echo(src, x, Act(src, s, Grant(n)).s, GrantCredits(Part(src, x), v, n))
  {
    hide Inv, Partly, Queued, Stuck, PeerMirrors, Paced, OnCourse, Checkpoint, Shifted, Steady;
  }

  // ---- a CRC answer reaches the client ----

  /** What a CRC answer does, on the peer's numbers. */
  lemma CrcAnswered(src: Source, s: Sys)
    requires Steady(src, s.c) && s.c.state == PdGetCrc && s.back == [CrcReply(s.p)] && s.p.offset < WORD
    ensures Acceptable(src, s, ToClient)
    ensures var c, f := s.c, Act(src, s, ToClient);
            if CheckCrc(c, s.p.offset, s.p.crc as int) <= 0 then f == Live(Moved(s, c.Finish(DFU_CRC_NOT_MATCH), []))
            else if c.Cur().offset == c.Cur().size then f == Live(Moved(s, StExecute(c), []))
            else if c.credits > 0 && Stuck(c) then f == Frozen
            else Goes(src, c) && c.sent <= StWrite(src, c).sent && f == Live(Moved(s, StWrite(src, c), []))
  {
    hide Queued, StWrite, StExecute, CrcReply, Decode32, CheckCrc, Stuck;
    CrcReplyFields(s.p);
    assert s.back[1..] == [];
    if Goes(src, s.c) {
      StWriteGrows(src, s.c);
    }
  }

  /** The numbers on both sides after t bytes. */
  ghost predicate Numbers(src: Source, x: Base, s: Sys, t: nat)
    requires Based(src, x) && t <= x.size
  {
    var b := Resent(src, x)[..t];
    && s.p.offset == (x.peerOffset + t) % WORD && s.p.crc == Crc(x.peerCrc, b) && s.p.received == x.received + b
    && s.c.Cur() == Object(x.size, (x.offset + t) % WORD, Crc(x.crc, b))
  }

  lemma AnswerNumbers(src: Source, x: Base, s: Sys, v: Sys)
    requires Echo(src, x, s, v) && v.back != []
    ensures v.c.state == PdGetCrc && s.out == [] && v.out == []
    ensures s.back == [CrcReply(s.p)] && v.back == [CrcReply(v.p)]
    ensures 0 < v.c.cmd.offset <= x.size && Numbers(src, x, s, v.c.cmd.offset)
    ensures CheckCrc(v.c, v.p.offset, v.p.crc as int) == 1
  {
    hide Steady, Records, Outset, CrcReply, Pacing, Crc, Queued, InSync, CheckCrc, Mirrors, PeerMirrors,
         Numbers, Flowing;
    UnderWay(Part(src, x), v);
    CrcAgrees(Part(src, x), v);
    AtTheEnd(Part(src, x), v);
    MirrorsCommand(src, x, s.c, v.c);
    MirrorNumbers(src, x, s, v);
  }

  lemma MirrorsCommand(src: Source, x: Base, c: Client, v: Client)
    requires Based(src, x) && Mirrors(src, x, c, v)
    ensures v.cur == Command
  {
  }

  lemma MirrorNumbers(src: Source, x: Base, s: Sys, v: Sys)
    requires Based(src, x) && Mirrors(src, x, s.c, v.c) && PeerMirrors(x, s.p, v.p)
    requires v.c.cmd.offset <= x.size && v.p.offset == v.c.cmd.offset
    requires v.p.received == Resent(src, x)[..v.c.cmd.offset]
    ensures Numbers(src, x, s, v.c.cmd.offset)
  {
    hide Crc, Resent;
  }

  lemma AtTheEnd(src: Source, v: Sys)
    requires Inv(src, v) && v.back != [] && v.c.state == PdGetCrc
    ensures v.p.offset == v.c.Cur().offset && 0 < v.c.Cur().offset <= |src.Bytes(v.c.cur)|
  {
    hide Steady, Records, Outset, CrcReply, Crc, Queued;
    UnderWay(src, v);
    assert v.p.received + [] == v.p.received;
  }

  /** The client finds the answer in order exactly when the peer was where its record is. */
  lemma CheckIff(src: Source, x: Base, s: Sys, t: nat)
    requires Based(src, x) && t <= x.size && Numbers(src, x, s, t) && x.offset < WORD && x.peerOffset < WORD
    ensures CheckCrc(s.c, s.p.offset, s.p.crc as int) > 0 <==> Agrees(x)
  {
    hide Crc;
    var b := Resent(src, x)[..t];
    CrcInjective(x.crc, x.peerCrc, b);
    SameNumber(Crc(x.crc, b), Crc(x.peerCrc, b));
    SameSum(x.offset, x.peerOffset, t);
  }

  lemma SameNumber(a: bv32, b: bv32)
    ensures a as int == b as int <==> a == b
  {
    assert (a as int) as bv32 == a;
  }

  lemma SameSum(a: nat, b: nat, t: nat)
    requires a < WORD && b < WORD && t < WORD
    ensures (a + t) % WORD == (b + t) % WORD <==> a == b
  {
  }

  /** The count is the recorded size after exactly the bytes that are missing from it. */
  lemma CountsUp(k: nat, t: nat, n: nat)
    requires k < WORD && t <= n < WORD
    ensures (k + t) % WORD == n <==> k + t == n
  {
  }

  lemma EchoAnswer(src: Source, x: Base, s: Sys, v: Sys)
    requires Echo(src, x, s, v) && v.back != []
    ensures Acceptable(src, s, ToClient)
    ensures var f := Act(src, s, ToClient);
            if f.Frozen? then Hangs(x)
            else Verdict(src, x, f.s) || Echo(src, x, f.s, DeliverToClient(Part(src, x), v))
                 || ((Closing(src, x, f.s) || Doomed(src, x, f.s)) && Left(x, f.s) < Left(x, s))
  {
    hide Numbers, Inv, Mirrors, PeerMirrors, Pacing, CrcReply, Closing, Doomed, Verdict, StExecute, CheckCrc, Stuck,
         Steady, Lands, Goes, Moved, Act, Left;
    var t := v.c.cmd.offset;
    EchoSteady(src, x, s, v);
    AnswerNumbers(src, x, s, v);
    CheckIff(src, x, s, t);
    NumbersSmall(src, x, s, t);
    MirrorsFacts(src, x, s.c, v.c);
    CrcAnswered(src, s);
    CountsUp(x.offset, t, x.size);
    if !Agrees(x) {
      Disagreed(src, x, s, v);
    } else if x.offset + t == x.size {
      LandedNow(src, x, s, v);
      ExecuteLeft(x, s);
    } else if t == x.size {
      PastIt(src, x, s, v);
      if s.c.credits == 0 {
        HaltLeft(src, x, s);
      }
    } else {
      WritesOn(src, x, s, v);
    }
  }

  lemma NumbersSmall(src: Source, x: Base, s: Sys, t: nat)
    requires Based(src, x) && t <= x.size && Numbers(src, x, s, t)
    ensures s.p.offset < WORD && s.c.Cur().offset == (x.offset + t) % WORD && s.c.Cur().size == x.size
  {
    hide Crc;
  }

  lemma MirrorsFacts(src: Source, x: Base, c: Client, v: Client)
    requires Based(src, x) && Mirrors(src, x, c, v)
    ensures c.state == v.state && c.cur == x.kind && c.Cur().size == x.size
  {
  }

  lemma Disagreed(src: Source, x: Base, s: Sys, v: Sys)
    requires Echo(src, x, s, v) && !Agrees(x)
    ensures Verdict(src, x, Moved(s, s.c.Finish(DFU_CRC_NOT_MATCH), []))
  {
    hide Inv, Mirrors, Pacing, Crc, Lands;
    EndsSnoc(s.c.events, End(DFU_CRC_NOT_MATCH));
  }

  lemma LandedNow(src: Source, x: Base, s: Sys, v: Sys)
    requires Echo(src, x, s, v) && v.back != [] && Agrees(x) && v.c.state == PdGetCrc && Steady(src, s.c)
    requires s.out == []
    requires 0 < v.c.cmd.offset <= x.size && Numbers(src, x, s, v.c.cmd.offset) && x.offset + v.c.cmd.offset == x.size
    ensures s.c.sent <= StExecute(s.c).sent && Closing(src, x, Moved(s, StExecute(s.c), []))
  {
    hide Inv, Mirrors, Pacing, Steady, Numbers, Lands;
    LandsHere(x, v.c);
    MirrorsFacts(src, x, s.c, v.c);
    ExecuteCloses(src, x, s);
  }

  lemma LandsHere(x: Base, v: Client)
    requires x.sendLen > 0 && Pacing(x, v) && v.state == PdGetCrc && 0 < v.cmd.offset <= x.size
    requires x.offset + v.cmd.offset == x.size
    ensures Lands(x)
  {
    hide Checkpoint;
  }

  lemma PassesIt(x: Base, v: Client)
    requires x.sendLen > 0 && Pacing(x, v) && v.cmd.offset == x.size && x.offset != 0
    ensures !Lands(x)
  {
    hide Checkpoint;
  }

  lemma ExecuteCloses(src: Source, x: Base, s: Sys)
    requires Based(src, x) && Agrees(x) && Lands(x) && Steady(src, s.c) && s.c.state == PdGetCrc && s.c.cur == x.kind
    requires s.out == [] && s.p.executed == x.executed && Ends(s.c.events) == x.reported
    requires Numbers(src, x, s, x.size - x.offset)
    ensures s.c.sent <= StExecute(s.c).sent && Closing(src, x, Moved(s, StExecute(s.c), []))
  {
    hide Crc, Lands, Steady, Resent;
    ExecuteSteady(src, s.c);
    ExecuteSends(s);
  }

  lemma ExecuteSteady(src: Source, c: Client)
    requires Steady(src, c) && c.state == PdGetCrc
    ensures Steady(src, StExecute(c))
  {
    hide Queued;
  }

  lemma ExecuteSends(s: Sys)
    requires s.out == []
    ensures var e := StExecute(s.c);
            && s.c.sent <= e.sent && e.cur == s.c.cur && e.events == s.c.events && e.Cur() == s.c.Cur()
            && Moved(s, e, []).out == (if e.state == Execute then [] else [Ctrl([EXECUTE])])
            && (e.state == Execute || e.state == PdExecute)
  {
  }

  lemma PastIt(src: Source, x: Base, s: Sys, v: Sys)
    requires Echo(src, x, s, v) && Agrees(x) && v.c.state == PdGetCrc && Steady(src, s.c) && s.out == []
    requires v.c.cmd.offset == x.size && x.offset != 0
    ensures Hangs(x) && Stuck(s.c) && Supplied(src, s.c)
    ensures s.c.credits == 0 ==> s.c.sent <= StWrite(src, s.c).sent && Doomed(src, x, Moved(s, StWrite(src, s.c), []))
  {
    hide Inv, Mirrors, Pacing, Steady, Lands, Stuck, Queued, StWrite, Doomed;
    PassesIt(x, v.c);
    AllQueued(src, x, s, v);
    MirrorsFacts(src, x, s.c, v.c);
    if s.c.credits == 0 {
      Halts(src, x, s);
    }
  }

  lemma ExecuteLeft(x: Base, s: Sys)
    requires s.c.state == PdGetCrc && s.out == [] && |s.back| == 1
    ensures s.c.sent <= StExecute(s.c).sent && Left(x, Moved(s, StExecute(s.c), [])) < Left(x, s)
  {
    hide Load;
    var e := StExecute(s.c);
    assert s.out + New(s.c, e) == if s.c.credits > 0 then [Ctrl([EXECUTE])] else [];
    LoadOne(Ctrl([EXECUTE]));
    LoadData([]);
  }

  lemma HaltLeft(src: Source, x: Base, s: Sys)
    requires s.c.state == PdGetCrc && s.out == [] && |s.back| == 1 && s.c.credits == 0 && Goes(src, s.c)
    ensures s.c.sent <= StWrite(src, s.c).sent && Left(x, Moved(s, StWrite(src, s.c), [])) < Left(x, s)
  {
    NoLoop(src, s.c.(state := Write));
    assert s.out + New(s.c, s.c.(state := Write)) == [];
  }

  lemma AllQueued(src: Source, x: Base, s: Sys, v: Sys)
    requires Echo(src, x, s, v) && v.c.state == PdGetCrc && v.c.cmd.offset == x.size
    ensures Stuck(s.c) && Supplied(src, s.c)
  {
    hide Phase, Records, Outset, PeerMirrors, Pacing, Shifted, Crc;
    assert Transferring(Part(src, x), v.c);
    SizesSame(src, x, s.c, v.c);
    MirrorsSupplied(src, x, s.c, v.c);
  }

  lemma Halts(src: Source, x: Base, s: Sys)
    requires Based(src, x) && Hangs(x) && Steady(src, s.c) && s.c.cur == x.kind && s.out == []
    requires s.c.credits == 0 && Stuck(s.c) && Supplied(src, s.c)
    requires s.p.executed == x.executed && Ends(s.c.events) == x.reported && s.c.Cur().size == x.size
    ensures s.c.sent <= StWrite(src, s.c).sent && Doomed(src, x, Moved(s, StWrite(src, s.c), []))
  {
    hide Hangs, Queued;
    NoLoop(src, s.c.(state := Write));
    assert s.out + New(s.c, s.c.(state := Write)) == [];
  }

  lemma WritesOn(src: Source, x: Base, s: Sys, v: Sys)
    requires Echo(src, x, s, v) && v.back == [CrcReply(v.p)] && v.out == []
    requires v.c.state == PdGetCrc && v.c.cmd.offset < x.size && x.offset + v.c.cmd.offset != x.size
    requires CheckCrc(v.c, v.p.offset, v.p.crc as int) == 1
    ensures !Stuck(s.c) && Goes(src, s.c) && s.c.sent <= StWrite(src, s.c).sent
    ensures Echo(src, x, Moved(s, StWrite(src, s.c), []), DeliverToClient(Part(src, x), v))
  {
    hide Steady, Phase, Records, Outset, PeerMirrors, Shifted, Queued, StWrite, CrcReply, Stuck, CheckCrc;
    var p := Part(src, x);
    ToClientKeeps(p, v);
    RecvCrc(p, v.c, v.p);
    assert v.back[1..] == [];
    SizesSame(src, x, s.c, v.c);
    WritingGoes(p, v.c);
    MirrorsSupplied(src, x, s.c, v.c);
    StillOnCourse(x, v.c);
    hide Mirrors, Pacing, Inv;
    EchoWrites(src, x, s, v);
  }

  lemma StillOnCourse(x: Base, v: Client)
    requires x.sendLen > 0 && Pacing(x, v) && v.cmd.offset < x.size && x.offset + v.cmd.offset != x.size
    ensures Paced(x, v.cmd.offset, v.prnCnt) && OnCourse(x, v.cmd.offset, true)
  {
    hide Checkpoint;
  }
}
