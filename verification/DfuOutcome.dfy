/** Whole runs of a resumed transfer: it always gets decided or hangs, it hangs exactly on a
    condition on what it starts from, and what is then executed and reported is known. */
module DfuOutcome {
  import opened Bytes
  import opened Crc32
  import opened DfuModel
  import opened DfuControl
  import opened DfuSystem
  import opened DfuEcho
  import opened DfuPace
  import opened DfuResume
  import opened DfuResumeSteps
  import opened DfuProgress
  import DfuRuns

  // ---- the matching answer reaches the client ----

  /** The fresh transfer that starts beside the resumed one. */
  function Beginning(src: Source, x: Base, c: Client, i: nat): Sys
    requires Based(src, x)
  {
    var v := Client(PdSel, Command, x.prn, 0, c.credits, x.sendLen, Object(x.size, 0, 0), Object(0, 0, 0), [], 0, i,
                    c.sent, []);
    Sys(v, Peer(0, 0, [], []), [], [], [], [], Resent(src, x))
  }

  lemma BeginningSound(src: Source, x: Base, c: Client, i: nat)
    requires Based(src, x) && 0 < x.size && c.credits < 128
    ensures var p, v := Part(src, x), Beginning(src, x, c, i);
            && Sound(p, v.c) && Writing(p, v.c) && Flowing(p, v.c, v.p, []) && FreshImage(p) && Ends(v.c.events) == []
  {
    var p, v := Part(src, x), Beginning(src, x, c, i);
    CrcNothing();
    hide Crc;
    assert Resent(src, x)[..0] == [];
    assert v.p.received + Payload([]) == [];
  }

  lemma BeginningMirrors(src: Source, x: Base, c: Client, p: Peer, i: nat)
    requires Based(src, x) && x == BaseOf(c, p) && p.offset < WORD && x.offset < WORD
    requires c.state == PdSel && c.fifo == [] && c.sum == 0 && c.prnCnt == 0
    ensures var v := Beginning(src, x, c, i);
            Mirrors(src, x, c.(calls := i), v.c) && PeerMirrors(x, p, v.p)
  {
    assert Resent(src, x)[..0] == [];
    NothingCounted(x.crc);
    NothingCounted(x.peerCrc);
    hide Crc;
    assert x.received + [] == x.received;
  }

  lemma NothingCounted(c: bv32)
    ensures Crc(c, []) == c
  {
    hide Not;
    NotNot(c);
  }

  /** The answer makes the client enter the sending loop; i counts the callback's calls. */
  lemma ResumeAnswered(src: Source, s: Sys) returns (i: nat)
    requires Steady(src, s.c) && |s.back| == 1 && Resumes(src, s.c, s.back[0]) && !Overreads(src, s.c, s.back[0])
    ensures Acceptable(src, s, ToClient)
    ensures var e, f := s.c.(calls := i), Act(src, s, ToClient);
            if s.c.credits > 0 && Stuck(s.c) then f == Frozen
            else Goes(src, e) && s.c.sent <= StWrite(src, e).sent && f == Live(Moved(s, StWrite(src, e), []))
  {
    hide Steady, Queued, Stuck, StWrite, Overreads, Match, CallsAfter, Decode32;
    var d, c := s.back[0], s.c;
    assert s.back[1..] == [];
    InquiresRoom(src, c, d);
    i := CallsAfter(src, c.cur, Decode32(d[3..7]), Decode32(d[7..11]), c.calls);
    if !(c.credits > 0 && Stuck(c)) {
      ResumeGoes(src, c, d, i);
      StWriteGrows(src, c.(calls := i));
    }
  }

  lemma InquiresRoom(src: Source, c: Client, d: seq<byte>)
    requires Resumes(src, c, d) && !Overreads(src, c, d)
    ensures Inquires(src, c.cur, Decode32(d[3..7]), Decode32(d[7..11])) && Decode32(d[7..11]) <= |src.Bytes(c.cur)|
  {
    hide Decode32, CrcByOffset;
  }

  lemma MatchedFacts(src: Source, x: Base, s: Sys)
    requires Matched(src, x, s)
    ensures Based(src, x) && x.peerOffset < WORD && s.c.state == PdSel && s.c.cur == x.kind && !Decided(x, s)
    ensures s.c.fifo == [] && s.c.sum == 0 && s.c.prnCnt == 0 && s.c.credits < 128
  {
    ResumeRoom(src, s.c, s.back[0]);
    hide Resumes, Overreads, Decode32;
  }

  lemma MatchedAnswer(src: Source, x: Base, s: Sys)
    requires Matched(src, x, s)
    ensures Acceptable(src, s, ToClient)
    ensures var f := Act(src, s, ToClient);
            if f.Frozen? then Hangs(x)
            else (Doomed(src, x, f.s) || exists v :: Echo(src, x, f.s, v))
                 && Left(x, f.s) < Left(x, s) && !Decided(x, f.s)
  {
    MatchedFacts(src, x, s);
    var i := ResumeAnswered(src, s);
    hide Resumes, Overreads, Decode32, Act, Lands, Doomed, Crc, Left, Decided;
    if x.size == 0 {
      if s.c.credits == 0 {
        ResumeGoes(src, s.c, s.back[0], i);
        Halts(src, x, s.(c := s.c.(calls := i)));
        HaltsAlike(src, s, i);
        HaltBegins(src, x, s, i);
      }
    } else {
      var v := EchoBegins(src, x, s, i);
      MatchedLeft(x, s);
    }
    hide Steady, Goes, StWrite, Echo;
  }

  lemma MatchedLeft(x: Base, s: Sys)
    requires s.c.state == PdSel && s.out == [] && |s.back| == 1 && s.c.fifo == [] && s.c.sum == 0
    ensures Left(x, s) == 8 * x.size + 51
  {
  }

  lemma HaltBegins(src: Source, x: Base, s: Sys, i: nat)
    requires s.c.state == PdSel && s.c.cur == x.kind && s.out == [] && |s.back| == 1 && s.c.credits == 0
    requires Goes(src, s.c.(calls := i)) && s.c.sent <= StWrite(src, s.c.(calls := i)).sent
    ensures var r := Moved(s, StWrite(src, s.c.(calls := i)), []); Left(x, r) < Left(x, s) && !Decided(x, r)
  {
    var e := s.c.(calls := i, state := Write);
    NoLoop(src, e);
    assert s.out + New(s.c, e) == [];
  }

  lemma HaltsAlike(src: Source, s: Sys, i: nat)
    requires Goes(src, s.c.(calls := i)) && s.c.sent <= StWrite(src, s.c.(calls := i)).sent
    ensures var e := StWrite(src, s.c.(calls := i)); Moved(s.(c := s.c.(calls := i)), e, []) == Moved(s, e, [])
  {
  }

  lemma EchoBegins(src: Source, x: Base, s: Sys, i: nat) returns (v: Sys)
    requires Matched(src, x, s) && Based(src, x) && 0 < x.size && x.peerOffset < WORD && s.c.state == PdSel
    requires s.c.fifo == [] && s.c.sum == 0 && s.c.prnCnt == 0 && s.c.credits < 128
    requires Goes(src, s.c.(calls := i)) && s.c.sent <= StWrite(src, s.c.(calls := i)).sent
    ensures var r := Moved(s, StWrite(src, s.c.(calls := i)), []);
            Echo(src, x, r, v) && Left(x, r) == Measure(Part(src, x), v) - 108 <= 8 * x.size + 20 && !Decided(x, r)
  {
    var p, b := Part(src, x), Beginning(src, x, s.c, i);
    BeginningSound(src, x, s.c, i);
    BeginningMirrors(src, x, s.c, s.p, i);
    PaceStarts(src, x, s.c, i);
    hide Steady, Resumes, Overreads, Decode32, Mirrors, PeerMirrors, Sound, FreshImage, Flowing, Writing, StWrite, Left,
         Measure, Decided;
    var d := s.(c := s.c.(calls := i), back := []);
    EchoWrites(src, x, d, b);
    WritePhase(p, b);
    StWriteSound(p, b.c);
    v := Moved(b, StWrite(p, b.c), []);
    BeginningInv(p, b);
    HaltsAlike(src, s.(back := []), i);
    EchoLeft(src, x, Moved(s, StWrite(src, s.c.(calls := i)), []), v);
    BeginningLeft(src, x, s.c, i);
  }

  lemma BeginningLeft(src: Source, x: Base, c: Client, i: nat)
    requires Based(src, x)
    requires var p, b := Part(src, x), Beginning(src, x, c, i); Sound(p, b.c) && Writing(p, b.c)
    ensures var p, b := Part(src, x), Beginning(src, x, c, i);
            Goes(p, b.c) && b.c.sent <= StWrite(p, b.c).sent
            && Measure(p, Moved(b, StWrite(p, b.c), [])) <= 8 * x.size + 128
  {
    hide Steady, Queued, Partly, StWrite, Load;
    var p, b := Part(src, x), Beginning(src, x, c, i);
    WritingGoes(p, b.c);
    StWriteGrows(p, b.c);
    WriteCost(p, b.c);
    MovedMeasure(p, b, StWrite(p, b.c), []);
    LoadData([]);
  }

  lemma PaceStarts(src: Source, x: Base, c: Client, i: nat)
    requires Based(src, x) && 0 < x.size
    ensures var v := Beginning(src, x, c, i).c; Paced(x, v.cmd.offset, v.prnCnt) && OnCourse(x, v.cmd.offset, true)
  {
    Multiple(x.sendLen, 0);
    Multiple(Round(x), 0);
    hide Checkpoint;
  }

  lemma BeginningInv(p: Source, b: Sys)
    requires Goes(p, b.c) && Sound(p, StWrite(p, b.c)) && FreshImage(p)
    requires b.c.cur == Command && b.p.offset < WORD && b.out == []
    requires b.p.executed == [] == b.installed && b.reported == [] && b.first == p.command
    requires var e := StWrite(p, b.c);
             && b.c.sent <= e.sent && e.cur == b.c.cur && Ends(e.events) == []
             && Sending(e.state) && Phase(p, b.(c := e, out := b.out + New(b.c, e))) && b.back == []
    ensures Inv(p, Moved(b, StWrite(p, b.c), []))
  {
    hide Sound, FreshImage, Phase, StWrite;
  }

  // ---- every step ----

  /** A step hangs only where it must, decides rightly, or keeps the transfer going; it never
      adds to what is left, and a useful one lowers it. */
  ghost predicate Forward(src: Source, x: Base, s: Sys, t: Step, f: Fate)
    requires x.sendLen > 0
  {
    match f
    case Frozen => Hangs(x)
    case Live(r) =>
      if Decided(x, r) then Verdict(src, x, r)
      else
        && Resuming(src, x, r) && Left(x, r) <= Left(x, s)
        && (Useful(s, t) && src.Feeding() ==> Left(x, r) < Left(x, s))
  }

  lemma EchoLeft(src: Source, x: Base, s: Sys, v: Sys)
    requires Echo(src, x, s, v)
    ensures Left(x, s) == Measure(Part(src, x), v) - 108 && !Decided(x, s)
  {
    hide Phase, Records, Outset, PeerMirrors, Pacing, Shifted, Crc, Load, CrcReply;
    assert Transferring(Part(src, x), v.c);
    if v.back != [] {
      UnderWay(Part(src, x), v);
    }
    hide Steady;
  }

  lemma EchoToPeerForward(src: Source, x: Base, s: Sys, v: Sys)
    requires Echo(src, x, s, v) && s.out != []
    ensures Acceptable(src, s, ToPeer) && Forward(src, x, s, ToPeer, Act(src, s, ToPeer))
  {
    hide Echo, Left, Measure, DeliverToPeer, Steady;
    SameOut(src, x, s, v);
    EchoSteady(src, x, s, v);
    EchoToPeer(src, x, s, v);
    EchoLeft(src, x, s, v);
    EchoLeft(src, x, DeliverToPeer(s), DeliverToPeer(v));
    ToPeerLowers(Part(src, x), v);
  }

  lemma SameOut(src: Source, x: Base, s: Sys, v: Sys)
    requires Echo(src, x, s, v)
    ensures Based(src, x) && Inv(Part(src, x), v)
    ensures s.out == v.out && (s.back == [] <==> v.back == []) && s.c.state == v.c.state
  {
    hide Inv, Shifted, PeerMirrors, Pacing, CrcReply;
  }

  lemma EchoGrantForward(src: Source, x: Base, s: Sys, v: Sys, n: nat)
    requires Echo(src, x, s, v) && n < 128
    ensures Acceptable(src, s, Grant(n)) && Forward(src, x, s, Grant(n), Act(src, s, Grant(n)))
  {
    hide Echo, Left, Measure, Steady, Inv, Act;
    SameOut(src, x, s, v);
    EchoGrant(src, x, s, v, n);
    EchoLeft(src, x, s, v);
    EchoLeft(src, x, Act(src, s, Grant(n)).s, GrantCredits(Part(src, x), v, n));
    GrantLowers(Part(src, x), v, n);
  }

  lemma EchoAnswerForward(src: Source, x: Base, s: Sys, v: Sys)
    requires Echo(src, x, s, v) && s.back != []
    ensures Acceptable(src, s, ToClient) && Forward(src, x, s, ToClient, Act(src, s, ToClient))
  {
    hide Echo, Left, Measure, Steady, Inv, Act, Closing, Doomed, Verdict, Decided, Hangs;
    SameOut(src, x, s, v);
    EchoAnswer(src, x, s, v);
    var f := Act(src, s, ToClient);
    if f.Live? {
      if Verdict(src, x, f.s) {
        VerdictDecided(src, x, f.s);
      } else if Echo(src, x, f.s, DeliverToClient(Part(src, x), v)) {
        EchoLeft(src, x, s, v);
        EchoLeft(src, x, f.s, DeliverToClient(Part(src, x), v));
        ToClientLowers(Part(src, x), v);
      } else {
        Undecided(src, x, f.s);
      }
    }
  }

  lemma Undecided(src: Source, x: Base, r: Sys)
    requires Doomed(src, x, r) || Closing(src, x, r)
    ensures Based(src, x) && !Decided(x, r)
  {
  }

  lemma VerdictDecided(src: Source, x: Base, r: Sys)
    requires Verdict(src, x, r)
    ensures Decided(x, r)
  {
  }

  lemma EchoForward(src: Source, x: Base, s: Sys, v: Sys, t: Step)
    requires Echo(src, x, s, v) && Enabled(s, t)
    ensures Acceptable(src, s, t) && Forward(src, x, s, t, Act(src, s, t))
  {
    hide Echo, Forward, Acceptable, Act;
    match t
    case ToPeer => EchoToPeerForward(src, x, s, v);
    case ToClient => EchoAnswerForward(src, x, s, v);
    case Grant(n) => EchoGrantForward(src, x, s, v, n);
  }

  lemma MatchedForward(src: Source, x: Base, s: Sys, t: Step)
    requires Matched(src, x, s) && Enabled(s, t)
    ensures Based(src, x) && Acceptable(src, s, t) && Forward(src, x, s, t, Act(src, s, t))
  {
    MatchedFacts(src, x, s);
    if t.ToClient? {
      MatchedAnswer(src, x, s);
      hide Matched, Act, Left, Hangs, Decided, Verdict, Acceptable;
    } else {
      MatchedGrant(src, x, s, t.n);
    }
  }

  lemma MatchedGrant(src: Source, x: Base, s: Sys, n: nat)
    requires Matched(src, x, s) && Based(src, x) && s.c.state == PdSel && n < 128
    ensures Acceptable(src, s, Grant(n)) && Forward(src, x, s, Grant(n), Act(src, s, Grant(n)))
  {
    hide Decode32, Match, CrcByOffset, Load;
    assert s.out + New(s.c, s.c.(credits := n)) == s.out;
  }

  lemma DoomedForward(src: Source, x: Base, s: Sys, t: Step)
    requires Doomed(src, x, s) && Enabled(s, t)
    ensures Acceptable(src, s, t) && Forward(src, x, s, t, Act(src, s, t))
  {
    hide Hangs, Queued, Load;
    assert t.Grant?;
    if t.n == 0 {
      var d := s.c.(state := Write);
      assert d == s.c == s.c.(credits := 0);
      NoLoop(src, d);
      assert s.out + New(s.c, d) == s.out;
    }
  }

  lemma ClosingForward(src: Source, x: Base, s: Sys, t: Step)
    requires Closing(src, x, s) && Enabled(s, t)
    ensures Acceptable(src, s, t) && Forward(src, x, s, t, Act(src, s, t))
  {
    Undecided(src, x, s);
    match t {
      case ToPeer =>
        ClosingToPeer(src, x, s);
        Undecided(src, x, DeliverToPeer(s));
      case ToClient =>
        ClosingToClient(src, x, s);
        VerdictDecided(src, x, Act(src, s, t).s);
      case Grant(n) =>
        ClosingGrant(src, x, s, n);
        Undecided(src, x, Act(src, s, t).s);
    }
    hide Closing, Left, Verdict, Decided, DeliverToPeer, Steady, Recv, CanSend;
  }

  lemma ClosingToPeer(src: Source, x: Base, s: Sys)
    requires Closing(src, x, s) && s.out != []
    ensures var r := DeliverToPeer(s); Closing(src, x, r) && Left(x, r) < Left(x, s)
  {
    hide Lands, Queued, Steady;
    assert s.out == [Ctrl([EXECUTE])];
    LoadOne(Ctrl([EXECUTE]));
    LoadData([]);
    assert DeliverToPeer(s).out == [];
    hide Load;
  }

  /** What the answer to EXECUTE does. */
  function Executed(c: Client): Client {
    if c.cur.Command? then StSelect(c.(cur := Image)) else c.Finish(DFU_SUCCESS)
  }

  lemma ExecuteAnswered(src: Source, c: Client)
    requires Steady(src, c) && c.state == PdExecute
    ensures var d := [RESPONSE, EXECUTE, DFU_SUCCESS];
            WellSized(c, d) && !Overreads(src, c, d) && !Freezes(src, c, d) && Recv(src, c, d) == Executed(c)
  {
    hide Executed, Queued, Match, StSelect, StWrite, StSetPrn;
    var d: seq<byte> := [RESPONSE, EXECUTE, DFU_SUCCESS];
    assert !SelectAnswer(c, d);
    assert Recv(src, c, d) == if c.cur.Command? then StSelect(c.(cur := Image)) else c.Finish(DFU_SUCCESS);
    ExecutedIs(c);
    hide Steady;
  }

  lemma ExecutedIs(c: Client)
    ensures Executed(c) == if c.cur.Command? then StSelect(c.(cur := Image)) else c.Finish(DFU_SUCCESS)
  {
  }

  lemma ClosingToClient(src: Source, x: Base, s: Sys)
    requires Closing(src, x, s) && s.back != []
    ensures Acceptable(src, s, ToClient)
    ensures var f := Act(src, s, ToClient); f.Live? && Verdict(src, x, f.s)
  {
    hide Lands, Queued, StSelect, Steady, Recv, Landed, Overreads, Freezes, WellSized, StSelect;
    assert s.back == [[RESPONSE, EXECUTE, DFU_SUCCESS]];
    ExecuteAnswered(src, s.c);
    RecvSteady(src, s.c, s.back[0]);
    EndsSnoc(s.c.events, End(DFU_SUCCESS));
    SelectDecides(s.c);
    assert s.back[1..] == [];
  }

  lemma SelectDecides(c: Client)
    ensures var e := StSelect(c.(cur := Image));
            && e.cur == Image && e.events == c.events && (e.state == Sel || e.state == PdSel)
            && c.sent <= e.sent && New(c, e) == if e.state == Sel then [] else [Ctrl([SELECT, Image.Code()])]
  {
  }

  lemma ClosingGrant(src: Source, x: Base, s: Sys, n: nat)
    requires Closing(src, x, s) && n < 128
    ensures Acceptable(src, s, Grant(n))
    ensures var f := Act(src, s, Grant(n));
            && f.Live? && Closing(src, x, f.s) && Left(x, f.s) <= Left(x, s)
            && (Useful(s, Grant(n)) ==> Left(x, f.s) < Left(x, s))
  {
    hide Lands, Queued, Load;
    var d := s.c.(credits := n);
    assert s.out + New(s.c, d) == s.out;
    if s.c.state == Execute && n > 0 {
      assert s.out + New(s.c, StExecute(d)) == [Ctrl([EXECUTE])];
      LoadOne(Ctrl([EXECUTE]));
      LoadData([]);
    }
  }

  lemma ResumingForward(src: Source, x: Base, s: Sys, t: Step)
    requires Resuming(src, x, s) && Enabled(s, t)
    ensures Based(src, x) && Acceptable(src, s, t) && Forward(src, x, s, t, Act(src, s, t))
    ensures !Decided(x, s)
  {
    hide Matched, Doomed, Closing, Echo, Forward, Act, Acceptable, Decided;
    if Matched(src, x, s) {
      MatchedFacts(src, x, s);
      MatchedForward(src, x, s, t);
    } else if Doomed(src, x, s) {
      Undecided(src, x, s);
      DoomedForward(src, x, s, t);
    } else if Closing(src, x, s) {
      Undecided(src, x, s);
      ClosingForward(src, x, s, t);
    } else {
      var v :| Echo(src, x, s, v);
      SameOut(src, x, s, v);
      EchoLeft(src, x, s, v);
      EchoForward(src, x, s, v, t);
    }
  }

  /** Until the transfer is decided some useful step is possible, if only one that hangs. */
  lemma ResumingUseful(src: Source, x: Base, s: Sys)
    requires Resuming(src, x, s)
    ensures s.out != [] || s.back != [] || Blocked(s.c.state)
  {
    hide Resumes, Overreads, Lands, Steady, Hangs;
    if v :| Echo(src, x, s, v) {
      SameOut(src, x, s, v);
      UsefulExists(Part(src, x), v);
      hide Echo, Inv;
    }
  }

  lemma LeftNatural(src: Source, x: Base, s: Sys)
    requires Resuming(src, x, s)
    ensures Left(x, s) >= 0
  {
    hide Resumes, Overreads, Lands, Hangs, Load, Phase, Records, Outset, Crc, Pacing, PeerMirrors, Shifted;
    if Matched(src, x, s) {
      MatchedFacts(src, x, s);
    } else if v :| Echo(src, x, s, v) {
      assert Transferring(Part(src, x), v.c);
    }
  }

  lemma VerdictNotHangs(src: Source, x: Base, s: Sys)
    requires Verdict(src, x, s)
    ensures !Hangs(x)
  {
    hide Checkpoint;
  }

  // ---- whole runs ----

  /** The steps can be taken one after the other until the client hangs or the transfer is
      decided; what would follow is not looked at. */
  ghost predicate Allowed(src: Source, x: Base, s: Sys, steps: seq<Step>)
    requires Resuming(src, x, s)
    decreases |steps|
  {
    steps != [] ==>
      && Enabled(s, steps[0])
      && (ResumingForward(src, x, s, steps[0]);
          var f := Act(src, s, steps[0]);
          Going(x, f) ==> Allowed(src, x, f.s, steps[1..]))
  }

  predicate Going(x: Base, f: Fate) {
    f.Live? && !Decided(x, f.s)
  }

  ghost function Ran(src: Source, x: Base, s: Sys, steps: seq<Step>): Fate
    requires Resuming(src, x, s) && Allowed(src, x, s, steps)
    decreases |steps|
  {
    if steps == [] then Live(s)
    else
      ResumingForward(src, x, s, steps[0]);
      var f := Act(src, s, steps[0]);
      if Going(x, f) then Ran(src, x, f.s, steps[1..]) else f
  }

  /** The useful steps of the run. */
  ghost function Toil(src: Source, x: Base, s: Sys, steps: seq<Step>): nat
    requires Resuming(src, x, s) && Allowed(src, x, s, steps)
    decreases |steps|
  {
    if steps == [] then 0
    else
      ResumingForward(src, x, s, steps[0]);
      var f := Act(src, s, steps[0]);
      (if Useful(s, steps[0]) then 1 else 0) + (if Going(x, f) then Toil(src, x, f.s, steps[1..]) else 0)
  }

  lemma {:induction false} RanFate(src: Source, x: Base, s: Sys, steps: seq<Step>)
    requires Resuming(src, x, s) && Allowed(src, x, s, steps)
    ensures Based(src, x) && !Decided(x, s)
    ensures var f := Ran(src, x, s, steps);
            && (f.Frozen? ==> Hangs(x))
            && (f.Live? && Decided(x, f.s) ==> !Hangs(x) && Verdict(src, x, f.s))
            && (Going(x, f) ==>
                  Resuming(src, x, f.s) && (src.Feeding() ==> Left(x, f.s) + Toil(src, x, s, steps) <= Left(x, s)))
    decreases |steps|
  {
    hide Act, Resuming, Left, Hangs, Decided, Verdict, Useful;
    ResumingBased(src, x, s);
    if steps != [] {
      ResumingForward(src, x, s, steps[0]);
      var f := Act(src, s, steps[0]);
      if Going(x, f) {
        RanFate(src, x, f.s, steps[1..]);
      } else if f.Live? {
        VerdictNotHangs(src, x, f.s);
      }
    }
  }

  lemma ResumingBased(src: Source, x: Base, s: Sys)
    requires Resuming(src, x, s)
    ensures Based(src, x) && !Decided(x, s)
  {
    ResumingForward(src, x, s, Grant(0));
  }

  /** A matching answer, in every run: the client hangs if and only if nothing is recorded, or
      its count agrees with the peer's but passes the recorded size between two requests for
      the CRC. Otherwise the object is decided: executed and taken for success if the counts
      agree, given up if they do not. One or the other happens within 8 * size + 52 useful
      steps. */
  lemma ResumeOutcome(src: Source, x: Base, s: Sys, steps: seq<Step>)
    requires Matched(src, x, s) && Allowed(src, x, s, steps)
    ensures Based(src, x)
    ensures var f := Ran(src, x, s, steps);
            && (f.Frozen? ==> Hangs(x))
            && (f.Live? && Decided(x, f.s) ==> !Hangs(x) && Verdict(src, x, f.s))
            && (src.Feeding() && Toil(src, x, s, steps) > 8 * x.size + 51 ==> !Going(x, f))
  {
    RanFate(src, x, s, steps);
    var f := Ran(src, x, s, steps);
    if Going(x, f) {
      LeftNatural(src, x, f.s);
    }
    MatchedFacts(src, x, s);
    MatchedLeft(x, s);
    hide Matched, Ran, Toil, Allowed, Left, Verdict, Resuming;
  }

  /** Useful steps alone lead there. */
  lemma {:induction false} CanDecide(src: Source, x: Base, s: Sys) returns (steps: seq<Step>)
    requires Resuming(src, x, s) && src.Feeding()
    ensures Allowed(src, x, s, steps) && !Going(x, Ran(src, x, s, steps))
    decreases Left(x, s)
  {
    LeftNatural(src, x, s);
    ResumingUseful(src, x, s);
    hide Act, Resuming, Left, Hangs, Verdict;
    var t := if s.out != [] then ToPeer else if s.back != [] then ToClient else Grant(1);
    ResumingForward(src, x, s, t);
    var f := Act(src, s, t);
    steps := [t];
    if Going(x, f) {
      LeftNatural(src, x, f.s);
      var rest := CanDecide(src, x, f.s);
      steps := [t] + rest;
      assert steps[1..] == rest;
    }
  }

  // ---- on to the image ----

  /** After a resumed command object, right or not, the update goes on like any other, if what
      the peer then has is no match for the image: the image is sent from its start, and an
      update that ends has executed it behind what was executed as the command object. */
  lemma ImageFollows(src: Source, x: Base, s: Sys, steps: seq<Step>)
    requires Verdict(src, x, s) && Agrees(x) && x.kind.Command? && Fresh(src, Image, s.p.offset, s.p.crc as int)
    ensures x.offset <= x.size
    ensures var s0 := s.(reported := x.reported, installed := x.executed, first := Landed(src, x));
            && Inv(src, s0)
            && (DfuRuns.Possible(src, s0, steps) ==>
                  var e := DfuRuns.After(src, s0, steps);
                  && Ends(e.c.events) == x.reported + (if e.c.state == Idle then [DFU_SUCCESS] else [])
                  && (e.c.state == Idle ==> e.p.executed == x.executed + [Landed(src, x), src.image])
                  && (src.Feeding() ==> Measure(src, e) + Effective(src, s0, steps) <= Measure(src, s0)))
  {
    hide Landed, Fresh, Measure, Effective, Checkpoint;
    var s0 := s.(reported := x.reported, installed := x.executed, first := Landed(src, x));
    AtImageInv(src, s0);
    hide Inv, Verdict;
    if DfuRuns.Possible(src, s0, steps) {
      DfuRuns.Lasting(src, s0, steps);
      DfuRuns.Outcome(src, DfuRuns.After(src, s0, steps));
      if src.Feeding() {
        RunBound(src, s0, steps);
      }
    }
  }

  lemma AtImageInv(src: Source, s: Sys)
    requires AtImage(src, s) && Fresh(src, Image, s.p.offset, s.p.crc as int)
    requires Ends(s.c.events) == s.reported && s.p.executed == s.installed + [s.first]
    ensures Inv(src, s)
  {
    hide Steady, Fresh, FreshImage, SelectReply;
  }
}
