/** Why every update gets done: a measure that each delivery lowers, that no grant of credits
    raises, and that a grant the client is waiting for lowers. */
module DfuProgress {
  import opened Bytes
  import opened DfuModel
  import opened DfuControl
  import opened DfuSystem
  import opened DfuRuns

  function Rank(t: State): nat {
    match t
    case Idle => 0
    case Sel => 60
    case PdSel => 50
    case SetPrn => 48
    case PdSetPrn => 42
    case Create => 40
    case PdCreate => 34
    case GetCrc => 24
    case PdGetCrc => 21
    case Write => 20
    case Execute => 16
    case PdExecute => 10
  }

  /** Packets on their way; a request counts twice because it is still to be answered. */
  function Load(out: seq<Packet>): nat {
    if out == [] then 0 else Load(out[..|out| - 1]) + (if out[|out| - 1].Data? then 1 else 2)
  }

  lemma {:induction false} LoadConcat(a: seq<Packet>, b: seq<Packet>)
    ensures Load(a + b) == Load(a) + Load(b)
    decreases |b|
  {
    if b == [] {
      assert a + b == a;
    } else {
      var n, s := |b| - 1, a + b;
      LoadConcat(a, b[..n]);
      assert s[..|s| - 1] == a + b[..n] && s[|s| - 1] == b[n];
    }
  }

  lemma {:induction false} LoadData(a: seq<Packet>)
    requires DataOnly(a)
    ensures Load(a) == |a|
    decreases |a|
  {
    if a != [] {
      LoadData(a[..|a| - 1]);
    }
  }

  lemma LoadOne(p: Packet)
    ensures Load([p]) == if p.Data? then 1 else 2
  {
    assert [p][..0] == [];
  }

  /** Bytes of the current object still to be sent. */
  function Unsent(src: Source, c: Client): int {
    match c.state
    case Idle => 0
    case Sel | PdSel | SetPrn | PdSetPrn | Create => |src.Bytes(c.cur)|
    case _ => |src.Bytes(c.cur)| - c.Cur().offset
  }

  /** The part of the measure that the client alone decides. */
  function Todo(src: Source, c: Client): int {
    8 * Unsent(src, c) + Rank(c.state) + (if c.state != Idle && c.cur.Command? then 8 * |src.image| + 100 else 0)
  }

  function Measure(src: Source, s: Sys): int {
    Todo(src, s.c) + Load(s.out) + |s.back|
  }

  lemma MeasureNatural(src: Source, s: Sys)
    requires Inv(src, s)
    ensures Measure(src, s) >= 0
    ensures s.c.state != Idle ==> Measure(src, s) > 0
  {
    hide Phase, Records, Fresh, Load;
  }

  lemma ToPeerLowers(src: Source, s: Sys)
    requires s.out != []
    ensures Measure(src, DeliverToPeer(s)) < Measure(src, s)
  {
    hide Todo, SelectReply, CrcReply;
    assert [s.out[0]] + s.out[1..] == s.out;
    LoadConcat([s.out[0]], s.out[1..]);
    LoadOne(s.out[0]);
  }

  /** What a call costs: what it leaves to do plus what it puts on its way. */
  function Cost(src: Source, c: Client, e: Client): int
    requires |c.sent| <= |e.sent|
  {
    Todo(src, e) + Load(New(c, e))
  }

  lemma MovedMeasure(src: Source, s: Sys, e: Client, back: seq<seq<byte>>)
    requires |s.c.sent| <= |e.sent|
    ensures Measure(src, Moved(s, e, back)) == Cost(src, s.c, e) + Load(s.out) + |back|
  {
    LoadConcat(s.out, New(s.c, e));
  }

  lemma RequestCost(src: Source, c: Client, d: Client, b: seq<byte>, st: State)
    requires d.credits > 0 && d.sent == c.sent
    ensures var e := d.Request(b, st);
            c.sent <= e.sent && Cost(src, c, e) == Todo(src, e) + 2
  {
    hide Todo;
    assert New(c, d.Request(b, st)) == [Ctrl(b)];
    LoadOne(Ctrl(b));
  }

  lemma NoCost(src: Source, c: Client, d: Client)
    requires d.sent == c.sent
    ensures Cost(src, c, d) == Todo(src, d)
  {
    hide Todo;
    assert New(c, d) == [];
  }

  /** The sending loop never adds to what there is to do; asking for the CRC is paid for by
      the bytes sent before. */
  lemma WriteCost(src: Source, c: Client)
    requires Sound(src, c) && Writing(src, c)
    ensures var e := StWrite(src, c);
            && c.sent <= e.sent && Cost(src, c, e) <= Todo(src, c.(state := Write))
            && (src.Feeding() && c.credits > 0 ==> Cost(src, c, e) < Todo(src, c.(state := Write)))
  {
    WritingGoes(src, c);
    hide Loop, Partly, Queued, Load, Stuck;
    var d := c.(state := Write);
    LoopKeeps(src, d);
    var (f, ask) := Loop(src, d);
    LoadData(New(c, f));
    if ask {
      AskCost(src, c, f);
    }
  }

  lemma AskCost(src: Source, c: Client, f: Client)
    requires c.sent <= f.sent && f.state == Write
    ensures var e := StGetCrc(f);
            c.sent <= e.sent && Cost(src, c, e) <= Cost(src, c, f) + 4
  {
    var e := StGetCrc(f);
    if f.credits > 0 {
      assert New(c, e) == New(c, f) + [Ctrl([CAL_CHECKSUM])];
      LoadConcat(New(c, f), [Ctrl([CAL_CHECKSUM])]);
      LoadOne(Ctrl([CAL_CHECKSUM]));
    } else {
      assert New(c, e) == New(c, f);
    }
    hide Load;
  }

  // ---- the states that only wait for credits ----

  lemma SelectCost(src: Source, c: Client)
    ensures var e := StSelect(c); c.sent <= e.sent && Cost(src, c, e) <= Todo(src, c.(state := Sel))
    ensures c.credits > 0 ==> Cost(src, c, StSelect(c)) < Todo(src, c.(state := Sel))
  {
    var d := c.(state := Sel, prnCnt := 0, fifo := [], sum := 0);
    if d.credits > 0 {
      RequestCost(src, c, d, [SELECT, d.cur.Code()], PdSel);
    } else {
      NoCost(src, c, d);
    }
  }

  lemma SetPrnCost(src: Source, c: Client)
    ensures var e := StSetPrn(c); c.sent <= e.sent && Cost(src, c, e) <= Todo(src, c.(state := SetPrn))
    ensures c.credits > 0 ==> Cost(src, c, StSetPrn(c)) < Todo(src, c.(state := SetPrn))
  {
    var d := c.(state := SetPrn);
    if d.credits > 0 {
      RequestCost(src, c, d, [SET_PRN, ToByte(d.prn % 256)], PdSetPrn);
    } else {
      NoCost(src, c, d);
    }
  }

  lemma CreateCost(src: Source, c: Client)
    ensures var e := StCreate(src, c); c.sent <= e.sent && Cost(src, c, e) <= Todo(src, c.(state := Create))
    ensures c.credits > 0 ==> Cost(src, c, StCreate(src, c)) < Todo(src, c.(state := Create))
  {
    var d := c.(state := Create);
    if d.credits > 0 {
      var n := |src.Bytes(c.cur)|;
      RequestCost(src, c, d.WithCur(Object(n, 0, 0)), [CREATE, d.cur.Code()] + LittleEndian32(n), PdCreate);
    } else {
      NoCost(src, c, d);
    }
  }

  lemma GetCrcCost(src: Source, c: Client)
    ensures var e := StGetCrc(c); c.sent <= e.sent && Cost(src, c, e) <= Todo(src, c.(state := GetCrc))
    ensures c.credits > 0 ==> Cost(src, c, StGetCrc(c)) < Todo(src, c.(state := GetCrc))
  {
    var d := c.(state := GetCrc);
    if d.credits > 0 {
      RequestCost(src, c, d, [CAL_CHECKSUM], PdGetCrc);
    } else {
      NoCost(src, c, d);
    }
  }

  lemma ExecuteCost(src: Source, c: Client)
    ensures var e := StExecute(c); c.sent <= e.sent && Cost(src, c, e) <= Todo(src, c.(state := Execute))
    ensures c.credits > 0 ==> Cost(src, c, StExecute(c)) < Todo(src, c.(state := Execute))
  {
    var d := c.(state := Execute);
    if d.credits > 0 {
      RequestCost(src, c, d, [EXECUTE], PdExecute);
    } else {
      NoCost(src, c, d);
    }
  }

  /** The client can do nothing until it is granted credits. */
  predicate Blocked(t: State) {
    t == Sel || t == SetPrn || t == Create || t == Write || t == GetCrc || t == Execute
  }

  lemma GrantCost(src: Source, c: Client, n: nat)
    requires Sound(src, c) && n < 128
    ensures var e := CanSend(src, c, n);
            && c.sent <= e.sent && Cost(src, c, e) <= Todo(src, c)
            && (n > 0 && src.Feeding() && Blocked(c.state) ==> Cost(src, c, e) < Todo(src, c))
  {
    CanSendSound(src, c, n);
    hide Partly, Queued, StWrite, StSelect, StSetPrn, StCreate, StGetCrc, StExecute, Load, Jams;
    var d := c.(credits := n);
    var e := CanSend(src, c, n);
    match c.state {
      case Write =>
        WriteCost(src, d);
      case Sel =>
        SelectCost(src, d);
      case SetPrn =>
        SetPrnCost(src, d);
      case Create =>
        CreateCost(src, d);
      case GetCrc =>
        GetCrcCost(src, d);
      case Execute =>
        ExecuteCost(src, d);
      case _ =>
        NoCost(src, c, d);
    }
  }

  lemma GrantLowers(src: Source, s: Sys, n: nat)
    requires Inv(src, s) && n < 128
    ensures Measure(src, GrantCredits(src, s, n)) <= Measure(src, s)
    ensures n > 0 && src.Feeding() && Blocked(s.c.state) ==> Measure(src, GrantCredits(src, s, n)) < Measure(src, s)
  {
    CanSendSound(src, s.c, n);
    GrantCost(src, s.c, n);
    hide Sound, Steady, Phase, Records, Fresh, CanSend, Cost, Todo, Load;
    MovedMeasure(src, s, CanSend(src, s.c, n), s.back);
  }

  // ---- a response is dealt with ----

  /** Dealing with the response under way never adds to what there is to do. */
  lemma RecvCost(src: Source, s: Sys)
    requires Inv(src, s) && s.back != []
    ensures Deals(src, s.c, s.back[0])
    ensures var e := Recv(src, s.c, s.back[0]);
            s.c.sent <= e.sent && Cost(src, s.c, e) <= Todo(src, s.c)
  {
    hide Partly, Queued, Flows, Recv, Fresh, StWrite, StSelect, StSetPrn, StCreate, StGetCrc, StExecute, Load, Match,
         SelectReply, CrcReply, CheckCrc;
    UnderWay(src, s);
    var c := s.c;
    match c.state {
      case PdSel => RecvSelectCost(src, s);
      case PdSetPrn =>
        RecvDone(src, c, SET_PRN);
        CreateCost(src, c);
      case PdCreate =>
        RecvDone(src, c, CREATE);
        WriteCost(src, c);
      case PdGetCrc => RecvCrcCost(src, s);
      case PdExecute =>
        RecvDone(src, c, EXECUTE);
        ExecutedCost(src, c);
    }
  }

  lemma RecvSelectCost(src: Source, s: Sys)
    requires Inv(src, s) && s.back != [] && s.c.state == PdSel && s.back == [SelectReply(s.p)]
    ensures Deals(src, s.c, s.back[0])
    ensures var e := Recv(src, s.c, s.back[0]);
            s.c.sent <= e.sent && Cost(src, s.c, e) <= Todo(src, s.c)
  {
    hide Partly, Queued, Flows, Recv, StSetPrn, SelectReply;
    var c := s.c;
    assert Fresh(src, c.cur, s.p.offset, s.p.crc as int);
    RecvSelect(src, c, s.p);
    var i :| Recv(src, c, s.back[0]) == StSetPrn(c.(calls := i));
    SetPrnCost(src, c.(calls := i));
  }

  lemma RecvCrcCost(src: Source, s: Sys)
    requires Inv(src, s) && s.back != [] && s.c.state == PdGetCrc
    ensures Deals(src, s.c, s.back[0])
    ensures var e := Recv(src, s.c, s.back[0]);
            s.c.sent <= e.sent && Cost(src, s.c, e) <= Todo(src, s.c)
  {
    hide Partly, Queued, Flows, Recv, Fresh, StWrite, StExecute, CrcReply, CheckCrc;
    var c := s.c;
    CrcAgrees(src, s);
    RecvCrc(src, c, s.p);
    if c.Cur().offset == c.Cur().size {
      ExecuteCost(src, c);
    } else {
      WriteCost(src, c);
    }
  }

  lemma ExecutedCost(src: Source, c: Client)
    requires Sound(src, c) && c.state == PdExecute
    ensures var e := if c.cur.Command? then StSelect(c.(cur := Image)) else c.Finish(DFU_SUCCESS);
            c.sent <= e.sent && Cost(src, c, e) <= Todo(src, c)
  {
    hide StSelect, Load;
    SizeIsLength(src, c);
    if c.cur.Command? {
      SelectCost(src, c.(cur := Image));
    } else {
      NoCost(src, c, c.Finish(DFU_SUCCESS));
    }
    hide Partly;
  }

  lemma ToClientLowers(src: Source, s: Sys)
    requires Inv(src, s) && s.back != []
    ensures Measure(src, DeliverToClient(src, s)) < Measure(src, s)
  {
    hide Sound, Phase, Records, Fresh, Recv, Cost, Todo, Load, WellSized, Match, Resumes;
    RecvCost(src, s);
    MovedMeasure(src, s, Recv(src, s.c, s.back[0]), s.back[1..]);
  }

  // ---- whole runs ----

  /** A delivery, or a grant the client is waiting for. */
  predicate Useful(s: Sys, t: Step) {
    match t
    case Grant(n) => n > 0 && Blocked(s.c.state)
    case _ => true
  }

  lemma StepLowers(src: Source, s: Sys, t: Step)
    requires Inv(src, s) && Enabled(s, t)
    ensures Measure(src, Do(src, s, t)) <= Measure(src, s)
    ensures Useful(s, t) && src.Feeding() ==> Measure(src, Do(src, s, t)) < Measure(src, s)
  {
    hide Inv, Measure, DeliverToPeer, DeliverToClient, GrantCredits;
    match t
    case ToPeer => ToPeerLowers(src, s);
    case ToClient => ToClientLowers(src, s);
    case Grant(n) => GrantLowers(src, s, n);
  }

  /** Until the update is done there is always a useful step; afterwards there is none. */
  lemma UsefulExists(src: Source, s: Sys)
    requires Inv(src, s)
    ensures s.c.state != Idle <==> s.out != [] || s.back != [] || Blocked(s.c.state)
  {
    hide Sound, Fresh, Flows, SelectReply, CrcReply;
  }

  /** The useful steps of a run. */
  ghost function Effective(src: Source, s: Sys, steps: seq<Step>): nat
    requires Inv(src, s) && Possible(src, s, steps)
    decreases |steps|
  {
    if steps == [] then 0
    else
      DoKeeps(src, s, steps[0]);
      (if Useful(s, steps[0]) then 1 else 0) + Effective(src, Do(src, s, steps[0]), steps[1..])
  }

  lemma {:induction false} RunBound(src: Source, s: Sys, steps: seq<Step>)
    requires Inv(src, s) && Possible(src, s, steps) && src.Feeding()
    ensures Measure(src, After(src, s, steps)) + Effective(src, s, steps) <= Measure(src, s)
    decreases |steps|
  {
    hide Inv, Measure, Do;
    if steps != [] {
      DoKeeps(src, s, steps[0]);
      StepLowers(src, s, steps[0]);
      RunBound(src, Do(src, s, steps[0]), steps[1..]);
    }
  }

  /** A run with as many useful steps as the measure allows has ended in success. */
  lemma Completion(src: Source, c: Client, p: Peer, mtu: nat, credits: nat, prn: nat, steps: seq<Step>)
    requires Ready(src, c, p, mtu, credits, prn) && src.Feeding()
    requires Possible(src, Begin(src, c, p, mtu, credits, prn), steps)
    ensures var s := Begin(src, c, p, mtu, credits, prn);
            var e := After(src, s, steps);
            && Effective(src, s, steps) <= Measure(src, s)
            && (Effective(src, s, steps) == Measure(src, s) ==>
                  && Ends(e.c.events) == Ends(c.events) + [DFU_SUCCESS]
                  && e.p.executed == p.executed + [src.command, src.image])
  {
    var s := Begin(src, c, p, mtu, credits, prn);
    var e := After(src, s, steps);
    RunBound(src, s, steps);
    MeasureNatural(src, e);
    Lasting(src, s, steps);
    Outcome(src, e);
    hide Inv, Measure, Ready, After, Effective;
  }

  /** From every reachable state useful steps alone lead to success. */
  lemma {:induction false} CanFinish(src: Source, s: Sys) returns (steps: seq<Step>)
    requires Inv(src, s) && src.Feeding()
    ensures Possible(src, s, steps) && After(src, s, steps).c.state == Idle
    decreases Measure(src, s)
  {
    MeasureNatural(src, s);
    UsefulExists(src, s);
    hide Inv, Measure, Do;
    if s.c.state == Idle {
      steps := [];
    } else {
      var t := if s.out != [] then ToPeer else if s.back != [] then ToClient else Grant(1);
      DoKeeps(src, s, t);
      StepLowers(src, s, t);
      MeasureNatural(src, Do(src, s, t));
      var rest := CanFinish(src, Do(src, s, t));
      steps := [t] + rest;
      assert steps[1..] == rest;
    }
  }

  /** Between two grants no more packets go out than there were credits. */
  lemma {:induction false} WithinCredits(src: Source, s: Sys, steps: seq<Step>)
    requires Inv(src, s) && Possible(src, s, steps)
    requires forall i | 0 <= i < |steps| :: !steps[i].Grant?
    ensures var e := After(src, s, steps).c;
            s.c.sent <= e.sent && |e.sent| - |s.c.sent| + e.credits == s.c.credits
    decreases |steps|
  {
    hide Sound, Phase, Records, Recv;
    if steps != [] {
      var t := steps[0];
      DoKeeps(src, s, t);
      if t.ToClient? {
        Answered(src, s);
        RecvSound(src, s.c, s.back[0]);
      }
      WithinCredits(src, Do(src, s, t), steps[1..]);
    }
  }

  // ---- the resume branch ----

  /** If neither object has the size the peer reports, no SELECT answer is ever resumed. */
  lemma SizesDiffer(src: Source, offset: nat, crc: nat)
    requires |src.command| != MAX_SIZE && |src.image| != MAX_SIZE
    ensures Fresh(src, Command, offset, crc) && FreshImage(src)
  {
    hide CrcByOffset, Crc32.Crc;
  }
}
