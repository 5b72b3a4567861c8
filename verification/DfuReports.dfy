/** What the client reports and asks for whatever a peer answers: runs of arbitrary
    notifications and grants. */
module DfuReports {
  import opened Bytes
  import opened DfuModel
  import opened DfuControl
  import opened DfuEcho

  /** The statuses a notification makes the client report: any status but 1, a CRC answer that
      differs from the client's offset or CRC, and success for the image's EXECUTE only. */
  function Reported(c: Client, d: seq<byte>): seq<byte> {
    if |d| < 3 || d[0] != 0x60 then []
    else if d[2] != 1 then [d[2]]
    else if d[1] == 4 && c.state == PdExecute && c.cur == Image then [1]
    else if d[1] == 3 && c.state == PdGetCrc && |d| >= 11
      && !(Decode32(d[3..7]) == c.Cur().offset && Decode32(d[7..11]) == c.Cur().crc as int) then [0x81]
    else []
  }

  /** The requests sent, apart from those for the CRC. */
  function Requests(ps: seq<Packet>): seq<seq<byte>> {
    if ps == [] then []
    else
      var rest, p := Requests(ps[..|ps| - 1]), ps[|ps| - 1];
      if p.Ctrl? && p.bytes != [3] then rest + [p.bytes] else rest
  }

  lemma RequestsSnoc(ps: seq<Packet>, p: Packet)
    ensures Requests(ps + [p]) == Requests(ps) + (if p.Ctrl? && p.bytes != [3] then [p.bytes] else [])
  {
    assert (ps + [p])[..|ps|] == ps;
  }

  function Number(k: Kind): byte {
    if k == Command then 1 else 2
  }

  /** The request a call has sent, by the state it leaves the client in. */
  function Request(src: Source, c: Client, e: Client): seq<seq<byte>> {
    if e.state == c.state then []
    else
      match e.state
      case PdSel => [[6, Number(e.cur)]]
      case PdSetPrn => [[2, ToByte(c.prn % 256)]]
      case PdCreate => [[1, Number(e.cur)] + LittleEndian32(|src.Bytes(e.cur)|)]
      case PdExecute => [[4]]
      case _ => []
  }

  // ---- one call ----

  /** Nothing but data packets no longer than the link allows, and nothing ends. */
  ghost predicate DataSent(c: Client, e: Client) {
    && Requests(e.sent) == Requests(c.sent) && c.sent <= e.sent && Ends(e.events) == Ends(c.events)
    && e.prn == c.prn && e.cur == c.cur && e.sendLen == c.sendLen
    && forall k :: |c.sent| <= k < |e.sent| && e.sent[k].Data? ==> 0 < |e.sent[k].bytes| <= c.sendLen
  }

  lemma TurnSendsData(src: Source, c: Client)
    requires Supplied(src, c) && !Stuck(c) && c.credits > 0
    ensures Fillable(src, c) && DataSent(c, Turn(src, c).c)
  {
    hide Queued, Ends, Crc32.Crc, Requests;
    FillKeepsSupply(src, c);
    var d := Fill(src, c);
    if SendsNow(d) {
      PacketSent(src, d);
      hide SendData;
    }
  }

  lemma PacketSent(src: Source, d: Client)
    requires Supplied(src, d) && d.credits > 0 && SendsNow(d)
    ensures DataSent(d, SendData(d))
  {
    hide Queued, Ends, Crc32.Crc, Requests;
    var o := SendData(d).Cur();
    EndsSnoc(d.events, Progress(o.offset, o.size));
    RequestsSnoc(d.sent, Data(d.fifo[..NextLength(d)]));
    Long(src, d);
  }

  lemma Long(src: Source, d: Client)
    requires Supplied(src, d) && SendsNow(d)
    ensures 0 < NextLength(d) <= d.sendLen
  {
  }

  lemma {:induction false} LoopSendsData(src: Source, c: Client)
    requires Goes(src, c)
    ensures DataSent(c, Loop(src, c).0) && Loop(src, c).0.state == c.state
    decreases Work(c)
  {
    hide Turn, Queued, Stuck, Ends, Requests;
    LoopWorks(src, c);
    if c.credits > 0 {
      StartsUnstuck(src, c);
      TurnWorks(src, c);
      WorkNatural(src, c);
      TurnSendsData(src, c);
      LoopStep(src, c);
      var t := Turn(src, c);
      if t.Again? {
        LoopSendsData(src, t.c);
      }
    }
  }

  lemma StartsUnstuck(src: Source, c: Client)
    requires Goes(src, c) && c.credits > 0
    ensures !Stuck(c)
  {
  }

  /** The sending loop sends data and at most a request for the CRC. */
  lemma WriteSends(src: Source, c: Client)
    requires Goes(src, c)
    ensures var e := StWrite(src, c); DataSent(c, e) && (e.state == Write || e.state == GetCrc || e.state == PdGetCrc)
  {
    hide Loop, Queued, Requests, Ends;
    var d := c.(state := Write);
    LoopSendsData(src, d);
    var (f, ask) := Loop(src, d);
    RequestsSnoc(f.sent, Ctrl([CAL_CHECKSUM]));
  }

  /** What a call may have done. */
  ghost predicate Called(src: Source, c: Client, e: Client) {
    && Requests(e.sent) == Requests(c.sent) + Request(src, c, e) && c.sent <= e.sent
    && e.prn == c.prn && e.sendLen == c.sendLen
    && forall k :: |c.sent| <= k < |e.sent| && e.sent[k].Data? ==> 0 < |e.sent[k].bytes| <= c.sendLen
  }

  lemma WriteCalled(src: Source, c: Client)
    requires Goes(src, c)
    ensures Called(src, c, StWrite(src, c)) && Ends(StWrite(src, c).events) == Ends(c.events)
  {
    hide StWrite, Goes, Requests, Ends;
    WriteSends(src, c);
  }

  /** Waiting states send one request at most. */
  lemma WaitCalled(src: Source, c: Client, kind: Kind)
    requires c.state != PdSel && c.state != PdSetPrn && c.state != PdCreate
    ensures c.state != PdExecute ==> Called(src, c, StExecute(c)) && StExecute(c).events == c.events
    ensures Called(src, c, StGetCrc(c)) && StGetCrc(c).events == c.events
    ensures Called(src, c, StSelect(c.(cur := kind))) && StSelect(c.(cur := kind)).events == c.events
  {
    hide Requests;
    RequestsSnoc(c.sent, Ctrl([EXECUTE]));
    RequestsSnoc(c.sent, Ctrl([CAL_CHECKSUM]));
    RequestsSnoc(c.sent, Ctrl([SELECT, kind.Code()]));
  }

  lemma SetUpCalled(src: Source, c: Client)
    ensures c.state != PdSetPrn ==> Called(src, c, StSetPrn(c)) && StSetPrn(c).events == c.events
    ensures c.state != PdCreate ==> Called(src, c, StCreate(src, c)) && StCreate(src, c).events == c.events
  {
    hide Requests, LittleEndian32;
    RequestsSnoc(c.sent, Ctrl([SET_PRN, ToByte(c.prn % 256)]));
    RequestsSnoc(c.sent, Ctrl([CREATE, c.cur.Code()] + LittleEndian32(|src.Bytes(c.cur)|)));
  }

  lemma CheckedReports(src: Source, c: Client, d: seq<byte>)
    requires Deals(src, c, d) && |d| >= 3 && d[0] == 0x60 && d[2] == 1 && d[1] == 3 && c.state == PdGetCrc
    ensures var e := Recv(src, c, d); Called(src, c, e) && Ends(e.events) == Ends(c.events) + Reported(c, d)
  {
    hide Queued, Decode32, StWrite, Called, Ends, StExecute;
    WaitCalled(src, c, Image);
    EndsSnoc(c.events, End(DFU_CRC_NOT_MATCH));
    assert c.Finish(DFU_CRC_NOT_MATCH).sent == c.sent;
    FinishCalled(src, c, DFU_CRC_NOT_MATCH);
    if Continues(c, d) {
      WriteCalled(src, c);
    }
  }

  lemma FinishCalled(src: Source, c: Client, status: byte)
    ensures Called(src, c, c.Finish(status)) && Called(src, c, c)
  {
    hide Requests;
  }

  lemma SelectedReports(src: Source, c: Client, d: seq<byte>)
    requires Deals(src, c, d) && SelectAnswer(c, d)
    ensures var e := Recv(src, c, d); Called(src, c, e) && Ends(e.events) == Ends(c.events)
  {
    hide Queued, Steady, Decode32, StWrite, Ends, StSetPrn, CallsAfter, Match, Requests, Goes;
    var i := CallsAfter(src, c.cur, Decode32(d[3..7]), Decode32(d[7..11]), c.calls);
    var b := c.(calls := i);
    SetUpCalled(src, b);
    if Resumes(src, c, d) {
      ResumeGoes(src, c, d, i);
      WriteCalled(src, b);
    }
  }

  /** What a notification makes the client report and send. */
  lemma RecvReports(src: Source, c: Client, d: seq<byte>)
    requires Deals(src, c, d)
    ensures var e := Recv(src, c, d); Called(src, c, e) && Ends(e.events) == Ends(c.events) + Reported(c, d)
  {
    hide Queued, Decode32, StWrite, Called, Ends, StExecute, StSelect, StCreate, Selected, Checked, CrcByOffset, Match;
    FinishCalled(src, c, DFU_SUCCESS);
    EndsSnoc(c.events, End(DFU_SUCCESS));
    if |d| >= 3 && d[0] == 0x60 {
      FinishCalled(src, c, d[2]);
      EndsSnoc(c.events, End(d[2]));
      if d[2] == 1 {
        if d[1] == 1 && c.state == PdCreate {
          WriteCalled(src, c);
        } else if d[1] == 2 && c.state == PdSetPrn {
          SetUpCalled(src, c);
        } else if d[1] == 3 && c.state == PdGetCrc {
          CheckedReports(src, c, d);
        } else if d[1] == 4 && c.state == PdExecute {
          WaitCalled(src, c, Image);
        } else if SelectAnswer(c, d) {
          SelectedReports(src, c, d);
        }
      }
    }
  }

  /** An error answer is reported with its own status, ends the update and sends nothing. */
  lemma ErrorReported(src: Source, c: Client, d: seq<byte>)
    requires Deals(src, c, d) && |d| >= 3 && d[0] == 0x60 && d[2] != 1
    ensures var e := Recv(src, c, d);
            Ends(e.events) == Ends(c.events) + [d[2]] && e.state == Idle && e.sent == c.sent
  {
    EndsSnoc(c.events, End(d[2]));
    hide Ends, Deals;
  }

  lemma CanSendReports(src: Source, c: Client, n: nat)
    requires Steady(src, c) && n < 128 && !Jams(c, n)
    ensures var e := CanSend(src, c, n); Called(src, c, e) && Ends(e.events) == Ends(c.events)
  {
    hide Queued, StWrite, Ends, StExecute, StSelect, StCreate, StGetCrc, StSetPrn, Requests;
    var d := c.(credits := n);
    if c.state == Write {
      WriteCalled(src, d);
    } else if c.state == SetPrn || c.state == Create {
      SetUpCalled(src, d);
    } else if c.state == Sel || c.state == GetCrc || c.state == Execute {
      WaitCalled(src, d, c.cur);
      assert d.(cur := c.cur) == d;
    }
  }

  // ---- runs of calls ----

  datatype Call = Notify(d: seq<byte>) | Grant(n: nat)

  /** The client can deal with the call. */
  ghost predicate Takes(src: Source, c: Client, t: Call) {
    match t
    case Notify(d) => Deals(src, c, d)
    case Grant(n) => Steady(src, c) && n < 128 && !Jams(c, n)
  }

  function Take(src: Source, c: Client, t: Call): Client
    requires Takes(src, c, t)
  {
    match t
    case Notify(d) => Recv(src, c, d)
    case Grant(n) => CanSend(src, c, n)
  }

  ghost predicate Taken(src: Source, c: Client, ts: seq<Call>)
    decreases |ts|
  {
    ts != [] ==> Takes(src, c, ts[0]) && Taken(src, Take(src, c, ts[0]), ts[1..])
  }

  ghost function AfterCalls(src: Source, c: Client, ts: seq<Call>): Client
    requires Taken(src, c, ts)
    decreases |ts|
  {
    if ts == [] then c else AfterCalls(src, Take(src, c, ts[0]), ts[1..])
  }

  function ReportedBy(c: Client, t: Call): seq<byte> {
    match t
    case Notify(d) => Reported(c, d)
    case Grant(_) => []
  }

  ghost function AllReported(src: Source, c: Client, ts: seq<Call>): seq<byte>
    requires Taken(src, c, ts)
    decreases |ts|
  {
    if ts == [] then [] else ReportedBy(c, ts[0]) + AllReported(src, Take(src, c, ts[0]), ts[1..])
  }

  lemma TakeReports(src: Source, c: Client, t: Call)
    requires Takes(src, c, t)
    ensures var e := Take(src, c, t); Called(src, c, e) && Ends(e.events) == Ends(c.events) + ReportedBy(c, t)
  {
    hide Deals, Steady, Called, Ends, Reported, Recv, CanSend;
    match t
    case Notify(d) => RecvReports(src, c, d);
    case Grant(n) => CanSendReports(src, c, n);
  }

  /** Over any run of notifications and grants exactly those statuses are reported, in order. */
  lemma {:induction false} RunReports(src: Source, c: Client, ts: seq<Call>)
    requires Taken(src, c, ts)
    ensures Ends(AfterCalls(src, c, ts).events) == Ends(c.events) + AllReported(src, c, ts)
    decreases |ts|
  {
    hide Ends, Take, Takes, ReportedBy, Called;
    if ts != [] {
      TakeReports(src, c, ts[0]);
      RunReports(src, Take(src, c, ts[0]), ts[1..]);
    }
  }

  // ---- success ----

  function Count(b: seq<byte>, x: byte): nat {
    if b == [] then 0 else (if b[0] == x then 1 else 0) + Count(b[1..], x)
  }

  /** How often EXECUTE was asked for. */
  function Executes(rs: seq<seq<byte>>): nat {
    if rs == [] then 0 else Executes(rs[..|rs| - 1]) + if rs[|rs| - 1] == [4] then 1 else 0
  }

  lemma {:induction false} CountConcat(a: seq<byte>, b: seq<byte>, x: byte)
    ensures Count(a + b, x) == Count(a, x) + Count(b, x)
    decreases |a|
  {
    if a == [] {
      assert a + b == b;
    } else {
      assert (a + b)[1..] == a[1..] + b;
      CountConcat(a[1..], b, x);
    }
  }

  lemma ExecutesSnoc(rs: seq<seq<byte>>, r: seq<byte>)
    ensures Executes(rs + [r]) == Executes(rs) + if r == [4] then 1 else 0
  {
    assert (rs + [r])[..|rs|] == rs;
  }

  predicate Writes(t: State) {
    t == Write || t == GetCrc || t == PdGetCrc
  }

  /** Where one call can lead. */
  predicate Follows(c: Client, e: Client, resumed: bool) {
    if e.state == Idle then e.cur == c.cur
    else
      match c.state
      case Idle => false
      case Sel => e.cur == c.cur && (e.state == Sel || e.state == PdSel)
      case PdSel => e.cur == c.cur && if resumed then Writes(e.state)
                    else e.state == PdSel || e.state == SetPrn || e.state == PdSetPrn
      case SetPrn => e.cur == c.cur && (e.state == SetPrn || e.state == PdSetPrn)
      case PdSetPrn => e.cur == c.cur && (e.state == PdSetPrn || e.state == Create || e.state == PdCreate)
      case Create => e.cur == c.cur && (e.state == Create || e.state == PdCreate)
      case PdCreate => e.cur == c.cur && (e.state == PdCreate || Writes(e.state))
      case Write | GetCrc => e.cur == c.cur && Writes(e.state)
      case PdGetCrc => e.cur == c.cur && (Writes(e.state) || e.state == Execute || e.state == PdExecute)
      case Execute => e.cur == c.cur && (e.state == Execute || e.state == PdExecute)
      case PdExecute => (e.cur == c.cur && e.state == PdExecute)
                        || (c.cur == Command && e.cur == Image && (e.state == Sel || e.state == PdSel))
  }

  lemma WriteFollows(src: Source, c: Client)
    requires Goes(src, c)
    ensures Writes(StWrite(src, c).state) && StWrite(src, c).cur == c.cur
  {
    WriteSends(src, c);
    hide StWrite, Goes, Requests, Ends;
  }

  lemma RecvFollows(src: Source, c: Client, d: seq<byte>)
    requires Deals(src, c, d)
    ensures Follows(c, Recv(src, c, d), Resumes(src, c, d))
  {
    hide Queued, Decode32, StWrite, CrcByOffset, Match, CheckCrc, Selected, Checked, Follows;
    var e := Recv(src, c, d);
    if !(|d| >= 3 && d[0] == 0x60) || d[2] != 1 {
      Stays(c);
    } else if d[1] == 1 && c.state == PdCreate {
      WriteFollows(src, c);
      CreatedFollows(c, e);
    } else if d[1] == 3 && c.state == PdGetCrc {
      CheckedFollows(src, c, d);
    } else if SelectAnswer(c, d) {
      SelectedFollows(src, c, d);
    } else {
      Stays(c);
      OtherFollows(src, c, d);
    }
  }

  lemma Stays(c: Client)
    ensures forall r :: !(c.state == PdSel && r) ==> Follows(c, c, r)
    ensures forall status: byte, r: bool :: Follows(c, c.Finish(status), r)
  {
  }

  lemma CreatedFollows(c: Client, e: Client)
    requires c.state == PdCreate && Writes(e.state) && e.cur == c.cur
    ensures forall r :: Follows(c, e, r)
  {
  }

  lemma OtherFollows(src: Source, c: Client, d: seq<byte>)
    requires Deals(src, c, d) && Response(d) && d[2] == 1 && !SelectAnswer(c, d)
    requires !(d[1] == 1 && c.state == PdCreate) && !(d[1] == 3 && c.state == PdGetCrc)
    ensures Follows(c, Recv(src, c, d), false)
  {
    hide Deals, Requests;
  }

  lemma CheckedFollows(src: Source, c: Client, d: seq<byte>)
    requires Deals(src, c, d) && Response(d) && d[2] == 1 && d[1] == 3 && c.state == PdGetCrc
    ensures Follows(c, Recv(src, c, d), false)
  {
    hide Queued, Decode32, StWrite;
    if Continues(c, d) {
      WriteFollows(src, c);
    }
  }

  lemma SelectedFollows(src: Source, c: Client, d: seq<byte>)
    requires Deals(src, c, d) && SelectAnswer(c, d)
    ensures Follows(c, Recv(src, c, d), Resumes(src, c, d))
  {
    hide Queued, Steady, Decode32, StWrite, CallsAfter, Match, Goes;
    var i := CallsAfter(src, c.cur, Decode32(d[3..7]), Decode32(d[7..11]), c.calls);
    if Resumes(src, c, d) {
      ResumeGoes(src, c, d, i);
      WriteFollows(src, c.(calls := i));
    }
  }

  lemma CanSendFollows(src: Source, c: Client, n: nat)
    requires Steady(src, c) && n < 128 && !Jams(c, n)
    ensures Follows(c, CanSend(src, c, n), false)
  {
    hide Queued, StWrite;
    if c.state == Write {
      WriteFollows(src, c.(credits := n));
    }
  }

  ghost predicate Resumed(src: Source, c: Client, t: Call) {
    t.Notify? && Resumes(src, c, t.d)
  }

  lemma TakeFollows(src: Source, c: Client, t: Call)
    requires Takes(src, c, t)
    ensures Follows(c, Take(src, c, t), Resumed(src, c, t))
  {
    hide Deals, Steady, Follows, Recv, CanSend;
    match t
    case Notify(d) => RecvFollows(src, c, d);
    case Grant(n) => CanSendFollows(src, c, n);
  }

  // ---- success ----

  lemma ReportsOne(c: Client, t: Call)
    ensures Count(ReportedBy(c, t), 1) == if t.Notify? && |t.d| >= 3 && t.d[0] == 0x60 && t.d[1] == 4 && t.d[2] == 1
                                         && c.state == PdExecute && c.cur == Image then 1 else 0
  {
    hide Decode32;
    var r := ReportedBy(c, t);
    assert |r| <= 1;
    if r != [] {
      assert r[1..] == [];
    }
  }

  lemma RequestExecutes(src: Source, c: Client, e: Client)
    requires Called(src, c, e)
    ensures Executes(Requests(e.sent)) == Executes(Requests(c.sent))
                                          + if e.state == PdExecute && c.state != PdExecute then 1 else 0
  {
    hide Requests, LittleEndian32;
    var r := Request(src, c, e);
    if r != [] {
      ExecutesSnoc(Requests(c.sent), r[0]);
      assert r == [r[0]];
    } else {
      assert Requests(c.sent) + [] == Requests(c.sent);
    }
  }

  /** How far an update that began with n requests for EXECUTE behind it has come. */
  ghost predicate Progressed(c: Client, n: nat, successes: nat) {
    if c.state == Idle then successes <= 1 && (successes == 1 ==> c.cur == Image && Executes(Requests(c.sent)) == n + 2)
    else
      && successes == 0
      && Executes(Requests(c.sent)) == n + (if c.cur == Image then 1 else 0) + (if c.state == PdExecute then 1 else 0)
  }

  lemma TakeProgresses(src: Source, c: Client, t: Call, n: nat, successes: nat)
    requires Takes(src, c, t) && Progressed(c, n, successes)
    ensures Progressed(Take(src, c, t), n, successes + Count(ReportedBy(c, t), 1))
  {
    hide Recv, CanSend, Requests, Executes, ReportedBy, Count, Deals, Steady, Called;
    var e := Take(src, c, t);
    TakeReports(src, c, t);
    TakeFollows(src, c, t);
    ReportsOne(c, t);
    RequestExecutes(src, c, e);
    if Count(ReportedBy(c, t), 1) == 1 {
      SuccessEnds(src, c, t.d);
    }
  }

  lemma SuccessEnds(src: Source, c: Client, d: seq<byte>)
    requires Deals(src, c, d) && |d| >= 3 && d[0] == 0x60 && d[1] == 4 && d[2] == 1 && c.state == PdExecute
    requires c.cur == Image
    ensures var e := Recv(src, c, d); e.state == Idle && e.cur == c.cur
  {
    hide Deals;
  }

  lemma {:induction false} RunProgresses(src: Source, c: Client, ts: seq<Call>, n: nat, successes: nat)
    requires Taken(src, c, ts) && Progressed(c, n, successes)
    ensures Progressed(AfterCalls(src, c, ts), n, successes + Count(AllReported(src, c, ts), 1))
    decreases |ts|
  {
    hide Take, Takes, Progressed, Count, ReportedBy;
    if ts == [] {
      CountNothing();
    } else {
      var e := Take(src, c, ts[0]);
      TakeProgresses(src, c, ts[0], n, successes);
      CountConcat(ReportedBy(c, ts[0]), AllReported(src, e, ts[1..]), 1);
      RunProgresses(src, e, ts[1..], n, successes + Count(ReportedBy(c, ts[0]), 1));
    }
  }

  lemma CountNothing()
    ensures Count([], 1) == 0
  {
  }

  /** Whatever a peer answers, an update that starts reports success at most once, and only
      after EXECUTE was asked for twice and answered for the image. */
  lemma SuccessMeans(src: Source, c: Client, mtu: nat, credits: nat, prn: nat, ts: seq<Call>)
    requires c.state == Idle && mtu >= 23 && Taken(src, Start(c, mtu, credits, prn), ts)
    ensures var s := Start(c, mtu, credits, prn);
            var e := AfterCalls(src, s, ts);
            var n := Count(AllReported(src, s, ts), 1);
            && Ends(e.events) == Ends(c.events) + AllReported(src, s, ts)
            && n <= 1
            && (n == 1 ==> e.state == Idle && e.cur == Image
                           && Executes(Requests(e.sent)) == Executes(Requests(c.sent)) + 2)
  {
    hide AfterCalls, AllReported, Taken, Requests, Executes, Count, Ends;
    var s := Start(c, mtu, credits, prn);
    RequestsSnoc(c.sent, Ctrl([SELECT, Command.Code()]));
    ExecutesSnoc(Requests(c.sent), [SELECT, Command.Code()]);
    assert s.events == c.events;
    RunReports(src, s, ts);
    RunProgresses(src, s, ts, Executes(Requests(c.sent)), 0);
  }
}
