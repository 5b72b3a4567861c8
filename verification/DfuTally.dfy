/** What the packets an update sends add up to: the bytes of each object, in packets as long as
    the link allows, and the progress that is shown for them. */
module DfuTally {
  import opened Bytes
  import opened Crc32
  import opened DfuModel
  import opened DfuControl
  import opened DfuEcho
  import opened DfuReports
  import DfuScript

  /** bytes were sent since an object of size bytes was created; shown is what there is to show
      so far; full says that every packet was of length len, or ended its object. */
  datatype Tally = Tally(bytes: seq<byte>, size: nat, shown: seq<(nat, nat)>, full: bool)

  function Tallied(t: Tally, p: Packet, len: nat): Tally {
    match p
    case Data(b) =>
      var n := |t.bytes| + |b|;
      Tally(t.bytes + b, t.size, t.shown + [(n, t.size)],
            t.full && 0 < |b| <= len && (|b| == len || n == t.size))
    case Ctrl(b) => if |b| == 6 && b[0] == 1 then Tally([], Decode32(b[2..6]), t.shown, t.full) else t
  }

  function TallyOf(ps: seq<Packet>, len: nat): Tally {
    if ps == [] then Tally([], 0, [], true) else Tallied(TallyOf(ps[..|ps| - 1], len), ps[|ps| - 1], len)
  }

  lemma TallySnoc(ps: seq<Packet>, p: Packet, len: nat)
    ensures TallyOf(ps + [p], len) == Tallied(TallyOf(ps, len), p, len)
  {
    assert (ps + [p])[..|ps|] == ps;
  }

  /** The progress reported. */
  function Shown(es: seq<Event>): seq<(nat, nat)> {
    if es == [] then []
    else
      var rest, e := Shown(es[..|es| - 1]), es[|es| - 1];
      if e.Progress? then rest + [(e.offset, e.size)] else rest
  }

  lemma ShownSnoc(es: seq<Event>, e: Event)
    ensures Shown(es + [e]) == Shown(es) + if e.Progress? then [(e.offset, e.size)] else []
  {
    assert (es + [e])[..|es|] == es;
  }

  predicate Created(t: State) {
    t == PdCreate || t == Write || t == GetCrc || t == PdGetCrc || t == Execute || t == PdExecute
  }

  /** What was sent behind packet n and reported behind event m. */
  ghost predicate Adds(src: Source, c: Client, n: nat, m: nat) {
    && n <= |c.sent| && m <= |c.events|
    && var t := TallyOf(c.sent[n..], c.sendLen);
    && t.full && t.shown == Shown(c.events[m..])
    && (Created(c.state) ==> c.Cur().offset <= |src.Bytes(c.cur)|)
    && (Created(c.state) ==> t.bytes == src.Bytes(c.cur)[..c.Cur().offset] && t.size == |src.Bytes(c.cur)|)
  }

  lemma SentTail(ps: seq<Packet>, n: nat, p: Packet)
    requires n <= |ps|
    ensures (ps + [p])[n..] == ps[n..] + [p]
  {
  }

  lemma EventsTail(es: seq<Event>, m: nat, e: Event)
    requires m <= |es|
    ensures (es + [e])[m..] == es[m..] + [e]
  {
  }

  /** A request that creates nothing. */
  lemma RequestAdds(c: Client, n: nat, b: seq<byte>)
    requires n <= |c.sent| && !(|b| == 6 && b[0] == 1)
    ensures TallyOf((c.sent + [Ctrl(b)])[n..], c.sendLen) == TallyOf(c.sent[n..], c.sendLen)
  {
    SentTail(c.sent, n, Ctrl(b));
    TallySnoc(c.sent[n..], Ctrl(b), c.sendLen);
    hide TallyOf;
  }

  // ---- the sending loop ----

  lemma PacketAdds(src: Source, d: Client, n: nat, m: nat)
    requires Transferring(src, d) && d.credits > 0 && SendsNow(d) && Created(d.state) && Adds(src, d, n, m)
    ensures Adds(src, SendData(d), n, m)
  {
    hide TallyOf, Shown, Queued, Crc;
    SendKeeps(src, d);
    var e, b := SendData(d), src.Bytes(d.cur);
    var o, o' := d.Cur().offset, e.Cur().offset;
    var p := Data(b[o..o']);
    SentTail(d.sent, n, p);
    TallySnoc(d.sent[n..], p, d.sendLen);
    EventsTail(d.events, m, Progress(o', e.Cur().size));
    ShownSnoc(d.events[m..], Progress(o', e.Cur().size));
    assert b[..o] + b[o..o'] == b[..o'];
    LongOrLast(src, d);
    hide Partly;
  }

  lemma LongOrLast(src: Source, d: Client)
    requires Transferring(src, d) && SendsNow(d)
    ensures var k := NextLength(d); 0 < k <= d.sendLen && (k == d.sendLen || d.Cur().offset + k == |src.Bytes(d.cur)|)
  {
    RemainingIs(src, d);
  }

  lemma FillAdds(src: Source, c: Client, n: nat, m: nat)
    requires Writing(src, c) && Adds(src, c, n, m)
    ensures Fillable(src, c) && Transferring(src, Fill(src, c)) && Adds(src, Fill(src, c), n, m)
  {
    FillKeeps(src, c);
    FillKeepsSupply(src, c);
    hide TallyOf, Shown, Queued, Partly;
  }

  lemma TurnAdds(src: Source, c: Client, n: nat, m: nat)
    requires Writing(src, c) && c.credits > 0 && Created(c.state) && Adds(src, c, n, m)
    ensures Fillable(src, c) && Adds(src, Turn(src, c).c, n, m)
  {
    hide TallyOf, Shown, Queued, Partly, Fill, SendData;
    FillAdds(src, c, n, m);
    var d := Fill(src, c);
    FillState(src, c);
    if SendsNow(d) {
      PacketAdds(src, d, n, m);
      assert Adds(src, SendData(d).(prnCnt := 0), n, m);
    }
  }

  lemma FillState(src: Source, c: Client)
    requires Fillable(src, c)
    ensures Fill(src, c).state == c.state && Fill(src, c).credits == c.credits
  {
  }

  lemma {:induction false} LoopAdds(src: Source, c: Client, n: nat, m: nat)
    requires Writing(src, c) && Created(c.state) && Adds(src, c, n, m)
    ensures Goes(src, c) && Adds(src, Loop(src, c).0, n, m)
    decreases Work(c)
  {
    hide Turn, Queued, Partly, Adds, Loop, Streamed;
    WritingGoes(src, c);
    if c.credits > 0 {
      TurnKeeps(src, c);
      WorkNatural(src, c);
      TurnAdds(src, c, n, m);
      LoopStep(src, c);
      var t := Turn(src, c);
      if t.Again? {
        LoopAdds(src, t.c, n, m);
      }
    } else {
      NoLoop(src, c);
    }
  }

  lemma WriteAdds(src: Source, c: Client, n: nat, m: nat)
    requires Writing(src, c) && Created(c.state) && Adds(src, c, n, m)
    ensures Goes(src, c) && Adds(src, StWrite(src, c), n, m)
  {
    hide TallyOf, Shown, Queued, Partly, Loop, Streamed;
    WritingGoes(src, c);
    var d := c.(state := Write);
    LoopAdds(src, d, n, m);
    LoopKeeps(src, d);
    var (e, ask) := Loop(src, d);
    RequestAdds(e, n, [CAL_CHECKSUM]);
  }

  // ---- the other calls ----

  lemma CreateAdds(src: Source, c: Client, n: nat, m: nat)
    requires Adds(src, c, n, m) && |src.Bytes(c.cur)| < WORD
    ensures Adds(src, StCreate(src, c), n, m)
  {
    hide TallyOf, Shown, LittleEndian32, Decode32;
    if c.credits > 0 {
      var b := [CREATE, c.cur.Code()] + LittleEndian32(|src.Bytes(c.cur)|);
      assert |b| == 6 && b[2..6] == LittleEndian32(|src.Bytes(c.cur)|);
      Decode32Inverts(|src.Bytes(c.cur)|);
      SentTail(c.sent, n, Ctrl(b));
      TallySnoc(c.sent[n..], Ctrl(b), c.sendLen);
      assert src.Bytes(c.cur)[..0] == [];
    }
  }

  /** Requests that create nothing change nothing. */
  lemma OtherAdds(src: Source, c: Client, n: nat, m: nat)
    requires Adds(src, c, n, m)
    ensures Adds(src, StSetPrn(c), n, m)
    ensures Adds(src, StSelect(c), n, m) && Adds(src, StSelect(c.(cur := Image)), n, m)
    ensures Created(c.state) ==> Adds(src, StExecute(c), n, m) && Adds(src, StGetCrc(c), n, m)
  {
    hide TallyOf, Shown;
    RequestAdds(c, n, [SET_PRN, ToByte(c.prn % 256)]);
    RequestAdds(c, n, [SELECT, c.cur.Code()]);
    RequestAdds(c, n, [SELECT, Image.Code()]);
    RequestAdds(c, n, [EXECUTE]);
    RequestAdds(c, n, [CAL_CHECKSUM]);
    hide ToByte;
  }

  lemma FinishAdds(src: Source, c: Client, n: nat, m: nat, status: byte)
    requires Adds(src, c, n, m)
    ensures Adds(src, c.Finish(status), n, m)
  {
    hide TallyOf, Shown;
    EventsTail(c.events, m, End(status));
    ShownSnoc(c.events[m..], End(status));
  }

  lemma RecvAdds(src: Source, c: Client, d: seq<byte>, n: nat, m: nat)
    requires Sound(src, c) && WellSized(c, d) && !Resumes(src, c, d) && Adds(src, c, n, m)
    ensures Deals(src, c, d) && Adds(src, Recv(src, c, d), n, m)
  {
    SoundDeals(src, c, d);
    hide Adds, StWrite, StCreate, StSelect, StSetPrn, StExecute, Queued, Decode32, CrcByOffset, Partly, CheckCrc, Match;
    if Response(d) {
      FinishAdds(src, c, n, m, d[2]);
      FinishAdds(src, c, n, m, DFU_CRC_NOT_MATCH);
      OtherAdds(src, c, n, m);
      LengthFits(src, c);
      if c.state == PdCreate || (c.state == PdGetCrc && Continues(c, d)) {
        WritingHere(src, c);
        WriteAdds(src, c, n, m);
      } else if c.state == PdSetPrn {
        CreateAdds(src, c, n, m);
      } else if SelectAnswer(c, d) {
        SelectedAdds(src, c, d, n, m);
      }
    }
  }

  lemma LengthFits(src: Source, c: Client)
    requires Sound(src, c)
    ensures |src.Bytes(c.cur)| < WORD
  {
  }

  lemma WritingHere(src: Source, c: Client)
    requires Sound(src, c) && (c.state == PdCreate || (c.state == PdGetCrc && c.Cur().offset != c.Cur().size))
    ensures Writing(src, c)
  {
  }

  lemma SelectedAdds(src: Source, c: Client, d: seq<byte>, n: nat, m: nat)
    requires Deals(src, c, d) && SelectAnswer(c, d) && !Resumes(src, c, d) && Adds(src, c, n, m)
    ensures Adds(src, Selected(src, c, d), n, m)
  {
    hide StSetPrn, Decode32, CallsAfter, TallyOf, Shown, Steady;
    var e := c.(calls := CallsAfter(src, c.cur, Decode32(d[3..7]), Decode32(d[7..11]), c.calls));
    OtherAdds(src, e, n, m);
  }

  lemma GrantAdds(src: Source, c: Client, k: nat, n: nat, m: nat)
    requires Sound(src, c) && k < 128 && Adds(src, c, n, m)
    ensures !Jams(c, k) && Adds(src, CanSend(src, c, k), n, m)
  {
    CanSendSound(src, c, k);
    hide StWrite, StCreate, StSelect, StSetPrn, StExecute, StGetCrc, Queued, Partly, TallyOf, Shown;
    var d := c.(credits := k);
    assert Adds(src, d, n, m);
    OtherAdds(src, d, n, m);
    LengthFits(src, c);
    CreateAdds(src, d, n, m);
    if c.state == Write {
      WriteAdds(src, d, n, m);
    }
  }

  // ---- runs ----

  /** A run of calls from a sound client of which none resumes a transfer keeps adding up. */
  lemma {:induction false} RunAdds(src: Source, c: Client, ts: seq<Call>, n: nat, m: nat)
    requires Sound(src, c) && Taken(src, c, ts) && DfuScript.Unresumed(src, c, ts) && Adds(src, c, n, m)
    ensures var e := AfterCalls(src, c, ts); Sound(src, e) && Adds(src, e, n, m) && e.sendLen == c.sendLen
    decreases |ts|
  {
    hide Adds, Sound, Recv, CanSend, Deals, Requests, Resumes;
    if ts != [] {
      var t := ts[0];
      var e := Take(src, c, t);
      TakeReports(src, c, t);
      if t.Notify? {
        DealsWell(src, c, t.d);
        RecvSound(src, c, t.d);
        RecvAdds(src, c, t.d, n, m);
      } else {
        CanSendSound(src, c, t.n);
        GrantAdds(src, c, t.n, n, m);
      }
      RunAdds(src, e, ts[1..], n, m);
    }
  }

  lemma DealsWell(src: Source, c: Client, d: seq<byte>)
    requires Deals(src, c, d)
    ensures WellSized(c, d)
  {
  }

  /** In every run of an update in which no transfer is resumed, whatever is answered: all data
      packets are as long as the link allows, 247 bytes at most, or end their object; the
      progress shown is theirs; and when EXECUTE is asked for, what was sent since the object
      was created is the object. */
  lemma UpdateAdds(src: Source, c: Client, mtu: nat, credits: nat, prn: nat, ts: seq<Call>)
    requires src.Good() && c.state == Idle && mtu >= 23 && credits < 128 && prn < 256
    requires var s := Start(c, mtu, credits, prn); Taken(src, s, ts) && DfuScript.Unresumed(src, s, ts)
    ensures var e := AfterCalls(src, Start(c, mtu, credits, prn), ts);
            && |c.sent| <= |e.sent| && |c.events| <= |e.events|
            && var t := TallyOf(e.sent[|c.sent|..], if mtu < 250 then mtu - 3 else 247);
            && t.full && t.shown == Shown(e.events[|c.events|..])
            && (e.state == Execute || e.state == PdExecute ==> t.bytes == src.Bytes(e.cur) && t.size == |t.bytes|)
  {
    hide Taken, AfterCalls, TallyOf, Shown, Start, DfuScript.Unresumed;
    var s := Start(c, mtu, credits, prn);
    DfuScript.StartIs(c, mtu, credits, prn);
    StartSound(src, c, mtu, credits, prn);
    StartAdds(src, c, mtu, credits, prn);
    RunAdds(src, s, ts, |c.sent|, |c.events|);
    var e := AfterCalls(src, s, ts);
    if e.state == Execute || e.state == PdExecute {
      AllOut(src, e);
    }
    hide Sound;
  }

  lemma StartSound(src: Source, c: Client, mtu: nat, credits: nat, prn: nat)
    requires src.Good() && c.state == Idle && mtu >= 23 && credits < 128 && prn < 256
    ensures Sound(src, Start(c, mtu, credits, prn))
  {
  }

  lemma StartAdds(src: Source, c: Client, mtu: nat, credits: nat, prn: nat)
    requires c.state == Idle && mtu >= 23
    ensures Adds(src, Start(c, mtu, credits, prn), |c.sent|, |c.events|)
  {
    hide Start;
    DfuScript.StartIs(c, mtu, credits, prn);
    var s := Start(c, mtu, credits, prn);
    assert c.sent[|c.sent|..] == [] && c.events[|c.events|..] == [];
    RequestAdds(c.(sendLen := s.sendLen), |c.sent|, [6, 1]);
  }

  lemma AllOut(src: Source, c: Client)
    requires Sound(src, c) && (c.state == Execute || c.state == PdExecute)
    ensures c.Cur().offset == |src.Bytes(c.cur)|
    ensures src.Bytes(c.cur)[..|src.Bytes(c.cur)|] == src.Bytes(c.cur)
  {
  }
}
