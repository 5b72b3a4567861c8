/** The update client and its peer joined by an in-order channel in each direction. */
module DfuSystem {
  import opened Bytes
  import opened Crc32
  import opened DfuModel
  import opened DfuControl

  /** The largest object the peer says it takes. */
  const MAX_SIZE: nat := 0x10_0000

  // ---- the peer ----

  /** The peer's byte count and CRC; received and executed record, for stating results, the
      bytes taken since the last CREATE and the objects executed so far. */
  datatype Peer = Peer(offset: nat, crc: bv32, received: seq<byte>, executed: seq<seq<byte>>)

  predicate IsSelect(b: seq<byte>) {
    |b| >= 2 && b[0] == SELECT && (b[1] == 1 || b[1] == 2)
  }

  predicate IsCreate(b: seq<byte>) {
    |b| >= 2 && b[0] == CREATE && (b[1] == 1 || b[1] == 2)
  }

  predicate Starts(b: seq<byte>, op: byte) {
    |b| >= 1 && b[0] == op
  }

  function SelectReply(p: Peer): seq<byte> {
    [RESPONSE, SELECT, DFU_SUCCESS] + LittleEndian32(MAX_SIZE) + LittleEndian32(p.offset) + LittleEndian32(p.crc as int)
  }

  function CrcReply(p: Peer): seq<byte> {
    [RESPONSE, CAL_CHECKSUM, DFU_SUCCESS] + LittleEndian32(p.offset) + LittleEndian32(p.crc as int)
  }

  function PeerNext(p: Peer, k: Packet): Peer {
    match k
    case Data(b) => p.(offset := (p.offset + |b|) % WORD, crc := Crc(p.crc, b), received := p.received + b)
    case Ctrl(b) =>
      if IsSelect(b) then p
      else if IsCreate(b) then p.(offset := 0, crc := 0, received := [])
      else if Starts(b, EXECUTE) then p.(executed := p.executed + [p.received])
      else p
  }

  function PeerReply(p: Peer, k: Packet): seq<seq<byte>> {
    match k
    case Data(_) => []
    case Ctrl(b) =>
      if IsSelect(b) then [SelectReply(p)]
      else if IsCreate(b) then [[RESPONSE, CREATE, DFU_SUCCESS]]
      else if Starts(b, SET_PRN) then [[RESPONSE, SET_PRN, DFU_SUCCESS]]
      else if Starts(b, CAL_CHECKSUM) then [CrcReply(p)]
      else if Starts(b, EXECUTE) then [[RESPONSE, EXECUTE, DFU_SUCCESS]]
      else []
  }

  // ---- the system ----

  /** out carries packets to the peer, back carries responses to the client. For stating
      results, first is what is executed as the command object, and reported and installed are
      the statuses reported and the objects executed
      when the update began. */
  datatype Sys = Sys(c: Client, p: Peer, out: seq<Packet>, back: seq<seq<byte>>, reported: seq<byte>,
                     installed: seq<seq<byte>>, first: seq<byte>)

  datatype Step = ToPeer | ToClient | Grant(n: nat)

  function New(c: Client, e: Client): seq<Packet>
    requires |c.sent| <= |e.sent|
  {
    e.sent[|c.sent|..]
  }

  /** The peer's numbers are those of the bytes it has received. */
  ghost predicate InSync(p: Peer) {
    p.offset == |p.received| < WORD && p.crc == Crc(0, p.received)
  }

  ghost predicate Quiet(s: Sys) {
    s.out == [] && s.back == []
  }

  /** One request is on its way, or its answer is. */
  ghost predicate Pending(s: Sys, req: Packet, reply: seq<byte>) {
    (s.out == [req] && s.back == []) || (s.out == [] && s.back == [reply])
  }

  /** No SELECT answer for object k at the peer's numbers leads into the resume branch. */
  ghost predicate Fresh(src: Source, k: Kind, offset: nat, crc: nat) {
    forall i :: !Match(src, k, MAX_SIZE, offset, crc, i)
  }

  ghost predicate FreshImage(src: Source) {
    Fresh(src, Image, |src.command|, Crc(0, src.command) as int)
  }

  /** The objects of this update executed before the current one. */
  function Before(s: Sys): seq<seq<byte>> {
    if s.c.cur.Command? then [] else [s.first]
  }

  function SetPrnRequest(c: Client): Packet {
    Ctrl([SET_PRN, ToByte(c.prn % 256)])
  }

  function CreateRequest(c: Client): Packet {
    Ctrl([CREATE, c.cur.Code()] + LittleEndian32(c.Cur().size))
  }

  /** Data packets only are on their way, and with them the peer gets to the first n bytes
      of b. */
  ghost predicate Flows(b: seq<byte>, n: nat, p: Peer, out: seq<Packet>) {
    InSync(p) && DataOnly(out) && n <= |b| && p.received + Payload(out) == b[..n]
  }

  /** With what is on its way the peer gets to where the client is. */
  ghost predicate Flowing(src: Source, c: Client, p: Peer, out: seq<Packet>) {
    Flows(src.Bytes(c.cur), c.Cur().offset, p, out)
  }

  /** The CRC is being asked for: behind the last data packets, or already answered. */
  ghost predicate Checking(src: Source, s: Sys) {
    var n := |s.out| - 1;
    if s.out != [] then s.back == [] && s.out[n] == Ctrl([CAL_CHECKSUM]) && Flowing(src, s.c, s.p, s.out[..n])
    else s.back == [CrcReply(s.p)] && Flowing(src, s.c, s.p, [])
  }

  /** EXECUTE is on its way to a peer that has the whole object, or has been carried out. */
  ghost predicate Executing(src: Source, s: Sys) {
    var b := src.Bytes(s.c.cur);
    && InSync(s.p) && s.p.received == b
    && Pending(s, Ctrl([EXECUTE]), [RESPONSE, EXECUTE, DFU_SUCCESS])
    && s.p.executed == s.installed + Before(s) + (if s.out == [] then [b] else [])
  }

  ghost predicate Phase(src: Source, s: Sys) {
    match s.c.state
    case Idle => Quiet(s)
    case Sel => Quiet(s) && Fresh(src, s.c.cur, s.p.offset, s.p.crc as int)
    case PdSel => Pending(s, Ctrl([SELECT, s.c.cur.Code()]), SelectReply(s.p))
                  && Fresh(src, s.c.cur, s.p.offset, s.p.crc as int)
    case SetPrn => Quiet(s)
    case PdSetPrn => Pending(s, SetPrnRequest(s.c), [RESPONSE, SET_PRN, DFU_SUCCESS])
    case Create => Quiet(s)
    case PdCreate => Pending(s, CreateRequest(s.c), [RESPONSE, CREATE, DFU_SUCCESS])
                     && (s.out == [] ==> s.p.offset == 0 && s.p.crc == 0 && s.p.received == [])
    case Write => s.back == [] && Flowing(src, s.c, s.p, s.out)
    case GetCrc => s.back == [] && Flowing(src, s.c, s.p, s.out)
    case PdGetCrc => Checking(src, s)
    case Execute => Quiet(s) && Flowing(src, s.c, s.p, [])
    case PdExecute => Executing(src, s)
  }

  /** What the peer has executed and the client has reported while object cur is under way. */
  ghost predicate Midway(src: Source, s: Sys) {
    Ends(s.c.events) == s.reported && s.p.executed == s.installed + Before(s)
  }

  ghost predicate Records(src: Source, s: Sys) {
    match s.c.state
    case Idle => Ends(s.c.events) == s.reported + [DFU_SUCCESS]
                 && s.p.executed == s.installed + [s.first, src.image]
    case PdExecute => Ends(s.c.events) == s.reported
    case _ => Midway(src, s)
  }

  /** While the command object is under way, it is what will be executed first, and what the
      peer then has is no match for the image. */
  ghost predicate Outset(src: Source, s: Sys) {
    s.c.cur.Command? ==> FreshImage(src) && s.first == src.command
  }

  /** What holds in every state of an update. */
  ghost predicate Inv(src: Source, s: Sys) {
    Sound(src, s.c) && s.p.offset < WORD && Outset(src, s) && Phase(src, s) && Records(src, s)
  }

  ghost predicate Enabled(s: Sys, t: Step) {
    match t
    case ToPeer => s.out != []
    case ToClient => s.back != []
    case Grant(n) => n < 128
  }

  function DeliverToPeer(s: Sys): Sys
    requires s.out != []
  {
    s.(p := PeerNext(s.p, s.out[0]), out := s.out[1..], back := s.back + PeerReply(s.p, s.out[0]))
  }

  // ---- a packet reaches the peer ----

  lemma {:induction false} PayloadHead(ps: seq<Packet>)
    requires ps != []
    ensures Payload(ps) == ps[0].bytes + Payload(ps[1..])
  {
    PayloadSnoc([], ps[0]);
    assert [] + [ps[0]] == [ps[0]];
    PayloadConcat([ps[0]], ps[1..]);
    assert [ps[0]] + ps[1..] == ps;
  }

  lemma FlowStep(src: Source, c: Client, p: Peer, out: seq<Packet>)
    requires Flowing(src, c, p, out) && out != [] && |src.Bytes(c.cur)| < WORD
    ensures out[0].Data? && Flowing(src, c, PeerNext(p, out[0]), out[1..])
  {
    hide Crc, Payload;
    PayloadHead(out);
    var b, rest := out[0].bytes, Payload(out[1..]);
    assert p.received + (b + rest) == (p.received + b) + rest;
    Taken(p, b);
    assert |(p.received + b) + rest| < WORD;
    hide InSync;
  }

  lemma Taken(p: Peer, b: seq<byte>)
    requires InSync(p) && |p.received + b| < WORD
    ensures InSync(PeerNext(p, Data(b))) && PeerNext(p, Data(b)).received == p.received + b
  {
    hide Crc;
    CrcConcat(0, p.received, b);
  }

  lemma ToPeerPhase(src: Source, s: Sys)
    requires Inv(src, s) && s.out != []
    ensures Phase(src, DeliverToPeer(s))
  {
    hide Sound, Crc, Flows, LittleEndian32, Records;
    SizesBounded(src, s.c);
    var t := DeliverToPeer(s);
    match s.c.state
    case Write => FlowStep(src, s.c, s.p, s.out);
    case GetCrc => FlowStep(src, s.c, s.p, s.out);
    case PdGetCrc => CheckingStep(src, s);
    case _ =>
  }

  lemma SizesBounded(src: Source, c: Client)
    requires Sound(src, c)
    ensures |src.Bytes(c.cur)| < WORD
  {
  }

  lemma CheckingStep(src: Source, s: Sys)
    requires Checking(src, s) && s.out != [] && |src.Bytes(s.c.cur)| < WORD
    ensures Checking(src, DeliverToPeer(s))
  {
    hide Crc, Flows;
    var n := |s.out| - 1;
    if n == 0 {
      assert s.out[..0] == [];
    } else {
      FlowStep(src, s.c, s.p, s.out[..n]);
      assert s.out[1..][..n - 1] == s.out[..n][1..];
      assert s.out[..n][0] == s.out[0];
    }
  }

  lemma ToPeerKeeps(src: Source, s: Sys)
    requires Inv(src, s) && s.out != []
    ensures Inv(src, DeliverToPeer(s))
  {
    ToPeerPhase(src, s);
    ToPeerRecords(src, s);
    hide Sound, Phase;
  }

  lemma ToPeerRecords(src: Source, s: Sys)
    requires Inv(src, s) && s.out != []
    ensures var q := DeliverToPeer(s).p;
            && q.offset < WORD
            && (s.c.state != PdExecute ==> q.executed == s.p.executed)
  {
    hide Sound, Crc;
    match s.c.state
    case Write => FlowStep(src, s.c, s.p, s.out) by { SizesBounded(src, s.c); }
    case _ =>
  }

  // ---- the client writes ----

  lemma FlowOn(src: Source, c: Client, d: Client, p: Peer, out: seq<Packet>)
    requires Flowing(src, c, p, out) && Streamed(src, c, d)
    ensures Flowing(src, d, p, out + New(c, d))
  {
    hide Crc, Partly;
    PayloadConcat(out, New(c, d));
    var b := src.Bytes(c.cur);
    assert b[..c.Cur().offset] + b[c.Cur().offset..d.Cur().offset] == b[..d.Cur().offset];
    assert p.received + (Payload(out) + Payload(New(c, d))) == (p.received + Payload(out)) + Payload(New(c, d));
  }

  /** The system after the client ran its sending loop. */
  lemma WritePhase(src: Source, s: Sys)
    requires Sound(src, s.c) && Writing(src, s.c) && s.back == [] && Flowing(src, s.c, s.p, s.out)
    ensures var e := StWrite(src, s.c);
            && s.c.sent <= e.sent && e.cur == s.c.cur && Ends(e.events) == Ends(s.c.events)
            && (e.state == Write || e.state == GetCrc || e.state == PdGetCrc)
            && Phase(src, s.(c := e, out := s.out + New(s.c, e)))
  {
    hide Loop, Flows, Partly, Streamed, Writing, Sound, Flowing, StWrite, StGetCrc;
    StateFree(src, s.c);
    var (d, ask) := Loop(src, s.c.(state := Write));
    WriteSends(src, s.c);
    FlowOn(src, s.c, d, s.p, s.out);
    StreamedFacts(src, s.c, d);
    if ask {
      AskPhase(src, s, d);
    } else {
      WritingOn(src, s, d);
    }
  }

  lemma StateFree(src: Source, c: Client)
    requires Writing(src, c)
    ensures Writing(src, c.(state := Write)) && Goes(src, c.(state := Write))
  {
  }

  lemma WriteSends(src: Source, c: Client)
    requires Writing(src, c) && Writing(src, c.(state := Write))
    ensures var (d, ask) := Loop(src, c.(state := Write));
            && Streamed(src, c, d) && d.state == Write
            && StWrite(src, c) == if ask then StGetCrc(d) else d
  {
    hide Loop;
    LoopKeeps(src, c.(state := Write));
  }

  lemma WritingOn(src: Source, s: Sys, d: Client)
    requires d.state == Write && s.back == [] && s.c.sent <= d.sent && Flowing(src, d, s.p, s.out + New(s.c, d))
    ensures Phase(src, s.(c := d, out := s.out + New(s.c, d)))
  {
    hide Flowing;
  }

  lemma StreamedFacts(src: Source, c: Client, d: Client)
    requires Streamed(src, c, d)
    ensures c.sent <= d.sent && d.cur == c.cur && Ends(d.events) == Ends(c.events)
  {
  }

  lemma AskPhase(src: Source, s: Sys, d: Client)
    requires s.c.sent <= d.sent && d.cur == s.c.cur && s.back == []
    requires Flowing(src, d, s.p, s.out + New(s.c, d))
    ensures var e := StGetCrc(d);
            && s.c.sent <= e.sent && e.cur == s.c.cur && Ends(e.events) == Ends(d.events)
            && (e.state == GetCrc || e.state == PdGetCrc)
            && Phase(src, s.(c := e, out := s.out + New(s.c, e)))
  {
    hide Flows;
    var e := StGetCrc(d);
    if d.credits > 0 {
      var o := s.out + New(s.c, e);
      assert New(s.c, e) == New(s.c, d) + [Ctrl([CAL_CHECKSUM])];
      assert o[..|o| - 1] == s.out + New(s.c, d);
    }
  }

  // ---- a response reaches the client ----

  /** Exactly one response is under way; it is long enough and does not resume. */
  lemma Answered(src: Source, s: Sys)
    requires Inv(src, s) && s.back != []
    ensures s.out == [] && |s.back| == 1
    ensures WellSized(s.c, s.back[0]) && !Resumes(src, s.c, s.back[0]) && Deals(src, s.c, s.back[0])
  {
    hide Sound, Crc;
    if s.c.state == PdSel {
      SelectReplyFields(s.p);
    }
    SoundDeals(src, s.c, s.back[0]);
  }

  lemma SelectReplyFields(p: Peer)
    requires p.offset < WORD
    ensures var d := SelectReply(p);
            && |d| == 15 && d[0] == RESPONSE && d[1] == SELECT && d[2] == DFU_SUCCESS
            && Decode32(d[3..7]) == MAX_SIZE && Decode32(d[7..11]) == p.offset && Decode32(d[11..15]) == p.crc as int
  {
    hide LittleEndian32, Decode32;
    var d := SelectReply(p);
    Decode32Inverts(MAX_SIZE);
    Decode32Inverts(p.offset);
    Decode32Inverts(p.crc as int);
    assert d[3..7] == LittleEndian32(MAX_SIZE);
    assert d[7..11] == LittleEndian32(p.offset);
    assert d[11..15] == LittleEndian32(p.crc as int);
  }

  lemma CrcReplyFields(p: Peer)
    requires p.offset < WORD
    ensures var d := CrcReply(p);
            && |d| == 11 && d[0] == RESPONSE && d[1] == CAL_CHECKSUM && d[2] == DFU_SUCCESS
            && Decode32(d[3..7]) == p.offset && Decode32(d[7..11]) == p.crc as int
  {
    var d := CrcReply(p);
    Decode32Inverts(p.offset);
    Decode32Inverts(p.crc as int);
    assert d[3..7] == LittleEndian32(p.offset);
    assert d[7..11] == LittleEndian32(p.crc as int);
    hide LittleEndian32, Decode32;
  }

  function DeliverToClient(src: Source, s: Sys): Sys
    requires Inv(src, s) && s.back != []
  {
    Answered(src, s);
    RecvSound(src, s.c, s.back[0]);
    var e := Recv(src, s.c, s.back[0]);
    s.(c := e, out := s.out + New(s.c, e), back := s.back[1..])
  }

  /** The peer's answer always agrees with the client's own offset and CRC. */
  lemma CrcAgrees(src: Source, s: Sys)
    requires Inv(src, s) && s.back != [] && s.c.state == PdGetCrc
    ensures s.back == [CrcReply(s.p)]
    ensures CheckCrc(s.c, s.p.offset, s.p.crc as int) == 1
    ensures s.p.received == src.Bytes(s.c.cur)[..s.c.Cur().offset]
  {
    hide Flows, Partly, CrcReply, Fresh, Match, LittleEndian32;
    assert Checking(src, s) && Transferring(src, s.c);
    Arrived(src.Bytes(s.c.cur), s.c.Cur(), s.p, s.c.fifo, s.c.sum, s.c.sendLen);
  }

  lemma Arrived(b: seq<byte>, o: Object, p: Peer, fifo: seq<byte>, sum: nat, sendLen: nat)
    requires Flows(b, o.offset, p, []) && Partly(b, o, fifo, sum, sendLen)
    ensures p.offset == o.offset <= |b| && p.crc == o.crc && p.received == b[..o.offset]
  {
    hide Crc;
    assert p.received + [] == p.received;
  }

  /** The result of one client call, with the packets it sent put on their way. */
  function Moved(s: Sys, e: Client, back: seq<seq<byte>>): Sys
    requires |s.c.sent| <= |e.sent|
  {
    s.(c := e, out := s.out + New(s.c, e), back := back)
  }

  lemma SelectPhase(src: Source, s: Sys)
    requires s.out == [] && s.back == [] && Fresh(src, s.c.cur, s.p.offset, s.p.crc as int)
    requires Midway(src, s)
    ensures var e := StSelect(s.c); s.c.sent <= e.sent && Phase(src, Moved(s, e, [])) && Records(src, Moved(s, e, []))
  {
    hide Fresh, SelectReply;
  }

  lemma SetPrnPhase(src: Source, s: Sys)
    requires s.out == [] && s.back == []
    requires Midway(src, s)
    ensures var e := StSetPrn(s.c); s.c.sent <= e.sent && Phase(src, Moved(s, e, [])) && Records(src, Moved(s, e, []))
  {
  }

  lemma CreatePhase(src: Source, s: Sys)
    requires s.out == [] && s.back == []
    requires Midway(src, s)
    ensures var e := StCreate(src, s.c);
            s.c.sent <= e.sent && Phase(src, Moved(s, e, [])) && Records(src, Moved(s, e, []))
  {
    hide LittleEndian32;
  }

  lemma ExecutePhase(src: Source, s: Sys)
    requires s.out == [] && s.back == []
    requires Midway(src, s)
    requires Flowing(src, s.c, s.p, []) && s.c.Cur().offset == |src.Bytes(s.c.cur)|
    ensures var e := StExecute(s.c); s.c.sent <= e.sent && Phase(src, Moved(s, e, [])) && Records(src, Moved(s, e, []))
  {
    var b := src.Bytes(s.c.cur);
    assert InSync(s.p) && s.p.received == b by {
      assert b[..|b|] == b;
      assert s.p.received + [] == s.p.received;
    }
    hide InSync, Flows;
  }

  lemma GetCrcPhase(src: Source, s: Sys)
    requires s.back == [] && Flowing(src, s.c, s.p, s.out)
    requires Midway(src, s)
    ensures var e := StGetCrc(s.c); s.c.sent <= e.sent && Phase(src, Moved(s, e, [])) && Records(src, Moved(s, e, []))
  {
    hide Phase;
    assert s.out + New(s.c, s.c) == s.out;
    AskPhase(src, s, s.c);
  }

  /** After a successful EXECUTE of the command object: on to the image. */
  lemma OnToImage(src: Source, s: Sys)
    requires Executing(src, s) && s.out == [] && Outset(src, s) && Ends(s.c.events) == s.reported
    requires s.c.cur.Command?
    ensures var c := s.c.(cur := Image);
            var e := StSelect(c); c.sent <= e.sent && Phase(src, Moved(s, e, [])) && Records(src, Moved(s, e, []))
  {
    CommandDone(src, s);
    var r := s.(c := s.c.(cur := Image), out := [], back := []);
    SelectPhase(src, r);
    hide Executing, Fresh, Outset;
  }

  lemma CommandDone(src: Source, s: Sys)
    requires Executing(src, s) && s.out == [] && Outset(src, s) && s.c.cur.Command?
    ensures Fresh(src, Image, s.p.offset, s.p.crc as int) && s.p.executed == s.installed + [s.first]
  {
    hide Fresh, Crc;
    assert s.installed + ([] + [s.first]) == s.installed + [] + [s.first];
  }

  /** After a successful EXECUTE of the image: done. */
  lemma ImageDone(src: Source, s: Sys)
    requires Executing(src, s) && s.out == [] && Ends(s.c.events) == s.reported && s.c.cur.Image?
    ensures var e := s.c.Finish(DFU_SUCCESS);
            s.c.sent <= e.sent && Phase(src, Moved(s, e, [])) && Records(src, Moved(s, e, []))
  {
    hide InSync;
    EndsSnoc(s.c.events, End(DFU_SUCCESS));
    assert s.out + New(s.c, s.c.Finish(DFU_SUCCESS)) == [];
    assert s.installed + [s.first] + [src.image] == s.installed + [s.first, src.image];
  }

  // ---- every step keeps the invariant ----

  lemma RecvCrc(src: Source, c: Client, p: Peer)
    requires Sound(src, c) && c.state == PdGetCrc && p.offset < WORD
    requires CheckCrc(c, p.offset, p.crc as int) == 1
    ensures var d := CrcReply(p);
            && Deals(src, c, d)
            && (if c.Cur().offset == c.Cur().size then Recv(src, c, d) == StExecute(c)
                else Writing(src, c) && Recv(src, c, d) == StWrite(src, c))
  {
    CrcReplyFields(p);
    if c.Cur().offset != c.Cur().size {
      WritingFromOffset(src, c);
    }
    hide Partly, Queued, CrcReply, Decode32, StWrite, StExecute, Match;
  }

  lemma RecvSelect(src: Source, c: Client, p: Peer)
    requires Sound(src, c) && c.state == PdSel && p.offset < WORD && Fresh(src, c.cur, p.offset, p.crc as int)
    ensures var d := SelectReply(p);
            && Deals(src, c, d)
            && exists i :: Recv(src, c, d) == StSetPrn(c.(calls := i))
  {
    hide SelectReply, Decode32, StSetPrn;
    SelectReplyFields(p);
    var d := SelectReply(p);
    assert !Match(src, c.cur, MAX_SIZE, p.offset, p.crc as int, c.calls);
    var i := CallsAfter(src, c.cur, MAX_SIZE, p.offset, c.calls);
    assert Recv(src, c, d) == StSetPrn(c.(calls := i));
  }

  lemma RecvDone(src: Source, c: Client, op: byte)
    requires Sound(src, c) && (op == CREATE || op == SET_PRN || op == EXECUTE)
    ensures var d := [RESPONSE, op, DFU_SUCCESS];
            && Deals(src, c, d)
            && (op == CREATE && c.state == PdCreate ==> Recv(src, c, d) == StWrite(src, c))
            && (op == SET_PRN && c.state == PdSetPrn ==> Recv(src, c, d) == StCreate(src, c))
            && (op == EXECUTE && c.state == PdExecute ==>
                  Recv(src, c, d) == if c.cur.Command? then StSelect(c.(cur := Image)) else c.Finish(DFU_SUCCESS))
  {
    hide Partly, Queued, StWrite, StCreate, StSelect, Match;
  }

  /** The response under way, state by state. */
  lemma UnderWay(src: Source, s: Sys)
    requires Inv(src, s) && s.back != []
    ensures s.out == [] && |s.back| == 1
    ensures match s.c.state
            case PdSel => s.back[0] == SelectReply(s.p) && Fresh(src, s.c.cur, s.p.offset, s.p.crc as int)
            case PdSetPrn => s.back[0] == [RESPONSE, SET_PRN, DFU_SUCCESS]
            case PdCreate => s.back[0] == [RESPONSE, CREATE, DFU_SUCCESS]
            case PdGetCrc => s.back[0] == CrcReply(s.p) && Flowing(src, s.c, s.p, [])
            case PdExecute => s.back[0] == [RESPONSE, EXECUTE, DFU_SUCCESS]
            case _ => false
  {
    hide Sound, Flows, SelectReply, CrcReply, Fresh;
  }

  ghost predicate Next(src: Source, s: Sys, e: Client) {
    s.c.sent <= e.sent && Phase(src, Moved(s, e, [])) && Records(src, Moved(s, e, []))
  }

  lemma ClientSelected(src: Source, s: Sys)
    requires Inv(src, s) && s.back != [] && s.c.state == PdSel
    ensures Deals(src, s.c, s.back[0]) && Next(src, s, Recv(src, s.c, s.back[0]))
  {
    hide Partly, Queued, Flows, Fresh, SelectReply, Recv, StSetPrn, Match;
    UnderWay(src, s);
    RecvSelect(src, s.c, s.p);
    var i :| Recv(src, s.c, s.back[0]) == StSetPrn(s.c.(calls := i));
    SetPrnPhase(src, s.(c := s.c.(calls := i), out := [], back := []));
  }

  lemma ClientAskedPrn(src: Source, s: Sys)
    requires Inv(src, s) && s.back != [] && s.c.state == PdSetPrn
    ensures Deals(src, s.c, s.back[0]) && Next(src, s, Recv(src, s.c, s.back[0]))
  {
    hide Partly, Queued, Flows, Fresh, Recv, StCreate, Match;
    UnderWay(src, s);
    RecvDone(src, s.c, SET_PRN);
    CreatePhase(src, s.(out := [], back := []));
  }

  lemma ClientCreated(src: Source, s: Sys)
    requires Inv(src, s) && s.back != [] && s.c.state == PdCreate
    ensures Deals(src, s.c, s.back[0]) && Next(src, s, Recv(src, s.c, s.back[0]))
  {
    hide Partly, Queued, Fresh, Recv, StWrite, Match, Crc;
    UnderWay(src, s);
    RecvDone(src, s.c, CREATE);
    CrcNothing();
    assert src.Bytes(s.c.cur)[..0] == [];
    WrittenNext(src, s);
  }

  lemma WrittenNext(src: Source, s: Sys)
    requires Sound(src, s.c) && Writing(src, s.c) && s.out == [] && Flowing(src, s.c, s.p, [])
    requires Midway(src, s)
    ensures Next(src, s, StWrite(src, s.c))
  {
    hide Partly, Queued, Flows, StWrite, Phase;
    WritePhase(src, s.(back := []));
  }

  lemma ClientChecked(src: Source, s: Sys)
    requires Inv(src, s) && s.back != [] && s.c.state == PdGetCrc
    ensures Deals(src, s.c, s.back[0]) && Next(src, s, Recv(src, s.c, s.back[0]))
  {
    hide Partly, Queued, Flows, Fresh, Recv, StWrite, StExecute, Match, CheckCrc, CrcReply;
    UnderWay(src, s);
    CrcAgrees(src, s);
    RecvCrc(src, s.c, s.p);
    if s.c.Cur().offset == s.c.Cur().size {
      SizeIsLength(src, s.c);
      ExecutePhase(src, s.(out := [], back := []));
    } else {
      WrittenNext(src, s);
    }
  }

  lemma SizeIsLength(src: Source, c: Client)
    requires Transferring(src, c)
    ensures c.Cur().size == |src.Bytes(c.cur)|
  {
  }

  lemma ClientExecuted(src: Source, s: Sys)
    requires Inv(src, s) && s.back != [] && s.c.state == PdExecute
    ensures Deals(src, s.c, s.back[0]) && Next(src, s, Recv(src, s.c, s.back[0]))
  {
    hide Partly, Queued, Flows, Fresh, Recv, StSelect, Match;
    UnderWay(src, s);
    RecvDone(src, s.c, EXECUTE);
    if s.c.cur.Command? {
      OnToImage(src, s);
    } else {
      ImageDone(src, s);
    }
  }

  lemma ToClientKeeps(src: Source, s: Sys)
    requires Inv(src, s) && s.back != []
    ensures Inv(src, DeliverToClient(src, s))
  {
    hide Sound, Phase, Records, Recv, Match, WellSized, FreshImage, Steady, Deals;
    UnderWay(src, s);
    Answered(src, s);
    RecvSound(src, s.c, s.back[0]);
    RecvSteady(src, s.c, s.back[0]);
    assert s.back[1..] == [];
    match s.c.state
    case PdSel => ClientSelected(src, s);
    case PdSetPrn => ClientAskedPrn(src, s);
    case PdCreate => ClientCreated(src, s);
    case PdGetCrc => ClientChecked(src, s);
    case PdExecute => ClientExecuted(src, s);
  }

  function GrantCredits(src: Source, s: Sys, n: nat): Sys
    requires Inv(src, s) && n < 128
  {
    CanSendSound(src, s.c, n);
    var e := CanSend(src, s.c, n);
    Moved(s, e, s.back)
  }

  lemma GrantKeeps(src: Source, s: Sys, n: nat)
    requires Inv(src, s) && n < 128
    ensures Inv(src, GrantCredits(src, s, n))
  {
    CanSendSound(src, s.c, n);
    CanSendSteady(src, s.c, n);
    GrantNext(src, s, n);
    hide Sound, Phase, Records, FreshImage, CanSend;
  }

  lemma GrantNext(src: Source, s: Sys, n: nat)
    requires Inv(src, s) && n < 128 && !Jams(s.c, n)
    ensures var e := CanSend(src, s.c, n);
            s.c.sent <= e.sent && Phase(src, Moved(s, e, s.back)) && Records(src, Moved(s, e, s.back))
  {
    match s.c.state
    case Write => GrantNextWrite(src, s, n);
    case Sel | SetPrn | Create => GrantNextEmpty(src, s, n);
    case GetCrc | Execute => GrantNextSent(src, s, n);
    case _ => GrantNextIdle(src, s, n);
    hide Inv, CanSend, Phase, Records, Jams;
  }

  lemma GrantNextWrite(src: Source, s: Sys, n: nat)
    requires Inv(src, s) && n < 128 && !Jams(s.c, n) && s.c.state == Write
    ensures var e := CanSend(src, s.c, n);
            s.c.sent <= e.sent && Phase(src, Moved(s, e, s.back)) && Records(src, Moved(s, e, s.back))
  {
    hide Partly, Queued, Flows, Fresh, StWrite, Jams, Steady;
    WriteGranted(src, s.c, n);
    WritePhase(src, s.(c := s.c.(credits := n)));
  }

  lemma GrantNextEmpty(src: Source, s: Sys, n: nat)
    requires Inv(src, s) && n < 128 && !Jams(s.c, n) && (s.c.state == Sel || s.c.state == SetPrn || s.c.state == Create)
    ensures var e := CanSend(src, s.c, n);
            s.c.sent <= e.sent && Phase(src, Moved(s, e, s.back)) && Records(src, Moved(s, e, s.back))
  {
    hide Partly, Queued, Flows, Fresh, StCreate, StSelect, StSetPrn, Jams, Steady;
    var q := s.(c := s.c.(credits := n));
    match s.c.state
    case Sel => SelectPhase(src, q);
    case SetPrn => SetPrnPhase(src, q);
    case Create => CreatePhase(src, q);
  }

  lemma GrantNextSent(src: Source, s: Sys, n: nat)
    requires Inv(src, s) && n < 128 && !Jams(s.c, n) && (s.c.state == GetCrc || s.c.state == Execute)
    ensures var e := CanSend(src, s.c, n);
            s.c.sent <= e.sent && Phase(src, Moved(s, e, s.back)) && Records(src, Moved(s, e, s.back))
  {
    hide Partly, Queued, Flows, Fresh, StExecute, StGetCrc, Jams, Steady;
    var q := s.(c := s.c.(credits := n));
    if s.c.state == GetCrc {
      GetCrcPhase(src, q);
    } else {
      SizeIsLength(src, s.c);
      ExecutePhase(src, q);
    }
  }

  lemma GrantNextIdle(src: Source, s: Sys, n: nat)
    requires Inv(src, s) && n < 128 && !Jams(s.c, n)
    requires match s.c.state case Write | Sel | SetPrn | Create | GetCrc | Execute => false case _ => true
    ensures var e := CanSend(src, s.c, n);
            s.c.sent <= e.sent && Phase(src, Moved(s, e, s.back)) && Records(src, Moved(s, e, s.back))
  {
    hide Partly, Queued, Flows, Fresh, Jams, Steady, SelectReply, CrcReply;
    assert s.out + New(s.c, s.c.(credits := n)) == s.out;
  }

  lemma WriteGranted(src: Source, c: Client, n: nat)
    requires Sound(src, c) && c.state == Write && n < 128
    ensures var d := c.(credits := n); Sound(src, d) && Goes(src, d) && CanSend(src, c, n) == StWrite(src, d)
  {
    WritingGoes(src, c);
    hide Partly, Queued, StWrite;
  }
}
