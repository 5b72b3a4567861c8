/** The device update client as functions on an abstract state: what each call does to the
    protocol state, the queued bytes, the packets sent and the events reported. */
module DfuModel {
  import opened Bytes
  import opened Crc32

  const BUF_SIZE: nat := 512
  const DFU_FIFO_SIZE: nat := 1024
  const MAX_DFU_SEND_SIZE: nat := 247
  const WORD: nat := 0x1_0000_0000

  const CREATE: byte := 1
  const SET_PRN: byte := 2
  const CAL_CHECKSUM: byte := 3
  const EXECUTE: byte := 4
  const SELECT: byte := 6
  const RESPONSE: byte := 0x60

  const DFU_SUCCESS: byte := 1
  const DFU_CRC_NOT_MATCH: byte := 0x81

  datatype State = Idle | Sel | PdSel | SetPrn | PdSetPrn | Create | PdCreate | Write | GetCrc | PdGetCrc
    | Execute | PdExecute

  datatype Kind = Command | Image {
    function Code(): byte {
      if Command? then 1 else 2
    }
  }

  datatype Packet = Ctrl(bytes: seq<byte>) | Data(bytes: seq<byte>)

  datatype Event = Progress(offset: nat, size: nat) | End(status: byte)

  /** Transfer state of one of the two objects. */
  datatype Object = Object(size: nat, offset: nat, crc: bv32)

  /** The two objects to transfer, and how many bytes the data callback is prepared to give
      on its i-th call; it never gives more than it is asked for. */
  datatype Source = Source(command: seq<byte>, image: seq<byte>, chunk: nat -> nat) {
    function Bytes(k: Kind): seq<byte> {
      if k.Command? then command else image
    }

    ghost predicate Good() {
      0 < |command| < WORD && 0 < |image| < WORD
    }

    /** The data callback never comes back empty-handed. */
    ghost predicate Feeding() {
      forall i :: chunk(i) > 0
    }
  }

  datatype Client = Client(
    state: State, cur: Kind, prn: nat, prnCnt: nat, credits: nat, sendLen: nat,
    cmd: Object, img: Object, fifo: seq<byte>, sum: nat, calls: nat,
    sent: seq<Packet>, events: seq<Event>) {

    function Cur(): Object {
      if cur.Command? then cmd else img
    }

    function WithCur(o: Object): Client {
      if cur.Command? then this.(cmd := o) else this.(img := o)
    }

    /** Sends a control packet and waits in state st. */
    function Request(b: seq<byte>, st: State): Client
      requires credits > 0
    {
      this.(sent := sent + [Ctrl(b)], state := st, credits := credits - 1)
    }

    function Finish(status: byte): Client {
      this.(state := Idle, events := events + [End(status)])
    }
  }

  function Min(a: nat, b: nat): nat {
    if a < b then a else b
  }

  // ---- the states ----

  function StSelect(c: Client): Client {
    var d := c.(state := Sel, prnCnt := 0, fifo := [], sum := 0);
    if d.credits == 0 then d else d.Request([SELECT, d.cur.Code()], PdSel)
  }

  function StSetPrn(c: Client): Client {
    var d := c.(state := SetPrn);
    if d.credits == 0 then d else d.Request([SET_PRN, ToByte(d.prn % 256)], PdSetPrn)
  }

  function StCreate(src: Source, c: Client): Client {
    var d := c.(state := Create);
    if d.credits == 0 then d
    else
      var n := |src.Bytes(c.cur)|;
      d.WithCur(Object(n, 0, 0)).Request([CREATE, d.cur.Code()] + LittleEndian32(n), PdCreate)
  }

  function StGetCrc(c: Client): Client {
    var d := c.(state := GetCrc);
    if d.credits == 0 then d else d.Request([CAL_CHECKSUM], PdGetCrc)
  }

  function StExecute(c: Client): Client {
    var d := c.(state := Execute);
    if d.credits == 0 then d else d.Request([EXECUTE], PdExecute)
  }

  // ---- writing ----

  /** Bytes the data callback still has to provide, in 32-bit arithmetic. */
  function Remaining(c: Client): nat {
    (c.Cur().size - c.sum) % WORD
  }

  /** How many bytes a data callback with room for max hands over on call number i. */
  function Given(src: Source, i: nat, max: nat): nat {
    Min(src.chunk(i), max)
  }

  /** Whether the loop body asks for data. */
  predicate Wants(c: Client) {
    Remaining(c) != 0 && |c.fifo| < c.sendLen
  }

  /** The data the loop body would get is there to be given. */
  ghost predicate Fillable(src: Source, c: Client) {
    Wants(c) ==> c.sum + Remaining(c) <= |src.Bytes(c.cur)|
  }

  function GivenNow(src: Source, c: Client): nat {
    Given(src, c.calls, Min(Remaining(c), BUF_SIZE))
  }

  /** The loop body's first half: one call of the data callback into the queue. */
  function Fill(src: Source, c: Client): Client
    requires Fillable(src, c)
  {
    if Wants(c) then
      var n := GivenNow(src, c);
      c.(fifo := c.fifo + src.Bytes(c.cur)[c.sum..c.sum + n], sum := c.sum + n, calls := c.calls + 1)
    else c
  }

  /** The packet the loop body would send next. */
  function NextLength(c: Client): nat {
    Min(|c.fifo|, c.sendLen)
  }

  predicate SendsNow(c: Client) {
    (Remaining(c) == 0 && NextLength(c) > 0) || NextLength(c) == c.sendLen
  }

  /** The loop body's second half: one data packet. */
  function SendData(c: Client): Client
    requires c.credits > 0
  {
    var n, o := NextLength(c), c.Cur();
    var b := c.fifo[..n];
    var o' := Object(o.size, (o.offset + n) % WORD, Crc(o.crc, b));
    c.WithCur(o').(fifo := c.fifo[n..], sent := c.sent + [Data(b)], events := c.events + [Progress(o'.offset, o'.size)],
                   credits := c.credits - 1, prnCnt := (c.prnCnt + 1) % 256)
  }

  /** Everything is sent, or the peer wants to be asked again. */
  predicate AsksCrc(c: Client) {
    (Remaining(c) == 0 && c.fifo == []) || c.prnCnt == c.prn
  }

  /** How one turn of the sending loop ends: nothing was given, go on, or ask for the CRC. */
  datatype Iteration = Starved(c: Client) | Again(c: Client) | Ask(c: Client)

  /** One turn of the sending loop. */
  function Turn(src: Source, c: Client): Iteration
    requires c.credits > 0 && Fillable(src, c)
  {
    var d := Fill(src, c);
    if Wants(c) && GivenNow(src, c) == 0 then Starved(d)
    else if SendsNow(d) then
      var e := SendData(d);
      if AsksCrc(e) then Ask(e.(prnCnt := 0)) else Again(e)
    else Again(d)
  }

  /** The queue holds the bytes of the first o.size of b that were fetched last, up to sum;
      nothing is said about the offset and the CRC. */
  ghost predicate Queued(b: seq<byte>, size: nat, fifo: seq<byte>, sum: nat, sendLen: nat) {
    && size <= |b| < WORD && |fifo| <= sum <= size
    && fifo == b[sum - |fifo|..sum]
    && 20 <= sendLen <= MAX_DFU_SEND_SIZE
    && |fifo| < sendLen + BUF_SIZE
  }

  ghost predicate Supplied(src: Source, c: Client) {
    Queued(src.Bytes(c.cur), c.Cur().size, c.fifo, c.sum, c.sendLen)
  }

  /** Nothing is queued and nothing is left to fetch. */
  predicate Stuck(c: Client) {
    c.fifo == [] && c.sum == c.Cur().size
  }

  /** The sending loop has something to do, or no credits to do anything with. */
  ghost predicate Goes(src: Source, c: Client) {
    Supplied(src, c) && (Stuck(c) ==> c.credits == 0)
  }

  /** An object with bytes b is partly sent: o.offset bytes are out under o.crc, and the
      queue holds the bytes from there up to sum. */
  ghost predicate Partly(b: seq<byte>, o: Object, fifo: seq<byte>, sum: nat, sendLen: nat) {
    && Queued(b, o.size, fifo, sum, sendLen)
    && o.size == |b| && o.offset + |fifo| == sum
    && o.crc == Crc(0, b[..o.offset])
  }

  ghost predicate Transferring(src: Source, c: Client) {
    Partly(src.Bytes(c.cur), c.Cur(), c.fifo, c.sum, c.sendLen)
  }

  ghost predicate Writing(src: Source, c: Client) {
    Transferring(src, c) && c.Cur().offset < c.Cur().size
  }

  lemma WritingGoes(src: Source, c: Client)
    requires Writing(src, c)
    ensures Supplied(src, c) && !Stuck(c)
  {
  }

  /** Bytes still to fetch, twice, plus bytes queued: every byte is fetched, then sent. */
  function Work(c: Client): int {
    2 * (c.Cur().size - c.sum) + |c.fifo|
  }

  lemma WorkNatural(src: Source, c: Client)
    requires Supplied(src, c)
    ensures Work(c) >= 0
  {
  }

  /** What the data callback may give always fits behind what is queued. */
  lemma FetchFits(src: Source, c: Client)
    requires Supplied(src, c) && Wants(c)
    ensures |c.fifo| + BUF_SIZE <= DFU_FIFO_SIZE - 1
    ensures c.sum + Min(Remaining(c), BUF_SIZE) <= |src.Bytes(c.cur)|
  {
    RemainingIs(src, c);
  }

  lemma RemainingIs(src: Source, c: Client)
    requires Supplied(src, c)
    ensures c.sum <= c.Cur().size && Remaining(c) == c.Cur().size - c.sum && Fillable(src, c)
  {
  }

  /** Fetching moves bytes of the object into the queue. */
  lemma FillKeepsSupply(src: Source, c: Client)
    requires Supplied(src, c)
    ensures Fillable(src, c)
    ensures var d := Fill(src, c);
            && Supplied(src, d) && d == c.(fifo := d.fifo, sum := d.sum, calls := d.calls)
            && d.sum == c.sum + (if Wants(c) then GivenNow(src, c) else 0)
            && Remaining(d) == Remaining(c) - (if Wants(c) then GivenNow(src, c) else 0)
            && d.sum - |d.fifo| == c.sum - |c.fifo|
  {
    RemainingIs(src, c);
    if Wants(c) {
      var n := GivenNow(src, c);
      var b, i := src.Bytes(c.cur), c.sum - |c.fifo|;
      assert b[i..c.sum] + b[c.sum..c.sum + n] == b[i..c.sum + n];
      RemainingIs(src, Fill(src, c));
    }
  }

  /** Fetching keeps the transfer state, and is progress unless nothing was given. */
  lemma FillKeeps(src: Source, c: Client)
    requires Transferring(src, c)
    ensures Fillable(src, c)
    ensures var d := Fill(src, c);
            && Transferring(src, d) && d.Cur() == c.Cur() && d.cur == c.cur && d.credits == c.credits
              && d.sent == c.sent
            && d.sum == c.sum + (if Wants(c) then GivenNow(src, c) else 0)
            && Remaining(d) == Remaining(c) - (if Wants(c) then GivenNow(src, c) else 0)
  {
    FillKeepsSupply(src, c);
    hide Queued, Fill, Crc;
  }

  lemma QueuedSent(b: seq<byte>, size: nat, fifo: seq<byte>, sum: nat, sendLen: nat, n: nat)
    requires Queued(b, size, fifo, sum, sendLen) && n <= |fifo|
    ensures fifo[..n] == b[sum - |fifo|..sum - |fifo| + n]
    ensures Queued(b, size, fifo[n..], sum, sendLen)
  {
  }

  lemma PartlySent(b: seq<byte>, o: Object, fifo: seq<byte>, sum: nat, sendLen: nat, n: nat)
    requires Partly(b, o, fifo, sum, sendLen) && n <= |fifo|
    ensures o.offset + n <= |b| < WORD && fifo[..n] == b[o.offset..o.offset + n]
    ensures Partly(b, Object(o.size, o.offset + n, Crc(o.crc, fifo[..n])), fifo[n..], sum, sendLen)
  {
    hide Crc;
    var i := o.offset;
    QueuedSent(b, o.size, fifo, sum, sendLen, n);
    assert b[..i] + b[i..i + n] == b[..i + n];
    CrcConcat(0, b[..i], b[i..i + n]);
  }

  /** Sending a packet takes bytes off the queue. */
  lemma SendKeepsSupply(src: Source, c: Client)
    requires Supplied(src, c) && c.credits > 0
    ensures var d, n := SendData(c), NextLength(c);
            && Supplied(src, d) && d.Cur().size == c.Cur().size && d.sum == c.sum && d.fifo == c.fifo[n..]
            && d.sent == c.sent + [Data(c.fifo[..n])]
            && c.fifo[..n] == src.Bytes(c.cur)[c.sum - |c.fifo|..c.sum - |c.fifo| + n]
  {
    QueuedSent(src.Bytes(c.cur), c.Cur().size, c.fifo, c.sum, c.sendLen, NextLength(c));
    hide Queued, Crc;
  }

  /** Sending a packet moves bytes from the queue to the sent prefix, under one CRC. */
  lemma SendKeeps(src: Source, c: Client)
    requires Transferring(src, c) && c.credits > 0
    ensures var d := SendData(c);
            && Transferring(src, d) && d.cur == c.cur && d.sum == c.sum && d.credits == c.credits - 1
            && d.Cur().offset == c.Cur().offset + NextLength(c) && d.Cur().size == c.Cur().size
            && d.Cur().offset <= |src.Bytes(c.cur)|
            && d.sent == c.sent + [Data(src.Bytes(c.cur)[c.Cur().offset..d.Cur().offset])]
  {
    hide Partly, Queued, Crc;
    PartlySent(src.Bytes(c.cur), c.Cur(), c.fifo, c.sum, c.sendLen, NextLength(c));
  }

  // ---- the sending loop ----

  /** Packets sent and credits left add up. */
  ghost predicate Spends(c: Client, e: Client) {
    c.sent <= e.sent && |e.sent| - |c.sent| + e.credits == c.credits
  }

  /** A turn with something to do keeps the queue in order and does part of it. */
  lemma TurnWorks(src: Source, c: Client)
    requires Supplied(src, c) && !Stuck(c) && c.credits > 0
    ensures Fillable(src, c)
    ensures var t := Turn(src, c);
            && Supplied(src, t.c) && Spends(c, t.c) && t.c.state == c.state && t.c.cur == c.cur
            && t.c.Cur().size == c.Cur().size && t.c.sendLen == c.sendLen && t.c.prn == c.prn
            && (!t.Ask? ==> !Stuck(t.c))
            && (t.Again? ==> Work(t.c) < Work(c))
            && (t.Starved? ==> !src.Feeding())
  {
    FillKeepsSupply(src, c);
    RemainingIs(src, c);
    var d := Fill(src, c);
    RemainingIs(src, d);
    if SendsNow(d) && !(Wants(c) && GivenNow(src, c) == 0) {
      SendKeepsSupply(src, d);
      RemainingIs(src, SendData(d));
    }
    hide Queued, Fill, Crc;
  }

  /** The sending loop: the state it leaves, and whether it stops to ask for the CRC. */
  function Loop(src: Source, c: Client): (Client, bool)
    requires Goes(src, c)
    decreases Work(c)
  {
    if c.credits == 0 then (c, false)
    else
      TurnWorks(src, c);
      WorkNatural(src, c);
      match Turn(src, c)
      case Starved(d) => (d, false)
      case Ask(d) => (d, true)
      case Again(d) => Loop(src, d)
  }

  function StWrite(src: Source, c: Client): Client
    requires Goes(src, c)
  {
    var (d, ask) := Loop(src, c.(state := Write));
    if ask then StGetCrc(d) else d
  }

  /** Whatever the recorded offset is, the loop keeps the queue in order. */
  lemma {:induction false} LoopWorks(src: Source, c: Client)
    requires Goes(src, c)
    ensures var (d, ask) := Loop(src, c);
            Supplied(src, d) && Spends(c, d) && d.state == c.state && d.cur == c.cur && d.Cur().size == c.Cur().size
            && d.sendLen == c.sendLen && d.prn == c.prn
    decreases Work(c)
  {
    if c.credits > 0 {
      TurnWorks(src, c);
      WorkNatural(src, c);
      var t := Turn(src, c);
      if t.Again? {
        LoopWorks(src, t.c);
        hide Turn, Queued;
      }
    }
  }

  // ---- when the loop ends ----

  /** The loop is still going after j turns. */
  ghost predicate StillGoing(src: Source, c: Client, j: nat)
    requires Supplied(src, c)
    decreases j
  {
    j > 0 ==>
      && c.credits > 0
      && (AnyTurn(src, c); var t := Turn(src, c); t.Again? && StillGoing(src, t.c, j - 1))
  }

  lemma AnyTurn(src: Source, c: Client)
    requires Supplied(src, c)
    ensures Fillable(src, c)
    ensures c.credits > 0 ==> Supplied(src, Turn(src, c).c)
    ensures c.credits > 0 && Stuck(c) ==> Turn(src, c) == Again(c)
  {
    RemainingIs(src, c);
    if c.credits > 0 && !Stuck(c) {
      TurnWorks(src, c);
    }
  }

  /** The loop goes on for ever if and only if there are credits and nothing to do. */
  lemma NeverEndsIff(src: Source, c: Client)
    requires Supplied(src, c)
    ensures (forall j: nat :: StillGoing(src, c, j)) <==> c.credits > 0 && Stuck(c)
  {
    if c.credits > 0 && Stuck(c) {
      forall j: nat ensures StillGoing(src, c, j) {
        GoesOn(src, c, j);
      }
    } else {
      WorkNatural(src, c);
      Stops(src, c);
      assert !StillGoing(src, c, Work(c) + 1);
    }
  }

  lemma {:induction false} GoesOn(src: Source, c: Client, j: nat)
    requires Supplied(src, c) && c.credits > 0 && Stuck(c)
    ensures StillGoing(src, c, j)
    decreases j
  {
    if j > 0 {
      AnyTurn(src, c);
      GoesOn(src, c, j - 1);
    }
  }

  lemma {:induction false} Stops(src: Source, c: Client)
    requires Goes(src, c)
    ensures Work(c) >= 0 && !StillGoing(src, c, Work(c) + 1)
    decreases Work(c)
  {
    hide Turn, Queued, Work, StillGoing;
    WorkNatural(src, c);
    if c.credits > 0 {
      TurnWorks(src, c);
      var t := Turn(src, c);
      if t.Again? {
        Stops(src, t.c);
        StillLess(src, t.c, Work(t.c) + 1, Work(c));
      }
    }
    OneTurn(src, c, Work(c));
  }

  lemma OneTurn(src: Source, c: Client, j: nat)
    requires Supplied(src, c)
    ensures Fillable(src, c)
    ensures c.credits > 0 ==> Supplied(src, Turn(src, c).c)
    ensures StillGoing(src, c, j + 1)
       <==> c.credits > 0 && Turn(src, c).Again? && StillGoing(src, Turn(src, c).c, j)
  {
    hide Turn, Queued;
    AnyTurn(src, c);
  }

  lemma {:induction false} StillLess(src: Source, c: Client, i: nat, j: nat)
    requires Supplied(src, c) && i <= j
    ensures StillGoing(src, c, j) ==> StillGoing(src, c, i)
    decreases i
  {
    hide Turn, Queued;
    if i > 0 && c.credits > 0 {
      AnyTurn(src, c);
      StillLess(src, Turn(src, c).c, i - 1, j - 1);
    }
  }

  // ---- what a run of the loop adds ----

  predicate DataOnly(ps: seq<Packet>) {
    forall i | 0 <= i < |ps| :: ps[i].Data?
  }

  function Payload(ps: seq<Packet>): seq<byte> {
    if ps == [] then [] else Payload(ps[..|ps| - 1]) + ps[|ps| - 1].bytes
  }

  /** The statuses reported by END events. */
  function Ends(es: seq<Event>): seq<byte> {
    if es == [] then []
    else
      var rest, e := Ends(es[..|es| - 1]), es[|es| - 1];
      if e.End? then rest + [e.status] else rest
  }

  lemma EndsSnoc(es: seq<Event>, e: Event)
    ensures Ends(es + [e]) == Ends(es) + (if e.End? then [e.status] else [])
  {
    assert (es + [e])[..|es|] == es;
  }

  lemma PayloadSnoc(ps: seq<Packet>, p: Packet)
    ensures Payload(ps + [p]) == Payload(ps) + p.bytes
  {
    assert (ps + [p])[..|ps|] == ps;
  }

  lemma {:induction false} PayloadConcat(a: seq<Packet>, b: seq<Packet>)
    ensures Payload(a + b) == Payload(a) + Payload(b)
    decreases |b|
  {
    if b == [] {
      assert a + b == a;
    } else {
      var n := |b| - 1;
      PayloadConcat(a, b[..n]);
      var s := a + b;
      assert s[..|s| - 1] == a + b[..n] && s[|s| - 1] == b[n];
      assert Payload(a) + (Payload(b[..n]) + b[n].bytes) == Payload(a) + Payload(b[..n]) + b[n].bytes;
    }
  }

  /** From c to e only data packets of the object went out, in order, without a gap, and
      nothing was reported but progress. */
  ghost predicate Streamed(src: Source, c: Client, e: Client) {
    && e.cur == c.cur && e.prn == c.prn && e.sendLen == c.sendLen
    && (if c.cur.Command? then e.img == c.img else e.cmd == c.cmd)
    && c.Cur().offset <= e.Cur().offset <= |src.Bytes(c.cur)|
    && c.sent <= e.sent
    && var out := e.sent[|c.sent|..];
    && DataOnly(out) && Payload(out) == src.Bytes(c.cur)[c.Cur().offset..e.Cur().offset]
    && |out| + e.credits == c.credits && |out| <= e.Cur().offset - c.Cur().offset
    && Ends(e.events) == Ends(c.events)
  }

  lemma StreamedNothing(src: Source, c: Client, e: Client)
    requires Transferring(src, c)
    requires e.cur == c.cur && e.prn == c.prn && e.sendLen == c.sendLen && e.img == c.img && e.cmd == c.cmd
    requires e.sent == c.sent && e.credits == c.credits && e.events == c.events
    ensures Streamed(src, c, e)
  {
    assert e.sent[|c.sent|..] == [];
  }

  lemma StreamedPacket(src: Source, c: Client)
    requires Transferring(src, c) && c.credits > 0 && NextLength(c) > 0
    ensures Streamed(src, c, SendData(c))
  {
    SendKeeps(src, c);
    var d := SendData(c);
    var p := Data(src.Bytes(c.cur)[c.Cur().offset..d.Cur().offset]);
    assert d.sent[|c.sent|..] == [] + [p];
    PayloadSnoc([], p);
    EndsSnoc(c.events, Progress(d.Cur().offset, d.Cur().size));
    hide Transferring, Crc;
  }

  lemma StreamedTrans(src: Source, c: Client, d: Client, e: Client)
    requires Streamed(src, c, d) && Streamed(src, d, e)
    ensures Streamed(src, c, e)
  {
    var a, b := d.sent[|c.sent|..], e.sent[|d.sent|..];
    assert e.sent[|c.sent|..] == a + b;
    PayloadConcat(a, b);
    var s := src.Bytes(c.cur);
    assert s[c.Cur().offset..d.Cur().offset] + s[d.Cur().offset..e.Cur().offset] == s[c.Cur().offset..e.Cur().offset];
  }

  /** One turn keeps the transfer state; going on is progress. */
  lemma TurnKeeps(src: Source, c: Client)
    requires Writing(src, c) && c.credits > 0
    ensures Fillable(src, c)
    ensures var t := Turn(src, c);
            && Streamed(src, c, t.c) && t.c.state == c.state
            && (t.Ask? ==> Transferring(src, t.c) && t.c.Cur().offset > c.Cur().offset)
            && (!t.Ask? ==> Writing(src, t.c))
            && (t.Again? ==> Work(t.c) < Work(c))
            && (t.Again? ==> t.c.credits == c.credits || t.c.Cur().offset > c.Cur().offset)
            && (t.Starved? ==> !src.Feeding())
  {
    FillPart(src, c);
    var d := Fill(src, c);
    TurnSends(src, c, d);
    if SendsNow(d) && !(Wants(c) && GivenNow(src, c) == 0) {
      SendPart(src, d);
      StreamedTrans(src, c, d, SendData(d));
      if AsksCrc(SendData(d)) {
        StreamedTrans(src, c, d, SendData(d).(prnCnt := 0));
      }
    }
    hide Streamed, SendData, Transferring, Fill;
  }

  lemma FillPart(src: Source, c: Client)
    requires Writing(src, c)
    ensures Fillable(src, c)
    ensures var d := Fill(src, c);
            && Streamed(src, c, d) && Writing(src, d) && d.state == c.state && d.credits == c.credits
            && d.Cur() == c.Cur() && d.sum == c.sum + (if Wants(c) then GivenNow(src, c) else 0)
  {
    FillKeeps(src, c);
    StreamedNothing(src, c, Fill(src, c));
  }

  lemma SendPart(src: Source, d: Client)
    requires Transferring(src, d) && d.credits > 0 && NextLength(d) > 0
    ensures var e := SendData(d);
            && Streamed(src, d, e) && Transferring(src, e) && e.state == d.state
            && e.Cur().offset > d.Cur().offset && e.Cur().size == d.Cur().size && e.sum == d.sum
            && (AsksCrc(e) ==> Transferring(src, e.(prnCnt := 0)) && Streamed(src, d, e.(prnCnt := 0)))
            && (!AsksCrc(e) ==> Writing(src, e))
  {
    SendKeeps(src, d);
    StreamedPacket(src, d);
    var e := SendData(d);
    if !AsksCrc(e) {
      AskOrMore(src, e);
    }
  }

  /** A turn that is given data or needs none either fetches or sends. */
  lemma TurnSends(src: Source, c: Client, d: Client)
    requires Writing(src, c) && Fillable(src, c) && d == Fill(src, c) && Transferring(src, d)
    ensures SendsNow(d) ==> NextLength(d) > 0
    ensures Wants(c) && GivenNow(src, c) == 0 ==> !src.Feeding()
    ensures !Wants(c) ==> SendsNow(d)
  {
    RemainingIs(src, c);
  }

  lemma AskOrMore(src: Source, e: Client)
    requires Transferring(src, e) && !AsksCrc(e)
    ensures Writing(src, e)
  {
    RemainingIs(src, e);
  }

  /** What the whole loop does: a gapless run of data packets within the credits. It asks for
      the CRC only after sending something, and with credits and a data callback that feeds
      it, it sends something. */
  lemma {:induction false} LoopKeeps(src: Source, c: Client)
    requires Writing(src, c)
    ensures var (d, ask) := Loop(src, c);
            && Streamed(src, c, d) && d.state == c.state && Transferring(src, d)
            && (ask ==> d.Cur().offset > c.Cur().offset)
            && (!ask ==> Writing(src, d) && (src.Feeding() ==> d.credits == 0))
            && (src.Feeding() && c.credits > 0 ==> d.Cur().offset > c.Cur().offset)
    decreases Work(c)
  {
    if c.credits == 0 {
      StreamedNothing(src, c, c);
    } else {
      TurnKeeps(src, c);
      var t := Turn(src, c);
      if t.Again? {
        LoopKeeps(src, t.c);
        StreamedTrans(src, c, t.c, Loop(src, t.c).0);
        hide Streamed, Turn, Transferring;
      }
    }
  }
}
