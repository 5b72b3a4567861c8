/** A resumed transfer beside a fresh one. After a matching answer to SELECT the client sends
    the recorded size's worth of bytes again, from the object's start, but counts on from the
    recorded offset and CRC. Packet by packet it does what a client does that sends those bytes
    as a whole object. */
module DfuEcho {
  import opened Bytes
  import opened Crc32
  import opened DfuModel

  /** What a resumed transfer starts from: the record of the object, the settings of the
      update, and the peer's numbers; and, for stating results, what the peer has received
      and executed and the client has reported so far. */
  datatype Base = Base(kind: Kind, size: nat, offset: nat, crc: bv32, sendLen: nat, prn: nat,
                       peerOffset: nat, peerCrc: bv32, received: seq<byte>, executed: seq<seq<byte>>,
                       reported: seq<byte>)

  ghost predicate Based(src: Source, x: Base) {
    src.Good() && x.size <= |src.Bytes(x.kind)| && 20 <= x.sendLen <= MAX_DFU_SEND_SIZE && x.prn < 256
  }

  /** The bytes that are sent. */
  function Resent(src: Source, x: Base): (b: seq<byte>)
    requires Based(src, x)
    ensures |b| == x.size < WORD
  {
    src.Bytes(x.kind)[..x.size]
  }

  /** An update whose command object is just those bytes. */
  function Part(src: Source, x: Base): Source
    requires Based(src, x)
  {
    Source(Resent(src, x), [0], src.chunk)
  }

  /** o counts on from the base what w counts from 0. */
  ghost predicate Shifted(b: seq<byte>, x: Base, o: Object, w: Object) {
    && o.size == w.size == x.size && w.offset <= |b|
    && o.offset == (x.offset + w.offset) % WORD && o.crc == Crc(x.crc, b[..w.offset])
  }

  /** Client c of the resumed transfer is where client v of the fresh one is. */
  ghost predicate Mirrors(src: Source, x: Base, c: Client, v: Client)
    requires Based(src, x)
  {
    && c.cur == x.kind && v.cur == Command && c.state == v.state
    && c.sendLen == v.sendLen == x.sendLen && c.prn == v.prn == x.prn
    && c.prnCnt == v.prnCnt && c.credits == v.credits && c.fifo == v.fifo && c.sum == v.sum
    && c.calls == v.calls && c.sent == v.sent
    && Shifted(Resent(src, x), x, c.Cur(), v.cmd)
  }

  lemma SameSlice(b: seq<byte>, n: nat, i: nat, j: nat)
    requires i <= j <= n <= |b|
    ensures b[..n][i..j] == b[i..j]
  {
  }

  lemma MirrorsSupplied(src: Source, x: Base, c: Client, v: Client)
    requires Based(src, x) && Mirrors(src, x, c, v) && Supplied(Part(src, x), v)
    ensures Supplied(src, c) && (Stuck(c) <==> Stuck(v))
  {
    hide Shifted;
    assert c.Cur().size == v.cmd.size == x.size by { SizesSame(src, x, c, v); }
    SameSlice(src.Bytes(x.kind), x.size, v.sum - |v.fifo|, v.sum);
  }

  lemma SizesSame(src: Source, x: Base, c: Client, v: Client)
    requires Based(src, x) && Mirrors(src, x, c, v)
    ensures c.Cur().size == v.cmd.size == v.Cur().size == x.size
  {
  }

  // ---- one turn of the sending loop ----

  lemma FillMirrors(src: Source, x: Base, c: Client, v: Client)
    requires Based(src, x) && Mirrors(src, x, c, v) && Supplied(Part(src, x), v)
    ensures Fillable(src, c) && Fillable(Part(src, x), v)
    ensures Wants(c) == Wants(v) && GivenNow(src, c) == GivenNow(Part(src, x), v)
    ensures Mirrors(src, x, Fill(src, c), Fill(Part(src, x), v)) && Fill(src, c).events == c.events
  {
    MirrorsSupplied(src, x, c, v);
    SizesSame(src, x, c, v);
    RemainingIs(src, c);
    RemainingIs(Part(src, x), v);
    var n := GivenNow(src, c);
    if Wants(c) {
      SameSlice(src.Bytes(x.kind), x.size, c.sum, c.sum + n);
    }
    hide Shifted, Queued, Stuck;
  }

  lemma ShiftedSent(b: seq<byte>, x: Base, o: Object, w: Object, n: nat)
    requires Shifted(b, x, o, w) && w.offset + n <= |b| < WORD
    ensures (w.offset + n) % WORD == w.offset + n
    ensures Shifted(b, x, Object(o.size, (o.offset + n) % WORD, Crc(o.crc, b[w.offset..w.offset + n])),
                    Object(w.size, w.offset + n, Crc(w.crc, b[w.offset..w.offset + n])))
  {
    hide Crc;
    var i := w.offset;
    CrcConcat(x.crc, b[..i], b[i..i + n]);
    assert b[..i] + b[i..i + n] == b[..i + n];
    AddWord(x.offset + i, n);
  }

  lemma AddWord(a: nat, n: nat)
    ensures (a % WORD + n) % WORD == (a + n) % WORD
  {
  }

  /** The object record after the next packet. */
  function Counted(c: Client): Object {
    var n, o := NextLength(c), c.Cur();
    Object(o.size, (o.offset + n) % WORD, Crc(o.crc, c.fifo[..n]))
  }

  lemma CountedShifted(src: Source, x: Base, c: Client, v: Client)
    requires Based(src, x) && Mirrors(src, x, c, v) && Transferring(Part(src, x), v)
    ensures Shifted(Resent(src, x), x, Counted(c), Counted(v))
  {
    hide Shifted, Partly, Queued, Crc;
    var b, n := Resent(src, x), NextLength(v);
    PartlySent(b, v.cmd, v.fifo, v.sum, v.sendLen, n);
    ShiftedSent(b, x, c.Cur(), v.cmd, n);
  }

  lemma SendMirrors(src: Source, x: Base, c: Client, v: Client)
    requires Based(src, x) && Mirrors(src, x, c, v) && Transferring(Part(src, x), v) && c.credits > 0
    ensures NextLength(c) == NextLength(v)
    ensures Mirrors(src, x, SendData(c), SendData(v)) && Ends(SendData(c).events) == Ends(c.events)
  {
    CountedShifted(src, x, c, v);
    hide Shifted, Crc, Partly, Ends;
    assert SendData(c).Cur() == Counted(c) && SendData(v).cmd == Counted(v);
    var o := Counted(c);
    EndsSnoc(c.events, Progress(o.offset, o.size));
  }

  lemma AsksMirrors(src: Source, x: Base, c: Client, v: Client)
    requires Based(src, x) && Mirrors(src, x, c, v) && Supplied(Part(src, x), v)
    ensures AsksCrc(c) == AsksCrc(v) && SendsNow(c) == SendsNow(v)
  {
    SizesSame(src, x, c, v);
    hide Shifted, Queued;
  }

  lemma TurnMirrors(src: Source, x: Base, c: Client, v: Client)
    requires Based(src, x) && Mirrors(src, x, c, v) && Writing(Part(src, x), v) && c.credits > 0
    ensures Fillable(src, c) && Fillable(Part(src, x), v)
    ensures var t, u := Turn(src, c), Turn(Part(src, x), v);
            && t.Again? == u.Again? && t.Ask? == u.Ask?
            && Mirrors(src, x, t.c, u.c) && Ends(t.c.events) == Ends(c.events)
  {
    var p := Part(src, x);
    FillMirrors(src, x, c, v);
    FillKeeps(p, v);
    var d, w := Fill(src, c), Fill(p, v);
    AsksMirrors(src, x, d, w);
    if SendsNow(w) {
      SendMirrors(src, x, d, w);
      SendKeeps(p, w);
      AsksMirrors(src, x, SendData(d), SendData(w));
    }
    hide Fill, SendData, Shifted, Partly, Queued, AsksCrc, SendsNow, Wants, GivenNow;
  }

  // ---- the whole loop ----

  lemma MirrorsGoes(src: Source, x: Base, c: Client, v: Client)
    requires Based(src, x) && Mirrors(src, x, c, v) && Writing(Part(src, x), v)
    ensures Goes(Part(src, x), v) && Goes(src, c)
  {
    WritingGoes(Part(src, x), v);
    MirrorsSupplied(src, x, c, v);
    hide Queued, Mirrors;
  }

  lemma {:induction false} LoopMirrors(src: Source, x: Base, c: Client, v: Client)
    requires Based(src, x) && Mirrors(src, x, c, v) && Writing(Part(src, x), v)
    ensures Goes(Part(src, x), v) && Goes(src, c)
    ensures var (d, ask) := Loop(src, c);
            var (w, ask') := Loop(Part(src, x), v);
            ask == ask' && Mirrors(src, x, d, w) && Ends(d.events) == Ends(c.events)
    decreases Work(v)
  {
    var p := Part(src, x);
    MirrorsGoes(src, x, c, v);
    if c.credits > 0 {
      TurnMirrors(src, x, c, v);
      TurnKeeps(p, v);
      WorkNatural(p, v);
      var t, u := Turn(src, c), Turn(p, v);
      if u.Again? {
        LoopMirrors(src, x, t.c, u.c);
      }
      LoopStep(src, c);
      LoopStep(p, v);
    }
    hide Turn, Shifted, Partly, Queued, Stuck, Loop, Streamed;
  }

  lemma LoopStep(src: Source, c: Client)
    requires Goes(src, c) && c.credits > 0 && Fillable(src, c)
    ensures Turn(src, c).Again? ==> Goes(src, Turn(src, c).c)
    ensures var t := Turn(src, c); Loop(src, c) == if t.Again? then Loop(src, t.c) else (t.c, t.Ask?)
  {
    TurnWorks(src, c);
    hide Turn, Queued, Stuck;
  }

  lemma NoLoop(src: Source, c: Client)
    requires Goes(src, c) && c.credits == 0
    ensures Loop(src, c) == (c, false)
  {
  }

  /** Entering the sending loop does the same in both. */
  lemma StWriteMirrors(src: Source, x: Base, c: Client, v: Client)
    requires Based(src, x) && Mirrors(src, x, c, v) && Writing(Part(src, x), v)
    ensures Goes(Part(src, x), v) && Goes(src, c)
    ensures Mirrors(src, x, StWrite(src, c), StWrite(Part(src, x), v))
            && Ends(StWrite(src, c).events) == Ends(c.events)
  {
    MirrorsGoes(src, x, c, v);
    var d, w := c.(state := Write), v.(state := Write);
    assert Mirrors(src, x, d, w) && Writing(Part(src, x), w);
    LoopMirrors(src, x, d, w);
    hide Loop, Shifted, Partly, Queued, Stuck;
  }
}
