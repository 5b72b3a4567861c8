/** The control half of the device update client: what it does with a response, with a grant
    of credits, and at the start. */
module DfuControl {
  import opened Bytes
  import opened Crc32
  import opened DfuModel

  /** The CRC of the first offset bytes of an object, fetched through the data callback from
      byte o on; an empty-handed callback makes it 0. Also counts the calls. */
  function CrcByOffset(src: Source, k: Kind, offset: nat, o: nat, crc: bv32, i: nat): (bv32, nat)
    requires o <= offset <= |src.Bytes(k)|
    decreases offset - o
  {
    if o == offset then (crc, i)
    else
      var n := Given(src, i, Min(offset - o, BUF_SIZE));
      if n == 0 then (0, i + 1)
      else CrcByOffset(src, k, offset, o + n, Crc(crc, src.Bytes(k)[o..o + n]), i + 1)
  }

  /** Whatever sizes the callback chooses, as long as none is 0, it is the CRC of the prefix. */
  lemma {:induction false} CrcByOffsetIsPrefixCrc(src: Source, k: Kind, offset: nat, o: nat, i: nat)
    requires o <= offset <= |src.Bytes(k)| && src.Feeding()
    ensures CrcByOffset(src, k, offset, o, Crc(0, src.Bytes(k)[..o]), i).0 == Crc(0, src.Bytes(k)[..offset])
    decreases offset - o
  {
    hide Crc;
    if o < offset {
      var b, n := src.Bytes(k), Given(src, i, Min(offset - o, BUF_SIZE));
      CrcConcat(0, b[..o], b[o..o + n]);
      assert b[..o] + b[o..o + n] == b[..o + n];
      CrcByOffsetIsPrefixCrc(src, k, offset, o + n, i + 1);
    }
  }

  /** Whatever the callback does, it is that or, if the callback came back empty-handed, 0. */
  lemma {:induction false} CrcByOffsetOrNothing(src: Source, k: Kind, offset: nat, o: nat, i: nat)
    requires o <= offset <= |src.Bytes(k)|
    ensures var (c, j) := CrcByOffset(src, k, offset, o, Crc(0, src.Bytes(k)[..o]), i);
            && i <= j
            && (if (exists l :: i <= l < j && src.chunk(l) == 0) then c == 0 else c == Crc(0, src.Bytes(k)[..offset]))
    decreases offset - o
  {
    hide Crc;
    if o < offset {
      var b, n := src.Bytes(k), Given(src, i, Min(offset - o, BUF_SIZE));
      if n > 0 {
        CrcConcat(0, b[..o], b[o..o + n]);
        assert b[..o] + b[o..o + n] == b[..o + n];
        CrcByOffsetOrNothing(src, k, offset, o + n, i + 1);
      } else {
        assert src.chunk(i) == 0;
      }
    }
  }

  // ---- responses ----

  predicate Response(d: seq<byte>) {
    |d| >= 3 && d[0] == RESPONSE
  }

  /** A checksum response is read without looking at its length. */
  predicate WellSized(c: Client, d: seq<byte>) {
    Response(d) && d[2] == DFU_SUCCESS && d[1] == CAL_CHECKSUM && c.state == PdGetCrc ==> |d| >= 11
  }

  /** The response to SELECT that the client is waiting for. */
  predicate SelectAnswer(c: Client, d: seq<byte>) {
    Response(d) && d[2] == DFU_SUCCESS && d[1] == SELECT && c.state == PdSel && |d| >= 15
  }

  /** The answer's size makes the client look up its own CRC at the peer's offset. */
  predicate Inquires(src: Source, k: Kind, size: nat, offset: nat) {
    size > 0 && offset > 0 && size == |src.Bytes(k)|
  }

  /** The guard of the resume branch, on the peer's reported size, offset and CRC. An offset
      past the end of the object counts as a match: the code reads past the object then. */
  predicate Match(src: Source, k: Kind, size: nat, offset: nat, crc: nat, i: nat) {
    && Inquires(src, k, size, offset)
    && (offset <= |src.Bytes(k)| ==> CrcByOffset(src, k, offset, 0, 0, i).0 as int == crc)
  }

  predicate Resumes(src: Source, c: Client, d: seq<byte>) {
    SelectAnswer(c, d) && Match(src, c.cur, Decode32(d[3..7]), Decode32(d[7..11]), Decode32(d[11..15]), c.calls)
  }

  /** The data callback would be asked for bytes past the end of the object: the peer's offset
      or the size the client goes on from is too large. */
  predicate Overreads(src: Source, c: Client, d: seq<byte>) {
    && SelectAnswer(c, d)
    && Inquires(src, c.cur, Decode32(d[3..7]), Decode32(d[7..11]))
    && (Decode32(d[7..11]) > |src.Bytes(c.cur)| || (Resumes(src, c, d) && c.Cur().size > |src.Bytes(c.cur)|))
  }

  /** A CRC answer that agrees, about an object that does not end there. */
  predicate Continues(c: Client, d: seq<byte>) {
    && WellSized(c, d) && Response(d) && d[2] == DFU_SUCCESS && d[1] == CAL_CHECKSUM && c.state == PdGetCrc
    && CheckCrc(c, Decode32(d[3..7]), Decode32(d[7..11])) > 0 && c.Cur().offset != c.Cur().size
  }

  /** The answer makes the client enter the sending loop with credits but nothing to send. */
  predicate Freezes(src: Source, c: Client, d: seq<byte>) {
    c.credits > 0 && Stuck(c) && (Resumes(src, c, d) || Continues(c, d))
  }

  /** Calls of the data callback made while looking at a SELECT answer. */
  function CallsAfter(src: Source, k: Kind, size: nat, offset: nat, i: nat): nat
    requires Inquires(src, k, size, offset) ==> offset <= size
  {
    if Inquires(src, k, size, offset) then CrcByOffset(src, k, offset, 0, 0, i).1 else i
  }

  /** 1 if the peer is where the client is, with its CRC; -1 if it is behind; else 0. */
  function CheckCrc(c: Client, offset: nat, crc: nat): int {
    if offset < c.Cur().offset then -1
    else if offset == c.Cur().offset && crc == c.Cur().crc as int then 1 else 0
  }

  /** What every call relies on and keeps, also when a transfer was resumed. */
  ghost predicate Steady(src: Source, c: Client) {
    && src.Good()
    && 20 <= c.sendLen <= MAX_DFU_SEND_SIZE && c.credits < 128 && c.prn < 256
    && match c.state
       case Idle => true
       case Sel | PdSel => c.fifo == [] && c.sum == 0 && c.prnCnt == 0
       case SetPrn | PdSetPrn | Create => c.fifo == [] && c.sum == 0
       case PdCreate => Supplied(src, c) && !Stuck(c)
       case Write | GetCrc | PdGetCrc | Execute | PdExecute => Supplied(src, c)
  }

  /** What the client relies on between calls when every object is sent from its start. */
  ghost predicate Sound(src: Source, c: Client) {
    && Steady(src, c)
    && match c.state
       case PdCreate => Writing(src, c) && c.Cur().offset == 0 && c.sum == 0
       case Write => Writing(src, c)
       case GetCrc | PdGetCrc => Transferring(src, c) && c.Cur().offset > 0
       case Execute | PdExecute => Transferring(src, c) && c.Cur().offset == c.Cur().size
       case _ => true
  }

  /** A notification the client can deal with: it is long enough, the data callback is not
      asked for too much, and the sending loop ends. */
  ghost predicate Deals(src: Source, c: Client, d: seq<byte>) {
    Steady(src, c) && WellSized(c, d) && !Overreads(src, c, d) && !Freezes(src, c, d)
  }

  /** After a response with the status the peer gave. */
  function Recv(src: Source, c: Client, d: seq<byte>): Client
    requires Deals(src, c, d)
  {
    if !Response(d) then c
    else if d[2] != DFU_SUCCESS then c.Finish(d[2])
    else if d[1] == CREATE && c.state == PdCreate then StWrite(src, c)
    else if d[1] == SET_PRN && c.state == PdSetPrn then StCreate(src, c)
    else if d[1] == CAL_CHECKSUM && c.state == PdGetCrc then Checked(src, c, d)
    else if d[1] == EXECUTE && c.state == PdExecute then
      if c.cur.Command? then StSelect(c.(cur := Image)) else c.Finish(DFU_SUCCESS)
    else if SelectAnswer(c, d) then Selected(src, c, d)
    else c
  }

  /** The CRC answer: execute when all is sent, write on when more is to come, else give up. */
  function Checked(src: Source, c: Client, d: seq<byte>): Client
    requires Deals(src, c, d) && Response(d) && d[2] == DFU_SUCCESS && d[1] == CAL_CHECKSUM && c.state == PdGetCrc
  {
    if CheckCrc(c, Decode32(d[3..7]), Decode32(d[7..11])) > 0 then
      if c.Cur().offset == c.Cur().size then StExecute(c) else StWrite(src, c)
    else c.Finish(DFU_CRC_NOT_MATCH)
  }

  /** The answer to SELECT: go on from what the peer has if it matches, else start anew. */
  function Selected(src: Source, c: Client, d: seq<byte>): Client
    requires SelectAnswer(c, d) && Deals(src, c, d)
  {
    var size, offset := Decode32(d[3..7]), Decode32(d[7..11]);
    var e := c.(calls := CallsAfter(src, c.cur, size, offset, c.calls));
    if Resumes(src, c, d) then StWrite(src, e) else StSetPrn(e)
  }

  /** A grant that lets the client enter the sending loop with nothing to send. */
  predicate Jams(c: Client, n: nat) {
    n > 0 && c.state == Write && Stuck(c)
  }

  /** After a grant of n credits, which replaces whatever was left. */
  function CanSend(src: Source, c: Client, n: nat): Client
    requires Steady(src, c) && n < 128 && !Jams(c, n)
  {
    hide Queued;
    var d := c.(credits := n);
    match c.state
    case Write => StWrite(src, d)
    case Sel => StSelect(d)
    case SetPrn => StSetPrn(d)
    case Create => StCreate(src, d)
    case GetCrc => StGetCrc(d)
    case Execute => StExecute(d)
    case _ => d
  }

  /** Starting an update; a running one is left alone. */
  function Start(c: Client, mtu: nat, credits: nat, prn: nat): Client
    requires mtu >= 23
  {
    if c.state != Idle then c
    else StSelect(c.(cur := Command, prn := prn, credits := credits, sendLen := Min(mtu - 3, MAX_DFU_SEND_SIZE)))
  }

  // ---- every call keeps the client sound and stays within its credits ----

  lemma EmptyTransfer(src: Source, c: Client)
    requires src.Good() && 20 <= c.sendLen <= MAX_DFU_SEND_SIZE
    requires c.fifo == [] && c.sum == 0 && c.Cur() == Object(|src.Bytes(c.cur)|, 0, 0)
    ensures Writing(src, c)
  {
    CrcNothing();
    hide Crc;
    assert src.Bytes(c.cur)[..0] == [];
  }

  lemma StGetCrcSteady(src: Source, e: Client)
    requires src.Good() && 20 <= e.sendLen <= MAX_DFU_SEND_SIZE && e.credits < 128 && e.prn < 256 && Supplied(src, e)
    ensures Steady(src, StGetCrc(e)) && Spends(e, StGetCrc(e)) && StGetCrc(e).cur == e.cur
  {
    hide Queued;
  }

  lemma StWriteSteady(src: Source, c: Client)
    requires src.Good() && 20 <= c.sendLen <= MAX_DFU_SEND_SIZE && c.credits < 128 && c.prn < 256 && Goes(src, c)
    ensures Steady(src, StWrite(src, c)) && Spends(c, StWrite(src, c)) && StWrite(src, c).cur == c.cur
  {
    hide StGetCrc;
    var d := c.(state := Write);
    assert Goes(src, d);
    LoopWorks(src, d);
    hide Loop, Queued, Stuck;
    var (e, ask) := Loop(src, d);
    if ask {
      StGetCrcSteady(src, e);
    }
  }

  lemma StWriteSound(src: Source, c: Client)
    requires Sound(src, c) && Writing(src, c)
    ensures Goes(src, c) && Sound(src, StWrite(src, c)) && Spends(c, StWrite(src, c))
  {
    WritingGoes(src, c);
    StWriteSteady(src, c);
    var d := c.(state := Write);
    LoopKeeps(src, d);
    var (e, ask) := Loop(src, d);
    hide Loop, Queued, Streamed;
  }

  lemma StGetCrcSound(src: Source, e: Client)
    requires src.Good() && 20 <= e.sendLen <= MAX_DFU_SEND_SIZE && e.credits < 128 && e.prn < 256
    requires Transferring(src, e) && e.Cur().offset > 0
    ensures Sound(src, StGetCrc(e)) && Spends(e, StGetCrc(e))
  {
    hide Queued;
  }

  lemma StCreateSound(src: Source, c: Client)
    requires Steady(src, c) && c.fifo == [] && c.sum == 0
    ensures Sound(src, StCreate(src, c)) && Spends(c, StCreate(src, c)) && StCreate(src, c).cur == c.cur
  {
    if c.credits > 0 {
      EmptyTransfer(src, StCreate(src, c));
      WritingGoes(src, StCreate(src, c));
    }
    hide Partly, Queued;
  }

  /** Without a resuming answer the sending loop is never entered with nothing to send. */
  lemma SoundDeals(src: Source, c: Client, d: seq<byte>)
    requires Sound(src, c) && WellSized(c, d) && !Resumes(src, c, d)
    ensures Deals(src, c, d)
  {
    hide CrcByOffset;
  }

  lemma RecvSound(src: Source, c: Client, d: seq<byte>)
    requires Sound(src, c) && WellSized(c, d) && !Resumes(src, c, d)
    ensures Deals(src, c, d) && Sound(src, Recv(src, c, d)) && Spends(c, Recv(src, c, d))
  {
    SoundDeals(src, c, d);
    hide Transferring, StWrite, StCreate, CrcByOffset, Queued, Checked, Stuck;
    if c.state == PdCreate {
      StWriteSound(src, c);
    } else if c.state == PdSetPrn {
      StCreateSound(src, c);
    } else if c.state == PdGetCrc && Response(d) && d[2] == DFU_SUCCESS && d[1] == CAL_CHECKSUM {
      CheckedSound(src, c, d);
    }
  }

  lemma CheckedSound(src: Source, c: Client, d: seq<byte>)
    requires Sound(src, c) && Deals(src, c, d)
    requires Response(d) && d[2] == DFU_SUCCESS && d[1] == CAL_CHECKSUM && c.state == PdGetCrc
    ensures Sound(src, Checked(src, c, d)) && Spends(c, Checked(src, c, d))
  {
    hide StWrite, Queued, Stuck, Decode32;
    if c.Cur().offset != c.Cur().size {
      WritingFromOffset(src, c);
      StWriteSound(src, c);
    }
    hide Partly;
  }

  /** The client never goes back to the command object by itself. */
  predicate Onward(c: Client, e: Client) {
    e.cur == c.cur || e.cur == Image
  }

  /** Every notification the client can deal with, resuming ones included, leaves it steady
      and within its credits. */
  lemma RecvSteady(src: Source, c: Client, d: seq<byte>)
    requires Deals(src, c, d)
    ensures Steady(src, Recv(src, c, d)) && Spends(c, Recv(src, c, d)) && Onward(c, Recv(src, c, d))
  {
    hide Partly, StWrite, StCreate, CrcByOffset, Queued, Checked, Selected;
    if c.state == PdCreate {
      StWriteSteady(src, c);
    } else if c.state == PdSetPrn {
      StCreateSound(src, c);
    } else if c.state == PdGetCrc && Response(d) && d[2] == DFU_SUCCESS && d[1] == CAL_CHECKSUM {
      CheckedSteady(src, c, d);
    } else if SelectAnswer(c, d) {
      SelectedSteady(src, c, d);
    }
  }

  lemma CheckedSteady(src: Source, c: Client, d: seq<byte>)
    requires Deals(src, c, d)
    requires Response(d) && d[2] == DFU_SUCCESS && d[1] == CAL_CHECKSUM && c.state == PdGetCrc
    ensures Steady(src, Checked(src, c, d)) && Spends(c, Checked(src, c, d)) && Onward(c, Checked(src, c, d))
  {
    hide StWrite, Queued, Decode32;
    if Continues(c, d) {
      StWriteSteady(src, c);
    }
  }

  /** What the sending loop is entered with when a transfer is resumed. */
  lemma ResumeSupplied(src: Source, c: Client, d: seq<byte>, i: nat)
    requires Steady(src, c) && !Overreads(src, c, d) && Resumes(src, c, d)
    ensures Supplied(src, c.(calls := i))
  {
    ResumeRoom(src, c, d);
    hide Overreads, Resumes;
    EmptyQueue(src, c);
    hide Queued;
  }

  lemma ResumeRoom(src: Source, c: Client, d: seq<byte>)
    requires !Overreads(src, c, d) && Resumes(src, c, d)
    ensures c.state == PdSel && c.Cur().size <= |src.Bytes(c.cur)|
  {
    hide Decode32, CrcByOffset;
  }

  lemma EmptyQueue(src: Source, c: Client)
    requires Steady(src, c) && c.state == PdSel && c.Cur().size <= |src.Bytes(c.cur)|
    ensures Supplied(src, c)
  {
  }

  lemma ResumeGoes(src: Source, c: Client, d: seq<byte>, i: nat)
    requires Deals(src, c, d) && Resumes(src, c, d)
    ensures Goes(src, c.(calls := i))
  {
    ResumeSupplied(src, c, d, i);
    hide Steady, Overreads, Resumes, Queued;
  }

  lemma SelectedSteady(src: Source, c: Client, d: seq<byte>)
    requires Deals(src, c, d) && SelectAnswer(c, d)
    ensures Steady(src, Selected(src, c, d)) && Spends(c, Selected(src, c, d)) && Onward(c, Selected(src, c, d))
  {
    hide StWrite, CrcByOffset, Queued, Decode32;
    if Resumes(src, c, d) {
      var size, offset := Decode32(d[3..7]), Decode32(d[7..11]);
      ResumeGoes(src, c, d, CallsAfter(src, c.cur, size, offset, c.calls));
      StWriteSteady(src, c.(calls := CallsAfter(src, c.cur, size, offset, c.calls)));
    }
  }

  lemma WritingFromOffset(src: Source, c: Client)
    requires Transferring(src, c) && c.Cur().offset != c.Cur().size
    ensures Writing(src, c)
  {
  }

  lemma CanSendSound(src: Source, c: Client, n: nat)
    requires Sound(src, c) && n < 128
    ensures !Jams(c, n) && Sound(src, CanSend(src, c, n)) && Spends(c.(credits := n), CanSend(src, c, n))
  {
    var d := c.(credits := n);
    assert Sound(src, d);
    hide Partly, StWrite, StCreate, Queued;
    if c.state == Write {
      WritingGoes(src, c);
      StWriteSound(src, d);
    } else if c.state == Create {
      StCreateSound(src, d);
    } else if c.state == GetCrc {
      StGetCrcSound(src, d);
    }
  }

  lemma CanSendSteady(src: Source, c: Client, n: nat)
    requires Steady(src, c) && n < 128 && !Jams(c, n)
    ensures Steady(src, CanSend(src, c, n)) && Spends(c.(credits := n), CanSend(src, c, n))
    ensures CanSend(src, c, n).cur == c.cur
  {
    hide Partly, StWrite, StCreate, Queued;
    var d := c.(credits := n);
    assert Steady(src, d);
    if c.state == Write {
      StWriteSteady(src, d);
    } else if c.state == Create {
      StCreateSound(src, d);
    }
  }

  // ---- when a call never returns ----

  /** The client as it enters the sending loop on this answer. */
  function Entering(src: Source, c: Client, d: seq<byte>): Client
    requires !Overreads(src, c, d)
  {
    if SelectAnswer(c, d) then
      c.(calls := CallsAfter(src, c.cur, Decode32(d[3..7]), Decode32(d[7..11]), c.calls), state := Write)
    else c.(state := Write)
  }

  /** An answer that resumes, or goes on behind, a transfer makes the client turn in its
      sending loop for ever if and only if it freezes. */
  lemma FreezesIff(src: Source, c: Client, d: seq<byte>)
    requires Steady(src, c) && WellSized(c, d) && !Overreads(src, c, d)
    requires Resumes(src, c, d) || Continues(c, d)
    ensures Supplied(src, Entering(src, c, d))
    ensures Freezes(src, c, d) <==> forall j: nat :: StillGoing(src, Entering(src, c, d), j)
  {
    EnteringSupplied(src, c, d);
    NeverEndsIff(src, Entering(src, c, d));
    hide Queued, Decode32, Steady, Overreads, Resumes, Continues, StillGoing, CallsAfter;
  }

  lemma EnteringSupplied(src: Source, c: Client, d: seq<byte>)
    requires Steady(src, c) && WellSized(c, d) && !Overreads(src, c, d)
    requires Resumes(src, c, d) || Continues(c, d)
    ensures Supplied(src, Entering(src, c, d))
  {
    hide Queued, Overreads, CallsAfter, CrcByOffset, Decode32;
    if Resumes(src, c, d) {
      ResumeSupplied(src, c, d, Entering(src, c, d).calls);
    }
  }

  /** So does a grant if and only if it jams. */
  lemma JamsIff(src: Source, c: Client, n: nat)
    requires Steady(src, c) && c.state == Write
    ensures Supplied(src, c.(credits := n))
    ensures Jams(c, n) <==> forall j: nat :: StillGoing(src, c.(credits := n), j)
  {
    hide Steady, Queued, StillGoing;
    WriteSupplied(src, c, n);
    NeverEndsIff(src, c.(credits := n));
  }

  lemma WriteSupplied(src: Source, c: Client, n: nat)
    requires Steady(src, c) && c.state == Write
    ensures Supplied(src, c.(credits := n))
  {
    hide Queued;
  }
}
