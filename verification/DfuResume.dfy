/** What becomes of an update whose SELECT answer matches: the client enters the sending loop
    as it is. The run then follows a fresh transfer of the recorded size's worth of bytes, until
    a CRC answer finds the recorded size reached, finds nothing left to send, or disagrees. */
module DfuResume {
  import opened Bytes
  import opened Crc32
  import opened DfuModel
  import opened DfuControl
  import opened DfuSystem
  import opened DfuEcho
  import opened DfuPace
  import opened DfuProgress

  // ---- steps that may not end ----

  datatype Fate = Live(s: Sys) | Frozen

  ghost predicate Acceptable(src: Source, s: Sys, t: Step) {
    && Steady(src, s.c) && Enabled(s, t)
    && (t.ToClient? ==> WellSized(s.c, s.back[0]) && !Overreads(src, s.c, s.back[0]))
  }

  /** One step; a call whose sending loop never ends freezes the client. */
  function Act(src: Source, s: Sys, t: Step): Fate
    requires Acceptable(src, s, t)
  {
    match t
    case ToPeer => Live(DeliverToPeer(s))
    case ToClient =>
      if Freezes(src, s.c, s.back[0]) then Frozen
      else
        RecvSteady(src, s.c, s.back[0]);
        Live(Moved(s, Recv(src, s.c, s.back[0]), s.back[1..]))
    case Grant(n) =>
      if Jams(s.c, n) then Frozen
      else
        CanSendSteady(src, s.c, n);
        Live(Moved(s, CanSend(src, s.c, n), s.back))
  }

  // ---- the resumed transfer ----

  function BaseOf(c: Client, p: Peer): Base {
    var o := c.Cur();
    Base(c.cur, o.size, o.offset, o.crc, c.sendLen, c.prn, p.offset, p.crc, p.received, p.executed, Ends(c.events))
  }

  /** The peer is where the client's record of the object is. */
  predicate Agrees(x: Base) {
    x.peerOffset == x.offset && x.peerCrc == x.crc
  }

  /** The condition under which the client hangs: nothing is recorded, or the count, which
      starts from the recorded offset, passes the recorded size between two CRC requests. */
  predicate Hangs(x: Base)
    requires x.sendLen > 0
  {
    x.size == 0 || (Agrees(x) && !Lands(x))
  }

  /** A matching answer, with the numbers of the peer, is about to reach the client. */
  ghost predicate Matched(src: Source, x: Base, s: Sys) {
    && x == BaseOf(s.c, s.p) && Steady(src, s.c) && x.offset < WORD && s.p.offset < WORD
    && s.out == [] && |s.back| == 1
    && Resumes(src, s.c, s.back[0]) && !Overreads(src, s.c, s.back[0])
    && Decode32(s.back[0][7..11]) == s.p.offset && Decode32(s.back[0][11..15]) == s.p.crc as int
  }

  ghost predicate PeerMirrors(x: Base, p: Peer, w: Peer) {
    && p.offset == (x.peerOffset + w.offset) % WORD && p.crc == Crc(x.peerCrc, w.received)
    && p.received == x.received + w.received && p.executed == x.executed
  }

  ghost predicate Pacing(x: Base, v: Client)
    requires x.sendLen > 0
  {
    && Paced(x, v.cmd.offset, v.prnCnt) && OnCourse(x, v.cmd.offset, v.state == Write)
    && (v.state != Write ==> v.prnCnt == 0 && (v.cmd.offset < x.size ==> Checkpoint(x, v.cmd.offset)))
  }

  predicate Sending(t: State) {
    t == Write || t == GetCrc || t == PdGetCrc
  }

  /** The resumed transfer s is where the fresh transfer v is. */
  ghost predicate Echo(src: Source, x: Base, s: Sys, v: Sys) {
    && Based(src, x) && 0 < x.size && x.offset < WORD && x.peerOffset < WORD
    && Inv(Part(src, x), v) && Sending(v.c.state)
    && Mirrors(src, x, s.c, v.c) && PeerMirrors(x, s.p, v.p) && Ends(s.c.events) == x.reported
    && s.out == v.out && s.back == (if v.back == [] then [] else [CrcReply(s.p)])
    && Pacing(x, v.c)
  }

  /** All is sent, without credits; the next grant hangs. */
  ghost predicate Doomed(src: Source, x: Base, s: Sys) {
    && Based(src, x) && Hangs(x) && Steady(src, s.c)
    && s.c.state == Write && s.c.cur == x.kind && s.c.Cur().size == x.size && s.c.credits == 0 && Stuck(s.c) && Quiet(s)
    && Ends(s.c.events) == x.reported && s.p.executed == x.executed
  }

  /** What the peer has when the client's count is the recorded size. */
  function Landed(src: Source, x: Base): seq<byte>
    requires Based(src, x) && x.offset <= x.size
  {
    x.received + Resent(src, x)[..x.size - x.offset]
  }

  ghost predicate Closing(src: Source, x: Base, s: Sys) {
    && Based(src, x) && Agrees(x) && Lands(x) && Steady(src, s.c) && s.c.cur == x.kind
    && s.c.Cur().size == x.size && s.p.offset < WORD && (s.c.state == Execute || s.c.state == PdExecute)
    && s.p.received == Landed(src, x) && Ends(s.c.events) == x.reported
    && (s.c.state == Execute ==> Quiet(s) && s.p.executed == x.executed)
    && (s.c.state == PdExecute ==>
          && Pending(s, Ctrl([EXECUTE]), [RESPONSE, EXECUTE, DFU_SUCCESS])
          && s.p.executed == x.executed + (if s.out == [] then [Landed(src, x)] else []))
  }

  /** The object is done with. */
  predicate Decided(x: Base, s: Sys) {
    s.c.state == Idle || s.c.cur != x.kind
  }

  /** The client has just turned to the image. */
  ghost predicate AtImage(src: Source, s: Sys) {
    && Steady(src, s.c) && s.p.offset < WORD && s.c.cur == Image && s.back == []
    && (s.c.state == Sel || s.c.state == PdSel)
    && s.out == (if s.c.state == Sel then [] else [Ctrl([SELECT, Image.Code()])])
  }

  /** Either the peer executed what it had and was sent, and the client takes that for success,
      or the client reported that the CRC does not match. */
  ghost predicate Verdict(src: Source, x: Base, s: Sys) {
    && Based(src, x) && Decided(x, s)
    && if Agrees(x) then
         && Lands(x) && s.p.executed == x.executed + [Landed(src, x)]
         && Ends(s.c.events) == x.reported + (if x.kind.Image? then [DFU_SUCCESS] else [])
         && (if x.kind.Image? then s.c.state == Idle else AtImage(src, s))
       else
         && x.size > 0 && s.p.executed == x.executed && s.c.state == Idle
         && Ends(s.c.events) == x.reported + [DFU_CRC_NOT_MATCH]
  }

  /** What is left to do before the transfer is decided. */
  function Left(x: Base, s: Sys): int {
    8 * (x.size - (s.c.sum - |s.c.fifo|)) + Rank(s.c.state) + Load(s.out) + |s.back|
  }

  ghost predicate Resuming(src: Source, x: Base, s: Sys) {
    || Matched(src, x, s)
    || (exists v :: Echo(src, x, s, v))
    || Doomed(src, x, s)
    || Closing(src, x, s)
  }
}
