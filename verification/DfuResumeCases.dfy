/** When an answer to SELECT matches, when a resumed object comes out right, and inputs for
    each way in which it does not. */
module DfuResumeCases {
  import opened Bytes
  import opened Crc32
  import opened DfuModel
  import opened DfuControl
  import opened DfuSystem
  import opened DfuEcho
  import opened DfuPace
  import opened DfuResume

  /** The answer of a peer at p that reports the given size. */
  function Answer(size: nat, p: Peer): seq<byte> {
    [RESPONSE, SELECT, DFU_SUCCESS] + LittleEndian32(size) + LittleEndian32(p.offset) + LittleEndian32(p.crc as int)
  }

  lemma AnswerFields(size: nat, p: Peer)
    requires size < WORD && p.offset < WORD
    ensures var d := Answer(size, p);
            && |d| == 15 && d[0] == RESPONSE && d[1] == SELECT && d[2] == DFU_SUCCESS
            && Decode32(d[3..7]) == size && Decode32(d[7..11]) == p.offset && Decode32(d[11..15]) == p.crc as int
  {
    hide LittleEndian32, Decode32;
    var d := Answer(size, p);
    Decode32Inverts(size);
    Decode32Inverts(p.offset);
    Decode32Inverts(p.crc as int);
    assert d[3..7] == LittleEndian32(size);
    assert d[7..11] == LittleEndian32(p.offset);
    assert d[11..15] == LittleEndian32(p.crc as int);
  }

  /** A client that waits for the answer to SELECT and has o recorded for its image. */
  function Waiting(sendLen: nat, prn: nat, credits: nat, o: Object): Client {
    Client(PdSel, Image, prn, 0, credits, sendLen, Object(0, 0, 0), o, [], 0, 0, [], [])
  }

  /** A peer that has the first n bytes of b. */
  function Holding(b: seq<byte>, n: nat): Peer
    requires n <= |b|
  {
    Peer(n, Crc(0, b[..n]), b[..n], [])
  }

  function Meeting(b: seq<byte>, n: nat, c: Client): Sys
    requires n <= |b|
  {
    Sys(c, Holding(b, n), [], [Answer(|b|, Holding(b, n))], [], [], [])
  }

  /** An answer that tells the object's size and the CRC of a non-empty prefix matches, for a
      data callback that always gives something. */
  lemma AnswerMatches(src: Source, c: Client, n: nat)
    requires Steady(src, c) && c.state == PdSel && src.Feeding() && 0 < n <= |src.Bytes(c.cur)|
    requires c.Cur().size <= |src.Bytes(c.cur)| && c.Cur().offset < WORD
    ensures var s := Meeting(src.Bytes(c.cur), n, c); Matched(src, BaseOf(c, s.p), s)
  {
    hide CrcByOffset, Crc, Answer, Decode32, Steady;
    var b := src.Bytes(c.cur);
    CrcByOffsetIsPrefixCrc(src, c.cur, n, 0, c.calls);
    CrcNothing();
    assert b[..0] == [];
    LengthFits(src, c);
    AnswerFields(|b|, Holding(b, n));
  }

  /** Read byte by byte: the answer's size is the object's, its offset is not 0, and its CRC is
      that of as many bytes of the object. */
  lemma ResumesIff(src: Source, c: Client, size: nat, offset: nat, crc: nat)
    requires Steady(src, c) && c.state == PdSel && src.Feeding() && offset <= |src.Bytes(c.cur)|
    requires size < WORD && offset < WORD && crc < WORD
    ensures var d := [0x60, 6, 1] + LittleEndian32(size) + LittleEndian32(offset) + LittleEndian32(crc);
            Resumes(src, c, d)
            <==> size == |src.Bytes(c.cur)| && offset > 0 && crc == Crc(0, src.Bytes(c.cur)[..offset]) as int
  {
    hide CrcByOffset, Crc, Decode32, LittleEndian32, Steady;
    var b := src.Bytes(c.cur);
    var d := [0x60, 6, 1] + LittleEndian32(size) + LittleEndian32(offset) + LittleEndian32(crc);
    ThreeNumbers([0x60, 6, 1], size, offset, crc);
    CrcByOffsetIsPrefixCrc(src, c.cur, offset, 0, c.calls);
    CrcNothing();
    assert b[..0] == [];
    NotEmpty(src, c);
    HeadIs(d);
  }

  lemma HeadIs(d: seq<byte>)
    requires |d| == 15 && d[..3] == [0x60, 6, 1]
    ensures Response(d) && d[1] == SELECT && d[2] == DFU_SUCCESS
  {
    assert d[0] == d[..3][0] && d[1] == d[..3][1] && d[2] == d[..3][2];
  }

  lemma NotEmpty(src: Source, c: Client)
    requires Steady(src, c)
    ensures |src.Bytes(c.cur)| > 0
  {
  }

  lemma ThreeNumbers(head: seq<byte>, a: nat, b: nat, c: nat)
    requires |head| == 3 && a < WORD && b < WORD && c < WORD
    ensures var d := head + LittleEndian32(a) + LittleEndian32(b) + LittleEndian32(c);
            |d| == 15 && d[..3] == head
            && Decode32(d[3..7]) == a && Decode32(d[7..11]) == b && Decode32(d[11..15]) == c
  {
    hide LittleEndian32, Decode32;
    var d := head + LittleEndian32(a) + LittleEndian32(b) + LittleEndian32(c);
    Decode32Inverts(a);
    Decode32Inverts(b);
    Decode32Inverts(c);
    assert d[3..7] == LittleEndian32(a) && d[7..11] == LittleEndian32(b) && d[11..15] == LittleEndian32(c);
  }

  lemma LengthFits(src: Source, c: Client)
    requires Steady(src, c)
    ensures |src.Bytes(c.cur)| < WORD
  {
  }

  /** Whatever the peer of this protocol answers either leads to a new transfer, or is a match
      of the kind looked at here, or makes the client read past the end of its object. */
  lemma AnswerForks(src: Source, s: Sys)
    requires Sound(src, s.c) && s.c.state == PdSel && s.out == [] && s.back == [SelectReply(s.p)]
    requires s.p.offset < WORD && s.c.Cur().offset < WORD
    ensures Deals(src, s.c, s.back[0]) || Matched(src, BaseOf(s.c, s.p), s) || Overreads(src, s.c, s.back[0])
    ensures !Resumes(src, s.c, s.back[0]) ==> Deals(src, s.c, s.back[0])
  {
    hide SelectReply, Steady, Decode32, Resumes, Overreads, CheckCrc;
    SelectReplyFields(s.p);
    if !Resumes(src, s.c, s.back[0]) {
      SoundDeals(src, s.c, s.back[0]);
    }
  }

  /** The object executed after a resumed transfer is the whole object if and only if the
      recorded size is its own and the bytes from the recorded offset on are those it starts
      with. */
  lemma LandedIsObject(src: Source, x: Base)
    requires Based(src, x) && x.offset <= x.size && x.received == src.Bytes(x.kind)[..x.offset]
    ensures var b := src.Bytes(x.kind);
            Landed(src, x) == b <==> x.size == |b| && b[x.offset..] == b[..x.size - x.offset]
  {
    var b := src.Bytes(x.kind);
    assert Resent(src, x)[..x.size - x.offset] == b[..x.size - x.offset];
    assert |Landed(src, x)| == x.size;
    assert b == b[..x.offset] + b[x.offset..];
    if Landed(src, x) == b {
      assert Landed(src, x)[x.offset..] == b[..x.size - x.offset];
    }
  }

  // ---- inputs ----

  function Steps(n: nat): (b: seq<byte>)
    ensures |b| == n && forall i | 0 <= i < n :: b[i] == if i < 20 then 0 else 1
  {
    seq(n, i => if 0 <= i < 20 then 0 else 1)
  }

  function Supply(): Source {
    Source([0], Steps(40), i => BUF_SIZE)
  }

  /** The first half of the image, sent and acknowledged. */
  function Half(): Object {
    Object(40, 20, Crc(0, Steps(40)[..20]))
  }

  /** A peer that has the first 20 bytes answers a client whose record of the image is o. */
  lemma Met(prn: nat, o: Object) returns (src: Source, x: Base, s: Sys)
    requires prn < 256 && o.size <= 40 && o.offset < WORD
    ensures Matched(src, x, s) && src.Feeding() && src == Supply() && src.image == Steps(40)
    ensures x == Base(Image, o.size, o.offset, o.crc, 20, prn, 20, Half().crc, Steps(40)[..20], [], [])
  {
    src := Supply();
    var c := Waiting(20, prn, 10, o);
    WaitingSteady(src, prn, o);
    s := Meeting(Steps(40), 20, c);
    x := BaseOf(c, s.p);
    AnswerMatches(src, c, 20);
    hide Crc, Matched, Steady, Answer;
  }

  lemma WaitingSteady(src: Source, prn: nat, o: Object)
    requires src == Supply() && prn < 256
    ensures Steady(src, Waiting(20, prn, 10, o))
  {
  }

  /** With 20 of 40 bytes recorded and packets of 20, the transfer lands if the CRC is asked
      for after every packet. */
  lemma HalfLands(x: Base)
    requires x.sendLen == 20 && x.size == 40 && x.offset == 20 && 1 <= x.prn <= 2
    ensures Lands(x) <==> x.prn == 1
  {
  }

  /** Nothing recorded, as in a client that never sent the image: it hangs. */
  lemma HangsAtOnce() returns (src: Source, x: Base, s: Sys)
    ensures x.sendLen == 20 && x.size == 0 && Hangs(x)
    ensures Matched(src, x, s) && src.Feeding()
  {
    src, x, s := Met(1, Object(0, 0, 0));
    hide Matched;
  }

  /** An image of 40 bytes of which 20 are recorded, and packets of 20 bytes with a request for
      the CRC after every other: the client passes the recorded size and hangs. */
  lemma HangsLater() returns (src: Source, x: Base, s: Sys)
    ensures x.sendLen == 20 && 0 < x.offset < x.size && Agrees(x) && Hangs(x)
    ensures Matched(src, x, s) && src.Feeding()
  {
    hide Matched, Crc, Steps, Lands;
    src, x, s := Met(2, Half());
    HalfLands(x);
  }

  /** The same image, and a request for the CRC after every packet: the peer executes the
      first half twice, and the client takes that for success. */
  lemma WrongBytesSucceed() returns (src: Source, x: Base, s: Sys)
    ensures x.sendLen == 20 && x.kind == Image && Agrees(x) && !Hangs(x)
    ensures Based(src, x) && x.offset <= x.size && |src.image| == 40
    ensures Landed(src, x) == src.image[..20] + src.image[..20] && Landed(src, x) != src.image
    ensures Matched(src, x, s) && src.Feeding()
  {
    hide Matched, Crc, Steps, Lands, Landed, Resent;
    src, x, s := Met(1, Half());
    HalfLands(x);
    WaitingBased(src, x);
    HalfTwice(src, x);
  }

  lemma WaitingBased(src: Source, x: Base)
    requires src == Supply() && x.kind == Image && x.size <= 40 && x.sendLen == 20 && x.prn < 256
    ensures Based(src, x)
  {
  }

  lemma HalfTwice(src: Source, x: Base)
    requires Based(src, x) && x.kind == Image && src.image == Steps(40) && x.offset == 20 && x.size == 40
    requires x.received == Steps(40)[..20]
    ensures Landed(src, x) == src.image[..20] + src.image[..20] && Landed(src, x) != src.image
  {
    var b := Steps(40);
    LandedIsObject(src, x);
    assert b[20..][0] == 1 && b[..20][0] == 0;
    assert Resent(src, x)[..20] == b[..20];
  }
}
