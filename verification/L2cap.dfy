/** The L2CAP send queue as it runs: two counters and a byte ring. */
module L2cap {
  import opened Bytes
  import opened ByteRing
  import opened L2capModel

  class Sender {
    var hostPktNum: nat
    var ctrlPktNum: nat
    const ring: Ring
    var usb: seq<seq<byte>>

    // The records that the ring's bytes are.
    ghost var queue: seq<Record>

    ghost predicate Shape()
      reads this, ring, ring.buf
    {
      && ring.Valid() && ring.buf.Length == L2CAP_BUFFER_SIZE
      && Small(queue) && ring.Contents() == Flat(queue)
    }

    /** Between calls: the counters count what they should, and nothing waits that could go. */
    ghost predicate Valid()
      reads this, ring, ring.buf
    {
      Shape() && hostPktNum == Ends(queue) && hostPktNum < 128 && Drained(Model())
    }

    ghost function Model(): Tx
      reads this
    {
      Tx(queue, ctrlPktNum, usb)
    }

    constructor ()
      ensures Valid() && Model() == Tx([], 0, []) && fresh(ring) && fresh(ring.buf)
    {
      hostPktNum, ctrlPktNum, usb, queue := 0, 0, [], [];
      ring := new Ring(L2CAP_BUFFER_SIZE);
    }

    method Init()
      requires Valid()
      modifies this, ring
      ensures Valid() && Model() == Tx([], 0, old(usb))
    {
      hostPktNum, ctrlPktNum := 0, 0;
      ring.Clear();
      queue := [];
    }

    /** Pushes one length-prefixed record. */
    method PushRecord(r: Record)
      requires Shape() && |r.bytes| < END_FLAG && |Flat([r])| <= ring.Avail()
      modifies this`queue, ring, ring.buf
      ensures Shape() && queue == old(queue) + [r] && ring.Avail() == old(ring.Avail()) - |Flat([r])|
    {
      hide Window, Flat, LittleEndian32, Ring.Length, Ring.Avail;
      OneRecord(r);
      FlatConcat(queue, [r]);
      ring.Push(LittleEndian32(|r.bytes| + if r.last then END_FLAG else 0));
      ring.Push(r.bytes);
      assert Flat(queue) + Prefix(r) + r.bytes == Flat(queue) + (Prefix(r) + r.bytes);
      queue := queue + [r];
    }

    /** Pops one record off the ring. */
    method PopRecord() returns (last: bool, buf: seq<byte>)
      requires Shape() && ring.Length() >= 4
      modifies this`queue, ring
      ensures Shape() && old(queue) != [] && queue == old(queue)[1..]
      ensures Record(last, buf) == old(queue)[0]
    {
      hide Window, Decode32, Prefix, Ring.Length, Ring.Avail;
      assert queue != [] && ring.Contents() == Prefix(queue[0]) + queue[0].bytes + Flat(queue[1..]);
      ghost var r, rest := queue[0], Flat(queue[1..]);
      PrefixDecodes(r);
      assert (Prefix(r) + r.bytes + rest)[..4] == Prefix(r);
      assert (Prefix(r) + r.bytes + rest)[4..] == r.bytes + rest;
      var head := ring.Pop(4);
      var len := Decode32(head);
      last := len >= END_FLAG;
      assert (r.bytes + rest)[..len % END_FLAG] == r.bytes && (r.bytes + rest)[len % END_FLAG..] == rest;
      buf := ring.Pop(len % END_FLAG);
      queue := queue[1..];
    }

    /** Hands over queued packets while the controller has room. */
    method BufferSend()
      requires Shape() && hostPktNum == Ends(queue) && ctrlPktNum <= MAX_PKT_NUM
      modifies this, ring
      ensures Shape() && hostPktNum == Ends(queue) <= old(hostPktNum)
      ensures Model() == Drain(old(Model()))
    {
      hide Window, Drain, Flat, Ring.Length, Ring.Avail;
      ghost var t := Model();
      FlatEmpty(queue);
      while ctrlPktNum < MAX_PKT_NUM && ring.Length() >= 4
        invariant Shape() && hostPktNum == Ends(queue) <= old(hostPktNum) && ctrlPktNum <= MAX_PKT_NUM
        invariant Drain(Model()) == Drain(t)
        invariant |Flat(queue)| < 4 ==> queue == []
        decreases |queue|
      {
        ghost var u := Model();
        var last, buf := PopRecord();
        DrainStep(u);
        if last {
          hostPktNum := hostPktNum - 1;
        }
        usb := usb + [buf];
        ctrlPktNum := ctrlPktNum + 1;
        FlatEmpty(queue);
      }
      DrainDone(Model());
    }

    /** Completed packets make room for queued ones. */
    method PacketComp(num: nat)
      requires Valid() && num <= ctrlPktNum
      modifies this, ring
      ensures Valid() && Model() == CompleteTx(old(Model()), num)
    {
      hide Window, Drain, Flat;
      DrainConserves(Model().(inFlight := ctrlPktNum - num));
      ctrlPktNum := ctrlPktNum - num;
      BufferSend();
    }

    /** Queues a packet, whole or in fragments, and hands over what can go. */
    method Send(data: seq<byte>)
      requires Valid() && 5 <= |data| < END_FLAG && hostPktNum < 127
      requires |Flat(Fragments(data))| <= ring.Avail()
      modifies this, ring, ring.buf
      ensures Valid() && Model() == SendTx(old(Model()), data)
    {
      hide Window, Drain, Flat, Frame;
      ghost var t := Model();
      if |data| - 5 <= ACL_MAX_SIZE {
        PushRecord(Record(true, data));
      } else {
        PushPieces(data);
      }
      FragmentsEndOnce(data);
      EndsConcat(t.queue, Fragments(data));
      DrainConserves(Model());
      hostPktNum := hostPktNum + 1;
      BufferSend();
    }

    method PushPieces(data: seq<byte>)
      requires Shape() && 5 < |data| < END_FLAG && |Flat(Pieces(data, 5))| <= ring.Avail()
      modifies this`queue, ring, ring.buf
      ensures Shape() && queue == old(queue) + Pieces(data, 5)
    {
      hide Window, Flat, Ring.Length, Ring.Avail, Pieces;
      var buf := data[..5];
      var i := 5;
      ghost var q := queue;
      while i < |data|
        invariant (i == 5 || i >= 5 + ACL_MAX_SIZE) && Shape() && |buf| == 5 && buf[..2] == data[..2]
        invariant buf[2] == if i <= 5 + ACL_MAX_SIZE then data[2] else data[2] | 0x10
        invariant queue + Rest(data, i) == q + Pieces(data, 5) && |Flat(Rest(data, i))| <= ring.Avail()
        decreases |data| - i
      {
        if i == 5 + ACL_MAX_SIZE {
          buf := buf[2 := buf[2] | 0x10];
        }
        buf := PushPiece(data, i, buf);
        i := i + ACL_MAX_SIZE;
      }
    }

    /** One turn of the fragmenting loop; buf is the fragment header. */
    method PushPiece(data: seq<byte>, i: nat, buf: seq<byte>) returns (out: seq<byte>)
      requires Shape() && 5 <= i < |data| < END_FLAG && |buf| == 5 && buf[..2] == data[..2]
      requires buf[2] == if i == 5 then data[2] else data[2] | 0x10
      requires |Flat(Rest(data, i))| <= ring.Avail()
      modifies this`queue, ring, ring.buf
      ensures Shape() && |out| == 5 && out[..2] == data[..2] && out[2] == buf[2]
      ensures queue + Rest(data, i + ACL_MAX_SIZE) == old(queue) + Rest(data, i)
      ensures |Flat(Rest(data, i + ACL_MAX_SIZE))| <= ring.Avail()
    {
      hide Window, Flat, Ring.Length, Ring.Avail, LittleEndian16, Rest, Frame;
      PiecesStep(data, i);
      var dataLen := if i + ACL_MAX_SIZE >= |data| then |data| - i else ACL_MAX_SIZE;
      var len := LittleEndian16(dataLen);
      out := buf[3 := len[0]][4 := len[1]];
      Framed(data, i == 5, out, data[i..i + dataLen]);
      var r := Record(i + ACL_MAX_SIZE >= |data|, out + data[i..i + dataLen]);
      PushRecord(r);
      assert old(queue) + ([r] + Rest(data, i + ACL_MAX_SIZE)) == (old(queue) + [r]) + Rest(data, i + ACL_MAX_SIZE);
    }
  }

  /** The fragments from byte i on, if there are any. */
  ghost function Rest(data: seq<byte>, i: nat): seq<Record>
    requires 5 <= i
  {
    if i < |data| then Pieces(data, i) else []
  }

  lemma OneRecord(r: Record)
    ensures Flat([r]) == Prefix(r) + r.bytes
  {
    assert [r][1..] == [] && Flat([]) == [];
  }

  lemma FlatEmpty(q: seq<Record>)
    ensures |Flat(q)| < 4 ==> q == []
  {
  }

  lemma Framed(data: seq<byte>, first: bool, buf: seq<byte>, chunk: seq<byte>)
    requires |data| >= 5 && |buf| == 5 && buf[..2] == data[..2] && |chunk| < 0x1_0000
    requires buf[2] == if first then data[2] else data[2] | 0x10
    requires buf[3..] == LittleEndian16(|chunk|)
    ensures buf + chunk == Frame(data, first, chunk)
  {
    hide LittleEndian16;
    assert buf[0] == buf[..2][0] == data[0] && buf[1] == buf[..2][1] == data[1];
    assert buf == [buf[0], buf[1], buf[2]] + buf[3..];
  }

  lemma PiecesStep(data: seq<byte>, i: nat)
    requires 5 <= i < |data| < END_FLAG
    ensures var k := if i + ACL_MAX_SIZE >= |data| then |data| - i else ACL_MAX_SIZE;
            var r := Record(i + ACL_MAX_SIZE >= |data|, Frame(data, i == 5, data[i..i + k]));
            && |r.bytes| < END_FLAG
            && Rest(data, i) == [r] + Rest(data, i + ACL_MAX_SIZE)
            && |Flat(Rest(data, i))| == |Flat([r])| + |Flat(Rest(data, i + ACL_MAX_SIZE))|
  {
    hide LittleEndian16, Flat, Frame;
    var k := if i + ACL_MAX_SIZE >= |data| then |data| - i else ACL_MAX_SIZE;
    var r := Record(i + ACL_MAX_SIZE >= |data|, Frame(data, i == 5, data[i..i + k]));
    FrameSize(data, i == 5, data[i..i + k]);
    assert data[i..] == data[i..|data|];
    FlatConcat([r], Rest(data, i + ACL_MAX_SIZE));
  }

  lemma FrameSize(data: seq<byte>, first: bool, chunk: seq<byte>)
    requires |data| >= 5
    ensures |Frame(data, first, chunk)| == 5 + |chunk|
  {
  }
}
