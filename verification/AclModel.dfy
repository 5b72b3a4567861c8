/** Reassembly of L2CAP packets from ACL packets, as a function of the packets received. */
module AclModel {
  import opened Bytes

  const ATT_MAX_MTU: nat := 247

  /** Packet-boundary flag of an ACL packet's third byte. */
  function Boundary(b: byte): byte {
    (b >> 4) & 3
  }

  const FIRST: byte := 2
  const CONTINUING: byte := 1

  /** An ACL packet whose length field is right, and whose first fragment is long enough to
      hold the L2CAP header. The boundary flag is one of the two a controller sends. */
  ghost predicate Acl(p: seq<byte>) {
    && |p| >= 5 && Decode16(p[3..5]) == |p| - 5
    && (Boundary(p[2]) == CONTINUING || (Boundary(p[2]) == FIRST && |p| >= 9))
  }

  /** got is the packet so far with its header, remain the number of bytes still to come. */
  datatype Rx = Rx(remain: nat, got: seq<byte>, delivered: seq<seq<byte>>)

  function Finish(s: Rx): Rx {
    if s.remain > 0 then s else s.(delivered := s.delivered + [s.got])
  }

  function ReceiveFirst(s: Rx, p: seq<byte>): Rx
    requires |p| >= 9
  {
    if |p| - 5 > ATT_MAX_MTU + 4 then s
    else
      var total: nat := Decode16(p[5..7]);
      Finish(Rx((total - (|p| - 9)) % 0x1_0000, p[..3] + LittleEndian16(total + 4) + p[5..], s.delivered))
  }

  function ReceiveNext(s: Rx, p: seq<byte>): Rx
    requires |p| >= 5
  {
    if s.remain < |p| - 5 then s.(remain := 0)
    else Finish(Rx(s.remain - (|p| - 5), s.got + p[5..], s.delivered))
  }

  function Receive(s: Rx, p: seq<byte>): Rx
    requires |p| >= 5 && (Boundary(p[2]) == FIRST ==> |p| >= 9)
  {
    if Boundary(p[2]) == FIRST then ReceiveFirst(s, p) else ReceiveNext(s, p)
  }

  /** The buffer has room for whatever the packet makes the receiver append. */
  ghost predicate Room(s: Rx, p: seq<byte>)
    requires |p| >= 5
  {
    Boundary(p[2]) == CONTINUING && s.remain >= |p| - 5 ==> |s.got| + |p| - 5 <= ATT_MAX_MTU + 9
  }

  /** Every packet can be received when its turn comes. */
  ghost predicate Receivable(s: Rx, ps: seq<seq<byte>>)
    decreases |ps|
  {
    ps != [] ==> Acl(ps[0]) && Room(s, ps[0]) && Receivable(Receive(s, ps[0]), ps[1..])
  }

  ghost function ReceiveAll(s: Rx, ps: seq<seq<byte>>): Rx
    requires Receivable(s, ps)
    decreases |ps|
  {
    if ps == [] then s else ReceiveAll(Receive(s, ps[0]), ps[1..])
  }

  lemma {:induction false} ReceiveConcat(s: Rx, a: seq<seq<byte>>, b: seq<seq<byte>>)
    ensures Receivable(s, a + b) <==> Receivable(s, a) && Receivable(ReceiveAll(s, a), b)
    ensures Receivable(s, a + b) ==> ReceiveAll(s, a + b) == ReceiveAll(ReceiveAll(s, a), b)
    decreases |a|
  {
    hide Receive, Acl, Room;
    if a == [] {
      assert a + b == b;
    } else {
      assert (a + b)[1..] == a[1..] + b;
      if Acl(a[0]) {
        AclWide(a[0]);
        ReceiveConcat(Receive(s, a[0]), a[1..], b);
      }
    }
  }

  lemma AclWide(p: seq<byte>)
    requires Acl(p)
    ensures |p| >= 5 && (Boundary(p[2]) == FIRST ==> |p| >= 9)
  {
  }

  /** What has been delivered stays delivered. */
  lemma {:induction false} DeliveredGrows(s: Rx, ps: seq<seq<byte>>)
    requires Receivable(s, ps)
    ensures s.delivered <= ReceiveAll(s, ps).delivered
    decreases |ps|
  {
    if ps != [] {
      DeliveredGrows(Receive(s, ps[0]), ps[1..]);
      hide Boundary;
    }
  }
}
