/** What keeps the reassembly buffer from overflowing: the length a first fragment announces. */
module AclRoom {
  import opened Bytes
  import opened AclModel

  /** The buffer holds what is there and what is still to come. */
  predicate Roomy(s: Rx) {
    |s.got| + s.remain <= ATT_MAX_MTU + 9
  }

  ghost predicate Continuations(ps: seq<seq<byte>>) {
    forall i :: 0 <= i < |ps| ==> Acl(ps[i]) && Boundary(ps[i][2]) == CONTINUING
  }

  lemma NextRoomy(s: Rx, p: seq<byte>)
    requires Acl(p) && Boundary(p[2]) == CONTINUING && Roomy(s)
    ensures Room(s, p) && Roomy(Receive(s, p))
  {
    hide Boundary, Decode16;
  }

  lemma {:induction false} RoomyRun(s: Rx, ps: seq<seq<byte>>)
    requires Continuations(ps) && Roomy(s)
    ensures Receivable(s, ps)
    decreases |ps|
  {
    hide Boundary, Room, Receive, Acl;
    if ps != [] {
      AclWide(ps[0]);
      NextRoomy(s, ps[0]);
      RoomyRun(Receive(s, ps[0]), ps[1..]);
    }
  }

  /** A continuing fragment with n bytes. */
  function Continuation(n: nat): (p: seq<byte>)
    requires n < 0x1_0000
    ensures |p| == n + 5
  {
    [2, 0, 0x10] + LittleEndian16(n) + Zeros(n)
  }

  lemma ContinuationIs(n: nat)
    requires n < 0x1_0000
    ensures Acl(Continuation(n)) && Boundary(Continuation(n)[2]) == CONTINUING
  {
    var p := Continuation(n);
    assert p[3..5] == LittleEndian16(n);
    Decode16Inverts(n);
    hide LittleEndian16, Zeros, Decode16;
    TopBits();
  }

  lemma TopBits()
    ensures Boundary(0x10) == CONTINUING
  {
  }

  /** Whatever continuing fragments come, the buffer does not overflow, if and only if it holds
      what is there and what is still to come. */
  lemma StaysWithinIff(s: Rx)
    requires s.remain < 0x1_0000
    ensures (forall ps: seq<seq<byte>> :: Continuations(ps) ==> Receivable(s, ps)) <==> Roomy(s)
  {
    if Roomy(s) {
      forall ps: seq<seq<byte>> | Continuations(ps) ensures Receivable(s, ps) {
        RoomyRun(s, ps);
      }
    } else {
      hide Boundary, Acl, Continuation, Receive;
      ContinuationIs(s.remain);
      var ps := [Continuation(s.remain)];
      assert Continuations(ps) && !Receivable(s, ps);
    }
  }

  /** A first fragment that is dropped, or announces no less than it carries and no more than
      the receiver's MTU. */
  predicate Modest(p: seq<byte>)
    requires |p| >= 9
  {
    |p| - 5 > ATT_MAX_MTU + 4 || |p| - 9 <= Decode16(p[5..7]) <= ATT_MAX_MTU
  }

  /** After a first fragment the buffer is safe if and only if the fragment is modest. */
  lemma FirstRoomyIff(s: Rx, p: seq<byte>)
    requires Acl(p) && Boundary(p[2]) == FIRST && Roomy(s)
    ensures Roomy(Receive(s, p)) <==> Modest(p)
  {
    Decode16Below(p[5..7]);
    hide Boundary, Decode16, LittleEndian16;
    RemainIs(Decode16(p[5..7]), |p| - 9);
  }

  lemma RemainIs(total: nat, n: nat)
    requires total < 0x1_0000 && n < 0x1_0000
    ensures (total - n) % 0x1_0000 == if n <= total then total - n else total - n + 0x1_0000
  {
  }

  lemma Decode16Below(b: seq<byte>)
    requires |b| == 2
    ensures Decode16(b) < 0x1_0000
  {
  }

  /** So any sequence of packets in which every first fragment is modest can be received. */
  lemma {:induction false} ModestRun(s: Rx, ps: seq<seq<byte>>)
    requires Roomy(s)
    requires forall i :: 0 <= i < |ps| ==> Acl(ps[i]) && (Boundary(ps[i][2]) == FIRST ==> Modest(ps[i]))
    ensures Receivable(s, ps) && Roomy(ReceiveAll(s, ps))
    decreases |ps|
  {
    if ps != [] {
      AclWide(ps[0]);
      if Boundary(ps[0][2]) == FIRST {
        FirstRoomyIff(s, ps[0]);
        FirstHasRoom(s, ps[0]);
      } else {
        NextRoomy(s, ps[0]);
      }
      ModestRun(Receive(s, ps[0]), ps[1..]);
    }
    hide Boundary, Acl, Receive, Room;
  }

  lemma FirstHasRoom(s: Rx, p: seq<byte>)
    requires Acl(p) && Boundary(p[2]) == FIRST
    ensures Room(s, p)
  {
  }
}
