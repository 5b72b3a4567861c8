/** What the receiver delivers whatever arrives: packets whose lengths are right, and nothing
    of a packet that got too many bytes. */
module AclFraming {
  import opened Bytes
  import opened AclModel

  /** A delivered packet: both its lengths say how long it is. */
  ghost predicate Framed(q: seq<byte>) {
    |q| >= 9 && Decode16(q[3..5]) == |q| - 5 && Decode16(q[5..7]) == |q| - 9
  }

  /** What is there and what is to come make a packet whose lengths are right; or nothing is to
      come any more. */
  ghost predicate Filling(s: Rx) {
    s.remain > 0 ==>
      && |s.got| >= 9
      && Decode16(s.got[5..7]) + 4 == Decode16(s.got[3..5]) == |s.got| - 5 + s.remain
  }

  /** A first fragment that carries no more than it announces, of a packet shorter than the
      length field can say. */
  predicate Honest(p: seq<byte>)
    requires |p| >= 9
  {
    |p| - 9 <= Decode16(p[5..7]) <= 0xFFFF - 4
  }

  /** A continuing fragment that carries something, or a first fragment that is honest. */
  ghost predicate Sensible(p: seq<byte>) {
    Acl(p) && if Boundary(p[2]) == FIRST then Honest(p) else |p| > 5
  }

  lemma FirstFills(s: Rx, p: seq<byte>)
    requires Acl(p) && |p| >= 9 && Honest(p) && Filling(s)
    ensures var t := ReceiveFirst(s, p);
            && Filling(t) && s.delivered <= t.delivered
            && forall i :: |s.delivered| <= i < |t.delivered| ==> Framed(t.delivered[i])
  {
    hide Decode16, LittleEndian16, Boundary;
    var total: nat := Decode16(p[5..7]);
    var got := p[..3] + LittleEndian16(total + 4) + p[5..];
    Decode16Inverts(total + 4);
    assert got[3..5] == LittleEndian16(total + 4) && got[5..7] == p[5..7];
    assert (total - (|p| - 9)) % 0x1_0000 == total - (|p| - 9) by { SmallRest(total, |p| - 9); }
  }

  lemma SmallRest(total: nat, n: nat)
    requires n <= total < 0x1_0000
    ensures (total - n) % 0x1_0000 == total - n
  {
  }

  lemma NextFills(s: Rx, p: seq<byte>)
    requires |p| > 5 && Filling(s)
    ensures var t := ReceiveNext(s, p);
            && Filling(t) && s.delivered <= t.delivered
            && forall i :: |s.delivered| <= i < |t.delivered| ==> Framed(t.delivered[i])
  {
    hide Decode16;
    if s.remain >= |p| - 5 {
      var got := s.got + p[5..];
      assert got[5..7] == s.got[5..7] && got[3..5] == s.got[3..5];
    }
  }

  /** Whatever fragments arrive, and however they are mixed, what is delivered has both its
      lengths right. */
  lemma {:induction false} DeliversFramed(s: Rx, ps: seq<seq<byte>>)
    requires Filling(s) && Receivable(s, ps) && forall i :: 0 <= i < |ps| ==> Sensible(ps[i])
    ensures var t := ReceiveAll(s, ps);
            && s.delivered <= t.delivered
            && forall i :: |s.delivered| <= i < |t.delivered| ==> Framed(t.delivered[i])
    decreases |ps|
  {
    hide Filling, Framed, ReceiveFirst, ReceiveNext, Boundary, Honest;
    if ps != [] {
      var u := Receive(s, ps[0]);
      assert Sensible(ps[0]);
      if Boundary(ps[0][2]) == FIRST {
        FirstFills(s, ps[0]);
      } else {
        NextFills(s, ps[0]);
      }
      DeliversFramed(u, ps[1..]);
    }
  }

  /** A packet that got more bytes than it announced is given up: what continues it is not
      delivered. */
  lemma {:induction false} GivesUp(s: Rx, p: seq<byte>, ps: seq<seq<byte>>)
    requires Acl(p) && Boundary(p[2]) == CONTINUING && |p| - 5 > s.remain
    requires forall i :: 0 <= i < |ps| ==> Acl(ps[i]) && Boundary(ps[i][2]) == CONTINUING && |ps[i]| > 5
    ensures Receivable(s, [p] + ps) && ReceiveAll(s, [p] + ps).delivered == s.delivered
    decreases |ps|
  {
    hide Boundary, Decode16;
    var all := [p] + ps;
    assert all[1..] == ps;
    var t := Receive(s, p);
    assert t == s.(remain := 0);
    if ps != [] {
      GivesUp(t, ps[0], ps[1..]);
      assert [ps[0]] + ps[1..] == ps;
    }
  }

  /** A first fragment with more than 251 bytes of data is ignored; any other starts a packet
      anew, with its own bytes behind a header whose length is that of the whole packet. */
  lemma FirstTaken(s: Rx, p: seq<byte>)
    requires Acl(p) && Boundary(p[2]) == FIRST
    ensures |p| > 256 ==> Receive(s, p) == s
    ensures |p| <= 256 ==>
              var t := Receive(s, p);
              && |t.got| == |p| && t.got[..3] == p[..3] && t.got[5..] == p[5..]
              && var total := Decode16(p[5..7]) + 4;
              t.got[3] as int == total % 256 && t.got[4] as int == total / 256 % 256
  {
    hide Boundary, Decode16, ToByte;
  }
}
