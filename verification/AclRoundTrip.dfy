/** From one host's send queue to the other's reassembly buffer. */
module AclRoundTrip {
  import opened AclBits
  import opened AclModel
  import opened Bytes
  import opened L2capModel

  /** An outgoing L2CAP packet: ACL header with the boundary flag of a host's first
      fragment, ACL length, L2CAP length. */
  ghost predicate Pdu(d: seq<byte>) {
    && 9 <= |d| <= ATT_MAX_MTU + 9
    && Boundary(d[2]) == 0
    && d[3..5] == LittleEndian16(|d| - 5) && d[5..7] == LittleEndian16(|d| - 9)
  }

  /** What the controllers make of a host's packet: first fragments change flag. */
  function Rewrite(p: seq<byte>): (r: seq<byte>)
    ensures |r| == |p|
  {
    if |p| >= 3 && Boundary(p[2]) == 0 then p[2 := p[2] | 0x20] else p
  }

  function RewriteAll(ps: seq<seq<byte>>): (r: seq<seq<byte>>)
    ensures |r| == |ps|
  {
    seq(|ps|, i requires 0 <= i < |ps| => Rewrite(ps[i]))
  }

  lemma RewriteConcat(a: seq<seq<byte>>, b: seq<seq<byte>>)
    ensures RewriteAll(a + b) == RewriteAll(a) + RewriteAll(b)
  {
  }

  /** The state in which i bytes of packet e have come. */
  function Partway(e: seq<byte>, i: nat, delivered: seq<seq<byte>>): Rx
    requires i <= |e|
  {
    Rx(|e| - i, e[..i], delivered)
  }

  lemma FirstWhole(s: Rx, d: seq<byte>)
    requires Pdu(d)
    ensures var p := Rewrite(d);
            Acl(p) && Room(s, p) && Receive(s, p) == Rx(0, p, s.delivered + [p])
  {
    hide Decode16, LittleEndian16;
    Rewritten(d[2]);
    Decode16Inverts(|d| - 5);
    Decode16Inverts(|d| - 9);
    var p := Rewrite(d);
    assert p[3..5] == d[3..5] && p[5..7] == d[5..7] && p[..3] + d[3..5] + p[5..] == p;
  }

  /** The first fragment of several, after the controllers. */
  lemma FirstFrame(d: seq<byte>)
    requires Pdu(d) && |d| > 5 + ACL_MAX_SIZE
    ensures var e, p := Rewrite(d), Rewrite(Frame(d, true, d[5..5 + ACL_MAX_SIZE]));
            && p == e[..3] + LittleEndian16(ACL_MAX_SIZE) + d[5..5 + ACL_MAX_SIZE]
            && Boundary(e[2]) == FIRST && e[3..] == d[3..]
  {
    hide LittleEndian16;
    Rewritten(d[2]);
  }

  lemma FirstParts(h: seq<byte>, l: seq<byte>, c: seq<byte>)
    requires |h| == 3 && |l| == 2 && |c| >= 2
    ensures var p := h + l + c;
            p[..3] == h && p[3..5] == l && p[5..7] == c[..2] && p[5..] == c && p[2] == h[2]
  {
  }

  lemma FirstOfMany(s: Rx, d: seq<byte>)
    requires Pdu(d) && |d| > 5 + ACL_MAX_SIZE
    ensures var p := Rewrite(Frame(d, true, d[5..5 + ACL_MAX_SIZE]));
            Acl(p) && Room(s, p) && Receive(s, p) == Partway(Rewrite(d), 5 + ACL_MAX_SIZE, s.delivered)
  {
    hide Decode16, LittleEndian16, Rewrite, Frame, Boundary;
    Decode16Inverts(ACL_MAX_SIZE);
    Decode16Inverts(|d| - 9);
    FirstFrame(d);
    var e, c, n := Rewrite(d), d[5..5 + ACL_MAX_SIZE], 5 + ACL_MAX_SIZE;
    FirstParts(e[..3], LittleEndian16(ACL_MAX_SIZE), c);
    assert c[..2] == d[5..7];
    assert e[..3] + LittleEndian16(|d| - 5) + c == e[..n] by {
      HeaderParts(e, d, n);
    }
  }

  lemma HeaderParts(e: seq<byte>, d: seq<byte>, n: nat)
    requires 5 <= n <= |d| == |e| && e[3..] == d[3..]
    ensures e[..3] + d[3..5] + d[5..n] == e[..n]
  {
    Slice(d, 3, 0, 2);
    Slice(e, 3, 0, 2);
    Slice(d, 3, 2, n - 3);
    Slice(e, 3, 2, n - 3);
    assert e[..n] == e[..3] + e[3..5] + e[5..n];
  }

  lemma Slice(s: seq<byte>, a: nat, lo: nat, hi: nat)
    requires a <= |s| && lo <= hi <= |s| - a
    ensures s[a..][lo..hi] == s[a + lo..a + hi]
  {
  }

  lemma NextOfMany(d: seq<byte>, i: nat, k: nat, delivered: seq<seq<byte>>)
    requires Pdu(d) && 5 < i && i + k <= |d| && 0 < k <= ACL_MAX_SIZE
    ensures var p := Rewrite(Frame(d, false, d[i..i + k]));
            var s := Partway(Rewrite(d), i, delivered);
            Acl(p) && Room(s, p) && Receive(s, p) == Finish(Partway(Rewrite(d), i + k, delivered))
  {
    hide Decode16, LittleEndian16;
    Continued(d[2]);
    Decode16Inverts(k);
    var e, p := Rewrite(d), Rewrite(Frame(d, false, d[i..i + k]));
    assert p[3..5] == LittleEndian16(k) && p[5..] == d[i..i + k] == e[i..i + k];
    assert e[..i] + e[i..i + k] == e[..i + k];
  }

  lemma {:induction false} RestReassembles(d: seq<byte>, i: nat, delivered: seq<seq<byte>>)
    requires Pdu(d) && 5 < i < |d|
    ensures var ps := RewriteAll(Payloads(Pieces(d, i)));
            var s := Partway(Rewrite(d), i, delivered);
            Receivable(s, ps) && ReceiveAll(s, ps) == Rx(0, Rewrite(d), delivered + [Rewrite(d)])
    decreases |d| - i
  {
    hide Frame, Rewrite, Receive, Acl, Room, Boundary, LittleEndian16;
    var k := if i + ACL_MAX_SIZE >= |d| then |d| - i else ACL_MAX_SIZE;
    var ps, e := RewriteAll(Payloads(Pieces(d, i))), Rewrite(d);
    NextOfMany(d, i, k, delivered);
    assert d[i..] == d[i..|d|];
    assert Pieces(d, i)[0].bytes == Frame(d, false, d[i..i + k]);
    if i + k < |d| {
      RestReassembles(d, i + k, delivered);
      assert ps[1..] == RewriteAll(Payloads(Pieces(d, i + k)));
    } else {
      assert ps[1..] == [] && e[..|d|] == e;
    }
  }

  /** Whatever the receiver was doing, the fragments of a packet become that packet. */
  lemma Reassembles(s: Rx, d: seq<byte>)
    requires Pdu(d)
    ensures var ps := RewriteAll(Payloads(Fragments(d)));
            Receivable(s, ps) && ReceiveAll(s, ps) == Rx(0, Rewrite(d), s.delivered + [Rewrite(d)])
  {
    hide Frame, Rewrite, Receive, Acl, Room, Boundary, LittleEndian16;
    var ps := RewriteAll(Payloads(Fragments(d)));
    if |d| - 5 <= ACL_MAX_SIZE {
      FirstWhole(s, d);
      assert ps[0] == Rewrite(d) && ps[1..] == [];
    } else {
      FirstOfMany(s, d);
      RestReassembles(d, 5 + ACL_MAX_SIZE, s.delivered);
      assert Pieces(d, 5)[0].bytes == Frame(d, true, d[5..5 + ACL_MAX_SIZE]);
      assert ps[1..] == RewriteAll(Payloads(Pieces(d, 5 + ACL_MAX_SIZE)));
    }
  }

  // ---- whole runs ----

  /** The packet a step sends. */
  function PacketOf(step: Step): seq<seq<byte>> {
    if step.Send? && |step.data| >= 5 then [step.data] else []
  }

  /** The packets a run sends. */
  function Sent(steps: seq<Step>): seq<seq<byte>> {
    if steps == [] then [] else PacketOf(steps[0]) + Sent(steps[1..])
  }

  ghost predicate AllPdus(steps: seq<Step>) {
    forall i | 0 <= i < |steps| && steps[i].Send? :: Pdu(steps[i].data)
  }

  lemma StepReassembles(s: Rx, step: Step)
    requires step.Send? ==> Pdu(step.data)
    ensures var ps := RewriteAll(Sends(step));
            Receivable(s, ps) && ReceiveAll(s, ps).delivered == s.delivered + RewriteAll(PacketOf(step))
  {
    hide Frame, Rewrite, Receive, Acl, Room, Fragments, LittleEndian16, Boundary;
    if step.Send? {
      Reassembles(s, step.data);
      assert RewriteAll([step.data]) == [Rewrite(step.data)];
    }
  }

  /** Everything a run sends arrives, whole, unmixed and in order. */
  lemma {:induction false} AllReassemble(s: Rx, steps: seq<Step>)
    requires AllPdus(steps)
    ensures var ps := RewriteAll(AllFragments(steps));
            Receivable(s, ps) && ReceiveAll(s, ps).delivered == s.delivered + RewriteAll(Sent(steps))
    decreases |steps|
  {
    hide Receivable, ReceiveAll, Pdu, Sends, PacketOf, RewriteAll;
    if steps == [] {
      NothingArrives(s);
    } else {
      var now, later := RewriteAll(Sends(steps[0])), RewriteAll(AllFragments(steps[1..]));
      StepReassembles(s, steps[0]);
      AllReassemble(ReceiveAll(s, now), steps[1..]);
      RewriteConcat(Sends(steps[0]), AllFragments(steps[1..]));
      ReceiveConcat(s, now, later);
      RewriteConcat(PacketOf(steps[0]), Sent(steps[1..]));
      var a, b := RewriteAll(PacketOf(steps[0])), RewriteAll(Sent(steps[1..]));
      assert s.delivered + (a + b) == (s.delivered + a) + b;
    }
  }

  lemma NothingArrives(s: Rx)
    ensures RewriteAll([]) == [] && Receivable(s, []) && ReceiveAll(s, []) == s
  {
  }

  /** End to end, at any point of any run: the receiver can take every packet the sender has
      handed over, and has delivered, in order, a first part of what was sent, and all of it
      once the queue is empty. */
  lemma EndToEnd(s: Rx, steps: seq<Step>)
    requires Possible(Tx([], 0, []), steps) && AllPdus(steps)
    ensures var e := After(Tx([], 0, []), steps);
            var ps := RewriteAll(e.usb);
            && Receivable(s, ps)
            && ReceiveAll(s, ps).delivered <= s.delivered + RewriteAll(Sent(steps))
            && (e.queue == [] ==> ReceiveAll(s, ps).delivered == s.delivered + RewriteAll(Sent(steps)))
  {
    hide Frame, Rewrite, Receive, Acl, Room, Pdu, Fragments, Possible, After, AllFragments, Sent, Receivable,
         ReceiveAll;
    var e := After(Tx([], 0, []), steps);
    assert Drained(Tx([], 0, [])) && Payloads([]) == [] && RewriteAll([]) == [];
    RunConserves(Tx([], 0, []), steps);
    AllReassemble(s, steps);
    assert e.usb + Payloads(e.queue) == AllFragments(steps);
    RewriteConcat(e.usb, Payloads(e.queue));
    ReceiveConcat(s, RewriteAll(e.usb), RewriteAll(Payloads(e.queue)));
    DeliveredGrows(ReceiveAll(s, RewriteAll(e.usb)), RewriteAll(Payloads(e.queue)));
    if e.queue == [] {
      assert e.usb == AllFragments(steps);
    }
  }
}
