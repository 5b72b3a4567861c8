/** The L2CAP send queue: fragments as length-prefixed records, and what sending and
    completing do to the queue, to the packets in the controller and to those handed over. */
module L2capModel {
  import opened Bytes

  const ACL_MAX_SIZE: nat := 27
  const MAX_PKT_NUM: nat := 8
  const L2CAP_BUFFER_SIZE: nat := 2048 * 16
  const END_FLAG: nat := 0x8000_0000

  /** One ACL packet in the queue; last marks the end of an L2CAP packet. */
  datatype Record = Record(last: bool, bytes: seq<byte>)

  // ---- the queue as bytes ----

  function Prefix(r: Record): (p: seq<byte>)
    ensures |p| == 4
  {
    LittleEndian32(|r.bytes| + if r.last then END_FLAG else 0)
  }

  function Flat(q: seq<Record>): seq<byte> {
    if q == [] then [] else Prefix(q[0]) + q[0].bytes + Flat(q[1..])
  }

  ghost predicate Small(q: seq<Record>) {
    forall i | 0 <= i < |q| :: |q[i].bytes| < END_FLAG
  }

  lemma {:induction false} FlatConcat(a: seq<Record>, b: seq<Record>)
    ensures Flat(a + b) == Flat(a) + Flat(b)
    decreases |a|
  {
    hide Prefix;
    if a == [] {
      assert a + b == b;
    } else {
      FlatConcat(a[1..], b);
      assert (a + b)[1..] == a[1..] + b;
      Regroup(Prefix(a[0]) + a[0].bytes, Flat(a[1..]), Flat(b));
    }
  }

  lemma Regroup(a: seq<byte>, b: seq<byte>, c: seq<byte>)
    ensures a + (b + c) == (a + b) + c
  {
  }

  /** What reading the queue's bytes record by record gives; a cut-off record ends it. */
  function Parse(s: seq<byte>): seq<Record>
    decreases |s|
  {
    if |s| < 4 then []
    else
      var n := Decode32(s[..4]);
      var len := n % END_FLAG;
      if 4 + len > |s| then [] else [Record(n >= END_FLAG, s[4..4 + len])] + Parse(s[4 + len..])
  }

  lemma PrefixDecodes(r: Record)
    requires |r.bytes| < END_FLAG
    ensures var n := Decode32(Prefix(r)); (n >= END_FLAG <==> r.last) && n % END_FLAG == |r.bytes|
  {
    hide Decode32, LittleEndian32;
    Decode32Inverts(|r.bytes| + if r.last then END_FLAG else 0);
    ModFlag(|r.bytes|);
  }

  lemma ModFlag(n: nat)
    requires n < END_FLAG
    ensures n % END_FLAG == n && (n + END_FLAG) % END_FLAG == n
  {
  }

  /** The queue's bytes always parse back into the records pushed. */
  lemma {:induction false} ParseFlat(q: seq<Record>)
    requires Small(q)
    ensures Parse(Flat(q)) == q
    decreases |q|
  {
    if q != [] {
      var s, r := Flat(q), q[0];
      PrefixDecodes(r);
      assert s[..4] == Prefix(r) && s[4..4 + |r.bytes|] == r.bytes && s[4 + |r.bytes|..] == Flat(q[1..]);
      ParseFlat(q[1..]);
      hide Decode32, Prefix;
    }
  }

  // ---- fragments ----

  /** A fragment: the packet's header with the continuation bit and length of its own. */
  function Frame(data: seq<byte>, first: bool, chunk: seq<byte>): seq<byte>
    requires |data| >= 5
  {
    [data[0], data[1], if first then data[2] else data[2] | 0x10] + LittleEndian16(|chunk|) + chunk
  }

  function Pieces(data: seq<byte>, i: nat): (r: seq<Record>)
    requires 5 <= i < |data|
    ensures r != []
    decreases |data| - i
  {
    if i + ACL_MAX_SIZE >= |data| then [Record(true, Frame(data, i == 5, data[i..]))]
    else [Record(false, Frame(data, i == 5, data[i..i + ACL_MAX_SIZE]))] + Pieces(data, i + ACL_MAX_SIZE)
  }

  function Fragments(data: seq<byte>): (r: seq<Record>)
    requires |data| >= 5
    ensures r != []
  {
    if |data| - 5 <= ACL_MAX_SIZE then [Record(true, data)] else Pieces(data, 5)
  }

  // ---- the queue as records ----

  /** Number of L2CAP packets whose end is still queued. */
  function Ends(q: seq<Record>): nat {
    if q == [] then 0 else Ends(q[1..]) + if q[0].last then 1 else 0
  }

  lemma {:induction false} EndsConcat(a: seq<Record>, b: seq<Record>)
    ensures Ends(a + b) == Ends(a) + Ends(b)
    decreases |a|
  {
    if a == [] {
      assert a + b == b;
    } else {
      EndsConcat(a[1..], b);
      assert (a + b)[1..] == a[1..] + b;
    }
  }

  lemma {:induction false} PiecesEndOnce(data: seq<byte>, i: nat)
    requires 5 <= i < |data|
    ensures Ends(Pieces(data, i)) == 1
    decreases |data| - i
  {
    hide Frame;
    var p := Pieces(data, i);
    if i + ACL_MAX_SIZE < |data| {
      PiecesEndOnce(data, i + ACL_MAX_SIZE);
      assert p[1..] == Pieces(data, i + ACL_MAX_SIZE);
    }
  }

  lemma FragmentsEndOnce(data: seq<byte>)
    requires |data| >= 5
    ensures Ends(Fragments(data)) == 1
  {
    if |data| - 5 <= ACL_MAX_SIZE {
      assert Ends([]) == 0 && [Record(true, data)][1..] == [];
    } else {
      PiecesEndOnce(data, 5);
    }
  }

  function Payloads(q: seq<Record>): (r: seq<seq<byte>>)
    ensures |r| == |q|
  {
    seq(|q|, i requires 0 <= i < |q| => q[i].bytes)
  }

  /** queue waits in the host, inFlight packets are in the controller, usb is everything
      handed over so far. */
  datatype Tx = Tx(queue: seq<Record>, inFlight: nat, usb: seq<seq<byte>>)

  /** How many records can go: as many as there are, or as the controller has room for. */
  function Sendable(queued: nat, inFlight: nat): (k: nat)
    ensures k <= queued
    ensures inFlight <= MAX_PKT_NUM ==> inFlight + k <= MAX_PKT_NUM && (k == queued || inFlight + k == MAX_PKT_NUM)
    ensures inFlight >= MAX_PKT_NUM ==> k == 0
  {
    if inFlight >= MAX_PKT_NUM then 0
    else if queued < MAX_PKT_NUM - inFlight then queued else MAX_PKT_NUM - inFlight
  }

  /** Hands over records until the controller is full or the queue is empty. */
  function Drain(t: Tx): Tx {
    var k := Sendable(|t.queue|, t.inFlight);
    Tx(t.queue[k..], t.inFlight + k, t.usb + Payloads(t.queue[..k]))
  }

  function SendTx(t: Tx, data: seq<byte>): Tx
    requires |data| >= 5
  {
    Drain(t.(queue := t.queue + Fragments(data)))
  }

  function CompleteTx(t: Tx, n: nat): Tx
    requires n <= t.inFlight
  {
    Drain(t.(inFlight := t.inFlight - n))
  }

  // ---- whole runs ----

  datatype Step = Send(data: seq<byte>) | Complete(n: nat)

  ghost predicate Possible(t: Tx, steps: seq<Step>)
    decreases |steps|
  {
    steps != [] ==>
      match steps[0]
      case Send(d) => |d| >= 5 && Possible(SendTx(t, d), steps[1..])
      case Complete(n) => n <= t.inFlight && Possible(CompleteTx(t, n), steps[1..])
  }

  function After(t: Tx, steps: seq<Step>): Tx
    requires Possible(t, steps)
    decreases |steps|
  {
    if steps == [] then t
    else
      match steps[0]
      case Send(d) => After(SendTx(t, d), steps[1..])
      case Complete(n) => After(CompleteTx(t, n), steps[1..])
  }

  /** All fragments of the packets sent, in order. */
  function AllFragments(steps: seq<Step>): seq<seq<byte>> {
    if steps == [] then []
    else Sends(steps[0]) + AllFragments(steps[1..])
  }

  function Completed(steps: seq<Step>): nat {
    if steps == [] then 0 else (if steps[0].Complete? then steps[0].n else 0) + Completed(steps[1..])
  }

  ghost predicate Drained(t: Tx) {
    t.inFlight <= MAX_PKT_NUM && (t.inFlight == MAX_PKT_NUM || t.queue == [])
  }

  lemma PayloadsConcat(a: seq<Record>, b: seq<Record>)
    ensures Payloads(a + b) == Payloads(a) + Payloads(b)
  {
  }

  /** Handing over changes neither the order nor the total, and conserves packets. */
  lemma DrainConserves(t: Tx)
    requires t.inFlight <= MAX_PKT_NUM
    ensures var d := Drain(t);
            && Drained(d)
            && d.usb + Payloads(d.queue) == t.usb + Payloads(t.queue)
            && d.inFlight - |d.usb| == t.inFlight - |t.usb|
  {
    hide Sendable, Payloads;
    var k := Sendable(|t.queue|, t.inFlight);
    assert t.queue[..k] + t.queue[k..] == t.queue;
    PayloadsConcat(t.queue[..k], t.queue[k..]);
    assert |Payloads(t.queue[..k])| == k;
  }

  lemma DrainStep(t: Tx)
    requires t.inFlight < MAX_PKT_NUM && t.queue != []
    ensures Drain(t) == Drain(Tx(t.queue[1..], t.inFlight + 1, t.usb + [t.queue[0].bytes]))
  {
    hide Payloads;
    var k := Sendable(|t.queue|, t.inFlight);
    assert t.queue[1..][k - 1..] == t.queue[k..];
    PayloadsFirst(t.queue, k);
    var a, b := [t.queue[0].bytes], Payloads(t.queue[1..][..k - 1]);
    assert t.usb + (a + b) == (t.usb + a) + b;
  }

  lemma PayloadsFirst(q: seq<Record>, k: nat)
    requires 0 < k <= |q|
    ensures Payloads(q[..k]) == [q[0].bytes] + Payloads(q[1..][..k - 1])
  {
  }

  lemma DrainDone(t: Tx)
    requires t.inFlight >= MAX_PKT_NUM || t.queue == []
    ensures Drain(t) == t
  {
  }

  /** Over any run: what has been handed over, followed by what is queued, is all fragments
      in the order they were sent; the controller holds what was handed over less what it
      completed, never more than its 8; and either it is full or nothing waits. */
  lemma {:induction false} RunConserves(t: Tx, steps: seq<Step>)
    requires Possible(t, steps) && Drained(t)
    ensures var e := After(t, steps);
            && Drained(e)
            && e.usb + Payloads(e.queue) == t.usb + Payloads(t.queue) + AllFragments(steps)
            && e.inFlight + Completed(steps) - |e.usb| == t.inFlight - |t.usb|
    decreases |steps|
  {
    hide Drain, Fragments, Payloads, Drained;
    if steps != [] {
      var u := StepConserves(t, steps[0]);
      RunConserves(u, steps[1..]);
      var before, now := t.usb + Payloads(t.queue), Sends(steps[0]);
      assert before + (now + AllFragments(steps[1..])) == (before + now) + AllFragments(steps[1..]);
    }
  }

  /** The fragments a step adds. */
  function Sends(step: Step): seq<seq<byte>> {
    if step.Send? && |step.data| >= 5 then Payloads(Fragments(step.data)) else []
  }

  lemma StepConserves(t: Tx, step: Step) returns (u: Tx)
    requires Drained(t) && (if step.Send? then |step.data| >= 5 else step.n <= t.inFlight)
    ensures u == if step.Send? then SendTx(t, step.data) else CompleteTx(t, step.n)
    ensures Drained(u) && u.usb + Payloads(u.queue) == t.usb + Payloads(t.queue) + Sends(step)
    ensures u.inFlight + (if step.Complete? then step.n else 0) - |u.usb| == t.inFlight - |t.usb|
  {
    hide Drain, Fragments, Payloads;
    var m := t.(inFlight := if step.Complete? then t.inFlight - step.n else t.inFlight);
    if step.Send? {
      m := m.(queue := t.queue + Fragments(step.data));
      PayloadsConcat(t.queue, Fragments(step.data));
      assert t.usb + (Payloads(t.queue) + Sends(step)) == t.usb + Payloads(t.queue) + Sends(step);
    }
    DrainConserves(m);
    u := Drain(m);
  }
}
