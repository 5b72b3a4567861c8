/** How a packet is cut: the number of fragments, and every fragment byte by byte. */
module L2capFragments {
  import opened Bytes
  import opened L2capModel

  /** As many fragments as there are 27 bytes, the last perhaps incomplete, and one at least. */
  function Number(data: seq<byte>): (n: nat)
    requires |data| >= 5
    ensures n >= 1
  {
    if |data| <= 32 then 1 else (|data| - 5 + 26) / 27
  }

  /** f is fragment i of n: 27 bytes of the packet, or the rest of them, behind a header of its
      own, which says continuation except in the first. */
  ghost predicate IsFragment(data: seq<byte>, f: Record, i: nat, n: nat)
    requires |data| >= 5
  {
    var from := 5 + 27 * i;
    var to := if i + 1 < n then from + 27 else |data|;
    && from <= to <= |data| && to - from <= 27
    && |f.bytes| == 5 + (to - from) && (f.last <==> i + 1 == n)
    && f.bytes[0] == data[0] && f.bytes[1] == data[1]
    && f.bytes[2] == (if i == 0 then data[2] else data[2] | 0x10)
    && f.bytes[5..] == data[from..to]
    && (if n == 1 then f.bytes == data else f.bytes[3] as int == to - from && f.bytes[4] == 0)
  }

  lemma FrameIs(data: seq<byte>, first: bool, chunk: seq<byte>)
    requires |data| >= 5 && |chunk| < 0x100
    ensures var f := Frame(data, first, chunk);
            && |f| == 5 + |chunk| && f[0] == data[0] && f[1] == data[1]
            && f[2] == (if first then data[2] else data[2] | 0x10)
            && f[5..] == chunk && f[3] as int == |chunk| && f[4] == 0
  {
    hide ToByte;
    ZeroByte();
  }

  lemma ZeroByte()
    ensures ToByte(0) == 0
  {
  }

  lemma Rounds(len: nat)
    requires len > 0
    ensures len > 27 ==> (len + 26) / 27 == (len - 27 + 26) / 27 + 1
    ensures len <= 27 ==> (len + 26) / 27 == 1
  {
  }

  /** From byte i on, which starts fragment k. */
  lemma {:induction false} PiecesAre(data: seq<byte>, i: nat, k: nat)
    requires 5 <= i < |data| && i == 5 + 27 * k
    ensures var p := Pieces(data, i);
            && |p| == (|data| - i + 26) / 27
            && (k + |p| >= 2 ==> forall j :: 0 <= j < |p| ==> IsFragment(data, p[j], k + j, k + |p|))
    decreases |data| - i
  {
    hide Frame;
    var p, n := Pieces(data, i), (|data| - i + 26) / 27;
    Rounds(|data| - i);
    if i + 27 >= |data| {
      FrameIs(data, i == 5, data[i..]);
    } else {
      PiecesAre(data, i + 27, k + 1);
      var rest := Pieces(data, i + 27);
      FrameIs(data, i == 5, data[i..i + 27]);
      forall j | 0 <= j < |p| ensures IsFragment(data, p[j], k + j, k + |p|) {
        if j > 0 {
          assert p[j] == rest[j - 1];
        }
      }
    }
  }

  /** Every packet is cut into that many fragments, and those are they. */
  lemma FragmentsAre(data: seq<byte>)
    requires |data| >= 5
    ensures var p := Fragments(data);
            |p| == Number(data) && forall i :: 0 <= i < |p| ==> IsFragment(data, p[i], i, |p|)
  {
    hide Pieces, IsFragment;
    if |data| > 32 {
      PiecesAre(data, 5, 0);
      Several(|data| - 5);
    } else {
      Whole(data);
    }
  }

  lemma Whole(data: seq<byte>)
    requires 5 <= |data| <= 32
    ensures Fragments(data) == [Record(true, data)] && IsFragment(data, Record(true, data), 0, 1)
  {
  }

  lemma Several(len: nat)
    requires len > 27
    ensures (len + 26) / 27 >= 2
  {
  }

  // ---- runs ----

  lemma {:induction false} FragmentsSmall(steps: seq<Step>)
    ensures forall i :: 0 <= i < |AllFragments(steps)| ==> |AllFragments(steps)[i]| <= 32
    decreases |steps|
  {
    if steps != [] {
      FragmentsSmall(steps[1..]);
      if steps[0].Send? && |steps[0].data| >= 5 {
        StepSmall(steps[0].data);
      }
      hide Fragments, Payloads;
    }
  }

  lemma StepSmall(data: seq<byte>)
    requires |data| >= 5
    ensures var p := Payloads(Fragments(data)); forall i :: 0 <= i < |p| ==> |p[i]| <= 32
  {
    FragmentsAre(data);
    var p := Fragments(data);
    forall i | 0 <= i < |p| ensures |p[i].bytes| <= 32 {
      assert IsFragment(data, p[i], i, |p|);
    }
    hide Fragments, IsFragment;
  }

  /** Over any run from an empty sender no packet handed over is longer than 32 bytes, and at
      most 8 are in flight. */
  lemma RunSmall(steps: seq<Step>)
    requires Possible(Tx([], 0, []), steps)
    ensures var e := After(Tx([], 0, []), steps);
            && (forall i :: 0 <= i < |e.usb| ==> |e.usb[i]| <= 32)
            && e.inFlight <= 8 && (e.inFlight == 8 || e.queue == [])
  {
    hide After, Possible;
    var t := Tx([], 0, []);
    RunConserves(t, steps);
    FragmentsSmall(steps);
    var e := After(t, steps);
    assert t.usb + Payloads(t.queue) + AllFragments(steps) == AllFragments(steps);
    forall i | 0 <= i < |e.usb| ensures |e.usb[i]| <= 32 {
      assert e.usb[i] == (e.usb + Payloads(e.queue))[i] == AllFragments(steps)[i];
    }
    hide AllFragments, Payloads;
  }
}
