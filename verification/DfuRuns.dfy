/** Whole runs of the update: what can never happen, and why every run gets done. */
module DfuRuns {
  import opened Bytes
  import opened DfuModel
  import opened DfuControl
  import opened DfuSystem

  function Do(src: Source, s: Sys, t: Step): Sys
    requires Inv(src, s) && Enabled(s, t)
  {
    match t
    case ToPeer => DeliverToPeer(s)
    case ToClient => DeliverToClient(src, s)
    case Grant(n) => GrantCredits(src, s, n)
  }

  lemma DoKeeps(src: Source, s: Sys, t: Step)
    requires Inv(src, s) && Enabled(s, t)
    ensures Inv(src, Do(src, s, t))
  {
    hide Inv;
    match t
    case ToPeer => ToPeerKeeps(src, s);
    case ToClient => ToClientKeeps(src, s);
    case Grant(n) => GrantKeeps(src, s, n);
  }

  /** The steps can be taken one after the other. */
  ghost predicate Possible(src: Source, s: Sys, steps: seq<Step>)
    requires Inv(src, s)
    decreases |steps|
  {
    steps != [] ==>
      && Enabled(s, steps[0])
      && (DoKeeps(src, s, steps[0]); Possible(src, Do(src, s, steps[0]), steps[1..]))
  }

  ghost function After(src: Source, s: Sys, steps: seq<Step>): (e: Sys)
    requires Inv(src, s) && Possible(src, s, steps)
    ensures Inv(src, e)
    decreases |steps|
  {
    if steps == [] then s
    else
      DoKeeps(src, s, steps[0]);
      After(src, Do(src, s, steps[0]), steps[1..])
  }

  ghost predicate Ready(src: Source, c: Client, p: Peer, mtu: nat, credits: nat, prn: nat) {
    && src.Good() && mtu >= 23 && credits < 128 && prn < 256
    && c.state == Idle && p.offset < WORD
    && Fresh(src, Command, p.offset, p.crc as int) && FreshImage(src)
  }

  /** An idle client, after whatever updates, starts one with a peer left over from anything. */
  ghost function Begin(src: Source, c: Client, p: Peer, mtu: nat, credits: nat, prn: nat): (s: Sys)
    requires Ready(src, c, p, mtu, credits, prn)
    ensures Inv(src, s)
  {
    var e := Start(c, mtu, credits, prn);
    BeginInv(src, c, p, mtu, credits, prn);
    Sys(e, p, New(c, e), [], Ends(c.events), p.executed, src.command)
  }

  lemma BeginInv(src: Source, c: Client, p: Peer, mtu: nat, credits: nat, prn: nat)
    requires Ready(src, c, p, mtu, credits, prn)
    ensures var e := Start(c, mtu, credits, prn);
            c.sent <= e.sent && Inv(src, Sys(e, p, New(c, e), [], Ends(c.events), p.executed, src.command))
  {
    hide Fresh;
    var d := c.(cur := Command, prn := prn, credits := credits, sendLen := Min(mtu - 3, MAX_DFU_SEND_SIZE));
    SelectPhase(src, Sys(d, p, [], [], Ends(c.events), p.executed, src.command));
    assert [] + New(d, StSelect(d)) == New(c, StSelect(d));
  }

  /** In every run of an update, whatever came before it, the only status it ever reports is
      success, at most once, and it is reported only after the peer has executed exactly the
      command object and then exactly the image. */
  lemma Safety(src: Source, c: Client, p: Peer, mtu: nat, credits: nat, prn: nat, steps: seq<Step>)
    requires Ready(src, c, p, mtu, credits, prn)
    requires Possible(src, Begin(src, c, p, mtu, credits, prn), steps)
    ensures var e := After(src, Begin(src, c, p, mtu, credits, prn), steps);
            && Ends(e.c.events) == Ends(c.events) + (if e.c.state == Idle then [DFU_SUCCESS] else [])
            && (e.c.state == Idle ==> e.p.executed == p.executed + [src.command, src.image])
            && p.executed <= e.p.executed <= p.executed + [src.command, src.image]
  {
    Lasting(src, Begin(src, c, p, mtu, credits, prn), steps);
    Outcome(src, After(src, Begin(src, c, p, mtu, credits, prn), steps));
  }

  /** What was reported and executed before the update is not forgotten. */
  lemma {:induction false} Lasting(src: Source, s: Sys, steps: seq<Step>)
    requires Inv(src, s) && Possible(src, s, steps)
    ensures var e := After(src, s, steps);
            e.reported == s.reported && e.installed == s.installed && e.first == s.first
    decreases |steps|
  {
    hide Inv, Recv, CanSend, Deals, Steady;
    if steps != [] {
      DoKeeps(src, s, steps[0]);
      Lasting(src, Do(src, s, steps[0]), steps[1..]);
    }
  }

  lemma Outcome(src: Source, e: Sys)
    requires Inv(src, e)
    ensures Ends(e.c.events) == e.reported + (if e.c.state == Idle then [DFU_SUCCESS] else [])
    ensures e.c.state == Idle ==> e.p.executed == e.installed + [e.first, src.image]
    ensures e.installed <= e.p.executed <= e.installed + [e.first, src.image]
  {
    hide Sound, Flows, FreshImage;
  }

  /** The data on its way: the bytes of the data packets. */
  function OnTheWay(out: seq<Packet>): seq<byte>
    decreases |out|
  {
    if out == [] then []
    else OnTheWay(out[..|out| - 1]) + (if out[|out| - 1].Data? then out[|out| - 1].bytes else [])
  }

  lemma {:induction false} OnlyData(out: seq<Packet>)
    requires DataOnly(out)
    ensures OnTheWay(out) == Payload(out)
    decreases |out|
  {
    if out != [] {
      var n := |out| - 1;
      OnlyData(out[..n]);
      PayloadSnoc(out[..n], out[n]);
      assert out == out[..n] + [out[n]];
    }
  }

  /** States in which the client has sent part of an object, or all of it. */
  predicate Underway(t: State) {
    t == Write || t == GetCrc || t == PdGetCrc || t == Execute || t == PdExecute
  }

  /** In every reachable state the bytes at the peer and the bytes on their way are the bytes
      the client has sent, and extending the peer's CRC by those on their way gives the
      client's. */
  lemma InTransit(src: Source, e: Sys)
    requires Inv(src, e) && Underway(e.c.state)
    ensures e.p.offset + |OnTheWay(e.out)| == e.c.Cur().offset
    ensures e.p.received + OnTheWay(e.out) == src.Bytes(e.c.cur)[..e.c.Cur().offset]
    ensures Crc32.Crc(e.p.crc, OnTheWay(e.out)) == e.c.Cur().crc
  {
    hide Crc32.Crc, OnTheWay, Partly;
    var out := Flowed(src, e);
    Crc32.CrcConcat(0, e.p.received, Payload(out));
    RunningCrc(src, e);
  }

  /** What is on its way, without a request behind it. */
  lemma Flowed(src: Source, e: Sys) returns (out: seq<Packet>)
    requires Inv(src, e) && Underway(e.c.state)
    ensures Flowing(src, e.c, e.p, out) && Payload(out) == OnTheWay(e.out)
  {
    hide Sound, Crc32.Crc, Records, Outset;
    out := e.out;
    if e.c.state == PdGetCrc {
      out := AskedBehind(src, e);
    } else if e.c.state == PdExecute {
      out := ExecuteAlone(src, e);
    } else {
      OnlyData(out);
    }
  }

  lemma AskedBehind(src: Source, e: Sys) returns (out: seq<Packet>)
    requires Checking(src, e)
    ensures Flowing(src, e.c, e.p, out) && Payload(out) == OnTheWay(e.out)
  {
    hide Crc32.Crc, InSync;
    out := if e.out == [] then [] else e.out[..|e.out| - 1];
    OnlyData(out);
  }

  lemma ExecuteAlone(src: Source, e: Sys) returns (out: seq<Packet>)
    requires Executing(src, e) && Sound(src, e.c) && e.c.state == PdExecute
    ensures Flowing(src, e.c, e.p, out) && Payload(out) == OnTheWay(e.out)
  {
    hide Crc32.Crc, InSync;
    out := [];
    var b := src.Bytes(e.c.cur);
    AllSent(src, e.c);
    assert b[..|b|] == b && e.p.received + [] == b;
    assert e.out == [] || e.out == [Ctrl([EXECUTE])];
    NoData();
  }

  lemma AllSent(src: Source, c: Client)
    requires Sound(src, c) && c.state == PdExecute
    ensures c.Cur().offset == |src.Bytes(c.cur)|
  {
  }

  lemma NoData()
    ensures OnTheWay([]) == Payload([]) == [] && OnTheWay([Ctrl([EXECUTE])]) == []
  {
    assert [Ctrl([EXECUTE])][..0] == [];
  }

  lemma RunningCrc(src: Source, e: Sys)
    requires Inv(src, e) && Underway(e.c.state)
    ensures e.c.Cur().crc == Crc32.Crc(0, src.Bytes(e.c.cur)[..e.c.Cur().offset])
  {
    hide Phase, Records, Crc32.Crc;
  }
}
