/** The fixed script of an update: what the client asks for, in order, whatever a peer answers,
    and what it sends and shows in between. */
module DfuScript {
  import opened Bytes
  import opened Crc32
  import opened DfuModel
  import opened DfuControl
  import opened DfuEcho
  import opened DfuReports

  /** Select, set the notification count, create and execute, for the command object and then
      for the image. */
  function Script(src: Source, prn: byte): (s: seq<seq<byte>>)
    ensures |s| == 8
  {
    [[6, 1], [2, prn], [1, 1] + LittleEndian32(|src.command|), [4],
     [6, 2], [2, prn], [1, 2] + LittleEndian32(|src.image|), [4]]
  }

  /** How many of them are sent. */
  function Place(c: Client): (p: nat)
    requires c.state != Idle
    ensures p <= 8
  {
    (if c.cur == Image then 4 else 0)
    + match c.state
      case Sel => 0
      case PdSel | SetPrn => 1
      case PdSetPrn | Create => 2
      case PdCreate | Write | GetCrc | PdGetCrc | Execute => 3
      case PdExecute => 4
  }

  /** Behind what was asked before the update, the client has asked for a first part of it. */
  ghost predicate Scripted(src: Source, c: Client, prn: byte, before: seq<seq<byte>>) {
    && c.prn < 256 && ToByte(c.prn % 256) == prn
    && if c.state == Idle then before <= Requests(c.sent) <= before + Script(src, prn)
       else Requests(c.sent) == before + Script(src, prn)[..Place(c)]
  }

  lemma RequestInScript(src: Source, c: Client, e: Client, prn: byte)
    requires Follows(c, e, false) && c.state != Idle && e.state != Idle && ToByte(c.prn % 256) == prn
    ensures Place(c) <= Place(e) <= 8 && Request(src, c, e) == Script(src, prn)[Place(c)..Place(e)]
  {
    hide LittleEndian32, ToByte;
    var s := Script(src, prn);
    assert forall i: nat | i < 8 :: s[i..i + 1] == [s[i]];
    assert forall i: nat | i <= 8 :: s[i..i] == [];
  }

  lemma NothingWhenIdle(src: Source, c: Client, e: Client)
    requires e.state == Idle
    ensures Request(src, c, e) == []
  {
  }

  lemma TakeScripted(src: Source, c: Client, t: Call, prn: byte, before: seq<seq<byte>>)
    requires Takes(src, c, t) && !Resumed(src, c, t) && Scripted(src, c, prn, before)
    ensures Scripted(src, Take(src, c, t), prn, before)
  {
    hide Take, Takes, Requests, ReportedBy, Script, LittleEndian32, ToByte, Place, Ends;
    var e := Take(src, c, t);
    TakeReports(src, c, t);
    TakeFollows(src, c, t);
    if e.state == Idle {
      NothingWhenIdle(src, c, e);
      assert Requests(c.sent) + [] == Requests(c.sent);
      if c.state != Idle {
        PartOf(before, Script(src, prn), Place(c));
      }
    } else {
      FollowsBusy(c, e);
      RequestInScript(src, c, e, prn);
      var s := Script(src, prn);
      assert s[..Place(c)] + s[Place(c)..Place(e)] == s[..Place(e)];
      assert before + (s[..Place(c)] + s[Place(c)..Place(e)]) == before + s[..Place(c)] + s[Place(c)..Place(e)];
      assert Requests(e.sent) == before + s[..Place(e)];
    }
    assert e.prn == c.prn;
  }

  lemma PartOf(before: seq<seq<byte>>, s: seq<seq<byte>>, p: nat)
    requires p <= |s|
    ensures before <= before + s[..p] <= before + s
  {
  }

  lemma FollowsBusy(c: Client, e: Client)
    requires Follows(c, e, false) && e.state != Idle
    ensures c.state != Idle
  {
  }

  /** No notification of the run resumes a transfer. */
  ghost predicate Unresumed(src: Source, c: Client, ts: seq<Call>)
    requires Taken(src, c, ts)
    decreases |ts|
  {
    ts != [] ==> !Resumed(src, c, ts[0]) && Unresumed(src, Take(src, c, ts[0]), ts[1..])
  }

  lemma {:induction false} RunScripted(src: Source, c: Client, ts: seq<Call>, prn: byte, before: seq<seq<byte>>)
    requires Taken(src, c, ts) && Unresumed(src, c, ts) && Scripted(src, c, prn, before)
    ensures Scripted(src, AfterCalls(src, c, ts), prn, before)
    decreases |ts|
  {
    hide Take, Takes, Scripted, Resumed;
    if ts != [] {
      TakeScripted(src, c, ts[0], prn, before);
      RunScripted(src, Take(src, c, ts[0]), ts[1..], prn, before);
    }
  }

  /** In every run of an update in which no transfer is resumed, whatever is answered, the client
      has asked for a first part of the script, and for as much as its state says. */
  lemma UpdateScripted(src: Source, c: Client, mtu: nat, credits: nat, prn: nat, ts: seq<Call>)
    requires c.state == Idle && mtu >= 23 && prn < 256
    requires var s := Start(c, mtu, credits, prn); Taken(src, s, ts) && Unresumed(src, s, ts)
    ensures var e := AfterCalls(src, Start(c, mtu, credits, prn), ts);
            && Requests(c.sent) <= Requests(e.sent) <= Requests(c.sent) + Script(src, ToByte(prn))
            && (e.state != Idle ==> Requests(e.sent) == Requests(c.sent) + Script(src, ToByte(prn))[..Place(e)])
  {
    hide Taken, Unresumed, AfterCalls, Requests, Script, Place, Start;
    StartScripted(src, c, mtu, credits, prn);
    RunScripted(src, Start(c, mtu, credits, prn), ts, ToByte(prn), Requests(c.sent));
    hide ToByte;
  }

  lemma StartScripted(src: Source, c: Client, mtu: nat, credits: nat, prn: nat)
    requires c.state == Idle && mtu >= 23 && prn < 256
    ensures Scripted(src, Start(c, mtu, credits, prn), ToByte(prn), Requests(c.sent))
  {
    hide Requests, Script, ToByte, Start, Place;
    var e := Start(c, mtu, credits, prn);
    StartIs(c, mtu, credits, prn);
    FirstOfScript(src, ToByte(prn));
    FirstPlaces(e);
    RequestsSnoc(c.sent, Ctrl([6, 1]));
    var none: seq<seq<byte>> := [];
    assert Requests(c.sent) + none == Requests(c.sent);
    assert prn % 256 == prn;
  }

  lemma FirstPlaces(e: Client)
    requires e.cur == Command && (e.state == Sel || e.state == PdSel)
    ensures Place(e) == if e.state == Sel then 0 else 1
  {
  }

  lemma StartIs(c: Client, mtu: nat, credits: nat, prn: nat)
    requires c.state == Idle && mtu >= 23
    ensures var e := Start(c, mtu, credits, prn);
            && e.cur == Command && e.prn == prn && e.events == c.events
            && e.sendLen == (if mtu < 250 then mtu - 3 else 247)
            && (if credits == 0 then e.state == Sel && e.sent == c.sent
                else e.state == PdSel && e.sent == c.sent + [Ctrl([6, 1])])
  {
  }

  lemma FirstOfScript(src: Source, prn: byte)
    ensures Script(src, prn)[..0] == [] && Script(src, prn)[..1] == [[6, 1]]
  {
    hide LittleEndian32;
  }

  /** Starting leaves a running update alone. */
  lemma BusyStays(c: Client, mtu: nat, credits: nat, prn: nat)
    requires c.state != Idle && mtu >= 23
    ensures Start(c, mtu, credits, prn) == c
  {
  }
}
