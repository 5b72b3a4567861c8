/** After how many bytes a transfer is interrupted by a request for the CRC, and whether a
    resumed one is interrupted where its count reaches the recorded size. */
module DfuPace {
  import opened Bytes
  import opened Crc32
  import opened DfuModel
  import opened DfuEcho

  /** Packets between two requests for the CRC; the packet count is a byte. */
  function Round(x: Base): (r: nat)
    ensures r > 0
  {
    if x.prn == 0 then 256 else x.prn
  }

  /** After t bytes, with more to come, the CRC is asked for. */
  predicate Checkpoint(x: Base, t: nat)
    requires x.sendLen > 0
  {
    t % x.sendLen == 0 && (t / x.sendLen) % Round(x) == 0
  }

  /** The client's count, which starts from the recorded offset, is the recorded size at some
      request for the CRC. */
  predicate Lands(x: Base)
    requires x.sendLen > 0
  {
    x.offset < x.size && (x.offset == 0 || Checkpoint(x, x.size - x.offset))
  }

  /** Until the last packet all packets are full, and prnCnt counts them within a round. */
  predicate Paced(x: Base, t: nat, prnCnt: nat)
    requires x.sendLen > 0
  {
    t < x.size ==> t % x.sendLen == 0 && prnCnt == (t / x.sendLen) % Round(x)
  }

  /** The transfer is not past the place where it lands. */
  predicate OnCourse(x: Base, t: nat, more: bool)
    requires x.sendLen > 0
  {
    Lands(x) ==> t <= x.size - x.offset && (more ==> t < x.size - x.offset)
  }

  lemma Multiple(d: nat, j: nat)
    requires d > 0
    ensures (d * j) % d == 0 && (d * j) / d == j
  {
    Exact(d * j, d, j);
  }

  lemma Exact(a: nat, d: nat, j: nat)
    requires d > 0 && a == d * j
    ensures a % d == 0 && a / d == j
  {
    var q, r := a / d, a % d;
    assert a == d * q + r;
    if q < j {
      Gap(d, q, j);
    } else if j < q {
      Gap(d, j, q);
    }
    hide *;
  }

  lemma Gap(d: nat, i: nat, j: nat)
    requires i < j
    ensures d * i + d <= d * j
  {
    assert d * j == d * i + d * (j - i);
    assert d * (j - i) >= d by { Least(d, j - i); }
  }

  lemma Least(d: nat, k: nat)
    requires k >= 1
    ensures d * k >= d
  {
    assert d * k == d + d * (k - 1);
  }

  lemma Quotient(a: nat, d: nat)
    requires d > 0 && a % d == 0
    ensures a == d * (a / d)
  {
  }

  /** One more packet within a round. */
  lemma RoundNext(j: nat, r: nat)
    requires r > 0
    ensures j % r < r
    ensures (j + 1) % r == if j % r + 1 == r then 0 else j % r + 1
  {
    var q, m := j / r, j % r;
    assert j == r * q + m;
    if m + 1 == r {
      assert j + 1 == r * (q + 1);
      Exact(j + 1, r, q + 1);
    } else {
      Within(j + 1, r, q, m + 1);
    }
  }

  lemma Within(a: nat, d: nat, q: nat, m: nat)
    requires m < d && a == d * q + m
    ensures a % d == m
  {
    var p, n := a / d, a % d;
    assert a == d * p + n;
    if q < p {
      Gap(d, q, p);
    } else if p < q {
      Gap(d, p, q);
    }
    hide *;
  }

  /** A full packet on from a multiple of the packet length. */
  lemma FullPacket(x: Base, t: nat, prnCnt: nat)
    requires 0 < x.sendLen && t < x.size && Paced(x, t, prnCnt) && x.prn < 256
    ensures var u, k := t + x.sendLen, (prnCnt + 1) % 256;
            && u % x.sendLen == 0
            && (if k == x.prn then Checkpoint(x, u) else k == (u / x.sendLen) % Round(x))
            && (k == x.prn <==> Checkpoint(x, u))
  {
    var d := x.sendLen;
    var j := t / d;
    Quotient(t, d);
    assert t + d == d * (j + 1);
    Exact(t + d, d, j + 1);
    RoundNext(j, Round(x));
    hide *;
    RoundEnds(x.prn, prnCnt);
  }

  lemma RoundEnds(prn: nat, k: nat)
    requires prn < 256 && k < if prn == 0 then 256 else prn
    ensures (k + 1) % 256 == prn <==> k + 1 == if prn == 0 then 256 else prn
    ensures (k + 1) % 256 != prn ==> (k + 1) % 256 == k + 1
  {
  }

  /** A full packet never steps over a later multiple of the packet length. */
  lemma NoOvershoot(t: nat, goal: nat, d: nat)
    requires d > 0 && t % d == 0 && goal % d == 0 && t < goal
    ensures t + d <= goal
  {
    Quotient(t, d);
    Quotient(goal, d);
    if t / d < goal / d {
      Gap(d, t / d, goal / d);
    } else if goal / d < t / d {
      Gap(d, goal / d, t / d);
    }
  }

  /** What the next packet, of n bytes, does to pace and course. */
  lemma PacketPaced(x: Base, t: nat, prnCnt: nat, n: nat)
    requires x.sendLen > 0 && x.prn < 256
    requires t < x.size && Paced(x, t, prnCnt) && OnCourse(x, t, true)
    requires n == x.sendLen || (n < x.sendLen && t + n == x.size)
    requires t + n <= x.size
    ensures var k := (prnCnt + 1) % 256;
            if t + n == x.size || k == x.prn then
              Paced(x, t + n, 0) && OnCourse(x, t + n, false) && (t + n < x.size ==> Checkpoint(x, t + n))
            else
              Paced(x, t + n, k) && OnCourse(x, t + n, true)
  {
    FullPacket(x, t, prnCnt);
    if Lands(x) && x.offset > 0 {
      NoOvershoot(t, x.size - x.offset, x.sendLen);
    }
  }

  /** One turn of the sending loop. */
  lemma TurnPaced(src: Source, x: Base, v: Client)
    requires Based(src, x) && Writing(Part(src, x), v) && v.credits > 0 && v.cur == Command
    requires v.sendLen == x.sendLen && v.prn == x.prn
    requires Paced(x, v.cmd.offset, v.prnCnt) && OnCourse(x, v.cmd.offset, true)
    ensures Fillable(Part(src, x), v)
    ensures var u := Turn(Part(src, x), v);
            && u.c.cur == Command && u.c.sendLen == x.sendLen && u.c.prn == x.prn
            && Paced(x, u.c.cmd.offset, u.c.prnCnt) && OnCourse(x, u.c.cmd.offset, !u.Ask?)
            && (u.Ask? ==> u.c.prnCnt == 0 && (u.c.cmd.offset < x.size ==> Checkpoint(x, u.c.cmd.offset)))
  {
    var p := Part(src, x);
    FillKeeps(p, v);
    var w := Fill(p, v);
    assert w.cmd == v.cmd && w.prnCnt == v.prnCnt;
    if SendsNow(w) {
      SendKeeps(p, w);
      var e := SendData(w);
      SendPace(src, x, w);
      PacketPaced(x, v.cmd.offset, v.prnCnt, NextLength(w));
    }
    hide Paced, OnCourse, Checkpoint, Partly, Queued, SendsNow, NextLength, Wants, GivenNow, Remaining, Crc, Resent;
  }

  /** What is sent is a full packet or the rest; it is all when nothing is left. */
  lemma SendPace(src: Source, x: Base, w: Client)
    requires Based(src, x) && Transferring(Part(src, x), w) && w.credits > 0 && w.cur == Command
    requires w.sendLen == x.sendLen && SendsNow(w)
    ensures var n := NextLength(w);
            && w.cmd.offset + n <= x.size
            && (n == x.sendLen || (n < x.sendLen && w.cmd.offset + n == x.size))
            && (AsksCrc(SendData(w)) <==> w.cmd.offset + n == x.size || (w.prnCnt + 1) % 256 == w.prn)
  {
    var p := Part(src, x);
    RemainingIs(p, w);
    SendKeeps(p, w);
    RemainingIs(p, SendData(w));
    hide Crc;
  }

  lemma {:induction false} LoopPaced(src: Source, x: Base, v: Client)
    requires Based(src, x) && Writing(Part(src, x), v) && v.cur == Command
    requires v.sendLen == x.sendLen && v.prn == x.prn
    requires Paced(x, v.cmd.offset, v.prnCnt) && OnCourse(x, v.cmd.offset, true)
    ensures Goes(Part(src, x), v)
    ensures var (w, ask) := Loop(Part(src, x), v);
            && Paced(x, w.cmd.offset, w.prnCnt) && OnCourse(x, w.cmd.offset, !ask)
            && (ask ==> w.prnCnt == 0 && (w.cmd.offset < x.size ==> Checkpoint(x, w.cmd.offset)))
    decreases Work(v)
  {
    hide Turn, Partly, Queued, Stuck, Loop, Streamed, Paced, OnCourse, Checkpoint;
    var p := Part(src, x);
    WritingGoes(p, v);
    if v.credits > 0 {
      TurnPaced(src, x, v);
      TurnKeeps(p, v);
      WorkNatural(p, v);
      LoopStep(p, v);
      var u := Turn(p, v);
      if u.Again? {
        LoopPaced(src, x, u.c);
      }
    } else {
      NoLoop(p, v);
    }
  }

}
