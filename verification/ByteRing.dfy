/** The byte queue kept in a fixed power-of-two buffer with a front and a rear index; the
    device update client and the L2CAP send queue each have one. */
module ByteRing {
  import opened Bytes

  /** The bytes from front to rear, going round the end of the buffer. */
  function Window(b: seq<byte>, fr: nat, ra: nat): seq<byte>
    requires fr < |b| && ra < |b|
  {
    if fr <= ra then b[fr..ra] else b[fr..] + b[..ra]
  }

  /** b with d written from position at on. */
  function Written(b: seq<byte>, at: nat, d: seq<byte>): (r: seq<byte>)
    requires at + |d| <= |b|
    ensures |r| == |b|
  {
    seq(|b|, i requires 0 <= i < |b| => if at <= i < at + |d| then d[i - at] else b[i])
  }

  lemma ModTurn(x: int, n: nat)
    requires 0 < n && 0 < x + n && x < n + n
    ensures x % n == if x < 0 then x + n else if x < n then x else x - n
  {
    if x < 0 {
      ModOne(x + n, n, -1);
    } else if x < n {
      ModOne(x, n, 0);
    } else {
      ModOne(x - n, n, 1);
    }
  }

  lemma ModOne(r: int, n: nat, q: int)
    requires 0 <= r < n && -1 <= q <= 1
    ensures (r + q * n) % n == r
  {
  }

  function Next(i: nat, k: nat, n: nat): (j: nat)
    requires i < n && k < n
    ensures j == if i + k < n then i + k else i + k - n
  {
    ModTurn(i + k, n);
    (i + k) % n
  }

  lemma PushWindow(b: seq<byte>, fr: nat, ra: nat, d: seq<byte>)
    requires fr < |b| && ra < |b|
    requires |Window(b, fr, ra)| + |d| < |b|
    ensures var l := if |d| < |b| - ra then |d| else |b| - ra;
            Window(Written(Written(b, ra, d[..l]), 0, d[l..]), fr, Next(ra, |d|, |b|)) == Window(b, fr, ra) + d
  {
    if |d| < |b| - ra {
      PushStraight(b, fr, ra, d);
    } else {
      PushRound(b, fr, ra, d);
    }
  }

  lemma WrittenParts(b: seq<byte>, at: nat, d: seq<byte>)
    requires at + |d| <= |b|
    ensures var c := Written(b, at, d);
            c[..at + |d|] == b[..at] + d && c[at + |d|..] == b[at + |d|..]
    ensures Written(b, 0, []) == b
  {
  }

  lemma PushStraight(b: seq<byte>, fr: nat, ra: nat, d: seq<byte>)
    requires fr < |b| && ra < |b| && |Window(b, fr, ra)| + |d| < |b| && ra + |d| < |b|
    ensures Window(Written(Written(b, ra, d[..|d|]), 0, d[|d|..]), fr, ra + |d|) == Window(b, fr, ra) + d
  {
    hide Written;
    var c := Written(b, ra, d);
    assert d[..|d|] == d && d[|d|..] == [];
    WrittenParts(b, ra, d);
    WrittenParts(c, 0, []);
    if fr <= ra {
      AfterAhead(b, c, fr, ra, d);
    } else {
      AfterBehind(b, c, fr, ra, d);
    }
  }

  lemma AfterAhead(b: seq<byte>, c: seq<byte>, fr: nat, ra: nat, d: seq<byte>)
    requires fr <= ra && ra + |d| <= |b| == |c| && c[..ra + |d|] == b[..ra] + d
    ensures c[fr..ra + |d|] == b[fr..ra] + d
  {
    assert c[fr..ra + |d|] == c[..ra + |d|][fr..];
  }

  lemma AfterBehind(b: seq<byte>, c: seq<byte>, fr: nat, ra: nat, d: seq<byte>)
    requires ra + |d| <= fr <= |b| == |c| && c[..ra + |d|] == b[..ra] + d && c[ra + |d|..] == b[ra + |d|..]
    ensures c[fr..] + c[..ra + |d|] == (b[fr..] + b[..ra]) + d
  {
    assert c[fr..] == c[ra + |d|..][fr - ra - |d|..] == b[fr..];
  }

  /** The buffer after a write that went round the end. */
  lemma WrittenRound(b: seq<byte>, ra: nat, d: seq<byte>, e: seq<byte>)
    requires ra < |b| <= ra + |d| && |d| < |b|
    requires e == Written(Written(b, ra, d[..|b| - ra]), 0, d[|b| - ra..])
    ensures forall i | 0 <= i < |b| ::
              e[i] == if i < ra + |d| - |b| then d[|b| - ra + i] else if i < ra then b[i] else d[i - ra]
  {
  }

  lemma PushRound(b: seq<byte>, fr: nat, ra: nat, d: seq<byte>)
    requires fr < |b| && ra < |b| && |Window(b, fr, ra)| + |d| < |b| <= ra + |d|
    ensures var l := |b| - ra;
            Window(Written(Written(b, ra, d[..l]), 0, d[l..]), fr, ra + |d| - |b|) == Window(b, fr, ra) + d
  {
    var l, k := |b| - ra, ra + |d| - |b|;
    var e := Written(Written(b, ra, d[..l]), 0, d[l..]);
    WrittenRound(b, ra, d, e);
    hide Written;
    assert k < fr <= ra;
    assert e[fr..] == b[fr..ra] + d[..l];
    assert e[..k] == d[l..];
  }

  lemma PopWindow(b: seq<byte>, fr: nat, ra: nat, k: nat)
    requires fr < |b| && ra < |b| && k <= |Window(b, fr, ra)|
    ensures var l := if k < |b| - fr then k else |b| - fr;
            b[fr..fr + l] + b[..k - l] == Window(b, fr, ra)[..k]
    ensures Window(b, Next(fr, k, |b|), ra) == Window(b, fr, ra)[k..]
  {
    hide Next, Window;
    if k < |b| - fr {
      PopStraight(b, fr, ra, k);
    } else {
      PopRound(b, fr, ra, k);
    }
  }

  lemma PopStraight(b: seq<byte>, fr: nat, ra: nat, k: nat)
    requires fr < |b| && ra < |b| && k <= |Window(b, fr, ra)| && k < |b| - fr
    ensures b[fr..fr + k] + b[..0] == Window(b, fr, ra)[..k]
    ensures Window(b, fr + k, ra) == Window(b, fr, ra)[k..]
  {
    if fr > ra {
      assert (b[fr..] + b[..ra])[k..] == b[fr + k..] + b[..ra];
    }
  }

  lemma PopRound(b: seq<byte>, fr: nat, ra: nat, k: nat)
    requires fr < |b| && ra < |b| && k <= |Window(b, fr, ra)| && k >= |b| - fr
    ensures b[fr..|b|] + b[..k - (|b| - fr)] == Window(b, fr, ra)[..k]
    ensures Window(b, k - (|b| - fr), ra) == Window(b, fr, ra)[k..]
  {
    var m := k - (|b| - fr);
    assert b[fr..|b|] == b[fr..];
    assert (b[fr..] + b[..ra])[..k] == b[fr..] + b[..m];
    assert (b[fr..] + b[..ra])[k..] == b[m..ra];
  }

  class Ring {
    const buf: array<byte>
    var fr: nat
    var ra: nat

    ghost predicate Valid()
      reads this
    {
      fr < buf.Length && ra < buf.Length
    }

    ghost function Contents(): seq<byte>
      requires Valid()
      reads this, buf
    {
      Window(buf[..], fr, ra)
    }

    constructor (size: nat)
      requires size > 0
      ensures Valid() && Contents() == [] && buf.Length == size && fresh(buf)
    {
      buf := new byte[size](i => 0);
      fr, ra := 0, 0;
    }

    function Length(): (n: nat)
      requires Valid()
      reads this, buf
      ensures n == |Contents()|
    {
      ModTurn(ra - fr, buf.Length);
      (ra - fr) % buf.Length
    }

    function Avail(): (n: nat)
      requires Valid()
      reads this, buf
      ensures n == buf.Length - |Contents()| - 1
    {
      buf.Length - Length() - 1
    }

    /** The queue is emptied where it is; the indices do not go back to 0. */
    method Clear()
      requires Valid()
      modifies this
      ensures Valid() && Contents() == []
    {
      fr := ra;
    }

    method Copy(at: nat, d: seq<byte>)
      requires at + |d| <= buf.Length
      modifies buf
      ensures buf[..] == Written(old(buf[..]), at, d)
    {
      forall i | at <= i < at + |d| {
        buf[i] := d[i - at];
      }
    }

    /** Appends data; the caller has checked that it fits. */
    method Push(data: seq<byte>)
      requires Valid() && |data| <= Avail()
      modifies this, buf
      ensures Valid() && Contents() == old(Contents()) + data
    {
      PushWindow(buf[..], fr, ra, data);
      var l := if |data| < buf.Length - ra then |data| else buf.Length - ra;
      Copy(ra, data[..l]);
      Copy(0, data[l..]);
      ra := (ra + |data|) % buf.Length;
    }

    /** Takes k bytes from the front; the caller has checked that they are there. */
    method Pop(k: nat) returns (data: seq<byte>)
      requires Valid() && k <= Length()
      modifies this
      ensures Valid() && data == old(Contents())[..k] && Contents() == old(Contents())[k..]
    {
      PopWindow(buf[..], fr, ra, k);
      var l := if k < buf.Length - fr then k else buf.Length - fr;
      data := buf[fr..fr + l] + buf[..k - l];
      fr := (fr + k) % buf.Length;
    }
  }
}
