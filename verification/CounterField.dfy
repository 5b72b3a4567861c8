/** The big-endian counter kept in the last bytes of a 16-byte block; byte 0 tells how many. */
module CounterField {
  import opened Bytes
  import Rfc3610

  function CtrLen(b: byte): nat {
    (b & 7) as int + 1
  }

  /** Stores v in the counter field. */
  method SetCtr(a: array<byte>, v: nat, ghost l: nat)
    requires a.Length == 16 && l <= 8 && CtrLen(a[0]) == l
    modifies a
    ensures a[..] == old(a[..16 - l]) + BigEndian(v, l)
  {
    var k: nat, p: nat, t: nat := CtrLen(a[0]), 16, v;
    ghost var done: seq<byte> := [];
    while k > 0
      invariant k <= l && p == 16 - l + k
      invariant a[..p] == old(a[..p]) && a[p..] == done
      invariant BigEndian(v, l) == BigEndian(t, k) + done
    {
      p := p - 1;
      a[p] := ToByte(t % 256);
      done := [a[p]] + done;
      t, k := t / 256, k - 1;
    }
  }

  /** Adds one to the counter field: a ripple carry that stops at the first byte that does
      not wrap. */
  method IncCtr(a: array<byte>, ghost l: nat)
    requires a.Length == 16 && l <= 8 && CtrLen(a[0]) == l
    modifies a
    ensures a[..] == old(a[..16 - l]) + Rfc3610.Increment(old(a[16 - l..]))
  {
    var k: nat, p: nat, more := CtrLen(a[0]), 16, true;
    ghost var was := a[..];
    while k > 0 && more
      invariant k <= l && p == 16 - l + k
      invariant forall i | 0 <= i < p :: a[i] == was[i]
      invariant more ==> Wrapped(was, a[..], p)
      invariant !more ==> p < 16 && Wrapped(was, a[..], p + 1) && a[p] == was[p] + 1 != 0
      decreases k
    {
      p, k := p - 1, k - 1;
      a[p] := a[p] + 1;
      more := a[p] == 0;
    }
    CarryIsIncrement(was, a[..], l, p, more);
  }

  ghost predicate Wrapped(was: seq<byte>, now: seq<byte>, p: nat)
    requires |was| == |now|
  {
    forall i | p <= i < |was| :: was[i] + 1 == 0 && now[i] == 0
  }

  lemma CarryIsIncrement(was: Block, now: Block, l: nat, p: nat, more: bool)
    requires l <= 16 && 16 - l <= p <= 16
    requires forall i | 0 <= i < p :: now[i] == was[i]
    requires if more then p == 16 - l && Wrapped(was, now, p)
             else p < 16 && Wrapped(was, now, p + 1) && now[p] == was[p] + 1 != 0
    ensures now == was[..16 - l] + Rfc3610.Increment(was[16 - l..])
  {
    var f, g := was[16 - l..], now[16 - l..];
    assert now == now[..16 - l] + g && now[..16 - l] == was[..16 - l];
    Rfc3610.RippledIsIncrement(f, g, if more then l else 15 - p);
  }
}
