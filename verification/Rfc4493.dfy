/** AES-CMAC as section 2.4 of RFC 4493 defines it, and what feeding a context in pieces
    makes of it. */
module Rfc4493 {
  import opened Bytes
  import opened CbcMac
  import opened Cuttings
  import opened GfDouble

  function K1(e: Cipher): Block {
    Doubled(e(ZeroBlock()))
  }

  function K2(e: Cipher): Block {
    Doubled(K1(e))
  }

  function Padded(last: seq<byte>): Block
    requires |last| < 16
  {
    last + [0x80] + Zeros(15 - |last|)
  }

  /** M_last: the last block with its subkey, or what there is of it padded with the other. */
  function Masked(e: Cipher, last: seq<byte>): Block
    requires |last| <= 16
  {
    if |last| == 16 then Xor(last, K1(e)) else Xor(Padded(last), K2(e))
  }

  function Cmac(e: Cipher, m: seq<byte>): Block {
    var q := if m == [] then 0 else LastStart(m);
    e(Xor(Masked(e, m[q..]), Chain(e, ZeroBlock(), m[..q])))
  }

  /** The work buffer after a call, cnt bytes having gone before: the call goes on at
      position cnt mod 16, and takes an open block there for one not yet begun. */
  function Feed(e: Cipher, buf: Block, cnt: nat, data: seq<byte>): Block {
    if data == [] then buf else LazyBuf(e, buf, Zeros(cnt % 16) + data)
  }

  function EndInput(e: Cipher, buf: Block, cnt: nat): Block {
    var i := cnt % 16;
    if cnt == 0 || i != 0 then Xor(K2(e), XorByte(buf, i, 0x80)) else Xor(K1(e), buf)
  }

  /** The tag that ends a message of cnt bytes. */
  function EndTag(e: Cipher, buf: Block, cnt: nat): Block {
    e(EndInput(e, buf, cnt))
  }

  // ---- one call ----

  lemma EndIsCmac(e: Cipher, m: seq<byte>)
    ensures EndTag(e, LazyBuf(e, ZeroBlock(), m), |m|) == Cmac(e, m)
  {
    hide LazyBuf, Masked, EndInput, Chain, XorRun, Xor, LastStart;
    var q: nat := if m == [] then 0 else LastStart(m);
    LazyBufInBlocks(e, m);
    LastLength(m);
    EndInputs(e, Chain(e, ZeroBlock(), m[..q]), m[q..], |m|);
  }

  lemma LastLength(m: seq<byte>)
    ensures var last := m[if m == [] then 0 else LastStart(m)..];
            |last| <= 16 && |m| % 16 == |last| % 16 && (|m| == 0 <==> last == [])
  {
  }

  lemma EndInputs(e: Cipher, x: Block, last: seq<byte>, cnt: nat)
    requires |last| <= 16 && cnt % 16 == |last| % 16 && (cnt == 0 <==> last == [])
    ensures EndInput(e, XorRun(x, 0, last), cnt) == Xor(Masked(e, last), x)
  {
    hide K1, K2, XorRun, XorByte, Xor, Padded;
    if |last| == 16 {
      Commutes(x, last, K1(e));
    } else {
      PadsLast(x, last, K2(e));
    }
  }

  lemma LazyBufInBlocks(e: Cipher, m: seq<byte>)
    ensures var q := if m == [] then 0 else LastStart(m);
            LazyBuf(e, ZeroBlock(), m) == XorRun(Chain(e, ZeroBlock(), m[..q]), 0, m[q..])
  {
    hide LazyBuf, XorRun;
    if m == [] {
      LazyNothing(e, ZeroBlock());
      XorRunNothing(ZeroBlock());
    } else {
      LazyBufIsChain(e, ZeroBlock(), m);
    }
  }

  lemma LazyNothing(e: Cipher, x: Block)
    ensures LazyBuf(e, x, []) == x
  {
  }

  lemma XorRunNothing(x: Block)
    ensures XorRun(x, 0, []) == x
  {
  }

  lemma Commutes(x: Block, last: Block, k: Block)
    ensures Xor(k, XorRun(x, 0, last)) == Xor(Xor(last, k), x)
  {
    forall i | 0 <= i < 16 ensures k[i] ^ (x[i] ^ last[i]) == (last[i] ^ k[i]) ^ x[i] {
      XorOrder(k[i], x[i], last[i]);
    }
  }

  lemma XorOrder(a: byte, b: byte, c: byte)
    ensures a ^ (b ^ c) == (c ^ a) ^ b
  {
  }

  lemma XorZero(a: byte, b: byte)
    ensures a ^ b == (0 ^ a) ^ b
  {
  }

  lemma PadsLast(x: Block, last: seq<byte>, k: Block)
    requires |last| < 16
    ensures Xor(k, XorByte(XorRun(x, 0, last), |last|, 0x80)) == Xor(Xor(Padded(last), k), x)
  {
    var p := Padded(last);
    var l := XorByte(XorRun(x, 0, last), |last|, 0x80);
    forall i | 0 <= i < 16 ensures k[i] ^ l[i] == (p[i] ^ k[i]) ^ x[i] {
      if i <= |last| {
        XorOrder(k[i], x[i], p[i]);
      } else {
        XorZero(k[i], x[i]);
      }
    }
  }

  /** The last block byte by byte: whole with the first subkey, or marked, filled up with zeros
      and with the second. */
  lemma MaskedByte(e: Cipher, last: seq<byte>, j: nat)
    requires |last| <= 16 && j < 16
    ensures Masked(e, last)[j]
         == if |last| == 16 then last[j] ^ K1(e)[j]
            else (if j < |last| then last[j] else if j == |last| then 0x80 else 0) ^ K2(e)[j]
  {
    hide K1, K2;
  }

  // ---- several calls ----

  /** Two work buffers that stand for the same bytes go on alike. */
  lemma {:induction false} SameFuture(e: Cipher, x: Block, s: seq<byte>, y: Block, t: seq<byte>, d: seq<byte>)
    requires EagerBuf(e, x, s) == EagerBuf(e, y, t) && |s| % 16 == |t| % 16
    ensures EagerBuf(e, x, s + d) == EagerBuf(e, y, t + d) && |s + d| % 16 == |t + d| % 16
    ensures d != [] ==> LazyBuf(e, x, s + d) == LazyBuf(e, y, t + d)
    decreases |d|
  {
    hide LazyBuf;
    if d == [] {
      assert s + d == s && t + d == t;
    } else {
      var i, b := d[..|d| - 1], d[|d| - 1];
      SameFuture(e, x, s, y, t, i);
      assert s + d == (s + i) + [b] && t + d == (t + i) + [b];
      LazyBufSnoc(e, x, s + i, b);
      LazyBufSnoc(e, y, t + i, b);
      SameRemainder(|s + i|, |t + i|);
    }
  }

  lemma SameRemainder(a: nat, b: nat)
    requires a % 16 == b % 16
    ensures (a + 1) % 16 == (b + 1) % 16
  {
  }

  lemma ZerosHold(e: Cipher, buf: Block, p: nat)
    requires p < 16
    ensures Holds(e, buf, Zeros(p), buf, p)
  {
    assert Holds(e, buf, [], buf, 0);
    hide Holds, XorRun;
    HoldsRun(e, buf, [], buf, 0, Zeros(p));
    assert [] + Zeros(p) == Zeros(p);
    ZerosNeutral(buf, p);
  }

  lemma ZerosIn(e: Cipher, buf: Block, p: nat)
    requires p < 16
    ensures EagerBuf(e, buf, Zeros(p)) == buf && LazyBuf(e, buf, Zeros(p)) == buf
  {
    ZerosHold(e, buf, p);
  }

  lemma ZerosNeutral(buf: Block, p: nat)
    requires p <= 16
    ensures XorRun(buf, 0, Zeros(p)) == buf
  {
  }

  /** A call that does not start at a positive multiple of 16 leaves the buffer of the whole. */
  lemma CallRight(e: Cipher, s: seq<byte>, d: seq<byte>)
    requires d == [] || s == [] || |s| % 16 != 0
    ensures Feed(e, LazyBuf(e, ZeroBlock(), s), |s|, d) == LazyBuf(e, ZeroBlock(), s + d)
  {
    hide LazyBuf;
    if d == [] {
      assert s + d == s;
    } else {
      var buf := LazyBuf(e, ZeroBlock(), s);
      ZerosIn(e, buf, |s| % 16);
      assert EagerBuf(e, ZeroBlock(), s) == buf;
      SameFuture(e, ZeroBlock(), s, buf, Zeros(|s| % 16), d);
    }
  }

  /** A block cipher can be undone. */
  ghost predicate Injective(e: Cipher) {
    forall a, b :: e(a) == e(b) ==> a == b
  }

  lemma {:induction false} LazyInjective(e: Cipher, x: Block, y: Block, d: seq<byte>)
    requires Injective(e) && LazyBuf(e, x, d) == LazyBuf(e, y, d)
    ensures x == y
    decreases |d|
  {
    if d != [] {
      var n := |d| - 1;
      var i := d[..n];
      var p, q := EagerBuf(e, x, i), EagerBuf(e, y, i);
      assert d == i + [d[n]];
      LazyBufSnoc(e, x, i, d[n]);
      LazyBufSnoc(e, y, i, d[n]);
      XorByteInjective(p, q, n % 16, d[n]);
      LazyInjective(e, x, y, i) by {
        hide LazyBuf;
      }
    }
  }

  lemma XorByteInjective(a: Block, b: Block, p: nat, d: byte)
    requires p < 16 && XorByte(a, p, d) == XorByte(b, p, d)
    ensures a == b
  {
    XorByteTwice(a, p, d);
    XorByteTwice(b, p, d);
    hide XorByte;
  }

  lemma XorByteTwice(a: Block, p: nat, d: byte)
    requires p < 16
    ensures XorByte(XorByte(a, p, d), p, d) == a
  {
    XorCancels(a[p], d);
  }

  lemma XorCancels(a: byte, d: byte)
    ensures (a ^ d) ^ d == a
  {
  }

  /** Exactly when a call is right: when its start is no positive multiple of 16, or it is
      empty, or the cipher happens to leave the open block as it is. */
  lemma CallRightIff(e: Cipher, s: seq<byte>, d: seq<byte>)
    requires Injective(e)
    ensures Feed(e, LazyBuf(e, ZeroBlock(), s), |s|, d) == LazyBuf(e, ZeroBlock(), s + d)
       <==> d == [] || s == [] || |s| % 16 != 0 || e(LazyBuf(e, ZeroBlock(), s)) == LazyBuf(e, ZeroBlock(), s)
  {
    hide LazyBuf;
    if d == [] || s == [] || |s| % 16 != 0 {
      CallRight(e, s, d);
    } else {
      var b := LazyBuf(e, ZeroBlock(), s);
      assert Zeros(0) + d == d && [] + d == d;
      LazyNothing(e, e(b));
      SameFuture(e, ZeroBlock(), s, e(b), [], d);
      assert LazyBuf(e, ZeroBlock(), s + d) == LazyBuf(e, e(b), d);
      if LazyBuf(e, b, d) == LazyBuf(e, e(b), d) {
        LazyInjective(e, b, e(b), d);
      }
    }
  }

  /** The same at the level of tags, for a message given in two calls. */
  lemma TwoCalls(e: Cipher, a: seq<byte>, b: seq<byte>)
    requires Injective(e)
    ensures EndTag(e, Feed(e, LazyBuf(e, ZeroBlock(), a), |a|, b), |a + b|) == Cmac(e, a + b)
       <==> b == [] || a == [] || |a| % 16 != 0 || e(LazyBuf(e, ZeroBlock(), a)) == LazyBuf(e, ZeroBlock(), a)
  {
    hide LazyBuf, Feed, Cmac, EndTag;
    CallRightIff(e, a, b);
    EndIsCmac(e, a + b);
    EndInjective(e, Feed(e, LazyBuf(e, ZeroBlock(), a), |a|, b), LazyBuf(e, ZeroBlock(), a + b), |a + b|);
  }

  lemma EndInjective(e: Cipher, x: Block, y: Block, cnt: nat)
    requires Injective(e)
    ensures EndTag(e, x, cnt) == EndTag(e, y, cnt) <==> x == y
  {
    hide K1, K2, Xor, XorByte;
    if EndTag(e, x, cnt) == EndTag(e, y, cnt) {
      if cnt == 0 || cnt % 16 != 0 {
        XorInjective(K2(e), XorByte(x, cnt % 16, 0x80), XorByte(y, cnt % 16, 0x80));
        XorByteInjective(x, y, cnt % 16, 0x80);
      } else {
        XorInjective(K1(e), x, y);
      }
    }
  }

  lemma XorInjective(k: Block, a: Block, b: Block)
    requires Xor(k, a) == Xor(k, b)
    ensures a == b
  {
    hide Xor;
    XorSwaps(k, a);
    XorSwaps(k, b);
    XorTwice(a, k);
    XorTwice(b, k);
  }

  lemma XorSwaps(a: Block, b: Block)
    ensures Xor(a, b) == Xor(b, a)
  {
    forall i | 0 <= i < 16 ensures a[i] ^ b[i] == b[i] ^ a[i] {
    }
  }

  /** A cipher for which every such split into two calls goes wrong. */
  function Flip(x: Block): Block {
    x[0 := x[0] ^ 1]
  }

  lemma FlipGoesWrong(a: seq<byte>, b: seq<byte>)
    requires b != [] && a != [] && |a| % 16 == 0
    ensures Injective(Flip)
    ensures EndTag(Flip, Feed(Flip, LazyBuf(Flip, ZeroBlock(), a), |a|, b), |a + b|) != Cmac(Flip, a + b)
  {
    forall x: Block, y: Block | Flip(x) == Flip(y) ensures x == y {
      XorByteInjective(x, y, 0, 1);
    }
    FlipMoves(LazyBuf(Flip, ZeroBlock(), a));
    hide *;
    TwoCalls(Flip, a, b);
  }

  lemma FlipMoves(x: Block)
    ensures Flip(x) != x
  {
    Moves(x[0]);
  }

  lemma Moves(a: byte)
    ensures a ^ 1 != a
  {
  }

  // ---- any number of calls ----

  function FeedAll(e: Cipher, calls: seq<seq<byte>>): Block {
    if calls == [] then ZeroBlock()
    else
      var before := calls[..|calls| - 1];
      Feed(e, FeedAll(e, before), |Joined(before)|, calls[|calls| - 1])
  }

  /** Call i is not empty and starts at a positive multiple of 16. */
  predicate Aligned(calls: seq<seq<byte>>, i: nat)
    requires i < |calls|
  {
    calls[i] != [] && |Joined(calls[..i])| > 0 && |Joined(calls[..i])| % 16 == 0
  }

  /** No call but the first starts at a multiple of 16, unless it is empty. */
  ghost predicate Guarded(calls: seq<seq<byte>>) {
    forall i :: 0 <= i < |calls| ==> !Aligned(calls, i)
  }

  lemma {:induction false} SplitIsWhole(e: Cipher, calls: seq<seq<byte>>)
    requires Guarded(calls)
    ensures FeedAll(e, calls) == LazyBuf(e, ZeroBlock(), Joined(calls))
    decreases |calls|
  {
    if calls != [] {
      var n := |calls| - 1;
      var before := calls[..n];
      assert forall i :: 0 <= i < n ==> calls[i] == before[i] && calls[..i] == before[..i];
      assert forall i :: 0 <= i < n ==> Aligned(calls, i) == Aligned(before, i);
      assert !Aligned(calls, n);
      SplitIsWhole(e, before);
      CallRight(e, Joined(before), calls[n]);
    }
  }

  /** Any cutting of a message into calls that keeps to that gives the message's CMAC. */
  lemma SplitIsCmac(e: Cipher, calls: seq<seq<byte>>)
    requires Guarded(calls)
    ensures EndTag(e, FeedAll(e, calls), |Joined(calls)|) == Cmac(e, Joined(calls))
  {
    SplitIsWhole(e, calls);
    EndIsCmac(e, Joined(calls));
    hide *;
  }

  // ---- when calls that do not keep to that come out right ----

  /** A call off the block boundary keeps a buffer right or wrong as it was. */
  lemma OffBoundaryIff(e: Cipher, fed: Block, s: seq<byte>, d: seq<byte>)
    requires Injective(e) && (d == [] || |s| % 16 != 0)
    ensures Feed(e, fed, |s|, d) == LazyBuf(e, ZeroBlock(), s + d) <==> fed == LazyBuf(e, ZeroBlock(), s)
  {
    hide LazyBuf, Injective;
    CallRight(e, s, d);
    var right := LazyBuf(e, ZeroBlock(), s);
    if d == [] {
      assert s + d == s;
    } else if Feed(e, fed, |s|, d) == Feed(e, right, |s|, d) {
      LazyInjective(e, fed, right, Zeros(|s| % 16) + d);
    }
  }

  /** A call on a block boundary comes out right if and only if the buffer it finds is what the
      encryption it leaves out would have made of the right one. */
  lemma OnBoundaryIff(e: Cipher, fed: Block, s: seq<byte>, d: seq<byte>)
    requires Injective(e) && d != [] && s != [] && |s| % 16 == 0
    ensures Feed(e, fed, |s|, d) == LazyBuf(e, ZeroBlock(), s + d) <==> fed == e(LazyBuf(e, ZeroBlock(), s))
  {
    hide LazyBuf, Injective;
    var right := e(LazyBuf(e, ZeroBlock(), s));
    assert Zeros(0) + d == d && [] + d == d;
    LazyNothing(e, right);
    SameFuture(e, ZeroBlock(), s, right, [], d);
    if LazyBuf(e, fed, d) == LazyBuf(e, right, d) {
      LazyInjective(e, fed, right, d);
    }
  }

  lemma {:induction false} FedRightIff(e: Cipher, calls: seq<seq<byte>>, j: nat)
    requires Injective(e) && j < |calls| && Aligned(calls, j) && forall i :: j < i < |calls| ==> !Aligned(calls, i)
    ensures FeedAll(e, calls) == LazyBuf(e, ZeroBlock(), Joined(calls))
       <==> FeedAll(e, calls[..j]) == e(LazyBuf(e, ZeroBlock(), Joined(calls[..j])))
    decreases |calls|
  {
    hide LazyBuf, Feed, Injective;
    var n := |calls| - 1;
    var before, fed := calls[..n], FeedAll(e, calls[..n]);
    if j == n {
      OnBoundaryIff(e, fed, Joined(before), calls[n]);
    } else {
      assert forall i :: 0 <= i < n ==> calls[i] == before[i] && calls[..i] == before[..i];
      assert forall i :: 0 <= i < n ==> Aligned(calls, i) == Aligned(before, i);
      FedRightIff(e, before, j);
      assert !Aligned(calls, n);
      if calls[n] != [] {
        JoinedPrefix(before, j);
        assert |Joined(before)| > 0;
      }
      OffBoundaryIff(e, fed, Joined(before), calls[n]);
    }
  }

  /** Any list of calls gives the right tag if and only if none of them is aligned, or the
      buffer before the last aligned one is what the right one encrypts to. */
  lemma TagRightIff(e: Cipher, calls: seq<seq<byte>>, j: nat)
    requires Injective(e) && j < |calls| && Aligned(calls, j) && forall i :: j < i < |calls| ==> !Aligned(calls, i)
    ensures EndTag(e, FeedAll(e, calls), |Joined(calls)|) == Cmac(e, Joined(calls))
       <==> FeedAll(e, calls[..j]) == e(LazyBuf(e, ZeroBlock(), Joined(calls[..j])))
  {
    hide LazyBuf, Feed, Cmac, EndTag, Injective, Aligned, FeedAll;
    FedRightIff(e, calls, j);
    EndIsCmac(e, Joined(calls));
    EndInjective(e, FeedAll(e, calls), LazyBuf(e, ZeroBlock(), Joined(calls)), |Joined(calls)|);
  }

  /** With a single aligned call the tag is wrong unless the cipher fixes the open block. */
  lemma OneAlignedCall(e: Cipher, calls: seq<seq<byte>>, j: nat)
    requires Injective(e) && j < |calls| && Aligned(calls, j)
    requires forall i :: 0 <= i < |calls| && i != j ==> !Aligned(calls, i)
    ensures var b := LazyBuf(e, ZeroBlock(), Joined(calls[..j]));
            EndTag(e, FeedAll(e, calls), |Joined(calls)|) == Cmac(e, Joined(calls)) <==> e(b) == b
  {
    hide LazyBuf, Feed, Cmac, EndTag, Injective;
    var before := calls[..j];
    assert forall i :: 0 <= i < j ==> calls[i] == before[i] && calls[..i] == before[..i];
    assert forall i :: 0 <= i < j ==> Aligned(calls, i) == Aligned(before, i);
    SplitIsWhole(e, before);
    TagRightIff(e, calls, j);
  }

  lemma BlockIn(e: Cipher, x: Block, b: Block)
    ensures LazyBuf(e, x, b) == Xor(x, b)
  {
    assert Holds(e, x, [], x, 0);
    HoldsRun(e, x, [], x, 0, b);
    assert [] + b == b;
    hide LazyBuf;
  }

  lemma FlipXor(x: Block, b: Block)
    ensures Flip(Xor(Flip(x), b)) == Xor(x, b)
  {
    FlipsBack(x[0], b[0]);
  }

  lemma FlipsBack(a: byte, b: byte)
    ensures ((a ^ 1) ^ b) ^ 1 == a ^ b
  {
  }

  lemma JoinedThree(a: seq<byte>, b: seq<byte>, c: seq<byte>)
    ensures Joined([a]) == a && Joined([a, b]) == a + b && Joined([a, b, c]) == a + b + c
  {
    assert [a][..0] == [] && [a, b][..1] == [a] && [a, b, c][..2] == [a, b];
    assert [] + a == a;
  }

  /** With two aligned calls two wrongs can make a right. */
  lemma FlipCancels(a: Block, b: Block, c: Block)
    ensures Aligned([a, b, c], 1) && Aligned([a, b, c], 2)
    ensures EndTag(Flip, FeedAll(Flip, [a, b, c]), 48) == Cmac(Flip, a + b + c)
  {
    hide LazyBuf, Cmac, EndTag, Xor, Flip;
    var calls: seq<seq<byte>> := [a, b, c];
    JoinedThree(a, b, c);
    assert calls[..1] == [a] && calls[..2] == [a, b];
    assert Injective(Flip) by { FlipGoesWrong(a, b); }
    FedTwo(a, b);
    TagRightIff(Flip, calls, 2);
  }

  lemma FeedAllSnoc(e: Cipher, before: seq<seq<byte>>, d: seq<byte>)
    ensures FeedAll(e, before + [d]) == Feed(e, FeedAll(e, before), |Joined(before)|, d)
  {
    assert (before + [d])[..|before|] == before;
  }

  lemma FedTwo(a: Block, b: Block)
    ensures FeedAll(Flip, [a, b]) == Flip(LazyBuf(Flip, ZeroBlock(), a + b))
  {
    hide LazyBuf, Xor, Flip;
    var x := Xor(ZeroBlock(), a);
    assert FeedAll(Flip, [a, b]) == Xor(x, b) by {
      FeedAllSnoc(Flip, [], a);
      FeedAllSnoc(Flip, [a], b);
      JoinedThree(a, b, b);
      var none: seq<seq<byte>>, one: seq<seq<byte>>, two: seq<seq<byte>> := [], [a], [a, b];
      assert none + [a] == one && one + [b] == two;
      assert Zeros(0) + a == a && Zeros(0) + b == b;
      BlockIn(Flip, ZeroBlock(), a);
      BlockIn(Flip, x, b);
    }
    assert LazyBuf(Flip, ZeroBlock(), a + b) == Xor(Flip(x), b) by {
      BlockIn(Flip, ZeroBlock(), a);
      BlockIn(Flip, Flip(x), b);
      LazyNothing(Flip, Flip(x));
      assert [] + b == b;
      SameFuture(Flip, ZeroBlock(), a, Flip(x), [], b);
    }
    FlipXor(x, b);
  }
}
