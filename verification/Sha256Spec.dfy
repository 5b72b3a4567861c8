/** SHA-256 as FIPS 180-4 frames it: the padding of section 5.1.1 and the fold of section
    6.2 over 64-byte blocks. The compression of one block is a parameter. */
module Sha256Spec {
  import opened Bytes

  type State = s: seq<bv32> | |s| == 8 witness seq(8, i => 0)

  type Chunk = b: seq<byte> | |b| == 64 witness seq(64, i => 0)

  type Compress = (State, Chunk) -> State

  const H0: State := [0x6a09e667, 0xbb67ae85, 0x3c6ef372, 0xa54ff53a, 0x510e527f, 0x9b05688c, 0x1f83d9ab, 0x5be0cd19]

  const TWO_64: nat := 0x1_0000_0000_0000_0000

  /** The length counter is 64 bits wide. */
  function Wrap(n: nat): nat {
    n % TWO_64
  }

  function Fold(f: Compress, s: State, bs: seq<byte>): State
    requires |bs| % 64 == 0
    decreases |bs|
  {
    if bs == [] then s else Fold(f, f(s, bs[..64]), bs[64..])
  }

  lemma {:induction false} FoldConcat(f: Compress, s: State, a: seq<byte>, b: seq<byte>)
    requires |a| % 64 == 0 && |b| % 64 == 0
    ensures |a + b| % 64 == 0 && Fold(f, s, a + b) == Fold(f, Fold(f, s, a), b)
    decreases |a|
  {
    if a == [] {
      assert a + b == b;
    } else {
      FoldConcat(f, f(s, a[..64]), a[64..], b);
      assert (a + b)[..64] == a[..64] && (a + b)[64..] == a[64..] + b;
    }
  }

  lemma FoldOne(f: Compress, s: State, c: Chunk)
    ensures Fold(f, s, c) == f(s, c)
  {
    assert c[..64] == c && c[64..] == [];
  }

  /** The fewest zero bytes that make message, mark, zeros and length whole blocks. */
  function ZeroCount(n: nat): (k: nat)
    ensures k < 64 && (n + 1 + k + 8) % 64 == 0
  {
    (119 - n % 64) % 64
  }

  /** Section 5.1.1: a one bit, zeros, and the length in bits. */
  function Padding(m: seq<byte>): (r: seq<byte>)
    ensures |r| % 64 == 0
  {
    m + [0x80] + Zeros(ZeroCount(|m|)) + BigEndian(Wrap(8 * |m|), 8)
  }

  function WordByte(w: bv32, i: nat): byte
    requires i < 4
  {
    match i
    case 0 => (w & 0xFF) as bv8
    case 1 => ((w >> 8) & 0xFF) as bv8
    case 2 => ((w >> 16) & 0xFF) as bv8
    case _ => (w >> 24) as bv8
  }

  /** The digest of section 6.2.2: every word most significant byte first. */
  function Digest(s: State): (r: seq<byte>)
    ensures |r| == 32
  {
    seq(32, i requires 0 <= i < 32 => WordByte(s[i / 4], 3 - i % 4))
  }

  function Sha256(f: Compress, m: seq<byte>): seq<byte> {
    Digest(Fold(f, H0, Padding(m)))
  }

  // ---- the padding seen from the last, open block ----

  /** What follows the whole blocks of a message whose last r bytes are open. */
  function Ending(open: seq<byte>, bits: nat): (r: seq<byte>)
    requires |open| < 64
    ensures |r| % 64 == 0
  {
    hide BigEndian;
    if |open| < 56 then open + [0x80] + Zeros(55 - |open|) + BigEndian(bits, 8)
    else open + [0x80] + Zeros(63 - |open|) + (Zeros(56) + BigEndian(bits, 8))
  }

  lemma PaddingEnds(m: seq<byte>)
    ensures var q := |m| - |m| % 64;
            Padding(m) == m[..q] + Ending(m[q..], Wrap(8 * |m|))
  {
    hide BigEndian, Wrap, Zeros, Ending, ZeroCount;
    var q := |m| - |m| % 64;
    var head, open, b := m[..q], m[q..], BigEndian(Wrap(8 * |m|), 8);
    assert m == head + open;
    ZerosNeeded(|m|);
    if |open| < 56 {
      EndingShort(open, Wrap(8 * |m|));
      assert head + open + [0x80] + Zeros(55 - |open|) + b == head + (open + [0x80] + Zeros(55 - |open|) + b);
    } else {
      EndingLong(open, Wrap(8 * |m|));
      assert head + open + [0x80] + Zeros(119 - |open|) + b == head + (open + [0x80] + Zeros(119 - |open|) + b);
    }
  }

  lemma ZerosNeeded(n: nat)
    ensures ZeroCount(n) == if n % 64 < 56 then 55 - n % 64 else 119 - n % 64
  {
  }

  lemma EndingShort(open: seq<byte>, bits: nat)
    requires |open| < 56
    ensures Ending(open, bits) == open + [0x80] + Zeros(55 - |open|) + BigEndian(bits, 8)
  {
  }

  lemma EndingLong(open: seq<byte>, bits: nat)
    requires 56 <= |open| < 64
    ensures Ending(open, bits) == open + [0x80] + Zeros(119 - |open|) + BigEndian(bits, 8)
  {
    hide BigEndian;
    assert Zeros(63 - |open|) + Zeros(56) == Zeros(119 - |open|);
  }

  // ---- an unfinished message ----

  /** m has gone in: its whole blocks into state, the rest is open. */
  ghost predicate Stands(f: Compress, m: seq<byte>, open: seq<byte>, bitlen: nat, state: State) {
    var q := |m| - |m| % 64;
    open == m[q..] && bitlen == Wrap(8 * q) && state == Fold(f, H0, m[..q])
  }

  lemma StandsEmpty(f: Compress)
    ensures Stands(f, [], [], 0, H0)
  {
  }

  lemma StandsByte(f: Compress, m: seq<byte>, open: seq<byte>, bitlen: nat, state: State, b: byte)
    requires Stands(f, m, open, bitlen, state)
    ensures |open| < 63 ==> Stands(f, m + [b], open + [b], bitlen, state)
    ensures |open| == 63 ==> Stands(f, m + [b], [], Wrap(bitlen + 512), f(state, open + [b]))
  {
    hide Fold, Wrap;
    var q, n := |m| - |m| % 64, m + [b];
    assert n[..q] == m[..q] && n[q..] == open + [b];
    if |open| == 63 {
      assert n == n[..q] + (open + [b]) && n[..|n|] == n;
      FoldConcat(f, H0, n[..q], open + [b]);
      FoldOne(f, state, open + [b]);
      BitsAdd(8 * q, 512);
    }
  }

  lemma BitsAdd(n: nat, k: nat)
    ensures Wrap(Wrap(n) + k) == Wrap(n + k)
  {
  }

  lemma BitsAll(q: nat, r: nat)
    ensures Wrap(Wrap(8 * q) + r * 8) == Wrap(8 * (q + r))
  {
    hide Wrap;
    BitsAdd(8 * q, r * 8);
  }

  lemma StandsFor(f: Compress, m: seq<byte>, open: seq<byte>, bitlen: nat, state: State) returns (q: nat)
    requires Stands(f, m, open, bitlen, state)
    ensures q <= |m| && q % 64 == 0 && open == m[q..] && |open| < 64
    ensures state == Fold(f, H0, m[..q])
    ensures Wrap(bitlen + |open| * 8) == Wrap(8 * |m|)
    ensures Padding(m) == m[..q] + Ending(open, Wrap(8 * |m|))
  {
    hide Fold, Ending, Padding, Wrap;
    q := |m| - |m| % 64;
    PaddingEnds(m);
    BitsAll(q, |m| % 64);
  }

  /** Compressing what the open bytes end in finishes the message. */
  lemma StandsEnd(f: Compress, m: seq<byte>, open: seq<byte>, bitlen: nat, state: State)
    requires Stands(f, m, open, bitlen, state) && |open| < 64
    ensures Fold(f, state, Ending(open, Wrap(bitlen + |open| * 8))) == Fold(f, H0, Padding(m))
  {
    hide Stands, Fold, Ending, Padding, Wrap;
    var q := StandsFor(f, m, open, bitlen, state);
    FoldConcat(f, H0, m[..q], Ending(open, Wrap(8 * |m|)));
  }
}
