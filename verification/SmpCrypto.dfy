/** The cryptographic functions of legacy pairing (Vol 3 Part H section 2.2 of the Bluetooth
    Core Specification), and the order in which the host has its controller compute them. */
module SmpCrypto {
  import opened Bytes

  /** The controller's LE Encrypt command takes and returns least significant byte first. */
  function Controller(e: Aes, key: Block, x: Block): Block {
    Reverse(e(Reverse(key), Reverse(x)))
  }

  type Seven = s: seq<byte> | |s| == 7 witness Zeros(7)

  type Address = s: seq<byte> | |s| == 6 witness Zeros(6)

  /** Section 2.2.3, most significant byte first. */
  function C1(e: Aes, k: Block, r: Block, preq: Seven, pres: Seven, iat: byte, rat: byte, ia: Address,
              ra: Address): Block
  {
    e(k, Xor(e(k, Xor(r, pres + preq + [rat, iat])), Zeros(4) + ia + ra))
  }

  /** Section 2.2.4, most significant byte first. */
  function S1(e: Aes, k: Block, r1: seq<byte>, r2: seq<byte>): Block
    requires |r1| >= 8 && |r2| >= 8
  {
    e(k, r1[..8] + r2[..8])
  }

  /** The confirm value, least significant byte first. */
  function LegacyConfirm(e: Aes, tk: Block, rand: Block, preq: Seven, pres: Seven,
                         iat: byte, ia: Address, rat: byte, ra: Address): Block
  {
    Reverse(C1(e, Reverse(tk), Reverse(rand), Reverse(preq), Reverse(pres), iat, rat, Reverse(ia), Reverse(ra)))
  }

  /** The short term key, least significant byte first. */
  function Stk(e: Aes, tk: Block, rrand: Block, irand: Block): Block {
    Reverse(S1(e, Reverse(tk), Reverse(rrand[..8]), Reverse(irand[..8])))
  }

  // ---- what the host hands to the controller ----

  function FirstInput(rand: Block, preq: Seven, pres: Seven, iat: byte, rat: byte): Block {
    Xor([iat, rat] + preq + pres, rand)
  }

  function SecondInput(x: Block, ia: Address, ra: Address): Block {
    Xor(x, ra + ia + Zeros(4))
  }

  function StkInput(irand: Block, rrand: Block): Block {
    irand[..8] + rrand[..8]
  }

  lemma ReverseTwice(s: seq<byte>)
    ensures Reverse(Reverse(s)) == s
  {
  }

  lemma ReverseConcat(a: seq<byte>, b: seq<byte>)
    ensures Reverse(a + b) == Reverse(b) + Reverse(a)
  {
  }

  lemma ReverseXor(a: seq<byte>, b: seq<byte>)
    requires |a| == |b|
    ensures Reverse(Xor(a, b)) == Xor(Reverse(a), Reverse(b))
    ensures Xor(a, b) == Xor(b, a)
  {
    forall i | 0 <= i < |a| ensures a[i] ^ b[i] == b[i] ^ a[i] {
    }
  }

  lemma P1Reversed(preq: Seven, pres: Seven, iat: byte, rat: byte)
    ensures Reverse([iat, rat] + preq + pres) == Reverse(pres) + Reverse(preq) + [rat, iat]
  {
    ReverseConcat([iat, rat] + preq, pres);
    ReverseConcat([iat, rat], preq);
    assert Reverse([iat, rat]) == [rat, iat];
    assert Reverse(pres) + (Reverse(preq) + [rat, iat]) == Reverse(pres) + Reverse(preq) + [rat, iat];
  }

  lemma P2Reversed(ia: Address, ra: Address)
    ensures Reverse(ra + ia + Zeros(4)) == Zeros(4) + Reverse(ia) + Reverse(ra)
  {
    ReverseConcat(ra + ia, Zeros(4));
    ReverseConcat(ra, ia);
    assert Reverse(Zeros(4)) == Zeros(4);
    assert Zeros(4) + (Reverse(ia) + Reverse(ra)) == Zeros(4) + Reverse(ia) + Reverse(ra);
  }

  /** The two encryptions the host asks for make up c1. */
  lemma ConfirmInTwo(e: Aes, tk: Block, rand: Block, preq: Seven, pres: Seven,
                     iat: byte, ia: Address, rat: byte, ra: Address)
    ensures Controller(e, tk, SecondInput(Controller(e, tk, FirstInput(rand, preq, pres, iat, rat)), ia, ra))
         == LegacyConfirm(e, tk, rand, preq, pres, iat, ia, rat, ra)
  {
    var a := [iat, rat] + preq + pres;
    var x := e(Reverse(tk), Reverse(Xor(a, rand)));
    ReverseXor(a, rand);
    ReverseXor(Reverse(a), Reverse(rand));
    P1Reversed(preq, pres, iat, rat);
    ReverseXor(Reverse(x), ra + ia + Zeros(4));
    ReverseTwice(x);
    P2Reversed(ia, ra);
    hide Xor, Reverse, Zeros;
  }

  lemma StkInOne(e: Aes, tk: Block, irand: Block, rrand: Block)
    ensures Controller(e, tk, StkInput(irand, rrand)) == Stk(e, tk, rrand, irand)
  {
    ReverseConcat(irand[..8], rrand[..8]);
    var r1, r2 := Reverse(rrand[..8]), Reverse(irand[..8]);
    assert r1[..8] == r1 && r2[..8] == r2;
  }

  // ---- the toolbox as it runs ----

  /** Turns the bytes around, working outwards from the middle. */
  method Brev(a: array<byte>)
    modifies a
    ensures a[..] == Reverse(old(a[..]))
  {
    var l := a.Length / 2;
    while l > 0
      invariant 0 <= l <= a.Length / 2
      invariant forall k :: l <= k < a.Length - l ==> a[k] == old(a[a.Length - 1 - k])
      invariant forall k :: (0 <= k < l || a.Length - l <= k < a.Length) ==> a[k] == old(a[k])
    {
      l := l - 1;
      a[l], a[a.Length - 1 - l] := a[a.Length - 1 - l], a[l];
    }
  }

  method Bxor(data: seq<byte>, inOut: array<byte>)
    requires |data| == inOut.Length
    modifies inOut
    ensures inOut[..] == Xor(old(inOut[..]), data)
  {
    var l := inOut.Length;
    while l > 0
      invariant 0 <= l <= inOut.Length
      invariant forall k :: l <= k < inOut.Length ==> inOut[k] == old(inOut[k]) ^ data[k]
      invariant forall k :: 0 <= k < l ==> inOut[k] == old(inOut[k])
    {
      l := l - 1;
      inOut[l] := inOut[l] ^ data[l];
    }
  }

  method Store(s: seq<byte>, out: array<byte>)
    requires |s| == out.Length
    modifies out
    ensures out[..] == s
  {
    forall i | 0 <= i < out.Length {
      out[i] := s[i];
    }
  }

  method C1Into(e: Aes, k: Block, r: Block, preq: Seven, pres: Seven, iat: byte, rat: byte, ia: Address, ra: Address,
                out: array<byte>)
    requires out.Length == 16
    modifies out
    ensures out[..] == C1(e, k, r, preq, pres, iat, rat, ia, ra)
  {
    hide Xor;
    Store(r, out);
    Bxor(pres + preq + [rat, iat], out);
    Store(e(k, out[..]), out);
    Bxor(Zeros(4) + ia + ra, out);
    Store(e(k, out[..]), out);
  }

  method LegacyConfirmInto(e: Aes, tk: Block, rand: Block, preq: Seven, pres: Seven,
                           iat: byte, ia: Address, rat: byte, ra: Address, out: array<byte>)
    requires out.Length == 16
    modifies out
    ensures out[..] == Controller(e, tk, SecondInput(Controller(e, tk, FirstInput(rand, preq, pres, iat, rat)), ia, ra))
  {
    C1Into(e, Reverse(tk), Reverse(rand), Reverse(preq), Reverse(pres), iat, rat, Reverse(ia), Reverse(ra), out);
    Brev(out);
    ConfirmInTwo(e, tk, rand, preq, pres, iat, ia, rat, ra);
    hide *;
  }

  method StkInto(e: Aes, tk: Block, rrand: Block, irand: Block, out: array<byte>)
    requires out.Length == 16
    modifies out
    ensures out[..] == Controller(e, tk, StkInput(irand, rrand))
  {
    var r1, r2 := Reverse(rrand[..8]), Reverse(irand[..8]);
    Store(r1[..8] + r2[..8], out);
    Store(e(Reverse(tk), out[..]), out);
    Brev(out);
    StkInOne(e, tk, irand, rrand);
  }
}
