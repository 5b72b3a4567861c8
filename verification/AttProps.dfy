/** What a response of the server says about a characteristic, byte by byte. */
module AttProps {
  import opened AttModel
  import opened AttServer
  import opened Bytes
  import opened Options

  /** The properties byte: one bit for each thing the value allows, and no other. */
  predicate Allows(b: byte, a: Attr) {
    && (b & 0x02 != 0 <==> a.read) && (b & 0x04 != 0 <==> a.writeCmd) && (b & 0x08 != 0 <==> a.write)
    && (b & 0x10 != 0 <==> a.ntf) && (b & 0x20 != 0 <==> a.ind) && b & 0xC1 == 0
  }

  function Ors(r: bool, c: bool, w: bool, n: bool, i: bool): byte {
    (if r then 2 else 0) | (if c then 4 else 0) | (if w then 8 else 0) | (if n then 16 else 0) | (if i then 32 else 0)
  }

  lemma OrsBits(a: Attr)
    ensures Allows(Ors(a.read, a.writeCmd, a.write, a.ntf, a.ind), a)
  {
  }

  lemma OrsSum(r: bool, c: bool, w: bool, n: bool, i: bool)
    ensures Ors(r, c, w, n, i) as int
         == (if r then 2 else 0) + (if c then 4 else 0) + (if w then 8 else 0) + (if n then 16 else 0)
            + (if i then 32 else 0)
  {
  }

  lemma PropsAllow(a: Attr)
    ensures Allows(Props(a), a)
  {
    hide Allows, Ors;
    OrsBits(a);
    OrsSum(a.read, a.writeCmd, a.write, a.ntf, a.ind);
    SameByte(Props(a), Ors(a.read, a.writeCmd, a.write, a.ntf, a.ind));
    hide ToByte;
  }

  /** The bytes of an entry for a declaration with handle h, whose value has the next. */
  ghost predicate Describes(p: seq<byte>, h: nat, value: Attr) {
    && |p| == 5 + |value.uuid|
    && p[0] as int + 256 * (p[1] as int) == h
    && Allows(p[2], value)
    && p[3] as int + 256 * (p[4] as int) == h + 1
    && p[5..] == value.uuid
  }

  lemma EntryDescribes(db: seq<Attr>, k: nat)
    requires k + 1 < |db| < 0xFFFF
    ensures Describes(Entry(CharAt(db, k)), k + 1, db[k + 1])
  {
    hide Allows, Props, ToByte;
    PropsAllow(db[k + 1]);
    Digits16(k + 1);
    Digits16(k + 2);
  }

  lemma {:induction false} EntriesSplit(cs: seq<Char>, i: nat, size: nat)
    requires i < |cs| && forall j :: 0 <= j < |cs| ==> |Entry(cs[j])| == size
    ensures |Entries(cs)| == |cs| * size && i * size + size <= |cs| * size
    ensures Entries(cs)[i * size..i * size + size] == Entry(cs[i])
    decreases |cs|
  {
    hide Entry;
    var n := |cs| - 1;
    EntriesLength(cs, size);
    EntriesLength(cs[..n], size);
    Products(i, n, size);
    var a := Entries(cs[..n]);
    assert Entries(cs) == a + Entry(cs[n]);
    if i < n {
      EntriesSplit(cs[..n], i, size);
      assert Entries(cs)[i * size..i * size + size] == a[i * size..i * size + size];
    }
  }

  lemma Products(i: nat, n: nat, size: nat)
    ensures i < n ==> i * size + size <= n * size
    ensures (n + 1) * size == n * size + size && i * size >= 0
  {
    if i < n {
      assert (n - i - 1) * size >= 0;
    }
  }

  /** Every response starts with the opcode 9, and its entries describe declarations of the
      database in the range asked for, in order. */
  lemma ResponseDescribes(db: seq<Attr>, sh: nat, eh: nat, rsp: seq<byte>, i: nat) returns (k: nat)
    requires Database(db) && Answers(db, sh, eh, Some(rsp)) && i < Fitting(Asked(db, sh, eh), 2)
    ensures rsp[0] == 9 && sh <= k + 1 <= eh && k + 1 < |db| && db[k].declaration && !db[k].is128
    ensures var size := if db[k + 1].is128 then 21 else 7;
            && 2 + i * size + size <= |rsp|
            && Describes(rsp[2 + i * size..2 + i * size + size], k + 1, db[k + 1])
  {
    hide Entry, Entries, Fitting, Chars, Describes, ToByte, Database, Answers;
    var cs := Asked(db, sh, eh);
    var n := Fitting(cs, 2);
    k := DeclarationOf(db, sh, eh, i);
    var size := Size(cs[i]);
    forall j | 0 <= j < n ensures |Entry(cs[..n][j])| == size {
      OneSize(cs, j);
      OneSize(cs, i);
      AskedKnown(db, sh, eh, j);
    }
    EntriesSplit(cs[..n], i, size);
    EntryDescribes(db, k);
    AnswerIs(db, sh, eh, rsp);
    Behind(rsp, i * size, i * size + size);
  }

  lemma DeclarationOf(db: seq<Attr>, sh: nat, eh: nat, i: nat) returns (k: nat)
    requires Database(db) && i < |Asked(db, sh, eh)|
    ensures sh <= k + 1 <= eh && k + 1 < |db| < 0xFFFF && db[k].declaration && !db[k].is128
    ensures Asked(db, sh, eh)[i] == CharAt(db, k)
  {
    hide Chars, Props;
    var to := if eh < |db| then eh else |db|;
    CharsSound(db, sh - 1, to, i);
    k := Asked(db, sh, eh)[i].handle - 1;
  }

  lemma AnswerIs(db: seq<Attr>, sh: nat, eh: nat, rsp: seq<byte>)
    requires Database(db) && Answers(db, sh, eh, Some(rsp))
    ensures var cs := Asked(db, sh, eh); |rsp| >= 2 && rsp[0] == 9 && rsp[2..] == Entries(cs[..Fitting(cs, 2)])
  {
    hide Entries, Fitting, Chars, ToByte;
  }

  lemma Behind(rsp: seq<byte>, i: nat, j: nat)
    requires |rsp| >= 2 && i <= j <= |rsp[2..]|
    ensures rsp[2..][i..j] == rsp[2 + i..2 + j]
  {
  }
}
