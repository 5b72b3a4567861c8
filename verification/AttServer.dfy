/** The server's answer to a read by type for characteristic declarations, as it runs. */
module AttServer {
  import opened AttModel
  import opened Bytes
  import opened Options

  /** The answer to a request for handles sh to eh: as many characteristics, in order, as
      fit, or None for the error that none was found. */
  ghost predicate Answers(db: seq<Attr>, sh: nat, eh: nat, rsp: Option<seq<byte>>)
    requires Database(db)
  {
    var cs := Asked(db, sh, eh);
    var n := Fitting(cs, 2);
    if cs == [] then rsp == None
    else rsp == Some([0x09, ToByte(SizeByte(cs[0], eh))] + Entries(cs[..n])) && n > 0
  }

  ghost function Asked(db: seq<Attr>, sh: nat, eh: nat): seq<Char>
    requires Database(db)
  {
    if sh == 0 then [] else Chars(db, sh - 1, if eh < |db| then eh else |db|)
  }

  // ---- the size byte ----

  /** How many characteristics a client counts in a response. */
  function Counted(rsp: seq<byte>): nat
    requires |rsp| >= 2 && rsp[1] != 0
  {
    (|rsp| - 2) / (rsp[1] as int)
  }

  lemma AskedKnown(db: seq<Attr>, sh: nat, eh: nat, i: nat)
    requires Database(db) && i < |Asked(db, sh, eh)|
    ensures var c := Asked(db, sh, eh)[i]; |Entry(c)| == Size(c)
  {
    var to := if eh < |db| then eh else |db|;
    CharsSound(db, sh - 1, to, i);
    var c := Asked(db, sh, eh)[i];
    assert Known(db[c.handle]);
    EntrySize(c);
    hide Chars, Props, Entry;
  }

  /** In every response the client counts as many characteristics as there are if and only if
      the first one is not declared by the last handle asked for, or is 128-bit. */
  lemma SizeByteRight(db: seq<Attr>, sh: nat, eh: nat, rsp: seq<byte>)
    requires Database(db) && Answers(db, sh, eh, Some(rsp))
    ensures var cs := Asked(db, sh, eh);
            && cs != [] && |rsp| >= 2 && rsp[1] != 0 && |rsp| - 2 == Fitting(cs, 2) * Size(cs[0])
            && (Counted(rsp) == Fitting(cs, 2) <==> cs[0].handle != eh || cs[0].is128)
  {
    var cs := Asked(db, sh, eh);
    var n := Fitting(cs, 2);
    forall i | 0 <= i < n ensures |Entry(cs[..n][i])| == Size(cs[0]) {
      OneSize(cs, i);
      AskedKnown(db, sh, eh, i);
    }
    EntriesLength(cs[..n], Size(cs[0]));
    OneSize(cs, 0);
    hide Entry, Entries, Asked, Fitting;
    Quotients(n);
  }

  lemma Quotients(n: nat)
    requires 1 <= n <= 3
    ensures n * 7 / 7 == n && n * 7 / 21 != n && n * 21 / 21 == n
  {
  }

  /** A declaration and its 16-bit value. */
  function Single(): seq<Attr> {
    [Attr(true, false, [0x03, 0x28], true, false, false, false, false),
     Attr(false, false, [0x00, 0x2A], true, false, false, false, false)]
  }

  /** Asked for handle 1 alone, the server puts size 21 before an entry of 7 bytes, and the
      client counts nothing. */
  lemma LastHandleFails()
    ensures Database(Single())
    ensures forall rsp :: Answers(Single(), 1, 1, rsp) ==> Miscounted(rsp)
  {
    forall rsp | Answers(Single(), 1, 1, rsp) ensures Miscounted(rsp) {
      SingleMiscounted(rsp);
    }
    hide Answers;
  }

  /** A response with one entry in which the client counts none. */
  predicate Miscounted(rsp: Option<seq<byte>>) {
    rsp.Some? && |rsp.value| == 9 && rsp.value[1] == 21 && Counted(rsp.value) == 0
  }

  lemma SingleMiscounted(rsp: Option<seq<byte>>)
    requires Database(Single()) && Answers(Single(), 1, 1, rsp)
    ensures Miscounted(rsp)
  {
    hide Entry, Props;
    var db := Single();
    var cs := Asked(db, 1, 1);
    assert cs == [CharAt(db, 0)] by {
      CharsSkip(db, 0, 1);
      CharsEnd(db, 2, 1);
    }
    assert Fitting(cs, 2) == 1 + Fitting(cs[1..], 9);
    SizeByteRight(db, 1, 1, rsp.value);
  }

  // ---- building a response ----

  /** Of the characteristics all, done are in the response and rest are not yet. */
  ghost predicate Building(all: seq<Char>, done: seq<Char>, rest: seq<Char>, rsp: seq<byte>) {
    && all == done + rest
    && 2 <= |rsp| <= MTU_DEFAULT && rsp[..1] == [0x09] && rsp[2..] == Entries(done)
    && Fitting(all, 2) == |done| + Fitting(rest, |rsp|)
    && (done == [] ==> |rsp| == 2)
  }

  ghost predicate Built(all: seq<Char>, done: seq<Char>, rsp: seq<byte>) {
    && |rsp| >= 2 && rsp[..1] == [0x09] && rsp[2..] == Entries(done)
    && Fitting(all, 2) == |done| && done == all[..|done|]
    && (done == [] ==> all == [] && |rsp| == 2) && (done != [] ==> |rsp| > 2)
  }

  lemma {:induction false} EntriesGrow(cs: seq<Char>)
    ensures cs != [] ==> |Entries(cs)| >= |Entry(cs[|cs| - 1])| >= 5
  {
  }

  lemma Add(all: seq<Char>, done: seq<Char>, rest: seq<Char>, rsp: seq<byte>)
    requires Building(all, done, rest, rsp) && rest != [] && |rsp| + Size(rest[0]) <= MTU_DEFAULT
    requires |rest[0].uuid| == if rest[0].is128 then 16 else 2
    ensures Building(all, done + [rest[0]], rest[1..], rsp + Entry(rest[0]))
    ensures all[0].is128 == rest[0].is128
  {
    hide Entry;
    EntrySize(rest[0]);
    var more := done + [rest[0]];
    assert more[..|more| - 1] == done && all == more + rest[1..];
    assert (rsp + Entry(rest[0]))[2..] == rsp[2..] + Entry(rest[0]) && (rsp + Entry(rest[0]))[..1] == rsp[..1];
    assert all[|done|] == rest[0];
    OneSize(all, |done|);
  }

  lemma Finish(all: seq<Char>, done: seq<Char>, rest: seq<Char>, rsp: seq<byte>)
    requires Building(all, done, rest, rsp) && (rest == [] || |rsp| + Size(rest[0]) > MTU_DEFAULT)
    ensures Built(all, done, rsp)
  {
    EntriesGrow(done);
  }

  lemma Begin(all: seq<Char>, rsp: seq<byte>)
    requires rsp == [0x09, 0]
    ensures Building(all, [], all, rsp)
  {
    assert [] + all == all;
  }

  /** The first characteristic of all is the first one done. */
  lemma AllFirst(all: seq<Char>, done: seq<Char>, rest: seq<Char>, rsp: seq<byte>)
    requires Building(all, done, rest, rsp) && rest != []
    ensures all != [] && all[0] == if done == [] then rest[0] else done[0]
  {
  }

  /** The response with its size byte is the answer. */
  lemma Complete(db: seq<Attr>, sh: nat, eh: nat, done: seq<Char>, rsp: seq<byte>, size: byte)
    requires Database(db) && Built(Asked(db, sh, eh), done, rsp)
    requires done != [] ==> size == ToByte(SizeByte(done[0], eh))
    ensures Answers(db, sh, eh, if |rsp| == 2 then None else Some(rsp[1 := size]))
  {
    hide ToByte, SizeByte, Entries, Asked, Fitting;
    if |rsp| > 2 {
      assert rsp[1 := size] == rsp[..1] + [size] + rsp[2..] && [0x09] + [size] == [0x09, size];
    }
  }

  lemma HasValue(db: seq<Attr>, i: nat)
    requires Database(db) && i < |db| && IsDecl(db[i])
    ensures i + 1 < |db| && |db[i + 1].uuid| == if db[i + 1].is128 then 16 else 2
  {
    assert Known(db[i + 1]);
  }

  lemma Sizes()
    ensures forall c: Char, eh: nat :: SizeByte(c, eh) == if c.handle == eh || c.is128 then 21 else 7
  {
  }

  method ReadByType(db: seq<Attr>, sh: nat, eh: nat) returns (rsp: Option<seq<byte>>)
    requires Database(db) && sh < 0x1_0000 && eh < 0x1_0000
    ensures Answers(db, sh, eh, rsp)
  {
    hide Entry, Props, Building, Built, Fitting, Entries, SizeByte, Chars, IsDecl;
    var cmd: seq<byte> := [0x09, 0];
    var is128: Option<bool> := None;
    var i: nat := if sh == 0 then 0xFFFF else sh - 1;
    ghost var to := if eh < |db| then eh else |db|;
    ghost var all, done := Asked(db, sh, eh), [];
    ghost var rest := all;
    Begin(all, cmd);
    if sh == 0 {
      CharsEnd(db, i, to);
    }
    while i < |db| && i < eh
      invariant rest == Chars(db, i, to) && Building(all, done, rest, cmd)
      invariant if done == [] then is128 == None
                else all != [] && done[0] == all[0] && all[0].handle < eh && is128 == Some(all[0].is128)
      decreases 0x1_0000 - i
    {
      if IsDecl(db[i]) {
        HasValue(db, i);
        var c := CharAt(db, i);
        CharsSkip(db, i, to);
        if |cmd| + Size(c) > MTU_DEFAULT {
          break;
        }
        AllFirst(all, done, rest, cmd);
        Add(all, done, rest, cmd);
        cmd := cmd + Entry(c);
        done, rest := done + [c], rest[1..];
        if i + 1 >= eh || i + 1 >= |db| {
          CharsEnd(db, i + 2, to);
          break;
        }
        if is128.None? {
          is128 := Some(c.is128);
        } else if is128.value != c.is128 {
          break;
        }
        i := i + 1;
      } else {
        CharsNext(db, i, to);
      }
      i := i + 1;
    }
    if i >= to {
      CharsEnd(db, i, to);
    }
    Finish(all, done, rest, cmd);
    var size := if is128 == Some(false) then 7 else 21;
    assert done != [] ==> size == SizeByte(done[0], eh) by {
      Sizes();
    }
    Complete(db, sh, eh, done, cmd, ToByte(size));
    if |cmd| == 2 {
      return None;
    }
    return Some(cmd[1 := ToByte(size)]);
  }
}
