/** An attribute database, the characteristics it declares, and their encoding in a
    read-by-type response. */
module AttModel {
  import opened Bytes

  const MTU_DEFAULT: nat := 23

  /** declaration: the type is that of a characteristic declaration. */
  datatype Attr = Attr(declaration: bool, is128: bool, uuid: seq<byte>,
                       read: bool, writeCmd: bool, write: bool, ntf: bool, ind: bool)

  /** A characteristic: handle of its declaration, properties, handle and type of its value. */
  datatype Char = Char(handle: nat, props: byte, value: nat, is128: bool, uuid: seq<byte>)

  ghost predicate Known(a: Attr) {
    |a.uuid| == if a.is128 then 16 else 2
  }

  predicate IsDecl(a: Attr) {
    a.declaration && !a.is128
  }

  /** Handles run from 1 to |db|; a declaration is followed by the value's attribute. */
  ghost predicate Database(db: seq<Attr>) {
    && |db| < 0xFFFF
    && (forall i :: 0 <= i < |db| ==> Known(db[i]))
    && (forall i :: 0 <= i < |db| && IsDecl(db[i]) ==> i + 1 < |db| && !IsDecl(db[i + 1]))
  }

  function Props(a: Attr): byte {
    ToByte((if a.read then 2 else 0) + (if a.writeCmd then 4 else 0) + (if a.write then 8 else 0)
           + (if a.ntf then 16 else 0) + (if a.ind then 32 else 0))
  }

  function CharAt(db: seq<Attr>, i: nat): Char
    requires i + 1 < |db|
  {
    Char(i + 1, Props(db[i + 1]), i + 2, db[i + 1].is128, db[i + 1].uuid)
  }

  /** The characteristics declared from index i up to index to, in order. */
  ghost function Chars(db: seq<Attr>, i: nat, to: nat): seq<Char>
    requires Database(db) && to <= |db|
    decreases |db| - i
  {
    if i >= to then []
    else if IsDecl(db[i]) then [CharAt(db, i)] + Chars(db, i + 1, to) else Chars(db, i + 1, to)
  }

  /** The value's attribute declares nothing. */
  lemma CharsSkip(db: seq<Attr>, i: nat, to: nat)
    requires Database(db) && i < to <= |db| && IsDecl(db[i])
    ensures Chars(db, i, to) == [CharAt(db, i)] + Chars(db, i + 2, to)
    ensures Chars(db, i + 1, to) == Chars(db, i + 2, to)
  {
    if i + 1 < to {
      assert Chars(db, i + 1, to) == Chars(db, i + 2, to);
    } else {
      assert Chars(db, i + 1, to) == [] == Chars(db, i + 2, to);
    }
  }

  lemma CharsNext(db: seq<Attr>, i: nat, to: nat)
    requires Database(db) && i < to <= |db| && !IsDecl(db[i])
    ensures Chars(db, i, to) == Chars(db, i + 1, to)
  {
  }

  lemma CharsEnd(db: seq<Attr>, i: nat, to: nat)
    requires Database(db) && to <= |db| && i >= to
    ensures Chars(db, i, to) == []
  {
  }

  /** Nothing but declarations is there. */
  lemma {:induction false} CharsSound(db: seq<Attr>, i: nat, to: nat, n: nat)
    requires Database(db) && to <= |db| && n < |Chars(db, i, to)|
    ensures var c := Chars(db, i, to)[n];
            i < c.handle <= to && IsDecl(db[c.handle - 1]) && c == CharAt(db, c.handle - 1)
    decreases |db| - i
  {
    hide Props;
    if IsDecl(db[i]) {
      if n > 0 {
        CharsSound(db, i + 1, to, n - 1);
      }
    } else {
      CharsSound(db, i + 1, to, n);
    }
  }

  /** Every declaration is there. */
  lemma {:induction false} CharsComplete(db: seq<Attr>, i: nat, to: nat, k: nat) returns (n: nat)
    requires Database(db) && i <= k < to <= |db| && IsDecl(db[k])
    ensures n < |Chars(db, i, to)| && Chars(db, i, to)[n] == CharAt(db, k)
    decreases |db| - i
  {
    hide Props, CharAt;
    if k == i {
      n := 0;
    } else {
      n := CharsComplete(db, i + 1, to, k);
      if IsDecl(db[i]) {
        n := n + 1;
      }
    }
  }

  /** Each is there once: handles increase. */
  lemma {:induction false} CharsOrdered(db: seq<Attr>, i: nat, to: nat, m: nat, n: nat)
    requires Database(db) && to <= |db| && m < n < |Chars(db, i, to)|
    ensures Chars(db, i, to)[m].handle < Chars(db, i, to)[n].handle
    decreases |db| - i
  {
    hide Props;
    if IsDecl(db[i]) {
      CharsSound(db, i + 1, to, n - 1);
      if m > 0 {
        CharsOrdered(db, i + 1, to, m - 1, n - 1);
      }
    } else {
      CharsOrdered(db, i + 1, to, m, n);
    }
  }

  // ---- the encoding ----

  function Size(c: Char): nat {
    if c.is128 then 21 else 7
  }

  ghost predicate Encodable(c: Char) {
    c.handle < 0x1_0000 && c.value < 0x1_0000 && |c.uuid| == if c.is128 then 16 else 2
  }

  function Entry(c: Char): seq<byte> {
    LittleEndian16(c.handle) + [c.props] + LittleEndian16(c.value) + c.uuid
  }

  function Entries(cs: seq<Char>): seq<byte>
    decreases |cs|
  {
    if cs == [] then [] else Entries(cs[..|cs| - 1]) + Entry(cs[|cs| - 1])
  }

  lemma EntrySize(c: Char)
    requires |c.uuid| == if c.is128 then 16 else 2
    ensures |Entry(c)| == Size(c)
  {
  }

  lemma {:induction false} EntriesLength(cs: seq<Char>, size: nat)
    requires forall i :: 0 <= i < |cs| ==> |Entry(cs[i])| == size
    ensures |Entries(cs)| == |cs| * size
    decreases |cs|
  {
    hide Entry;
    if cs != [] {
      var n := |cs| - 1;
      assert forall i :: 0 <= i < n ==> cs[..n][i] == cs[i];
      EntriesLength(cs[..n], size);
      assert |cs| * size == n * size + size;
    }
  }

  /** How many of the entries fit into what is left of a response. */
  function Fitting(cs: seq<Char>, offset: nat): (n: nat)
    ensures n <= |cs|
    decreases |cs|
  {
    if cs == [] || offset + Size(cs[0]) > MTU_DEFAULT then 0 else 1 + Fitting(cs[1..], offset + Size(cs[0]))
  }

  /** The size byte of a response. It is decided only if the range goes on after the first
      declaration. */
  function SizeByte(c: Char, eh: nat): nat {
    if c.handle == eh then 21 else Size(c)
  }

  /** A response is full: what is in it fits into 23 bytes behind opcode and size, and the next
      entry, of 21 or 7 bytes, does not. */
  lemma FullResponse(cs: seq<Char>)
    requires cs != []
    ensures var n, size := Fitting(cs, 2), if cs[0].is128 then 21 else 7;
            && 1 <= n && 2 + n * size <= 23
            && (n < |cs| ==> 2 + n * size + (if cs[n].is128 then 21 else 7) > 23)
  {
    if cs[0].is128 {
      assert Fitting(cs[1..], 23) == 0;
    } else {
      assert Fitting(cs, 2) == 1 + Fitting(cs[1..], 9);
      if |cs| > 1 && !cs[1].is128 {
        assert cs[1..][1..] == cs[2..];
        assert Fitting(cs[1..], 9) == 1 + Fitting(cs[2..], 16);
        if |cs| > 2 && !cs[2].is128 {
          assert cs[2..][1..] == cs[3..];
          assert Fitting(cs[2..], 16) == 1 + Fitting(cs[3..], 23);
          assert Fitting(cs[3..], 23) == 0;
        } else {
          assert Fitting(cs[2..], 16) == 0;
        }
      } else {
        assert Fitting(cs[1..], 9) == 0;
      }
    }
  }

  /** Entries of different sizes never fit into one response. */
  lemma {:induction false} OneSize(cs: seq<Char>, i: nat)
    requires i < Fitting(cs, 2)
    ensures cs[i].is128 == cs[0].is128
    ensures Fitting(cs, 2) <= 3
  {
    var c := cs[0];
    if c.is128 {
      assert Fitting(cs[1..], 23) == 0;
    } else {
      assert Fitting(cs, 2) == 1 + Fitting(cs[1..], 9);
      if |cs| > 1 && !cs[1].is128 {
        assert Fitting(cs[1..], 9) == 1 + Fitting(cs[1..][1..], 16);
        if |cs| > 2 && !cs[2].is128 {
          assert Fitting(cs[1..][1..], 16) == 1 + Fitting(cs[1..][1..][1..], 23);
          assert Fitting(cs[1..][1..][1..], 23) == 0;
        } else {
          assert Fitting(cs[1..][1..], 16) == 0;
        }
      } else {
        assert Fitting(cs[1..], 9) == 0;
      }
    }
  }
}
