/** The client's side of finding characteristics, and both sides together. */
module Discovery {
  import opened AttModel
  import opened AttProps
  import opened AttServer
  import opened Bytes
  import opened Options

  /** All of one size and fit to be in a response. */
  ghost predicate Uniform(cs: seq<Char>) {
    cs != [] && forall i :: 0 <= i < |cs| ==> Encodable(cs[i]) && cs[i].is128 == cs[0].is128
  }

  lemma EntriesAt(cs: seq<Char>, i: nat)
    requires Uniform(cs) && i < |cs|
    ensures |Entries(cs)| == |cs| * Size(cs[0])
    ensures 0 <= i * Size(cs[0]) <= (i + 1) * Size(cs[0]) <= |Entries(cs)|
    ensures Entries(cs)[i * Size(cs[0])..(i + 1) * Size(cs[0])] == Entry(cs[i])
  {
    hide Entry, Entries;
    forall j | 0 <= j < |cs| ensures |Entry(cs[j])| == Size(cs[0]) {
      EntrySize(cs[j]);
    }
    EntriesSplit(cs, i, Size(cs[0]));
    Products(i, i + 1, Size(cs[0]));
    assert (i + 1) * Size(cs[0]) == i * Size(cs[0]) + Size(cs[0]);
  }

  lemma EntryReads(c: Char)
    requires Encodable(c)
    ensures var p := Entry(c);
            |p| == Size(c) && Decode16(p[0..2]) == c.handle && p[2] == c.props && Decode16(p[3..5]) == c.value
              && p[5..] == c.uuid
  {
    hide Decode16, LittleEndian16;
    var p := Entry(c);
    Decode16Inverts(c.handle);
    Decode16Inverts(c.value);
    assert p[0..2] == LittleEndian16(c.handle) && p[3..5] == LittleEndian16(c.value);
  }

  /** Takes a response apart. chars has room for three. */
  method Decode(data: seq<byte>, ghost cs: seq<Char>) returns (chars: seq<Char>)
    requires Uniform(cs) && |data| <= MTU_DEFAULT
    requires data == [0x09, ToByte(Size(cs[0]))] + Entries(cs)
    ensures chars == cs && |chars| <= 3
  {
    hide Entry, Entries, Decode16, Uniform, ToByte;
    var size: nat := data[1] as int;
    EntriesAtFirst(cs);
    var charNum := (|data| - 2) / size;
    Quotient(|cs|, size);
    chars := [];
    for i := 0 to charNum
      invariant chars == cs[..i]
    {
      EntriesAt(cs, i);
      EntryOf(cs, i);
      EntryReads(cs[i]);
      Products(i, charNum, size);
      ghost var q := data[2..];
      assert q == Entries(cs);
      var p := data[2 + i * size..2 + (i + 1) * size];
      assert p == q[i * size..(i + 1) * size];
      chars := chars + [Char(Decode16(p[0..2]), p[2], Decode16(p[3..5]), size != 7, p[5..])];
    }
  }

  lemma EntryOf(cs: seq<Char>, i: nat)
    requires Uniform(cs) && i < |cs|
    ensures Encodable(cs[i]) && cs[i].is128 == cs[0].is128
  {
  }

  lemma EntriesAtFirst(cs: seq<Char>)
    requires Uniform(cs)
    ensures cs != [] && |Entries(cs)| == |cs| * Size(cs[0])
  {
    EntriesAt(cs, 0);
  }

  lemma Quotient(n: nat, k: nat)
    requires k == 7 || k == 21
    ensures n * k / k == n
  {
    if k == 7 {
      assert n * 7 / 7 == n;
    } else {
      assert n * 21 / 21 == n;
    }
  }

  // ---- the client's table ----

  datatype Row = Declaration(props: byte) | Value(props: byte, is128: bool, uuid: seq<byte>)

  function Record(db: map<nat, Row>, c: Char): map<nat, Row> {
    db[c.handle := Declaration(c.props)][c.value := Value(c.props, c.is128, c.uuid)]
  }

  function RecordAll(db: map<nat, Row>, cs: seq<Char>): map<nat, Row>
    decreases |cs|
  {
    if cs == [] then db else Record(RecordAll(db, cs[..|cs| - 1]), cs[|cs| - 1])
  }

  lemma {:induction false} RecordConcat(db: map<nat, Row>, a: seq<Char>, b: seq<Char>)
    ensures RecordAll(db, a + b) == RecordAll(RecordAll(db, a), b)
    decreases |b|
  {
    if b == [] {
      assert a + b == a;
    } else {
      assert (a + b)[..|a + b| - 1] == a + b[..|b| - 1];
      RecordConcat(db, a, b[..|b| - 1]);
    }
  }

  /** The rows for a declaration with handle h: properties, and the value with its type. */
  ghost predicate HasRows(db: map<nat, Row>, h: nat, value: Attr) {
    && h in db && db[h].Declaration? && Allows(db[h].props, value)
    && h + 1 in db && db[h + 1].Value? && Allows(db[h + 1].props, value)
    && db[h + 1].is128 == value.is128 && db[h + 1].uuid == value.uuid
  }

  predicate Declares(a: Attr) {
    a.declaration && !a.is128
  }

  /** The table has the rows of every declaration of the server, and no others. */
  ghost predicate Tabled(server: seq<Attr>, db: map<nat, Row>) {
    && (forall k :: 0 <= k < |server| && Declares(server[k]) ==>
          k + 1 < |server| && HasRows(db, k + 1, server[k + 1]))
    && (forall h :: h in db ==> OfDeclaration(server, h))
  }

  /** Handle h is that of a declaration or of the value behind one. */
  ghost predicate OfDeclaration(server: seq<Attr>, h: nat) {
    exists k :: 0 <= k < |server| && Declares(server[k]) && (h == k + 1 || h == k + 2)
  }

  /** Values come before the next declaration. */
  ghost predicate Apart(cs: seq<Char>) {
    && (forall i :: 0 <= i < |cs| ==> cs[i].value == cs[i].handle + 1)
    && (forall i, j :: 0 <= i < j < |cs| ==> cs[i].value < cs[j].handle)
  }

  ghost predicate RowsOf(db: map<nat, Row>, c: Char) {
    && c.handle in db && db[c.handle] == Declaration(c.props)
    && c.value in db && db[c.value] == Value(c.props, c.is128, c.uuid)
  }

  /** h is the handle or the value handle of one of the first n. */
  ghost predicate Mentioned(cs: seq<Char>, n: nat, h: nat)
    requires n <= |cs|
  {
    exists i :: 0 <= i < n && (h == cs[i].handle || h == cs[i].value)
  }

  lemma {:induction false} RecordsAre(cs: seq<Char>, n: nat)
    requires Apart(cs) && n <= |cs|
    ensures var m := RecordAll(map[], cs[..n]);
            && (forall i :: 0 <= i < n ==> RowsOf(m, cs[i]))
            && (forall h :: h in m ==> Mentioned(cs, n, h))
    decreases n
  {
    hide RecordAll, RowsOf, Mentioned;
    if n == 0 {
      RecordNothing(map[]);
    } else {
      var c := cs[n - 1];
      var less := RecordAll(map[], cs[..n - 1]);
      RecordsAre(cs, n - 1);
      RecordLast(cs, n);
      forall i | 0 <= i < n ensures RowsOf(Record(less, c), cs[i]) {
        StillThere(less, c, cs[i], i == n - 1);
      }
      forall h | h in Record(less, c) ensures Mentioned(cs, n, h) {
        MentionedOn(cs, n, h);
      }
    }
  }

  lemma RecordLast(cs: seq<Char>, n: nat)
    requires 0 < n <= |cs|
    ensures RecordAll(map[], cs[..n]) == Record(RecordAll(map[], cs[..n - 1]), cs[n - 1])
  {
    assert cs[..n][..n - 1] == cs[..n - 1];
  }

  lemma StillThere(less: map<nat, Row>, c: Char, b: Char, same: bool)
    requires c.value == c.handle + 1 && b.value == b.handle + 1
    requires if same then b == c else RowsOf(less, b) && b.value < c.handle
    ensures RowsOf(Record(less, c), b)
  {
  }

  lemma MentionedOn(cs: seq<Char>, n: nat, h: nat)
    requires 0 < n <= |cs|
    ensures Mentioned(cs, n - 1, h) || h == cs[n - 1].handle || h == cs[n - 1].value ==> Mentioned(cs, n, h)
  {
  }

  lemma NotNext(server: seq<Attr>, k: nat)
    requires Database(server) && k < |server| && IsDecl(server[k])
    ensures k + 1 < |server| && !IsDecl(server[k + 1])
  {
  }

  lemma CharsApart(server: seq<Attr>)
    requires Database(server)
    ensures Apart(Chars(server, 0, |server|))
  {
    hide Chars, Props, IsDecl, Database;
    var cs := Chars(server, 0, |server|);
    forall i | 0 <= i < |cs| ensures cs[i].value == cs[i].handle + 1 {
      CharsSound(server, 0, |server|, i);
    }
    forall i, j | 0 <= i < j < |cs| ensures cs[i].value < cs[j].handle {
      CharsOrdered(server, 0, |server|, i, j);
      CharsSound(server, 0, |server|, i);
      CharsSound(server, 0, |server|, j);
      NotNext(server, cs[i].handle - 1);
    }
  }

  lemma RowsKept(server: seq<Attr>, cs: seq<Char>, m: map<nat, Row>, k: nat)
    requires Database(server) && cs == Chars(server, 0, |server|) && k < |server| && Declares(server[k])
    requires forall i :: 0 <= i < |cs| ==> RowsOf(m, cs[i])
    ensures k + 1 < |server| && HasRows(m, k + 1, server[k + 1])
  {
    hide Chars, Props, Allows, Database, RowsOf;
    NotNext(server, k);
    var n := CharsComplete(server, 0, |server|, k);
    assert RowsOf(m, cs[n]);
    PropsAllow(server[k + 1]);
    RowsHas(m, server, k);
  }

  lemma RowsHas(m: map<nat, Row>, server: seq<Attr>, k: nat)
    requires k + 1 < |server| && RowsOf(m, CharAt(server, k)) && Allows(Props(server[k + 1]), server[k + 1])
    ensures HasRows(m, k + 1, server[k + 1])
  {
    hide Props, Allows;
  }

  lemma RowsFrom(server: seq<Attr>, cs: seq<Char>, h: nat)
    requires Database(server) && cs == Chars(server, 0, |server|) && Mentioned(cs, |cs|, h)
    ensures OfDeclaration(server, h)
  {
    hide Chars, Props;
    var i :| 0 <= i < |cs| && (h == cs[i].handle || h == cs[i].value);
    CharsSound(server, 0, |server|, i);
    var k := cs[i].handle - 1;
    assert Declares(server[k]) && (h == k + 1 || h == k + 2);
  }

  /** What recording all characteristics leaves is the table. */
  lemma AllTabled(server: seq<Attr>)
    requires Database(server)
    ensures Tabled(server, RecordAll(map[], Chars(server, 0, |server|)))
  {
    hide Chars, RecordAll, HasRows, Mentioned, RowsOf, OfDeclaration, Database;
    var cs := Chars(server, 0, |server|);
    assert cs[..|cs|] == cs;
    var m := RecordAll(map[], cs);
    CharsApart(server);
    RecordsAre(cs, |cs|);
    forall k | 0 <= k < |server| && Declares(server[k])
      ensures k + 1 < |server| && HasRows(m, k + 1, server[k + 1])
    {
      RowsKept(server, cs, m, k);
    }
    forall h | h in m ensures OfDeclaration(server, h) {
      RowsFrom(server, cs, h);
    }
  }

  class Client {
    var db: map<nat, Row>
    ghost var found: seq<Char>

    constructor ()
      ensures db == map[] && found == []
    {
      db, found := map[], [];
    }

    /** Records the characteristics of a response; the result is where to ask on. */
    method OnChars(chars: seq<Char>) returns (next: Option<nat>)
      requires chars != []
      modifies this
      ensures db == RecordAll(old(db), chars) && found == old(found) + chars
      ensures next == if chars[|chars| - 1].value == 0xFFFF then None else Some(chars[|chars| - 1].value + 1)
    {
      var last := chars[0];
      for i := 0 to |chars|
        invariant db == RecordAll(old(db), chars[..i]) && found == old(found) && (i > 0 ==> last == chars[i - 1])
      {
        assert chars[..i + 1][..i] == chars[..i];
        last := chars[i];
        db := db[last.handle := Declaration(last.props)];
        db := db[last.value := Value(last.props, last.is128, last.uuid)];
      }
      assert chars[..|chars|] == chars;
      found := found + chars;
      return if last.value == 0xFFFF then None else Some(last.value + 1);
    }

    /** One request, and what its answer makes the client record. */
    method Ask(server: seq<Attr>, start: nat) returns (next: Option<nat>, ghost cs: seq<Char>)
      requires Database(server) && 1 <= start <= |server| + 1
      modifies this
      ensures db == RecordAll(old(db), cs) && found == old(found) + cs
      ensures next.None? ==> Chars(server, start - 1, |server|) == cs == []
      ensures next.Some? ==> start < next.value <= |server| + 1
                             && Chars(server, start - 1, |server|) == cs + Chars(server, next.value - 1, |server|)
    {
      hide Answers, Chars, Uniform, RecordAll, Entries, ToByte;
      var rsp := ReadByType(server, start, 0xFFFF);
      cs := Answered(server, start, rsp);
      if rsp.None? {
        RecordNothing(db);
        cs := [];
        return None, cs;
      }
      var chars := Decode(rsp.value, cs);
      next := OnChars(chars);
    }

    /** Asks for characteristics up to the last handle until there are none: the client ends
        up with every characteristic of the server's database, each found once, in order. */
    method Discover(server: seq<Attr>)
      requires Database(server) && db == map[] && found == []
      modifies this
      ensures found == Chars(server, 0, |server|)
      ensures db == RecordAll(map[], Chars(server, 0, |server|)) && Tabled(server, db)
    {
      hide Chars, RecordAll, Remaining, Tabled;
      var next := Some(1);
      RecordNothing(map[]);
      assert [] + Remaining(server, next) == Chars(server, 0, |server|) by { RemainingIs(server, next); }
      while next.Some?
        invariant next.Some? ==> 1 <= next.value <= |server| + 1
        invariant db == RecordAll(map[], found)
        invariant found + Remaining(server, next) == Chars(server, 0, |server|)
        decreases next.Some?, if next.Some? then |server| + 1 - next.value else 0
      {
        ghost var before, was := found, next;
        ghost var cs;
        next, cs := Ask(server, next.value);
        RecordConcat(map[], before, cs);
        RemainingIs(server, was);
        RemainingIs(server, next);
        Shift(before, cs, Remaining(server, next));
      }
      RemainingIs(server, next);
      AllTabled(server);
    }
  }

  /** What is still to be found. */
  ghost function Remaining(server: seq<Attr>, next: Option<nat>): seq<Char>
    requires Database(server)
  {
    if next.Some? && next.value > 0 then Chars(server, next.value - 1, |server|) else []
  }

  lemma RemainingIs(server: seq<Attr>, next: Option<nat>)
    requires Database(server)
    ensures Remaining(server, next)
         == if next.Some? && next.value > 0 then Chars(server, next.value - 1, |server|) else []
  {
  }

  lemma Shift(f: seq<Char>, cs: seq<Char>, r: seq<Char>)
    ensures (f + cs) + r == f + (cs + r)
    ensures cs + [] == cs
  {
  }

  lemma RecordNothing(db: map<nat, Row>)
    ensures RecordAll(db, []) == db
  {
  }

  /** What an answer over the whole remaining range holds, and what it leaves to be asked. */
  lemma Answered(db: seq<Attr>, sh: nat, rsp: Option<seq<byte>>) returns (cs: seq<Char>)
    requires Database(db) && 1 <= sh <= |db| + 1 && Answers(db, sh, 0xFFFF, rsp)
    ensures rsp.None? ==> Chars(db, sh - 1, |db|) == []
    ensures rsp.Some? ==> cs != [] && Uniform(cs) && |rsp.value| <= MTU_DEFAULT
    ensures rsp.Some? ==> rsp.value == [0x09, ToByte(Size(cs[0]))] + Entries(cs)
    ensures rsp.Some? ==> var last := cs[|cs| - 1].value;
                          sh < last <= |db| && Chars(db, sh - 1, |db|) == cs + Chars(db, last, |db|)
  {
    hide ToByte, Entries, Chars, Fitting;
    var all := Chars(db, sh - 1, |db|);
    var n := Fitting(all, 2);
    cs := all[..n];
    if rsp.Some? {
      forall i | 0 <= i < |all| ensures Encodable(all[i]) {
        CharEncodable(db, sh - 1, i);
      }
      forall i | 0 <= i < n ensures all[i].is128 == all[0].is128 {
        OneSize(all, i);
      }
      FittingFits(all, 2, n);
      CharsSound(db, sh - 1, |db|, 0);
      CharsFrom(db, sh - 1, n - 1);
    }
  }

  lemma CharEncodable(db: seq<Attr>, i: nat, n: nat)
    requires Database(db) && n < |Chars(db, i, |db|)|
    ensures Encodable(Chars(db, i, |db|)[n])
  {
    hide Props, Chars;
    CharsSound(db, i, |db|, n);
    assert Known(db[Chars(db, i, |db|)[n].handle]);
  }

  lemma {:induction false} FittingFits(cs: seq<Char>, offset: nat, n: nat)
    requires n == Fitting(cs, offset) && offset <= MTU_DEFAULT
    requires forall i :: 0 <= i < |cs| ==> |cs[i].uuid| == if cs[i].is128 then 16 else 2
    ensures offset + |Entries(cs[..n])| <= MTU_DEFAULT
    decreases |cs|
  {
    hide Entry;
    if n > 0 {
      FittingFits(cs[1..], offset + Size(cs[0]), n - 1);
      EntrySize(cs[0]);
      EntriesCons(cs[0], cs[1..][..n - 1]);
      assert cs[..n] == [cs[0]] + cs[1..][..n - 1];
    } else {
      assert cs[..0] == [];
    }
  }

  lemma {:induction false} EntriesCons(c: Char, cs: seq<Char>)
    ensures |Entries([c] + cs)| == |Entry(c)| + |Entries(cs)|
    decreases |cs|
  {
    hide Entry;
    if cs == [] {
      assert [c] + cs == [c] && [c][..0] == [];
    } else {
      var n := |cs| - 1;
      assert ([c] + cs)[..|cs|] == [c] + cs[..n];
      EntriesCons(c, cs[..n]);
    }
  }

  /** After the n-th characteristic the search goes on behind its value. */
  lemma {:induction false} CharsFrom(db: seq<Attr>, i: nat, n: nat)
    requires Database(db) && n < |Chars(db, i, |db|)|
    ensures var cs := Chars(db, i, |db|);
            i + 1 < cs[n].value <= |db| && cs == cs[..n + 1] + Chars(db, cs[n].value, |db|)
    decreases |db| - i
  {
    hide Props;
    var cs := Chars(db, i, |db|);
    if IsDecl(db[i]) {
      CharsSkip(db, i, |db|);
      assert cs[1..] == Chars(db, i + 2, |db|);
      if n > 0 {
        CharsFrom(db, i + 2, n - 1);
      }
    } else {
      CharsFrom(db, i + 1, n);
    }
  }
}
