/** Nine keys that no window of hash values has too many of, and a map in which the ninth has
    no place in any table. */
module HashNever {
  import opened HashTable
  import opened HashCapacity
  import opened HashGrowth
  import opened HashModel
  import opened HashMap
  import opened HashLoss

  /** All keys have hash 100 but the first, which has 101. */
  function G(): (h: Hash)
    ensures forall i :: h(K(i)) == if i == 1 then 101 else 100
  {
    k => if |k| == 1 then 101 else 100
  }

  /** The slots after puts of the first i keys: the second goes before the first, the others
      behind it. */
  function Row(i: nat): (t: seq<Slot<nat>>)
    ensures |t| == SMALL
    ensures forall p :: 0 <= p < SMALL ==> t[p] == RowSlot(i, p)
  {
    seq(SMALL, p => if 0 <= p then RowSlot(i, p) else Free)
  }

  /** The number of the key in slot p, if one comes there. */
  function Comer(p: nat): nat {
    if p == 101 then 1 else if p == 100 then 2 else if 102 <= p < 108 then p - 99 else 0
  }

  function RowSlot(i: nat, p: nat): Slot<nat> {
    if 1 <= Comer(p) <= i then Used(K(Comer(p)), Comer(p)) else Free
  }

  lemma RowPos(i: nat, j: nat)
    requires j < MAX_CHAIN_LENGTH
    ensures Pos(G(), K(i), SMALL, j) == if i == 1 then 101 + j else 100 + j
  {
  }

  lemma RowPut(i: nat, budget: nat)
    requires i < 8
    ensures Putting(G(), Slots(Row(i), i, budget), K(i + 1), i + 1) == (MapOk, Slots(Row(i + 1), i + 1, budget))
  {
    hide Putting, Pos, G, K, Row;
    var j, k := if i < 2 then 0 else i, K(i + 1);
    forall l: nat | l < j ensures Row(i)[Pos(G(), k, SMALL, l)].Used? && Row(i)[Pos(G(), k, SMALL, l)].key != k {
      RowPos(i + 1, l);
      KeysDiffer(i + 1, Comer(100 + l));
    }
    RowPos(i + 1, j);
    GoesTo(G(), Slots(Row(i), i, budget), K(i + 1), i + 1, j);
    var p := Pos(G(), K(i + 1), SMALL, j);
    assert Row(i)[p := Used(K(i + 1), i + 1)] == Row(i + 1);
  }

  /** All slots of the ninth key's chain are in use. */
  lemma NinthBlocked()
    ensures Others(G(), Row(8), K(9), MAX_CHAIN_LENGTH)
  {
    hide Pos, G, K, Row;
    var k := K(9);
    forall l: nat | l < MAX_CHAIN_LENGTH
      ensures Row(8)[Pos(G(), k, SMALL, l)].Used? && Row(8)[Pos(G(), k, SMALL, l)].key != k
    {
      RowPos(9, l);
      KeysDiffer(9, Comer(100 + l));
    }
  }

  // ---- not too many of near hash values ----

  function Keys(lo: nat, n: nat): set<Key> {
    set i | lo <= i < lo + n :: K(i)
  }

  lemma {:induction false} KeysCount(lo: nat, n: nat)
    ensures |Keys(lo, n)| <= n
    decreases n
  {
    hide K;
    if n > 0 {
      KeysCount(lo, n - 1);
      assert Keys(lo, n) == Keys(lo, n - 1) + {K(lo + n - 1)};
    } else {
      assert Keys(lo, 0) == {};
    }
  }

  lemma NotTooMany()
    ensures !Overfull(G(), Keys(1, 9))
  {
    hide K, G, InWindow, Keys;
    forall ks: set<Key>, a: nat, w: nat | ks <= Keys(1, 9) && w > 0 && InWindow(G(), ks, a, w)
      ensures |ks| < w + MAX_CHAIN_LENGTH
    {
      if w == 1 {
        OneHash(ks, a);
      } else {
        KeysCount(1, 9);
        Smaller(ks, Keys(1, 9));
      }
    }
  }

  lemma OneHash(ks: set<Key>, a: nat)
    requires ks <= Keys(1, 9) && InWindow(G(), ks, a, 1)
    ensures |ks| <= 8
  {
    hide K;
    if a == 101 {
      KeysCount(1, 1);
      assert ks <= Keys(1, 1);
      Smaller(ks, Keys(1, 1));
    } else {
      KeysCount(2, 8);
      assert ks <= Keys(2, 8);
      Smaller(ks, Keys(2, 8));
    }
  }

  // ---- the run ----

  method EightPuts() returns (m: HashMap<nat>)
    ensures m.Valid() && fresh(m) && fresh(m.data) && m.hash == G() && m.Model() == Slots(Row(8), 8, 0)
  {
    hide Putting, G, K, Row, Table;
    m := new HashMap<nat>(G(), 0);
    StartsFree();
    for i := 0 to 8
      invariant m.Valid() && fresh(m) && fresh(m.data) && m.hash == G() && m.Model() == Slots(Row(i), i, 0)
    {
      RowPut(i, 0);
      var status := m.Put(K(i + 1), i + 1);
    }
  }

  lemma StartsFree()
    ensures Empty<nat>(SMALL) == Row(0)
  {
    hide K;
  }

  /** Eight puts that succeed without any allocation; the put of a ninth key runs out of
      memory with any number of allocations, though there are not too many keys of near
      hash values. */
  method NeverFits() returns (m: HashMap<nat>)
    ensures m.Valid() && |m.Model().t| > 0 && m.contents.Keys == Keys(1, 8)
    ensures !Overfull(m.hash, m.contents.Keys + {K(9)})
    ensures forall b: nat :: Putting(m.hash, m.Model().(budget := b), K(9), 9).0 == MapOmem
  {
    hide Putting, G, K, Row, Table, Overfull, Others, AllFlat;
    m := EightPuts();
    RowBound(m.hash, m.data[..], m.place, m.contents);
    NotTooMany();
    NinthAdded();
    NinthBlocked();
    RowFlat();
    forall b: nat ensures Putting(m.hash, m.Model().(budget := b), K(9), 9).0 == MapOmem {
      FlatFails(m.hash, m.Model().(budget := b), m.place, m.contents, K(9), 9);
    }
  }

  lemma NinthAdded()
    ensures Keys(1, 8) + {K(9)} == Keys(1, 9)
  {
    hide K;
  }

  lemma RowFlat()
    ensures AllFlat(G(), SMALL, Keys(1, 8)) && Flat(G(), SMALL, K(9))
  {
    hide K, G;
  }

  lemma RowBound(h: Hash, t: seq<Slot<nat>>, place: map<Key, nat>, contents: map<Key, nat>)
    requires Table(h, t, place, contents) && t == Row(8)
    ensures contents.Keys == Keys(1, 8)
  {
    hide K, Row, Reached;
    forall i: nat | 1 <= i <= 8 ensures K(i) in contents {
      var p := if i == 1 then 101 else if i == 2 then 100 else i + 99;
      assert t[p] == RowSlot(8, p) == Used(K(i), i);
    }
    forall k | k in contents ensures k in Keys(1, 8) {
      assert t[place[k]] == RowSlot(8, place[k]);
    }
  }
}
