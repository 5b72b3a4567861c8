/** A run in which a put that runs out of memory loses a binding. */
module HashLoss {
  import opened HashTable
  import opened HashModel
  import opened HashMap

  const SMALL: nat := 4096
  const BIG: nat := 8192

  /** The i-th key of the run. */
  function K(i: nat): (k: Key)
    ensures |k| == i
  {
    seq(i, j => 'k')
  }

  /** All keys have hash 4095 but the ninth, which has 4096. */
  function H(): (h: Hash)
    ensures forall i :: h(K(i)) == if i == 9 then 4096 else 4095
  {
    k => if |k| == 9 then 4096 else 4095
  }

  /** The slots after puts of the first i keys: the first in the last slot, the others in the
      first slots. */
  function Small(i: nat): (t: seq<Slot<nat>>)
    ensures |t| == SMALL
    ensures forall p :: 0 <= p < SMALL ==> t[p] == SmallSlot(i, p)
  {
    seq(SMALL, p => if 0 <= p then SmallSlot(i, p) else Free)
  }

  function SmallSlot(i: nat, p: nat): Slot<nat> {
    if p == SMALL - 1 then (if i > 0 then Used(K(1), 1) else Free)
    else if p + 1 < i then Used(K(p + 2), p + 2) else Free
  }

  /** The bigger slots after the first i slots of those have been moved. */
  function Big(i: nat): (t: seq<Slot<nat>>)
    ensures |t| == BIG
    ensures forall p :: 0 <= p < BIG ==> t[p] == BigSlot(i, p)
  {
    seq(BIG, p => if 0 <= p then BigSlot(i, p) else Free)
  }

  function BigSlot(i: nat, p: nat): Slot<nat> {
    if SMALL - 1 <= p < SMALL - 1 + i then Used(K(p - SMALL + 3), p - SMALL + 3) else Free
  }

  // ---- where the keys go ----

  lemma SmallPos(i: nat, j: nat)
    requires j < MAX_CHAIN_LENGTH
    ensures Pos(H(), K(i), SMALL, j) == if i == 9 then j else if j == 0 then SMALL - 1 else j - 1
  {
  }

  lemma BigPos(i: nat, j: nat)
    requires j < MAX_CHAIN_LENGTH
    ensures Pos(H(), K(i), BIG, j) == if i == 9 then SMALL + j else SMALL - 1 + j
  {
  }

  lemma KeysDiffer(i: nat, j: nat)
    requires i != j
    ensures K(i) != K(j)
  {
    assert |K(i)| != |K(j)|;
  }

  lemma SmallPut(i: nat, budget: nat)
    requires i < 9
    ensures Putting(H(), Slots(Small(i), i, budget), K(i + 1), i + 1) == (MapOk, Slots(Small(i + 1), i + 1, budget))
  {
    hide Putting, Pos, H, K, Small;
    var j, k := if i == 8 then 7 else i, K(i + 1);
    forall l: nat | l < j ensures Small(i)[Pos(H(), k, SMALL, l)].Used? && Small(i)[Pos(H(), k, SMALL, l)].key != k {
      SmallPos(i + 1, l);
      KeysDiffer(i + 1, if i == 8 then l + 2 else l + 1);
    }
    SmallPos(i + 1, j);
    GoesTo(H(), Slots(Small(i), i, budget), K(i + 1), i + 1, j);
    var p := Pos(H(), K(i + 1), SMALL, j);
    assert Small(i)[p := Used(K(i + 1), i + 1)] == Small(i + 1);
  }

  lemma BigPut(i: nat)
    requires i < 8
    ensures Putting(H(), Slots(Big(i), i, 0), K(i + 2), i + 2) == (MapOk, Slots(Big(i + 1), i + 1, 0))
  {
    hide Putting, Pos, H, K, Big;
    var j, k := if i == 7 then 6 else i, K(i + 2);
    forall l: nat | l < j ensures Big(i)[Pos(H(), k, BIG, l)].Used? && Big(i)[Pos(H(), k, BIG, l)].key != k {
      BigPos(i + 2, l);
      KeysDiffer(i + 2, if i == 7 then l + 3 else l + 2);
    }
    BigPos(i + 2, j);
    GoesTo(H(), Slots(Big(i), i, 0), K(i + 2), i + 2, j);
    var p := Pos(H(), K(i + 2), BIG, j);
    assert Big(i)[p := Used(K(i + 2), i + 2)] == Big(i + 1);
  }

  lemma FirstHasNoPlace()
    ensures Putting(H(), Slots(Big(8), 8, 0), K(1), 1) == (MapOmem, Slots(Big(8), 8, 0))
  {
    hide Putting, Pos, H, K, Big;
    forall l: nat | l < MAX_CHAIN_LENGTH
      ensures Big(8)[Pos(H(), K(1), BIG, l)].Used? && Big(8)[Pos(H(), K(1), BIG, l)].key != K(1)
    {
      BigPos(1, l);
      KeysDiffer(1, l + 2);
    }
    GoesNowhere(H(), Slots(Big(8), 8, 0), K(1), 1);
  }

  // ---- moving into the bigger table ----

  lemma {:induction false} SkipsFree(h: Hash, was: seq<Slot<nat>>, i: nat, j: nat, m: Slots<nat>)
    requires |m.t| > 0 && i <= j <= |was| && forall p :: i <= p < j ==> was[p].Free?
    ensures Refilling(h, was, i, m) == Refilling(h, was, j, m)
    decreases j - i
  {
    hide Refilling;
    if i < j {
      RefillingStep(h, was, i, m);
      SkipsFree(h, was, i + 1, j, m);
    }
  }

  lemma {:induction false} MovesFirst(i: nat)
    requires i <= 8
    ensures Refilling(H(), Small(9), 0, Slots(Big(0), 0, 0)) == Refilling(H(), Small(9), i, Slots(Big(i), i, 0))
    decreases i
  {
    hide Refilling, Putting, Big, H, K;
    if i > 0 {
      MovesFirst(i - 1);
      RefillingStep(H(), Small(9), i - 1, Slots(Big(i - 1), i - 1, 0));
      BigPut(i - 1);
      assert Small(9)[i - 1] == SmallSlot(9, i - 1) == Used(K(i + 1), i + 1);
    }
  }

  lemma MovesAllButOne()
    ensures Rehashing(H(), Slots(Small(9), 9, 1)) == (MapOmem, Slots(Big(8), 8, 0))
  {
    hide Refilling, Putting, H, K;
    assert Empty<nat>(2 * SMALL) == Big(0);
    MovesFirst(8);
    SkipsFree(H(), Small(9), 8, SMALL - 1, Slots(Big(8), 8, 0));
    RefillingStep(H(), Small(9), SMALL - 1, Slots(Big(8), 8, 0));
    FirstHasNoPlace();
  }

  lemma TenthPut()
    ensures Putting(H(), Slots(Small(9), 9, 1), K(10), 10) == (MapOmem, Slots(Big(8), 8, 0))
  {
    hide Putting, Rehashing, Pos, H, K, Small;
    forall l: nat | l < MAX_CHAIN_LENGTH
      ensures Small(9)[Pos(H(), K(10), SMALL, l)].Used? && Small(9)[Pos(H(), K(10), SMALL, l)].key != K(10)
    {
      SmallPos(10, l);
      KeysDiffer(10, l + 1);
    }
    GoesNowhere(H(), Slots(Small(9), 9, 1), K(10), 10);
    MovesAllButOne();
  }

  // ---- the run ----

  method NinePuts() returns (m: HashMap<nat>)
    ensures m.Valid() && fresh(m) && fresh(m.data) && m.hash == H() && m.Model() == Slots(Small(9), 9, 1)
  {
    hide Putting, H, K, Big, Small, Table;
    m := new HashMap<nat>(H(), 1);
    StartsEmpty();
    for i := 0 to 9
      invariant m.Valid() && fresh(m) && fresh(m.data) && m.hash == H() && m.Model() == Slots(Small(i), i, 1)
    {
      SmallPut(i, 1);
      var status := m.Put(K(i + 1), i + 1);
    }
  }

  lemma StartsEmpty()
    ensures Empty<nat>(SMALL) == Small(0)
  {
    hide K;
  }

  /** Nine puts succeed; the tenth, for which a bigger table can be allocated once, runs out
      of memory, and the key bound first is gone. */
  method LosesBinding() returns (m: HashMap<nat>, status: Status, ghost before: map<Key, nat>)
    ensures m.Valid() && status == MapOmem
    ensures before.Keys == (set i | 1 <= i <= 9 :: K(i))
    ensures m.contents.Keys == (set i | 2 <= i <= 9 :: K(i))
  {
    hide Putting, H, K, Big, Small, Table, SmallSlot, BigSlot;
    m := NinePuts();
    before := m.contents;
    AllBound(m.hash, m.data[..], m.place, m.contents);
    TenthPut();
    status := m.Put(K(10), 10);
    OneMissing(m.hash, m.data[..], m.place, m.contents);
  }

  lemma AllBound(h: Hash, t: seq<Slot<nat>>, place: map<Key, nat>, contents: map<Key, nat>)
    requires Table(h, t, place, contents) && t == Small(9)
    ensures contents.Keys == (set i | 1 <= i <= 9 :: K(i))
  {
    hide K, Small, Reached;
    forall i | 1 <= i <= 9 ensures K(i) in contents {
      var p := if i == 1 then SMALL - 1 else i - 2;
      assert t[p] == SmallSlot(9, p) == Used(K(i), i);
    }
    forall k | k in contents ensures exists i :: 1 <= i <= 9 && k == K(i) {
      assert t[place[k]] == SmallSlot(9, place[k]);
    }
  }

  lemma OneMissing(h: Hash, t: seq<Slot<nat>>, place: map<Key, nat>, contents: map<Key, nat>)
    requires Table(h, t, place, contents) && t == Big(8)
    ensures contents.Keys == (set i | 2 <= i <= 9 :: K(i))
  {
    hide K, Big, Reached;
    forall i | 2 <= i <= 9 ensures K(i) in contents {
      assert t[SMALL - 3 + i] == BigSlot(8, SMALL - 3 + i) == Used(K(i), i);
    }
    forall k | k in contents ensures exists i :: 2 <= i <= 9 && k == K(i) {
      assert t[place[k]] == BigSlot(8, place[k]);
    }
  }
}
