/** Putting into the hash map as functions on the slots, the size and the number of
    allocations that will still succeed. */
module HashModel {
  import opened HashTable
  import opened HashCapacity
  import opened Options

  datatype Status = MapOk | MapOmem | MapMissing

  datatype Slots<V> = Slots(t: seq<Slot<V>>, size: nat, budget: nat)

  function Empty<V>(n: nat): seq<Slot<V>> {
    seq(n, i => Free)
  }

  /** The slot where probing from step j on stops. */
  function Probe<V>(h: Hash, t: seq<Slot<V>>, k: Key, j: nat): Option<nat>
    requires |t| > 0 && j <= MAX_CHAIN_LENGTH
    decreases MAX_CHAIN_LENGTH - j
  {
    if j == MAX_CHAIN_LENGTH then None
    else
      var p := Pos(h, k, |t|, j);
      if t[p].Free? || t[p].key == k then Some(p) else Probe(h, t, k, j + 1)
  }

  function Finding<V>(h: Hash, m: Slots<V>, k: Key): Option<nat>
    requires |m.t| > 0
  {
    if m.size >= |m.t| / 2 then None else Probe(h, m.t, k, 0)
  }

  /** A put; while there is no place the slots are moved into twice as many. */
  function Putting<V>(h: Hash, m: Slots<V>, k: Key, v: V): (r: (Status, Slots<V>))
    requires |m.t| > 0
    ensures r.1.budget <= m.budget && |r.1.t| > 0
    decreases m.budget, 1, 0
  {
    hide Finding, Empty;
    FindingBound(h, m, k);
    match Finding(h, m, k)
    case Some(p) =>
      (MapOk, m.(t := m.t[p := Used(k, v)], size := m.size + 1))
    case None =>
      var (status, n) := Rehashing(h, m);
      if status == MapOk then Putting(h, n, k, v) else (status, n)
  }

  function Rehashing<V>(h: Hash, m: Slots<V>): (r: (Status, Slots<V>))
    requires |m.t| > 0
    ensures r.1.budget <= m.budget && |r.1.t| > 0 && (r.0 == MapOk ==> r.1.budget < m.budget)
    decreases m.budget, 0, 0
  {
    if m.budget == 0 then (MapOmem, m)
    else Refilling(h, m.t, 0, Slots(Empty(2 * |m.t|), 0, m.budget - 1))
  }

  /** Puts what the old slots from i on hold. */
  function Refilling<V>(h: Hash, was: seq<Slot<V>>, i: nat, m: Slots<V>): (r: (Status, Slots<V>))
    requires |m.t| > 0 && i <= |was|
    ensures r.1.budget <= m.budget && |r.1.t| > 0
    decreases m.budget, 2, |was| - i
  {
    if i == |was| then (MapOk, m)
    else if was[i].Free? then Refilling(h, was, i + 1, m)
    else
      var (status, n) := Putting(h, m, was[i].key, was[i].data);
      if status == MapOk then Refilling(h, was, i + 1, n) else (status, n)
  }

  /** A put that runs out of memory loses a binding: it has allocated, and the last slots it
      allocated could not take what was moved into them. */
  predicate Sheds<V>(h: Hash, m: Slots<V>, k: Key)
    requires |m.t| > 0
    decreases m.budget
  {
    && m.budget > 0 && Finding(h, m, k).None?
    && var (status, n) := Rehashing(h, m); (status == MapOk ==> Sheds(h, n, k))
  }

  lemma {:induction false} ProbeBound<V>(h: Hash, t: seq<Slot<V>>, k: Key, j: nat)
    requires |t| > 0 && j <= MAX_CHAIN_LENGTH
    ensures Probe(h, t, k, j).Some? ==> Probe(h, t, k, j).value < |t|
    decreases MAX_CHAIN_LENGTH - j
  {
    if j < MAX_CHAIN_LENGTH {
      ProbeBound(h, t, k, j + 1);
    }
  }

  lemma FindingBound<V>(h: Hash, m: Slots<V>, k: Key)
    requires |m.t| > 0
    ensures Finding(h, m, k).Some? ==> Finding(h, m, k).value < |m.t|
  {
    ProbeBound(h, m.t, k, 0);
  }

  /** Probing gets past slots in use by other keys. */
  lemma {:induction false} ProbePasses<V>(h: Hash, t: seq<Slot<V>>, k: Key, j: nat)
    requires |t| > 0 && j <= MAX_CHAIN_LENGTH && Others(h, t, k, j)
    ensures Probe(h, t, k, 0) == Probe(h, t, k, j)
    decreases j
  {
    hide Pos;
    if j > 0 {
      ProbePasses(h, t, k, j - 1);
      assert t[Pos(h, k, |t|, j - 1)].Used?;
    }
  }

  /** It finds nothing exactly when all 8 slots of the chain are in use by other keys, and
      otherwise the slot where it stops. */
  lemma {:induction false} ProbeStops<V>(h: Hash, t: seq<Slot<V>>, k: Key, j: nat)
    requires |t| > 0 && j <= MAX_CHAIN_LENGTH && Others(h, t, k, j)
    ensures var r := Probe(h, t, k, j);
            && (r.None? <==> Others(h, t, k, MAX_CHAIN_LENGTH))
            && (r.Some? ==> r.value < |t| && Stop(h, t, k, r.value))
    decreases MAX_CHAIN_LENGTH - j
  {
    hide Pos;
    if j < MAX_CHAIN_LENGTH {
      var p := Pos(h, k, |t|, j);
      if t[p].Used? && t[p].key != k {
        ProbeStops(h, t, k, j + 1);
      } else {
        assert !Others(h, t, k, MAX_CHAIN_LENGTH);
      }
    }
  }

  /** A free slot behind j slots of other keys is where the key goes. */
  lemma GoesTo<V>(h: Hash, m: Slots<V>, k: Key, v: V, j: nat)
    requires |m.t| > 0 && j < MAX_CHAIN_LENGTH && m.size < |m.t| / 2
    requires Others(h, m.t, k, j) && m.t[Pos(h, k, |m.t|, j)].Free?
    ensures var p := Pos(h, k, |m.t|, j);
            Putting(h, m, k, v) == (MapOk, Slots(m.t[p := Used(k, v)], m.size + 1, m.budget))
  {
    hide Putting, Rehashing, Pos, Others;
    PuttingStep(h, m, k, v);
    ProbePasses(h, m.t, k, j);
    ProbeStep(h, m.t, k, j);
  }

  /** With all slots of the chain in use by others the slots are moved. */
  lemma GoesNowhere<V>(h: Hash, m: Slots<V>, k: Key, v: V)
    requires |m.t| > 0 && Others(h, m.t, k, MAX_CHAIN_LENGTH)
    ensures Finding(h, m, k).None?
    ensures var (status, n) := Rehashing(h, m);
            Putting(h, m, k, v) == if status == MapOk then Putting(h, n, k, v) else (status, n)
  {
    hide Putting, Rehashing, Others;
    PuttingStep(h, m, k, v);
    FindingIff(h, m, k);
  }

  // ---- when a put needs no memory ----

  /** A place is found if and only if the table is less than half full and not all 8 slots of
      the chain are in use by other keys. */
  lemma FindingIff<V>(h: Hash, m: Slots<V>, k: Key)
    requires |m.t| > 0
    ensures Finding(h, m, k).Some? <==> m.size < |m.t| / 2 && !Others(h, m.t, k, MAX_CHAIN_LENGTH)
  {
    ProbeStops(h, m.t, k, 0);
    hide Probe, Others;
  }

  /** A put succeeds without using memory if and only if it finds a place at once. */
  lemma PutAtOnceIff<V>(h: Hash, m: Slots<V>, k: Key, v: V)
    requires |m.t| > 0
    ensures Putting(h, m, k, v).0 == MapOk && Putting(h, m, k, v).1.budget == m.budget
            <==> m.size < |m.t| / 2 && !Others(h, m.t, k, MAX_CHAIN_LENGTH)
  {
    hide Putting, Rehashing, Finding, Others;
    FindingIff(h, m, k);
    PuttingStep(h, m, k, v);
  }

  /** In particular when fewer than 8 other bound keys have chains that meet the key's. */
  lemma PutWithRoom<V>(h: Hash, m: Slots<V>, place: map<Key, nat>, contents: map<Key, V>, k: Key, v: V, near: set<Key>)
    requires Table(h, m.t, place, contents) && m.size < |m.t| / 2 && |near| < MAX_CHAIN_LENGTH
    requires forall x :: x in contents && x != k && Meet(h, |m.t|, x, k) ==> x in near
    ensures Putting(h, m, k, v).0 == MapOk && Putting(h, m, k, v).1.budget == m.budget
  {
    hide Putting, Others, Meet, Table;
    TableHolds(h, m.t, place, contents);
    RoomFor(h, m.t, place, contents, k, near);
    PutAtOnceIff(h, m, k, v);
  }

  // ---- one step of each recursion ----

  lemma ProbeStep<V>(h: Hash, t: seq<Slot<V>>, k: Key, j: nat)
    requires |t| > 0 && j < MAX_CHAIN_LENGTH
    ensures var p := Pos(h, k, |t|, j);
            Probe(h, t, k, j) == if t[p].Free? || t[p].key == k then Some(p) else Probe(h, t, k, j + 1)
  {
  }

  lemma ProbeEnd<V>(h: Hash, t: seq<Slot<V>>, k: Key)
    requires |t| > 0
    ensures Probe(h, t, k, MAX_CHAIN_LENGTH) == None
  {
  }

  lemma PuttingStep<V>(h: Hash, m: Slots<V>, k: Key, v: V)
    requires |m.t| > 0
    ensures var r := Finding(h, m, k);
            && (r.Some? ==> r.value < |m.t|
                            && Putting(h, m, k, v) == (MapOk, Slots(m.t[r.value := Used(k, v)], m.size + 1, m.budget)))
            && (r.None? ==>
                  var (status, n) := Rehashing(h, m);
                  Putting(h, m, k, v) == if status == MapOk then Putting(h, n, k, v) else (status, n))
  {
    FindingBound(h, m, k);
    hide Finding, Rehashing;
  }

  lemma RehashingStep<V>(h: Hash, m: Slots<V>)
    requires |m.t| > 0
    ensures Rehashing(h, m) == if m.budget == 0 then (MapOmem, m)
                               else Refilling(h, m.t, 0, Slots(Empty(2 * |m.t|), 0, m.budget - 1))
  {
  }

  lemma ShedsStep<V>(h: Hash, m: Slots<V>, k: Key)
    requires |m.t| > 0
    ensures Sheds(h, m, k) <==> m.budget > 0 && Finding(h, m, k).None?
                                && var (status, n) := Rehashing(h, m); (status == MapOk ==> Sheds(h, n, k))
  {
    hide Finding, Rehashing;
  }

  lemma RefillingStep<V>(h: Hash, was: seq<Slot<V>>, i: nat, m: Slots<V>)
    requires |m.t| > 0 && i < |was|
    ensures was[i].Free? ==> Refilling(h, was, i, m) == Refilling(h, was, i + 1, m)
    ensures was[i].Used? ==>
              var (status, n) := Putting(h, m, was[i].key, was[i].data);
              Refilling(h, was, i, m) == if status == MapOk then Refilling(h, was, i + 1, n) else (status, n)
  {
    hide Putting;
  }

  lemma RefillingEnd<V>(h: Hash, was: seq<Slot<V>>, m: Slots<V>)
    requires |m.t| > 0
    ensures Refilling(h, was, |was|, m) == (MapOk, m)
  {
  }

  lemma EmptySlots<V>(h: Hash, n: nat)
    requires n > MAX_CHAIN_LENGTH
    ensures Table<V>(h, Empty(n), map[], map[])
  {
    EmptyTable(h, Empty<V>(n));
  }
}
