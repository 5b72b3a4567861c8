/** When a put fails however much memory there is. Once a table is larger than every hash no
    chain wraps around its end, and moving into a bigger one puts every key back into its own
    slot; so what has no place there never gets one. */
module HashGrowth {
  import opened HashTable
  import opened HashCapacity
  import opened HashModel
  import opened Options

  /** The chain of k does not wrap around in a table of n slots. */
  predicate Flat(h: Hash, n: nat, k: Key) {
    h(k) + MAX_CHAIN_LENGTH <= n
  }

  ghost predicate AllFlat(h: Hash, n: nat, keys: set<Key>) {
    forall k :: k in keys ==> Flat(h, n, k)
  }

  lemma FlatPos(h: Hash, n: nat, k: Key, j: nat)
    requires Flat(h, n, k) && j < MAX_CHAIN_LENGTH
    ensures n > 0 && Pos(h, k, n, j) == h(k) + j
  {
    Unique(h(k), n, 0, h(k));
    Wrapped(h(k), j, n);
  }

  /** How many slots from i on are in use. */
  function Load<V>(t: seq<Slot<V>>, i: nat): (r: nat)
    ensures i <= |t| ==> r <= |t| - i
    decreases |t| - i
  {
    if i >= |t| then 0 else (if t[i].Used? then 1 else 0) + Load(t, i + 1)
  }

  // ---- moving slots whose chains do not wrap ----

  /** The first i slots of t, and free ones up to twice as many. */
  function Moved<V>(t: seq<Slot<V>>, i: nat): (u: seq<Slot<V>>)
    requires i <= |t|
    ensures |u| == 2 * |t|
    ensures forall p :: 0 <= p < |u| ==> u[p] == if p < i then t[p] else Free
  {
    t[..i] + Empty(2 * |t| - i)
  }

  /** The key in slot i goes back there. */
  lemma KeyStays<V>(h: Hash, t: seq<Slot<V>>, place: map<Key, nat>, contents: map<Key, V>, i: nat, size: nat, b: nat)
    requires Table(h, t, place, contents) && AllFlat(h, |t|, contents.Keys) && i < |t| && t[i].Used? && size < |t|
    ensures Putting(h, Slots(Moved(t, i), size, b), t[i].key, t[i].data)
         == (MapOk, Slots(Moved(t, i + 1), size + 1, b))
  {
    hide Putting, Moved, Pos, Reached;
    var k, u := t[i].key, Moved(t, i);
    TableHolds(h, t, place, contents);
    assert k in place && place[k] == i;
    var j := StepsTo(h, t, place, contents, k);
    FlatPos(h, |t|, k, j);
    FlatPos(h, |u|, k, j);
    forall l: nat | l < j ensures u[Pos(h, k, |u|, l)].Used? && u[Pos(h, k, |u|, l)].key != k {
      FlatPos(h, |t|, k, l);
      FlatPos(h, |u|, k, l);
      assert t[Pos(h, k, |t|, l)].Used?;
    }
    GoesTo(h, Slots(u, size, b), k, t[i].data, j);
    assert u[i := Used(k, t[i].data)] == Moved(t, i + 1);
  }

  lemma StepsTo<V>(h: Hash, t: seq<Slot<V>>, place: map<Key, nat>, contents: map<Key, V>, k: Key) returns (j: nat)
    requires Table(h, t, place, contents) && k in place
    ensures j < MAX_CHAIN_LENGTH && place[k] == Pos(h, k, |t|, j) && Crowded(h, t, k, j)
  {
    j :| j < MAX_CHAIN_LENGTH && place[k] == Pos(h, k, |t|, j) && Crowded(h, t, k, j);
  }

  lemma {:induction false} FlatRefill<V>(h: Hash, t: seq<Slot<V>>, place: map<Key, nat>, contents: map<Key, V>, i: nat,
                                         size: nat, b: nat)
    requires Table(h, t, place, contents) && AllFlat(h, |t|, contents.Keys) && i <= |t| && size <= i
    ensures Refilling(h, t, i, Slots(Moved(t, i), size, b))
         == (MapOk, Slots(Moved(t, |t|), size + Load(t, i), b))
    decreases |t| - i
  {
    hide Refilling, Putting, Moved, Table, AllFlat;
    TableHolds(h, t, place, contents);
    var m := Slots(Moved(t, i), size, b);
    if i == |t| {
      RefillingEnd(h, t, m);
    } else {
      RefillingStep(h, t, i, m);
      if t[i].Used? {
        KeyStays(h, t, place, contents, i, size, b);
        FlatRefill(h, t, place, contents, i + 1, size + 1, b);
      } else {
        assert Moved(t, i) == Moved(t, i + 1) by { StaysFree(t, i); }
        FlatRefill(h, t, place, contents, i + 1, size, b);
      }
    }
  }

  lemma StaysFree<V>(t: seq<Slot<V>>, i: nat)
    requires i < |t| && t[i].Free?
    ensures Moved(t, i) == Moved(t, i + 1)
  {
  }

  /** In slots larger than every hash all keys keep their place. */
  lemma FlatRehash<V>(h: Hash, m: Slots<V>, place: map<Key, nat>, contents: map<Key, V>)
    requires Table(h, m.t, place, contents) && AllFlat(h, |m.t|, contents.Keys) && m.budget > 0
    ensures Rehashing(h, m) == (MapOk, Slots(Moved(m.t, |m.t|), Load(m.t, 0), m.budget - 1))
  {
    hide Refilling, Table;
    TableHolds(h, m.t, place, contents);
    assert Empty<V>(2 * |m.t|) == Moved(m.t, 0);
    FlatRefill(h, m.t, place, contents, 0, 0, m.budget - 1);
    RehashingStep(h, m);
    hide Moved, Empty, Rehashing, Load;
  }

  /** The moved slots are in order, with every key where it was. */
  lemma MovedTable<V>(h: Hash, t: seq<Slot<V>>, place: map<Key, nat>, contents: map<Key, V>)
    requires Table(h, t, place, contents) && AllFlat(h, |t|, contents.Keys)
    ensures Table(h, Moved(t, |t|), place, contents) && AllFlat(h, 2 * |t|, contents.Keys)
  {
    hide Moved, Pos;
    var u := Moved(t, |t|);
    forall k | k in place ensures InReach(h, u, k, place[k]) {
      var j := StepsTo(h, t, place, contents, k);
      FlatPos(h, |t|, k, j);
      FlatPos(h, |u|, k, j);
      forall l: nat | l < j ensures u[Pos(h, k, |u|, l)].Used? {
        FlatPos(h, |t|, k, l);
        FlatPos(h, |u|, k, l);
        assert t[Pos(h, k, |t|, l)].Used?;
      }
    }
    hide InReach;
  }

  lemma MovedOthers<V>(h: Hash, t: seq<Slot<V>>, k: Key)
    requires Flat(h, |t|, k)
    ensures Others(h, Moved(t, |t|), k, MAX_CHAIN_LENGTH) <==> Others(h, t, k, MAX_CHAIN_LENGTH)
  {
    hide Moved, Pos;
    var u := Moved(t, |t|);
    forall l: nat | l < MAX_CHAIN_LENGTH ensures u[Pos(h, k, |u|, l)] == t[Pos(h, k, |t|, l)] {
      FlatPos(h, |t|, k, l);
      FlatPos(h, |u|, k, l);
    }
  }

  // ---- no place now, no place ever ----

  /** A put that finds all slots of the chain in use by other keys runs out of memory, and
      with it loses nothing. */
  lemma {:induction false} FlatFails<V>(h: Hash, m: Slots<V>, place: map<Key, nat>, contents: map<Key, V>, k: Key, v: V)
    requires Table(h, m.t, place, contents) && AllFlat(h, |m.t|, contents.Keys) && Flat(h, |m.t|, k)
    requires Others(h, m.t, k, MAX_CHAIN_LENGTH)
    ensures Putting(h, m, k, v).0 == MapOmem
    decreases m.budget
  {
    hide Putting, Rehashing, Others, Table, AllFlat, Moved, Load;
    TableHolds(h, m.t, place, contents);
    GoesNowhere(h, m, k, v);
    if m.budget == 0 {
      RehashingStep(h, m);
    } else {
      FlatRehash(h, m, place, contents);
      MovedTable(h, m.t, place, contents);
      MovedOthers(h, m.t, k);
      FlatFails(h, Slots(Moved(m.t, |m.t|), Load(m.t, 0), m.budget - 1), place, contents, k, v);
    }
  }

  /** If not all are, one allocation is enough for slots at most half full. */
  lemma FlatSucceeds<V>(h: Hash, m: Slots<V>, place: map<Key, nat>, contents: map<Key, V>, k: Key, v: V)
    requires Table(h, m.t, place, contents) && AllFlat(h, |m.t|, contents.Keys) && Flat(h, |m.t|, k)
    requires !Others(h, m.t, k, MAX_CHAIN_LENGTH)
    requires m.size < |m.t| / 2 || (m.budget >= 1 && |contents| < |m.t|)
    ensures Putting(h, m, k, v).0 == MapOk
  {
    hide Putting, Rehashing, Others, Table, AllFlat, Moved;
    TableHolds(h, m.t, place, contents);
    FindingIff(h, m, k);
    PuttingStep(h, m, k, v);
    if m.size >= |m.t| / 2 {
      FlatRehash(h, m, place, contents);
      MovedOthers(h, m.t, k);
      LoadIsKeys(m.t, place, contents);
      var n := Slots(Moved(m.t, |m.t|), Load(m.t, 0), m.budget - 1);
      FindingIff(h, n, k);
      PuttingStep(h, n, k, v);
    }
  }

  lemma FlatEmptyHanded<V>(h: Hash, m: Slots<V>, k: Key, v: V)
    requires |m.t| > 0 && m.size >= |m.t| / 2 && m.budget == 0
    ensures Putting(h, m, k, v).0 == MapOmem
  {
    hide Putting, Rehashing, Others;
    FindingIff(h, m, k);
    PuttingStep(h, m, k, v);
    RehashingStep(h, m);
  }

  /** There are as many slots in use as keys bound. */
  lemma LoadIsKeys<V>(t: seq<Slot<V>>, place: map<Key, nat>, contents: map<Key, V>)
    requires Placed(t, place, contents)
    ensures Load(t, 0) == |contents|
  {
    hide Placed, Held, Load;
    HeldAll(t, place, contents);
    LoadRest(t, place, contents, 0);
  }

  lemma {:induction false} LoadRest<V>(t: seq<Slot<V>>, place: map<Key, nat>, contents: map<Key, V>, i: nat)
    requires Placed(t, place, contents) && i <= |t|
    ensures place.Keys == contents.Keys && |Held(place, contents, i)| + Load(t, i) == |contents|
    decreases |t| - i
  {
    hide Placed, Held;
    HeldAll(t, place, contents);
    if i < |t| {
      HeldNext(t, place, contents, i);
      LoadRest(t, place, contents, i + 1);
    }
  }

  /** In slots larger than every hash and at most half full a put runs out of memory if and only
      if all 8 slots of the key's chain are in use by other keys, or it needs an allocation to
      get room and there is none. */
  lemma FlatPutIff<V>(h: Hash, m: Slots<V>, place: map<Key, nat>, contents: map<Key, V>, k: Key, v: V)
    requires Table(h, m.t, place, contents) && AllFlat(h, |m.t|, contents.Keys) && Flat(h, |m.t|, k)
    requires |contents| < |m.t|
    ensures Putting(h, m, k, v).0 == MapOmem
       <==> Others(h, m.t, k, MAX_CHAIN_LENGTH) || (m.size >= |m.t| / 2 && m.budget == 0)
  {
    hide Putting, Others, Table, AllFlat;
    TableHolds(h, m.t, place, contents);
    if Others(h, m.t, k, MAX_CHAIN_LENGTH) {
      FlatFails(h, m, place, contents, k, v);
    } else if m.size >= |m.t| / 2 && m.budget == 0 {
      FlatEmptyHanded(h, m, k, v);
    } else {
      FlatSucceeds(h, m, place, contents, k, v);
    }
  }

  /** In slots larger than every hash a put runs out of any amount of memory if and only if all
      8 slots of the key's chain are in use by other keys. */
  lemma FlatFailsIff<V>(h: Hash, t: seq<Slot<V>>, size: nat, place: map<Key, nat>, contents: map<Key, V>, k: Key, v: V)
    requires Table(h, t, place, contents) && AllFlat(h, |t|, contents.Keys) && Flat(h, |t|, k) && |contents| < |t|
    ensures (forall b: nat :: Putting(h, Slots(t, size, b), k, v).0 == MapOmem) <==> Others(h, t, k, MAX_CHAIN_LENGTH)
  {
    hide Putting, Others, Table, AllFlat;
    TableHolds(h, t, place, contents);
    if Others(h, t, k, MAX_CHAIN_LENGTH) {
      forall b: nat ensures Putting(h, Slots(t, size, b), k, v).0 == MapOmem {
        FlatFails(h, Slots(t, size, b), place, contents, k, v);
      }
    } else {
      FlatSucceeds(h, Slots(t, size, 1), place, contents, k, v);
    }
  }

  /** There no binding is ever lost. */
  lemma {:induction false} FlatKeeps<V>(h: Hash, m: Slots<V>, place: map<Key, nat>, contents: map<Key, V>, k: Key)
    requires Table(h, m.t, place, contents) && AllFlat(h, |m.t|, contents.Keys)
    ensures |m.t| > 0 && !Sheds(h, m, k)
    decreases m.budget
  {
    hide Rehashing, Finding, Table, AllFlat, Moved, Load;
    TableHolds(h, m.t, place, contents);
    ShedsStep(h, m, k);
    if m.budget > 0 {
      FlatRehash(h, m, place, contents);
      MovedTable(h, m.t, place, contents);
      FlatKeeps(h, Slots(Moved(m.t, |m.t|), Load(m.t, 0), m.budget - 1), place, contents, k);
    }
  }
}
