/** The same for every table, whether chains wrap or not: a put that fails with memory enough
    to outgrow all hashes fails with any amount. */
module HashForever {
  import opened HashTable
  import opened HashModel
  import opened HashGrowth
  import opened Options

  // ---- more memory changes nothing but what is left of it ----

  function More<V>(m: Slots<V>, d: nat): Slots<V> {
    m.(budget := m.budget + d)
  }

  lemma FindingMore<V>(h: Hash, m: Slots<V>, k: Key, d: nat)
    requires |m.t| > 0
    ensures Finding(h, More(m, d), k) == Finding(h, m, k)
  {
    hide Probe;
  }

  /** A put that succeeds does the same with more memory. */
  lemma {:induction false} PutMore<V>(h: Hash, m: Slots<V>, k: Key, v: V, d: nat)
    requires |m.t| > 0 && Putting(h, m, k, v).0 == MapOk
    ensures Putting(h, More(m, d), k, v) == (MapOk, More(Putting(h, m, k, v).1, d))
    decreases m.budget, 1, 0
  {
    hide Putting, Rehashing, Finding;
    FindingMore(h, m, k, d);
    PuttingStep(h, m, k, v);
    PuttingStep(h, More(m, d), k, v);
    if Finding(h, m, k).None? {
      RehashMore(h, m, d);
      PutMore(h, Rehashing(h, m).1, k, v, d);
    }
  }

  lemma {:induction false} RehashMore<V>(h: Hash, m: Slots<V>, d: nat)
    requires |m.t| > 0 && Rehashing(h, m).0 == MapOk
    ensures Rehashing(h, More(m, d)) == (MapOk, More(Rehashing(h, m).1, d))
    decreases m.budget, 0, 0
  {
    hide Refilling, Rehashing;
    RehashingStep(h, m);
    RehashingStep(h, More(m, d));
    RefillMore(h, m.t, 0, Slots(Empty(2 * |m.t|), 0, m.budget - 1), d);
  }

  lemma {:induction false} RefillMore<V>(h: Hash, was: seq<Slot<V>>, i: nat, m: Slots<V>, d: nat)
    requires |m.t| > 0 && i <= |was| && Refilling(h, was, i, m).0 == MapOk
    ensures Refilling(h, was, i, More(m, d)) == (MapOk, More(Refilling(h, was, i, m).1, d))
    decreases m.budget, 2, |was| - i
  {
    hide Putting, Refilling;
    if i == |was| {
      RefillingEnd(h, was, m);
      RefillingEnd(h, was, More(m, d));
    } else {
      RefillingStep(h, was, i, m);
      RefillingStep(h, was, i, More(m, d));
      if was[i].Free? {
        RefillMore(h, was, i + 1, m, d);
      } else {
        PutMore(h, m, was[i].key, was[i].data, d);
        RefillMore(h, was, i + 1, Putting(h, m, was[i].key, was[i].data).1, d);
      }
    }
  }

  // ---- what every step keeps ----

  /** How many slots there are when all memory is used. */
  function Outgrown(n: nat, b: nat): nat
    decreases b
  {
    if b == 0 then n else Outgrown(2 * n, b - 1)
  }

  /** What place binds in the slots. */
  ghost function Bindings<V>(t: seq<Slot<V>>, place: map<Key, nat>): map<Key, V> {
    map k | k in place && place[k] < |t| && t[place[k]].Used? :: t[place[k]].data
  }

  ghost predicate Ordered<V>(h: Hash, t: seq<Slot<V>>, place: map<Key, nat>) {
    Table(h, t, place, Bindings(t, place))
  }

  lemma TableOrdered<V>(h: Hash, t: seq<Slot<V>>, place: map<Key, nat>, contents: map<Key, V>)
    requires Table(h, t, place, contents)
    ensures Ordered(h, t, place) && Bindings(t, place) == contents && place.Keys == contents.Keys
  {
    TableHolds(h, t, place, contents);
    assert Bindings(t, place) == contents;
    hide Table;
  }

  /** In order, at most half full, with keys of the given set only. */
  ghost predicate Sound<V>(h: Hash, keys: set<Key>, m: Slots<V>) {
    && |m.t| > MAX_CHAIN_LENGTH && Load(m.t, 0) <= m.size <= |m.t| / 2
    && exists place: map<Key, nat> :: Ordered(h, m.t, place) && place.Keys <= keys
  }

  lemma SoundFrom<V>(h: Hash, keys: set<Key>, m: Slots<V>, place: map<Key, nat>, contents: map<Key, V>)
    requires Table(h, m.t, place, contents) && contents.Keys <= keys && Load(m.t, 0) <= m.size <= |m.t| / 2
    ensures Sound(h, keys, m)
  {
    TableOrdered(h, m.t, place, contents);
  }

  lemma SoundHas<V>(h: Hash, keys: set<Key>, m: Slots<V>) returns (place: map<Key, nat>, contents: map<Key, V>)
    requires Sound(h, keys, m)
    ensures Table(h, m.t, place, contents) && contents.Keys <= keys
  {
    place :| Ordered(h, m.t, place) && place.Keys <= keys;
    contents := Bindings(m.t, place);
    TableHolds(h, m.t, place, contents);
  }

  ghost predicate Keyed<V>(was: seq<Slot<V>>, i: nat, keys: set<Key>) {
    forall p :: i <= p < |was| && was[p].Used? ==> was[p].key in keys
  }

  lemma {:induction false} LoadStore<V>(t: seq<Slot<V>>, i: nat, p: nat, s: Slot<V>)
    requires p < |t| && i <= |t|
    ensures Load(t[p := s], i) <= Load(t, i) + if i <= p then 1 else 0
    decreases |t| - i
  {
    if i < |t| {
      LoadStore(t, i + 1, p, s);
    }
  }

  lemma LoadEmpty<V>(n: nat)
    ensures Load(Empty<V>(n), 0) == 0
  {
    var place: map<Key, nat>, contents: map<Key, V> := map[], map[];
    LoadIsKeys(Empty<V>(n), place, contents);
  }

  lemma SoundEmpty<V>(h: Hash, keys: set<Key>, n: nat, b: nat)
    requires n > MAX_CHAIN_LENGTH
    ensures Sound(h, keys, Slots(Empty<V>(n), 0, b))
  {
    LoadEmpty<V>(n);
    EmptySlots<V>(h, n);
    var place: map<Key, nat>, contents: map<Key, V> := map[], map[];
    TableOrdered(h, Empty<V>(n), place, contents);
    hide Empty, Load, Table, Ordered;
  }

  lemma SoundKeyed<V>(h: Hash, keys: set<Key>, m: Slots<V>)
    requires Sound(h, keys, m)
    ensures Keyed(m.t, 0, keys)
  {
    var place, contents := SoundHas(h, keys, m);
    TableHolds(h, m.t, place, contents);
    hide Table, Load;
  }

  lemma SoundStore<V>(h: Hash, keys: set<Key>, m: Slots<V>, k: Key, v: V)
    requires Sound(h, keys, m) && k in keys && Finding(h, m, k).Some?
    ensures var p := Finding(h, m, k).value;
            p < |m.t| && Sound(h, keys, Slots(m.t[p := Used(k, v)], m.size + 1, m.budget))
  {
    hide Probe, Load, Stop, Table;
    FindingIff(h, m, k);
    ProbeStops(h, m.t, k, 0);
    var p := Finding(h, m, k).value;
    var place, contents := SoundHas(h, keys, m);
    StoreKeeps(h, m.t, place, contents, k, v, p);
    LoadStore(m.t, 0, p, Used(k, v));
    TableOrdered(h, m.t[p := Used(k, v)], place[k := p], contents[k := v]);
  }

  /** From m to n the slots only grew, each time for an allocation. */
  ghost predicate Grew<V>(m: Slots<V>, n: Slots<V>) {
    |n.t| >= |m.t| && Outgrown(|n.t|, n.budget) == Outgrown(|m.t|, m.budget)
  }

  lemma {:induction false} PutSound<V>(h: Hash, keys: set<Key>, m: Slots<V>, k: Key, v: V)
    requires Sound(h, keys, m) && k in keys && Putting(h, m, k, v).0 == MapOk
    ensures var n := Putting(h, m, k, v).1; Sound(h, keys, n) && Grew(m, n) && n.size <= m.size + 1
    decreases m.budget, 1, 0
  {
    hide Putting, Rehashing, Finding, Sound, Outgrown;
    SoundWide(h, keys, m);
    PuttingStep(h, m, k, v);
    if Finding(h, m, k).Some? {
      SoundStore(h, keys, m, k, v);
    } else {
      RehashSound(h, keys, m);
      PutSound(h, keys, Rehashing(h, m).1, k, v);
    }
  }

  lemma SoundWide<V>(h: Hash, keys: set<Key>, m: Slots<V>)
    requires Sound(h, keys, m)
    ensures |m.t| > MAX_CHAIN_LENGTH && Load(m.t, 0) <= m.size <= |m.t| / 2
  {
  }

  lemma {:induction false} RehashSound<V>(h: Hash, keys: set<Key>, m: Slots<V>)
    requires Sound(h, keys, m) && |m.t| > 0 && Rehashing(h, m).0 == MapOk
    ensures var n := Rehashing(h, m).1;
            Sound(h, keys, n) && Grew(m, n) && n.size <= m.size && 4 * n.size <= |n.t|
    decreases m.budget, 0, 0
  {
    hide Refilling, Rehashing, Sound, Load;
    SoundWide(h, keys, m);
    SoundKeyed(h, keys, m);
    SoundEmpty<V>(h, keys, 2 * |m.t|, m.budget - 1);
    RehashingStep(h, m);
    RefillSound(h, keys, m.t, 0, Slots(Empty(2 * |m.t|), 0, m.budget - 1));
  }

  lemma {:induction false} RefillSound<V>(h: Hash, keys: set<Key>, was: seq<Slot<V>>, i: nat, m: Slots<V>)
    requires Sound(h, keys, m) && i <= |was| && Keyed(was, i, keys) && |m.t| > 0 && Refilling(h, was, i, m).0 == MapOk
    ensures var n := Refilling(h, was, i, m).1; Sound(h, keys, n) && Grew(m, n) && n.size <= m.size + Load(was, i)
    decreases m.budget, 2, |was| - i
  {
    hide Putting, Refilling, Sound, Outgrown;
    if i == |was| {
      RefillingEnd(h, was, m);
    } else {
      RefillingStep(h, was, i, m);
      if was[i].Free? {
        RefillSound(h, keys, was, i + 1, m);
      } else {
        PutSound(h, keys, m, was[i].key, was[i].data);
        var n := Putting(h, m, was[i].key, was[i].data).1;
        SoundWide(h, keys, n);
        RefillSound(h, keys, was, i + 1, n);
      }
    }
  }

  // ---- failing for ever ----

  /** A put that used up memory enough to outgrow all hashes fails with any more. */
  lemma {:induction false} PutFails<V>(h: Hash, keys: set<Key>, m: Slots<V>, k: Key, v: V, d: nat)
    requires Sound(h, keys, m) && k in keys && AllFlat(h, Outgrown(|m.t|, m.budget), keys)
    requires m.budget == 0 ==> m.size < |m.t| / 2
    requires |m.t| > 0 && Putting(h, m, k, v).0 != MapOk
    ensures Putting(h, More(m, d), k, v).0 == MapOmem
    decreases m.budget, 1, 0
  {
    hide Putting, Rehashing, Finding, Sound, AllFlat, Outgrown;
    FindingMore(h, m, k, d);
    PuttingStep(h, m, k, v);
    PuttingStep(h, More(m, d), k, v);
    if m.budget == 0 {
      StuckFails(h, keys, m, k, v, d);
    } else if Rehashing(h, m).0 == MapOk {
      var n := Rehashing(h, m).1;
      RehashMore(h, m, d);
      RehashSound(h, keys, m);
      SoundWide(h, keys, n);
      PutFails(h, keys, n, k, v, d);
    } else {
      RehashFails(h, keys, m, d);
    }
  }

  lemma StuckFails<V>(h: Hash, keys: set<Key>, m: Slots<V>, k: Key, v: V, d: nat)
    requires Sound(h, keys, m) && k in keys && AllFlat(h, Outgrown(|m.t|, m.budget), keys)
    requires m.budget == 0 && m.size < |m.t| / 2 && |m.t| > 0 && Finding(h, m, k).None?
    ensures Putting(h, More(m, d), k, v).0 == MapOmem
  {
    hide Putting, Finding, Table, Others, Load;
    FindingIff(h, m, k);
    var place, contents := SoundHas(h, keys, m);
    FlatFails(h, More(m, d), place, contents, k, v);
  }

  lemma {:induction false} RehashFails<V>(h: Hash, keys: set<Key>, m: Slots<V>, d: nat)
    requires Sound(h, keys, m) && AllFlat(h, Outgrown(|m.t|, m.budget), keys)
    requires m.budget > 0 && |m.t| > 0 && Rehashing(h, m).0 != MapOk
    ensures Rehashing(h, More(m, d)).0 == MapOmem
    decreases m.budget, 0, 0
  {
    hide Refilling, Rehashing, Sound, AllFlat, Load;
    SoundWide(h, keys, m);
    SoundKeyed(h, keys, m);
    SoundEmpty<V>(h, keys, 2 * |m.t|, m.budget - 1);
    RehashingStep(h, m);
    RehashingStep(h, More(m, d));
    RefillFails(h, keys, m.t, 0, Slots(Empty(2 * |m.t|), 0, m.budget - 1), d);
  }

  lemma {:induction false} RefillFails<V>(h: Hash, keys: set<Key>, was: seq<Slot<V>>, i: nat, m: Slots<V>, d: nat)
    requires Sound(h, keys, m) && i <= |was| && Keyed(was, i, keys) && AllFlat(h, Outgrown(|m.t|, m.budget), keys)
    requires 4 * (m.size + Load(was, i)) <= |m.t| && |m.t| > 0 && Refilling(h, was, i, m).0 != MapOk
    ensures Refilling(h, was, i, More(m, d)).0 == MapOmem
    decreases m.budget, 2, |was| - i
  {
    hide Putting, Refilling, Sound, AllFlat, Outgrown;
    SoundWide(h, keys, m);
    if i == |was| {
      RefillingEnd(h, was, m);
    } else {
      RefillingStep(h, was, i, m);
      RefillingStep(h, was, i, More(m, d));
      if was[i].Free? {
        RefillFails(h, keys, was, i + 1, m, d);
      } else {
        var k, v := was[i].key, was[i].data;
        if Putting(h, m, k, v).0 == MapOk {
          var n := Putting(h, m, k, v).1;
          PutMore(h, m, k, v, d);
          PutSound(h, keys, m, k, v);
          SoundWide(h, keys, n);
          RefillFails(h, keys, was, i + 1, n, d);
        } else {
          PutFails(h, keys, m, k, v, d);
        }
      }
    }
  }

  /** A put fails with any amount of memory if and only if it fails with some allocations that
      outgrow all hashes. */
  lemma FailsForEverIff<V>(h: Hash, keys: set<Key>, m: Slots<V>, k: Key, v: V)
    requires Sound(h, keys, m) && k in keys && m.budget > 0 && AllFlat(h, Outgrown(|m.t|, m.budget), keys)
    ensures |m.t| > 0
    ensures (forall b: nat :: Putting(h, m.(budget := b), k, v).0 == MapOmem) <==> Putting(h, m, k, v).0 == MapOmem
  {
    hide Putting, Sound, AllFlat, Outgrown;
    SoundWide(h, keys, m);
    if Putting(h, m, k, v).0 != MapOk {
      forall b: nat ensures Putting(h, m.(budget := b), k, v).0 == MapOmem {
        if b >= m.budget {
          PutFails(h, keys, m, k, v, b - m.budget);
        } else {
          EndsSomehow(h, m.(budget := b), k, v);
          if Putting(h, m.(budget := b), k, v).0 == MapOk {
            PutMore(h, m.(budget := b), k, v, m.budget - b);
            assert false;
          }
        }
      }
    } else {
      assert m.(budget := m.budget) == m;
    }
  }

  lemma {:induction false} EndsSomehow<V>(h: Hash, m: Slots<V>, k: Key, v: V)
    requires |m.t| > 0
    ensures Putting(h, m, k, v).0 == MapOk || Putting(h, m, k, v).0 == MapOmem
    decreases m.budget, 1, 0
  {
    hide Putting, Rehashing, Finding;
    PuttingStep(h, m, k, v);
    if Finding(h, m, k).None? {
      RehashEnds(h, m);
      if Rehashing(h, m).0 == MapOk {
        EndsSomehow(h, Rehashing(h, m).1, k, v);
      }
    }
  }

  lemma {:induction false} RehashEnds<V>(h: Hash, m: Slots<V>)
    requires |m.t| > 0
    ensures Rehashing(h, m).0 == MapOk || Rehashing(h, m).0 == MapOmem
    decreases m.budget, 0, 0
  {
    hide Refilling, Rehashing;
    RehashingStep(h, m);
    if m.budget > 0 {
      RefillEnds(h, m.t, 0, Slots(Empty(2 * |m.t|), 0, m.budget - 1));
    }
  }

  lemma {:induction false} RefillEnds<V>(h: Hash, was: seq<Slot<V>>, i: nat, m: Slots<V>)
    requires |m.t| > 0 && i <= |was|
    ensures Refilling(h, was, i, m).0 == MapOk || Refilling(h, was, i, m).0 == MapOmem
    decreases m.budget, 2, |was| - i
  {
    hide Putting, Refilling;
    if i == |was| {
      RefillingEnd(h, was, m);
    } else {
      RefillingStep(h, was, i, m);
      if was[i].Free? {
        RefillEnds(h, was, i + 1, m);
      } else {
        EndsSomehow(h, m, was[i].key, was[i].data);
        if Putting(h, m, was[i].key, was[i].data).0 == MapOk {
          RefillEnds(h, was, i + 1, Putting(h, m, was[i].key, was[i].data).1);
        }
      }
    }
  }
}
