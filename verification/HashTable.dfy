/** What a slot array of the hash map must look like, and what probing it finds. */
module HashTable {
  type Key = string

  const MAX_CHAIN_LENGTH: nat := 8
  const INITIAL_SIZE: nat := 4096

  datatype Slot<V> = Free | Used(key: Key, data: V)

  /** The hash of a key before it is reduced to the table size. */
  type Hash = Key -> nat

  /** The slot looked at after j steps. */
  function Pos(h: Hash, k: Key, n: nat, j: nat): (p: nat)
    requires n > 0
    ensures p < n
  {
    (h(k) % n + j) % n
  }

  lemma PosZero(h: Hash, k: Key, n: nat)
    requires n > 0
    ensures Pos(h, k, n, 0) == h(k) % n
  {
  }

  lemma PosNext(h: Hash, k: Key, n: nat, j: nat)
    requires n > 0
    ensures (Pos(h, k, n, j) + 1) % n == Pos(h, k, n, j + 1)
  {
    var a := h(k) % n + j;
    ModStep(a, n);
  }

  lemma ModStep(a: nat, n: nat)
    requires n > 0
    ensures (a % n + 1) % n == (a + 1) % n
  {
    var q, r := a / n, a % n;
    Euclid(a, n);
    if r + 1 < n {
      Unique(a + 1, n, q, r + 1);
      Unique(r + 1, n, 0, r + 1);
    } else {
      Times(n, q, 1);
      Unique(a + 1, n, q + 1, 0);
      Unique(n, n, 1, 0);
    }
  }

  lemma Euclid(a: nat, n: nat)
    requires n > 0
    ensures a == n * (a / n) + a % n && a % n < n
  {
  }

  lemma Times(n: nat, q: nat, d: nat)
    ensures n * (q + d) == n * q + n * d && n * d >= 0
  {
  }

  lemma Unique(a: nat, n: nat, q: nat, r: nat)
    requires n > 0 && a == n * q + r && r < n
    ensures a % n == r
  {
    Euclid(a, n);
    Between(n, q, r, a / n, a % n);
    hide *;
  }

  lemma Between(n: nat, q: nat, r: nat, p: nat, s: nat)
    requires r < n && s < n && n * q + r == n * p + s
    ensures q == p && r == s
  {
    if q < p {
      Times(n, q, p - q);
      AtLeast(n, p - q);
    } else if p < q {
      Times(n, p, q - p);
      AtLeast(n, q - p);
    }
  }

  lemma AtLeast(n: nat, d: nat)
    requires d >= 1
    ensures n * d >= n
  {
    Times(n, 1, d - 1);
  }

  /** Slot p is one of the 8 where k may be, and no free slot comes before it. */
  ghost predicate InReach<V>(h: Hash, t: seq<Slot<V>>, k: Key, p: nat)
    requires |t| > 0
  {
    exists j: nat :: j < MAX_CHAIN_LENGTH && p == Pos(h, k, |t|, j) && Crowded(h, t, k, j)
  }

  /** The first j slots of k's chain are all in use. */
  ghost predicate Crowded<V>(h: Hash, t: seq<Slot<V>>, k: Key, j: nat)
    requires |t| > 0
  {
    forall i: nat :: i < j ==> t[Pos(h, k, |t|, i)].Used?
  }

  /** place says which slot holds which key: every used slot and every key once. */
  ghost predicate Placed<V>(t: seq<Slot<V>>, place: map<Key, nat>, contents: map<Key, V>) {
    && place.Keys == contents.Keys
    && (forall k :: k in place ==> place[k] < |t| && t[place[k]] == Used(k, contents[k]))
    && (forall p :: 0 <= p < |t| && t[p].Used? ==> t[p].key in place && place[t[p].key] == p)
  }

  ghost predicate Reached<V>(h: Hash, t: seq<Slot<V>>, place: map<Key, nat>)
    requires |t| > 0
  {
    forall k :: k in place ==> InReach(h, t, k, place[k])
  }

  ghost predicate Table<V>(h: Hash, t: seq<Slot<V>>, place: map<Key, nat>, contents: map<Key, V>) {
    |t| > MAX_CHAIN_LENGTH && Placed(t, place, contents) && Reached(h, t, place)
  }

  lemma TableHolds<V>(h: Hash, t: seq<Slot<V>>, place: map<Key, nat>, contents: map<Key, V>)
    requires Table(h, t, place, contents)
    ensures |t| > MAX_CHAIN_LENGTH && Placed(t, place, contents)
  {
  }

  /** Slot p is where a search for k stops: after slots in use by other keys. */
  ghost predicate Stop<V>(h: Hash, t: seq<Slot<V>>, k: Key, p: nat)
    requires |t| > 0
  {
    exists j: nat :: j < MAX_CHAIN_LENGTH && p == Pos(h, k, |t|, j) && Others(h, t, k, j)
                     && (t[p].Free? || t[p].key == k)
  }

  ghost predicate Others<V>(h: Hash, t: seq<Slot<V>>, k: Key, j: nat)
    requires |t| > 0
  {
    forall i: nat :: i < j ==> t[Pos(h, k, |t|, i)].Used? && t[Pos(h, k, |t|, i)].key != k
  }

  /** A search for a stored key stops exactly where it is. */
  lemma StopFinds<V>(h: Hash, t: seq<Slot<V>>, place: map<Key, nat>, contents: map<Key, V>, k: Key, p: nat)
    requires Table(h, t, place, contents) && Stop(h, t, k, p)
    ensures k in place ==> p == place[k]
    ensures k !in place ==> t[p].Free?
  {
    var j: nat :| j < MAX_CHAIN_LENGTH && p == Pos(h, k, |t|, j) && Others(h, t, k, j) && (t[p].Free? || t[p].key == k);
    hide Pos;
    if k in place {
      var i: nat :| i < MAX_CHAIN_LENGTH && place[k] == Pos(h, k, |t|, i) && Crowded(h, t, k, i);
      assert t[Pos(h, k, |t|, i)].key == k;
      if j < i {
        assert t[Pos(h, k, |t|, j)].Used?;
      }
    }
  }

  lemma Whereabouts<V>(h: Hash, t: seq<Slot<V>>, place: map<Key, nat>, contents: map<Key, V>, k: Key) returns (i: nat)
    requires Table(h, t, place, contents) && k in place
    ensures i < MAX_CHAIN_LENGTH && place[k] == Pos(h, k, |t|, i) && t[Pos(h, k, |t|, i)] == Used(k, contents[k])
  {
    i :| i < MAX_CHAIN_LENGTH && place[k] == Pos(h, k, |t|, i) && Crowded(h, t, k, i);
  }

  /** Writing where the search stopped keeps the table in order and binds the key. */
  lemma StoreKeeps<V>(h: Hash, t: seq<Slot<V>>, place: map<Key, nat>, contents: map<Key, V>, k: Key, v: V, p: nat)
    requires Table(h, t, place, contents) && p < |t| && Stop(h, t, k, p)
    ensures Table(h, t[p := Used(k, v)], place[k := p], contents[k := v])
  {
    var u := t[p := Used(k, v)];
    StopFinds(h, t, place, contents, k, p);
    StorePlaced(h, t, place, contents, k, v, p);
    var after := place[k := p];
    forall x | x in after ensures InReach(h, u, x, after[x]) {
      if x == k {
        var j: nat :| j < MAX_CHAIN_LENGTH && p == Pos(h, k, |t|, j) && Others(h, t, k, j);
        StillCrowded(h, t, k, j, p, Used(k, v));
      } else {
        var j: nat :| j < MAX_CHAIN_LENGTH && place[x] == Pos(h, x, |t|, j) && Crowded(h, t, x, j);
        StillCrowded(h, t, x, j, p, Used(k, v));
      }
      hide Pos, Crowded, Others, Placed;
    }
  }

  lemma StillCrowded<V>(h: Hash, t: seq<Slot<V>>, k: Key, j: nat, p: nat, s: Slot<V>)
    requires |t| > 0 && p < |t| && s.Used? && (Crowded(h, t, k, j) || Others(h, t, k, j))
    ensures Crowded(h, t[p := s], k, j)
  {
    hide Pos;
  }

  lemma StorePlaced<V>(h: Hash, t: seq<Slot<V>>, place: map<Key, nat>, contents: map<Key, V>, k: Key, v: V, p: nat)
    requires Placed(t, place, contents) && p < |t|
    requires if k in place then p == place[k] else t[p].Free?
    ensures Placed(t[p := Used(k, v)], place[k := p], contents[k := v])
  {
  }

  lemma EmptyTable<V>(h: Hash, t: seq<Slot<V>>)
    requires |t| > MAX_CHAIN_LENGTH && forall p :: 0 <= p < |t| ==> t[p].Free?
    ensures Table(h, t, map[], map[])
  {
  }

  /** What the first i slots hold. */
  ghost function Held<V>(place: map<Key, nat>, contents: map<Key, V>, i: nat): map<Key, V>
    requires place.Keys == contents.Keys
  {
    map k | k in contents && place[k] < i :: contents[k]
  }

  lemma HeldNext<V>(t: seq<Slot<V>>, place: map<Key, nat>, contents: map<Key, V>, i: nat)
    requires Placed(t, place, contents) && i < |t|
    ensures t[i].Free? ==> Held(place, contents, i + 1) == Held(place, contents, i)
    ensures t[i].Used? ==> t[i].key !in Held(place, contents, i)
    ensures t[i].Used? ==> Held(place, contents, i + 1) == Held(place, contents, i)[t[i].key := t[i].data]
  {
  }

  lemma HeldAll<V>(t: seq<Slot<V>>, place: map<Key, nat>, contents: map<Key, V>)
    requires Placed(t, place, contents)
    ensures place.Keys == contents.Keys
    ensures Held(place, contents, |t|) == contents && Held(place, contents, 0) == map[]
  {
  }

  /** Every binding of a is one of b. */
  ghost predicate Subset<V>(a: map<Key, V>, b: map<Key, V>) {
    forall k :: k in a ==> k in b && a[k] == b[k]
  }

  /** What is left of the first i slots is not everything if slot i is in use. */
  lemma HeldLess<V>(t: seq<Slot<V>>, place: map<Key, nat>, contents: map<Key, V>, i: nat, now: map<Key, V>)
    requires Placed(t, place, contents) && i < |t| && t[i].Used?
    requires place.Keys == contents.Keys && Subset(now, Held(place, contents, i))
    ensures Subset(now, contents) && now != contents
  {
    assert t[i].key in contents && t[i].key !in now;
  }

  // ---- looking up ----

  ghost predicate Missed<V>(h: Hash, t: seq<Slot<V>>, k: Key, j: nat)
    requires |t| > 0
  {
    forall i: nat :: i < j ==> t[Pos(h, k, |t|, i)].Free? || t[Pos(h, k, |t|, i)].key != k
  }

  lemma MissedAll<V>(h: Hash, t: seq<Slot<V>>, place: map<Key, nat>, contents: map<Key, V>, k: Key)
    requires Table(h, t, place, contents) && Missed(h, t, k, MAX_CHAIN_LENGTH)
    ensures k !in contents
  {
    if k in place {
      var i := Whereabouts(h, t, place, contents, k);
      assert false;
    }
  }

  lemma SlotBinds<V>(t: seq<Slot<V>>, place: map<Key, nat>, contents: map<Key, V>, p: nat)
    requires Placed(t, place, contents) && p < |t| && t[p].Used?
    ensures t[p].key in contents && contents[t[p].key] == t[p].data
  {
  }

  /** keys and visited list the bindings of the first i slots, each once. */
  ghost predicate Covers<V>(place: map<Key, nat>, contents: map<Key, V>, keys: seq<Key>, visited: seq<V>, i: nat) {
    && place.Keys == contents.Keys
    && |visited| == |keys|
    && (forall j :: 0 <= j < |keys| ==> keys[j] in contents && visited[j] == contents[keys[j]] && place[keys[j]] < i)
    && (forall j, l :: 0 <= j < l < |keys| ==> keys[j] != keys[l])
    && (forall k :: k in place && place[k] < i ==> k in keys)
  }

  lemma CoversNext<V>(t: seq<Slot<V>>, place: map<Key, nat>, contents: map<Key, V>, keys: seq<Key>, visited: seq<V>,
                      i: nat)
    requires Placed(t, place, contents) && Covers(place, contents, keys, visited, i) && i < |t|
    ensures t[i].Used? ==> Covers(place, contents, keys + [t[i].key], visited + [t[i].data], i + 1)
    ensures t[i].Free? ==> Covers(place, contents, keys, visited, i + 1)
  {
    if t[i].Used? {
      var more := keys + [t[i].key];
      assert t[i].key == more[|keys|];
      forall k | k in place && place[k] < i + 1 ensures k in more {
        if place[k] == i {
          assert k == more[|keys|];
        } else {
          var j :| 0 <= j < |keys| && keys[j] == k;
          assert more[j] == k;
        }
      }
    }
  }

  lemma CoversAll<V>(t: seq<Slot<V>>, place: map<Key, nat>, contents: map<Key, V>, keys: seq<Key>, visited: seq<V>)
    requires Placed(t, place, contents) && Covers(place, contents, keys, visited, |t|)
    ensures forall k :: k in contents ==> k in keys
  {
  }
}
