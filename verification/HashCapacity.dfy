/** How many keys of near hash values a table can hold, and when there is room for one more. */
module HashCapacity {
  import opened HashTable

  /** The hashes of ks lie in a window of w values, from a on. */
  ghost predicate InWindow(h: Hash, ks: set<Key>, a: nat, w: nat) {
    forall k :: k in ks ==> a <= h(k) < a + w
  }

  /** Some window of w hash values has more than w + 7 of the keys. */
  ghost predicate Overfull(h: Hash, keys: set<Key>) {
    exists ks: set<Key>, a: nat, w: nat :: ks <= keys && w > 0 && InWindow(h, ks, a, w) && |ks| >= w + MAX_CHAIN_LENGTH
  }

  /** Where a hash value, counted on from a by i, lands. */
  function Spot(a: nat, i: nat, n: nat): nat
    requires n > 0
  {
    (a + i) % n
  }

  lemma {:induction false} PosIsSpot(h: Hash, k: Key, n: nat, a: nat, j: nat)
    requires n > 0 && a <= h(k)
    ensures Pos(h, k, n, j) == Spot(a, h(k) - a + j, n)
    decreases j
  {
    if j == 0 {
      PosZero(h, k, n);
    } else {
      PosIsSpot(h, k, n, a, j - 1);
      PosNext(h, k, n, j - 1);
      ModStep(h(k) + (j - 1), n);
      hide Pos;
    }
  }

  /** Keys with w neighbouring hash values have w + 7 slots between them. */
  lemma WindowCapacity<V>(h: Hash, t: seq<Slot<V>>, place: map<Key, nat>, contents: map<Key, V>, ks: set<Key>, a: nat,
                          w: nat)
    requires Table(h, t, place, contents) && ks <= contents.Keys && InWindow(h, ks, a, w) && w > 0
    ensures |ks| < w + MAX_CHAIN_LENGTH
  {
    var m := w + MAX_CHAIN_LENGTH - 1;
    forall k | k in ks ensures exists i: nat :: i < m && place[k] == Spot(a, i, |t|) {
      var j := Whereabouts(h, t, place, contents, k);
      PosIsSpot(h, k, |t|, a, j);
      assert place[k] == Spot(a, h(k) - a + j, |t|);
    }
    Fits(|t|, place, ks, a, m) by {
      forall k, l | k in ks && l in ks && k != l ensures place[k] != place[l] {
        assert t[place[k]].key == k && t[place[l]].key == l;
      }
    }
  }

  lemma {:induction false} Fits(n: nat, place: map<Key, nat>, ks: set<Key>, a: nat, m: nat)
    requires n > 0 && ks <= place.Keys
    requires forall k, l :: k in ks && l in ks && k != l ==> place[k] != place[l]
    requires forall k :: k in ks ==> exists i: nat :: i < m && place[k] == Spot(a, i, n)
    ensures |ks| <= m
    decreases m
  {
    hide Spot;
    if m == 0 {
      assert ks == {} by {
        if k :| k in ks {
          assert false;
        }
      }
    } else if k :| k in ks && place[k] == Spot(a, m - 1, n) {
      Fits(n, place, ks - {k}, a, m - 1);
    } else {
      Fits(n, place, ks, a, m - 1);
    }
  }

  lemma NotOverfull<V>(h: Hash, t: seq<Slot<V>>, place: map<Key, nat>, contents: map<Key, V>)
    requires Table(h, t, place, contents)
    ensures !Overfull(h, contents.Keys)
  {
    hide Table, InWindow;
    forall ks: set<Key>, a: nat, w: nat | ks <= contents.Keys && w > 0 && InWindow(h, ks, a, w)
      ensures |ks| < w + MAX_CHAIN_LENGTH
    {
      WindowCapacity(h, t, place, contents, ks, a, w);
    }
  }

  /** A ninth key of one hash value is one too many. */
  lemma NinthKey(h: Hash, bound: set<Key>, ks: set<Key>, x: Key)
    requires ks <= bound && x !in ks && |ks| == MAX_CHAIN_LENGTH && forall k :: k in ks ==> h(k) == h(x)
    ensures Overfull(h, bound + {x})
  {
    var all := ks + {x};
    assert all <= bound + {x} && InWindow(h, all, h(x), 1) && |all| >= 1 + MAX_CHAIN_LENGTH;
  }

  // ---- when there is room ----

  /** The chains of two keys share a slot: their home slots are at most 7 apart. */
  ghost predicate Meet(h: Hash, n: nat, k: Key, x: Key)
    requires n > 0
  {
    exists i: nat, j: nat :: i < MAX_CHAIN_LENGTH && j < MAX_CHAIN_LENGTH && Pos(h, k, n, j) == Pos(h, x, n, i)
  }

  lemma PosApart(h: Hash, k: Key, n: nat, i: nat, j: nat)
    requires i < j < MAX_CHAIN_LENGTH < n
    ensures Pos(h, k, n, i) != Pos(h, k, n, j)
  {
    var b := h(k) % n;
    Wrapped(b, i, n);
    Wrapped(b, j, n);
  }

  lemma Wrapped(b: nat, i: nat, n: nat)
    requires b < n && i < n
    ensures (b + i) % n == if b + i < n then b + i else b + i - n
  {
    if b + i < n {
      Unique(b + i, n, 0, b + i);
    } else {
      Times(n, 1, 0);
      Unique(b + i, n, 1, b + i - n);
    }
  }

  /** k is in one of the first m slots of x's chain. */
  ghost predicate Among(h: Hash, n: nat, place: map<Key, nat>, k: Key, x: Key, m: nat)
    requires n > 0
  {
    k in place && exists i: nat :: i < m && place[k] == Pos(h, x, n, i)
  }

  /** The key in slot m of x's chain, if it is another one, is bound and not in a slot before. */
  lemma Blocker<V>(h: Hash, t: seq<Slot<V>>, place: map<Key, nat>, contents: map<Key, V>, x: Key, m: nat)
    requires Table(h, t, place, contents) && m < MAX_CHAIN_LENGTH
    requires var s := t[Pos(h, x, |t|, m)]; s.Used? && s.key != x
    ensures var k := t[Pos(h, x, |t|, m)].key;
            k in contents && Meet(h, |t|, k, x) && Among(h, |t|, place, k, x, m + 1) && !Among(h, |t|, place, k, x, m)
  {
    hide Pos, Reached;
    var p := Pos(h, x, |t|, m);
    var k := t[p].key;
    TableHolds(h, t, place, contents);
    assert place[k] == p;
    var j := Whereabouts(h, t, place, contents, k);
    assert Pos(h, k, |t|, j) == Pos(h, x, |t|, m);
    forall i: nat | i < m ensures Pos(h, x, |t|, i) != p {
      PosApart(h, x, |t|, i, m);
    }
  }

  /** The keys that block the first m slots of x's chain. */
  lemma {:induction false} Blockers<V>(h: Hash, t: seq<Slot<V>>, place: map<Key, nat>, contents: map<Key, V>, x: Key,
                                           m: nat) returns (ks: set<Key>)
    requires Table(h, t, place, contents) && m <= MAX_CHAIN_LENGTH && Others(h, t, x, m)
    ensures |ks| == m && ks <= contents.Keys && x !in ks
    ensures forall k :: k in ks ==> Meet(h, |t|, k, x) && Among(h, |t|, place, k, x, m)
    decreases m
  {
    hide Pos, Table, Meet;
    TableHolds(h, t, place, contents);
    if m == 0 {
      ks := {};
    } else {
      var less := Blockers(h, t, place, contents, x, m - 1);
      var k := t[Pos(h, x, |t|, m - 1)].key;
      Blocker(h, t, place, contents, x, m - 1);
      forall l | l in less ensures Among(h, |t|, place, l, x, m) {
        Further(h, |t|, place, l, x, m - 1);
      }
      hide Among, Others;
      ks := less + {k};
    }
  }

  lemma Further(h: Hash, n: nat, place: map<Key, nat>, k: Key, x: Key, m: nat)
    requires n > 0 && Among(h, n, place, k, x, m)
    ensures Among(h, n, place, k, x, m + 1)
  {
    hide Pos;
  }

  /** If fewer than 8 other bound keys have chains that meet the key's, not all of its slots
      are taken by others. */
  lemma RoomFor<V>(h: Hash, t: seq<Slot<V>>, place: map<Key, nat>, contents: map<Key, V>, x: Key, near: set<Key>)
    requires Table(h, t, place, contents) && |near| < MAX_CHAIN_LENGTH
    requires forall k :: k in contents && k != x && Meet(h, |t|, k, x) ==> k in near
    ensures !Others(h, t, x, MAX_CHAIN_LENGTH)
  {
    if Others(h, t, x, MAX_CHAIN_LENGTH) {
      var ks := Blockers(h, t, place, contents, x, MAX_CHAIN_LENGTH);
      assert ks <= near by {
        hide Meet;
      }
      Smaller(ks, near);
    }
    hide Table;
  }

  lemma {:induction false} Smaller(a: set<Key>, b: set<Key>)
    requires a <= b
    ensures |a| <= |b|
    decreases |a|
  {
    if x :| x in a {
      Smaller(a - {x}, b - {x});
    }
  }
}
