/** The open-addressing hash map as it runs. Memory for a bigger table may run out at any
    moment: budget is the number of allocations that will still succeed. */
module HashMap {
  import opened HashTable
  import opened HashCapacity
  import opened HashForever
  import opened HashGrowth
  import opened HashModel
  import opened Options

  /** A cleared slot array. */
  method Calloc<V>(n: nat) returns (a: array<Slot<V>>)
    ensures fresh(a) && a.Length == n && a[..] == Empty(n)
  {
    a := new Slot<V>[n](i => Free);
  }

  class HashMap<V> {
    const hash: Hash
    var tableSize: nat
    var size: nat
    var data: array<Slot<V>>
    var budget: nat

    ghost var contents: map<Key, V>
    ghost var place: map<Key, nat>

    ghost predicate Valid()
      reads this, data
    {
      && data.Length == tableSize
      && Table(hash, data[..], place, contents)
      && |contents| <= size <= tableSize / 2 && (size == 0 <==> contents == map[])
    }

    function Model(): Slots<V>
      reads this, data
    {
      Slots(data[..], size, budget)
    }

    constructor (hash: Hash, budget: nat)
      ensures Valid() && Model() == Slots(Empty(INITIAL_SIZE), 0, budget)
      ensures Valid() && contents == map[] && size == 0 && this.budget == budget && this.hash == hash && fresh(data)
    {
      this.hash, this.budget, tableSize, size := hash, budget, INITIAL_SIZE, 0;
      data := new Slot<V>[INITIAL_SIZE](i => Free);
      contents, place := map[], map[];
      new;
      EmptyTable<V>(hash, data[..]);
    }

    /** Where the key is or may go; None when the table is half full or all 8 slots of the
        key's chain hold other keys. */
    method HashIndex(key: Key) returns (index: Option<nat>)
      requires Valid()
      ensures data.Length > 0 && index == Finding(hash, Model(), key)
      ensures index.Some? ==> index.value < data.Length && Stop(hash, data[..], key, index.value)
      ensures index.Some? ==> size < tableSize / 2
      ensures index.None? <==> size >= tableSize / 2 || Others(hash, data[..], key, MAX_CHAIN_LENGTH)
    {
      hide Table, Placed, Probe, Stop;
      TableHolds(hash, data[..], place, contents);
      if size >= tableSize / 2 {
        return None;
      }
      ProbeStops(hash, data[..], key, 0);
      var curr: nat := hash(key) % tableSize;
      PosZero(hash, key, tableSize);
      var i := 0;
      while i < MAX_CHAIN_LENGTH
        invariant 0 <= i <= MAX_CHAIN_LENGTH && curr == Pos(hash, key, tableSize, i)
        invariant Others(hash, data[..], key, i)
        invariant Probe(hash, data[..], key, i) == Probe(hash, data[..], key, 0)
      {
        ProbeStep(hash, data[..], key, i);
        if data[curr].Free? || data[curr].key == key {
          assert data[..][Pos(hash, key, |data[..]|, i)] == data[curr];
          return Some(curr);
        }
        PosNext(hash, key, tableSize, i);
        assert data[..][Pos(hash, key, |data[..]|, i)] == data[curr];
        curr := (curr + 1) % tableSize;
        i := i + 1;
      }
      ProbeEnd(hash, data[..], key);
      return None;
    }

    /** Fills the slot where the search for the key stopped. */
    method Store(key: Key, value: V, index: nat)
      requires Valid() && size < tableSize / 2 && index < data.Length && Stop(hash, data[..], key, index)
      modifies this, data
      ensures Valid() && contents == old(contents)[key := value] && size == old(size) + 1
      ensures data == old(data) && tableSize == old(tableSize)
      ensures Model() == Slots(old(data[..])[index := Used(key, value)], old(size) + 1, old(budget))
    {
      hide Table, Stop;
      StoreKeeps(hash, data[..], place, contents, key, value, index);
      ghost var t := data[..];
      data[index] := Used(key, value);
      assert data[..] == t[index := Used(key, value)];
      place, contents := place[key := index], contents[key := value];
      size := size + 1;
    }

    /** Binds the key, in a bigger table if need be. When memory runs out no binding is new;
        some are lost exactly when a table was allocated that could not take what was moved
        into it. In a table larger than every hash it fails exactly when all 8 slots of the
        key's chain hold other keys, or when it is half full and nothing can be allocated;
        FailsForEver is about the others. */
    method Put(key: Key, value: V) returns (status: Status)
      requires Valid()
      modifies this, data
      decreases budget, 2
      ensures Valid() && budget <= old(budget) && (data == old(data) || fresh(data)) && tableSize >= old(tableSize)
      ensures old(|Model().t|) > 0 && (status, Model()) == Putting(hash, old(Model()), key, value)
      ensures status == MapOk ==> contents == old(contents)[key := value]
      ensures status == MapOk && tableSize == old(tableSize) ==> size == old(size) + 1
      ensures status == MapOk && tableSize > old(tableSize) ==> size == |old(contents)| + 1
      ensures status != MapOk ==> status == MapOmem && budget == 0 && Subset(contents, old(contents))
      ensures status != MapOk ==> (contents != old(contents) <==> Sheds(hash, old(Model()), key))
      ensures AllFlat(hash, old(tableSize), old(contents).Keys + {key}) ==>
                (status == MapOmem <==> old(Others(hash, data[..], key, MAX_CHAIN_LENGTH))
                                        || (old(size) == old(tableSize) / 2 && old(budget) == 0))
      ensures Overfull(hash, old(contents).Keys + {key}) ==> status == MapOmem
    {
      hide Table, Stop, Putting, Overfull, Others, Subset, Finding, Rehashing, Placed, Sheds, AllFlat;
      TableHolds(hash, data[..], place, contents);
      InFlatTable(key, value);
      var index: nat;
      status, index := MakeRoom(key, value);
      if status == MapOk {
        PuttingStep(hash, Model(), key, value);
        Store(key, value, index);
        Crammed(contents, old(contents), key, value);
      }
    }

    /** When a put into a table larger than every hash fails. */
    lemma InFlatTable(key: Key, value: V)
      requires Valid()
      ensures AllFlat(hash, tableSize, contents.Keys + {key}) && |Model().t| > 0 ==>
                (Putting(hash, Model(), key, value).0 == MapOmem
                 <==> Others(hash, data[..], key, MAX_CHAIN_LENGTH) || (size == tableSize / 2 && budget == 0))
    {
      hide Table, Others, Putting;
      TableHolds(hash, data[..], place, contents);
      if AllFlat(hash, tableSize, contents.Keys + {key}) {
        FlatPutIff(hash, Model(), place, contents, key, value);
      }
    }

    /** A put into any table fails with every amount of memory if and only if it fails with b
        allocations, if those make the table larger than every hash. */
    lemma FailsForEver(key: Key, value: V, b: nat)
      requires Valid() && b > 0 && AllFlat(hash, Outgrown(tableSize, b), contents.Keys + {key})
      ensures |Model().t| > 0
      ensures (forall c: nat :: Putting(hash, Model().(budget := c), key, value).0 == MapOmem)
         <==> Putting(hash, Model().(budget := b), key, value).0 == MapOmem
    {
      hide Table, Putting, AllFlat, Outgrown, Sound, Load;
      var keys, m := contents.Keys + {key}, Model().(budget := b);
      TableHolds(hash, data[..], place, contents);
      LoadIsKeys(m.t, place, contents);
      SoundFrom(hash, keys, m, place, contents);
      FailsForEverIff(hash, keys, m, key, value);
      forall c: nat ensures m.(budget := c) == Model().(budget := c) {
      }
    }

    /** If the keys fitted into a table, there were not too many. */
    lemma Crammed(now: map<Key, V>, was: map<Key, V>, key: Key, value: V)
      requires Valid() && now == contents == was[key := value]
      ensures !Overfull(hash, was.Keys + {key})
    {
      NotOverfull(hash, data[..], place, contents);
      assert now.Keys == was.Keys + {key};
      hide Overfull, Table;
    }

    /** The loop of the put: moves the bindings into bigger tables until there is a place. */
    method MakeRoom(key: Key, ghost value: V) returns (status: Status, index: nat)
      requires Valid()
      modifies this, data
      decreases budget, 1
      ensures Valid() && budget <= old(budget) && (data == old(data) || fresh(data)) && tableSize >= old(tableSize)
      ensures old(|Model().t|) > 0 && |Model().t| > 0
      ensures status == MapOk ==> contents == old(contents) && index < data.Length && Stop(hash, data[..], key, index)
      ensures status == MapOk ==> Finding(hash, Model(), key) == Some(index)
      ensures status == MapOk ==> Putting(hash, old(Model()), key, value) == Putting(hash, Model(), key, value)
      ensures status == MapOk ==> if tableSize == old(tableSize) then size == old(size) else size == |contents|
      ensures status != MapOk ==> (status, Model()) == Putting(hash, old(Model()), key, value)
      ensures status != MapOk ==> status == MapOmem && budget == 0 && Subset(contents, old(contents))
      ensures status != MapOk ==> (contents != old(contents) <==> Sheds(hash, old(Model()), key))
      ensures status == MapOk ==> size < tableSize / 2
    {
      hide Table, Stop, Putting, Rehashing, Finding, Others, Subset, Sheds;
      TableHolds(hash, data[..], place, contents);
      status := MapOk;
      ghost var m := Model();
      var found := HashIndex(key);
      while found.None?
        invariant Valid() && budget <= old(budget) && (data == old(data) || fresh(data)) && contents == old(contents)
        invariant data.Length > 0 && found == Finding(hash, Model(), key)
        invariant Putting(hash, m, key, value) == Putting(hash, Model(), key, value)
        invariant Sheds(hash, m, key) == Sheds(hash, Model(), key)
        invariant found.Some? ==> found.value < data.Length && Stop(hash, data[..], key, found.value)
        invariant found.Some? ==> size < tableSize / 2
        invariant || (tableSize == old(tableSize) && size == old(size))
                  || (tableSize > old(tableSize) && size == |contents|)
        decreases budget
      {
        TableHolds(hash, data[..], place, contents);
        PuttingStep(hash, Model(), key, value);
        ShedsStep(hash, Model(), key);
        status := Rehash();
        if status == MapOmem {
          return status, 0;
        }
        found := HashIndex(key);
      }
      return MapOk, found.value;
    }

    /** Moves every binding into a table of twice the size, or a bigger one. */
    method Rehash() returns (status: Status)
      requires Valid()
      modifies this
      decreases budget, 0
      ensures Valid() && budget <= old(budget) && (data == old(data) || fresh(data)) && tableSize >= old(tableSize)
      ensures old(|Model().t|) > 0 && (status, Model()) == Rehashing(hash, old(Model()))
      ensures status == MapOk ==> contents == old(contents) && size == |contents|
      ensures status == MapOk ==> budget < old(budget) && tableSize >= 2 * old(tableSize)
      ensures status != MapOk ==> status == MapOmem && budget == 0 && Subset(contents, old(contents))
      ensures status != MapOk ==> (contents == old(contents) <==> old(budget) == 0)
    {
      hide Table, Placed, Refilling, Empty;
      TableHolds(hash, data[..], place, contents);
      if budget == 0 {
        return MapOmem;
      }
      var curr, p, c := Grow();
      status := Reinsert(curr, p, c);
    }

    /** An empty table of twice the size; the old slots are handed to the caller. */
    method Grow() returns (curr: array<Slot<V>>, ghost p: map<Key, nat>, ghost c: map<Key, V>)
      requires Valid() && budget > 0
      modifies this
      ensures Valid() && fresh(data) && contents == map[] && tableSize >= 2 * old(tableSize)
      ensures Model() == Slots(Empty(2 * old(|data[..]|)), 0, old(budget) - 1)
      ensures curr == old(data) && curr[..] == old(data[..]) && c == old(contents) && Placed(curr[..], p, c)
    {
      hide Table, Placed, Empty;
      TableHolds(hash, data[..], place, contents);
      curr, p, c := data, place, contents;
      var temp := Calloc<V>(2 * tableSize);
      EmptySlots<V>(hash, 2 * tableSize);
      Adopt(temp);
    }

    /** Puts a cleared array of twice the size in place of the old one. */
    method Adopt(temp: array<Slot<V>>)
      requires budget > 0 && temp.Length >= 2 * tableSize && Table(hash, temp[..], map[], map[])
      modifies this
      ensures Valid() && data == temp && contents == map[] && size == 0 && budget == old(budget) - 1
    {
      hide Table;
      budget := budget - 1;
      data := temp;
      tableSize, size := temp.Length, 0;
      place, contents := map[], map[];
    }

    /** The loop of the rehash: puts what the old slots hold. */
    method Reinsert(curr: array<Slot<V>>, ghost p: map<Key, nat>, ghost c: map<Key, V>) returns (status: Status)
      requires Valid() && contents == map[] && curr != data && Placed(curr[..], p, c)
      modifies this, data
      decreases budget, 4
      ensures Valid() && budget <= old(budget) && (data == old(data) || fresh(data)) && tableSize >= old(tableSize)
      ensures old(|Model().t|) > 0 && (status, Model()) == Refilling(hash, old(curr[..]), 0, old(Model()))
      ensures status == MapOk ==> contents == c && size == |contents|
      ensures status != MapOk ==> status == MapOmem && budget == 0 && Subset(contents, c) && contents != c
    {
      hide Table, Placed, Putting, Refilling;
      TableHolds(hash, data[..], place, contents);
      HeldAll(curr[..], p, c);
      ghost var m := Model();
      var i := 0;
      while i < curr.Length
        invariant 0 <= i <= curr.Length && Valid() && (data == old(data) || fresh(data)) && budget <= old(budget)
        invariant curr != data && curr[..] == old(curr[..]) && tableSize >= old(tableSize)
        invariant contents == Held(p, c, i) && size == |contents| && data.Length > 0
        invariant Refilling(hash, curr[..], i, Model()) == Refilling(hash, curr[..], 0, m)
      {
        status := MoveSlot(curr, i, p, c);
        if status != MapOk {
          return;
        }
        i := i + 1;
      }
      RefillingEnd(hash, curr[..], Model());
      return MapOk;
    }

    /** One turn of that loop: puts what slot i holds, if it is in use. */
    method MoveSlot(curr: array<Slot<V>>, i: nat, ghost p: map<Key, nat>, ghost c: map<Key, V>) returns (status: Status)
      requires Valid() && curr != data && i < curr.Length && Placed(curr[..], p, c)
      requires p.Keys == c.Keys && contents == Held(p, c, i) && size == |contents|
      modifies this, data
      decreases budget, 3
      ensures Valid() && budget <= old(budget) && (data == old(data) || fresh(data)) && tableSize >= old(tableSize)
      ensures data.Length > 0 && old(|Model().t|) > 0
      ensures status == MapOk ==> contents == Held(p, c, i + 1) && size == |contents|
      ensures status == MapOk ==>
                Refilling(hash, curr[..], i, old(Model())) == Refilling(hash, curr[..], i + 1, Model())
      ensures status != MapOk ==> (status, Model()) == Refilling(hash, curr[..], i, old(Model()))
      ensures status != MapOk ==> status == MapOmem && budget == 0 && Subset(contents, c) && contents != c
    {
      hide Table, Placed, Putting, Refilling, Overfull, Sheds, Subset, Held, AllFlat, Others;
      TableHolds(hash, data[..], place, contents);
      HeldNext(curr[..], p, c, i);
      RefillingStep(hash, curr[..], i, Model());
      status := MapOk;
      if curr[i].Used? {
        status := Put(curr[i].key, curr[i].data);
        TableHolds(hash, data[..], place, contents);
        if status != MapOk {
          HeldLess(curr[..], p, c, i, contents);
        }
      }
    }

    /** Finds what the key is bound to, looking at all 8 slots of its chain. */
    method Get(key: Key) returns (status: Status, arg: Option<V>)
      requires Valid()
      ensures key in contents ==> status == MapOk && arg == Some(contents[key])
      ensures key !in contents ==> status == MapMissing && arg == None
    {
      hide Table, Placed;
      TableHolds(hash, data[..], place, contents);
      var curr: nat := hash(key) % tableSize;
      PosZero(hash, key, tableSize);
      var i := 0;
      while i < MAX_CHAIN_LENGTH
        invariant 0 <= i <= MAX_CHAIN_LENGTH && curr == Pos(hash, key, tableSize, i)
        invariant Missed(hash, data[..], key, i)
      {
        assert data[..][Pos(hash, key, |data[..]|, i)] == data[curr];
        if data[curr].Used? && data[curr].key == key {
          SlotBinds(data[..], place, contents, curr);
          return MapOk, Some(data[curr].data);
        }
        PosNext(hash, key, tableSize, i);
        curr := (curr + 1) % tableSize;
        i := i + 1;
      }
      MissedAll(hash, data[..], place, contents, key);
      return MapMissing, None;
    }

    /** Calls f on every value until it fails; visited is what it was called on, and keys
        says which binding each was. */
    method Iterate(f: V -> Status) returns (status: Status, visited: seq<V>, ghost keys: seq<Key>)
      requires Valid()
      ensures contents == map[] ==> status == MapMissing && visited == []
      ensures |visited| == |keys|
      ensures forall i :: 0 <= i < |keys| ==> keys[i] in contents && visited[i] == contents[keys[i]]
      ensures forall i, j :: 0 <= i < j < |keys| ==> keys[i] != keys[j]
      ensures contents != map[] && status == MapOk ==> forall k :: k in contents ==> k in keys
      ensures contents != map[] && status == MapOk ==> forall i :: 0 <= i < |visited| ==> f(visited[i]) == MapOk
      ensures contents != map[] && status != MapOk ==> visited != [] && f(visited[|visited| - 1]) == status
    {
      hide Table, Placed;
      visited, keys, status := [], [], MapOk;
      if size == 0 {
        return MapMissing, [], [];
      }
      TableHolds(hash, data[..], place, contents);
      var i := 0;
      while i < tableSize
        invariant 0 <= i <= tableSize
        invariant Covers(place, contents, keys, visited, i)
        invariant forall j :: 0 <= j < |visited| ==> f(visited[j]) == MapOk
      {
        CoversNext(data[..], place, contents, keys, visited, i);
        if data[i].Used? {
          visited, keys := visited + [data[i].data], keys + [data[i].key];
          status := f(data[i].data);
          if status != MapOk {
            return;
          }
        }
        i := i + 1;
      }
      CoversAll(data[..], place, contents, keys, visited);
      return MapOk, visited, keys;
    }

    method Length() returns (n: nat)
      requires Valid()
      ensures n == size >= |contents|
    {
      return size;
    }
  }
  /** The abstract map after a run of puts. */
  function Updated<V>(c: map<Key, V>, puts: seq<(Key, V)>): map<Key, V>
    decreases |puts|
  {
    if puts == [] then c else Updated(c, puts[..|puts| - 1])[puts[|puts| - 1].0 := puts[|puts| - 1].1]
  }

  /** A run of puts that all succeed, through whatever rehashes, leaves the map that the
      abstract updates make. */
  method PutAll<V>(m: HashMap<V>, puts: seq<(Key, V)>) returns (status: Status)
    requires m.Valid()
    modifies m, m.data
    ensures m.Valid()
    ensures status == MapOk ==> m.contents == Updated(old(m.contents), puts)
    ensures status != MapOk ==> status == MapOmem && m.budget == 0
  {
    hide Table;
    for i := 0 to |puts|
      invariant m.Valid() && (m.data == old(m.data) || fresh(m.data))
      invariant m.contents == Updated(old(m.contents), puts[..i])
    {
      assert puts[..i + 1][..i] == puts[..i];
      status := m.Put(puts[i].0, puts[i].1);
      if status != MapOk {
        return;
      }
    }
    assert puts[..|puts|] == puts;
    return MapOk;
  }
}
