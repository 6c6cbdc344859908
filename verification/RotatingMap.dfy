/** `RotatingMap`, the table behind every pending-request map: shards chosen by hash, each with a
    current and a previous generation. It refines a plain map, and rotation loses nothing. */
module RotatingMap {
  import opened Runs

  const SHARDS: nat := 64
  const SHRINK_FACTOR: nat := 4

  datatype Maps<K, V> = Maps(current: map<K, V>, previous: map<K, V>, highWaterMark: nat)

  /** What the shard holds: the current generation, then the previous one. */
  function Merged<K, V>(m: Maps<K, V>): map<K, V> {
    m.previous + m.current
  }

  predicate Disjoint<K, V>(m: Maps<K, V>) {
    m.current.Keys !! m.previous.Keys
  }

  function ShardOf<K>(hash: K -> nat, key: K): (i: nat)
    ensures i < SHARDS
  {
    hash(key) % SHARDS
  }

  /** The part of a map that belongs to shard `i`. */
  function Part<K, V>(hash: K -> nat, contents: map<K, V>, i: nat): map<K, V> {
    map key | key in contents && ShardOf(hash, key) == i :: contents[key]
  }

  lemma PartOfUpdate<K, V>(hash: K -> nat, contents: map<K, V>, key: K, value: V, i: nat)
    ensures Part(hash, contents[key := value], i) ==
            if ShardOf(hash, key) == i then Part(hash, contents, i)[key := value] else Part(hash, contents, i)
  {
  }

  lemma PartOfRemoval<K, V>(hash: K -> nat, contents: map<K, V>, key: K, i: nat)
    ensures Part(hash, contents - {key}, i) ==
            if ShardOf(hash, key) == i then Part(hash, contents, i) - {key} else Part(hash, contents, i)
  {
  }

  /** The shard holds `part`, each key in one generation. */
  predicate Holds<K, V(==)>(m: Maps<K, V>, part: map<K, V>) {
    Disjoint(m) && Merged(m) == part
  }

  lemma Inserted<K, V>(m: Maps<K, V>, part: map<K, V>, key: K, value: V)
    requires Holds(m, part) && key !in part
    ensures Holds(m.(current := m.current[key := value]), part[key := value])
  {
    var after := m.(current := m.current[key := value]);
    assert Merged(after).Keys == Merged(m).Keys + {key};
  }

  function Without<K, V>(m: Maps<K, V>, key: K): Maps<K, V> {
    if key in m.current then m.(current := m.current - {key}) else m.(previous := m.previous - {key})
  }

  lemma Removed<K, V>(m: Maps<K, V>, part: map<K, V>, key: K)
    requires Holds(m, part)
    ensures Holds(Without(m, key), part - {key})
  {
    var after := Without(m, key);
    assert Merged(after).Keys == Merged(m).Keys - {key};
  }

  class RotatingMap<K(==), V(==)> {
    var shards: seq<Maps<K, V>>
    const hash: K -> nat
    const minCapacity: nat
    ghost var contents: map<K, V>

    /** The shards are the parts of `contents`. */
    ghost predicate Valid()
      reads this
    {
      |shards| == SHARDS && forall i :: 0 <= i < SHARDS ==> Holds(shards[i], Part(hash, contents, i))
    }

    constructor (hash: K -> nat, minCapacity: nat)
      ensures Valid() && contents == map[]
      ensures this.hash == hash && this.minCapacity == minCapacity
    {
      this.hash, this.minCapacity := hash, minCapacity;
      shards := seq(SHARDS, _ => Maps(map[], map[], 0));
      contents := map[];
    }

    lemma Lookup(key: K)
      requires Valid()
      ensures var m := shards[ShardOf(hash, key)];
              && (key in contents <==> key in m.current || key in m.previous)
              && (key in m.current ==> contents[key] == m.current[key])
              && (key in m.previous ==> contents[key] == m.previous[key])
    {
      var i := ShardOf(hash, key);
      var m, part := shards[i], Part(hash, contents, i);
      assert Holds(m, part);
      assert key in contents <==> key in part;
      assert key in Merged(m) <==> key in m.current || key in m.previous;
    }

    method Insert(key: K, value: V)
      requires Valid() && key !in contents
      modifies this`shards, this`contents
      ensures Valid() && contents == old(contents)[key := value]
    {
      var i := ShardOf(hash, key);
      forall j | 0 <= j < SHARDS ensures Part(hash, contents[key := value], j) ==
          (if i == j then Part(hash, contents, j)[key := value] else Part(hash, contents, j))
      {
        PartOfUpdate(hash, contents, key, value, j);
      }
      Inserted(shards[i], Part(hash, contents, i), key, value);
      shards := shards[i := shards[i].(current := shards[i].current[key := value])];
      contents := contents[key := value];
    }

    method Set(key: K, value: V) returns (ok: bool)
      requires Valid()
      modifies this`shards, this`contents
      ensures Valid() && ok == (key !in old(contents))
      ensures contents == if ok then old(contents)[key := value] else old(contents)
    {
      Lookup(key);
      var i := ShardOf(hash, key);
      var m := shards[i];
      if key in m.current || key in m.previous { return false; }
      Insert(key, value);
      return true;
    }

    method GetOrCreate(key: K, created: V) returns (value: V, loaded: bool)
      requires Valid()
      modifies this`shards, this`contents
      ensures Valid() && loaded == (key in old(contents))
      ensures value == (if loaded then old(contents)[key] else created)
      ensures contents == if loaded then old(contents) else old(contents)[key := created]
    {
      Lookup(key);
      var i := ShardOf(hash, key);
      var m := shards[i];
      if key in m.current { return m.current[key], true; }
      if key in m.previous { return m.previous[key], true; }
      Insert(key, created);
      return created, false;
    }

    method Get(key: K) returns (value: Option<V>)
      requires Valid()
      ensures value == if key in contents then Some(contents[key]) else None
    {
      Lookup(key);
      var m := shards[ShardOf(hash, key)];
      if key in m.current { return Some(m.current[key]); }
      if key in m.previous { return Some(m.previous[key]); }
      return None;
    }

    /** Removal from the generation that holds the key. */
    method Remove(key: K)
      requires Valid() && key in contents
      modifies this`shards, this`contents
      ensures Valid() && contents == old(contents) - {key}
    {
      var i := ShardOf(hash, key);
      forall j | 0 <= j < SHARDS ensures Part(hash, contents - {key}, j) ==
          (if i == j then Part(hash, contents, j) - {key} else Part(hash, contents, j))
      {
        PartOfRemoval(hash, contents, key, j);
      }
      Removed(shards[i], Part(hash, contents, i), key);
      shards, contents := shards[i := Without(shards[i], key)], contents - {key};
    }

    method Pop(key: K) returns (value: Option<V>)
      requires Valid()
      modifies this`shards, this`contents
      ensures Valid() && contents == old(contents) - {key}
      ensures value == if key in old(contents) then Some(old(contents)[key]) else None
    {
      value := Get(key);
      if value.Some? { Remove(key); } else { assert contents - {key} == contents; }
    }

    method PopIf(key: K, test: V -> bool) returns (value: Option<V>)
      requires Valid()
      modifies this`shards, this`contents
      ensures Valid() && value.Some? == (key in old(contents) && test(old(contents)[key]))
      ensures value.Some? ==> value.value == old(contents)[key]
      ensures contents == if value.Some? then old(contents) - {key} else old(contents)
    {
      var found := Get(key);
      if found.None? || !test(found.value) { return None; }
      Remove(key);
      return found;
    }

    method RotateShard(i: nat)
      requires Valid() && i < SHARDS
      modifies this`shards, this`contents
      ensures Valid() && contents == old(contents)
      ensures Rotated(old(shards)[i], minCapacity, shards[i]) && shards == old(shards)[i := shards[i]]
    {
      var m := Fit(shards[i], minCapacity);
      assert Holds(shards[i], Part(hash, contents, i));
      RotationKeeps(shards[i], minCapacity, m);
      shards := shards[i := m];
    }

    /** `rotate`: every shard is considered, and entries never expire. */
    method Rotate()
      requires Valid()
      modifies this`shards, this`contents
      ensures Valid() && contents == old(contents)
      ensures forall i :: 0 <= i < SHARDS ==> Rotated(old(shards)[i], minCapacity, shards[i])
    {
      for i := 0 to SHARDS
        invariant Valid() && contents == old(contents) && |old(shards)| == SHARDS
        invariant forall k :: 0 <= k < i ==> Rotated(old(shards)[k], minCapacity, shards[k])
        invariant forall k :: i <= k < SHARDS ==> shards[k] == old(shards)[k]
      {
        RotateShard(i);
      }
    }
  }

  /** A shard is rotated exactly when it has grown to the minimum capacity and this is its first
      rotation or it has shrunk to less than a quarter of its mark; then all its entries are in the
      previous generation and the mark starts anew, otherwise only the mark rises. */
  ghost predicate Rotated<K, V>(maps: Maps<K, V>, minCapacity: nat, m: Maps<K, V>) {
    var total := |maps.current| + |maps.previous|;
    var mark := if maps.highWaterMark < total then total else maps.highWaterMark;
    if mark >= minCapacity && (maps.highWaterMark == 0 || 4 * total < maps.highWaterMark)
    then m == Maps(map[], Merged(maps), total)
    else m == maps.(highWaterMark := mark)
  }

  lemma MergedOfOne<K, V>(all: map<K, V>, mark: nat)
    ensures Merged(Maps(map[], all, mark)) == all && Disjoint(Maps(map[], all, mark))
  {
    assert all + map[] == all;
  }

  /** Rotating a shard, or leaving it, loses nothing. */
  lemma RotationKeeps<K, V>(maps: Maps<K, V>, minCapacity: nat, m: Maps<K, V>)
    requires Rotated(maps, minCapacity, m) && Disjoint(maps)
    ensures Merged(m) == Merged(maps) && Disjoint(m)
  {
    MergedOfOne(Merged(maps), m.highWaterMark);
  }

  /** `rotate_shard`: both generations move into one of fitting capacity, when the shard has
      shrunk enough. */
  method Fit<K, V>(maps: Maps<K, V>, minCapacity: nat) returns (m: Maps<K, V>)
    ensures Rotated(maps, minCapacity, m)
  {
    var total := |maps.current| + |maps.previous|;
    var shouldRotate := maps.highWaterMark == 0 || total * SHRINK_FACTOR < maps.highWaterMark;
    m := maps.(highWaterMark := if maps.highWaterMark < total then total else maps.highWaterMark);
    if m.highWaterMark < minCapacity || !shouldRotate { return; }
    var fitted := Gather(maps.current, maps.previous);
    m := Maps(map[], fitted, total);
  }

  /** The two drains of a rotation, in arbitrary order; an entry of `current` wins. */
  method Gather<K, V>(current: map<K, V>, previous: map<K, V>) returns (fitted: map<K, V>)
    ensures fitted == previous + current
  {
    fitted := map[];
    var rest := current.Keys;
    while rest != {}
      invariant rest <= current.Keys && fitted.Keys == current.Keys - rest
      invariant forall k :: k in fitted ==> fitted[k] == current[k]
      decreases rest
    {
      var k := Pick(rest);
      fitted, rest := fitted[k := current[k]], rest - {k};
    }
    rest := previous.Keys;
    while rest != {}
      invariant rest <= previous.Keys && fitted.Keys == current.Keys + (previous.Keys - rest)
      invariant forall k :: k in fitted ==> fitted[k] == if k in current then current[k] else previous[k]
      decreases rest
    {
      var k := Pick(rest);
      if k !in fitted { fitted := fitted[k := previous[k]]; }
      rest := rest - {k};
    }
  }
}
