/**
 The whole-model expert cache of ios/Sources/Edge0MLX/StreamingMoE.swift (`ExpertBundleCache`): a
 table of values and a list of keys, oldest use first.
 */
module BundleCache {
  import opened Common
  import opened Recency

  /** Stands for the string "layer:expert". */
  datatype Key = Key(layer: nat, expert: nat)

  /**
   The table holds exactly the last `capacity` distinct keys used, each with the value last put for it;
   `dropped` are the keys used before those, in the order of their last use.
   */
  ghost predicate Holds<V>(values: map<Key, V>, order: seq<Key>, capacity: nat,
                           uses: seq<Key>, dropped: seq<Key>, latest: map<Key, V>) {
    && Recent(uses) == dropped + order && Bounded(dropped, order, capacity)
    && values.Keys == Members(order)
    && Backed(values, latest)
  }

  lemma HitHolds<V>(values: map<Key, V>, order: seq<Key>, capacity: nat,
                    uses: seq<Key>, dropped: seq<Key>, latest: map<Key, V>, key: Key)
    requires Holds(values, order, capacity, uses, dropped, latest)
    ensures key in values <==> key in order
    ensures key in order ==> Holds(values, Without(order, key) + [key], capacity, uses + [key], dropped, latest)
  {
    assert key in values <==> key in Members(order);
    if key in order {
      UseKept(uses, key, dropped, order, capacity);
    }
  }

  lemma PutKeptHolds<V>(values: map<Key, V>, order: seq<Key>, capacity: nat,
                        uses: seq<Key>, dropped: seq<Key>, latest: map<Key, V>, key: Key, value: V)
    requires Holds(values, order, capacity, uses, dropped, latest) && key in order
    ensures Holds(values[key := value], Without(order, key) + [key], capacity, uses + [key], dropped, latest[key := value])
    ensures |Without(order, key) + [key]| <= capacity
  {
    UseKept(uses, key, dropped, order, capacity);
    assert key in Members(order);
    assert values[key := value].Keys == values.Keys;
  }

  ghost predicate Backed<V>(values: map<Key, V>, latest: map<Key, V>) {
    forall k :: k in values ==> k in latest && values[k] == latest[k]
  }

  lemma TablePut<V>(values: map<Key, V>, latest: map<Key, V>, key: Key, value: V, evicted: set<Key>)
    requires Backed(values, latest)
    ensures Backed(values[key := value] - evicted, latest[key := value])
    ensures (values[key := value] - evicted).Keys == values.Keys + {key} - evicted
  {
  }

  /** After a new key is appended and, if that is one too many, the oldest is evicted. */
  lemma PutOtherHolds<V>(values: map<Key, V>, order: seq<Key>, capacity: nat,
                         uses: seq<Key>, dropped: seq<Key>, latest: map<Key, V>, key: Key, value: V)
    requires Holds(values, order, capacity, uses, dropped, latest) && key !in order && capacity > 0
    ensures var list := Without(order, key) + [key];
            var evicted := if |list| > capacity then {list[0]} else {};
            && |list| <= capacity + 1
            && Holds(values[key := value] - evicted, Trimmed(list, capacity), capacity, uses + [key],
                     TrimmedOff(Without(dropped, key), list, capacity), latest[key := value])
  {
    UseOther(uses, key, dropped, order, capacity);
    var list := order + [key];
    TrimMembers(list, capacity);
    TablePut(values, latest, key, value, if |list| > capacity then {list[0]} else {});
  }

  class ExpertBundleCache<V> {
    const capacity: nat
    var values: map<Key, V>
    var order: seq<Key>
    var hitCount: nat
    var missCount: nat

    /** Every hit and every put so far, oldest first. */
    ghost var uses: seq<Key>
    ghost var dropped: seq<Key>
    ghost var latest: map<Key, V>

    ghost predicate Valid()
      reads this
    {
      Holds(values, order, capacity, uses, dropped, latest)
    }

    constructor (capacity: nat)
      ensures Valid() && this.capacity == capacity && uses == [] && latest == map[]
    {
      this.capacity := capacity;
      values, order, hitCount, missCount := map[], [], 0, 0;
      uses, dropped, latest := [], [], map[];
    }

    /** `get` */
    method Get(key: Key) returns (found: Option<V>)
      requires Valid()
      modifies this
      ensures Valid() && latest == old(latest)
      ensures found.Some? <==> key in old(order)
      ensures found.Some? ==> key in latest && found.value == latest[key]
      ensures uses == if found.Some? then old(uses) + [key] else old(uses)
      ensures hitCount == old(hitCount) + (if found.Some? then 1 else 0)
      ensures missCount == old(missCount) + (if found.Some? then 0 else 1)
    {
      HitHolds(values, order, capacity, uses, dropped, latest, key);
      if key !in values {
        missCount := missCount + 1;
        return None;
      }
      found := Some(values[key]);
      hitCount := hitCount + 1;
      order := Without(order, key) + [key];
      uses := uses + [key];
    }

    /** `put` */
    method Put(key: Key, value: V)
      requires Valid()
      modifies this
      ensures Valid() && hitCount == old(hitCount) && missCount == old(missCount)
      ensures uses == if capacity > 0 then old(uses) + [key] else old(uses)
      ensures latest == if capacity > 0 then old(latest)[key := value] else old(latest)
    {
      if capacity == 0 { return; }
      if key in order {
        PutKeptHolds(values, order, capacity, uses, dropped, latest, key, value);
      } else {
        PutOtherHolds(values, order, capacity, uses, dropped, latest, key, value);
        dropped := TrimmedOff(Without(dropped, key), Without(order, key) + [key], capacity);
      }
      values := values[key := value];
      order := Without(order, key) + [key];
      uses, latest := uses + [key], latest[key := value];
      Evict();
    }

    /** The eviction loop of `put`. */
    method Evict()
      requires |order| <= capacity + 1
      modifies `values, `order
      ensures values == old(values) - if |old(order)| > capacity then {old(order)[0]} else {}
      ensures order == Trimmed(old(order), capacity)
    {
      while |order| > capacity
        invariant |order| > capacity ==> order == old(order) && values == old(values)
        invariant |order| <= capacity ==> order == Trimmed(old(order), capacity)
        invariant |order| <= capacity ==> values == old(values) - if |old(order)| > capacity then {old(order)[0]} else {}
      {
        values := values - {order[0]};
        order := order[1..];
      }
    }
  }

  /** Look a key up; load and put it if it is missing. */
  method Access<V>(cache: ExpertBundleCache<V>, key: Key, load: Key -> V) returns (hit: bool, value: V)
    requires cache.Valid() && cache.capacity > 0
    modifies cache
    ensures cache.Valid() && cache.uses == old(cache.uses) + [key]
    ensures hit <==> key in Kept(old(cache.uses), cache.capacity)
    ensures hit ==> cache.latest == old(cache.latest)
    ensures !hit ==> value == load(key) && cache.latest == old(cache.latest)[key := value]
    ensures key in cache.latest && cache.latest[key] == value
  {
    BoundedIsKept(cache.uses, cache.dropped, cache.order, cache.capacity);
    var found := cache.Get(key);
    if found.Some? {
      hit, value := true, found.value;
    } else {
      hit, value := false, load(key);
      cache.Put(key, value);
    }
  }

  /** The key used at `i` is among the last `capacity` distinct keys used before. */
  predicate KeptAt(trace: seq<Key>, capacity: nat, i: nat)
    requires i < |trace|
  {
    trace[i] in Kept(trace[..i], capacity)
  }

  predicate HitsAre(hits: seq<bool>, trace: seq<Key>, capacity: nat) {
    && |hits| <= |trace|
    && forall i :: 0 <= i < |hits| ==> (hits[i] <==> KeptAt(trace, capacity, i))
  }

  lemma HitsMore(hits: seq<bool>, trace: seq<Key>, capacity: nat, hit: bool)
    requires |hits| < |trace| && HitsAre(hits, trace, capacity)
    requires hit <==> KeptAt(trace, capacity, |hits|)
    ensures HitsAre(hits + [hit], trace, capacity)
  {
    forall i | 0 <= i < |hits| + 1 ensures (hits + [hit])[i] <==> KeptAt(trace, capacity, i) {
      assert (hits + [hit])[i] == if i < |hits| then hits[i] else hit;
    }
  }

  /** A whole trace of accesses hits exactly where the key is among the last `capacity` distinct ones. */
  method AccessAll<V>(cache: ExpertBundleCache<V>, trace: seq<Key>, load: Key -> V) returns (hits: seq<bool>)
    requires cache.Valid() && cache.uses == [] && cache.capacity > 0
    modifies cache
    ensures cache.Valid() && cache.uses == trace && |hits| == |trace| && HitsAre(hits, trace, cache.capacity)
  {
    hits := [];
    ghost var so := [];
    while |hits| < |trace|
      invariant |hits| <= |trace| && so == trace[..|hits|]
      invariant cache.Valid() && cache.uses == so
      invariant HitsAre(hits, trace, cache.capacity)
    {
      var hit, value := Access(cache, trace[|hits|], load);
      HitsMore(hits, trace, cache.capacity, hit);
      assert trace[..|hits|] + [trace[|hits|]] == trace[..|hits| + 1];
      so := so + [trace[|hits|]];
      hits := hits + [hit];
    }
    assert trace[..|trace|] == trace;
  }

  /** Under get-then-put-on-miss every hit stays a hit in a larger cache. */
  lemma HitsStay(trace: seq<Key>, small: nat, large: nat, i: nat)
    requires small <= large && i < |trace| && KeptAt(trace, small, i)
    ensures KeptAt(trace, large, i)
  {
    KeptGrows(trace[..i], small, large, trace[i]);
  }

  /** The same trace on a smaller and on a larger cache: every hit of the smaller is a hit of the larger. */
  method AccessBoth<V>(small: ExpertBundleCache<V>, large: ExpertBundleCache<V>, trace: seq<Key>, load: Key -> V)
    returns (smallHits: seq<bool>, largeHits: seq<bool>)
    requires small.Valid() && large.Valid() && small != large && small.uses == [] == large.uses
    requires 0 < small.capacity <= large.capacity
    modifies small, large
    ensures |smallHits| == |largeHits| == |trace|
    ensures forall i :: 0 <= i < |trace| && smallHits[i] ==> largeHits[i]
  {
    smallHits := AccessAll(small, trace, load);
    largeHits := AccessAll(large, trace, load);
    forall i | 0 <= i < |trace| && smallHits[i] ensures largeHits[i] {
      HitsStay(trace, small.capacity, large.capacity, i);
    }
  }
}
