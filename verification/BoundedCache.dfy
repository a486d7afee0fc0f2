/** createCache: a key-value cache of limited size that forgets the oldest key. */
module BoundedCache {
  type Key = string

  /** `keys` and the properties of `cache`. */
  datatype State<V> = State(keys: seq<Key>, entries: map<Key, V>)

  /** Stores an entry; a full list of keys first drops the oldest one with its entry. */
  function Put<V>(length: nat, c: State<V>, key: Key, value: V): State<V> {
    var keys := c.keys + [key];
    if |keys| > length then State(keys[1..], (c.entries - {keys[0]})[key := value])
    else State(keys, c.entries[key := value])
  }

  class Cache<V> {
    /** `Expr.cacheLength`, which the user may change between two stores. */
    var cacheLength: nat
    var keys: seq<Key>
    var entries: map<Key, V>

    constructor (cacheLength: nat)
      ensures this.cacheLength == cacheLength && State(keys, entries) == State([], map[])
    {
      this.cacheLength := cacheLength;
      keys, entries := [], map[];
    }

    method Store(key: Key, value: V) returns (stored: V)
      modifies this`keys, this`entries
      ensures State(keys, entries) == Put(cacheLength, old(State(keys, entries)), key, value) && stored == value
    {
      keys := keys + [key];
      if |keys| > cacheLength {
        entries := entries - {keys[0]};
        keys := keys[1..];
      }
      entries := entries[key := value];
      stored := entries[key];
    }

    /** How `tokenize` and `compile` use a cache: what is there is returned, and only a miss is stored. */
    method Recall(key: Key, value: V) returns (r: V)
      modifies this`keys, this`entries
      ensures r == if key in old(entries) then old(entries[key]) else value
      ensures State(keys, entries) == if key in old(entries) then old(State(keys, entries))
                                      else Put(cacheLength, old(State(keys, entries)), key, value)
    {
      if key in entries {
        r := entries[key];
      } else {
        r := Store(key, value);
      }
    }
  }

  // Sequences of stores

  /** A store, with the limit that was set then. */
  datatype Stored<V> = Stored(limit: nat, key: Key, value: V)

  function After<V>(log: seq<Stored<V>>): State<V> {
    if log == [] then State([], map[])
    else var last := log[|log| - 1]; Put(last.limit, After(log[..|log| - 1]), last.key, last.value)
  }

  /** Every key was stored only when it was not there. */
  predicate Misses<V>(log: seq<Stored<V>>) {
    log == [] || (Misses(log[..|log| - 1]) && log[|log| - 1].key !in After(log[..|log| - 1]).entries)
  }

  function KeysOf<V>(log: seq<Stored<V>>): seq<Key> {
    seq(|log|, i requires 0 <= i < |log| => log[i].key)
  }

  predicate Distinct(keys: seq<Key>) {
    forall i, j | 0 <= i < j < |keys| :: keys[i] != keys[j]
  }

  /** The cache holds exactly the entries of `latest`, with their keys in that order. */
  predicate Holds<V(==)>(c: State<V>, latest: seq<Stored<V>>) {
    && c.keys == KeysOf(latest) && Distinct(c.keys)
    && (forall k | k in c.entries :: k in c.keys)
    && (forall i | 0 <= i < |latest| :: latest[i].key in c.entries && c.entries[latest[i].key] == latest[i].value)
  }

  lemma DropHolds<V>(c: State<V>, latest: seq<Stored<V>>)
    requires Holds(c, latest) && |latest| > 0
    ensures Holds(State(c.keys[1..], c.entries - {c.keys[0]}), latest[1..])
  {
    var rest := latest[1..];
    assert c.keys[1..] == KeysOf(rest);
    forall i | 0 <= i < |rest|
      ensures rest[i].key in c.entries && rest[i].key != c.keys[0] && c.entries[rest[i].key] == rest[i].value
    {
      assert rest[i] == latest[i + 1] && c.keys[i + 1] == rest[i].key;
    }
  }

  lemma AppendHolds<V>(c: State<V>, latest: seq<Stored<V>>, e: Stored<V>)
    requires Holds(c, latest) && e.key !in c.entries
    ensures Holds(State(c.keys + [e.key], c.entries[e.key := e.value]), latest + [e])
  {
    var all := latest + [e];
    assert c.keys + [e.key] == KeysOf(all);
    forall i | 0 <= i < |latest| ensures c.keys[i] != e.key {
      assert latest[i].key in c.entries;
    }
  }

  lemma {:induction false} PutHolds<V>(c: State<V>, latest: seq<Stored<V>>, e: Stored<V>)
    requires Holds(c, latest) && e.key !in c.entries && e.limit >= 1
    ensures Holds(Put(e.limit, c, e.key, e.value), Later(latest, e))
  {
    if |latest| < e.limit {
      AppendHolds(c, latest, e);
    } else {
      DropHolds(c, latest);
      AppendHolds(State(c.keys[1..], c.entries - {c.keys[0]}), latest[1..], e);
      assert (c.keys + [e.key])[1..] == c.keys[1..] + [e.key];
    }
  }

  predicate Positive<V>(log: seq<Stored<V>>) {
    log == [] || (Positive(log[..|log| - 1]) && log[|log| - 1].limit >= 1)
  }

  /** The stores that are still there after one more. */
  function Later<V>(latest: seq<Stored<V>>, e: Stored<V>): seq<Stored<V>>
    requires e.limit >= 1
  {
    if |latest| < e.limit then latest + [e] else latest[1..] + [e]
  }

  /** Whatever positive limits were set, the cache holds exactly the entries of the last stores: the oldest ones go
      first, and what it holds for a key is the value stored last. */
  lemma {:induction false} HoldsRecent<V>(log: seq<Stored<V>>) returns (old': seq<Stored<V>>, latest: seq<Stored<V>>)
    requires Misses(log) && Positive(log)
    ensures log == old' + latest && Holds(After(log), latest)
  {
    if log == [] {
      old', latest := [], [];
      EmptyHolds<V>();
    } else {
      var before, e := log[..|log| - 1], log[|log| - 1];
      var older, later := HoldsRecent(before);
      old', latest := RecentMore(before, e, older, later, After(before));
      LastStore(log);
    }
  }

  lemma LastStore<V>(log: seq<Stored<V>>)
    requires log != []
    ensures log == log[..|log| - 1] + [log[|log| - 1]]
  {
  }

  lemma EmptyHolds<V>()
    ensures Holds<V>(State([], map[]), [])
  {
    assert KeysOf<V>([]) == [];
  }

  lemma RecentMore<V>(before: seq<Stored<V>>, e: Stored<V>, older: seq<Stored<V>>, later: seq<Stored<V>>, c: State<V>)
    returns (old': seq<Stored<V>>, latest: seq<Stored<V>>)
    requires before == older + later && Holds(c, later) && e.key !in c.entries && e.limit >= 1
    ensures before + [e] == old' + latest && Holds(Put(e.limit, c, e.key, e.value), latest)
  {
    PutHolds(c, later, e);
    latest := Later(later, e);
    old' := Earlier(older, later, e);
  }

  lemma Earlier<V>(older: seq<Stored<V>>, later: seq<Stored<V>>, e: Stored<V>) returns (old': seq<Stored<V>>)
    requires e.limit >= 1
    ensures older + later + [e] == old' + Later(later, e)
  {
    old' := if |later| < e.limit then older else older + [later[0]];
  }

  lemma {:induction false} DistinctCount(keys: seq<Key>)
    requires Distinct(keys)
    ensures |set k | k in keys| == |keys|
  {
    if keys != [] {
      var init, last := keys[..|keys| - 1], keys[|keys| - 1];
      DistinctCount(init);
      assert (set k | k in keys) == (set k | k in init) + {last};
    }
  }

  lemma HoldsCount<V>(c: State<V>, latest: seq<Stored<V>>)
    requires Holds(c, latest)
    ensures |c.entries| == |c.keys| == |latest|
  {
    DistinctCount(c.keys);
    forall k | k in c.keys ensures k in c.entries {
      var i :| 0 <= i < |c.keys| && c.keys[i] == k;
      assert latest[i].key == k;
    }
    assert c.entries.Keys == set k | k in c.keys;
  }

  // The size

  /** After every store there were at most as many entries as its limit allows. */
  predicate Bounded<V>(log: seq<Stored<V>>) {
    log == [] || (Bounded(log[..|log| - 1]) && |After(log).entries| <= log[|log| - 1].limit)
  }

  /** Every limit is at least one, and not below the number of entries that there were before its store. */
  predicate LimitsSuffice<V>(log: seq<Stored<V>>) {
    log == [] ||
    var before, e := log[..|log| - 1], log[|log| - 1];
    LimitsSuffice(before) && e.limit >= 1 && |After(before).entries| <= e.limit
  }

  lemma {:induction false} SufficientArePositive<V>(log: seq<Stored<V>>)
    requires LimitsSuffice(log)
    ensures Positive(log)
  {
    if log != [] {
      SufficientArePositive(log[..|log| - 1]);
    }
  }

  /** A store with a positive limit brings the entries within it iff they were within it before. */
  lemma PutBounded<V>(c: State<V>, latest: seq<Stored<V>>, e: Stored<V>)
    requires Holds(c, latest) && e.key !in c.entries && e.limit >= 1
    ensures |Put(e.limit, c, e.key, e.value).entries| <= e.limit <==> |c.entries| <= e.limit
  {
    HoldsCount(c, latest);
    PutHolds(c, latest, e);
    HoldsCount(Put(e.limit, c, e.key, e.value), Later(latest, e));
  }

  /** The number of entries keeps within the limits, whenever they change, exactly if each of them suffices: a store
      removes one entry at most, and none when its limit is zero. */
  lemma {:induction false} BoundedExactly<V>(log: seq<Stored<V>>)
    requires Misses(log)
    ensures Bounded(log) <==> LimitsSuffice(log)
  {
    if log != [] {
      var before, e := log[..|log| - 1], log[|log| - 1];
      BoundedExactly(before);
      if LimitsSuffice(before) {
        if e.limit >= 1 {
          SufficientArePositive(before);
          var _, latest := HoldsRecent(before);
          PutBounded(After(before), latest, e);
        } else {
          assert e.key in After(log).entries;
        }
      }
    }
  }

  lemma AfterMore<V>(before: seq<Stored<V>>, e: Stored<V>)
    ensures After(before + [e]) == Put(e.limit, After(before), e.key, e.value)
    ensures Misses(before + [e]) <==> Misses(before) && e.key !in After(before).entries
    ensures Positive(before + [e]) <==> Positive(before) && e.limit >= 1
  {
    assert (before + [e])[..|before|] == before;
  }

  /** A limit that is lowered: after three stores under the limits 2, 2 and 1 there are two entries. */
  lemma LoweredLimit()
    ensures var log := [Stored(2, "a", 0), Stored(2, "b", 0), Stored(1, "c", 0)];
            Misses(log) && Positive(log) && |After(log).entries| == 2
  {
    var a, b, c := Stored(2, "a", 0), Stored(2, "b", 0), Stored(1, "c", 0);
    AfterMore([], a);
    AfterMore([] + [a], b);
    AfterMore([] + [a] + [b], c);
    assert After([] + [a]) == State(["a"], map["a" := 0]);
    assert After([] + [a] + [b]) == State(["a", "b"], map["a" := 0, "b" := 0]);
    assert After([] + [a] + [b] + [c]).entries == map["b" := 0, "c" := 0];
    assert [] + [a] + [b] + [c] == [a, b, c];
  }

  // One limit for all stores

  predicate Constant<V>(length: nat, log: seq<Stored<V>>) {
    log == [] || (Constant(length, log[..|log| - 1]) && log[|log| - 1].limit == length)
  }

  lemma {:induction false} ConstantKeys<V>(length: nat, log: seq<Stored<V>>)
    requires Constant(length, log)
    ensures |After(log).keys| == if |log| < length then |log| else length
    ensures length >= 1 ==> Positive(log)
  {
    if log != [] {
      ConstantKeys(length, log[..|log| - 1]);
    }
  }

  /** With one positive limit the cache holds that many of the last stores, or all of them. */
  lemma HoldsLatest<V>(length: nat, log: seq<Stored<V>>) returns (old': seq<Stored<V>>, latest: seq<Stored<V>>)
    requires length >= 1 && Constant(length, log) && Misses(log)
    ensures log == old' + latest && |latest| == (if |log| < length then |log| else length)
    ensures Holds(After(log), latest)
  {
    ConstantKeys(length, log);
    old', latest := HoldsRecent(log);
  }

  /** A cache of size zero forgets keys before it stores their entries, so that it keeps every entry. */
  lemma {:induction false} ZeroKeepsAll<V>(log: seq<Stored<V>>)
    requires Constant(0, log) && Misses(log)
    ensures After(log).keys == [] && |After(log).entries| == |log|
  {
    if log != [] {
      ZeroKeepsAll(log[..|log| - 1]);
      var c, last := After(log[..|log| - 1]), log[|log| - 1];
      assert c.keys + [last.key] == [last.key];
      assert c.entries - {last.key} == c.entries;
      assert c.entries[last.key := last.value].Keys == c.entries.Keys + {last.key};
    }
  }

  /** One limit for all stores is kept by all logs exactly when it is at least one. */
  lemma {:induction false} SizeBounded(length: nat)
    ensures (forall log: seq<Stored<int>> | Constant(length, log) && Misses(log) :: |After(log).entries| <= length) <==>
            length >= 1
  {
    if length >= 1 {
      forall log: seq<Stored<int>> | Constant(length, log) && Misses(log) ensures |After(log).entries| <= length {
        var _, latest := HoldsLatest(length, log);
        HoldsCount(After(log), latest);
      }
    } else {
      var log: seq<Stored<int>> := [Stored(0, "", 0)];
      assert log[..0] == [] && Misses(log);
      ZeroKeepsAll(log);
    }
  }
}
