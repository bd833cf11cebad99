/**
 The sharded byte cache: two budgets, an eviction queue that may hold stale and
 repeated keys, and in-place compaction. Values are kept in memory.
 */
module FileCache {
  import opened Options

  type Key = seq<bv8>
  type Bytes = seq<bv8>

  const SHARD_COUNT: nat := 16
  const ENTRY_METADATA: nat := 256
  const LEAST_METADATA: nat := 4096

  /** The shard's entries, and the queue of keys its evictions follow. */
  datatype Shard = Shard(entries: map<Key, Bytes>, order: seq<Key>)

  // ----- Hashing

  /** One round of FNV-1a, 32 bits. */
  function HashByte(h: bv32, b: bv8): bv32 {
    (h ^ (b as bv32)) * 16777619
  }

  function Hash(key: Key): bv32 {
    if key == [] then 2166136261 else HashByte(Hash(key[..|key| - 1]), key[|key| - 1])
  }

  /** The shard a hash selects. */
  function Masked(h: bv32): (i: nat)
    ensures i < SHARD_COUNT
  {
    assert h & 15 <= 15;
    (h & 15) as nat
  }

  function Home(key: Key): (i: nat)
    ensures i < SHARD_COUNT
  {
    Masked(Hash(key))
  }

  lemma HomeIsMasked(key: Key)
    ensures Home(key) == Masked(Hash(key))
  {
  }

  method HashKey(key: Key) returns (h: bv32)
    ensures h == Hash(key)
  {
    hide HashByte;
    h := 2166136261;
    for i := 0 to |key|
      invariant h == Hash(key[..i])
    {
      assert key[..i + 1][..i] == key[..i];
      h := HashByte(h, key[i]);
    }
    assert key[..|key|] == key;
  }

  // ----- Accounting

  datatype Meter = Payload | Metadata

  function Cost(meter: Meter, key: Key, value: Bytes): nat {
    match meter
    case Payload => |value|
    case Metadata => |key| + ENTRY_METADATA
  }

  /** What all entries cost together. */
  ghost function Sum(m: map<Key, Bytes>, meter: Meter): nat
    decreases |m|
  {
    if m == map[] then 0
    else
      var k :| k in m;
      assert (m - {k}).Keys == m.Keys - {k};
      Cost(meter, k, m[k]) + Sum(m - {k}, meter)
  }

  lemma {:induction false} SumWithout(m: map<Key, Bytes>, k: Key, meter: Meter)
    requires k in m
    ensures Sum(m, meter) == Cost(meter, k, m[k]) + Sum(m - {k}, meter)
    decreases |m|
  {
    var j :| j in m && Sum(m, meter) == Cost(meter, j, m[j]) + Sum(m - {j}, meter);
    if j != k {
      assert (m - {j}).Keys == m.Keys - {j} && (m - {k}).Keys == m.Keys - {k};
      SumWithout(m - {j}, k, meter);
      SumWithout(m - {k}, j, meter);
      assert m - {j} - {k} == m - {k} - {j};
    }
  }

  lemma SumWith(m: map<Key, Bytes>, k: Key, v: Bytes, meter: Meter)
    ensures Sum(m[k := v], meter) == Cost(meter, k, v) + Sum(m - {k}, meter)
  {
    SumWithout(m[k := v], k, meter);
    assert m[k := v] - {k} == m - {k};
  }

  lemma SumOfOne(m: map<Key, Bytes>, k: Key, meter: Meter)
    requires k in m && forall j :: j in m ==> j == k
    ensures Sum(m, meter) == Cost(meter, k, m[k])
  {
    SumWithout(m, k, meter);
    assert m - {k} == map[];
  }

  // ----- The eviction queue

  /** The queue's live keys, in order. */
  function Live(order: seq<Key>, entries: map<Key, Bytes>): seq<Key> {
    if order == [] then []
    else var last := order[|order| - 1];
         Live(order[..|order| - 1], entries) + (if last in entries then [last] else [])
  }

  lemma {:induction false} LiveKeepsOrder(order: seq<Key>, entries: map<Key, Bytes>)
    ensures |Live(order, entries)| <= |order|
    ensures forall k :: k in Live(order, entries) <==> k in order && k in entries
    ensures multiset(Live(order, entries)) <= multiset(order)
    ensures forall k :: k in entries ==> multiset(Live(order, entries))[k] == multiset(order)[k]
  {
    if order != [] {
      LiveKeepsOrder(order[..|order| - 1], entries);
      assert order == order[..|order| - 1] + [order[|order| - 1]];
    }
  }

  /** The position of the first key that may be evicted. */
  function Victim(order: seq<Key>, entries: map<Key, Bytes>, protect: Key): (i: nat)
    ensures i <= |order|
    ensures i < |order| ==> order[i] in entries && order[i] != protect
    ensures forall j :: 0 <= j < i ==> order[j] !in entries || order[j] == protect
  {
    if order == [] || (order[0] in entries && order[0] != protect) then 0
    else 1 + Victim(order[1..], entries, protect)
  }

  /** The key an eviction takes from the queue, if it takes one. */
  function Next(order: seq<Key>, entries: map<Key, Bytes>, protect: Key): Option<Key> {
    var v := Victim(order, entries, protect);
    if v < |order| then Some(order[v]) else None
  }

  lemma VictimIsFirst(order: seq<Key>, entries: map<Key, Bytes>, protect: Key, i: nat)
    requires i < |order| && order[i] in entries && order[i] != protect
    ensures Victim(order, entries, protect) <= i
  {
  }

  lemma NextStarts(order: seq<Key>, entries: map<Key, Bytes>, protect: Key)
    ensures order == [] ==> Next(order, entries, protect) == None
    ensures order != [] && order[0] in entries && order[0] != protect ==> Next(order, entries, protect) == Some(order[0])
  {
  }

  lemma PopAdvances(order: seq<Key>, entries: map<Key, Bytes>, protect: Key)
    requires order != [] && (order[0] !in entries || order[0] == protect)
    ensures Victim(order[1..], entries, protect) < Victim(order, entries, protect)
    ensures Next(order[1..], entries, protect) == Next(order, entries, protect)
  {
  }

  /** Compaction in place: what is kept is written over what is dropped, in one pass. */
  method Filter(keys: seq<Key>, entries: map<Key, Bytes>) returns (order: seq<Key>)
    ensures order == Live(keys, entries)
  {
    order := keys;
    var n := 0;
    for j := 0 to |keys|
      invariant n <= j && |order| == |keys| && order[j..] == keys[j..]
      invariant order[..n] == Live(keys[..j], entries)
    {
      var k := order[j];
      assert keys[..j + 1][..j] == keys[..j] && k == keys[j..][0];
      if k in entries {
        order := order[n := k];
        n := n + 1;
      }
    }
    assert keys[..|keys|] == keys;
    order := order[..n];
  }

  /** A queue is dropped with its last entry, and rid of its stale keys once they are too many. */
  function Compacted(s: Shard): Shard {
    if s.entries == map[] then Shard(map[], [])
    else if |s.order| <= 2 * |s.entries| + 32 then s
    else Shard(s.entries, Live(s.order, s.entries))
  }

  /** What deleting a key leaves: its shard loses the entry, and its queue is compacted. */
  function Without(shards: seq<Shard>, key: Key): seq<Shard>
    requires |shards| == SHARD_COUNT
  {
    var s := shards[Home(key)];
    shards[Home(key) := Compacted(Shard(s.entries - {key}, s.order))]
  }

  /** Rotating the protected key to the back brings the victim one place nearer. */
  lemma RotationAdvances(order: seq<Key>, entries: map<Key, Bytes>, protect: Key)
    requires order != [] && order[0] == protect && |entries| > 1
    requires forall k :: k in entries ==> k in order
    ensures Victim(order[1..] + [protect], entries, protect) < Victim(order, entries, protect)
    ensures Next(order[1..] + [protect], entries, protect) == Next(order, entries, protect)
  {
    hide Victim;
    var x := OtherKey(entries, protect);
    var i :| 0 <= i < |order| && order[i] == x;
    VictimIsFirst(order, entries, protect, i);
    var v := Victim(order, entries, protect);
    var rotated := order[1..] + [protect];
    assert rotated[v - 1] == order[v];
    VictimIsFirst(rotated, entries, protect, v - 1);
    var w := Victim(rotated, entries, protect);
    assert rotated[w] == order[w + 1];
  }

  lemma OtherKey(entries: map<Key, Bytes>, protect: Key) returns (x: Key)
    requires |entries| > 1
    ensures x in entries && x != protect
  {
    if forall k :: k in entries ==> k == protect {
      SubsetSize(entries.Keys, {protect});
    }
    x :| x in entries && x != protect;
  }

  lemma {:induction false} SubsetSize(a: set<Key>, b: set<Key>)
    requires a <= b
    ensures |a| <= |b|
  {
    if a != {} {
      var x :| x in a;
      SubsetSize(a - {x}, b - {x});
    }
  }

  /** A shard with at most one entry, the protected one, holds no other. */
  lemma OnlyProtected(entries: map<Key, Bytes>, protect: Key)
    requires protect in entries && |entries| <= 1
    ensures forall k :: k in entries ==> k == protect
    ensures forall order :: Next(order, entries, protect) == None
  {
    forall k | k in entries ensures k == protect {
      if k != protect { SubsetSize({k, protect}, entries.Keys); }
    }
  }

  // ----- The cache

  ghost predicate Within(a: map<Key, Bytes>, b: map<Key, Bytes>) {
    forall k :: k in a ==> k in b && a[k] == b[k]
  }

  datatype Limits = Limits(bytes: int, metadata: int)

  ghost predicate Fits(limits: Limits, m: map<Key, Bytes>) {
    Sum(m, Payload) <= limits.bytes && Sum(m, Metadata) <= limits.metadata
  }

  /** A value that can be stored at all. */
  predicate Storable(limits: Limits, key: Key, value: Bytes) {
    |value| <= limits.bytes && |key| <= limits.metadata - ENTRY_METADATA
  }

  /** Something was evicted, and only as long as the budgets asked for it. */
  ghost predicate Trimmed(limits: Limits, before: map<Key, Bytes>, after: map<Key, Bytes>) {
    Within(after, before)
    && (after == before || exists k :: k in before && k !in after && !Fits(limits, after[k := before[k]]))
  }

  /** What storing a value does to the contents. */
  ghost predicate SetStep(limits: Limits, before: map<Key, Bytes>, key: Key, value: Bytes, after: map<Key, Bytes>) {
    if limits.bytes <= 0 then after == before
    else if !Storable(limits, key, value) then after == before - {key}
    else key in after && after[key] == value && Fits(limits, after) && Trimmed(limits, before[key := value], after)
  }

  /** A shard holds exactly the contents whose keys hash to it, every one of them queued. */
  ghost predicate Placed(s: Shard, i: nat, contents: map<Key, Bytes>) {
    && (forall k :: k in s.entries ==> Home(k) == i && k in contents && s.entries[k] == contents[k] && k in s.order)
    && (forall k :: k in s.order ==> Home(k) == i)
    && (forall k :: k in contents && Home(k) == i ==> k in s.entries)
  }

  ghost predicate AllPlaced(shards: seq<Shard>, contents: map<Key, Bytes>) {
    |shards| == SHARD_COUNT && forall i :: 0 <= i < SHARD_COUNT ==> Placed(shards[i], i, contents)
  }

  lemma PlacedShard(shards: seq<Shard>, contents: map<Key, Bytes>, i: nat, s: Shard)
    requires AllPlaced(shards, contents) && i < SHARD_COUNT && Placed(s, i, contents)
    ensures AllPlaced(shards[i := s], contents)
  {
    hide Placed;
  }

  lemma PlacedMeans(s: Shard, i: nat, contents: map<Key, Bytes>)
    requires Placed(s, i, contents)
    ensures forall k :: k in s.entries ==> k in s.order && k in contents && Home(k) == i
    ensures forall k :: k in s.order ==> Home(k) == i
    ensures forall k :: k in contents && Home(k) == i ==> k in s.entries
  {
    hide Home;
  }

  lemma RotatedIsPlaced(s: Shard, i: nat, contents: map<Key, Bytes>)
    requires Placed(s, i, contents) && s.order != []
    ensures Placed(Shard(s.entries, s.order[1..] + [s.order[0]]), i, contents)
  {
    hide Home;
    assert s.order == [s.order[0]] + s.order[1..];
  }

  lemma PoppedIsPlaced(s: Shard, i: nat, contents: map<Key, Bytes>)
    requires Placed(s, i, contents) && s.order != [] && s.order[0] !in s.entries
    ensures Placed(Shard(s.entries, s.order[1..]), i, contents)
  {
    hide Home;
    assert s.order == [s.order[0]] + s.order[1..];
  }

  /** What must still be queued once a key is gone. */
  ghost predicate Requeued(s: Shard, key: Key, order: seq<Key>) {
    order == s.order || [key] + order == s.order
  }

  lemma PlacedWithout(shards: seq<Shard>, contents: map<Key, Bytes>, key: Key, order: seq<Key>)
    requires AllPlaced(shards, contents) && Requeued(shards[Home(key)], key, order)
    ensures var s := shards[Home(key)];
            AllPlaced(shards[Home(key) := Shard(s.entries - {key}, order)], contents - {key})
  {
    hide Home;
  }

  lemma CompactedIsPlaced(s: Shard, i: nat, contents: map<Key, Bytes>)
    requires Placed(s, i, contents)
    ensures Placed(Compacted(s), i, contents) && Compacted(s).entries == s.entries
  {
    hide Home, Live;
    LiveKeepsOrder(s.order, s.entries);
  }

  lemma PlacedWith(shards: seq<Shard>, contents: map<Key, Bytes>, key: Key, value: Bytes, order: seq<Key>)
    requires AllPlaced(shards, contents)
    requires var s := shards[Home(key)]; order == if key in s.entries then s.order else s.order + [key]
    ensures var s := shards[Home(key)];
            AllPlaced(shards[Home(key) := Shard(s.entries[key := value], order)], contents[key := value])
  {
    hide Home;
  }

  lemma RemovalShrinks(m: map<Key, Bytes>, k: Key)
    requires k in m
    ensures |m - {k}| < |m|
  {
    assert (m - {k}).Keys == m.Keys - {k};
  }

  lemma RemovalFits(limits: Limits, m: map<Key, Bytes>, k: Key)
    requires Fits(limits, m)
    ensures Fits(limits, m - {k})
  {
    if k in m {
      SumWithout(m, k, Payload);
      SumWithout(m, k, Metadata);
    } else {
      assert m - {k} == m;
    }
  }

  lemma ProtectedFits(limits: Limits, m: map<Key, Bytes>, protect: Key)
    requires protect in m && Storable(limits, protect, m[protect]) && forall k :: k in m ==> k == protect
    ensures Fits(limits, m)
  {
    SumOfOne(m, protect, Payload);
    SumOfOne(m, protect, Metadata);
  }

  /** Evicting once more while the budgets are exceeded evicts no more than needed. */
  lemma TrimmedFurther(limits: Limits, before: map<Key, Bytes>, held: map<Key, Bytes>, k: Key)
    requires Trimmed(limits, before, held) && k in held && !Fits(limits, held)
    ensures Trimmed(limits, before, held - {k})
  {
    assert (held - {k})[k := before[k]] == held;
  }

  class FileByteCache {
    const maxBytes: int
    const maxMetadata: int
    const shards: array<Shard>
    var used: int
    var metadata: int
    ghost var contents: map<Key, Bytes>

    ghost function Budget(): Limits { Limits(maxBytes, maxMetadata) }

    ghost predicate Counted()
      reads this
    {
      used == Sum(contents, Payload) && metadata == Sum(contents, Metadata)
    }

    ghost predicate Queued()
      reads this, shards
    {
      AllPlaced(shards[..], contents) && Counted()
    }

    ghost predicate Sound()
      reads this, shards
    {
      if maxBytes <= 0 then shards.Length == 0 && contents == map[] && used == metadata == 0
      else maxMetadata == (if maxBytes > LEAST_METADATA then maxBytes else LEAST_METADATA) && Queued()
    }

    ghost predicate Valid()
      reads this, shards
    {
      Sound() && (maxBytes > 0 ==> Fits(Budget(), contents))
    }

    predicate OverBudget()
      reads this
    {
      used > maxBytes || metadata > maxMetadata
    }

    constructor (bytes: int)
      ensures Valid() && fresh(shards) && contents == map[]
      ensures maxBytes == if bytes <= 0 then 0 else bytes
    {
      if bytes <= 0 {
        maxBytes, maxMetadata := 0, 0;
        shards := new Shard[0];
      } else {
        maxBytes := bytes;
        maxMetadata := if bytes > LEAST_METADATA then bytes else LEAST_METADATA;
        shards := new Shard[SHARD_COUNT](_ => Shard(map[], []));
      }
      used, metadata, contents := 0, 0, map[];
    }

    method Get(key: Key) returns (value: Option<Bytes>)
      requires Valid()
      ensures value == if key in contents then Some(contents[key]) else None
    {
      if maxBytes <= 0 { return None; }
      var h := HashKey(key);
      var entries := shards[Masked(h)].entries;
      assert Placed(shards[Home(key)], Home(key), contents);
      value := if key in entries then Some(entries[key]) else None;
    }

    /** Compaction in place: the queue of a shard without entries is dropped, a queue with too
        many stale keys keeps exactly its live ones, in order. */
    method CompactOrder(i: nat)
      requires Queued() && i < SHARD_COUNT
      modifies shards
      ensures Queued()
      ensures shards[..] == old(shards[..])[i := Compacted(old(shards[i]))]
    {
      var s := shards[i];
      CompactedIsPlaced(s, i, contents);
      PlacedShard(shards[..], contents, i, Compacted(s));
      if |s.entries| == 0 {
        shards[i] := Shard(map[], []);
        return;
      }
      if |s.order| <= 2 * |s.entries| + 32 { return; }
      var order := Filter(s.order, s.entries);
      shards[i] := Shard(s.entries, order);
    }

    /** Removing one entry from its shard, with the counters; its queue becomes `order`. */
    method Remove(i: nat, key: Key, order: seq<Key>)
      requires Queued() && key in contents && i == Home(key) && Requeued(shards[i], key, order)
      modifies this`used, this`metadata, this`contents, shards
      ensures Queued() && contents == old(contents) - {key}
      ensures var s := old(shards[i]);
              shards[..] == old(shards[..])[i := Shard(s.entries - {key}, order)]
    {
      hide Home, Sum;
      var s := shards[i];
      assert Placed(s, i, contents);
      SumWithout(contents, key, Payload);
      SumWithout(contents, key, Metadata);
      PlacedWithout(shards[..], contents, key, order);
      used := used - |s.entries[key]|;
      metadata := metadata - (|key| + ENTRY_METADATA);
      shards[i] := Shard(s.entries - {key}, order);
      contents := contents - {key};
    }

    method Delete(key: Key)
      requires Sound()
      modifies this`used, this`metadata, this`contents, shards
      ensures Sound() && (old(Valid()) ==> Valid()) && contents == old(contents) - {key}
      ensures maxBytes > 0 ==> shards[..] == if key in old(contents) then Without(old(shards[..]), key) else old(shards[..])
    {
      hide Home, Sum, Masked, Compacted;
      if maxBytes <= 0 { return; }
      if Fits(Budget(), contents) { RemovalFits(Budget(), contents, key); }
      HomeIsMasked(key);
      var h := HashKey(key);
      var i := Masked(h);
      assert Placed(shards[i], i, contents);
      if key in shards[i].entries {
        Remove(i, key, shards[i].order);
        CompactOrder(i);
      }
    }

    /** Evicts the first live key of the shard's queue other than the protected one. It finds one
        unless the shard holds no other entry, so what would follow the loop, a search through
        the entries themselves, has nothing left to find. */
    method EvictOne(i: nat, protect: Key) returns (evicted: Option<Key>)
      requires Queued() && i < SHARD_COUNT && protect in contents
      modifies this`used, this`metadata, this`contents, shards
      ensures Queued()
      ensures evicted == Next(old(shards[i].order), old(shards[i].entries), protect)
      ensures match evicted
              case None => contents == old(contents) && forall k :: k in contents && Home(k) == i ==> k == protect
              case Some(k) => k in old(contents) && k != protect && contents == old(contents) - {k}
    {
      hide Home, Sum, Victim, Next, Placed;
      NextStarts([], shards[i].entries, protect);
      while |shards[i].order| > 0
        invariant Queued() && contents == old(contents) && shards[i].entries == old(shards[i].entries)
        invariant Next(shards[i].order, shards[i].entries, protect) == Next(old(shards[i].order), shards[i].entries, protect)
        decreases Victim(shards[i].order, shards[i].entries, protect)
      {
        var s := shards[i];
        var k, rest := s.order[0], s.order[1..];
        assert shards[..][i] == s;
        PlacedMeans(s, i, contents);
        if k == protect {
          RotatedIsPlaced(s, i, contents);
          PlacedShard(shards[..], contents, i, Shard(s.entries, rest + [k]));
          shards[i] := Shard(s.entries, rest + [k]);
          if |s.entries| <= 1 {
            OnlyProtected(s.entries, protect);
            break;
          }
          RotationAdvances(s.order, s.entries, protect);
          continue;
        }
        if k in s.entries {
          NextStarts(s.order, s.entries, protect);
          Remove(i, k, rest);
          return Some(k);
        }
        PopAdvances(s.order, s.entries, protect);
        PoppedIsPlaced(s, i, contents);
        PlacedShard(shards[..], contents, i, Shard(s.entries, rest));
        shards[i] := Shard(s.entries, rest);
      }
      assert shards[..][i] == shards[i];
      PlacedMeans(shards[i], i, contents);
      evicted := None;
    }

    /** Evicts from one shard after another until both budgets are met. */
    method TrimToMax(protect: Key)
      requires Queued() && maxBytes > 0 && protect in contents && Storable(Budget(), protect, contents[protect])
      modifies this`used, this`metadata, this`contents, shards
      ensures Queued() && Fits(Budget(), contents)
      ensures protect in contents && Trimmed(Budget(), old(contents), contents)
    {
      hide Home, Sum, Placed;
      while OverBudget()
        invariant Queued() && protect in contents && contents[protect] == old(contents[protect])
        invariant Trimmed(Budget(), old(contents), contents)
        decreases |contents|
      {
        var progress := false;
        ghost var before := contents;
        for i := 0 to SHARD_COUNT
          invariant Queued() && protect in contents && contents[protect] == old(contents[protect])
          invariant Trimmed(Budget(), old(contents), contents)
          invariant if progress then |contents| < |before|
                    else contents == before && forall k :: k in contents && Home(k) < i ==> k == protect
        {
          if !OverBudget() { return; }
          ghost var held := contents;
          var evicted := EvictOne(i, protect);
          if evicted.Some? {
            progress := true;
            TrimmedFurther(Budget(), old(contents), held, evicted.value);
            RemovalShrinks(held, evicted.value);
          }
          CompactOrder(i);
        }
        if !progress {
          ProtectedFits(Budget(), contents, protect);
          return;
        }
      }
    }

    method Set(key: Key, value: Bytes)
      requires Valid()
      modifies this`used, this`metadata, this`contents, shards
      ensures Valid() && SetStep(Budget(), old(contents), key, value, contents)
    {
      hide Home, Sum, Placed;
      if maxBytes <= 0 { return; }
      if |value| > maxBytes || |key| > maxMetadata - ENTRY_METADATA {
        Delete(key);
        return;
      }
      Store(key, value);
      if OverBudget() {
        TrimToMax(key);
      }
    }

    /** Storing the entry itself, before the budgets are looked at. */
    method Store(key: Key, value: Bytes)
      requires Queued()
      modifies this`used, this`metadata, this`contents, shards
      ensures Queued() && contents == old(contents)[key := value]
    {
      hide Home, Sum;
      var h := HashKey(key);
      var i := Masked(h);
      HomeIsMasked(key);
      var s := shards[i];
      assert Placed(s, i, contents);
      SumWith(contents, key, value, Payload);
      SumWith(contents, key, value, Metadata);
      var order := s.order;
      var delta := |value|;
      if key in s.entries {
        SumWithout(contents, key, Payload);
        SumWithout(contents, key, Metadata);
        delta := delta - |s.entries[key]|;
      } else {
        assert contents - {key} == contents;
        order := order + [key];
        metadata := metadata + (|key| + ENTRY_METADATA);
      }
      PlacedWith(shards[..], contents, key, value, order);
      shards[i] := Shard(s.entries[key := value], order);
      used := used + delta;
      contents := contents[key := value];
    }

    method Clear()
      requires Valid()
      modifies this`used, this`metadata, this`contents, shards
      ensures Valid() && contents == map[]
    {
      if maxBytes <= 0 { return; }
      for i := 0 to SHARD_COUNT
        invariant forall j :: 0 <= j < i ==> shards[j] == Shard(map[], [])
      {
        shards[i] := Shard(map[], []);
      }
      used, metadata, contents := 0, 0, map[];
    }
  }

  // ----- Runs

  datatype Call = Set(key: Key, value: Bytes) | Delete(key: Key) | Clear

  /** What each method promises about the contents. */
  ghost predicate Step(limits: Limits, before: map<Key, Bytes>, call: Call, after: map<Key, Bytes>) {
    match call
    case Set(key, value) => SetStep(limits, before, key, value, after)
    case Delete(key) => after == before - {key}
    case Clear => after == map[]
  }

  ghost predicate Run(limits: Limits, calls: seq<Call>, states: seq<map<Key, Bytes>>) {
    && |states| == |calls| + 1 && states[0] == map[]
    && forall i :: 0 <= i < |calls| ==> Step(limits, states[i], calls[i], states[i + 1])
  }

  /** The value of the latest Set of the key that no Delete of it and no Clear follows. */
  function Latest(calls: seq<Call>, key: Key): Option<Bytes> {
    if calls == [] then None
    else match calls[|calls| - 1]
         case Set(k, v) => if k == key then Some(v) else Latest(calls[..|calls| - 1], key)
         case Delete(k) => if k == key then None else Latest(calls[..|calls| - 1], key)
         case Clear => None
  }

  /** A disabled cache stays empty. */
  lemma {:induction false} DisabledIsEmpty(limits: Limits, calls: seq<Call>, states: seq<map<Key, Bytes>>)
    requires Run(limits, calls, states) && limits.bytes <= 0
    ensures states[|calls|] == map[]
  {
    var n := |calls| - 1;
    if n >= 0 {
      assert Step(limits, states[n], calls[n], states[n + 1]);
      DisabledIsEmpty(limits, calls[..n], states[..n + 1]);
    }
  }

  /** Whatever was evicted on the way, a hit returns the latest value. */
  lemma {:induction false} HitsAreLatest(limits: Limits, calls: seq<Call>, states: seq<map<Key, Bytes>>, key: Key)
    requires Run(limits, calls, states) && key in states[|calls|]
    ensures Latest(calls, key) == Some(states[|calls|][key])
  {
    var n := |calls| - 1;
    if limits.bytes <= 0 {
      DisabledIsEmpty(limits, calls, states);
    } else if n >= 0 {
      assert Step(limits, states[n], calls[n], states[n + 1]);
      if calls[n].Clear? || calls[n].key != key {
        HitsAreLatest(limits, calls[..n], states[..n + 1], key);
      }
    }
  }

  /** Fewer entries cost no more. */
  lemma {:induction false} SumWithin(a: map<Key, Bytes>, b: map<Key, Bytes>, meter: Meter)
    requires Within(a, b)
    ensures Sum(a, meter) <= Sum(b, meter)
    decreases |b|
  {
    if k :| k in b && k !in a {
      SumWithout(b, k, meter);
      RemovalShrinks(b, k);
      SumWithin(a, b - {k}, meter);
    } else {
      assert a == b;
    }
  }

  /** While the budgets are met nothing is evicted. */
  lemma NothingTrimmed(limits: Limits, before: map<Key, Bytes>, after: map<Key, Bytes>)
    requires Trimmed(limits, before, after) && Fits(limits, before)
    ensures after == before
  {
    forall k | k in before && k !in after ensures Fits(limits, after[k := before[k]]) {
      SumWithin(after[k := before[k]], before, Payload);
      SumWithin(after[k := before[k]], before, Metadata);
    }
  }

  /** A call that does not touch the key and exceeds no budget. */
  ghost predicate Spares(limits: Limits, before: map<Key, Bytes>, call: Call, key: Key) {
    match call
    case Set(k, v) => k != key && (Storable(limits, k, v) ==> Fits(limits, before[k := v]))
    case Delete(k) => k != key
    case Clear => false
  }

  /** A value that can be stored at all is found for as long as no call touches its key and none
      exceeds a budget; one that cannot be stored leaves no entry. */
  lemma {:induction false} SetStaysFound(limits: Limits, calls: seq<Call>, states: seq<map<Key, Bytes>>, i: nat, key: Key, value: Bytes)
    requires Run(limits, calls, states) && limits.bytes > 0
    requires i < |calls| && calls[i] == Set(key, value)
    requires forall j :: i < j < |calls| ==> Spares(limits, states[j], calls[j], key)
    ensures key in states[|calls|] <==> Storable(limits, key, value)
    ensures Storable(limits, key, value) ==> states[|calls|][key] == value
  {
    var n := |calls| - 1;
    assert Step(limits, states[n], calls[n], states[n + 1]);
    if i < n {
      SetStaysFound(limits, calls[..n], states[..n + 1], i, key, value);
      assert Spares(limits, states[n], calls[n], key);
      if calls[n].Set? && Storable(limits, calls[n].key, calls[n].value) {
        NothingTrimmed(limits, states[n][calls[n].key := calls[n].value], states[n + 1]);
      }
    }
  }
}
