/**
 A cache map whose values may live in an external store: keys and what invalidation needs
 stay here, values go out as immutable blobs under keys that are never used twice.
 */
module IndexedMap {
  import opened Options

  /** A value kept here in full, or its projection with a reference to the blob that holds it. */
  datatype Value<V> = Value(index: V, blob: Option<nat>)

  const MOST_MESSAGES: nat := 0x1_0000_0000
  const BATCH: nat := 128

  /** The keys an enumeration in this order removes: those that match, until the limit is reached.
      A limit of zero or less is none. */
  function Taken<K, V>(order: seq<K>, m: map<K, V>, matches: (K, V) -> bool, limit: int): seq<K> {
    if order == [] then []
    else if order[0] in m && matches(order[0], m[order[0]]) then
      [order[0]] + (if limit == 1 then [] else Taken(order[1..], m, matches, limit - 1))
    else Taken(order[1..], m, matches, limit)
  }

  ghost predicate Distinct<K(!new)>(order: seq<K>) {
    forall i, j :: 0 <= i < j < |order| ==> order[i] != order[j]
  }

  /** An enumeration visits every key once. */
  ghost predicate Enumerates<K(!new), V>(order: seq<K>, m: map<K, V>) {
    Distinct(order) && forall k :: k in order <==> k in m
  }

  function Range<K>(order: seq<K>): set<K> { set k | k in order }

  lemma DistinctTail<K(!new)>(order: seq<K>)
    requires Distinct(order) && order != []
    ensures Distinct(order[1..]) && order[0] !in order[1..]
    ensures forall k :: k in order <==> k == order[0] || k in order[1..]
  {
    assert order == [order[0]] + order[1..];
  }

  lemma DistinctMore<K(!new)>(k: K, order: seq<K>)
    requires Distinct(order) && k !in order
    ensures Distinct([k] + order)
  {
  }

  lemma NoneIsDistinct<K(!new)>()
    ensures Distinct<K>([])
  {
  }

  /** What is taken matches; a limit bounds it; and whatever else matches was left for the limit only. */
  lemma {:induction false} TakenMatches<K(!new), V>(order: seq<K>, m: map<K, V>, matches: (K, V) -> bool, limit: int)
    requires Distinct(order)
    ensures var taken := Taken(order, m, matches, limit);
            && (forall k :: k in taken ==> k in order && k in m && matches(k, m[k]))
            && Distinct(taken) && (limit > 0 ==> |taken| <= limit)
            && (limit <= 0 || |taken| < limit ==> forall k :: k in order && k in m && matches(k, m[k]) ==> k in taken)
  {
    hide Distinct;
    NoneIsDistinct<K>();
    if order != [] {
      var k := order[0];
      DistinctTail(order);
      if k in m && matches(k, m[k]) {
        var rest := if limit == 1 then [] else Taken(order[1..], m, matches, limit - 1);
        if limit != 1 { TakenMatches(order[1..], m, matches, limit - 1); }
        DistinctMore(k, rest);
      } else {
        TakenMatches(order[1..], m, matches, limit);
      }
    }
  }

  lemma {:induction false} DistinctCount<K(!new)>(order: seq<K>)
    requires Distinct(order)
    ensures |Range(order)| == |order|
  {
    if order != [] {
      DistinctCount(order[1..]);
      assert Range(order) == {order[0]} + Range(order[1..]);
      assert order[0] !in order[1..];
    } else {
      assert Range(order) == {};
    }
  }

  /** Taking keys away makes the map smaller by their number. */
  lemma TakenCount<K(!new), V>(order: seq<K>, m: map<K, V>, matches: (K, V) -> bool, limit: int)
    requires Distinct(order)
    ensures var taken := Taken(order, m, matches, limit);
            |taken| <= |m| && |m - Range(taken)| == |m| - |taken|
  {
    var taken := Taken(order, m, matches, limit);
    TakenMatches(order, m, matches, limit);
    DistinctCount(taken);
    assert Range(taken) <= m.Keys;
    assert (m - Range(taken)).Keys == m.Keys - Range(taken);
    assert |m.Keys - Range(taken)| == |m.Keys| - |Range(taken)|;
  }

  /** The predicate cannot tell a value from its projection. */
  ghost predicate Respects<K(!new), V(!new)>(matches: (K, V) -> bool, project: V -> V) {
    forall k, v :: matches(k, project(v)) == matches(k, v)
  }

  /** On projected values an enumeration takes the same keys as on the values themselves. */
  lemma {:induction false} SameTaken<K(!new), V(!new)>(order: seq<K>, m: map<K, V>, n: map<K, V>, matches: (K, V) -> bool, limit: int)
    requires forall k :: k in m <==> k in n
    requires forall k :: k in m ==> matches(k, n[k]) == matches(k, m[k])
    ensures Taken(order, n, matches, limit) == Taken(order, m, matches, limit)
  {
    if order != [] {
      SameTaken(order[1..], m, n, matches, limit - 1);
      SameTaken(order[1..], m, n, matches, limit);
    }
  }

  /** An enumeration has passed i keys and taken some of them. */
  ghost predicate Passed<K(!new), V>(order: seq<K>, i: nat, before: map<K, V>, now: map<K, V>, taken: seq<K>) {
    && i <= |order| && Enumerates(order, before) && now == before - Range(taken)
    && forall k :: k in taken ==> k in order[..i]
  }

  lemma NothingTaken<K(!new), V>(order: seq<K>, m: map<K, V>)
    requires Enumerates(order, m)
    ensures Passed(order, 0, m, m, []) && order[0..] == order
    ensures forall x: seq<K> :: [] + x == x
  {
    assert Range<K>([]) == {};
  }

  /** The next key is still there, and passing it takes it or not. */
  lemma PassNext<K(!new), V>(order: seq<K>, i: nat, before: map<K, V>, now: map<K, V>, taken: seq<K>)
    requires Passed(order, i, before, now, taken) && i < |order|
    ensures var k := order[i];
            && k in before && k in now && now[k] == before[k]
            && Passed(order, i + 1, before, now - {k}, taken + [k]) && Passed(order, i + 1, before, now, taken)
  {
    var k := order[i];
    assert order[..i + 1] == order[..i] + [k];
    assert k !in order[..i];
    assert Range(taken + [k]) == Range(taken) + {k};
  }

  /** ... and what is taken in the end grows by it, if it matches. */
  lemma TakenNext<K(!new), V>(order: seq<K>, i: nat, m: map<K, V>, matches: (K, V) -> bool, limit: int, taken: seq<K>)
    requires i < |order| && order[i] in m
    ensures var k := order[i];
            taken + Taken(order[i..], m, matches, limit - |taken|)
            == if matches(k, m[k])
               then taken + [k] + (if limit == |taken| + 1 then [] else Taken(order[i + 1..], m, matches, limit - (|taken| + 1)))
               else taken + Taken(order[i + 1..], m, matches, limit - |taken|)
  {
    var k, left := order[i], limit - |taken|;
    assert order[i..][0] == k && order[i..][1..] == order[i + 1..];
    var rest := if left == 1 then [] else Taken(order[i + 1..], m, matches, left - 1);
    assert taken + ([k] + rest) == taken + [k] + rest;
  }

  /** ... and what it is still going to take is what the whole enumeration takes besides. */
  ghost predicate Sweeping<K(!new), V>(order: seq<K>, i: nat, before: map<K, V>, now: map<K, V>, matches: (K, V) -> bool, limit: int,
                                       taken: seq<K>, going: bool) {
    && Passed(order, i, before, now, taken) && going == (limit <= 0 || |taken| < limit)
    && Taken(order, before, matches, limit) == taken + if going then Taken(order[i..], before, matches, limit - |taken|) else []
  }

  lemma SweepBegins<K(!new), V>(order: seq<K>, m: map<K, V>, matches: (K, V) -> bool, limit: int)
    requires Enumerates(order, m)
    ensures Sweeping(order, 0, m, m, matches, limit, [], true)
  {
    hide Taken, Passed;
    NothingTaken(order, m);
  }

  lemma SweepNext<K(!new), V>(order: seq<K>, i: nat, before: map<K, V>, now: map<K, V>, matches: (K, V) -> bool, limit: int, taken: seq<K>)
    requires Sweeping(order, i, before, now, matches, limit, taken, true) && i < |order|
    ensures var k := order[i];
            && k in before && k in now && now[k] == before[k]
            && var more := if matches(k, before[k]) then taken + [k] else taken;
               Sweeping(order, i + 1, before, if matches(k, before[k]) then now - {k} else now, matches, limit,
                        more, limit <= 0 || |more| < limit)
  {
    hide Taken, Passed;
    PassNext(order, i, before, now, taken);
    TakenNext(order, i, before, matches, limit, taken);
  }

  lemma SweepEnds<K(!new), V>(order: seq<K>, i: nat, before: map<K, V>, now: map<K, V>, matches: (K, V) -> bool, limit: int,
                              taken: seq<K>, going: bool)
    requires Sweeping(order, i, before, now, matches, limit, taken, going) && (i == |order| || !going)
    ensures now == before - Range(taken) && taken == Taken(order, before, matches, limit)
  {
  }

  // ----- Batched deletion

  /** A blob, and the external store that holds it. */
  datatype Blob = Blob(remote: nat, key: nat)

  /** One DEL, with the keys it names. */
  datatype Batch = Batch(remote: nat, keys: seq<nat>)

  /** The blobs of one store, in order. */
  function Held(blobs: seq<Option<Blob>>, remote: nat): seq<nat> {
    if blobs == [] then []
    else
      var last := blobs[|blobs| - 1];
      Held(blobs[..|blobs| - 1], remote) + (if last.Some? && last.value.remote == remote then [last.value.key] else [])
  }

  /** What is deleted from one store, in order. */
  function Deleted(batches: seq<Batch>, remote: nat): seq<nat> {
    if batches == [] then []
    else
      var last := batches[|batches| - 1];
      Deleted(batches[..|batches| - 1], remote) + (if last.remote == remote then last.keys else [])
  }

  function Waiting(groups: map<nat, seq<nat>>, remotes: set<nat>, remote: nat): seq<nat> {
    if remote in groups && remote in remotes then groups[remote] else []
  }

  lemma DeletedMore(batches: seq<Batch>, b: Batch, remote: nat)
    ensures Deleted(batches + [b], remote) == Deleted(batches, remote) + (if b.remote == remote then b.keys else [])
  {
    assert (batches + [b])[..|batches|] == batches;
  }

  /** The keys each store still waits for, and those it was told to delete, are those seen so far. */
  ghost predicate Accounted(batches: seq<Batch>, groups: map<nat, seq<nat>>, remotes: set<nat>, blobs: seq<Option<Blob>>) {
    forall r :: Deleted(batches, r) + Waiting(groups, remotes, r) == Held(blobs, r)
  }

  lemma NoMoreBlob(batches: seq<Batch>, groups: map<nat, seq<nat>>, blobs: seq<Option<Blob>>)
    requires Accounted(batches, groups, groups.Keys, blobs)
    ensures Accounted(batches, groups, groups.Keys, blobs + [None])
  {
    assert (blobs + [None])[..|blobs|] == blobs;
  }

  /** One more blob, which waits in its store's group. */
  lemma OneMoreBlob(batches: seq<Batch>, groups: map<nat, seq<nat>>, blobs: seq<Option<Blob>>, blob: Blob)
    requires Accounted(batches, groups, groups.Keys, blobs)
    ensures var keys := Waiting(groups, groups.Keys, blob.remote) + [blob.key];
            Accounted(batches, groups[blob.remote := keys], groups.Keys + {blob.remote}, blobs + [Some(blob)])
  {
    hide Deleted;
    var keys := Waiting(groups, groups.Keys, blob.remote) + [blob.key];
    assert (blobs + [Some(blob)])[..|blobs|] == blobs;
    forall r ensures Deleted(batches, r) + Waiting(groups[blob.remote := keys], groups.Keys + {blob.remote}, r) == Held(blobs + [Some(blob)], r) {
      assert Deleted(batches, r) + Waiting(groups, groups.Keys, r) == Held(blobs, r);
      assert Held(blobs + [Some(blob)], r) == Held(blobs, r) + if r == blob.remote then [blob.key] else [];
    }
  }

  /** A group that is deleted waits no longer. */
  lemma GroupSent(batches: seq<Batch>, groups: map<nat, seq<nat>>, blobs: seq<Option<Blob>>, remote: nat)
    requires Accounted(batches, groups, groups.Keys, blobs) && remote in groups
    ensures Accounted(batches + [Batch(remote, groups[remote])], groups[remote := []], groups.Keys, blobs)
  {
    hide Deleted;
    forall r ensures Deleted(batches + [Batch(remote, groups[remote])], r) + Waiting(groups[remote := []], groups.Keys, r) == Held(blobs, r) {
      DeletedMore(batches, Batch(remote, groups[remote]), r);
      assert Deleted(batches, r) + Waiting(groups, groups.Keys, r) == Held(blobs, r);
    }
  }

  lemma OneGroup(batches: seq<Batch>, groups: map<nat, seq<nat>>, remotes: set<nat>, blobs: seq<Option<Blob>>, r: nat)
    requires Accounted(batches, groups, remotes, blobs) && r in remotes && r in groups
    ensures groups[r] == [] ==> Accounted(batches, groups, remotes - {r}, blobs)
    ensures Accounted(batches + [Batch(r, groups[r])], groups, remotes - {r}, blobs)
  {
    forall s ensures Deleted(batches + [Batch(r, groups[r])], s) == Deleted(batches, s) + (if s == r then groups[r] else []) {
      DeletedMore(batches, Batch(r, groups[r]), s);
    }
  }

  /** From each store every blob is deleted once, in order, in batches that hold 128 keys and a rest. */
  method Batches(blobs: seq<Option<Blob>>) returns (batches: seq<Batch>)
    ensures forall r :: Deleted(batches, r) == Held(blobs, r)
    ensures forall i :: 0 <= i < |batches| ==> 0 < |batches[i].keys| <= BATCH
    ensures forall i, j :: 0 <= i < j < |batches| && batches[i].remote == batches[j].remote ==> |batches[i].keys| == BATCH
  {
    hide Deleted, Held, Accounted;
    batches := [];
    var groups: map<nat, seq<nat>> := map[];
    NothingDeleted();
    assert groups.Keys == {};
    for i := 0 to |blobs|
      invariant Accounted(batches, groups, groups.Keys, blobs[..i])
      invariant forall r :: r in groups ==> |groups[r]| < BATCH
      invariant forall j :: 0 <= j < |batches| ==> |batches[j].keys| == BATCH
    {
      assert blobs[..i + 1] == blobs[..i] + [blobs[i]];
      if blobs[i].None? {
        NoMoreBlob(batches, groups, blobs[..i]);
        continue;
      }
      OneMoreBlob(batches, groups, blobs[..i], blobs[i].value);
      var remote := blobs[i].value.remote;
      var keys := (if remote in groups then groups[remote] else []) + [blobs[i].value.key];
      ghost var grown := groups[remote := keys];
      assert grown.Keys == groups.Keys + {remote};
      if |keys| == BATCH {
        GroupSent(batches, grown, blobs[..i + 1], remote);
        batches := batches + [Batch(remote, keys)];
        keys := [];
      }
      groups := groups[remote := keys];
      assert groups == grown[remote := keys] && groups.Keys == grown.Keys;
    }
    assert blobs[..|blobs|] == blobs;
    var remotes := groups.Keys;
    while remotes != {}
      invariant remotes <= groups.Keys && Accounted(batches, groups, remotes, blobs)
      invariant forall i :: 0 <= i < |batches| ==> 0 < |batches[i].keys| <= BATCH
      invariant forall i :: 0 <= i < |batches| && batches[i].remote in remotes ==> |batches[i].keys| == BATCH
      invariant forall i, j :: 0 <= i < j < |batches| && batches[i].remote == batches[j].remote ==> |batches[i].keys| == BATCH
    {
      var remote :| remote in remotes;
      OneGroup(batches, groups, remotes, blobs, remote);
      if |groups[remote]| > 0 { batches := batches + [Batch(remote, groups[remote])]; }
      remotes := remotes - {remote};
    }
    AllDeleted(batches, groups, blobs);
  }

  lemma NothingDeleted()
    ensures Accounted([], map[], {}, [])
  {
  }

  lemma AllDeleted(batches: seq<Batch>, groups: map<nat, seq<nat>>, blobs: seq<Option<Blob>>)
    requires Accounted(batches, groups, {}, blobs)
    ensures forall r :: Deleted(batches, r) == Held(blobs, r)
  {
    forall r ensures Deleted(batches, r) == Held(blobs, r) {
      assert Waiting(groups, {}, r) == [];
      assert Deleted(batches, r) + [] == Deleted(batches, r);
    }
  }

  // ----- The map

  /** Everything the map and its external store consist of, with what a map in memory would hold
      and what was ever written out. */
  datatype Snapshot<!K, V> = Snapshot(entries: map<K, Value<V>>, held: map<nat, V>, memory: map<K, V>, issued: map<nat, V>)

  ghost predicate Agrees<K(!new), V(!new)>(s: Snapshot<K, V>, external: bool, project: V -> V) {
    && (forall k :: k in s.entries <==> k in s.memory)
    && (forall k :: k in s.entries ==>
          if external then
            && s.entries[k].index == project(s.memory[k])
            && (s.entries[k].blob.Some? ==> s.entries[k].blob.value in s.issued && s.issued[s.entries[k].blob.value] == s.memory[k])
          else s.entries[k] == Value(s.memory[k], None))
    && (forall b :: b in s.held ==> b in s.issued && s.issued[b] == s.held[b])
  }

  /** What was written out under a key is never written differently. */
  ghost predicate Later<K, V>(s: Snapshot<K, V>, t: Snapshot<K, V>) {
    forall b :: b in s.issued ==> b in t.issued && t.issued[b] == s.issued[b]
  }

  // ----- Runs

  /** A call, from the moment its entry is exchanged; and what calls in progress do to the external
      store besides: a value is written out before its entry is exchanged, and blobs are lost or
      released at any time. */
  datatype Call<!K, !V> =
    | Store(key: K, value: V)
    | Remove(key: K)
    | Sweep(matches: (K, V) -> bool, limit: int, order: seq<K>)
    | Write(blob: nat, value: V)
    | Lose(blobs: set<nat>)

  /** What a call does to a map in memory. */
  function After<K, V>(m: map<K, V>, call: Call<K, V>): map<K, V> {
    match call
    case Store(key, value) => m[key := value]
    case Remove(key) => m - {key}
    case Sweep(matches, limit, order) => m - Range(Taken(order, m, matches, limit))
    case Write(_, _) => m
    case Lose(_) => m
  }

  /** One moment of a run. A blob is written under a name of its own, and held or not. In memory mode
      there is no external store to change. */
  ghost predicate Moment<K(!new), V(!new)>(s: Snapshot<K, V>, call: Call<K, V>, t: Snapshot<K, V>, external: bool) {
    && t.memory == After(s.memory, call) && Later(s, t)
    && (call.Write? && external ==> call.blob !in s.issued && t == s.(issued := s.issued[call.blob := call.value], held := t.held))
    && (call.Lose? && external ==> t == s.(held := s.held - call.blobs))
    && ((call.Write? || call.Lose?) && !external ==> t == s)
  }

  /** A run of the map, in one mode or the other: what its methods promise. */
  ghost predicate Run<K(!new), V(!new)>(states: seq<Snapshot<K, V>>, calls: seq<Call<K, V>>, external: bool, project: V -> V) {
    && |states| == |calls| + 1 && states[0].memory == map[]
    && (forall i :: 0 <= i < |states| ==> Agrees(states[i], external, project))
    && (forall i :: 0 <= i < |calls| ==> Moment(states[i], calls[i], states[i + 1], external))
  }

  lemma {:induction false} LaterInRun<K(!new), V(!new)>(states: seq<Snapshot<K, V>>, calls: seq<Call<K, V>>, external: bool,
                                                        project: V -> V, i: nat, j: nat)
    requires Run(states, calls, external, project) && i <= j < |states|
    ensures Later(states[i], states[j])
  {
    if i < j {
      LaterInRun(states, calls, external, project, i, j - 1);
      assert Moment(states[j - 1], calls[j - 1], states[j], external);
    }
  }

  /** A hit in external mode: the reference is looked up, the blob is read, the reference is looked up
      again and is unchanged. Whatever happened in between, other calls that have written their value
      and not yet exchanged their entry included, the value read is the one a map in memory would
      return at the second lookup. */
  lemma HitIsCurrent<K(!new), V(!new)>(states: seq<Snapshot<K, V>>, calls: seq<Call<K, V>>, project: V -> V,
                                       first: nat, read: nat, second: nat, key: K)
    requires Run(states, calls, true, project) && first <= read <= second < |states|
    requires key in states[first].entries && states[first].entries[key].blob.Some?
    requires states[first].entries[key].blob.value in states[read].held
    requires key in states[second].entries && states[second].entries[key].blob == states[first].entries[key].blob
    ensures key in states[second].memory
    ensures states[second].memory[key] == states[read].held[states[first].entries[key].blob.value]
  {
    var b := states[first].entries[key].blob.value;
    LaterInRun(states, calls, true, project, read, second);
    assert b in states[read].issued && b in states[second].issued;
  }

  lemma {:induction false} SameMemory<K(!new), V(!new)>(states: seq<Snapshot<K, V>>, others: seq<Snapshot<K, V>>, calls: seq<Call<K, V>>,
                                                        project: V -> V, n: nat)
    requires Run(states, calls, true, project) && Run(others, calls, false, project) && n < |states|
    ensures states[n].memory == others[n].memory
  {
    if n > 0 {
      SameMemory(states, others, calls, project, n - 1);
      assert Moment(states[n - 1], calls[n - 1], states[n], true) && Moment(others[n - 1], calls[n - 1], others[n], false);
    }
  }

  /** The same calls on both modes: the same keys after every call, and projections of the same values. */
  lemma ModesAgree<K(!new), V(!new)>(states: seq<Snapshot<K, V>>, others: seq<Snapshot<K, V>>, calls: seq<Call<K, V>>,
                                     project: V -> V, n: nat, key: K)
    requires Run(states, calls, true, project) && Run(others, calls, false, project) && n < |states|
    ensures key in states[n].entries <==> key in others[n].entries
    ensures key in states[n].entries ==> states[n].entries[key].index == project(others[n].entries[key].index)
  {
    SameMemory(states, others, calls, project, n);
    assert Agrees(states[n], true, project) && Agrees(others[n], false, project);
  }

  // ----- The class

  class IndexedMap<!K(==, !new), V(==, !new)> {
    const external: bool
    const project: V -> V
    var entries: map<K, Value<V>>
    var sequence: nat
    var held: map<nat, V>
    ghost var memory: map<K, V>
    ghost var issued: map<nat, V>

    ghost function Snap(): Snapshot<K, V>
      reads this
    {
      Snapshot(entries, held, memory, issued)
    }

    ghost predicate Valid()
      reads this
    {
      Agrees(Snap(), external, project) && forall b :: b in issued ==> b <= sequence
    }

    constructor (external: bool, project: V -> V)
      ensures Valid() && memory == map[] && this.external == external && this.project == project
    {
      this.external, this.project := external, project;
      entries, sequence, held, memory, issued := map[], 0, map[], map[], map[];
    }

    method Contains(key: K) returns (found: bool)
      requires Valid()
      ensures found == (key in memory)
    {
      found := key in entries;
    }

    /** Reads a value. The second lookup finds the reference of the first here; HitIsCurrent is about
        what other threads do in between. */
    method Load(key: K) returns (value: Option<V>)
      requires Valid()
      ensures value.Some? ==> key in memory && value.value == memory[key]
      ensures !external ==> value == if key in memory then Some(memory[key]) else None
    {
      if key !in entries { return None; }
      var entry := entries[key];
      if !external { return Some(entry.index); }
      var reachable: bool := *;
      value := if reachable && entry.blob.Some? && entry.blob.value in held then Some(held[entry.blob.value]) else None;
    }

    /** Writes a value under a new key. It fails for reasons of its own or of the external store, and a
        write that is reported as failed may have happened. */
    method Put(value: V, storable: bool) returns (blob: Option<nat>)
      requires Valid() && external
      modifies this`sequence, this`held, this`issued
      ensures Valid() && memory == old(memory) && entries == old(entries) && Later(old(Snap()), Snap())
      ensures issued == old(issued) || (sequence !in old(issued) && issued == old(issued)[sequence := value])
      ensures blob.Some? ==> blob.value !in old(issued) && blob.value in issued && issued[blob.value] == value
    {
      if !storable { return None; }
      var reachable: bool := *;
      if !reachable { return None; }
      sequence := sequence + 1;
      if sequence > MOST_MESSAGES { return None; }
      issued := issued[sequence := value];
      var written: bool, reported: bool := *, *;
      if written { held := held[sequence := value]; }
      blob := if written && reported then Some(sequence) else None;
    }

    /** Releases blobs; the external store may drop some of them, all of them or none. */
    method Release(keys: seq<Option<nat>>)
      requires Valid()
      modifies this`held
      ensures Valid() && Later(old(Snap()), Snap())
    {
      var blobs := seq(|keys|, i requires 0 <= i < |keys| => if keys[i].Some? then Some(Blob(0, keys[i].value)) else None);
      var batches := Batches(blobs);
      for i := 0 to |batches|
        invariant Valid()
      {
        var done: bool := *;
        if done { held := held - Range(batches[i].keys); }
      }
    }

    method StoreTTL(key: K, value: V, storable: bool)
      requires Valid()
      modifies this
      ensures Valid() && memory == After(old(memory), Call.Store(key, value)) && Later(old(Snap()), Snap())
    {
      var entry := Value(value, None);
      if external {
        var blob := Put(value, storable);
        entry := Value(project(value), blob);
      }
      var previous := if key in entries then entries[key].blob else None;
      entries := entries[key := entry];
      memory := memory[key := value];
      Release([previous]);
    }

    /** Whether an entry is there and matches, judged by what is kept here. */
    method Matching(matches: (K, V) -> bool, key: K) returns (found: bool)
      requires Valid() && (external ==> Respects(matches, project))
      ensures found == (key in memory && matches(key, memory[key]))
    {
      found := key in entries && matches(key, entries[key].index);
    }

    method Drop(key: K) returns (blob: Option<nat>)
      requires Valid() && key in memory
      modifies this`entries, this`memory
      ensures Valid() && memory == old(memory) - {key}
    {
      blob := entries[key].blob;
      entries := entries - {key};
      memory := memory - {key};
    }

    method LoadAndDelete(key: K) returns (loaded: bool)
      requires Valid()
      modifies this
      ensures Valid() && memory == After(old(memory), Call.Remove(key)) && loaded == (key in old(memory)) && Later(old(Snap()), Snap())
    {
      loaded := key in entries;
      if loaded {
        var previous := Drop(key);
        Release([previous]);
      }
    }

    /** Removes what matches, judged by what is kept here. It removes exactly the keys that the same
        enumeration of a map in memory would remove. */
    method DeleteMatching(matches: (K, V) -> bool, limit: int, order: seq<K>) returns (removed: nat)
      requires Valid() && Enumerates(order, memory) && (external ==> Respects(matches, project))
      modifies this
      ensures Valid() && Later(old(Snap()), Snap())
      ensures memory == After(old(memory), Sweep(matches, limit, order))
      ensures removed == |Taken(order, old(memory), matches, limit)|
    {
      hide Taken, Range, Agrees, Respects, Enumerates, Sweeping;
      var blobs: seq<Option<nat>> := [];
      removed := 0;
      ghost var taken: seq<K> := [];
      var i := 0;
      var going := true;
      SweepBegins(order, memory, matches, limit);
      while i < |order| && going
        invariant 0 <= i <= |order| && Valid() && issued == old(issued) && removed == |taken|
        invariant Sweeping(order, i, old(memory), memory, matches, limit, taken, going)
      {
        var key := order[i];
        SweepNext(order, i, old(memory), memory, matches, limit, taken);
        var found := Matching(matches, key);
        if found {
          var blob := Drop(key);
          blobs := blobs + [blob];
          removed := removed + 1;
          taken := taken + [key];
        }
        going := limit <= 0 || removed < limit;
        i := i + 1;
      }
      SweepEnds(order, i, old(memory), memory, matches, limit, taken, going);
      Release(blobs);
    }
  }
}
