/**
 The cache of authentication results: bounded, counted with wrap-around arithmetic, and
 guarded by a generation that every invalidation advances.
 */
module AuthCache {
  import opened Options
  import opened IndexedMap

  const MAX_ENTRIES: nat := 10000
  const MAX_EXPIRED: int := 1000
  const MAX_SWEPT: int := 2000

  // ----- Entries

  datatype User = User(username: string, profile: string)

  datatype AuthEntry = AuthEntry(
    user: Option<User>, kind: string, scheme: string, tokenId: string,
    scopes: seq<string>, targets: map<string, seq<string>>, expiredAt: int, invalid: bool)

  /** What is kept of an entry whose value is stored elsewhere. */
  function Project(e: AuthEntry): AuthEntry {
    e.(user := if e.user.Some? then Some(User(e.user.value.username, "")) else None, scopes := [], targets := map[])
  }

  function LowerChar(c: char): char {
    if 'A' <= c <= 'Z' then (c as int + 32) as char else c
  }

  function Lower(s: string): string {
    seq(|s|, i requires 0 <= i < |s| => LowerChar(s[i]))
  }

  /** What an invalidation is after. */
  datatype Selection =
    | Everything
    | Credential(key: string)
    | Expired(now: int)
    | Accounts(clearFailures: bool, names: set<string>)
    | Token(id: string)

  predicate Selects(s: Selection, key: string, e: AuthEntry) {
    match s
    case Everything => true
    case Credential(k) => key == k
    case Expired(now) => e.expiredAt <= now
    case Accounts(clearFailures, names) =>
      (clearFailures && e.invalid) || (e.user.Some? && Lower(e.user.value.username) in names)
    case Token(id) => e.tokenId == id
  }

  /** An invalidation as the predicate it enumerates with. */
  function Matcher(s: Selection): (string, AuthEntry) -> bool {
    (k, e) => Selects(s, k, e)
  }

  /** Every invalidation sees all it needs on the projected entry. */
  lemma SelectsTheSame(s: Selection)
    ensures Respects(Matcher(s), Project)
    ensures forall k, e :: Selects(s, k, Project(e)) == Selects(s, k, e)
  {
  }

  // ----- The counter

  const WRAP: nat := 0x1_0000_0000_0000_0000

  function Add64(a: nat, b: nat): (c: nat)
    ensures c < WRAP
  {
    (a + b) % WRAP
  }

  function Not64(a: nat): nat
    requires a < WRAP
  {
    WRAP - 1 - a
  }

  /** Adding the complement of n - 1 subtracts n. */
  lemma WrapSubtracts(a: nat, n: nat)
    requires 0 < n <= a < WRAP
    ensures Add64(a, Not64(n - 1)) == a - n
  {
    assert a + Not64(n - 1) == WRAP + (a - n);
  }

  // ----- What the operations do to the entries

  ghost predicate HasExpired(m: map<string, AuthEntry>, now: int) {
    exists k :: k in m && m[k].expiredAt <= now
  }

  /** Some entries are gone: expired ones only, all of them or a thousand, if there are any; otherwise
      any two thousand, or all. */
  ghost predicate Evicted(before: map<string, AuthEntry>, after: map<string, AuthEntry>, now: int) {
    && (forall k :: k in after ==> k in before && after[k] == before[k])
    && if HasExpired(before, now) then
         && (forall k :: k in before && k !in after ==> before[k].expiredAt <= now)
         && |before| - |after| <= MAX_EXPIRED && (|before| - |after| == MAX_EXPIRED || !HasExpired(after, now))
       else
         |before| - |after| <= MAX_SWEPT && (|before| - |after| == MAX_SWEPT || |after| == 0)
  }

  /** Storing a result computed under a generation. A result of an older generation is dropped. A new
      entry of a full cache makes room for itself, at the cost of expired entries if there are any. */
  ghost predicate StoreStep(before: map<string, AuthEntry>, current: nat, generation: nat, key: string, entry: AuthEntry,
                            now: int, after: map<string, AuthEntry>) {
    if generation != current then after == before
    else
      && key in after && after[key] == entry
      && (if |before| < MAX_ENTRIES || key in before then after == before[key := entry] else Evicted(before, after - {key}, now))
  }

  ghost predicate InvalidateStep(before: map<string, AuthEntry>, s: Selection, after: map<string, AuthEntry>) {
    && (forall k :: k in after <==> k in before && !Selects(s, k, before[k]))
    && (forall k :: k in after ==> after[k] == before[k])
  }

  lemma TakenAllInvalidates(m: map<string, AuthEntry>, s: Selection, order: seq<string>)
    requires Enumerates(order, m)
    ensures InvalidateStep(m, s, m - Range(Taken(order, m, Matcher(s), 0)))
  {
    TakenMatches(order, m, Matcher(s), 0);
  }

  lemma SweepExpired(m: map<string, AuthEntry>, now: int, order: seq<string>)
    requires Enumerates(order, m)
    ensures var expired := Taken(order, m, Matcher(Expired(now)), MAX_EXPIRED);
            && (HasExpired(m, now) ==> expired != [] && Evicted(m, m - Range(expired), now))
            && |m - Range(expired)| == |m| - |expired|
            && (!HasExpired(m, now) ==> expired == [] && m - Range(expired) == m)
  {
    var expired := Taken(order, m, Matcher(Expired(now)), MAX_EXPIRED);
    hide Taken, Selects;
    MatchesExpired(now);
    TakenMatches(order, m, Matcher(Expired(now)), MAX_EXPIRED);
    TakenCount(order, m, Matcher(Expired(now)), MAX_EXPIRED);
    ExpiredAreEvicted(order, m, now, expired);
  }

  /** Taking expired entries, all of them or as many as the limit allows. */
  lemma ExpiredAreEvicted(order: seq<string>, m: map<string, AuthEntry>, now: int, expired: seq<string>)
    requires Enumerates(order, m)
    requires forall k :: k in expired ==> k in m && m[k].expiredAt <= now
    requires |expired| <= MAX_EXPIRED && |m - Range(expired)| == |m| - |expired|
    requires |expired| < MAX_EXPIRED ==> forall k :: k in order && k in m && m[k].expiredAt <= now ==> k in expired
    ensures HasExpired(m, now) ==> expired != [] && Evicted(m, m - Range(expired), now)
    ensures !HasExpired(m, now) ==> expired == [] && m - Range(expired) == m
  {
    var left := m - Range(expired);
    if !HasExpired(m, now) {
      assert expired == [] by {
        if k :| k in expired { assert m[k].expiredAt <= now; }
      }
    }
  }

  lemma MatchesExpired(now: int)
    ensures forall k, e :: Matcher(Expired(now))(k, e) == (e.expiredAt <= now)
    ensures forall k, e :: Matcher(Everything)(k, e)
  {
  }

  lemma SweepAny(m: map<string, AuthEntry>, now: int, order: seq<string>)
    requires Enumerates(order, m) && |m| > 0 && !HasExpired(m, now)
    ensures var swept := Taken(order, m, Matcher(Everything), MAX_SWEPT);
            swept != [] && Evicted(m, m - Range(swept), now) && |m - Range(swept)| == |m| - |swept|
  {
    var swept := Taken(order, m, Matcher(Everything), MAX_SWEPT);
    hide Taken, Selects;
    MatchesExpired(now);
    TakenMatches(order, m, Matcher(Everything), MAX_SWEPT);
    TakenCount(order, m, Matcher(Everything), MAX_SWEPT);
    var k := SomeKey(m);
    assert k in order && Matcher(Everything)(k, m[k]);
  }

  lemma SomeKey(m: map<string, AuthEntry>) returns (k: string)
    requires |m| > 0
    ensures k in m
  {
    assert m.Keys != {};
    k :| k in m;
  }

  lemma ReplacedSize(m: map<string, AuthEntry>, k: string, e: AuthEntry)
    requires k in m
    ensures |m[k := e]| == |m|
  {
    assert m[k := e].Keys == m.Keys;
  }

  lemma AddedSize(m: map<string, AuthEntry>, k: string, e: AuthEntry)
    requires k !in m
    ensures |m[k := e]| == |m| + 1 && m[k := e] - {k} == m
  {
    assert m[k := e].Keys == m.Keys + {k};
  }

  lemma EvictedLacks(before: map<string, AuthEntry>, after: map<string, AuthEntry>, now: int, k: string)
    requires Evicted(before, after, now) && k !in before
    ensures k !in after
  {
  }

  lemma RemovedSize(m: map<string, AuthEntry>, k: string)
    ensures |m - {k}| == if k in m then |m| - 1 else |m|
  {
    assert (m - {k}).Keys == m.Keys - {k};
  }

  class AuthCache {
    const cache: IndexedMap<string, AuthEntry>
    var count: nat
    var generation: nat

    ghost predicate Valid()
      reads this, cache
    {
      cache.Valid() && cache.project == Project && count == |cache.memory| <= MAX_ENTRIES
    }

    constructor (external: bool)
      ensures Valid() && fresh(cache) && cache.memory == map[]
    {
      cache := new IndexedMap<string, AuthEntry>(external, Project);
      count, generation := 0, 0;
    }

    /** Takes what a sweep removed off the counter. */
    method Uncount(removed: nat)
      requires removed <= count < WRAP
      modifies this`count
      ensures count == old(count) - removed
    {
      if removed > 0 {
        WrapSubtracts(count, removed);
        count := Add64(count, Not64(removed - 1));
      }
    }

    /** Removes what is selected, up to a limit. */
    method Sweep(s: Selection, limit: int, order: seq<string>) returns (removed: nat)
      requires cache.Valid() && cache.project == Project && Enumerates(order, cache.memory)
      modifies cache
      ensures cache.Valid() && cache.memory == old(cache.memory) - Range(Taken(order, old(cache.memory), Matcher(s), limit))
      ensures removed == |Taken(order, old(cache.memory), Matcher(s), limit)|
    {
      hide Taken, Range, Enumerates, Matcher, Respects, Agrees, Selects;
      SelectsTheSame(s);
      removed := cache.DeleteMatching(Matcher(s), limit, order);
    }

    /** Makes room in a full cache. */
    method Evict(now: int, order: seq<string>, another: seq<string>)
      requires Valid() && count > 0 && Enumerates(order, cache.memory) && Enumerates(another, cache.memory)
      modifies this`count, cache
      ensures Valid() && count < old(count) && Evicted(old(cache.memory), cache.memory, now)
    {
      hide Taken, Range, Enumerates, Evicted, Matcher, IndexedMap.Valid;
      ghost var before := cache.memory;
      SweepExpired(before, now, order);
      var removed := Sweep(Expired(now), MAX_EXPIRED, order);
      if removed == 0 {
        SweepAny(before, now, another);
        removed := Sweep(Everything, MAX_SWEPT, another);
      }
      Uncount(removed);
    }

    method StoreIfCurrent(key: string, entry: AuthEntry, computed: nat, now: int, storable: bool,
                          order: seq<string>, another: seq<string>)
      requires Valid() && Enumerates(order, cache.memory) && Enumerates(another, cache.memory)
      modifies this`count, cache
      ensures Valid()
      ensures StoreStep(old(cache.memory), generation, computed, key, entry, now, cache.memory)
    {
      hide Enumerates, Agrees, Evicted;
      if computed != generation { return; }
      var known := cache.Contains(key);
      if known {
        ReplacedSize(cache.memory, key, entry);
        cache.StoreTTL(key, entry, storable);
        return;
      }
      if count >= MAX_ENTRIES {
        Evict(now, order, another);
        EvictedLacks(old(cache.memory), cache.memory, now, key);
      }
      AddedSize(cache.memory, key, entry);
      cache.StoreTTL(key, entry, storable);
      count := Add64(count, 1);
    }

    method Delete(key: string)
      requires Valid()
      modifies this, cache
      ensures Valid() && generation == old(generation) + 1
      ensures InvalidateStep(old(cache.memory), Credential(key), cache.memory)
    {
      hide Agrees, Later, IndexedMap.Valid;
      generation := generation + 1;
      RemovedSize(cache.memory, key);
      var loaded := cache.LoadAndDelete(key);
      if loaded { Uncount(1); }
    }

    method Clear(order: seq<string>)
      requires Valid() && Enumerates(order, cache.memory)
      modifies this, cache
      ensures Valid() && generation == old(generation) + 1 && cache.memory == map[]
      ensures InvalidateStep(old(cache.memory), Everything, cache.memory)
    {
      hide Taken, Range, Enumerates, Matcher, IndexedMap.Valid;
      generation := generation + 1;
      TakenAllInvalidates(cache.memory, Everything, order);
      var removed := Sweep(Everything, 0, order);
      count := 0;
    }

    method DeleteWhere(s: Selection, order: seq<string>) returns (removed: nat)
      requires Valid() && Enumerates(order, cache.memory)
      modifies this, cache
      ensures Valid() && generation == old(generation) + 1
      ensures InvalidateStep(old(cache.memory), s, cache.memory)
      ensures removed == |old(cache.memory)| - |cache.memory|
    {
      hide Taken, Range, InvalidateStep, Matcher, IndexedMap.Valid;
      generation := generation + 1;
      TakenAllInvalidates(cache.memory, s, order);
      TakenCount(order, cache.memory, Matcher(s), 0);
      removed := Sweep(s, 0, order);
      Uncount(removed);
    }
  }
}
