/**
 The addresses a device was last seen at: a list that is updated from its own truncation
 and still equals the truncation of the list that forgets nothing.
 */
module DeviceAccess {
  type Address = string

  const KEPT: nat := 10

  function Without(l: seq<Address>, ip: Address): (r: seq<Address>)
    ensures |r| <= |l|
  {
    if l == [] then []
    else Without(l[..|l| - 1], ip) + (if l[|l| - 1] != ip then [l[|l| - 1]] else [])
  }

  /** The most recently seen addresses, the latest first, each once; an empty address is none. */
  function Recent(history: seq<Address>): seq<Address> {
    if history == [] then []
    else
      var earlier, ip := Recent(history[..|history| - 1]), history[|history| - 1];
      if ip == "" then earlier else [ip] + Without(earlier, ip)
  }

  function Take(l: seq<Address>, n: nat): seq<Address> {
    if |l| <= n then l else l[..n]
  }

  ghost predicate Distinct(l: seq<Address>) {
    forall i, j :: 0 <= i < j < |l| ==> l[i] != l[j]
  }

  lemma DistinctOneMore(l: seq<Address>, x: Address)
    ensures Distinct(l + [x]) <==> Distinct(l) && x !in l
  {
    var r := l + [x];
    assert forall i :: 0 <= i < |l| ==> r[i] == l[i];
    assert r[|l|] == x;
  }

  lemma {:induction false} WithoutKeeps(l: seq<Address>, ip: Address)
    ensures forall x :: x in Without(l, ip) <==> x in l && x != ip
  {
    if l != [] {
      WithoutKeeps(l[..|l| - 1], ip);
      assert l == l[..|l| - 1] + [l[|l| - 1]];
    }
  }

  lemma {:induction false} WithoutLacks(l: seq<Address>, ip: Address)
    requires Distinct(l)
    ensures Distinct(Without(l, ip)) && |Without(l, ip)| == if ip in l then |l| - 1 else |l|
  {
    hide Distinct;
    if l != [] {
      var rest, last := l[..|l| - 1], l[|l| - 1];
      assert l == rest + [last];
      DistinctOneMore(rest, last);
      WithoutLacks(rest, ip);
      WithoutKeeps(rest, ip);
      DistinctOneMore(Without(rest, ip), last);
      assert Without(rest, ip) + [] == Without(rest, ip);
    } else {
      NothingDistinct();
    }
  }

  lemma NothingDistinct()
    ensures Distinct([])
  {
  }

  lemma {:induction false} WithoutAppended(a: seq<Address>, c: seq<Address>, ip: Address)
    ensures Without(a + c, ip) == Without(a, ip) + Without(c, ip)
  {
    if c == [] {
      assert a + c == a;
    } else {
      assert (a + c)[..|a + c| - 1] == a + c[..|c| - 1];
      WithoutAppended(a, c[..|c| - 1], ip);
    }
  }

  /** The history in terms of what was seen: no address is listed twice, and every one seen is listed. */
  lemma {:induction false} RecentListsEach(history: seq<Address>)
    ensures Distinct(Recent(history))
    ensures forall ip :: ip in Recent(history) <==> ip in history && ip != ""
  {
    if history != [] {
      var n := |history| - 1;
      RecentListsEach(history[..n]);
      WithoutKeeps(Recent(history[..n]), history[n]);
      WithoutLacks(Recent(history[..n]), history[n]);
      assert history == history[..n] + [history[n]];
    }
  }

  /** When an address was last seen. */
  function LastSeen(history: seq<Address>, ip: Address): int {
    if history == [] then -1
    else if history[|history| - 1] == ip then |history| - 1
    else LastSeen(history[..|history| - 1], ip)
  }

  ghost predicate LatestFirst(history: seq<Address>, l: seq<Address>) {
    forall i, j :: 0 <= i < j < |l| ==> LastSeen(history, l[i]) > LastSeen(history, l[j])
  }

  ghost predicate AllAfter(history: seq<Address>, l: seq<Address>, x: Address) {
    forall y :: y in l ==> LastSeen(history, y) > LastSeen(history, x)
  }

  lemma LatestFirstOneMore(history: seq<Address>, l: seq<Address>, x: Address)
    requires LatestFirst(history, l) && AllAfter(history, l, x)
    ensures LatestFirst(history, l + [x])
  {
    hide LastSeen;
    var r := l + [x];
    forall i, j | 0 <= i < j < |r| ensures LastSeen(history, r[i]) > LastSeen(history, r[j]) {
      assert r[i] == l[i] && l[i] in l;
    }
  }

  lemma LatestFirstOneLess(history: seq<Address>, l: seq<Address>)
    requires LatestFirst(history, l) && l != []
    ensures LatestFirst(history, l[..|l| - 1]) && AllAfter(history, l[..|l| - 1], l[|l| - 1])
  {
  }

  lemma {:induction false} WithoutLatestFirst(history: seq<Address>, l: seq<Address>, ip: Address)
    requires LatestFirst(history, l)
    ensures LatestFirst(history, Without(l, ip))
  {
    hide LastSeen, LatestFirst;
    if l != [] {
      var rest, last := l[..|l| - 1], l[|l| - 1];
      LatestFirstOneLess(history, l);
      WithoutLatestFirst(history, rest, ip);
      WithoutKeeps(rest, ip);
      if last != ip { LatestFirstOneMore(history, Without(rest, ip), last); }
      assert Without(rest, ip) + [] == Without(rest, ip);
    }
  }

  lemma {:induction false} SeenBefore(history: seq<Address>, ip: Address)
    ensures -1 <= LastSeen(history, ip) < |history|
  {
    if history != [] { SeenBefore(history[..|history| - 1], ip); }
  }

  /** The list is ordered by when each address was last seen. */
  lemma {:induction false} RecentIsLatestFirst(history: seq<Address>)
    ensures LatestFirst(history, Recent(history))
  {
    if history != [] {
      var n := |history| - 1;
      var ip, earlier, now := history[n], Recent(history[..n]), Recent(history);
      RecentIsLatestFirst(history[..n]);
      RecentListsEach(history[..n]);
      WithoutLatestFirst(history[..n], earlier, ip);
      WithoutKeeps(earlier, ip);
      var tail := if ip == "" then earlier else Without(earlier, ip);
      forall x | x != ip ensures LastSeen(history, x) == LastSeen(history[..n], x) < n { SeenBefore(history[..n], x); }
      forall i | 0 <= i < |tail| ensures tail[i] != ip { assert tail[i] in tail; }
      assert LatestFirst(history, tail);
    }
  }

  /** What the truncation forgets never comes back: touching an address in the truncated list gives
      the truncation of touching it in the whole list. */
  lemma TouchTruncated(l: seq<Address>, ip: Address)
    requires Distinct(l)
    ensures Take([ip] + Without(Take(l, KEPT), ip), KEPT) == Take([ip] + Without(l, ip), KEPT)
  {
    if |l| > KEPT {
      var a, c := l[..KEPT], l[KEPT..];
      assert l == a + c;
      WithoutAppended(a, c, ip);
      WithoutLacks(a, ip);
      assert |Without(a, ip)| >= KEPT - 1;
    }
  }

  /** The list of one device, with the history it comes from. */
  class DeviceRecord {
    var addresses: seq<Address>
    var lastActive: int
    ghost var history: seq<Address>

    ghost predicate Valid()
      reads this
    {
      addresses == Take(Recent(history), KEPT)
    }

    constructor (ip: Address, now: int)
      ensures Valid() && history == [ip] && lastActive == now
    {
      addresses := if ip != "" then [ip] else [];
      lastActive, history := now, [ip];
    }

    /** The address moves to the front, or enters there. */
    method Access(ip: Address, now: int)
      requires Valid()
      modifies this
      ensures Valid() && history == old(history) + [ip] && lastActive == now
    {
      RecentListsEach(history);
      TouchTruncated(Recent(history), ip);
      assert (history + [ip])[..|history|] == history;
      if ip != "" {
        var updated := [ip];
        for i := 0 to |addresses|
          invariant updated == Take([ip] + Without(addresses[..i], ip), KEPT)
        {
          assert addresses[..i + 1][..i] == addresses[..i];
          var existing := addresses[i];
          if existing != ip && |updated| < KEPT {
            updated := updated + [existing];
          }
        }
        assert addresses[..|addresses|] == addresses;
        addresses := updated;
      }
      lastActive, history := now, history + [ip];
    }
  }
}
