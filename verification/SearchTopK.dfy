/**
 Bounded search: only the best candidates are kept, in order, while the walk goes on.
 */
module SearchTopK {
  /** A candidate, by what ranks it. */
  datatype Match = Match(rank: int, path: string, folded: string)

  /** Byte order. */
  predicate Less(a: string, b: string) {
    b != "" && (a == "" || a[0] < b[0] || (a[0] == b[0] && Less(a[1..], b[1..])))
  }

  predicate Better(a: Match, b: Match) {
    if a.rank != b.rank then a.rank < b.rank
    else if |a.path| != |b.path| then |a.path| < |b.path|
    else if a.folded != b.folded then Less(a.folded, b.folded)
    else Less(a.path, b.path)
  }

  lemma {:induction false} LessTotal(a: string, b: string)
    ensures Less(a, b) ==> !Less(b, a)
    ensures a != b ==> Less(a, b) || Less(b, a)
    ensures !Less(a, a)
  {
    if a != "" && b != "" {
      LessTotal(a[1..], b[1..]);
      assert a == [a[0]] + a[1..] && b == [b[0]] + b[1..];
    }
    if a != "" { LessTotal(a[1..], a[1..]); }
  }

  lemma {:induction false} LessTransitive(a: string, b: string, c: string)
    requires Less(a, b) && Less(b, c)
    ensures Less(a, c)
  {
    if a != "" && a[0] == b[0] == c[0] { LessTransitive(a[1..], b[1..], c[1..]); }
  }

  /** Better is a strict total order on candidates of different paths. */
  lemma BetterIsStrictTotal(a: Match, b: Match, c: Match)
    ensures !Better(a, a) && (Better(a, b) ==> !Better(b, a))
    ensures Better(a, b) && Better(b, c) ==> Better(a, c)
    ensures a.path != b.path ==> Better(a, b) || Better(b, a)
  {
    LessTotal(a.folded, b.folded);
    LessTotal(a.path, b.path);
    LessTotal(a.path, a.path);
    if Less(a.folded, b.folded) && Less(b.folded, c.folded) { LessTransitive(a.folded, b.folded, c.folded); }
    if Less(a.path, b.path) && Less(b.path, c.path) { LessTransitive(a.path, b.path, c.path); }
    LessTotal(b.folded, c.folded);
  }

  ghost predicate Sorted(s: seq<Match>) {
    forall i, j :: 0 <= i < j < |s| ==> Better(s[i], s[j])
  }

  ghost predicate DistinctPaths(s: seq<Match>) {
    forall i, j :: 0 <= i < j < |s| ==> s[i].path != s[j].path
  }

  // ----- Sorting everything

  /** The first place whose occupant the candidate beats. */
  function Place(s: seq<Match>, c: Match): (at: nat)
    ensures at <= |s|
    ensures forall i :: 0 <= i < at ==> !Better(c, s[i])
    ensures at < |s| ==> Better(c, s[at])
  {
    if s == [] || Better(c, s[0]) then 0 else 1 + Place(s[1..], c)
  }

  lemma PlaceHolds(s: seq<Match>, c: Match)
    ensures Place(s, c) <= |s| && (forall i :: 0 <= i < Place(s, c) ==> !Better(c, s[i]))
    ensures Place(s, c) < |s| ==> Better(c, s[Place(s, c)])
  {
  }

  lemma {:induction false} PlaceIsFirst(s: seq<Match>, c: Match, at: nat)
    requires at <= |s| && (forall i :: 0 <= i < at ==> !Better(c, s[i])) && (at < |s| ==> Better(c, s[at]))
    ensures Place(s, c) == at
  {
    if at > 0 { PlaceIsFirst(s[1..], c, at - 1); }
  }

  function Insert(s: seq<Match>, c: Match): seq<Match> {
    s[..Place(s, c)] + [c] + s[Place(s, c)..]
  }

  /** All candidates, sorted one after another. */
  function SortAll(candidates: seq<Match>): (sorted: seq<Match>)
    ensures |sorted| == |candidates|
  {
    if candidates == [] then []
    else Insert(SortAll(candidates[..|candidates| - 1]), candidates[|candidates| - 1])
  }

  /** What stands where once c is inserted. */
  lemma Inserted(s: seq<Match>, c: Match)
    ensures var at, r := Place(s, c), Insert(s, c);
            && |r| == |s| + 1 && r[at] == c
            && (forall i :: 0 <= i < at ==> r[i] == s[i])
            && (forall i :: at < i < |r| ==> r[i] == s[i - 1])
  {
  }

  lemma InsertSorts(s: seq<Match>, c: Match)
    requires Sorted(s) && forall i :: 0 <= i < |s| ==> s[i].path != c.path
    ensures Sorted(Insert(s, c))
  {
    hide Better, Insert;
    var at := Place(s, c);
    forall i | 0 <= i < at ensures Better(s[i], c) { BetterIsStrictTotal(s[i], c, c); }
    forall i | at <= i < |s| ensures Better(c, s[i]) { BetterIsStrictTotal(c, s[at], s[i]); }
    Inserted(s, c);
  }

  lemma InsertAdds(s: seq<Match>, c: Match)
    ensures multiset(Insert(s, c)) == multiset(s) + multiset{c}
  {
    assert s == s[..Place(s, c)] + s[Place(s, c)..];
  }

  lemma LastIsNew(candidates: seq<Match>, others: seq<Match>)
    requires candidates != [] && DistinctPaths(candidates) && multiset(others) == multiset(candidates[..|candidates| - 1])
    ensures forall i :: 0 <= i < |others| ==> others[i].path != candidates[|candidates| - 1].path
  {
    var n := |candidates| - 1;
    forall i | 0 <= i < |others| ensures others[i].path != candidates[n].path {
      assert others[i] in multiset(others);
      assert others[i] in candidates[..n];
      var j :| 0 <= j < n && candidates[..n][j] == others[i];
      assert candidates[j] == others[i];
    }
  }

  /** The result is sorted, and a permutation of the candidates. */
  lemma {:induction false} SortAllSorts(candidates: seq<Match>)
    requires DistinctPaths(candidates)
    ensures Sorted(SortAll(candidates)) && multiset(SortAll(candidates)) == multiset(candidates)
  {
    if candidates != [] {
      hide Sorted, Insert;
      var n := |candidates| - 1;
      var sorted := SortAll(candidates[..n]);
      SortAllSorts(candidates[..n]);
      assert candidates == candidates[..n] + [candidates[n]];
      LastIsNew(candidates, sorted);
      InsertSorts(sorted, candidates[n]);
      InsertAdds(sorted, candidates[n]);
    }
  }

  lemma SameFirst(s: seq<Match>, t: seq<Match>)
    requires Sorted(s) && Sorted(t) && multiset(s) == multiset(t) && s != [] && t != []
    ensures s[0] == t[0]
  {
    assert s[0] in multiset(t) && t[0] in multiset(s);
    var i :| 0 <= i < |t| && t[i] == s[0];
    var j :| 0 <= j < |s| && s[j] == t[0];
    BetterIsStrictTotal(s[0], t[0], s[0]);
  }

  lemma TailMultiset(s: seq<Match>)
    requires s != []
    ensures multiset(s[1..]) == multiset(s) - multiset{s[0]}
  {
    assert s == [s[0]] + s[1..];
  }

  /** There is only one way to sort candidates. */
  lemma {:induction false} SortedIsUnique(s: seq<Match>, t: seq<Match>)
    requires Sorted(s) && Sorted(t) && multiset(s) == multiset(t)
    ensures s == t
  {
    hide Better;
    assert |s| == |multiset(s)| == |multiset(t)| == |t|;
    if s != [] {
      SameFirst(s, t);
      TailMultiset(s);
      TailMultiset(t);
      SortedIsUnique(s[1..], t[1..]);
      assert s == [s[0]] + s[1..] && t == [t[0]] + t[1..];
    }
  }

  // ----- Keeping only the best

  /** Binary search for the place, as the standard library does it. */
  method Search(matches: array<Match>, n: nat, c: Match) returns (at: nat)
    requires n <= matches.Length && Sorted(matches[..n])
    ensures at == Place(matches[..n], c)
  {
    var low, high := 0, n;
    while low < high
      invariant 0 <= low <= high <= n
      invariant forall i :: 0 <= i < low ==> !Better(c, matches[i])
      invariant forall i :: high <= i < n ==> Better(c, matches[i])
    {
      var mid := (low + high) / 2;
      assert forall i :: 0 <= i < n ==> matches[..n][i] == matches[i];
      if !Better(c, matches[mid]) {
        forall i | 0 <= i < mid ensures !Better(c, matches[i]) {
          assert Better(matches[..n][i], matches[..n][mid]);
          BetterIsStrictTotal(c, matches[i], matches[mid]);
        }
        low := mid + 1;
      } else {
        forall i | mid < i < n ensures Better(c, matches[i]) {
          assert Better(matches[..n][mid], matches[..n][i]);
          BetterIsStrictTotal(c, matches[mid], matches[i]);
        }
        high := mid;
      }
    }
    at := low;
    PlaceIsFirst(matches[..n], c, at);
  }

  function Min(a: nat, b: nat): nat { if a < b then a else b }

  /** What the full list keeps in its first places does not depend on the places behind them. */
  lemma InsertIntoPrefix(s: seq<Match>, c: Match, limit: nat)
    ensures var kept := s[..Min(limit, |s|)];
            var next := Insert(s, c)[..Min(limit, |s| + 1)];
            if Place(kept, c) >= limit then next == kept else next == Insert(kept, c)[..Min(limit, |s| + 1)]
  {
    hide Insert, Better, Place;
    var kept := s[..Min(limit, |s|)];
    PlaceHolds(s, c);
    Inserted(s, c);
    Inserted(kept, c);
    PlaceIsFirst(kept, c, Min(Place(s, c), |kept|));
  }

  /** Moves the tail one place up and puts the candidate in front of it; with the array full, the last
      match drops out. */
  method InsertAt(matches: array<Match>, n: nat, at: nat, c: Match) returns (n': nat)
    requires n <= matches.Length && at <= n && at < matches.Length
    requires at == Place(matches[..n], c)
    modifies matches
    ensures n' == Min(matches.Length, n + 1)
    ensures matches[..n'] == Insert(old(matches[..n]), c)[..n']
  {
    hide Better, Insert, Place;
    Inserted(matches[..n], c);
    n' := if n < matches.Length then n + 1 else n;
    forall i | at < i < n' { matches[i] := matches[i - 1]; }
    matches[at] := c;
  }

  /** The best of the first k candidates. */
  function Best(candidates: seq<Match>, k: nat, limit: nat): seq<Match>
    requires k <= |candidates|
  {
    SortAll(candidates[..k])[..Min(limit, k)]
  }

  lemma BestOfNext(candidates: seq<Match>, k: nat, limit: nat)
    requires DistinctPaths(candidates) && k < |candidates|
    ensures var kept, next := Best(candidates, k, limit), Best(candidates, k + 1, limit);
            && Sorted(kept) && |kept| == Min(limit, k)
            && next == if Place(kept, candidates[k]) >= limit then kept else Insert(kept, candidates[k])[..Min(limit, k + 1)]
  {
    hide Better, Insert, Place;
    assert candidates[..k + 1][..k] == candidates[..k];
    SortAllSorts(candidates[..k]);
    InsertIntoPrefix(SortAll(candidates[..k]), candidates[k], limit);
  }

  /** The walk, over the candidates it finds: what is left at the end are the first places of all the
      candidates sorted. */
  method BestMatches(candidates: seq<Match>, limit: nat) returns (best: seq<Match>)
    requires DistinctPaths(candidates) && limit >= 1
    ensures best == SortAll(candidates)[..Min(limit, |candidates|)]
  {
    hide Better, Insert, Place, Best, SortAll, Sorted, DistinctPaths;
    var matches := new Match[limit](_ => Match(0, "", ""));
    var n: nat := 0;
    NoneIsBest(candidates, limit);
    for k := 0 to |candidates|
      invariant n == Min(limit, k) && matches.Length == limit && fresh(matches)
      invariant matches[..n] == Best(candidates, k, limit)
    {
      BestOfNext(candidates, k, limit);
      var at := Search(matches, n, candidates[k]);
      if at >= limit { continue; }
      n := InsertAt(matches, n, at, candidates[k]);
    }
    best := matches[..n];
  }

  lemma NoneIsBest(candidates: seq<Match>, limit: nat)
    ensures Best(candidates, 0, limit) == []
    ensures Best(candidates, |candidates|, limit) == SortAll(candidates)[..Min(limit, |candidates|)]
  {
    assert candidates[..|candidates|] == candidates;
  }

  /** Whatever the order of the walk, the same candidates give the same matches: the first of any list
      that holds them sorted. */
  lemma BestOfAnyOrder(candidates: seq<Match>, sorted: seq<Match>, limit: nat)
    requires DistinctPaths(candidates) && Sorted(sorted) && multiset(sorted) == multiset(candidates)
    ensures SortAll(candidates)[..Min(limit, |candidates|)] == sorted[..Min(limit, |sorted|)]
  {
    SortAllSorts(candidates);
    SortedIsUnique(SortAll(candidates), sorted);
  }
}
