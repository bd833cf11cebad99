/**
 What every collection pass does to a digest nobody references, and how many passes
 remove it for good.
 */
module ContentStoreCollection {
  import opened ContentStore
  import opened ContentStoreSafety
  import opened ContentStoreTheorems
  import opened ContentStoreProgress

  /** A marker the collector can read and will find stale. */
  predicate Stale(r: Remote, k: Key, d: Digest) {
    && 1 <= |k| <= MARKER_LIMIT
    && (k in r.objects ==> !ReadReference(r.objects[k]).Invalid? && ReadReference(r.objects[k]) != Names(d))
  }

  ghost predicate Collectible(r: Remote, d: Digest) {
    forall k :: k in MarkedKeys(r, d) ==> Stale(r, k, d)
  }

  /** The bucket after one undisturbed pass over d. A pass stops at the marker limit; one that
      sees the last marker goes on to write the garbage mark, to wait, or to retire the payload. */
  ghost predicate PassResult(r: Remote, r': Remote, d: Digest, now: int, clock: int, grace: bool) {
    && r'.objects == r.objects
    && (forall e :: e != d ==> Untouched(r, r', e))
    && MarkedKeys(r', d) <= MarkedKeys(r, d)
    && if |MarkedKeys(r, d)| > PASS_LIMIT then
         && |MarkedKeys(r', d)| == |MarkedKeys(r, d)| - PASS_LIMIT
         && (d in r'.blobs <==> d in r.blobs)
         && (d in r'.marks <==> d in r.marks) && (d in r.marks ==> r'.marks[d] == r.marks[d])
       else
         && MarkedKeys(r', d) == {}
         && if grace && d !in r.marks then
              d in r'.marks && r'.marks[d] == clock && (d in r'.blobs <==> d in r.blobs)
            else if grace && now - r.marks[d] < GRACE then
              d in r'.marks && r'.marks[d] == r.marks[d] && (d in r'.blobs <==> d in r.blobs)
            else
              d !in r'.blobs && d !in r'.marks
  }

  // ----- Listings and markers

  /** A listing names every marked key once, in any order. */
  ghost predicate Lists(r: Remote, d: Digest, listing: seq<Key>) {
    && (forall k :: k in listing <==> k in MarkedKeys(r, d))
    && (forall i, j :: 0 <= i < j < |listing| ==> listing[i] != listing[j])
  }

  function Without(r: Remote, d: Digest, keys: seq<Key>): Remote {
    r.(markers := set m | m in r.markers && !(m.0 == d && m.1 in keys))
  }

  lemma {:induction false} DistinctKeys(keys: seq<Key>)
    requires forall i, j :: 0 <= i < j < |keys| ==> keys[i] != keys[j]
    ensures |set k | k in keys| == |keys|
  {
    if keys == [] {
      assert (set k | k in keys) == {};
    } else {
      DistinctKeys(keys[1..]);
      assert (set k | k in keys) == {keys[0]} + (set k | k in keys[1..]);
    }
  }

  lemma MarkedIff(r: Remote, d: Digest, k: Key)
    ensures k in MarkedKeys(r, d) <==> (d, k) in r.markers
  {
    if (d, k) in r.markers {
      var m := (d, k);
      assert m in r.markers && m.0 == d;
    }
  }

  lemma WithoutKeys(r: Remote, d: Digest, listing: seq<Key>, m: nat)
    requires m <= |listing| && Lists(r, d, listing)
    ensures |MarkedKeys(r, d)| == |listing|
    ensures MarkedKeys(Without(r, d, listing[..m]), d) <= MarkedKeys(r, d)
    ensures |MarkedKeys(Without(r, d, listing[..m]), d)| == |listing| - m
    ensures m == |listing| ==> MarkedKeys(Without(r, d, listing[..m]), d) == {}
  {
    DistinctKeys(listing);
    DistinctKeys(listing[m..]);
    var r' := Without(r, d, listing[..m]);
    assert MarkedKeys(r, d) == set k | k in listing;
    forall k ensures k in MarkedKeys(r', d) <==> k in listing[m..] {
      MarkedIff(r, d, k);
      MarkedIff(r', d, k);
      assert listing == listing[..m] + listing[m..];
    }
    assert MarkedKeys(r', d) == set k | k in listing[m..];
  }

  /** The part of a pass after its last marker. */
  function Retired(r: Remote, d: Digest, now: int, clock: int, grace: bool): Remote {
    if grace && d !in r.marks then r.(marks := r.marks[d := clock])
    else if grace && now - r.marks[d] < GRACE then r
    else r.(blobs := r.blobs - {d}, marks := r.marks - {d})
  }

  /** Dropping the first m markers and then, if none is left, retiring. */
  lemma ScanResult(r: Remote, d: Digest, listing: seq<Key>, m: nat, now: int, clock: int, grace: bool)
    requires Lists(r, d, listing)
    requires m == if |listing| <= PASS_LIMIT then |listing| else PASS_LIMIT
    ensures var r1 := Without(r, d, listing[..m]);
            PassResult(r, if m == |listing| then Retired(r1, d, now, clock, grace) else r1, d, now, clock, grace)
  {
    WithoutKeys(r, d, listing, m);
    var r1 := Without(r, d, listing[..m]);
    var r2 := Retired(r1, d, now, clock, grace);
    assert MarkedKeys(r2, d) == MarkedKeys(r1, d);
  }

  // ----- Every pass

  /** All markers are gone, and nothing else has changed yet. */
  ghost predicate Emptied(r0: Remote, r: Remote, d: Digest, listing: seq<Key>) {
    Lists(r0, d, listing) && |listing| <= PASS_LIMIT && r == Without(r0, d, listing)
  }

  predicate Ripe(r: Remote, op: Op)
    requires op.Collector?
  {
    op.grace ==> op.target in r.marks && op.now - r.marks[op.target] >= GRACE
  }

  /** Where an undisturbed pass that began in bucket r0 stands: at its v-th marker, past the last
      one, or at its end. */
  ghost predicate Reached(r0: Remote, r: Remote, clock: int, op: Op, listing: seq<Key>)
    requires op.Collector?
  {
    var d := op.target;
    match op.phase
    case WantBlob => r == r0
    case List => r == r0
    case Read(todo, v) =>
      Lists(r0, d, listing) && v <= PASS_LIMIT && v <= |listing| && todo == listing[v..] && r == Without(r0, d, listing[..v])
    case Check(todo, v) =>
      Lists(r0, d, listing) && 1 <= v <= PASS_LIMIT && v <= |listing| && todo == listing[v - 1..] && r == Without(r0, d, listing[..v - 1])
    case Drop(todo, v) =>
      Lists(r0, d, listing) && 1 <= v <= PASS_LIMIT && v <= |listing| && todo == listing[v - 1..] && r == Without(r0, d, listing[..v - 1])
    case KeepPayload => false
    case StatMark => Emptied(r0, r, d, listing) && op.grace
    case PutMark => Emptied(r0, r, d, listing) && op.grace && d !in r.marks
    case DeleteData => Emptied(r0, r, d, listing) && Ripe(r, op)
    case DeleteMark => Emptied(r0, r.(blobs := r0.blobs), d, listing) && Ripe(r, op) && r.blobs == r0.blobs - {d}
    case FreeBlob(ok) => ok && PassResult(r0, r, d, op.now, clock, op.grace)
    case Ended(ok) => ok && PassResult(r0, r, d, op.now, clock, op.grace)
  }

  predicate Looping(phase: CollectorStep) { phase.Read? || phase.Check? || phase.Drop? }

  lemma ListStep(env: Env, r: Remote, clock: int, op: Op, c: Choice)
    requires op.Collector? && op.phase.List? && c.out == Ok && Honest(env, r, clock, op, c)
    ensures Reached(r, CollectorRemote(r, clock, op, c), clock, op.(phase := CollectorPhase(r, op, c)), c.listing)
  {
    forall k ensures k in c.listing <==> k in MarkedKeys(r, op.target) { MarkedIff(r, op.target, k); }
    assert Without(r, op.target, c.listing[..0]) == r;
  }

  lemma LastRead(r0: Remote, r: Remote, clock: int, op: Op, listing: seq<Key>, c: Choice)
    requires op.Collector? && op.phase.Read? && Reached(r0, r, clock, op, listing) && c.out == Ok
    requires op.phase.todo == [] || op.phase.visited >= PASS_LIMIT
    ensures Reached(r0, CollectorRemote(r, clock, op, c), clock, op.(phase := CollectorPhase(r, op, c)), listing)
  {
    hide Lists, PassResult;
    if op.phase.todo == [] {
      assert listing[..op.phase.visited] == listing;
    } else {
      ScanResult(r0, op.target, listing, PASS_LIMIT, op.now, clock, op.grace);
    }
  }

  lemma ReadOne(r0: Remote, r: Remote, clock: int, op: Op, listing: seq<Key>, c: Choice)
    requires op.Collector? && op.phase.Read? && Reached(r0, r, clock, op, listing) && c.out == Ok
    requires op.phase.todo != [] && op.phase.visited < PASS_LIMIT && Stale(r0, op.phase.todo[0], op.target)
    ensures Reached(r0, CollectorRemote(r, clock, op, c), clock, op.(phase := CollectorPhase(r, op, c)), listing)
  {
    hide Lists, PassResult, Emptied;
  }

  lemma CheckOne(r0: Remote, r: Remote, clock: int, op: Op, listing: seq<Key>, c: Choice)
    requires op.Collector? && op.phase.Check? && Reached(r0, r, clock, op, listing) && c.out == Ok
    requires op.phase.todo != [] && Stale(r0, op.phase.todo[0], op.target)
    ensures Reached(r0, CollectorRemote(r, clock, op, c), clock, op.(phase := CollectorPhase(r, op, c)), listing)
  {
    hide Lists, PassResult, Emptied;
  }

  lemma DropOne(r0: Remote, r: Remote, clock: int, op: Op, listing: seq<Key>, c: Choice)
    requires op.Collector? && op.phase.Drop? && Reached(r0, r, clock, op, listing) && c.out == Ok
    ensures Reached(r0, CollectorRemote(r, clock, op, c), clock, op.(phase := CollectorPhase(r, op, c)), listing)
  {
    hide Lists, PassResult, Emptied;
    var d, v, todo := op.target, op.phase.visited, op.phase.todo;
    assert listing[..v] == listing[..v - 1] + [todo[0]];
    assert Without(r0, d, listing[..v]) == r.(markers := r.markers - {(d, todo[0])});
  }

  /** A listed marker is stale. */
  lemma ListedIsStale(r0: Remote, d: Digest, listing: seq<Key>, i: nat)
    requires Collectible(r0, d) && Lists(r0, d, listing) && i < |listing|
    ensures Stale(r0, listing[i], d)
  {
  }

  lemma LoopStep(r0: Remote, r: Remote, clock: int, op: Op, listing: seq<Key>, c: Choice)
    requires op.Collector? && Looping(op.phase) && Reached(r0, r, clock, op, listing) && c.out == Ok
    requires Collectible(r0, op.target)
    ensures Reached(r0, CollectorRemote(r, clock, op, c), clock, op.(phase := CollectorPhase(r, op, c)), listing)
  {
    hide Lists, PassResult, Emptied, CollectorRemote, CollectorPhase, Stale, Collectible;
    match op.phase
    case Read(todo, v) =>
      if todo == [] || v >= PASS_LIMIT {
        LastRead(r0, r, clock, op, listing, c);
      } else {
        ListedIsStale(r0, op.target, listing, v);
        ReadOne(r0, r, clock, op, listing, c);
      }
    case Check(todo, v) =>
      ListedIsStale(r0, op.target, listing, v - 1);
      CheckOne(r0, r, clock, op, listing, c);
    case Drop(_, _) =>
      DropOne(r0, r, clock, op, listing, c);
  }

  lemma RetiringStep(r0: Remote, r: Remote, clock: int, op: Op, listing: seq<Key>, c: Choice)
    requires op.Collector? && Reached(r0, r, clock, op, listing) && c.out == Ok
    requires op.phase.StatMark? || op.phase.PutMark? || op.phase.DeleteData? || op.phase.DeleteMark?
    ensures Reached(r0, CollectorRemote(r, clock, op, c), clock, op.(phase := CollectorPhase(r, op, c)), listing)
  {
    assert listing[..|listing|] == listing;
    ScanResult(r0, op.target, listing, |listing|, op.now, clock, op.grace);
  }

  lemma PassStep(env: Env, r0: Remote, r: Remote, clock: int, op: Op, listing: seq<Key>, c: Choice) returns (listing': seq<Key>)
    requires op.Collector? && Reached(r0, r, clock, op, listing) && c.out == Ok && Honest(env, r, clock, op, c)
    requires Collectible(r0, op.target)
    ensures Reached(r0, CollectorRemote(r, clock, op, c), clock, op.(phase := CollectorPhase(r, op, c)), listing')
  {
    hide PassResult, Lists, Emptied;
    listing' := listing;
    if op.phase.List? {
      ListStep(env, r, clock, op, c);
      listing' := c.listing;
    } else if Looping(op.phase) {
      LoopStep(r0, r, clock, op, listing, c);
    } else if op.phase.StatMark? || op.phase.PutMark? || op.phase.DeleteData? || op.phase.DeleteMark? {
      RetiringStep(r0, r, clock, op, listing, c);
    }
  }

  /** The steps of one operation, none of which fails. */
  ghost predicate OwnMoves(steps: seq<Step>, id: Id) {
    forall i :: 0 <= i < |steps| ==> steps[i].Move? && steps[i].id == id && steps[i].choice.out == Ok
  }

  /** A pass that began in state s0 has come to state s, and nothing else has happened. */
  ghost predicate Passing(env: Env, s0: State, s: State, id: Id, listing: seq<Key>) {
    && id in s0.ops && s0.ops[id].Collector? && s0.ops[id].phase == WantBlob
    && id in s.ops && s.ops[id].Collector?
    && Reached(s0.remote, s.remote, s0.clock, s.ops[id], listing)
    && s.ops[id] == s0.ops[id].(phase := s.ops[id].phase)
    && env.contentStripe(s0.ops[id].target) !in s0.contents
    && s == State(s.remote, s0.targets, if s.ops[id].phase.WantBlob? || s.ops[id].phase.Ended? then s0.contents
                                         else s0.contents[env.contentStripe(s0.ops[id].target) := id],
                  s0.ops[id := s.ops[id]], s0.clock)
  }

  lemma MovePasses(env: Env, s0: State, s: State, id: Id, listing: seq<Key>, c: Choice) returns (listing': seq<Key>)
    requires Passing(env, s0, s, id, listing) && Enabled(env, s, id, c) && c.out == Ok
    requires Collectible(s0.remote, s0.ops[id].target)
    ensures Passing(env, s0, Advance(env, s, id, c), id, listing')
  {
    hide Collectible, Reached, CollectorRemote;
    listing' := PassStep(env, s0.remote, s.remote, s.clock, s.ops[id], listing, c);
    var x := env.contentStripe(s0.ops[id].target);
    var s' := Advance(env, s, id, c);
    assert s0.contents[x := id] - {x} == s0.contents;
    assert s0.ops[id := s.ops[id]][id := s'.ops[id]] == s0.ops[id := s'.ops[id]];
  }

  lemma {:induction false} MovesPass(env: Env, s0: State, s: State, id: Id, listing: seq<Key>, steps: seq<Step>, s': State)
    returns (listing': seq<Key>)
    requires Passing(env, s0, s, id, listing) && OwnMoves(steps, id) && Reaches(env, s, steps, s')
    requires Collectible(s0.remote, s0.ops[id].target)
    ensures Passing(env, s0, s', id, listing')
    decreases |steps|
  {
    hide Reached, Collectible;
    if steps == [] {
      listing' := listing;
    } else {
      listing' := MovePasses(env, s0, s, id, listing, steps[0].choice);
      listing' := MovesPass(env, s0, Advance(env, s, id, steps[0].choice), id, listing', steps[1..], s');
    }
  }

  /** Every undisturbed pass over a digest nobody references, in whichever order its markers are
      listed, ends in success, leaves every lock as it found it, and has exactly the stated effect. */
  lemma EveryPass(env: Env, s: State, id: Id, steps: seq<Step>, s': State, d: Digest, now: int, grace: bool)
    requires id in s.ops && s.ops[id] == Collector(d, now, grace, WantBlob)
    requires Collectible(s.remote, d)
    requires OwnMoves(steps, id) && Reaches(env, s, steps, s') && id in s'.ops && Finished(s'.ops[id])
    ensures s' == s.(remote := s'.remote, ops := s.ops[id := Collector(d, now, grace, Ended(true))])
    ensures PassResult(s.remote, s'.remote, d, now, s.clock, grace)
  {
    hide Collectible, PassResult;
    assert s.ops[id := s.ops[id]] == s.ops;
    assert steps != [];
    assert Enabled(env, s, id, steps[0].choice);
    var listing := MovesPass(env, s, s, id, [], steps, s');
  }

  lemma CollectorProgresses(r: Remote, op: Op, c: Choice)
    requires op.Collector? && !Finished(op)
    ensures var op' := op.(phase := CollectorPhase(r, op, c));
            Stages(op') < Stages(op) || (Stages(op') == Stages(op) && Rounds(op') < Rounds(op))
  {
  }

  /** The next call of a pass succeeds, and brings its end nearer. */
  lemma PassMoves(env: Env, s0: State, s: State, id: Id, listing: seq<Key>) returns (c: Choice, listing': seq<Key>)
    requires CanTag(env) && Passing(env, s0, s, id, listing) && Collectible(s0.remote, s0.ops[id].target) && !Finished(s.ops[id])
    ensures Enabled(env, s, id, c) && c.out == Ok && Passing(env, s0, Advance(env, s, id, c), id, listing')
    ensures var op, next := s.ops[id], Advance(env, s, id, c).ops[id];
            Stages(next) < Stages(op) || (Stages(next) == Stages(op) && Rounds(next) < Rounds(op))
  {
    hide Collectible, Reached;
    c := Success(env, s.ops[id], s.remote);
    assert Enabled(env, s, id, c);
    listing' := MovePasses(env, s0, s, id, listing, c);
    CollectorProgresses(s.remote, s.ops[id], c);
  }

  lemma {:induction false} PassFinishes(env: Env, s0: State, s: State, id: Id, listing: seq<Key>) returns (steps: seq<Step>, s': State)
    requires CanTag(env) && Passing(env, s0, s, id, listing) && Collectible(s0.remote, s0.ops[id].target)
    ensures OwnMoves(steps, id) && Reaches(env, s, steps, s') && id in s'.ops && Finished(s'.ops[id])
    decreases Stages(s.ops[id]), Rounds(s.ops[id])
  {
    hide Collectible, Reached, Enabled, Advance;
    if Finished(s.ops[id]) {
      steps, s' := [], s;
    } else {
      var c, listing' := PassMoves(env, s0, s, id, listing);
      var rest;
      rest, s' := PassFinishes(env, s0, Advance(env, s, id, c), id, listing');
      steps := [Move(id, c)] + rest;
      assert steps[1..] == rest;
    }
  }

  /** A pass that is left alone runs to its end. */
  lemma SoloPass(env: Env, s: State, id: Id, d: Digest, now: int, grace: bool)
    returns (steps: seq<Step>, s': State)
    requires CanTag(env)
    requires id in s.ops && s.ops[id] == Collector(d, now, grace, WantBlob)
    requires env.contentStripe(d) !in s.contents
    requires Collectible(s.remote, d)
    ensures OwnMoves(steps, id) && Reaches(env, s, steps, s')
    ensures s' == s.(remote := s'.remote, ops := s.ops[id := Collector(d, now, grace, Ended(true))])
    ensures PassResult(s.remote, s'.remote, d, now, s.clock, grace)
  {
    hide Collectible, PassResult;
    assert s.ops[id := s.ops[id]] == s.ops;
    steps, s' := PassFinishes(env, s, s, id, []);
    EveryPass(env, s, id, steps, s', d, now, grace);
  }

  // ----- Convergence

  /** Nothing of d is left in the bucket. */
  ghost predicate Gone(r: Remote, d: Digest) {
    MarkedKeys(r, d) == {} && d !in r.marks && d !in r.blobs
  }

  /** Grace-granting passes over d at the given times, undisturbed. */
  ghost predicate Passes(rs: seq<Remote>, times: seq<int>, d: Digest) {
    && |rs| == |times| + 1
    && (forall i :: 0 <= i < |times| ==> PassResult(rs[i], rs[i + 1], d, times[i], times[i], true))
    && (forall i, j :: 0 <= i <= j < |times| ==> times[i] <= times[j])
    && (times != [] && d in rs[0].marks ==> rs[0].marks[d] <= times[0])
  }

  lemma {:induction false} MarkersShrink(rs: seq<Remote>, times: seq<int>, d: Digest, p: nat, i: nat) returns (j: nat)
    requires Passes(rs, times, d) && 0 < i <= p <= |times|
    requires |MarkedKeys(rs[0], d)| <= p * PASS_LIMIT
    ensures j <= i
    ensures || Gone(rs[j], d)
            || (|MarkedKeys(rs[i], d)| <= (p - i) * PASS_LIMIT
                && (d in rs[i].marks ==> rs[i].marks[d] <= times[i - 1])
                && (MarkedKeys(rs[i], d) == {} && i == p ==> d in rs[i].marks))
  {
    if i == 1 {
      j := if Gone(rs[1], d) then 1 else 0;
    } else {
      j := MarkersShrink(rs, times, d, p, i - 1);
      if !Gone(rs[j], d) && Gone(rs[i], d) { j := i; }
    }
    assert PassResult(rs[i - 1], rs[i], d, times[i - 1], times[i - 1], true);
  }

  lemma ResultsConverge(rs: seq<Remote>, times: seq<int>, d: Digest, p: nat) returns (j: nat)
    requires Passes(rs, times, d) && 0 < p < |times|
    requires |MarkedKeys(rs[0], d)| <= p * PASS_LIMIT
    requires times[p - 1] + GRACE <= times[p]
    ensures j <= p + 1 && Gone(rs[j], d)
  {
    j := MarkersShrink(rs, times, d, p, p);
    assert PassResult(rs[p], rs[p + 1], d, times[p], times[p], true);
    if !Gone(rs[j], d) {
      assert MarkedKeys(rs[p], d) == {};
      j := p + 1;
    }
  }

  /** One pass of the machine and the time that passes after it. */
  datatype Visit = Visit(id: Id, steps: seq<Step>, wait: nat)

  /** The collector is begun at the present time, runs to its end without a fault, and time passes. */
  ghost predicate Visited(env: Env, s: State, v: Visit, s': State, d: Digest) {
    && v.id !in s.ops && OwnMoves(v.steps, v.id)
    && Reaches(env, s, [Begin(v.id, Collector(d, s.clock, true, WantBlob))] + v.steps + [Tick(v.wait)], s')
    && v.id in s'.ops && Finished(s'.ops[v.id])
  }

  /** A run of the machine in which one pass follows another. */
  ghost predicate Visits(env: Env, ss: seq<State>, visits: seq<Visit>, d: Digest) {
    |ss| == |visits| + 1 && forall i :: 0 <= i < |visits| ==> Visited(env, ss[i], visits[i], ss[i + 1], d)
  }

  /** Every pass of such a run has the effect of a pass, and leaves d collectible. */
  lemma VisitHasResult(env: Env, s: State, v: Visit, s': State, d: Digest)
    requires Visited(env, s, v, s', d) && Collectible(s.remote, d)
    ensures PassResult(s.remote, s'.remote, d, s.clock, s.clock, true)
    ensures s.clock <= s'.clock && Collectible(s'.remote, d)
  {
    hide Collectible, PassResult, Possible;
    var begin := Begin(v.id, Collector(d, s.clock, true, WantBlob));
    assert [begin] + v.steps + [Tick(v.wait)] == [begin] + (v.steps + [Tick(v.wait)]);
    assert ([begin] + (v.steps + [Tick(v.wait)]))[1..] == v.steps + [Tick(v.wait)];
    var began := Apply(env, s, begin);
    var ended := ReachesSplit(env, began, v.steps, [Tick(v.wait)], s');
    assert [Tick(v.wait)][1..] == [];
    assert s' == Apply(env, ended, Tick(v.wait));
    EveryPass(env, began, v.id, v.steps, ended, d, s.clock, true);
    StaysCollectible(s.remote, s'.remote, d, s.clock, s.clock, true);
  }

  lemma StaysCollectible(r: Remote, r': Remote, d: Digest, now: int, clock: int, grace: bool)
    requires Collectible(r, d) && PassResult(r, r', d, now, clock, grace)
    ensures Collectible(r', d)
  {
  }

  lemma {:induction false} VisitsHaveResults(env: Env, ss: seq<State>, visits: seq<Visit>, d: Digest, n: nat)
    requires Visits(env, ss, visits, d) && Collectible(ss[0].remote, d) && n <= |visits|
    ensures Collectible(ss[n].remote, d)
    ensures forall i :: 0 <= i < n ==> PassResult(ss[i].remote, ss[i + 1].remote, d, ss[i].clock, ss[i].clock, true)
    ensures forall i :: 0 <= i <= n ==> ss[i].clock <= ss[n].clock
  {
    hide Collectible, PassResult, Visited;
    if n > 0 {
      VisitsHaveResults(env, ss, visits, d, n - 1);
      assert Visited(env, ss[n - 1], visits[n - 1], ss[n], d);
      VisitHasResult(env, ss[n - 1], visits[n - 1], ss[n], d);
    }
  }

  /** In every run of the machine that collects d again and again: however many stale markers an
      unreferenced digest has, enough passes to see them all, and one more a day later, leave
      nothing of it. */
  lemma PassesConverge(env: Env, ss: seq<State>, visits: seq<Visit>, d: Digest, p: nat) returns (j: nat)
    requires Visits(env, ss, visits, d) && Collectible(ss[0].remote, d) && 0 < p < |visits|
    requires d in ss[0].remote.marks ==> ss[0].remote.marks[d] <= ss[0].clock
    requires |MarkedKeys(ss[0].remote, d)| <= p * PASS_LIMIT
    requires ss[p - 1].clock + GRACE <= ss[p].clock
    ensures j <= p + 1 && Gone(ss[j].remote, d)
  {
    hide Collectible, PassResult, Visited;
    var rs := seq(|ss|, i requires 0 <= i < |ss| => ss[i].remote);
    var times := seq(|visits|, i requires 0 <= i < |visits| => ss[i].clock);
    VisitsHaveResults(env, ss, visits, d, |visits|);
    forall i, j | 0 <= i <= j < |times| ensures times[i] <= times[j] {
      VisitsHaveResults(env, ss, visits, d, j);
    }
    j := ResultsConverge(rs, times, d, p);
  }

  /** Such runs exist: from any state in which nobody holds d's lock a pass can be made. */
  lemma CanVisit(env: Env, s: State, id: Id, d: Digest, wait: nat) returns (v: Visit, s': State)
    requires CanTag(env) && id !in s.ops && env.contentStripe(d) !in s.contents && Collectible(s.remote, d)
    ensures v.id == id && v.wait == wait && Visited(env, s, v, s', d)
    ensures s'.contents == s.contents && s'.ops.Keys == s.ops.Keys + {id} && s'.clock == s.clock + wait
  {
    hide Collectible, PassResult;
    var begin := Begin(id, Collector(d, s.clock, true, WantBlob));
    var began := Apply(env, s, begin);
    var steps, ended := SoloPass(env, began, id, d, s.clock, true);
    s' := Apply(env, ended, Tick(wait));
    v := Visit(id, steps, wait);
    assert [Tick(wait)][1..] == [] && Reaches(env, s', [], s');
    assert Reaches(env, ended, [Tick(wait)], s');
    assert [begin][1..] == [] && Reaches(env, began, [], began);
    assert Reaches(env, s, [begin], began);
    ReachesThen(env, s, [begin], began, steps, ended);
    ReachesThen(env, s, [begin] + steps, ended, [Tick(wait)], s');
  }
}
