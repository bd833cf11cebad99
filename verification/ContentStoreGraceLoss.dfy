/**
 Exactly when the grace of a payload can be lost.
 */
module ContentStoreGraceLoss {
  import opened ContentStore
  import opened ContentStoreSafety
  import opened ContentStoreTheorems
  import opened ContentStoreGrace
  import opened ContentStoreProgress
  import opened ContentStoreCollection

  /** A continuation that meets none of the three faults for d. */
  ghost predicate FaultlessPath(env: Env, s: State, steps: seq<Step>, s': State, d: Digest)
    decreases |steps|
  {
    if steps == [] then s' == s
    else Possible(env, s, steps[0]) && !Faulty(env, s, steps[0], d) && FaultlessPath(env, Apply(env, s, steps[0]), steps[1..], s', d)
  }

  /** The run goes on to a state u and from there to t, in which a step retires d less than a day
      after u, or after a moment of the run before, in which some key pointed to d. */
  ghost predicate LosesGrace(env: Env, states: seq<State>, x: seq<Step>, u: State, y: seq<Step>, t: State, step: Step, d: Digest)
    requires states != []
  {
    && FaultlessPath(env, states[|states| - 1], x, u, d) && FaultlessPath(env, u, y, t, d)
    && Possible(env, t, step) && Retires(t, step, Apply(env, t, step), d)
    && ((Pointed(u.remote, d) && t.clock < u.clock + GRACE)
        || exists i :: 0 <= i < |states| && Pointed(states[i].remote, d) && t.clock < states[i].clock + GRACE)
  }

  ghost predicate CanLoseGrace(env: Env, states: seq<State>, d: Digest)
    requires states != []
  {
    exists x, u, y, t, step :: LosesGrace(env, states, x, u, y, t, step, d)
  }

  // ----- Without risk nothing is lost

  lemma {:induction false} PathKeeps(env: Env, p: State, s: State, steps: seq<Step>, s': State, d: Digest)
    requires Inv(env, s) && p.clock <= s.clock && Keeps(env, p, s, d) && Keeps(env, s, s, d)
    requires FaultlessPath(env, s, steps, s', d)
    ensures Inv(env, s') && s.clock <= s'.clock && Keeps(env, p, s', d) && Keeps(env, s', s', d)
    decreases |steps|
  {
    hide Inv, Keeps, Faulty;
    if steps != [] {
      var next := Apply(env, s, steps[0]);
      StepKeepsInv(env, s, steps[0], next);
      StepKeeps(env, p, s, steps[0], next, d);
      ClockGrows(env, s, steps[0]);
      PathKeeps(env, p, next, steps[1..], s', d);
    }
  }

  lemma ClockGrows(env: Env, s: State, step: Step)
    requires Possible(env, s, step)
    ensures s.clock <= Apply(env, s, step).clock
  {
  }

  lemma SafeLosesNothing(env: Env, states: seq<State>, x: seq<Step>, u: State, y: seq<Step>, t: State, step: Step, d: Digest)
    requires states != [] && Ordered(states) && Inv(env, states[|states| - 1]) && !AtRisk(env, states, d)
    ensures !LosesGrace(env, states, x, u, y, t, step, d)
  {
    hide Inv, Keeps, FaultlessPath, Retires;
    var s := states[|states| - 1];
    AtRiskIff(env, states, d);
    if FaultlessPath(env, s, x, u, d) && FaultlessPath(env, u, y, t, d) && Possible(env, t, step) && Retires(t, step, Apply(env, t, step), d) {
      PathKeeps(env, s, s, x, u, d);
      PathKeeps(env, u, u, y, t, d);
      if Pointed(u.remote, d) { KeptRetires(env, u, t, step, d); }
      forall i | 0 <= i < |states| && Pointed(states[i].remote, d) ensures states[i].clock + GRACE <= t.clock {
        PathKeeps(env, states[i], s, x, u, d);
        PathKeeps(env, states[i], u, y, t, d);
        KeptRetires(env, states[i], t, step, d);
      }
    }
  }

  // ----- At risk it can be lost

  /** Only graceful collectors of d are in flight. */
  ghost predicate Collecting(s: State, d: Digest) {
    forall id :: id in s.ops ==> s.ops[id].Collector? && s.ops[id].target == d && s.ops[id].grace
  }

  /** Collectors of d that begin and move while the clock stands still. */
  predicate Quiet(step: Step, d: Digest) {
    match step
    case Begin(_, op) => op.Collector? && op.target == d && op.grace
    case Move(_, _) => true
    case Tick(delta) => delta == 0
    case _ => false
  }

  lemma QuietStep(env: Env, s: State, step: Step, d: Digest)
    requires Collecting(s, d) && Quiet(step, d) && Possible(env, s, step)
    ensures !Faulty(env, s, step, d)
    ensures Collecting(Apply(env, s, step), d) && Apply(env, s, step).clock == s.clock
    ensures d in s.remote.blobs && d !in Apply(env, s, step).remote.blobs ==> Retires(s, step, Apply(env, s, step), d)
  {
  }

  /** On the way from a state with the payload to one without it, some step retires it. */
  lemma {:induction false} FirstLoss(env: Env, s: State, steps: seq<Step>, s': State, d: Digest)
    returns (y: seq<Step>, t: State, step: Step)
    requires Collecting(s, d) && Reaches(env, s, steps, s') && forall i :: 0 <= i < |steps| ==> Quiet(steps[i], d)
    requires d in s.remote.blobs && d !in s'.remote.blobs
    ensures FaultlessPath(env, s, y, t, d) && t.clock == s.clock
    ensures Possible(env, t, step) && Retires(t, step, Apply(env, t, step), d)
    decreases |steps|
  {
    hide Collecting, Quiet, Faulty, Retires;
    step := steps[0];
    var next := Apply(env, s, step);
    assert Quiet(step, d);
    QuietStep(env, s, step, d);
    if d !in next.remote.blobs {
      y, t := [], s;
    } else {
      var first := step;
      y, t, step := FirstLoss(env, next, steps[1..], s', d);
      y := [first] + y;
      assert y[1..] == y[1..] && y[0] == first;
    }
  }

  lemma {:induction false} QuietPath(env: Env, s: State, steps: seq<Step>, s': State, d: Digest)
    requires Collecting(s, d) && Reaches(env, s, steps, s') && forall i :: 0 <= i < |steps| ==> Quiet(steps[i], d)
    ensures FaultlessPath(env, s, steps, s', d) && Collecting(s', d) && s'.clock == s.clock
    decreases |steps|
  {
    hide Collecting, Quiet, Faulty;
    if steps != [] {
      assert Quiet(steps[0], d);
      QuietStep(env, s, steps[0], d);
      QuietPath(env, Apply(env, s, steps[0]), steps[1..], s', d);
    }
  }

  lemma {:induction false} PathThen(env: Env, a: State, x: seq<Step>, b: State, y: seq<Step>, c: State, d: Digest)
    requires FaultlessPath(env, a, x, b, d) && FaultlessPath(env, b, y, c, d)
    ensures FaultlessPath(env, a, x + y, c, d)
    decreases |x|
  {
    hide Faulty;
    if x == [] {
      assert x + y == y;
    } else {
      assert (x + y)[1..] == x[1..] + y;
      PathThen(env, Apply(env, a, x[0]), x[1..], b, y, c, d);
    }
  }

  /** Passes over d at one moment, until one of them sees the last marker and retires the payload. */
  lemma {:induction false} PassesRetire(env: Env, s: State, id: Id, d: Digest) returns (y: seq<Step>, t: State, step: Step)
    requires CanTag(env) && Collecting(s, d) && Collectible(s.remote, d) && env.contentStripe(d) !in s.contents
    requires forall other :: other in s.ops ==> other < id
    requires d in s.remote.blobs && d in s.remote.marks && s.remote.marks[d] + GRACE <= s.clock
    ensures FaultlessPath(env, s, y, t, d) && t.clock == s.clock
    ensures Possible(env, t, step) && Retires(t, step, Apply(env, t, step), d)
    decreases |MarkedKeys(s.remote, d)|
  {
    hide Collecting, Collectible, Possible, Retires;
    var v, s' := CanVisit(env, s, id, d, 0);
    VisitHasResult(env, s, v, s', d);
    var steps := [Begin(v.id, Collector(d, s.clock, true, WantBlob))] + v.steps + [Tick(v.wait)];
    assert forall i :: 0 <= i < |steps| ==> Quiet(steps[i], d);
    if |MarkedKeys(s.remote, d)| <= PASS_LIMIT {
      y, t, step := FirstLoss(env, s, steps, s', d);
    } else {
      QuietPath(env, s, steps, s', d);
      y, t, step := PassesRetire(env, s', id + 1, d);
      PathThen(env, s, steps, s', y, t, d);
      y := steps + y;
    }
  }

  /** A foreign writer deletes these objects one after another. */
  lemma {:induction false} ForeignDeletes(env: Env, s: State, keys: seq<Key>, d: Digest) returns (steps: seq<Step>, s': State)
    ensures FaultlessPath(env, s, steps, s', d)
    ensures s' == s.(remote := s.remote.(objects := s'.remote.objects)) && s'.remote.objects.Keys <= s.remote.objects.Keys
    ensures forall k :: k in keys ==> k !in s'.remote.objects
    decreases |keys|
  {
    if keys == [] {
      steps, s' := [], s;
    } else {
      var next := Apply(env, s, ForeignDelete(keys[0]));
      var rest;
      rest, s' := ForeignDeletes(env, next, keys[1..], d);
      steps := [ForeignDelete(keys[0])] + rest;
      assert steps[1..] == rest;
    }
  }

  /** The keys of d's markers have a length the collector accepts. */
  ghost predicate Readable(r: Remote, d: Digest) {
    forall k :: (d, k) in r.markers ==> 1 <= |k| <= MARKER_LIMIT
  }

  /** From a state in which d's mark is a day old, passes retire d at that moment, whoever pointed to it. */
  lemma OldMarkRetires(env: Env, s: State, d: Digest) returns (y: seq<Step>, t: State, step: Step)
    requires CanTag(env) && s.ops == map[] && s.contents == map[] && Readable(s.remote, d)
    requires d in s.remote.blobs && d in s.remote.marks && s.remote.marks[d] + GRACE <= s.clock
    ensures FaultlessPath(env, s, y, t, d) && t.clock == s.clock
    ensures Possible(env, t, step) && Retires(t, step, Apply(env, t, step), d)
  {
    var keys := Enumerate(MarkedKeys(s.remote, d));
    var deletes, bare := ForeignDeletes(env, s, keys, d);
    forall k | k in MarkedKeys(bare.remote, d) ensures Stale(bare.remote, k, d) {
      MarkedIff(s.remote, d, k);
      MarkedIff(bare.remote, d, k);
    }
    y, t, step := PassesRetire(env, bare, 0, d);
    PathThen(env, s, deletes, bare, y, t, d);
    y := deletes + y;
  }

  lemma OldMarkBreaksGrace(env: Env, states: seq<State>, d: Digest)
    requires CanTag(env) && states != [] && AtRisk(env, states, d)
    requires d in states[|states| - 1].remote.blobs && Readable(states[|states| - 1].remote, d)
    ensures CanLoseGrace(env, states, d)
  {
    var s := states[|states| - 1];
    var mark := s.remote.marks[d];
    var wait: nat := if s.clock < mark + GRACE then mark + GRACE - s.clock else 0;
    var crashed := Apply(env, s, Crash);
    var u := Apply(env, crashed, Tick(wait));
    var x := [Crash, Tick(wait)];
    assert x[1..] == [Tick(wait)] && x[1..][1..] == [];
    assert FaultlessPath(env, u, [], u, d);
    assert FaultlessPath(env, crashed, [Tick(wait)], u, d);
    assert FaultlessPath(env, s, x, u, d);
    var y, t, step := OldMarkRetires(env, u, d);
    assert LosesGrace(env, states, x, u, y, t, step, d);
  }

  /** After any run, the grace of a payload that is present can be lost without a further fault if
      and only if its mark is at risk: it is older than a moment in which some key pointed to d, now
      or less than a day ago, and no writer is about to drop it. */
  lemma GraceLostIff(env: Env, states: seq<State>, steps: seq<Step>, d: Digest)
    requires CanTag(env) && Run(env, states, steps)
    requires d in states[|steps|].remote.blobs && Readable(states[|steps|].remote, d)
    ensures CanLoseGrace(env, states, d) <==> AtRisk(env, states, d)
  {
    hide AtRisk, LosesGrace, Readable, CanTag;
    var n := |steps|;
    RunKeepsInv(env, states, steps, n);
    forall i | 0 <= i <= n ensures states[i].clock <= states[n].clock { ClockAdvances(env, states, steps, i, n); }
    if AtRisk(env, states, d) {
      OldMarkBreaksGrace(env, states, d);
    } else {
      forall x, u, y, t, step ensures !LosesGrace(env, states, x, u, y, t, step, d) {
        SafeLosesNothing(env, states, x, u, y, t, step, d);
      }
    }
  }
}
