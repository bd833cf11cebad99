/**
 The converse of reference safety: calls that meet no fault leave no marker behind.
 */
module ContentStoreTidy {
  import opened Options
  import opened ContentStore
  import opened ContentStoreSafety
  import opened ContentStoreTheorems

  /** No call fails, the process lives on, and no foreign writer interferes. */
  predicate Smooth(step: Step) {
    match step
    case Begin(_, _) => true
    case Move(_, c) => c.out == Ok
    case Tick(_) => true
    case _ => false
  }

  /** Operation op still needs the marker (d, k), or will remove it. */
  predicate Minds(env: Env, op: Op, d: Digest, k: Key) {
    && op.Writer? && op.key == k
    && (|| (op.step.PutPointer? && Installs(op.kind) && DigestOf(env, op.kind) == d)
        || (op.previous == Some(d)
            && (op.step.DropMark? || op.step == FreeContent(true) || op.step.WantOld? || op.step.RemoveMarker?)))
  }

  ghost predicate Minded(env: Env, ops: map<Id, Op>, d: Digest, k: Key) {
    exists id :: id in ops && Minds(env, ops[id], d, k)
  }

  predicate Replacing(step: WriterStep) {
    PastStat(step) || step.PutObject? || step.RemoveObject?
  }

  /** While a writer holds its target lock nobody else changes its object. */
  ghost predicate Current(env: Env, r: Remote, op: Op) {
    op.Writer? ==>
      && (Replacing(op.step) ==> forall d :: PointsTo(r, op.key, d) <==> op.previous == Some(d))
      && (PastStat(op.step) && !op.step.StatPrior? ==> Matches(r, op.key, op.kind))
      && ((op.step.DropMark? || op.step == FreeContent(true)) && Installs(op.kind) ==>
            PointsTo(r, op.key, DigestOf(env, op.kind)))
  }

  ghost predicate Tidy(env: Env, s: State) {
    && (forall m :: m in s.remote.markers ==> PointsTo(s.remote, m.1, m.0) || Minded(env, s.ops, m.0, m.1))
    && forall id :: id in s.ops ==> Current(env, s.remote, s.ops[id])
  }

  predicate SameAt(r: Remote, r': Remote, k: Key) {
    && (k in r.objects <==> k in r'.objects)
    && (k in r.objects ==> r.objects[k] == r'.objects[k])
  }

  lemma OthersKeysKept(env: Env, r: Remote, clock: int, op: Op, c: Choice, k: Key)
    requires HeldTarget(env, op) != Some(env.targetStripe(k))
    ensures SameAt(r, NextRemote(env, r, clock, op, c), k)
  {
  }

  /** The writer's own step, for its own key. */
  lemma StatStaysCurrent(env: Env, r: Remote, op: Op, c: Choice)
    requires op.Writer? && Consistent(env, r) && op.step.StatOld? && StepFitsKind(op) && c.out == Ok
    ensures Current(env, r, WriterNext(env, r, op, c))
  {
    if op.key in r.objects { assert Anchored(r, op.key); }
  }

  lemma ObjectStepStaysCurrent(env: Env, r: Remote, clock: int, op: Op, c: Choice)
    requires op.Writer? && WriterKnows(env, r, op) && Current(env, r, op) && c.out == Ok
    requires op.step.PutPointer? || op.step.PutObject? || op.step.RemoveObject?
    ensures Current(env, WriterRemote(env, r, clock, op, c), WriterNext(env, r, op, c))
  {
  }

  lemma OtherStepStaysCurrent(env: Env, r: Remote, r': Remote, op: Op, c: Choice)
    requires op.Writer? && !op.step.StatOld? && WriterKnows(env, r, op) && Current(env, r, op) && c.out == Ok
    requires r'.objects == r.objects && !(op.step.PutPointer? || op.step.PutObject? || op.step.RemoveObject?)
    ensures Current(env, r', WriterNext(env, r, op, c))
  {
    hide Consistent, Counted, Learned;
  }

  lemma WriterStaysCurrent(env: Env, r: Remote, clock: int, op: Op, c: Choice)
    requires op.Writer? && !op.step.StatOld? && WriterKnows(env, r, op) && Current(env, r, op) && c.out == Ok
    ensures Current(env, WriterRemote(env, r, clock, op, c), WriterNext(env, r, op, c))
  {
    hide Current, WriterNext, WriterKnows;
    if op.step.PutPointer? || op.step.PutObject? || op.step.RemoveObject? {
      ObjectStepStaysCurrent(env, r, clock, op, c);
    } else {
      OtherStepStaysCurrent(env, r, WriterRemote(env, r, clock, op, c), op, c);
    }
  }

  /** A marker the writer does not drop is still accounted for after its step. */
  lemma WriterMinds(env: Env, r: Remote, clock: int, op: Op, c: Choice, d: Digest, k: Key)
    requires op.Writer? && WriterKnows(env, r, op) && Current(env, r, op) && c.out == Ok
    requires (d, k) in WriterRemote(env, r, clock, op, c).markers
    requires (d, k) in r.markers ==> PointsTo(r, k, d) || Minds(env, op, d, k)
    ensures PointsTo(WriterRemote(env, r, clock, op, c), k, d) || Minds(env, WriterNext(env, r, op, c), d, k)
  {
  }

  /** A marker held by a pointer or by another operation stays accounted for. */
  lemma MarkerStaysMinded(env: Env, s: State, id: Id, c: Choice, d: Digest, k: Key)
    requires Inv(env, s) && Tidy(env, s) && id in s.ops && c.out == Ok
    requires (d, k) in NextRemote(env, s.remote, s.clock, s.ops[id], c).markers
    ensures var ops' := s.ops[id := NextOp(env, s.remote, s.ops[id], c)];
            PointsTo(NextRemote(env, s.remote, s.clock, s.ops[id], c), k, d) || Minded(env, ops', d, k)
  {
    var op := s.ops[id];
    var op' := NextOp(env, s.remote, op, c);
    var ops' := s.ops[id := op'];
    assert Knows(env, s.remote, s.clock, op) && Current(env, s.remote, op);
    if other :| other in s.ops && other != id && Minds(env, s.ops[other], d, k) {
      assert Minds(env, ops'[other], d, k);
    } else {
      assert (d, k) in s.remote.markers ==> PointsTo(s.remote, k, d) || Minds(env, op, d, k) by {
        if (d, k) in s.remote.markers {
          var m := (d, k);
          assert PointsTo(s.remote, m.1, m.0) || Minded(env, s.ops, m.0, m.1);
        }
      }
      if op.Writer? {
        WriterMinds(env, s.remote, s.clock, op, c, d, k);
        assert Minds(env, op', d, k) ==> Minds(env, ops'[id], d, k);
      }
    }
  }

  lemma OtherStaysCurrent(env: Env, s: State, id: Id, c: Choice, other: Id)
    requires Inv(env, s) && id in s.ops && other in s.ops && other != id
    requires Current(env, s.remote, s.ops[other])
    ensures Current(env, NextRemote(env, s.remote, s.clock, s.ops[id], c), s.ops[other])
  {
    var op := s.ops[other];
    if op.Writer? && HeldTarget(env, op).Some? {
      HoldersDiffer(env, s, other, id);
      OthersKeysKept(env, s.remote, s.clock, s.ops[id], c, op.key);
    }
  }

  lemma SmoothStepStaysTidy(env: Env, s: State, step: Step, s': State)
    requires Inv(env, s) && Tidy(env, s) && Next(env, s, step, s') && Smooth(step)
    ensures Tidy(env, s')
  {
    match step
    case Begin(id, op) =>
      assert forall d, k :: Minded(env, s.ops, d, k) ==> Minded(env, s'.ops, d, k) by {
        forall d, k | Minded(env, s.ops, d, k) ensures Minded(env, s'.ops, d, k) {
          var other :| other in s.ops && Minds(env, s.ops[other], d, k);
          assert Minds(env, s'.ops[other], d, k);
        }
      }
    case Tick(_) =>
    case Move(id, c) => SmoothMoveStaysTidy(env, s, id, c);
  }

  lemma SmoothMoveStaysTidy(env: Env, s: State, id: Id, c: Choice)
    requires Inv(env, s) && Tidy(env, s) && id in s.ops && c.out == Ok
    ensures Tidy(env, Advance(env, s, id, c))
  {
    var op := s.ops[id];
    var r' := NextRemote(env, s.remote, s.clock, op, c);
    var ops' := s.ops[id := NextOp(env, s.remote, op, c)];
    forall m | m in r'.markers ensures PointsTo(r', m.1, m.0) || Minded(env, ops', m.0, m.1) {
      assert m == (m.0, m.1);
      MarkerStaysMinded(env, s, id, c, m.0, m.1);
    }
    forall other | other in ops' ensures Current(env, r', ops'[other]) {
      if other != id {
        OtherStaysCurrent(env, s, id, c, other);
      } else if op.Writer? {
        assert Knows(env, s.remote, s.clock, op);
        if op.step.StatOld? { StatStaysCurrent(env, s.remote, op, c); }
        else { WriterStaysCurrent(env, s.remote, s.clock, op, c); }
      }
    }
  }

  lemma {:induction false} SmoothRunStaysTidy(env: Env, states: seq<State>, steps: seq<Step>, n: nat)
    requires Run(env, states, steps) && n < |states| && Tidy(env, states[0])
    requires forall i :: 0 <= i < |steps| ==> Smooth(steps[i])
    ensures Tidy(env, states[n])
  {
    if n > 0 {
      SmoothRunStaysTidy(env, states, steps, n - 1);
      RunKeepsInv(env, states, steps, n - 1);
      SmoothStepStaysTidy(env, states[n - 1], steps[n - 1], states[n]);
    }
  }

  /** When calls meet no fault, then whenever nothing is in flight the markers are exactly
      the pointers: replacing or deleting a reference has released its old marker. */
  lemma MarkersAreExact(env: Env, states: seq<State>, steps: seq<Step>, n: nat, d: Digest, k: Key)
    requires Run(env, states, steps) && n < |states| && Tidy(env, states[0])
    requires forall i :: 0 <= i < |steps| ==> Smooth(steps[i])
    requires forall id :: id in states[n].ops ==> Finished(states[n].ops[id])
    ensures (d, k) in states[n].remote.markers <==> PointsTo(states[n].remote, k, d)
  {
    RunKeepsInv(env, states, steps, n);
    SmoothRunStaysTidy(env, states, steps, n);
    if PointsTo(states[n].remote, k, d) {
      assert Anchored(states[n].remote, k);
    }
    NobodyMinds(env, states[n].ops, d, k);
    OnlyPointers(env, states[n], (d, k));
  }

  lemma NobodyMinds(env: Env, ops: map<Id, Op>, d: Digest, k: Key)
    requires forall id :: id in ops ==> Finished(ops[id])
    ensures !Minded(env, ops, d, k)
  {
  }

  lemma OnlyPointers(env: Env, s: State, m: (Digest, Key))
    requires Tidy(env, s) && !Minded(env, s.ops, m.0, m.1)
    ensures m in s.remote.markers ==> PointsTo(s.remote, m.1, m.0)
  {
  }
}
