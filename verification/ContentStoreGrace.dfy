/**
 The read grace: how long a payload outlives its last pointer.
 */
module ContentStoreGrace {
  import opened ContentStore
  import opened ContentStoreSafety
  import opened ContentStoreTheorems

  /** Operation op has written its reference but not yet dropped d's garbage mark. */
  predicate Announcing(env: Env, op: Op, d: Digest) {
    op.Writer? && op.step.DropMark? && Installs(op.kind) && DigestOf(env, op.kind) == d
  }

  ghost predicate Announced(env: Env, s: State, d: Digest) {
    exists id :: id in s.ops && Announcing(env, s.ops[id], d)
  }

  /** The faults that can leave an old garbage mark of d behind a new reference: the reference's PUT
      reports an error but took effect, dropping the mark fails unnoticed, or the process dies
      between the two calls. */
  ghost predicate Faulty(env: Env, s: State, step: Step, d: Digest) {
    match step
    case Move(id, c) =>
      && id in s.ops && d in s.remote.marks
      && var op := s.ops[id];
         && op.Writer? && Installs(op.kind) && DigestOf(env, op.kind) == d
         && (|| (op.step.PutPointer? && c.out == FailedAfter && Matches(s.remote, op.key, op.kind))
             || (op.step.DropMark? && c.out == FailedBefore))
    case Crash => d in s.remote.marks && Announced(env, s, d)
    case _ => false
  }

  /** The mark of d was written after the last moment any key pointed to d. */
  ghost predicate HonestMark(env: Env, states: seq<State>, d: Digest)
    requires states != []
  {
    var s := states[|states| - 1];
    d in s.remote.marks && !Announced(env, s, d) ==>
      && !Pointed(s.remote, d)
      && forall i :: 0 <= i < |states| && Pointed(states[i].remote, d) ==> states[i].clock <= s.remote.marks[d]
  }

  /** A run that starts with an honest mark of d and meets none of these faults; every other fault
      and crash is allowed. */
  ghost predicate FaultlessRun(env: Env, states: seq<State>, steps: seq<Step>, d: Digest) {
    && Run(env, states, steps)
    && (d in states[0].remote.marks ==> !Pointed(states[0].remote, d))
    && forall i :: 0 <= i < |steps| ==> !Faulty(env, states[i], steps[i], d)
  }

  lemma {:induction false} ClockAdvances(env: Env, states: seq<State>, steps: seq<Step>, i: nat, n: nat)
    requires Run(env, states, steps) && i <= n < |states|
    ensures states[i].clock <= states[n].clock
  {
    if i < n {
      ClockAdvances(env, states, steps, i, n - 1);
      assert Next(env, states[n - 1], steps[n - 1], states[n]);
    }
  }

  /** How one call changes a mark, seen from the bucket alone. */
  ghost predicate MarkKept(r: Remote, r': Remote, clock: int, d: Digest) {
    d in r'.marks ==>
      || (!Pointed(r', d) && r'.marks[d] == clock)
      || (d in r.marks && r'.marks[d] == r.marks[d] && forall k :: PointsTo(r', k, d) ==> PointsTo(r, k, d))
  }

  lemma WriterKeepsMark(env: Env, r: Remote, clock: int, op: Op, c: Choice, d: Digest)
    requires op.Writer? && WriterKnows(env, r, op)
    requires Installs(op.kind) && op.step.PutPointer? && DigestOf(env, op.kind) == d && d in r.marks ==>
               c.out != FailedAfter || !Matches(r, op.key, op.kind)
    requires Announcing(env, op, d) && d in r.marks ==> c.out != FailedBefore
    ensures var op' := WriterNext(env, r, op, c);
            var r' := WriterRemote(env, r, clock, op, c);
            !Announcing(env, op', d) ==>
              MarkKept(r, r', clock, d) && (Announcing(env, op, d) ==> d !in r'.marks)
  {
  }

  lemma CollectorKeepsMark(r: Remote, clock: int, op: Op, c: Choice, d: Digest)
    requires op.Collector? && CollectorKnows(r, op)
    ensures MarkKept(r, CollectorRemote(r, clock, op, c), clock, d)
  {
    var r' := CollectorRemote(r, clock, op, c);
    assert forall k :: PointsTo(r', k, d) == PointsTo(r, k, d);
  }

  /** Two operations never announce the same digest, so leaving DropMark ends the announcement. */
  lemma MoveKeepsMark(env: Env, s: State, id: Id, c: Choice, d: Digest)
    requires Inv(env, s) && Enabled(env, s, id, c) && !Faulty(env, s, Move(id, c), d)
    requires !Announced(env, Advance(env, s, id, c), d)
    ensures var r' := NextRemote(env, s.remote, s.clock, s.ops[id], c);
            MarkKept(s.remote, r', s.clock, d) && (Announced(env, s, d) ==> d !in r'.marks)
  {
    var op := s.ops[id];
    var op' := NextOp(env, s.remote, op, c);
    assert Knows(env, s.remote, s.clock, op);
    assert (s.ops[id := op'])[id] == op';
    assert forall other :: other in s.ops && other != id && Announcing(env, s.ops[other], d) ==> Announcing(env, s.ops[id := op'][other], d);
    if op.Writer? {
      WriterKeepsMark(env, s.remote, s.clock, op, c, d);
    } else {
      CollectorKeepsMark(s.remote, s.clock, op, c, d);
    }
  }

  lemma StepKeepsMark(env: Env, states: seq<State>, step: Step, s': State, d: Digest)
    requires states != [] && Inv(env, states[|states| - 1]) && HonestMark(env, states, d)
    requires Next(env, states[|states| - 1], step, s') && !Faulty(env, states[|states| - 1], step, d)
    requires forall i :: 0 <= i < |states| ==> states[i].clock <= states[|states| - 1].clock
    ensures HonestMark(env, states + [s'], d)
  {
    var s := states[|states| - 1];
    var all := states + [s'];
    match step
    case Move(id, c) =>
      if !Announced(env, s', d) { MoveKeepsMark(env, s, id, c, d); }
    case Begin(id, op) =>
      if Announced(env, s, d) {
        var other :| other in s.ops && Announcing(env, s.ops[other], d);
        assert Announcing(env, s'.ops[other], d);
      }
    case Tick(_) =>
      assert Announced(env, s, d) ==> Announced(env, s', d);
    case Crash =>
    case _ =>
      assert Announced(env, s, d) ==> Announced(env, s', d);
      assert forall k :: PointsTo(s'.remote, k, d) ==> PointsTo(s.remote, k, d);
  }

  lemma {:induction false} MarksAreHonest(env: Env, states: seq<State>, steps: seq<Step>, n: nat, d: Digest)
    requires FaultlessRun(env, states, steps, d) && n < |states|
    ensures HonestMark(env, states[..n + 1], d)
  {
    if n == 0 {
      assert states[..1] == [states[0]];
    } else {
      MarksAreHonest(env, states, steps, n - 1, d);
      RunKeepsInv(env, states, steps, n - 1);
      forall i | 0 <= i < n ensures states[i].clock <= states[n - 1].clock {
        ClockAdvances(env, states, steps, i, n - 1);
      }
      StepKeepsMark(env, states[..n], steps[n - 1], states[n], d);
      assert states[..n] + [states[n]] == states[..n + 1];
    }
  }

  /** The step in which a collector that grants the grace removes the payload of d. */
  predicate Retires(s: State, step: Step, s': State, d: Digest) {
    && step.Move? && step.id in s.ops
    && s.ops[step.id].Collector? && s.ops[step.id].grace && s.ops[step.id].target == d
    && d in s.remote.blobs && d !in s'.remote.blobs
  }

  /** With an honest mark a payload is retired only a full grace period after any key pointed to it. */
  lemma HonestMarkRetires(env: Env, states: seq<State>, step: Step, d: Digest, i: nat)
    requires states != [] && Inv(env, states[|states| - 1]) && HonestMark(env, states, d)
    requires Possible(env, states[|states| - 1], step)
    requires Retires(states[|states| - 1], step, Apply(env, states[|states| - 1], step), d)
    requires i < |states| && Pointed(states[i].remote, d)
    ensures states[i].clock + GRACE <= states[|states| - 1].clock
  {
    var s := states[|states| - 1];
    var id := step.id;
    var op := s.ops[id];
    assert op.phase.DeleteData?;
    assert Knows(env, s.remote, s.clock, op);
    forall other | other in s.ops && Announcing(env, s.ops[other], d) ensures other == id {
      if other != id { HoldersDiffer(env, s, other, id); }
    }
  }

  // ----- What puts the grace at risk

  /** d's mark is too old to keep the grace of a moment in which some key pointed to d: of the present
      moment, or of one that is less than a day ago. */
  ghost predicate Exposed(states: seq<State>, d: Digest)
    requires states != []
  {
    var s := states[|states| - 1];
    && d in s.remote.marks
    && (Pointed(s.remote, d)
        || exists i :: 0 <= i < |states| && Pointed(states[i].remote, d)
                       && s.remote.marks[d] < states[i].clock && s.clock < states[i].clock + GRACE)
  }

  /** ... and no writer is about to drop it. */
  ghost predicate AtRisk(env: Env, states: seq<State>, d: Digest)
    requires states != []
  {
    Exposed(states, d) && !Announced(env, states[|states| - 1], d)
  }

  /** One of the three faults, if it leaves d exposed: a failure to drop the mark does not when every
      key that pointed to d has let go of it by the time the mark was written. */
  ghost predicate Spoils(env: Env, states: seq<State>, step: Step, s': State, d: Digest)
    requires states != []
  {
    Faulty(env, states[|states| - 1], step, d) && Exposed(states + [s'], d)
  }

  ghost predicate Ordered(states: seq<State>)
    requires states != []
  {
    forall i :: 0 <= i < |states| ==> states[i].clock <= states[|states| - 1].clock
  }

  /** A fault ends the announcement: no two writers announce the same digest. */
  lemma FaultUnannounces(env: Env, s: State, step: Step, s': State, d: Digest)
    requires Inv(env, s) && Next(env, s, step, s') && Faulty(env, s, step, d)
    ensures !Announced(env, s', d)
  {
    if step.Move? {
      var id := step.id;
      forall other | other in s'.ops ensures !Announcing(env, s'.ops[other], d) {
        if other != id && Announcing(env, s.ops[other], d) { HoldersDiffer(env, s, other, id); }
      }
    }
  }

  /** The grace of moment p is kept in state s. */
  ghost predicate Keeps(env: Env, p: State, s: State, d: Digest) {
    d in s.remote.marks && !Announced(env, s, d) ==>
      && !Pointed(s.remote, d)
      && (Pointed(p.remote, d) ==> p.clock <= s.remote.marks[d] || p.clock + GRACE <= s.clock)
  }

  /** Nothing is at risk while the grace of every moment is kept. */
  lemma AtRiskIff(env: Env, states: seq<State>, d: Digest)
    requires states != []
    ensures !AtRisk(env, states, d) <==> forall i :: 0 <= i < |states| ==> Keeps(env, states[i], states[|states| - 1], d)
  {
    var n := |states| - 1;
    var s := states[n];
    if forall i :: 0 <= i < |states| ==> Keeps(env, states[i], s, d) {
      assert Keeps(env, states[n], s, d);
    }
  }

  lemma StepKeeps(env: Env, p: State, s: State, step: Step, s': State, d: Digest)
    requires Inv(env, s) && p.clock <= s.clock && Keeps(env, p, s, d)
    requires Next(env, s, step, s') && !Faulty(env, s, step, d)
    ensures Keeps(env, p, s', d) && Keeps(env, s', s', d)
  {
    var states := if p.clock + GRACE <= s.clock then [s] else [p, s];
    assert states[|states| - 1] == s;
    assert HonestMark(env, states, d);
    StepKeepsMark(env, states, step, s', d);
    var after := states + [s'];
    assert after[0] == states[0] && after[|after| - 1] == s' && s.clock <= s'.clock;
  }

  /** Only a spoiling fault puts the grace of d at risk ... */
  lemma StepStaysSafe(env: Env, states: seq<State>, step: Step, s': State, d: Digest)
    requires states != [] && Ordered(states) && Inv(env, states[|states| - 1]) && !AtRisk(env, states, d)
    requires Next(env, states[|states| - 1], step, s') && !Spoils(env, states, step, s', d)
    ensures !AtRisk(env, states + [s'], d)
  {
    hide Keeps, Inv, Faulty, Next;
    var s := states[|states| - 1];
    var all := states + [s'];
    if !Faulty(env, s, step, d) {
      AtRiskIff(env, states, d);
      forall i | 0 <= i < |all| ensures Keeps(env, all[i], s', d) {
        var p := if i < |states| then states[i] else s;
        StepKeeps(env, p, s, step, s', d);
      }
      AtRiskIff(env, all, d);
    }
  }

  /** ... and every spoiling fault does. */
  lemma SpoiltIsAtRisk(env: Env, states: seq<State>, step: Step, s': State, d: Digest)
    requires states != [] && Inv(env, states[|states| - 1])
    requires Next(env, states[|states| - 1], step, s') && Spoils(env, states, step, s', d)
    ensures AtRisk(env, states + [s'], d)
  {
    FaultUnannounces(env, states[|states| - 1], step, s', d);
    assert (states + [s'])[|states|] == s';
  }

  /** A fault while some key points to d spoils; the one that publishes a reference always does. */
  lemma FaultSpoils(env: Env, states: seq<State>, step: Step, s': State, d: Digest)
    requires states != [] && Next(env, states[|states| - 1], step, s') && Faulty(env, states[|states| - 1], step, d)
    requires Pointed(states[|states| - 1].remote, d) || (step.Move? && states[|states| - 1].ops[step.id].step.PutPointer?)
    ensures Spoils(env, states, step, s', d)
  {
    var s := states[|states| - 1];
    assert (states + [s'])[|states|] == s';
    if Pointed(s.remote, d) && !(step.Move? && s.ops[step.id].step.PutPointer?) {
      var k :| PointsTo(s.remote, k, d);
      assert PointsTo(s'.remote, k, d);
    } else {
      assert PointsTo(s'.remote, s.ops[step.id].key, d);
    }
  }

  /** A run that begins with no mark of d behind a pointer, and meets no spoiling fault. */
  ghost predicate GraceRun(env: Env, states: seq<State>, steps: seq<Step>, d: Digest) {
    && Run(env, states, steps)
    && (d in states[0].remote.marks ==> !Pointed(states[0].remote, d))
    && forall i :: 0 <= i < |steps| ==> !Spoils(env, states[..i + 1], steps[i], states[i + 1], d)
  }

  lemma {:induction false} GraceRunIsSafe(env: Env, states: seq<State>, steps: seq<Step>, n: nat, d: Digest)
    requires GraceRun(env, states, steps, d) && n < |states|
    ensures Ordered(states[..n + 1]) && !AtRisk(env, states[..n + 1], d)
  {
    forall i | 0 <= i <= n ensures states[i].clock <= states[n].clock { ClockAdvances(env, states, steps, i, n); }
    if n == 0 {
      assert states[..1] == [states[0]];
    } else {
      GraceRunIsSafe(env, states, steps, n - 1, d);
      RunKeepsInv(env, states, steps, n - 1);
      assert Next(env, states[n - 1], steps[n - 1], states[n]);
      StepStaysSafe(env, states[..n], steps[n - 1], states[n], d);
      assert states[..n] + [states[n]] == states[..n + 1];
    }
  }

  /** In a state in which the grace of p is kept, a payload is not retired before a day after p. */
  lemma KeptRetires(env: Env, p: State, s: State, step: Step, d: Digest)
    requires Inv(env, s) && p.clock <= s.clock && Keeps(env, p, s, d)
    requires Possible(env, s, step) && Retires(s, step, Apply(env, s, step), d) && Pointed(p.remote, d)
    ensures p.clock + GRACE <= s.clock
  {
    if s.clock < p.clock + GRACE {
      var pair := [p, s];
      assert pair[0] == p && pair[|pair| - 1] == s;
      HonestMarkRetires(env, pair, step, d, 0);
    }
  }

  /** A payload is retired only a full grace period after the last moment any key pointed to
      it, so a reader that resolved a key to d can read d's payload for that long. */
  lemma GraceHolds(env: Env, states: seq<State>, steps: seq<Step>, n: nat, d: Digest, i: nat)
    requires GraceRun(env, states, steps, d) && n < |steps|
    requires Retires(states[n], steps[n], states[n + 1], d)
    requires i <= n && Pointed(states[i].remote, d)
    ensures states[i].clock + GRACE <= states[n].clock
  {
    RunKeepsInv(env, states, steps, n);
    GraceRunIsSafe(env, states, steps, n, d);
    AtRiskIff(env, states[..n + 1], d);
    assert Next(env, states[n], steps[n], states[n + 1]);
    assert states[..n + 1][i] == states[i];
    KeptRetires(env, states[i], states[n], steps[n], d);
  }
}
