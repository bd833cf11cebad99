/**
 A run in which the grace is not granted: one call that drops a garbage mark fails
 and the writer does not look at its outcome.
 */
module ContentStoreGraceFailure {
  import opened Options
  import opened ContentStore
  import opened ContentStoreSafety
  import opened ContentStoreTheorems
  import opened ContentStoreGrace
  import opened ContentStoreProgress
  import opened ContentStoreCollection

  function Uploader(k: Key, bytes: Bytes, step: WriterStep, effects: nat): Op {
    Writer(Put(bytes), k, step, None, effects)
  }

  /** A bucket holding one unreferenced payload that an earlier pass has marked. */
  function Orphan(d: Digest, bytes: Bytes): Remote {
    Remote(map[], map[d := bytes], {}, map[d := 0])
  }

  /** Writer 0 at work, holding both its locks. */
  function AtWork(env: Env, r: Remote, k: Key, bytes: Bytes, step: WriterStep, effects: nat): State {
    State(r, map[env.targetStripe(k) := 0], map[env.contentStripe(env.sha(bytes)) := 0], map[0 := Uploader(k, bytes, step, effects)], 0)
  }

  /** The writer begins and takes its target lock. */
  lemma WriterStarts(env: Env, r: Remote, k: Key, bytes: Bytes, ok: Choice) returns (steps: seq<Step>)
    requires |bytes| >= DEDUP_MINIMUM
    ensures Reaches(env, AtRest(r, 0), steps,
                    State(r, map[env.targetStripe(k) := 0], map[], map[0 := Uploader(k, bytes, StatOld, 0)], 0))
  {
    var op := Uploader(k, bytes, WantTarget, 0);
    var s0 := AtRest(r, 0);
    var s1 := s0.(ops := map[0 := op]);
    var s2 := State(r, map[env.targetStripe(k) := 0], map[], map[0 := op.(step := StatOld)], 0);
    assert Next(env, s0, Begin(0, op), s1);
    Extend(env, s0, [], s0, Begin(0, op), s1);
    assert Next(env, s1, Move(0, ok), s2) by { assert Apply(env, s1, Move(0, ok)) == s2; }
    Extend(env, s0, [] + [Begin(0, op)], s1, Move(0, ok), s2);
    steps := [] + [Begin(0, op)] + [Move(0, ok)];
  }

  lemma WriterFindsNothing(env: Env, r: Remote, k: Key, bytes: Bytes, ok: Choice)
    requires ok.out == Ok && k !in r.objects
    ensures var s := State(r, map[env.targetStripe(k) := 0], map[], map[0 := Uploader(k, bytes, StatOld, 0)], 0);
            Reaches(env, s, [Move(0, ok)], s.(ops := map[0 := Uploader(k, bytes, WantContent, 0)]))
  {
    var s := State(r, map[env.targetStripe(k) := 0], map[], map[0 := Uploader(k, bytes, StatOld, 0)], 0);
    var s1 := s.(ops := map[0 := Uploader(k, bytes, WantContent, 0)]);
    QuietMove(env, s, 0, ok, r, s1.ops[0]);
    assert Placed(s, r, 0, s1.ops[0]) == s1;
  }

  /** It finds nothing at its key and takes its content lock. */
  lemma WriterEnters(env: Env, r: Remote, k: Key, bytes: Bytes, ok: Choice) returns (steps: seq<Step>)
    requires ok.out == Ok && k !in r.objects
    ensures Reaches(env, State(r, map[env.targetStripe(k) := 0], map[], map[0 := Uploader(k, bytes, StatOld, 0)], 0), steps,
                    AtWork(env, r, k, bytes, StatBlob, 0))
  {
    var s0 := State(r, map[env.targetStripe(k) := 0], map[], map[0 := Uploader(k, bytes, StatOld, 0)], 0);
    var s1 := s0.(ops := map[0 := Uploader(k, bytes, WantContent, 0)]);
    var s2 := AtWork(env, r, k, bytes, StatBlob, 0);
    WriterFindsNothing(env, r, k, bytes, ok);
    assert Next(env, s1, Move(0, ok), s2) by { assert Apply(env, s1, Move(0, ok)) == s2; }
    Extend(env, s0, [Move(0, ok)], s1, Move(0, ok), s2);
    steps := [Move(0, ok)] + [Move(0, ok)];
  }

  /** One call of the writer while it holds both locks. */
  lemma WriterCalls(env: Env, r: Remote, r': Remote, k: Key, bytes: Bytes, step: WriterStep, step': WriterStep, effects: nat, effects': nat, c: Choice)
    returns (steps: seq<Step>)
    requires step.StatBlob? || step.PutMarker? || step.PutPointer? || step.DropMark?
    requires step'.PutMarker? || step'.PutPointer? || step'.DropMark? || step'.FreeContent?
    requires Honest(env, r, 0, Uploader(k, bytes, step, effects), c)
    requires r' == WriterRemote(env, r, 0, Uploader(k, bytes, step, effects), c)
    requires Uploader(k, bytes, step', effects') == WriterNext(env, r, Uploader(k, bytes, step, effects), c)
    ensures Reaches(env, AtWork(env, r, k, bytes, step, effects), steps, AtWork(env, r', k, bytes, step', effects'))
  {
    var s := AtWork(env, r, k, bytes, step, effects);
    QuietMove(env, s, 0, c, r', Uploader(k, bytes, step', effects'));
    assert Placed(s, r', 0, Uploader(k, bytes, step', effects')) == AtWork(env, r', k, bytes, step', effects');
    steps := [Move(0, c)];
  }

  /** The payload is there, and the marker is written. */
  lemma WriterMarks(env: Env, k: Key, bytes: Bytes, ok: Choice) returns (steps: seq<Step>)
    requires ok.out == Ok && |bytes| >= DEDUP_MINIMUM
    ensures var r := Orphan(env.sha(bytes), bytes);
            Reaches(env, AtWork(env, r, k, bytes, StatBlob, 0), steps,
                    AtWork(env, r.(markers := {(env.sha(bytes), k)}), k, bytes, PutPointer, 0))
  {
    var d := env.sha(bytes);
    var r0 := Orphan(d, bytes);
    var r1 := r0.(markers := {(d, k)});
    var a := WriterCalls(env, r0, r0, k, bytes, StatBlob, PutMarker, 0, 0, ok);
    var b := WriterCalls(env, r0, r1, k, bytes, PutMarker, PutPointer, 0, 0, ok);
    ReachesThen(env, AtWork(env, r0, k, bytes, StatBlob, 0), a, AtWork(env, r0, k, bytes, PutMarker, 0),
                b, AtWork(env, r1, k, bytes, PutPointer, 0));
    steps := a + b;
  }

  /** Everything succeeds but the call that drops the mark, whose failure the writer does not see. */
  lemma WriterPublishes(env: Env, k: Key, bytes: Bytes, ok: Choice, failed: Choice) returns (steps: seq<Step>, r: Remote)
    requires |bytes| >= DEDUP_MINIMUM && ok.out == Ok && failed.out == FailedBefore
    requires env.body(ok.etag) == env.referenceBody(env.sha(bytes), |bytes|)
    ensures Reaches(env, AtWork(env, Orphan(env.sha(bytes), bytes), k, bytes, StatBlob, 0), steps,
                    AtWork(env, r, k, bytes, FreeContent(true), 1))
    ensures var d := env.sha(bytes);
            r == Remote(map[k := Pointer(d, |bytes|, None, ok.etag, 0)], map[d := bytes], {(d, k)}, map[d := 0])
  {
    var d := env.sha(bytes);
    var r1 := Orphan(d, bytes).(markers := {(d, k)});
    r := r1.(objects := map[k := Pointer(d, |bytes|, None, ok.etag, 0)]);
    var s2 := AtWork(env, r1, k, bytes, PutPointer, 0);
    var s3 := AtWork(env, r, k, bytes, DropMark, 1);
    var s4 := AtWork(env, r, k, bytes, FreeContent(true), 1);
    var a := WriterMarks(env, k, bytes, ok);
    var e := WriterCalls(env, r1, r, k, bytes, PutPointer, DropMark, 0, 1, ok);
    var f := WriterCalls(env, r, r, k, bytes, DropMark, FreeContent(true), 1, 1, failed);
    ReachesThen(env, s2, e, s3, f, s4);
    ReachesThen(env, AtWork(env, Orphan(d, bytes), k, bytes, StatBlob, 0), a, s2, e + f, s4);
    steps := a + (e + f);
  }

  /** It leaves its content lock, and a day passes. */
  lemma WriterLeaves(env: Env, r: Remote, k: Key, bytes: Bytes, ok: Choice) returns (steps: seq<Step>)
    ensures Reaches(env, AtWork(env, r, k, bytes, FreeContent(true), 1), steps,
                    State(r, map[env.targetStripe(k) := 0], map[], map[0 := Uploader(k, bytes, FreeTarget(true), 1)], GRACE))
  {
    var s0 := AtWork(env, r, k, bytes, FreeContent(true), 1);
    var s1 := State(r, map[env.targetStripe(k) := 0], map[], map[0 := Uploader(k, bytes, FreeTarget(true), 1)], 0);
    assert Next(env, s0, Move(0, ok), s1) by { assert Apply(env, s0, Move(0, ok)) == s1; }
    Extend(env, s0, [], s0, Move(0, ok), s1);
    Extend(env, s0, [] + [Move(0, ok)], s1, Tick(GRACE), s1.(clock := GRACE));
    steps := [] + [Move(0, ok)] + [Tick(GRACE)];
  }

  /** The whole call, reporting success with the old mark still in place. */
  lemma WriterRuns(env: Env, k: Key, bytes: Bytes, etag: ETag) returns (steps: seq<Step>, s': State)
    requires |bytes| >= DEDUP_MINIMUM
    requires env.body(etag) == env.referenceBody(env.sha(bytes), |bytes|)
    ensures Reaches(env, AtRest(Orphan(env.sha(bytes), bytes), 0), steps, s')
    ensures var d := env.sha(bytes);
            s' == State(Remote(map[k := Pointer(d, |bytes|, None, etag, 0)], map[d := bytes], {(d, k)}, map[d := 0]),
                        map[env.targetStripe(k) := 0], map[], map[0 := Uploader(k, bytes, FreeTarget(true), 1)], GRACE)
  {
    var r0 := Orphan(env.sha(bytes), bytes);
    var ok := Choice(Ok, etag, []);
    var a := WriterStarts(env, r0, k, bytes, ok);
    var b := WriterEnters(env, r0, k, bytes, ok);
    var e, r := WriterPublishes(env, k, bytes, ok, ok.(out := FailedBefore));
    var f := WriterLeaves(env, r, k, bytes, ok);
    var s1 := State(r0, map[env.targetStripe(k) := 0], map[], map[0 := Uploader(k, bytes, StatOld, 0)], 0);
    var s2 := AtWork(env, r0, k, bytes, StatBlob, 0);
    var s3 := AtWork(env, r, k, bytes, FreeContent(true), 1);
    s' := State(r, map[env.targetStripe(k) := 0], map[], map[0 := Uploader(k, bytes, FreeTarget(true), 1)], GRACE);
    ReachesThen(env, AtRest(r0, 0), a, s1, b, s2);
    ReachesThen(env, s2, e, s3, f, s');
    ReachesThen(env, AtRest(r0, 0), a + b, s2, e + f, s');
    steps := a + b + (e + f);
  }

  /** The grace fails once a writer's attempt to drop the mark has failed unnoticed. Starting
      from a marked orphan, a writer publishes a reference to it and reports no error; a day
      later the key still points to d when a foreign delete removes it, and a grace-granting
      pass retires the payload at that very moment. */
  lemma GraceFailsBehindOldMark(env: Env, k: Key, bytes: Bytes, etag: ETag)
    returns (before: seq<Step>, pointed: State, after: seq<Step>, retired: State)
    requires CanTag(env) && |bytes| >= DEDUP_MINIMUM && 1 <= |k| <= MARKER_LIMIT
    requires env.body(etag) == env.referenceBody(env.sha(bytes), |bytes|)
    ensures var d := env.sha(bytes);
            && Initial(env, AtRest(Orphan(d, bytes), 0))
            && Reaches(env, AtRest(Orphan(d, bytes), 0), before, pointed)
            && PointsTo(pointed.remote, k, d) && d in pointed.remote.blobs
            && Reaches(env, pointed, after, retired)
            && d !in retired.remote.blobs
            && retired.clock == pointed.clock
            && (forall id :: id in retired.ops && retired.ops[id].Collector? ==> retired.ops[id].grace)
  {
    var d := env.sha(bytes);
    before, pointed := WriterRuns(env, k, bytes, etag);
    var orphan := pointed.remote.(objects := map[]);
    var deleted := pointed.(remote := orphan);
    assert Apply(env, pointed, ForeignDelete(k)) == deleted;
    Extend(env, pointed, [], pointed, ForeignDelete(k), deleted);
    var pass := Collector(d, GRACE, true, WantBlob);
    var began := deleted.(ops := deleted.ops[1 := pass]);
    Extend(env, pointed, [] + [ForeignDelete(k)], deleted, Begin(1, pass), began);
    assert Collectible(orphan, d);
    assert MarkedKeys(orphan, d) == {k} by {
      MarkedIff(orphan, d, k);
    }
    var collect;
    collect, retired := SoloPass(env, began, 1, d, GRACE, true);
    ReachesThen(env, pointed, [] + [ForeignDelete(k)] + [Begin(1, pass)], began, collect, retired);
    after := [] + [ForeignDelete(k)] + [Begin(1, pass)] + collect;
  }

  /** Each of the three faults spoils the grace: in a run that publishes a reference behind an old
      mark, a PUT whose success is reported as an error, a failure to drop the mark, and the end of
      the process between the two calls all put the grace at risk. */
  lemma EachFaultSpoils(env: Env, k: Key, bytes: Bytes, ok: Choice)
    returns (x: seq<Step>, putting: State, y: seq<Step>, dropping: State)
    requires |bytes| >= DEDUP_MINIMUM && ok.out == Ok
    requires env.body(ok.etag) == env.referenceBody(env.sha(bytes), |bytes|)
    ensures var d := env.sha(bytes);
            var lost, failed := Move(0, ok.(out := FailedAfter)), Move(0, ok.(out := FailedBefore));
            && Reaches(env, AtRest(Orphan(d, bytes), 0), x, putting) && Reaches(env, putting, y, dropping)
            && Possible(env, putting, lost) && Spoils(env, [putting], lost, Apply(env, putting, lost), d)
            && Possible(env, dropping, failed) && Spoils(env, [dropping], failed, Apply(env, dropping, failed), d)
            && Spoils(env, [dropping], Crash, Apply(env, dropping, Crash), d)
  {
    var d := env.sha(bytes);
    var r0 := Orphan(d, bytes);
    var r1 := r0.(markers := {(d, k)});
    var r2 := r1.(objects := map[k := Pointer(d, |bytes|, None, ok.etag, 0)]);
    var begun := State(r0, map[env.targetStripe(k) := 0], map[], map[0 := Uploader(k, bytes, StatOld, 0)], 0);
    var entered := AtWork(env, r0, k, bytes, StatBlob, 0);
    putting := AtWork(env, r1, k, bytes, PutPointer, 0);
    dropping := AtWork(env, r2, k, bytes, DropMark, 1);
    var a := WriterStarts(env, r0, k, bytes, ok);
    var b := WriterEnters(env, r0, k, bytes, ok);
    var e := WriterMarks(env, k, bytes, ok);
    y := WriterCalls(env, r1, r2, k, bytes, PutPointer, DropMark, 0, 1, ok);
    ReachesThen(env, AtRest(r0, 0), a, begun, b, entered);
    ReachesThen(env, AtRest(r0, 0), a + b, entered, e, putting);
    x := a + b + e;
    PuttingFails(env, r1, k, bytes, ok);
    DroppingFails(env, r2, k, bytes, ok);
  }

  lemma PuttingFails(env: Env, r: Remote, k: Key, bytes: Bytes, ok: Choice)
    requires env.sha(bytes) in r.marks && env.body(ok.etag) == env.referenceBody(env.sha(bytes), |bytes|)
    ensures var s, lost := AtWork(env, r, k, bytes, PutPointer, 0), Move(0, ok.(out := FailedAfter));
            Possible(env, s, lost) && Spoils(env, [s], lost, Apply(env, s, lost), env.sha(bytes))
  {
    var s, lost := AtWork(env, r, k, bytes, PutPointer, 0), Move(0, ok.(out := FailedAfter));
    FaultSpoils(env, [s], lost, Apply(env, s, lost), env.sha(bytes));
  }

  lemma DroppingFails(env: Env, r: Remote, k: Key, bytes: Bytes, ok: Choice)
    requires env.sha(bytes) in r.marks && PointsTo(r, k, env.sha(bytes))
    ensures var s, failed := AtWork(env, r, k, bytes, DropMark, 1), Move(0, ok.(out := FailedBefore));
            && Possible(env, s, failed) && Spoils(env, [s], failed, Apply(env, s, failed), env.sha(bytes))
            && Spoils(env, [s], Crash, Apply(env, s, Crash), env.sha(bytes))
  {
    var d := env.sha(bytes);
    var s, failed := AtWork(env, r, k, bytes, DropMark, 1), Move(0, ok.(out := FailedBefore));
    FaultSpoils(env, [s], failed, Apply(env, s, failed), d);
    assert Announcing(env, s.ops[0], d);
    FaultSpoils(env, [s], Crash, Apply(env, s, Crash), d);
  }
}
