/**
 Reference safety of the content store, for every interleaving, fault and crash:
 whatever a pointer names is present and carries a marker, so that no collection
 leaves a dangling pointer.
 */
module ContentStoreSafety {
  import opened Options
  import opened ContentStore

  // ----- The bucket invariant

  /** The object at k, if a pointer, has its payload, its marker and the payload's size. */
  predicate Anchored(r: Remote, k: Key)
    requires k in r.objects
  {
    var o := r.objects[k];
    o.Pointer? ==>
      && o.digest in r.blobs
      && (o.digest, k) in r.markers
      && DEDUP_MINIMUM <= o.size == |r.blobs[o.digest]|
  }

  ghost predicate Consistent(env: Env, r: Remote) {
    && (forall k :: k in r.objects ==> Anchored(r, k))
    && (forall k :: k in r.objects ==> env.body(r.objects[k].etag) == StoredBody(env, r.objects[k]))
    && (forall d :: d in r.blobs ==> env.sha(r.blobs[d]) == d)
  }

  // ----- What each operation knows between its steps

  predicate StepFitsKind(op: Op)
    requires op.Writer?
  {
    match op.step
    case WantTarget => true
    case StatOld => true
    case StatPrior => op.kind.Dedup?
    case PutObject => op.kind.RawPut?
    case RemoveObject => op.kind.Delete?
    case WantOld => op.previous.Some?
    case RemoveMarker => op.previous.Some?
    case FreeOld => op.previous.Some?
    case FreeTarget(_) => true
    case Done(_) => true
    case _ => Installs(op.kind)
  }

  /** The number of changes a writer has made to its logical object. */
  predicate Counted(op: Op)
    requires op.Writer?
  {
    match op.step
    case DropMark => op.effects == 1
    case WantOld => op.effects == 1
    case RemoveMarker => op.effects == 1
    case FreeOld => op.effects == 1
    case FreeContent(ok) => if ok then op.effects == 1 else op.effects <= 1
    case FreeTarget(ok) => if ok then op.effects == 1 else op.effects <= 1
    case Done(ok) => if ok then op.effects == 1 else op.effects <= 1
    case _ => op.effects == 0
  }

  /** Between the first stat, which refuses malformed references, and the write of a reference. */
  predicate PastStat(step: WriterStep) {
    step.StatPrior? || step.WantContent? || step.StatBlob? || step.Upload? || step.PutMarker? || step.PutPointer?
  }

  ghost predicate WriterKnows(env: Env, r: Remote, op: Op)
    requires op.Writer?
  {
    && StepFitsKind(op) && Counted(op)
    && (op.kind.Put? ==> |op.kind.bytes| >= DEDUP_MINIMUM)
    && (op.kind.Dedup? ==> op.kind.record.size >= DEDUP_MINIMUM && Learned(env, op.kind.record))
    && (PastStat(op.step) && op.key in r.objects ==> !r.objects[op.key].Malformed?)
    && (op.step.Upload? ==> DigestOf(env, op.kind) !in r.blobs)
    && (op.step.PutMarker? || op.step.PutPointer? ==>
          var d := DigestOf(env, op.kind);
          d in r.blobs && |r.blobs[d]| == SizeOf(op.kind))
    && (op.step.PutPointer? ==> (DigestOf(env, op.kind), op.key) in r.markers)
    && (op.step.DropMark? || op.step == FreeContent(true) ==>
          op.previous.Some? && op.previous.value != DigestOf(env, op.kind) ==>
            !PointsTo(r, op.key, op.previous.value))
    && (op.step.WantOld? || op.step.RemoveMarker? ==> !PointsTo(r, op.key, op.previous.value))
  }

  /** Every key that still points to d is among those left to visit. */
  ghost predicate Covers(r: Remote, d: Digest, todo: seq<Key>) {
    forall k :: PointsTo(r, k, d) ==> k in todo
  }

  ghost predicate CollectorKnows(r: Remote, op: Op)
    requires op.Collector?
  {
    match op.phase
    case Read(todo, visited) => Covers(r, op.target, todo) && visited <= PASS_LIMIT
    case Check(todo, visited) => Covers(r, op.target, todo) && visited <= PASS_LIMIT && todo != []
    case Drop(todo, visited) =>
      Covers(r, op.target, todo) && visited <= PASS_LIMIT && todo != [] && !PointsTo(r, todo[0], op.target)
    case StatMark => op.grace && !Pointed(r, op.target)
    case PutMark => op.grace && !Pointed(r, op.target)
    case DeleteData =>
      && !Pointed(r, op.target)
      && (op.grace ==> op.target in r.marks && r.marks[op.target] + GRACE <= op.now)
    case DeleteMark => !Pointed(r, op.target)
    case _ => true
  }

  ghost predicate Knows(env: Env, r: Remote, clock: int, op: Op) {
    if op.Writer? then WriterKnows(env, r, op) else op.now <= clock && CollectorKnows(r, op)
  }

  // ----- Locks

  /** A lock table and the stripes that operations hold say the same. */
  ghost predicate Agree(table: map<nat, Id>, held: map<Id, Option<nat>>) {
    && (forall id :: id in held && held[id].Some? ==> held[id].value in table && table[held[id].value] == id)
    && (forall x :: x in table ==> table[x] in held && held[table[x]] == Some(x))
  }

  ghost function HeldTargets(env: Env, ops: map<Id, Op>): map<Id, Option<nat>> {
    map id | id in ops :: HeldTarget(env, ops[id])
  }

  ghost function HeldContents(env: Env, ops: map<Id, Op>): map<Id, Option<nat>> {
    map id | id in ops :: HeldContent(env, ops[id])
  }

  ghost predicate Locked(env: Env, s: State) {
    Agree(s.targets, HeldTargets(env, s.ops)) && Agree(s.contents, HeldContents(env, s.ops))
  }

  ghost predicate Inv(env: Env, s: State) {
    && Consistent(env, s.remote)
    && Locked(env, s)
    && forall id :: id in s.ops ==> Knows(env, s.remote, s.clock, s.ops[id])
  }

  // ----- Rely and guarantee

  /** Nothing about digest d changed, except that pointers to it may have gone. */
  ghost predicate Untouched(r: Remote, r': Remote, d: Digest) {
    && (d in r.blobs <==> d in r'.blobs)
    && (d in r.blobs ==> r.blobs[d] == r'.blobs[d])
    && (forall k :: (d, k) in r.markers <==> (d, k) in r'.markers)
    && (d in r.marks <==> d in r'.marks)
    && (d in r.marks ==> r.marks[d] == r'.marks[d])
    && (forall k :: PointsTo(r', k, d) ==> PointsTo(r, k, d))
  }

  /** The change an operation holding these two stripes may make. */
  ghost predicate Respects(env: Env, r: Remote, r': Remote, target: Option<nat>, content: Option<nat>) {
    && (forall d :: content != Some(env.contentStripe(d)) ==> Untouched(r, r', d))
    && (forall k, d :: target != Some(env.targetStripe(k)) && PointsTo(r', k, d) ==> PointsTo(r, k, d))
    && (forall k :: k in r'.objects && r'.objects[k].Malformed? ==> k in r.objects && r.objects[k].Malformed?)
  }

  predicate Distinct(mine: Option<nat>, other: Option<nat>) {
    mine.Some? ==> mine != other
  }

  /** What an operation knows survives the steps of operations holding other stripes. */
  lemma Undisturbed(env: Env, r: Remote, r': Remote, clock: int, clock': int, op: Op, target: Option<nat>, content: Option<nat>)
    requires Knows(env, r, clock, op) && clock <= clock'
    requires Respects(env, r, r', target, content)
    requires Distinct(HeldTarget(env, op), target) && Distinct(HeldContent(env, op), content)
    ensures Knows(env, r', clock', op)
  {
    match op
    case Writer(kind, key, step, previous, _) =>
      if Installs(kind) { assert HeldContent(env, op).Some? && (step.PutMarker? || step.PutPointer?) ==> Untouched(r, r', DigestOf(env, kind)); }
    case Collector(d, _, _, phase) =>
      if !phase.WantBlob? && !phase.Ended? { assert Untouched(r, r', d); }
  }

  /** A change of one object under its target's stripe, to something that points nowhere else. */
  lemma ObjectRespects(env: Env, r: Remote, r': Remote, key: Key, content: Option<nat>)
    requires r' == r.(objects := r'.objects) && r'.objects - {key} == r.objects - {key}
    requires key in r'.objects ==> !r'.objects[key].Malformed?
    requires key in r'.objects && r'.objects[key].Pointer? ==> content == Some(env.contentStripe(r'.objects[key].digest))
    ensures Respects(env, r, r', Some(env.targetStripe(key)), content)
  {
    forall k | k != key ensures (k in r'.objects <==> k in r.objects) && (k in r.objects ==> r'.objects[k] == r.objects[k]) {
      assert k in r'.objects - {key} <==> k in r.objects - {key};
    }
  }

  /** A change of one payload, its markers and its mark under its content's stripe. */
  lemma ContentRespects(env: Env, r: Remote, r': Remote, d: Digest, target: Option<nat>)
    requires r'.objects == r.objects && r'.blobs - {d} == r.blobs - {d} && r'.marks - {d} == r.marks - {d}
    requires forall e, k :: e != d ==> ((e, k) in r'.markers <==> (e, k) in r.markers)
    ensures Respects(env, r, r', target, Some(env.contentStripe(d)))
  {
    forall e | e != d ensures Untouched(r, r', e) {
      assert e in r'.blobs - {d} <==> e in r.blobs - {d};
      assert e in r'.marks - {d} <==> e in r.marks - {d};
    }
  }

  lemma NothingRespects(env: Env, r: Remote, target: Option<nat>, content: Option<nat>)
    ensures Respects(env, r, r, target, content)
  {
  }

  lemma WriterRespects(env: Env, r: Remote, clock: int, op: Op, c: Choice)
    requires op.Writer? && WriterKnows(env, r, op)
    ensures Respects(env, r, WriterRemote(env, r, clock, op, c), HeldTarget(env, op), HeldContent(env, op))
  {
    hide Respects;
    var r' := WriterRemote(env, r, clock, op, c);
    if r' == r {
      NothingRespects(env, r, HeldTarget(env, op), HeldContent(env, op));
    } else if op.step.PutPointer? || op.step.PutObject? || op.step.RemoveObject? {
      ObjectRespects(env, r, r', op.key, HeldContent(env, op));
    } else {
      ContentRespects(env, r, r', if op.step.RemoveMarker? then op.previous.value else DigestOf(env, op.kind), HeldTarget(env, op));
    }
  }

  lemma CollectorRespects(env: Env, r: Remote, clock: int, op: Op, c: Choice)
    requires op.Collector?
    ensures Respects(env, r, CollectorRemote(r, clock, op, c), HeldTarget(env, op), HeldContent(env, op))
  {
    hide Respects;
    var r' := CollectorRemote(r, clock, op, c);
    if r' == r {
      NothingRespects(env, r, HeldTarget(env, op), HeldContent(env, op));
    } else {
      ContentRespects(env, r, r', op.target, HeldTarget(env, op));
    }
  }

  // ----- An operation's own step

  lemma WriterStepConsistent(env: Env, r: Remote, clock: int, op: Op, c: Choice)
    requires Consistent(env, r)
    requires op.Writer? && WriterKnows(env, r, op) && Honest(env, r, clock, op, c)
    ensures Consistent(env, WriterRemote(env, r, clock, op, c))
  {
    var r' := WriterRemote(env, r, clock, op, c);
    if op.step.Upload? && Matches(r, op.key, op.kind) {
      assert env.sha(UploadedBytes(env, r, op.key, op.kind)) == DigestOf(env, op.kind);
    }
    forall k | k in r'.objects ensures Anchored(r', k) {
      if k in r.objects { assert Anchored(r, k); }
    }
  }

  lemma CollectorStepConsistent(env: Env, r: Remote, clock: int, op: Op, c: Choice)
    requires Consistent(env, r)
    requires op.Collector? && CollectorKnows(r, op)
    ensures Consistent(env, CollectorRemote(r, clock, op, c))
  {
    var r' := CollectorRemote(r, clock, op, c);
    forall k | k in r'.objects ensures Anchored(r', k) {
      assert Anchored(r, k);
      if r.objects[k].Pointer? { assert PointsTo(r, k, r.objects[k].digest); }
    }
  }

  /** Up to the payload: the target lock, the stats, the content lock and the upload. */
  predicate Preparing(step: WriterStep) {
    step.WantTarget? || step.StatOld? || step.StatPrior? || step.WantContent? || step.StatBlob? || step.Upload?
  }

  /** From the marker to the content lock's release. */
  predicate Publishing(step: WriterStep) {
    step.PutMarker? || step.PutPointer? || step.DropMark? || step.FreeContent?
  }

  lemma PreparingStepKnows(env: Env, r: Remote, clock: int, op: Op, c: Choice)
    requires Consistent(env, r)
    requires op.Writer? && WriterKnows(env, r, op) && Preparing(op.step)
    ensures WriterKnows(env, WriterRemote(env, r, clock, op, c), WriterNext(env, r, op, c))
  {
    if op.step.Upload? && Matches(r, op.key, op.kind) {
      assert |UploadedBytes(env, r, op.key, op.kind)| == SizeOf(op.kind);
    }
  }

  lemma PublishingStepKnows(env: Env, r: Remote, clock: int, op: Op, c: Choice)
    requires op.Writer? && WriterKnows(env, r, op) && Publishing(op.step)
    ensures WriterKnows(env, WriterRemote(env, r, clock, op, c), WriterNext(env, r, op, c))
  {
  }

  lemma ClosingStepKnows(env: Env, r: Remote, clock: int, op: Op, c: Choice)
    requires op.Writer? && WriterKnows(env, r, op) && !Preparing(op.step) && !Publishing(op.step)
    ensures WriterKnows(env, WriterRemote(env, r, clock, op, c), WriterNext(env, r, op, c))
  {
  }

  lemma CollectorStepKnows(env: Env, r: Remote, clock: int, op: Op, c: Choice)
    requires Consistent(env, r)
    requires op.Collector? && CollectorKnows(r, op) && Honest(env, r, clock, op, c)
    ensures CollectorKnows(CollectorRemote(r, clock, op, c), op.(phase := CollectorPhase(r, op, c)))
  {
    var d := op.target;
    var r' := CollectorRemote(r, clock, op, c);
    forall k | PointsTo(r, k, d) ensures (d, k) in r.markers {
      assert Anchored(r, k);
    }
    assert forall k :: PointsTo(r', k, d) == PointsTo(r, k, d);
    match op.phase
    case Check(todo, _) =>
      if PointsTo(r, todo[0], d) { assert Anchored(r, todo[0]); }
    case Drop(todo, _) =>
      assert todo == [todo[0]] + todo[1..];
    case _ =>
  }

  // ----- Every step keeps the invariant

  lemma RelockAgrees(table: map<nat, Id>, held: map<Id, Option<nat>>, id: Id, after: Option<nat>)
    requires Agree(table, held) && id in held && Free(table, held[id], after)
    ensures Agree(Relock(table, id, held[id], after), held[id := after])
  {
  }

  lemma HeldBy(env: Env, ops: map<Id, Op>, id: Id, op: Op)
    ensures HeldTargets(env, ops[id := op]) == HeldTargets(env, ops)[id := HeldTarget(env, op)]
    ensures HeldContents(env, ops[id := op]) == HeldContents(env, ops)[id := HeldContent(env, op)]
  {
  }

  lemma IdleAgrees(table: map<nat, Id>, held: map<Id, Option<nat>>, id: Id)
    requires Agree(table, held) && id !in held
    ensures Agree(table, held[id := None])
  {
  }

  /** Replacing operation id by op', whose stripes are free, and relocking accordingly. */
  lemma LockStep(env: Env, s: State, id: Id, op': Op)
    requires Locked(env, s) && id in s.ops
    requires Free(s.targets, HeldTarget(env, s.ops[id]), HeldTarget(env, op'))
    requires Free(s.contents, HeldContent(env, s.ops[id]), HeldContent(env, op'))
    ensures Agree(Relock(s.targets, id, HeldTarget(env, s.ops[id]), HeldTarget(env, op')), HeldTargets(env, s.ops[id := op']))
    ensures Agree(Relock(s.contents, id, HeldContent(env, s.ops[id]), HeldContent(env, op')), HeldContents(env, s.ops[id := op']))
  {
    HeldBy(env, s.ops, id, op');
    RelockAgrees(s.targets, HeldTargets(env, s.ops), id, HeldTarget(env, op'));
    RelockAgrees(s.contents, HeldContents(env, s.ops), id, HeldContent(env, op'));
  }

  lemma MoveKeepsLocks(env: Env, s: State, id: Id, c: Choice)
    requires Locked(env, s) && Enabled(env, s, id, c)
    ensures Locked(env, Advance(env, s, id, c))
  {
    LockStep(env, s, id, NextOp(env, s.remote, s.ops[id], c));
  }

  /** What a step does to the bucket and to the operation that takes it. */
  lemma MoveIsSafe(env: Env, r: Remote, clock: int, op: Op, c: Choice)
    requires Consistent(env, r) && Knows(env, r, clock, op) && Honest(env, r, clock, op, c)
    ensures Consistent(env, NextRemote(env, r, clock, op, c))
    ensures Knows(env, NextRemote(env, r, clock, op, c), clock, NextOp(env, r, op, c))
    ensures Respects(env, r, NextRemote(env, r, clock, op, c), HeldTarget(env, op), HeldContent(env, op))
  {
    if op.Writer? {
      WriterRespects(env, r, clock, op, c);
      WriterStepConsistent(env, r, clock, op, c);
      if Preparing(op.step) { PreparingStepKnows(env, r, clock, op, c); }
      else if Publishing(op.step) { PublishingStepKnows(env, r, clock, op, c); }
      else { ClosingStepKnows(env, r, clock, op, c); }
    } else {
      CollectorRespects(env, r, clock, op, c);
      CollectorStepConsistent(env, r, clock, op, c);
      CollectorStepKnows(env, r, clock, op, c);
    }
  }

  /** Two operations never hold the same stripe. */
  lemma HoldersDiffer(env: Env, s: State, a: Id, b: Id)
    requires Locked(env, s) && a in s.ops && b in s.ops && a != b
    ensures Distinct(HeldTarget(env, s.ops[a]), HeldTarget(env, s.ops[b]))
    ensures Distinct(HeldContent(env, s.ops[a]), HeldContent(env, s.ops[b]))
  {
    var targets, contents := HeldTargets(env, s.ops), HeldContents(env, s.ops);
    assert a in targets && b in targets && a in contents && b in contents;
  }

  lemma MoveKeepsInv(env: Env, s: State, id: Id, c: Choice)
    requires Inv(env, s) && Enabled(env, s, id, c)
    ensures Inv(env, Advance(env, s, id, c))
  {
    var op := s.ops[id];
    var r' := NextRemote(env, s.remote, s.clock, op, c);
    var ops' := s.ops[id := NextOp(env, s.remote, op, c)];
    MoveKeepsLocks(env, s, id, c);
    MoveIsSafe(env, s.remote, s.clock, op, c);
    forall other | other in ops' ensures Knows(env, r', s.clock, ops'[other]) {
      if other != id {
        HoldersDiffer(env, s, other, id);
        Undisturbed(env, s.remote, r', s.clock, s.clock, s.ops[other], HeldTarget(env, op), HeldContent(env, op));
      }
    }
  }

  /** A foreign writer only removes pointers. */
  lemma ForeignKeepsInv(env: Env, s: State, s': State)
    requires Inv(env, s)
    requires s' == s.(remote := s.remote.(objects := s'.remote.objects))
    requires forall k :: k in s'.remote.objects && !s'.remote.objects[k].Raw? ==>
               k in s.remote.objects && s.remote.objects[k] == s'.remote.objects[k]
    requires forall k :: k in s'.remote.objects ==>
               env.body(s'.remote.objects[k].etag) == StoredBody(env, s'.remote.objects[k])
    ensures Inv(env, s')
  {
    forall k | k in s'.remote.objects ensures Anchored(s'.remote, k) {
      if s'.remote.objects[k].Pointer? { assert Anchored(s.remote, k); }
    }
    forall other | other in s'.ops ensures Knows(env, s'.remote, s'.clock, s'.ops[other]) {
      Undisturbed(env, s.remote, s'.remote, s.clock, s.clock, s.ops[other], None, None);
    }
  }

  /** An operation that begins holds nothing and knows nothing about the bucket. */
  lemma BeginKeepsInv(env: Env, s: State, id: Id, op: Op)
    requires Inv(env, s) && id !in s.ops && CanBegin(env, op, s.clock)
    ensures Inv(env, s.(ops := s.ops[id := op]))
  {
    HeldBy(env, s.ops, id, op);
    IdleAgrees(s.targets, HeldTargets(env, s.ops), id);
    IdleAgrees(s.contents, HeldContents(env, s.ops), id);
  }

  lemma StepKeepsInv(env: Env, s: State, step: Step, s': State)
    requires Inv(env, s) && Next(env, s, step, s')
    ensures Inv(env, s')
  {
    match step
    case Move(id, c) => MoveKeepsInv(env, s, id, c);
    case Begin(id, op) => BeginKeepsInv(env, s, id, op);
    case Tick(delta) =>
    case Crash =>
    case ForeignPut(_, _, _) => ForeignKeepsInv(env, s, s');
    case ForeignDelete(_) => ForeignKeepsInv(env, s, s');
  }
}
