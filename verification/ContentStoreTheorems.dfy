/**
 What the content store promises over whole runs: reference safety, the
 refinement to a plain map from keys to logical objects, one change per
 successful operation, and the invisibility of deduplication.
 */
module ContentStoreTheorems {
  import opened ContentStore
  import opened ContentStoreSafety

  // ----- Runs

  ghost predicate Initial(env: Env, s: State) {
    Consistent(env, s.remote) && s.ops == map[] && s.targets == map[] && s.contents == map[]
  }

  ghost predicate Run(env: Env, states: seq<State>, steps: seq<Step>) {
    && |states| == |steps| + 1
    && Initial(env, states[0])
    && forall i :: 0 <= i < |steps| ==> Next(env, states[i], steps[i], states[i + 1])
  }

  lemma {:induction false} RunKeepsInv(env: Env, states: seq<State>, steps: seq<Step>, n: nat)
    requires Run(env, states, steps) && n < |states|
    ensures Inv(env, states[n])
  {
    if n > 0 {
      RunKeepsInv(env, states, steps, n - 1);
      StepKeepsInv(env, states[n - 1], steps[n - 1], states[n]);
    }
  }

  /** No interleaving, fault, crash or collection leaves a dangling pointer: in every state
      of every run a pointer's payload is present, is the content of that name and has the
      recorded size, and the marker that protects it is present. */
  lemma ReferenceSafety(env: Env, states: seq<State>, steps: seq<Step>, n: nat, k: Key, d: Digest)
    requires Run(env, states, steps) && n < |states|
    requires PointsTo(states[n].remote, k, d)
    ensures d in states[n].remote.blobs
    ensures env.sha(states[n].remote.blobs[d]) == d
    ensures |states[n].remote.blobs[d]| == states[n].remote.objects[k].size
    ensures (d, k) in states[n].remote.markers
  {
    RunKeepsInv(env, states, steps, n);
    assert Anchored(states[n].remote, k);
  }

  // ----- Refinement to a map

  /** A change of the logical view. */
  datatype Effect = Stutter | Update(key: Key, value: Logical) | Erase(key: Key)

  function Changed(view: map<Key, Logical>, e: Effect): map<Key, Logical> {
    match e
    case Stutter => view
    case Update(k, v) => view[k := v]
    case Erase(k) => view - {k}
  }

  /** A file written at a given moment. */
  function Written(bytes: Bytes, clock: int): Logical {
    Readable(bytes, |bytes|, clock)
  }

  /** The reference a deduplication writes carries the recorded time; a time that is not
      positive is not a valid stamp. */
  function Deduplicated(env: Env, record: Record): Logical {
    if record.modTime <= 0 then Unreadable else Readable(env.body(record.etag), record.size, record.modTime)
  }

  function WriterEffect(env: Env, s: State, op: Op, c: Choice): Effect
    requires op.Writer?
  {
    if !TookEffect(c) then Stutter
    else if op.step.PutPointer? && op.kind.Put? then Update(op.key, Written(op.kind.bytes, s.clock))
    else if op.step.PutPointer? && op.kind.Dedup? && HasETag(s.remote, op.key, op.kind.record.etag)
      then Update(op.key, Deduplicated(env, op.kind.record))
    else if op.step.PutObject? && op.kind.RawPut? then Update(op.key, Written(op.kind.bytes, s.clock))
    else if op.step.RemoveObject? then Erase(op.key)
    else Stutter
  }

  function EffectOf(env: Env, s: State, step: Step): Effect {
    match step
    case Move(id, c) => if id in s.ops && s.ops[id].Writer? then WriterEffect(env, s, s.ops[id], c) else Stutter
    case ForeignPut(k, bytes, _) => Update(k, Written(bytes, s.clock))
    case ForeignDelete(k) => Erase(k)
    case Begin(_, _) => Stutter
    case Tick(_) => Stutter
    case Crash => Stutter
  }

  lemma SameBytes(env: Env, r: Remote, d: Digest, bytes: Bytes)
    requires env.Sound() && Consistent(env, r)
    requires d in r.blobs && env.sha(bytes) == d
    ensures r.blobs[d] == bytes
  {
  }

  /** A change of the bucket that keeps the objects and every payload named by one keeps the view. */
  lemma SameView(env: Env, r: Remote, r': Remote)
    requires Consistent(env, r) && r'.objects == r.objects
    requires forall k :: k in r.objects && r.objects[k].Pointer? ==>
               var d := r.objects[k].digest; d in r'.blobs && (d in r.blobs ==> r'.blobs[d] == r.blobs[d])
    ensures View(r') == View(r)
  {
    forall k | k in r.objects ensures Resolve(r', r.objects[k]) == Resolve(r, r.objects[k]) {
      assert Anchored(r, k);
    }
  }

  /** Writing one object changes the view at its key. */
  lemma ViewWith(r: Remote, k: Key, o: Object)
    ensures View(r.(objects := r.objects[k := o])) == View(r)[k := Resolve(r, o)]
  {
    var r' := r.(objects := r.objects[k := o]);
    assert Resolve(r', o) == Resolve(r, o);
    forall j | j in r.objects ensures Resolve(r', r.objects[j]) == Resolve(r, r.objects[j]) {}
  }

  lemma PointerRefines(env: Env, s: State, op: Op, c: Choice)
    requires env.Sound() && Inv(env, s)
    requires op.Writer? && WriterKnows(env, s.remote, op) && op.step.PutPointer?
    ensures View(WriterRemote(env, s.remote, s.clock, op, c)) == Changed(View(s.remote), WriterEffect(env, s, op, c))
  {
    hide View;
    var r := s.remote;
    if TookEffect(c) && Matches(r, op.key, op.kind) {
      var bytes := if op.kind.Put? then op.kind.bytes else env.body(op.kind.record.etag);
      SameBytes(env, r, DigestOf(env, op.kind), bytes);
      ViewWith(r, op.key, NewPointer(env, op.kind, c.etag, s.clock));
    }
  }

  lemma ObjectRefines(env: Env, s: State, op: Op, c: Choice)
    requires op.Writer? && (op.step.PutObject? || op.step.RemoveObject?)
    ensures View(WriterRemote(env, s.remote, s.clock, op, c)) == Changed(View(s.remote), WriterEffect(env, s, op, c))
  {
  }

  lemma WriterRefines(env: Env, s: State, op: Op, c: Choice)
    requires env.Sound() && Inv(env, s)
    requires op.Writer? && WriterKnows(env, s.remote, op)
    ensures View(WriterRemote(env, s.remote, s.clock, op, c)) == Changed(View(s.remote), WriterEffect(env, s, op, c))
  {
    var r := s.remote;
    var r' := WriterRemote(env, r, s.clock, op, c);
    if op.step.PutPointer? {
      PointerRefines(env, s, op, c);
    } else if op.step.PutObject? || op.step.RemoveObject? {
      ObjectRefines(env, s, op, c);
    } else {
      assert r'.objects == r.objects;
      forall k | k in r.objects && r.objects[k].Pointer? ensures r.objects[k].digest in r.blobs {
        assert Anchored(r, k);
      }
      SameView(env, r, r');
    }
  }

  lemma CollectorRefines(env: Env, s: State, op: Op, c: Choice)
    requires Inv(env, s)
    requires op.Collector? && CollectorKnows(s.remote, op)
    ensures View(CollectorRemote(s.remote, s.clock, op, c)) == View(s.remote)
  {
    var r := s.remote;
    var r' := CollectorRemote(r, s.clock, op, c);
    forall k | k in r.objects && r.objects[k].Pointer? ensures r.objects[k].digest in r'.blobs {
      assert Anchored(r, k) && PointsTo(r, k, r.objects[k].digest);
    }
    SameView(env, r, r');
  }

  lemma MoveRefines(env: Env, s: State, id: Id, c: Choice)
    requires env.Sound() && Inv(env, s) && id in s.ops
    ensures View(NextRemote(env, s.remote, s.clock, s.ops[id], c)) == Changed(View(s.remote), EffectOf(env, s, Move(id, c)))
  {
    assert Knows(env, s.remote, s.clock, s.ops[id]);
    if s.ops[id].Writer? { WriterRefines(env, s, s.ops[id], c); }
    else { CollectorRefines(env, s, s.ops[id], c); }
  }

  lemma ForeignPutRefines(r: Remote, k: Key, bytes: Bytes, etag: ETag, clock: int)
    ensures View(r.(objects := r.objects[k := Raw(bytes, etag, clock)])) == View(r)[k := Written(bytes, clock)]
  {
  }

  lemma ForeignDeleteRefines(r: Remote, k: Key)
    ensures View(r.(objects := r.objects - {k})) == View(r) - {k}
  {
  }

  /** Every step is one change of a plain map or none at all: publishing a reference, writing an
      ordinary object and deleting one change exactly their own key, and uploads, markers,
      garbage marks, lock steps, crashes and collections are invisible. */
  lemma StepRefinesMap(env: Env, s: State, step: Step, s': State)
    requires env.Sound() && Inv(env, s) && Next(env, s, step, s')
    ensures View(s'.remote) == Changed(View(s.remote), EffectOf(env, s, step))
  {
    match step
    case Move(id, c) => MoveRefines(env, s, id, c);
    case ForeignPut(k, bytes, etag) => ForeignPutRefines(s.remote, k, bytes, etag, s.clock);
    case ForeignDelete(k) => ForeignDeleteRefines(s.remote, k);
    case _ =>
  }

  // ----- One change per operation

  /** Whether this step is a change made by operation id. */
  predicate ChangedBy(env: Env, s: State, step: Step, id: Id) {
    step.Move? && step.id == id && !EffectOf(env, s, step).Stutter?
  }

  /** The changes operation id has made to the view since it began. */
  function ChangesBy(env: Env, states: seq<State>, steps: seq<Step>, id: Id): nat
    requires |states| == |steps| + 1
  {
    if steps == [] then 0 else
    var n := |steps| - 1;
    if steps[n].Begin? && steps[n].id == id then 0 else
    ChangesBy(env, states[..n + 1], steps[..n], id) + if ChangedBy(env, states[n], steps[n], id) then 1 else 0
  }

  lemma WriterCounts(env: Env, s: State, op: Op, c: Choice)
    requires op.Writer? && StepFitsKind(op)
    ensures var op' := WriterNext(env, s.remote, op, c);
            && op'.kind == op.kind && op'.key == op.key
            && op'.effects == op.effects + if WriterEffect(env, s, op, c).Stutter? then 0 else 1
  {
  }

  lemma StepCounts(env: Env, s: State, step: Step, s': State, id: Id)
    requires Inv(env, s) && Next(env, s, step, s')
    requires id in s'.ops && s'.ops[id].Writer?
    requires !(step.Begin? && step.id == id)
    ensures id in s.ops && s.ops[id].Writer?
    ensures s'.ops[id].kind == s.ops[id].kind && s'.ops[id].key == s.ops[id].key
    ensures s'.ops[id].effects == s.ops[id].effects + if ChangedBy(env, s, step, id) then 1 else 0
  {
    if step.Move? && step.id == id && s.ops[id].Writer? {
      assert Knows(env, s.remote, s.clock, s.ops[id]);
      WriterCounts(env, s, s.ops[id], step.choice);
    }
  }

  lemma {:induction false} ChangesAreCounted(env: Env, states: seq<State>, steps: seq<Step>, id: Id)
    requires Run(env, states, steps)
    requires id in states[|steps|].ops && states[|steps|].ops[id].Writer?
    ensures states[|steps|].ops[id].effects == ChangesBy(env, states, steps, id)
  {
    if steps != [] {
      var n := |steps| - 1;
      assert Next(env, states[n], steps[n], states[n + 1]);
      if !(steps[n].Begin? && steps[n].id == id) {
        RunKeepsInv(env, states, steps, n);
        StepCounts(env, states[n], steps[n], states[n + 1], id);
        assert Run(env, states[..n + 1], steps[..n]);
        ChangesAreCounted(env, states[..n + 1], steps[..n], id);
      }
    }
  }

  /** A writer that returns success has changed the logical map exactly once; one that
      returns an error has changed it at most once. */
  lemma ExactlyOneChange(env: Env, states: seq<State>, steps: seq<Step>, id: Id)
    requires Run(env, states, steps)
    requires id in states[|steps|].ops && states[|steps|].ops[id].Writer? && states[|steps|].ops[id].step.Done?
    ensures if states[|steps|].ops[id].step.ok then ChangesBy(env, states, steps, id) == 1
            else ChangesBy(env, states, steps, id) <= 1
  {
    ChangesAreCounted(env, states, steps, id);
    RunKeepsInv(env, states, steps, |steps|);
  }

  /** What a call was asked to do to the logical map, at the moment it does it. */
  function Intended(env: Env, op: Op, clock: int): Effect
    requires op.Writer?
  {
    match op.kind
    case Put(bytes) => Update(op.key, Written(bytes, clock))
    case RawPut(bytes) => Update(op.key, Written(bytes, clock))
    case Dedup(record) => Update(op.key, Deduplicated(env, record))
    case Delete => Erase(op.key)
  }

  lemma EffectIsIntended(env: Env, s: State, id: Id, c: Choice)
    requires Inv(env, s) && id in s.ops && ChangedBy(env, s, Move(id, c), id)
    ensures s.ops[id].Writer?
    ensures EffectOf(env, s, Move(id, c)) == Intended(env, WriterNext(env, s.remote, s.ops[id], c), s.clock)
  {
    assert Knows(env, s.remote, s.clock, s.ops[id]);
    WriterCounts(env, s, s.ops[id], c);
  }

  /** The one change of a successful writer is the one it was called for, made since it began. */
  lemma {:induction false} ChangeIsIntended(env: Env, states: seq<State>, steps: seq<Step>, id: Id) returns (i: nat)
    requires Run(env, states, steps)
    requires id in states[|steps|].ops && states[|steps|].ops[id].Writer? && states[|steps|].ops[id].effects > 0
    ensures i < |steps| && steps[i].Move? && steps[i].id == id
    ensures EffectOf(env, states[i], steps[i]) == Intended(env, states[|steps|].ops[id], states[i].clock)
    ensures forall j :: i < j < |steps| ==> !(steps[j].Begin? && steps[j].id == id)
  {
    assert steps != [];
    var n := |steps| - 1;
    assert Next(env, states[n], steps[n], states[n + 1]);
    RunKeepsInv(env, states, steps, n);
    if ChangedBy(env, states[n], steps[n], id) {
      i := n;
      EffectIsIntended(env, states[n], id, steps[n].choice);
    } else {
      StepCounts(env, states[n], steps[n], states[n + 1], id);
      assert Run(env, states[..n + 1], steps[..n]);
      i := ChangeIsIntended(env, states[..n + 1], steps[..n], id);
    }
  }

  // ----- Putting a file

  /** Step i was made since id began last, and it changed the view for id. */
  ghost predicate ChangedAt(env: Env, states: seq<State>, steps: seq<Step>, id: Id, i: nat)
    requires |states| == |steps| + 1
  {
    && i < |steps| && ChangedBy(env, states[i], steps[i], id)
    && forall j :: i < j < |steps| ==> !(steps[j].Begin? && steps[j].id == id)
  }

  lemma {:induction false} CountsOne(env: Env, states: seq<State>, steps: seq<Step>, id: Id, i: nat)
    requires |states| == |steps| + 1 && ChangedAt(env, states, steps, id, i)
    ensures ChangesBy(env, states, steps, id) >= 1
  {
    var n := |steps| - 1;
    if i < n { CountsOne(env, states[..n + 1], steps[..n], id, i); }
  }

  lemma {:induction false} CountsTwo(env: Env, states: seq<State>, steps: seq<Step>, id: Id, i: nat, j: nat)
    requires |states| == |steps| + 1 && i < j && ChangedAt(env, states, steps, id, i) && ChangedAt(env, states, steps, id, j)
    ensures ChangesBy(env, states, steps, id) >= 2
  {
    var n := |steps| - 1;
    if j < n {
      CountsTwo(env, states[..n + 1], steps[..n], id, i, j);
    } else {
      CountsOne(env, states[..n + 1], steps[..n], id, i);
    }
  }

  /** An operation still does what it was begun for. */
  lemma {:induction false} StaysAsBegun(env: Env, states: seq<State>, steps: seq<Step>, id: Id, begun: nat)
    requires Run(env, states, steps) && begun < |steps| && steps[begun].Begin? && steps[begun].id == id
    requires forall j :: begun < j < |steps| ==> !(steps[j].Begin? && steps[j].id == id)
    requires steps[begun].op.Writer? && id in states[|steps|].ops
    ensures var op := states[|steps|].ops[id]; op.Writer? && op.kind == steps[begun].op.kind && op.key == steps[begun].op.key
  {
    var n := |steps| - 1;
    assert Next(env, states[n], steps[n], states[n + 1]);
    if begun < n {
      RunKeepsInv(env, states, steps, n);
      assert Run(env, states[..n + 1], steps[..n]);
      StaysAsBegun(env, states[..n + 1], steps[..n], id, begun);
      StepCounts(env, states[n], steps[n], states[n + 1], id);
    }
  }

  /** Putting a file of any size, be it installed or written as an ordinary object: once the call has
      returned success, one step made since it began has put the whole file at its key with the time
      of that step, and no other step of the call has changed anything. */
  lemma PutFileTakesEffect(env: Env, states: seq<State>, steps: seq<Step>, id: Id, begun: nat, key: Key, bytes: Bytes)
    returns (i: nat)
    requires env.Sound() && Run(env, states, steps)
    requires begun < |steps| && steps[begun] == Begin(id, StartPut(key, bytes))
    requires forall j :: begun < j < |steps| ==> !(steps[j].Begin? && steps[j].id == id)
    requires id in states[|steps|].ops && states[|steps|].ops[id].Writer? && states[|steps|].ops[id].step == Done(true)
    ensures begun < i < |steps| && steps[i].Move? && steps[i].id == id
    ensures View(states[i + 1].remote) == View(states[i].remote)[key := Written(bytes, states[i].clock)]
    ensures forall j :: begun < j < |steps| && j != i && steps[j].Move? && steps[j].id == id ==>
              View(states[j + 1].remote) == View(states[j].remote)
  {
    ExactlyOneChange(env, states, steps, id);
    ChangesAreCounted(env, states, steps, id);
    StaysAsBegun(env, states, steps, id, begun);
    i := ChangeIsIntended(env, states, steps, id);
    RunRefines(env, states, steps, i);
    assert !EffectOf(env, states[i], steps[i]).Stutter?;
    forall j | begun < j < |steps| && j != i && steps[j].Move? && steps[j].id == id
      ensures View(states[j + 1].remote) == View(states[j].remote)
    {
      RunRefines(env, states, steps, j);
      if ChangedBy(env, states[j], steps[j], id) { CountsTwo(env, states, steps, id, if i < j then i else j, if i < j then j else i); }
    }
  }

  lemma RunRefines(env: Env, states: seq<State>, steps: seq<Step>, i: nat)
    requires env.Sound() && Run(env, states, steps) && i < |steps|
    ensures View(states[i + 1].remote) == Changed(View(states[i].remote), EffectOf(env, states[i], steps[i]))
  {
    RunKeepsInv(env, states, steps, i);
    StepRefinesMap(env, states[i], steps[i], states[i + 1]);
  }

  // ----- Deduplication

  /** The object a deduplication replaces is the ordinary one its record was learned from. */
  lemma DedupSource(env: Env, r: Remote, op: Op)
    requires env.Sound() && Consistent(env, r)
    requires op.Writer? && op.kind.Dedup? && op.step.PutPointer? && WriterKnows(env, r, op)
    requires HasETag(r, op.key, op.kind.record.etag)
    ensures r.objects[op.key].Raw? && r.objects[op.key].bytes == env.body(op.kind.record.etag)
    ensures View(r)[op.key] == Readable(env.body(op.kind.record.etag), op.kind.record.size, r.objects[op.key].mtime)
  {
    assert env.body(r.objects[op.key].etag) == StoredBody(env, r.objects[op.key]);
  }

  /** A deduplication that publishes keeps the bytes and the size of its object, whoever else
      wrote the key meanwhile. The time it shows is the recorded one, so nothing at all changes
      exactly when the recorded time is positive and still the object's own: an entity tag
      identifies contents, not the moment they were written. */
  lemma DedupInvisible(env: Env, s: State, id: Id, c: Choice)
    requires env.Sound() && Inv(env, s) && Enabled(env, s, id, c)
    requires s.ops[id].Writer? && s.ops[id].kind.Dedup? && s.ops[id].step.PutPointer?
    requires TookEffect(c) && HasETag(s.remote, s.ops[id].key, s.ops[id].kind.record.etag)
    ensures var record := s.ops[id].kind.record;
            var key := s.ops[id].key;
            var before := View(s.remote);
            var after := View(Advance(env, s, id, c).remote);
            && before[key].Readable?
            && (record.modTime > 0 ==> after == before[key := before[key].(mtime := record.modTime)])
            && (record.modTime <= 0 ==> after == before[key := Unreadable])
            && (after == before <==> record.modTime > 0 && record.modTime == s.remote.objects[key].mtime)
  {
    var op := s.ops[id];
    assert Knows(env, s.remote, s.clock, op);
    DedupSource(env, s.remote, op);
    MoveRefines(env, s, id, c);
    Restamped(View(s.remote), op.key, env.body(op.kind.record.etag), op.kind.record, s.remote.objects[op.key].mtime);
  }

  lemma Restamped(before: map<Key, Logical>, key: Key, bytes: Bytes, record: Record, mtime: int)
    requires key in before && before[key] == Readable(bytes, record.size, mtime)
    ensures var after := before[key := if record.modTime <= 0 then Unreadable else Readable(bytes, record.size, record.modTime)];
            && (record.modTime > 0 ==> after == before[key := before[key].(mtime := record.modTime)])
            && (after == before <==> record.modTime > 0 && record.modTime == mtime)
  {
    var after := before[key := if record.modTime <= 0 then Unreadable else Readable(bytes, record.size, record.modTime)];
    if after == before { assert after[key] == before[key]; }
  }
}
