/**
 The content-addressed S3 store: logical objects, immutable payloads, durable
 reference markers, and the collector that retires payloads nobody names.

 The store runs as a machine whose atomic steps are remote calls, lock
 acquisitions and lock releases. Any number of operations are in flight. A
 remote call may fail before or after it took effect, the process may crash
 between any two steps, and a foreign writer that honours no lock may replace
 or delete ordinary objects at any time.
 */
module ContentStore {
  import opened Options

  type Key = string
  type Bytes = seq<bv8>
  type Digest = string
  type ETag = string
  type Id = nat

  // Payloads below this size stay ordinary objects.
  const DEDUP_MINIMUM: nat := 65536
  // Every reference object has a body of this length.
  const REFERENCE_BODY: nat := 97
  // One collection pass looks at no more markers than this.
  const PASS_LIMIT: nat := 10000
  const MARKER_LIMIT: nat := 4096
  // Time is counted in nanoseconds; the grace period is a day.
  const GRACE: int := 24 * 60 * 60 * 1_000_000_000

  /** What the store relies on but does not compute itself: the payload hash,
      the body an entity tag stands for, the body of a reference object, and
      the assignment of keys and digests to lock stripes. */
  datatype Env = Env(
    sha: Bytes -> Digest,
    body: ETag -> Bytes,
    referenceBody: (Digest, nat) -> Bytes,
    targetStripe: Key -> nat,
    contentStripe: Digest -> nat)
  {
    /** The hash does not collide, and reference bodies have their fixed length. */
    ghost predicate Sound() {
      && (forall a, b :: sha(a) == sha(b) ==> a == b)
      && (forall d, n :: |referenceBody(d, n)| == REFERENCE_BODY)
    }
  }

  /** An object at a logical key. A Malformed object carries reference metadata
      that does not parse. */
  datatype Object =
    | Raw(bytes: Bytes, etag: ETag, mtime: int)
    | Pointer(digest: Digest, size: nat, stamp: Option<int>, etag: ETag, mtime: int)
    | Malformed(bytes: Bytes, etag: ETag, mtime: int)

  /** The bucket: logical objects, payloads, markers naming (digest, key), and
      the time each garbage mark was written. */
  datatype Remote = Remote(
    objects: map<Key, Object>,
    blobs: map<Digest, Bytes>,
    markers: set<(Digest, Key)>,
    marks: map<Digest, int>)

  datatype Reference = NoReference | Names(digest: Digest) | Invalid

  function ReadReference(o: Object): Reference {
    match o
    case Raw(_, _, _) => NoReference
    case Malformed(_, _, _) => Invalid
    case Pointer(d, size, _, _, _) => if size < DEDUP_MINIMUM then Invalid else Names(d)
  }

  function StoredBody(env: Env, o: Object): Bytes {
    if o.Pointer? then env.referenceBody(o.digest, o.size) else o.bytes
  }

  /** The logical object a reader sees at a key. */
  datatype Logical = Readable(bytes: Bytes, size: nat, mtime: int) | Unreadable

  function Resolve(r: Remote, o: Object): Logical {
    match o
    case Raw(bytes, _, mtime) => Readable(bytes, |bytes|, mtime)
    case Malformed(_, _, _) => Unreadable
    case Pointer(d, size, stamp, _, mtime) =>
      if size < DEDUP_MINIMUM || d !in r.blobs || (stamp.Some? && stamp.value <= 0) then Unreadable
      else Readable(r.blobs[d], size, if stamp.Some? then stamp.value else mtime)
  }

  function View(r: Remote): map<Key, Logical> {
    map k | k in r.objects :: Resolve(r, r.objects[k])
  }

  predicate PointsTo(r: Remote, k: Key, d: Digest) {
    k in r.objects && r.objects[k].Pointer? && r.objects[k].digest == d
  }

  ghost predicate Pointed(r: Remote, d: Digest) {
    exists k :: PointsTo(r, k, d)
  }

  // ----- Operations and their steps

  /** Transfer metadata learned about an ordinary object. */
  datatype Record = Record(digest: Digest, etag: ETag, size: nat, modTime: int)

  datatype Kind =
    | Put(bytes: Bytes)
    | Dedup(record: Record)
    | RawPut(bytes: Bytes)
    | Delete

  datatype WriterStep =
    | WantTarget
    | StatOld
    | StatPrior
    | WantContent
    | StatBlob
    | Upload
    | PutMarker
    | PutPointer
    | DropMark
    | FreeContent(ok: bool)
    | PutObject
    | RemoveObject
    | WantOld
    | RemoveMarker
    | FreeOld
    | FreeTarget(ok: bool)
    | Done(ok: bool)

  datatype CollectorStep =
    | WantBlob
    | List
    | Read(todo: seq<Key>, visited: nat)
    | Check(todo: seq<Key>, visited: nat)
    | Drop(todo: seq<Key>, visited: nat)
    | KeepPayload
    | StatMark
    | PutMark
    | DeleteData
    | DeleteMark
    | FreeBlob(ok: bool)
    | Ended(ok: bool)

  /** An operation in flight. A writer counts the changes it made to the logical
      object at its key. */
  datatype Op =
    | Writer(kind: Kind, key: Key, step: WriterStep, previous: Option<Digest>, effects: nat)
    | Collector(target: Digest, now: int, grace: bool, phase: CollectorStep)

  predicate Finished(op: Op) {
    if op.Writer? then op.step.Done? else op.phase.Ended?
  }

  /** Installs store a payload under its digest; the other writers do not. */
  predicate Installs(kind: Kind) { kind.Put? || kind.Dedup? }

  function DigestOf(env: Env, kind: Kind): Digest
    requires Installs(kind)
  {
    if kind.Put? then env.sha(kind.bytes) else kind.record.digest
  }

  function SizeOf(kind: Kind): nat
    requires Installs(kind)
  {
    if kind.Put? then |kind.bytes| else kind.record.size
  }

  /** The call's own size test sends small files to the ordinary writer. */
  function StartPut(key: Key, bytes: Bytes): Op {
    Writer(if |bytes| < DEDUP_MINIMUM then RawPut(bytes) else Put(bytes), key, WantTarget, None, 0)
  }

  /** A record is usable when the object it was learned from had the recorded digest and size. */
  ghost predicate Learned(env: Env, record: Record) {
    && env.sha(env.body(record.etag)) == record.digest
    && |env.body(record.etag)| == record.size
  }

  ghost predicate CanBegin(env: Env, op: Op, clock: int) {
    match op
    case Writer(kind, _, step, previous, effects) =>
      && step == WantTarget && previous == None && effects == 0
      && (kind.Put? ==> |kind.bytes| >= DEDUP_MINIMUM)
      && (kind.Dedup? ==> kind.record.size >= DEDUP_MINIMUM && Learned(env, kind.record))
    case Collector(_, now, _, phase) => phase == WantBlob && now <= clock
  }

  datatype Outcome = Ok | FailedBefore | FailedAfter

  /** What the environment decides in one step: how the remote call ends, the
      entity tag a PUT is given, and the order in which a listing arrives. */
  datatype Choice = Choice(out: Outcome, etag: ETag, listing: seq<Key>)

  datatype State = State(
    remote: Remote,
    targets: map<nat, Id>,
    contents: map<nat, Id>,
    ops: map<Id, Op>,
    clock: int)

  predicate TookEffect(c: Choice) { c.out != FailedBefore }

  /** The reference object an install writes at its key. */
  function NewPointer(env: Env, kind: Kind, etag: ETag, clock: int): Object
    requires Installs(kind)
  {
    Pointer(DigestOf(env, kind), SizeOf(kind), if kind.Dedup? then Some(kind.record.modTime) else None, etag, clock)
  }

  predicate HasETag(r: Remote, k: Key, etag: ETag) {
    k in r.objects && r.objects[k].etag == etag
  }

  /** A conditional PUT or copy is refused unless the object still has the recorded tag. */
  predicate Matches(r: Remote, key: Key, kind: Kind) {
    kind.Dedup? ==> HasETag(r, key, kind.record.etag)
  }

  function UploadedBytes(env: Env, r: Remote, key: Key, kind: Kind): Bytes
    requires Installs(kind) && Matches(r, key, kind)
  {
    if kind.Put? then kind.bytes else StoredBody(env, r.objects[key])
  }

  // ----- What one step does to the bucket

  function WriterRemote(env: Env, r: Remote, clock: int, op: Op, c: Choice): Remote
    requires op.Writer?
  {
    if !TookEffect(c) then r else
    match op.step
    case Upload =>
      if Installs(op.kind) && Matches(r, op.key, op.kind)
      then r.(blobs := r.blobs[DigestOf(env, op.kind) := UploadedBytes(env, r, op.key, op.kind)])
      else r
    case PutMarker =>
      if Installs(op.kind) then r.(markers := r.markers + {(DigestOf(env, op.kind), op.key)}) else r
    case PutPointer =>
      if Installs(op.kind) && Matches(r, op.key, op.kind)
      then r.(objects := r.objects[op.key := NewPointer(env, op.kind, c.etag, clock)])
      else r
    case DropMark =>
      if Installs(op.kind) then r.(marks := r.marks - {DigestOf(env, op.kind)}) else r
    case PutObject =>
      if op.kind.RawPut? then r.(objects := r.objects[op.key := Raw(op.kind.bytes, c.etag, clock)]) else r
    case RemoveObject => r.(objects := r.objects - {op.key})
    case RemoveMarker =>
      if op.previous.Some? then r.(markers := r.markers - {(op.previous.value, op.key)}) else r
    case _ => r
  }

  function CollectorRemote(r: Remote, clock: int, op: Op, c: Choice): Remote
    requires op.Collector?
  {
    if !TookEffect(c) then r else
    match op.phase
    case Drop(todo, _) => if todo != [] then r.(markers := r.markers - {(op.target, todo[0])}) else r
    case KeepPayload => r.(marks := r.marks - {op.target})
    case PutMark => r.(marks := r.marks[op.target := clock])
    case DeleteData => r.(blobs := r.blobs - {op.target})
    case DeleteMark => r.(marks := r.marks - {op.target})
    case _ => r
  }

  // ----- Where one step leads

  function AfterStatOld(r: Remote, op: Op): Op
    requires op.Writer?
  {
    var found := if op.key in r.objects then ReadReference(r.objects[op.key]) else NoReference;
    if found.Invalid? then op.(step := FreeTarget(false)) else
    op.(previous := if found.Names? then Some(found.digest) else None,
        step := match op.kind
                case Put(_) => WantContent
                case Dedup(_) => StatPrior
                case RawPut(_) => PutObject
                case Delete => RemoveObject)
  }

  function AfterStatBlob(env: Env, r: Remote, op: Op): WriterStep
    requires op.Writer? && Installs(op.kind)
  {
    var d := DigestOf(env, op.kind);
    if d !in r.blobs then Upload
    else if |r.blobs[d]| != SizeOf(op.kind) then FreeContent(false)
    else PutMarker
  }

  /** A durable replacement releases the marker of the content it replaced. */
  function AfterFreeContent(env: Env, op: Op, ok: bool): WriterStep
    requires op.Writer? && Installs(op.kind)
  {
    if ok && op.previous.Some? && op.previous.value != DigestOf(env, op.kind) then WantOld else FreeTarget(ok)
  }

  function WriterNext(env: Env, r: Remote, op: Op, c: Choice): Op
    requires op.Writer?
  {
    var good := c.out == Ok;
    match op.step
    case WantTarget => op.(step := StatOld)
    case StatOld => if good then AfterStatOld(r, op) else op.(step := FreeTarget(false))
    case StatPrior => op.(step := if good && Matches(r, op.key, op.kind) then WantContent else FreeTarget(false))
    case WantContent => op.(step := StatBlob)
    case StatBlob =>
      op.(step := if good && Installs(op.kind) then AfterStatBlob(env, r, op) else FreeContent(false))
    case Upload => op.(step := if good && Matches(r, op.key, op.kind) then PutMarker else FreeContent(false))
    case PutMarker => op.(step := if good then PutPointer else FreeContent(false))
    case PutPointer =>
      var published := Matches(r, op.key, op.kind);
      op.(step := if good && published then DropMark else FreeContent(false),
          effects := op.effects + if published && TookEffect(c) then 1 else 0)
    case DropMark => op.(step := FreeContent(true))
    case FreeContent(ok) => op.(step := if Installs(op.kind) then AfterFreeContent(env, op, ok) else FreeTarget(ok))
    case PutObject =>
      op.(step := if !good then FreeTarget(false) else if op.previous.Some? then WantOld else FreeTarget(true),
          effects := op.effects + if TookEffect(c) then 1 else 0)
    case RemoveObject =>
      op.(step := if !good then FreeTarget(false) else if op.previous.Some? then WantOld else FreeTarget(true),
          effects := op.effects + if TookEffect(c) then 1 else 0)
    case WantOld => op.(step := RemoveMarker)
    case RemoveMarker => op.(step := FreeOld)
    case FreeOld => op.(step := FreeTarget(true))
    case FreeTarget(ok) => op.(step := Done(ok))
    case Done(_) => op
  }

  /** Past the last marker the collector turns to the garbage mark and the payload. */
  function AfterMarkers(grace: bool): CollectorStep {
    if grace then StatMark else DeleteData
  }

  function AfterCheck(r: Remote, d: Digest, todo: seq<Key>, visited: nat): CollectorStep
    requires todo != []
  {
    var found := if todo[0] in r.objects then ReadReference(r.objects[todo[0]]) else NoReference;
    if found.Invalid? then FreeBlob(false)
    else if found == Names(d) then KeepPayload
    else Drop(todo, visited)
  }

  function CollectorPhase(r: Remote, op: Op, c: Choice): CollectorStep
    requires op.Collector?
  {
    var good := c.out == Ok;
    match op.phase
    case WantBlob => List
    case List => if good then Read(c.listing, 0) else FreeBlob(false)
    case Read(todo, visited) =>
      if !good then FreeBlob(false)
      else if todo == [] then AfterMarkers(op.grace)
      else if visited >= PASS_LIMIT then FreeBlob(true)
      else if |todo[0]| < 1 || |todo[0]| > MARKER_LIMIT then FreeBlob(false)
      else Check(todo, visited + 1)
    case Check(todo, visited) =>
      if good && todo != [] then AfterCheck(r, op.target, todo, visited) else FreeBlob(false)
    case Drop(todo, visited) => if good && todo != [] then Read(todo[1..], visited) else FreeBlob(false)
    case KeepPayload => FreeBlob(true)
    case StatMark =>
      if !good then FreeBlob(false)
      else if op.target !in r.marks then PutMark
      else if op.now - r.marks[op.target] < GRACE then FreeBlob(true)
      else DeleteData
    case PutMark => FreeBlob(good)
    case DeleteData => if good then DeleteMark else FreeBlob(false)
    case DeleteMark => FreeBlob(good)
    case FreeBlob(ok) => Ended(ok)
    case Ended(ok) => Ended(ok)
  }

  // ----- Locks

  /** The target stripe an operation holds. */
  function HeldTarget(env: Env, op: Op): Option<nat> {
    if op.Writer? && !op.step.WantTarget? && !op.step.Done? then Some(env.targetStripe(op.key)) else None
  }

  /** The content stripe an operation holds. */
  function HeldContent(env: Env, op: Op): Option<nat> {
    match op
    case Writer(kind, _, step, previous, _) =>
      if (step.StatBlob? || step.Upload? || step.PutMarker? || step.PutPointer? || step.DropMark? || step.FreeContent?) && Installs(kind)
      then Some(env.contentStripe(DigestOf(env, kind)))
      else if (step.RemoveMarker? || step.FreeOld?) && previous.Some? then Some(env.contentStripe(previous.value))
      else None
    case Collector(d, _, _, phase) =>
      if phase.WantBlob? || phase.Ended? then None else Some(env.contentStripe(d))
  }

  /** Go's mutexes: the table gains an entry when a stripe is acquired and loses it on release. */
  function Relock(table: map<nat, Id>, id: Id, before: Option<nat>, after: Option<nat>): map<nat, Id> {
    var released := if before.Some? then table - {before.value} else table;
    if before == after then table else if after.Some? then released[after.value := id] else released
  }

  predicate Free(table: map<nat, Id>, before: Option<nat>, after: Option<nat>) {
    after.Some? && before != after ==> after.value !in table
  }

  function NextOp(env: Env, r: Remote, op: Op, c: Choice): Op {
    if op.Writer? then WriterNext(env, r, op, c) else op.(phase := CollectorPhase(r, op, c))
  }

  function NextRemote(env: Env, r: Remote, clock: int, op: Op, c: Choice): Remote {
    if op.Writer? then WriterRemote(env, r, clock, op, c) else CollectorRemote(r, clock, op, c)
  }

  /** The environment's choice is one the server could make. */
  ghost predicate Honest(env: Env, r: Remote, clock: int, op: Op, c: Choice) {
    && (op.Collector? && op.phase.List? ==>
          && (forall k :: k in c.listing <==> (op.target, k) in r.markers)
          && (forall i, j :: 0 <= i < j < |c.listing| ==> c.listing[i] != c.listing[j]))
    && (op.Writer? && op.step.PutPointer? && Installs(op.kind) ==>
          env.body(c.etag) == env.referenceBody(DigestOf(env, op.kind), SizeOf(op.kind)))
    && (op.Writer? && op.step.PutObject? && op.kind.RawPut? ==> env.body(c.etag) == op.kind.bytes)
  }

  ghost predicate Enabled(env: Env, s: State, id: Id, c: Choice) {
    && id in s.ops
    && !Finished(s.ops[id])
    && Honest(env, s.remote, s.clock, s.ops[id], c)
    && var op := s.ops[id];
       var op' := NextOp(env, s.remote, op, c);
       && Free(s.targets, HeldTarget(env, op), HeldTarget(env, op'))
       && Free(s.contents, HeldContent(env, op), HeldContent(env, op'))
  }

  function Advance(env: Env, s: State, id: Id, c: Choice): State
    requires id in s.ops
  {
    var op := s.ops[id];
    var op' := NextOp(env, s.remote, op, c);
    State(
      NextRemote(env, s.remote, s.clock, op, c),
      Relock(s.targets, id, HeldTarget(env, op), HeldTarget(env, op')),
      Relock(s.contents, id, HeldContent(env, op), HeldContent(env, op')),
      s.ops[id := op'],
      s.clock)
  }

  datatype Step =
    | Begin(id: Id, op: Op)
    | Move(id: Id, choice: Choice)
    | Tick(delta: nat)
    | Crash
    | ForeignPut(key: Key, bytes: Bytes, etag: ETag)
    | ForeignDelete(key: Key)

  ghost predicate Possible(env: Env, s: State, step: Step) {
    match step
    case Begin(id, op) => id !in s.ops && CanBegin(env, op, s.clock)
    case Move(id, c) => Enabled(env, s, id, c)
    case Tick(_) => true
    case Crash => true
    case ForeignPut(_, bytes, etag) => env.body(etag) == bytes
    case ForeignDelete(_) => true
  }

  function Apply(env: Env, s: State, step: Step): State
    requires step.Move? ==> step.id in s.ops
  {
    match step
    case Begin(id, op) => s.(ops := s.ops[id := op])
    case Move(id, c) => Advance(env, s, id, c)
    case Tick(delta) => s.(clock := s.clock + delta)
    case Crash => s.(ops := map[], targets := map[], contents := map[])
    case ForeignPut(k, bytes, etag) =>
      s.(remote := s.remote.(objects := s.remote.objects[k := Raw(bytes, etag, s.clock)]))
    case ForeignDelete(k) => s.(remote := s.remote.(objects := s.remote.objects - {k}))
  }

  ghost predicate Next(env: Env, s: State, step: Step, s': State) {
    Possible(env, s, step) && s' == Apply(env, s, step)
  }
}
