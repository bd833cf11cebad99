/**
 A run in which a deduplication changes the time an object shows: the same contents were
 written again after their digest was learned, and the entity tag does not tell.
 */
module ContentStoreDedupTime {
  import opened Options
  import opened ContentStore
  import opened ContentStoreTheorems
  import opened ContentStoreProgress

  function Deduplicator(k: Key, record: Record, step: WriterStep): Op {
    Writer(Dedup(record), k, step, None, 0)
  }

  /** A bucket with one ordinary object. */
  function Ordinary(k: Key, bytes: Bytes, etag: ETag, mtime: int): Remote {
    Remote(map[k := Raw(bytes, etag, mtime)], map[], {}, map[])
  }

  function Targeted(env: Env, r: Remote, k: Key, record: Record, step: WriterStep, clock: int): State {
    State(r, map[env.targetStripe(k) := 0], map[], map[0 := Deduplicator(k, record, step)], clock)
  }

  function Working(env: Env, r: Remote, k: Key, record: Record, step: WriterStep, clock: int): State {
    State(r, map[env.targetStripe(k) := 0], map[env.contentStripe(record.digest) := 0], map[0 := Deduplicator(k, record, step)], clock)
  }

  /** The object is written twice, and the deduplication of the first version begins. */
  lemma WrittenTwice(env: Env, k: Key, bytes: Bytes, etag: ETag, record: Record, first: int, ok: Choice) returns (steps: seq<Step>)
    requires env.body(etag) == bytes && |bytes| >= DEDUP_MINIMUM && record == Record(env.sha(bytes), etag, |bytes|, first)
    ensures Reaches(env, AtRest(Remote(map[], map[], {}, map[]), first), steps,
                    Targeted(env, Ordinary(k, bytes, etag, first + 1), k, record, StatOld, first + 1))
  {
    var s0 := AtRest(Remote(map[], map[], {}, map[]), first);
    var put := ForeignPut(k, bytes, etag);
    var s1 := AtRest(Ordinary(k, bytes, etag, first), first);
    var s2 := s1.(clock := first + 1);
    var s3 := AtRest(Ordinary(k, bytes, etag, first + 1), first + 1);
    var op := Deduplicator(k, record, WantTarget);
    var s4 := s3.(ops := map[0 := op]);
    var s5 := Targeted(env, s3.remote, k, record, StatOld, first + 1);
    assert Apply(env, s0, put) == s1 && Apply(env, s1, Tick(1)) == s2 && Apply(env, s2, put) == s3;
    assert Apply(env, s3, Begin(0, op)) == s4 && Apply(env, s4, Move(0, ok)) == s5;
    Extend(env, s0, [], s0, put, s1);
    Extend(env, s0, [] + [put], s1, Tick(1), s2);
    Extend(env, s0, [] + [put] + [Tick(1)], s2, put, s3);
    Extend(env, s0, [] + [put] + [Tick(1)] + [put], s3, Begin(0, op), s4);
    Extend(env, s0, [] + [put] + [Tick(1)] + [put] + [Begin(0, op)], s4, Move(0, ok), s5);
    steps := [] + [put] + [Tick(1)] + [put] + [Begin(0, op)] + [Move(0, ok)];
  }

  /** It finds the tag it knows, twice, and takes its content lock. */
  lemma TagMatches(env: Env, k: Key, bytes: Bytes, record: Record, clock: int, ok: Choice) returns (steps: seq<Step>)
    requires ok.out == Ok
    ensures var r := Ordinary(k, bytes, record.etag, clock);
            Reaches(env, Targeted(env, r, k, record, StatOld, clock), steps, Working(env, r, k, record, StatBlob, clock))
  {
    var r := Ordinary(k, bytes, record.etag, clock);
    var s0 := Targeted(env, r, k, record, StatOld, clock);
    var s1 := Targeted(env, r, k, record, StatPrior, clock);
    var s2 := Targeted(env, r, k, record, WantContent, clock);
    var s3 := Working(env, r, k, record, StatBlob, clock);
    QuietMove(env, s0, 0, ok, r, s1.ops[0]);
    QuietMove(env, s1, 0, ok, r, s2.ops[0]);
    assert Placed(s0, r, 0, s1.ops[0]) == s1 && Placed(s1, r, 0, s2.ops[0]) == s2;
    assert Apply(env, s2, Move(0, ok)) == s3;
    ReachesThen(env, s0, [Move(0, ok)], s1, [Move(0, ok)], s2);
    Extend(env, s0, [Move(0, ok)] + [Move(0, ok)], s2, Move(0, ok), s3);
    steps := [Move(0, ok)] + [Move(0, ok)] + [Move(0, ok)];
  }

  /** It copies the payload and writes the marker. */
  lemma PayloadCopied(env: Env, k: Key, bytes: Bytes, record: Record, clock: int, ok: Choice) returns (steps: seq<Step>)
    requires ok.out == Ok
    ensures var r := Ordinary(k, bytes, record.etag, clock);
            Reaches(env, Working(env, r, k, record, StatBlob, clock), steps,
                    Working(env, r.(blobs := map[record.digest := bytes], markers := {(record.digest, k)}), k, record, PutPointer, clock))
  {
    var r := Ordinary(k, bytes, record.etag, clock);
    var r1 := r.(blobs := map[record.digest := bytes]);
    var r2 := r1.(markers := {(record.digest, k)});
    var s0, s1 := Working(env, r, k, record, StatBlob, clock), Working(env, r, k, record, Upload, clock);
    var s2, s3 := Working(env, r1, k, record, PutMarker, clock), Working(env, r2, k, record, PutPointer, clock);
    QuietMove(env, s0, 0, ok, r, s1.ops[0]);
    assert Placed(s0, r, 0, s1.ops[0]) == s1;
    QuietMove(env, s1, 0, ok, r1, s2.ops[0]);
    assert Placed(s1, r1, 0, s2.ops[0]) == s2;
    QuietMove(env, s2, 0, ok, r2, s3.ops[0]);
    assert Placed(s2, r2, 0, s3.ops[0]) == s3;
    ReachesThen(env, s0, [Move(0, ok)], s1, [Move(0, ok)], s2);
    ReachesThen(env, s0, [Move(0, ok)] + [Move(0, ok)], s2, [Move(0, ok)], s3);
    steps := [Move(0, ok)] + [Move(0, ok)] + [Move(0, ok)];
  }

  lemma Publishes(env: Env, k: Key, bytes: Bytes, record: Record, clock: int, ok: Choice)
    requires ok.out == Ok && env.body(ok.etag) == env.referenceBody(record.digest, record.size)
    requires record.size == |bytes| >= DEDUP_MINIMUM && record.modTime > 0
    ensures var r := Ordinary(k, bytes, record.etag, clock).(blobs := map[record.digest := bytes], markers := {(record.digest, k)});
            var s := Working(env, r, k, record, PutPointer, clock);
            && Enabled(env, s, 0, ok)
            && k in View(r) && View(r)[k] == Readable(bytes, |bytes|, clock)
            && View(Advance(env, s, 0, ok).remote) == View(r)[k := Readable(bytes, |bytes|, record.modTime)]
  {
    var r := Ordinary(k, bytes, record.etag, clock).(blobs := map[record.digest := bytes], markers := {(record.digest, k)});
    var s := Working(env, r, k, record, PutPointer, clock);
    assert Advance(env, s, 0, ok).remote == r.(objects := map[k := NewPointer(env, Dedup(record), ok.etag, clock)]);
  }

  /** In this run the reference is published: the object shows the same bytes and the time of the
      first write, where it showed the time of the second. */
  lemma DedupCanTurnBackTime(env: Env, k: Key, bytes: Bytes, etag: ETag, first: int, ok: Choice)
    returns (steps: seq<Step>, s: State)
    requires env.body(etag) == bytes && |bytes| >= DEDUP_MINIMUM && first > 0
    requires ok.out == Ok && env.body(ok.etag) == env.referenceBody(env.sha(bytes), |bytes|)
    ensures Initial(env, AtRest(Remote(map[], map[], {}, map[]), first))
    ensures Reaches(env, AtRest(Remote(map[], map[], {}, map[]), first), steps, s)
    ensures Enabled(env, s, 0, ok) && s.ops[0].Writer? && s.ops[0].kind.Dedup? && s.ops[0].step.PutPointer?
    ensures k in View(s.remote) && View(s.remote)[k] == Readable(bytes, |bytes|, first + 1)
    ensures View(Advance(env, s, 0, ok).remote) == View(s.remote)[k := Readable(bytes, |bytes|, first)]
  {
    hide View, Enabled, Advance;
    var record := Record(env.sha(bytes), etag, |bytes|, first);
    var r := Ordinary(k, bytes, etag, first + 1);
    var s0 := AtRest(Remote(map[], map[], {}, map[]), first);
    var s1 := Targeted(env, r, k, record, StatOld, first + 1);
    var s2 := Working(env, r, k, record, StatBlob, first + 1);
    var r3 := r.(blobs := map[record.digest := bytes], markers := {(record.digest, k)});
    s := Working(env, r3, k, record, PutPointer, first + 1);
    var a := WrittenTwice(env, k, bytes, etag, record, first, ok);
    var b := TagMatches(env, k, bytes, record, first + 1, ok);
    var c := PayloadCopied(env, k, bytes, record, first + 1, ok);
    ReachesThen(env, s0, a, s1, b, s2);
    ReachesThen(env, s0, a + b, s2, c, s);
    steps := a + b + c;
    Publishes(env, k, bytes, record, first + 1, ok);
  }
}
