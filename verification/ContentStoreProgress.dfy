/**
 Progress of the content store: no deadlock for any assignment of keys and digests
 to lock stripes, and completion of everything in flight.
 */
module ContentStoreProgress {
  import opened Options
  import opened ContentStore
  import opened ContentStoreSafety

  ghost predicate Tagged(env: Env, body: Bytes) {
    exists e :: env.body(e) == body
  }

  /** The server can tag any body. */
  ghost predicate CanTag(env: Env) {
    forall b :: Tagged(env, b)
  }

  ghost function Enumerate(keys: set<Key>): (listing: seq<Key>)
    ensures forall k :: k in listing <==> k in keys
    ensures forall i, j :: 0 <= i < j < |listing| ==> listing[i] != listing[j]
    ensures |listing| == |keys|
  {
    if keys == {} then [] else var k :| k in keys; [k] + Enumerate(keys - {k})
  }

  ghost function MarkedKeys(r: Remote, d: Digest): set<Key> {
    set m | m in r.markers && m.0 == d :: m.1
  }

  /** The environment can always let a call succeed. */
  ghost function Success(env: Env, op: Op, r: Remote): (c: Choice)
    requires CanTag(env)
    ensures c.out == Ok && forall clock :: Honest(env, r, clock, op, c)
  {
    var body :=
      if op.Writer? && Installs(op.kind) then env.referenceBody(DigestOf(env, op.kind), SizeOf(op.kind))
      else if op.Writer? && op.kind.RawPut? then op.kind.bytes else [];
    assert Tagged(env, body);
    var etag :| env.body(etag) == body;
    var listing := if op.Collector? then Enumerate(MarkedKeys(r, op.target)) else [];
    assert forall k :: op.Collector? ==> ((op.target, k) in r.markers <==> k in MarkedKeys(r, op.target)) by {
      forall k | op.Collector? && (op.target, k) in r.markers ensures k in MarkedKeys(r, op.target) {
        var m := (op.target, k);
        assert m in r.markers && m.0 == op.target;
      }
    }
    Choice(Ok, etag, listing)
  }

  // ----- Deadlock freedom

  predicate WantsTarget(op: Op) { op.Writer? && op.step.WantTarget? }

  predicate WantsContent(op: Op) {
    if op.Writer? then op.step.WantContent? || op.step.WantOld? else op.phase.WantBlob?
  }

  /** An operation is held up only by a lock it waits for. */
  lemma Runnable(env: Env, s: State, id: Id, c: Choice)
    requires id in s.ops && !Finished(s.ops[id]) && Honest(env, s.remote, s.clock, s.ops[id], c)
    requires WantsTarget(s.ops[id]) ==> env.targetStripe(s.ops[id].key) !in s.targets
    requires WantsContent(s.ops[id]) ==> forall x :: x in s.contents ==> HeldContent(env, NextOp(env, s.remote, s.ops[id], c)) != Some(x)
    ensures Enabled(env, s, id, c)
  {
    var op := s.ops[id];
    if op.Writer? {
      match op.step
      case FreeContent(_) =>
      case StatBlob =>
      case _ =>
    }
  }

  /** A holder of a content lock waits for nothing. */
  lemma ContentHolderRuns(env: Env, s: State, x: nat) returns (id: Id, c: Choice)
    requires CanTag(env) && Inv(env, s) && x in s.contents
    ensures Enabled(env, s, id, c) && c.out == Ok
  {
    id := s.contents[x];
    c := Success(env, s.ops[id], s.remote);
    Runnable(env, s, id, c);
  }

  lemma UnlessContentIsTaken(env: Env, s: State, waiting: Id) returns (id: Id, c: Choice)
    requires CanTag(env) && Inv(env, s)
    requires waiting in s.ops && !Finished(s.ops[waiting]) && !WantsTarget(s.ops[waiting])
    ensures Enabled(env, s, id, c) && c.out == Ok
  {
    c := Success(env, s.ops[waiting], s.remote);
    var held := HeldContent(env, NextOp(env, s.remote, s.ops[waiting], c));
    if WantsContent(s.ops[waiting]) && held.Some? && held.value in s.contents {
      id, c := ContentHolderRuns(env, s, held.value);
    } else {
      id := waiting;
      Runnable(env, s, id, c);
    }
  }

  /** In every reachable state with an unfinished operation some operation can take a step:
      a target lock is taken before a content lock, and no operation holds two of one class. */
  lemma NoDeadlock(env: Env, s: State, unfinished: Id) returns (id: Id, c: Choice)
    requires CanTag(env) && Inv(env, s)
    requires unfinished in s.ops && !Finished(s.ops[unfinished])
    ensures Enabled(env, s, id, c) && c.out == Ok
  {
    var op := s.ops[unfinished];
    if WantsTarget(op) && env.targetStripe(op.key) in s.targets {
      id, c := UnlessContentIsTaken(env, s, s.targets[env.targetStripe(op.key)]);
    } else if WantsTarget(op) {
      id, c := unfinished, Success(env, op, s.remote);
      Runnable(env, s, id, c);
    } else {
      id, c := UnlessContentIsTaken(env, s, unfinished);
    }
  }

  // ----- Completion

  /** The stages an operation has still to go through. */
  function Stages(op: Op): nat {
    match op
    case Writer(_, _, step, _, _) =>
      (match step
       case WantTarget => 15
       case StatOld => 14
       case StatPrior => 13
       case WantContent => 12
       case StatBlob => 11
       case Upload => 10
       case PutMarker => 9
       case PutPointer => 8
       case DropMark => 7
       case FreeContent(_) => 6
       case PutObject => 6
       case RemoveObject => 6
       case WantOld => 5
       case RemoveMarker => 4
       case FreeOld => 3
       case FreeTarget(_) => 2
       case Done(_) => 1)
    case Collector(_, _, _, phase) =>
      (match phase
       case WantBlob => 10
       case List => 9
       case Read(_, _) => 8
       case Check(_, _) => 8
       case Drop(_, _) => 8
       case KeepPayload => 7
       case StatMark => 6
       case PutMark => 5
       case DeleteData => 4
       case DeleteMark => 3
       case FreeBlob(_) => 2
       case Ended(_) => 1)
  }

  /** The calls left within the collector's loop over markers. */
  function Rounds(op: Op): nat {
    if op.Writer? then 0 else
    match op.phase
    case Read(todo, _) => 3 * |todo| + 2
    case Check(todo, _) => 3 * |todo| + 1
    case Drop(todo, _) => 3 * |todo|
    case _ => 0
  }

  lemma MoveProgresses(env: Env, r: Remote, clock: int, op: Op, c: Choice)
    requires Knows(env, r, clock, op) && !Finished(op)
    ensures var op' := NextOp(env, r, op, c);
            Stages(op') < Stages(op) || (Stages(op') == Stages(op) && Rounds(op') < Rounds(op))
  {
  }

  ghost function Total(ops: map<Id, Op>, weight: Op -> nat): nat
    decreases |ops|
  {
    if ops == map[] then 0 else
    var id :| id in ops;
    assert |ops - {id}| < |ops| by { RemoveOne(ops, id); }
    weight(ops[id]) + Total(ops - {id}, weight)
  }

  lemma RemoveOne(ops: map<Id, Op>, id: Id)
    requires id in ops
    ensures |ops - {id}| == |ops| - 1
  {
    assert (ops - {id}).Keys == ops.Keys - {id};
    assert |(ops - {id}).Keys| == |ops.Keys| - 1;
  }

  lemma {:induction false} TotalSplits(ops: map<Id, Op>, weight: Op -> nat, id: Id)
    requires id in ops
    ensures Total(ops, weight) == weight(ops[id]) + Total(ops - {id}, weight)
    decreases |ops|
  {
    var first :| id in ops && first in ops && Total(ops, weight) == weight(ops[first]) + Total(ops - {first}, weight);
    if first != id {
      RemoveOne(ops, first);
      RemoveOne(ops, id);
      TotalSplits(ops - {first}, weight, id);
      TotalSplits(ops - {id}, weight, first);
      assert ops - {first} - {id} == ops - {id} - {first};
    }
  }

  lemma TotalUpdates(ops: map<Id, Op>, weight: Op -> nat, id: Id, op: Op)
    requires id in ops
    ensures Total(ops[id := op], weight) + weight(ops[id]) == Total(ops, weight) + weight(op)
  {
    TotalSplits(ops, weight, id);
    TotalSplits(ops[id := op], weight, id);
    assert ops[id := op] - {id} == ops - {id};
  }

  ghost predicate Reaches(env: Env, s: State, steps: seq<Step>, s': State)
    decreases |steps|
  {
    if steps == [] then s' == s
    else Possible(env, s, steps[0]) && Reaches(env, Apply(env, s, steps[0]), steps[1..], s')
  }

  lemma {:induction false} ReachesThen(env: Env, a: State, x: seq<Step>, b: State, y: seq<Step>, c: State)
    requires Reaches(env, a, x, b) && Reaches(env, b, y, c)
    ensures Reaches(env, a, x + y, c)
    decreases |x|
  {
    if x == [] {
      assert x + y == y;
    } else {
      assert (x + y)[1..] == x[1..] + y;
      ReachesThen(env, Apply(env, a, x[0]), x[1..], b, y, c);
    }
  }

  lemma {:induction false} ReachesSplit(env: Env, a: State, x: seq<Step>, y: seq<Step>, c: State) returns (b: State)
    requires Reaches(env, a, x + y, c)
    ensures Reaches(env, a, x, b) && Reaches(env, b, y, c)
    decreases |x|
  {
    if x == [] {
      b := a;
      assert x + y == y;
    } else {
      assert (x + y)[1..] == x[1..] + y;
      b := ReachesSplit(env, Apply(env, a, x[0]), x[1..], y, c);
    }
  }

  lemma Extend(env: Env, a: State, steps: seq<Step>, b: State, step: Step, c: State)
    requires Reaches(env, a, steps, b) && Next(env, b, step, c)
    ensures Reaches(env, a, steps + [step], c)
  {
    assert Reaches(env, c, [], c);
    assert Reaches(env, b, [step], c);
    ReachesThen(env, a, steps, b, [step], c);
  }

  /** The process at rest. */
  function AtRest(r: Remote, clock: int): State {
    State(r, map[], map[], map[], clock)
  }

  /** A state in which one operation has moved on and the bucket may have changed. */
  function Placed(s: State, r: Remote, id: Id, op: Op): State {
    s.(remote := r, ops := s.ops[id := op])
  }

  lemma QuietMove(env: Env, s: State, id: Id, c: Choice, r': Remote, op': Op)
    requires id in s.ops && !Finished(s.ops[id]) && Honest(env, s.remote, s.clock, s.ops[id], c)
    requires r' == NextRemote(env, s.remote, s.clock, s.ops[id], c) && op' == NextOp(env, s.remote, s.ops[id], c)
    requires HeldTarget(env, op') == HeldTarget(env, s.ops[id]) && HeldContent(env, op') == HeldContent(env, s.ops[id])
    ensures Possible(env, s, Move(id, c)) && Apply(env, s, Move(id, c)) == Placed(s, r', id, op')
    ensures Reaches(env, s, [Move(id, c)], Placed(s, r', id, op'))
  {
    var next := Apply(env, s, Move(id, c));
    assert [Move(id, c)][1..] == [];
    assert Reaches(env, next, [], next);
  }

  /** One operation moves on, whatever its call's outcome. */
  ghost predicate Moves(env: Env, s: State, id: Id, c: Choice, s': State) {
    id in s.ops && Enabled(env, s, id, c) && s' == Advance(env, s, id, c)
  }

  lemma MoveShrinks(env: Env, s: State, id: Id, c: Choice)
    requires Inv(env, s) && Enabled(env, s, id, c)
    ensures var s' := Advance(env, s, id, c);
            && Inv(env, s')
            && (Total(s'.ops, Stages) < Total(s.ops, Stages)
                || (Total(s'.ops, Stages) == Total(s.ops, Stages) && Total(s'.ops, Rounds) < Total(s.ops, Rounds)))
  {
    var next := Advance(env, s, id, c);
    MoveKeepsInv(env, s, id, c);
    MoveProgresses(env, s.remote, s.clock, s.ops[id], c);
    TotalUpdates(s.ops, Stages, id, next.ops[id]);
    TotalUpdates(s.ops, Rounds, id, next.ops[id]);
  }

  /** There is no endless retry: from a reachable state no schedule and no faults keep the operations
      in flight moving for ever. In every infinite sequence of states some step is no move. */
  lemma {:induction false} MovesEnd(env: Env, run: nat -> State, ids: nat -> Id, choices: nat -> Choice, i: nat) returns (n: nat)
    requires Inv(env, run(i))
    ensures n >= i && !Moves(env, run(n), ids(n), choices(n), run(n + 1))
    decreases Total(run(i).ops, Stages), Total(run(i).ops, Rounds)
  {
    hide Inv, Advance, Enabled, Stages, Rounds, Total;
    n := i;
    if Moves(env, run(i), ids(i), choices(i), run(i + 1)) {
      MoveShrinks(env, run(i), ids(i), choices(i));
      n := MovesEnd(env, run, ids, choices, i + 1);
    }
  }

  /** Left alone by new calls and faults, everything in flight returns and every lock is free. */
  lemma {:induction false} EverythingReturns(env: Env, s: State) returns (steps: seq<Step>, s': State)
    requires CanTag(env) && Inv(env, s)
    ensures Reaches(env, s, steps, s') && Inv(env, s')
    ensures s'.ops.Keys == s.ops.Keys && forall id :: id in s'.ops ==> Finished(s'.ops[id])
    ensures s'.targets == map[] && s'.contents == map[]
    decreases Total(s.ops, Stages), Total(s.ops, Rounds)
  {
    if unfinished :| unfinished in s.ops && !Finished(s.ops[unfinished]) {
      var id, c := NoDeadlock(env, s, unfinished);
      var next := Advance(env, s, id, c);
      MoveShrinks(env, s, id, c);
      steps, s' := EverythingReturns(env, next);
      steps := [Move(id, c)] + steps;
    } else {
      steps, s' := [], s;
      assert forall x :: x !in s.targets;
      assert forall x :: x !in s.contents;
    }
  }
}
