/**
 Readers and mutators of cached authentication results, interleaved.

 A reader loads the generation, authenticates against the backing store, and offers its
 result to the cache. A mutator changes the backing store and then invalidates.
 */
module AuthCoherence {
  import opened Options
  import opened AuthCache

  datatype Reader =
    | Loaded(key: string, generation: nat)
    | Computed(key: string, generation: nat, entry: AuthEntry)

  /** The backing store gives every credential its result; `written` holds the mutators that have
      changed the store and not yet invalidated, with what they will invalidate. */
  datatype State = State(
    store: string -> AuthEntry, memory: map<string, AuthEntry>, generation: nat,
    readers: map<nat, Reader>, written: map<nat, Selection>)

  /** The result without the time until which it may be cached. */
  function Outcome(e: AuthEntry): AuthEntry { e.(expiredAt := 0) }

  ghost predicate Current(store: string -> AuthEntry, key: string, e: AuthEntry) {
    Outcome(e) == Outcome(store(key))
  }

  /** What a mutator must invalidate: every result that its change makes wrong. */
  ghost predicate Covers(before: string -> AuthEntry, after: string -> AuthEntry, s: Selection) {
    forall key, e :: Current(before, key, e) && !Current(after, key, e) ==> Selects(s, key, e)
  }

  datatype Event =
    | Begin(reader: nat, key: string)
    | Authenticate(reader: nat, entry: AuthEntry)
    | Offer(reader: nat, now: int)
    | Abandon(reader: nat)
    | Write(mutator: nat, selection: Selection)
    | Invalidate(mutator: nat)
    | Housekeep(selection: Selection)
    | LateWrite

  ghost predicate Step(s: State, event: Event, t: State) {
    match event
    case Begin(r, key) =>
      r !in s.readers && t == s.(readers := s.readers[r := Loaded(key, s.generation)])
    case Authenticate(r, entry) =>
      && r in s.readers && s.readers[r].Loaded? && Current(s.store, s.readers[r].key, entry)
      && t == s.(readers := s.readers[r := Computed(s.readers[r].key, s.readers[r].generation, entry)])
    case Offer(r, now) =>
      && r in s.readers && s.readers[r].Computed?
      && t == s.(readers := s.readers - {r}, memory := t.memory)
      && StoreStep(s.memory, s.generation, s.readers[r].generation, s.readers[r].key, s.readers[r].entry, now, t.memory)
    case Abandon(r) =>
      t == s.(readers := s.readers - {r})
    case Write(m, selection) =>
      && m !in s.written && t == s.(written := s.written[m := selection], store := t.store)
      && Covers(s.store, t.store, selection)
    case Invalidate(m) =>
      && m in s.written
      && t == s.(written := s.written - {m}, memory := t.memory, generation := s.generation + 1)
      && InvalidateStep(s.memory, s.written[m], t.memory)
    case Housekeep(selection) =>
      && t == s.(memory := t.memory, generation := s.generation + 1)
      && InvalidateStep(s.memory, selection, t.memory)
    case LateWrite =>
      t == s.(store := t.store)
  }

  ghost predicate Initial(s: State) {
    s.memory == map[] && s.readers == map[] && s.written == map[]
  }

  /** Any sequence of events, a mutator that writes after it has invalidated included. */
  ghost predicate Sequence(states: seq<State>, events: seq<Event>) {
    && |states| == |events| + 1 && Initial(states[0])
    && forall i :: 0 <= i < |events| ==> Step(states[i], events[i], states[i + 1])
  }

  /** A run in which every mutator writes first and invalidates afterwards. */
  ghost predicate Run(states: seq<State>, events: seq<Event>) {
    Sequence(states, events) && forall i :: 0 <= i < |events| ==> !events[i].LateWrite?
  }

  /** A mutator that will invalidate this result has written already. */
  ghost predicate Awaited(written: map<nat, Selection>, key: string, e: AuthEntry) {
    exists m :: m in written && Selects(written[m], key, e)
  }

  /** A result is right, or its invalidation is still to come. */
  ghost predicate Excused(s: State, key: string, e: AuthEntry) {
    Current(s.store, key, e) || Awaited(s.written, key, e)
  }

  /** So is every cached result, and every result that may still be cached. */
  ghost predicate Coherent(s: State) {
    && (forall key :: key in s.memory ==> Excused(s, key, s.memory[key]))
    && (forall r :: r in s.readers ==> s.readers[r].generation <= s.generation)
    && (forall r :: r in s.readers && s.readers[r].Computed? && s.readers[r].generation == s.generation ==>
          Excused(s, s.readers[r].key, s.readers[r].entry))
  }

  lemma WriteExcuses(s: State, m: nat, selection: Selection, t: State, key: string, e: AuthEntry)
    requires Step(s, Write(m, selection), t) && Excused(s, key, e)
    ensures Excused(t, key, e)
  {
    if Current(s.store, key, e) {
      if !Current(t.store, key, e) { assert m in t.written && Selects(t.written[m], key, e); }
    } else {
      var n :| n in s.written && Selects(s.written[n], key, e);
      assert n in t.written && Selects(t.written[n], key, e);
    }
  }

  lemma InvalidateExcuses(s: State, m: nat, t: State, key: string, e: AuthEntry)
    requires Step(s, Invalidate(m), t) && Excused(s, key, e) && !Selects(s.written[m], key, e)
    ensures Excused(t, key, e)
  {
    if !Current(s.store, key, e) {
      var n :| n in s.written && Selects(s.written[n], key, e);
      assert n in t.written && Selects(t.written[n], key, e);
    }
  }

  /** Whatever is cached was cached before, or is the result just offered. */
  lemma OfferedOrHeld(s: State, r: nat, now: int, t: State)
    requires Step(s, Offer(r, now), t)
    ensures forall key :: key in t.memory ==>
              || (key in s.memory && t.memory[key] == s.memory[key])
              || (key == s.readers[r].key && t.memory[key] == s.readers[r].entry && s.readers[r].generation == s.generation)
  {
    var offered := s.readers[r].key;
    forall key | key in t.memory && key != offered ensures key in s.memory && t.memory[key] == s.memory[key] {
      assert key in t.memory - {offered};
    }
  }

  lemma StepKeepsCoherent(s: State, event: Event, t: State)
    requires Coherent(s) && Step(s, event, t) && !event.LateWrite?
    ensures Coherent(t)
  {
    hide Selects, Current, Covers, StoreStep;
    match event
    case Write(m, selection) =>
      forall key, e | Excused(s, key, e) ensures Excused(t, key, e) { WriteExcuses(s, m, selection, t, key, e); }
    case Invalidate(m) =>
      forall key, e | Excused(s, key, e) && !Selects(s.written[m], key, e) ensures Excused(t, key, e) {
        InvalidateExcuses(s, m, t, key, e);
      }
    case Offer(r, now) =>
      OfferedOrHeld(s, r, now, t);
      forall key, e | Excused(s, key, e) ensures Excused(t, key, e) {}
    case LateWrite =>
    case _ =>
      forall key, e | Excused(s, key, e) ensures Excused(t, key, e) {}
  }

  /** In every interleaving, a cached result that is wrong is about to be invalidated: a mutator has
      changed the store and not yet invalidated, and its invalidation removes this very entry. */
  lemma {:induction false} NoStaleResults(states: seq<State>, events: seq<Event>)
    requires Run(states, events)
    ensures Coherent(states[|events|])
  {
    if events != [] {
      var n := |events| - 1;
      NoStaleResults(states[..n + 1], events[..n]);
      assert Step(states[n], events[n], states[n + 1]);
      StepKeepsCoherent(states[n], events[n], states[n + 1]);
    }
  }

  /** Once every mutator has invalidated, the cache holds right results only. */
  lemma QuietCacheIsRight(states: seq<State>, events: seq<Event>, key: string)
    requires Run(states, events)
    requires states[|events|].written == map[] && key in states[|events|].memory
    ensures Current(states[|events|].store, key, states[|events|].memory[key])
  {
    NoStaleResults(states, events);
    assert Excused(states[|events|], key, states[|events|].memory[key]);
  }

  /** The order matters: when a mutator invalidates first and writes afterwards, a reader that came in
      between can leave a wrong result behind that nothing will invalidate. */
  lemma InvalidatingFirstFails(key: string) returns (states: seq<State>, events: seq<Event>)
    ensures Sequence(states, events) && |events| == 5
    ensures events[0] == Housekeep(Credential(key)) && events[3] == LateWrite
    ensures forall i :: 0 <= i < |events| && i != 3 ==> !events[i].LateWrite?
    ensures states[5].written == map[] && key in states[5].memory && !Current(states[5].store, key, states[5].memory[key])
  {
    var good := AuthEntry(None, "", "", "", [], map[], 0, false);
    var store := (k: string) => good;
    var s0 := State(store, map[], 0, map[], map[]);
    var s1 := s0.(generation := 1);
    var s2 := s1.(readers := map[0 := Loaded(key, 1)]);
    var s3 := s2.(readers := map[0 := Computed(key, 1, good)]);
    var s4 := s3.(store := Elsewhere(store, key));
    var s5 := s4.(readers := s4.readers - {0}, memory := map[key := good]);
    states := [s0, s1, s2, s3, s4, s5];
    events := [Housekeep(Credential(key)), Begin(0, key), Authenticate(0, good), LateWrite, Offer(0, 1)];
    assert s4.memory[key := good] == map[key := good];
    assert Step(s0, events[0], s1) && Step(s1, events[1], s2) && Step(s2, events[2], s3);
    assert Step(s3, events[3], s4) && Step(s4, events[4], s5);
  }

  /** A store in which one credential's result has changed. */
  function Elsewhere(store: string -> AuthEntry, key: string): string -> AuthEntry {
    k => if k == key then store(k).(invalid := !store(k).invalid) else store(k)
  }
}
