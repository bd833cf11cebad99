/**
 Hard-link deduplication: equal files share an inode, found through hints that may be
 arbitrarily stale. System calls may fail; which of them do is not known beforehand.
 */
module DiskDedup {
  import opened Options

  type Path = string
  type Bytes = seq<bv8>

  /** The mode CreateTemp gives a file: 0600 in octal. */
  const TEMP_MODE: nat := 384
  const CANDIDATES_PER_SHARD: nat := 256
  const SHARD_COUNT: nat := 64
  const ATTEMPTS: nat := 8

  /** A regular file, or anything else: a directory, a link, a device. */
  datatype Node = Regular(bytes: Bytes, mode: nat) | Special

  datatype FileSystem = FileSystem(links: map<Path, nat>, inodes: map<nat, Node>) {
    ghost predicate Valid() {
      forall p :: p in links ==> links[p] in inodes
    }

    /** What stands behind a path. */
    function Read(p: Path): Option<Node> {
      if p in links && links[p] in inodes then Some(inodes[links[p]]) else None
    }

    predicate IsRegular(p: Path) {
      Read(p).Some? && Read(p).value.Regular?
    }

    /** POSIX: renaming a link onto another link of its inode does nothing. */
    function Rename(from: Path, to: Path): FileSystem
      requires from in links
    {
      if to in links && links[to] == links[from] then this
      else FileSystem((links - {from})[to := links[from]], inodes)
    }

    function Remove(p: Path): FileSystem { FileSystem(links - {p}, inodes) }

    function Link(from: Path, to: Path): FileSystem
      requires from in links
    {
      FileSystem(links[to := links[from]], inodes)
    }

    function Create(p: Path, inode: nat, node: Node): FileSystem {
      FileSystem(links[p := inode], inodes[inode := node])
    }
  }

  /** No inode was changed, and every path but these is linked to the inode it was linked to. */
  ghost predicate Untouched(before: FileSystem, after: FileSystem, except: set<Path>) {
    && after.Valid()
    && (forall n :: n in before.inodes ==> n in after.inodes && after.inodes[n] == before.inodes[n])
    && (forall p :: p in before.links && p !in except ==> p in after.links && after.links[p] == before.links[p])
  }

  lemma UntouchedRead(before: FileSystem, after: FileSystem, except: set<Path>, p: Path)
    requires before.Valid() && Untouched(before, after, except) && p in before.links && p !in except
    ensures after.Read(p) == before.Read(p) && p in after.links && after.links[p] == before.links[p]
  {
  }

  /** Paths that were not there to begin with need no exception. */
  lemma UntouchedChain(a: FileSystem, b: FileSystem, c: FileSystem, x: set<Path>, y: set<Path>, z: set<Path>)
    requires Untouched(a, b, x) && Untouched(b, c, y) && forall p :: p in x + y && p in a.links ==> p in z
    ensures Untouched(a, c, z)
  {
  }

  lemma UnlinkedIs(f: FileSystem, from: Path, to: Path)
    requires from in f.links && to !in f.links
    ensures f.Link(from, to).Remove(to) == f
  {
    assert f.links[to := f.links[from]] - {to} == f.links;
  }

  lemma UntouchedValid(a: FileSystem, b: FileSystem, x: set<Path>)
    requires Untouched(a, b, x)
    ensures b.Valid()
  {
  }

  lemma UntouchedSelf(a: FileSystem, x: set<Path>)
    requires a.Valid()
    ensures Untouched(a, a, x)
  {
  }

  lemma RenameTouches(m: FileSystem, from: Path, to: Path)
    requires m.Valid() && from in m.links
    ensures var r := m.Rename(from, to);
            && Untouched(m, r, {from, to}) && to in r.links && r.Read(to) == m.Read(from)
            && (from in r.links ==> r.links[from] == m.links[from] && to in m.links && m.links[to] == m.links[from])
            && r.links[to] == m.links[from]
  {
  }

  /** A new file touches no old path. */
  lemma CreatedUntouched(before: FileSystem, p: Path, inode: nat, node: Node)
    requires before.Valid() && p !in before.links && inode !in before.inodes
    ensures var r := before.Create(p, inode, node);
            Untouched(before, r, {}) && r.Read(p) == Some(node) && p in r.links && r.links[p] == inode
  {
  }

  lemma WrittenAgain(before: FileSystem, p: Path, inode: nat, empty: Node, node: Node)
    ensures before.Create(p, inode, empty).Create(p, inode, node) == before.Create(p, inode, node)
  {
  }

  function FreshFrom(inodes: map<nat, Node>, n: nat): nat
    decreases |inodes.Keys|
  {
    if n in inodes then
      assert (inodes - {n}).Keys == inodes.Keys - {n};
      FreshFrom(inodes - {n}, n + 1)
    else n
  }

  lemma {:induction false} FreshIsFresh(inodes: map<nat, Node>, n: nat)
    ensures FreshFrom(inodes, n) >= n && FreshFrom(inodes, n) !in inodes
    decreases |inodes.Keys|
  {
    if n in inodes {
      assert (inodes - {n}).Keys == inodes.Keys - {n};
      FreshIsFresh(inodes - {n}, n + 1);
    }
  }

  // ----- Faults

  /** How a replacement ended: not at all, by a native rename, or by copying. */
  datatype Outcome = Failed | Renamed | Copied

  ghost predicate AllFail(fails: nat -> bool, from: nat, n: nat) {
    forall i :: from <= i < from + n ==> fails(i)
  }

  ghost predicate NoneFails(fails: nat -> bool, from: nat, n: nat) {
    forall i :: from <= i < from + n ==> !fails(i)
  }

  /** No call ever fails. */
  ghost predicate Smooth(fails: nat -> bool) {
    forall n: nat :: !fails(n)
  }

  lemma SmoothRenames(fails: nat -> bool, clock: nat, free: bool)
    requires Smooth(fails)
    ensures RenameOutcome(fails, clock, free) == Renamed && forall n: nat :: !fails(n)
  {
    assert !fails(clock + 1);
  }

  /** What becomes of a replacement, told from the calls that fail: one call to make the directory,
      the attempts to rename, six calls to copy, the attempts to rename the copy. */
  ghost function RenameOutcome(fails: nat -> bool, clock: nat, free: bool): Outcome {
    if fails(clock) then Failed
    else if !AllFail(fails, clock + 1, ATTEMPTS) then Renamed
    else if NoneFails(fails, clock + 9, 6) && free && !AllFail(fails, clock + 15, ATTEMPTS) then Copied
    else Failed
  }

  /** What a successful replacement leaves at the target. */
  function Installed(node: Node, outcome: Outcome): Node {
    if outcome.Copied? && node.Regular? then Regular(node.bytes, TEMP_MODE) else node
  }

  lemma EightAttempts()
    ensures ATTEMPTS == 8
  {
  }

  lemma FiveCalls(fails: nat -> bool, clock: nat)
    ensures NoneFails(fails, clock, 5) == (!fails(clock) && !fails(clock + 1) && NoneFails(fails, clock + 2, 3))
  {
  }

  lemma OneCall(fails: nat -> bool, clock: nat)
    ensures NoneFails(fails, clock, 1) == !fails(clock)
  {
  }

  lemma FailsAtOnce(fails: nat -> bool, clock: nat, free: bool)
    requires fails(clock)
    ensures RenameOutcome(fails, clock, free) == Failed
  {
  }

  lemma FailsLater(fails: nat -> bool, clock: nat, free: bool, found: bool, copied: bool)
    requires !fails(clock)
    requires AllFail(fails, clock + 1, ATTEMPTS) ==> found == !fails(clock + 9)
    requires AllFail(fails, clock + 1, ATTEMPTS) && found ==>
               copied == (NoneFails(fails, clock + 10, 5) && free && !AllFail(fails, clock + 15, ATTEMPTS))
    requires !found ==> !copied
    ensures RenameOutcome(fails, clock, free)
         == if !AllFail(fails, clock + 1, ATTEMPTS) then Renamed else if copied then Copied else Failed
  {
  }

  /** A replacement that failed touches nothing; one that did not leaves the contents at the target,
      and the source gone or as it was. */
  ghost predicate Replaced(before: FileSystem, after: FileSystem, from: Path, to: Path, outcome: Outcome) {
    && from in before.links && before.Read(from).Some?
    && if outcome.Failed? then Untouched(before, after, {})
       else
         && Untouched(before, after, {from, to})
         && to in after.links && after.Read(to) == Some(Installed(before.Read(from).value, outcome))
         && (from in after.links ==> after.links[from] == before.links[from])
         && (outcome.Renamed? ==> after.links[to] == before.links[from])
         && (outcome.Renamed? ==> StaysIfShared(before, after, from, to))
  }

  /** Both paths are links to one inode. */
  predicate Shared(f: FileSystem, p: Path, q: Path) {
    p in f.links && q in f.links && f.links[p] == f.links[q]
  }

  /** The source stays exactly if it shared the target's inode: then the rename does nothing. */
  ghost predicate StaysIfShared(before: FileSystem, after: FileSystem, from: Path, to: Path) {
    from in after.links <==> Shared(before, from, to)
  }

  lemma NotReplaced(before: FileSystem, after: FileSystem, from: Path, to: Path)
    requires before.IsRegular(from) && Untouched(before, after, {})
    ensures Replaced(before, after, from, to, Failed)
  {
  }

  lemma IsReplaced(before: FileSystem, after: FileSystem, from: Path, to: Path, outcome: Outcome)
    requires before.IsRegular(from) && !outcome.Failed? && Untouched(before, after, {from, to})
    requires to in after.links && after.Read(to) == Some(Installed(before.Read(from).value, outcome))
    requires from in after.links ==> after.links[from] == before.links[from]
    requires outcome.Renamed? ==> after.links[to] == before.links[from] && StaysIfShared(before, after, from, to)
    ensures Replaced(before, after, from, to, outcome)
  {
  }

  lemma RenamedAway(m: FileSystem, from: Path, to: Path)
    requires from in m.links && from != to
    ensures StaysIfShared(m, m.Rename(from, to), from, to)
  {
  }

  lemma RegularIsThere(f: FileSystem, p: Path)
    requires f.IsRegular(p)
    ensures p in f.links && f.Read(p).Some? && f.Read(p).value.Regular?
    ensures Installed(f.Read(p).value, Renamed) == f.Read(p).value
    ensures Installed(f.Read(p).value, Copied) == Regular(f.Read(p).value.bytes, TEMP_MODE)
  {
  }

  datatype ContentKey = ContentKey(digest: Bytes, mode: nat)

  /** The fingerprint of a regular file. */
  function KeyOf(sha256: Bytes -> Bytes, node: Node): ContentKey
    requires node.Regular?
  {
    ContentKey(sha256(node.bytes), node.mode)
  }

  function Stripe(digest: Bytes): (i: nat)
    ensures i < SHARD_COUNT
  {
    if digest == [] then 0 else (digest[0] as nat) % SHARD_COUNT
  }

  ghost predicate HintsBounded(hints: seq<map<ContentKey, Path>>) {
    |hints| == SHARD_COUNT && forall i :: 0 <= i < SHARD_COUNT ==> |hints[i]| <= CANDIDATES_PER_SHARD
  }

  /** The path hinted at for contents, "" for none. */
  function HintFor(hints: seq<map<ContentKey, Path>>, key: ContentKey): Path
    requires |hints| == SHARD_COUNT
  {
    var paths := hints[Stripe(key.digest)];
    if key in paths then paths[key] else ""
  }

  /** What a commit does: the target reads the staged contents, no other path is touched, and the
      staged path is gone or as it was. */
  ghost predicate Committed(before: FileSystem, after: FileSystem, staged: Path, target: Path, outcome: Outcome) {
    if outcome.Failed? then Untouched(before, after, {})
    else
      && before.IsRegular(staged) && Untouched(before, after, {staged, target})
      && after.Read(target) == Some(Installed(before.Read(staged).value, outcome))
      && (staged in after.links ==> after.Read(staged) == before.Read(staged))
  }

  /** What comes of the hint: there is none, no link to it can be made, the link turns out to hold
      something else, or it holds exactly the wanted contents. */
  datatype Fate = Unhinted | Unlinked | Refused | Verified

  function LinkName(target: Path, id: string): Path { target + ".tmp.dedup." + id }

  /** The candidate can be linked under this name, and holds the wanted contents. */
  predicate Verifies(sha256: Bytes -> Bytes, f: FileSystem, candidate: Path, linked: Path, key: ContentKey) {
    candidate in f.links && linked !in f.links && f.IsRegular(candidate) && KeyOf(sha256, f.Read(candidate).value) == key
  }

  /** ... told from the file system before, and the two calls that link and read. */
  ghost function LinkFate(sha256: Bytes -> Bytes, fails: nat -> bool, clock: nat, f: FileSystem, candidate: Path, linked: Path,
                          key: ContentKey): Fate {
    if fails(clock) || candidate !in f.links || linked in f.links then Unlinked
    else if fails(clock + 1) || !Verifies(sha256, f, candidate, linked, key) then Refused
    else Verified
  }

  ghost function CommitFate(sha256: Bytes -> Bytes, fails: nat -> bool, clock: nat, f: FileSystem, hints: seq<map<ContentKey, Path>>,
                            staged: Path, target: Path, id: string): Fate
    requires |hints| == SHARD_COUNT && f.IsRegular(staged)
  {
    var key := KeyOf(sha256, f.Read(staged).value);
    var candidate := HintFor(hints, key);
    if candidate == "" then Unhinted else LinkFate(sha256, fails, clock + 2, f, candidate, LinkName(target, id), key)
  }

  /** The hinted candidate verifies. */
  predicate HintVerifies(sha256: Bytes -> Bytes, f: FileSystem, hints: seq<map<ContentKey, Path>>, staged: Path, target: Path, id: string)
    requires |hints| == SHARD_COUNT && f.IsRegular(staged)
  {
    var key := KeyOf(sha256, f.Read(staged).value);
    var candidate := HintFor(hints, key);
    candidate != "" && Verifies(sha256, f, candidate, LinkName(target, id), key)
  }

  /** The call with which the replacement begins, behind those for the staged file and for the hint. */
  function ReplaceClock(clock: nat, fate: Fate): nat {
    match fate
    case Unhinted => clock + 2
    case Unlinked => clock + 3
    case Refused => clock + 5
    case Verified => clock + 4
  }

  /** The link is still there when the replacement begins. */
  ghost predicate LinkRemains(fails: nat -> bool, clock: nat, fate: Fate) {
    fate.Verified? || (fate.Refused? && fails(clock + 4))
  }

  /** The temporary name a copy would take is free. */
  ghost predicate NameIsFree(fails: nat -> bool, names: nat -> string, clock: nat, f: FileSystem, fate: Fate, linked: Path) {
    var name := names(ReplaceClock(clock, fate) + 11);
    name !in f.links && !(LinkRemains(fails, clock, fate) && name == linked)
  }

  /** What becomes of a commit follows from the hint, the file system, and the calls that fail. */
  ghost function CommitOutcome(fails: nat -> bool, clock: nat, fate: Fate, free: bool): Outcome {
    if fails(clock) || fails(clock + 1) then Failed else RenameOutcome(fails, ReplaceClock(clock, fate), free)
  }

  /** A native rename of the staged file, or of the link, works. */
  ghost predicate RenameWorks(fails: nat -> bool, clock: nat, fate: Fate) {
    !AllFail(fails, ReplaceClock(clock, fate) + 1, ATTEMPTS)
  }

  /** A commit keeps the mode exactly if a native rename works or the mode is the one a temporary
      file gets anyway. */
  lemma ModeKeptExactly(fails: nat -> bool, clock: nat, fate: Fate, free: bool, node: Node)
    requires node.Regular? && !CommitOutcome(fails, clock, fate, free).Failed?
    ensures Installed(node, CommitOutcome(fails, clock, fate, free)) == node
       <==> RenameWorks(fails, clock, fate) || node.mode == TEMP_MODE
  {
  }

  lemma FateOf(sha256: Bytes -> Bytes, fails: nat -> bool, clock: nat, f: FileSystem, hints: seq<map<ContentKey, Path>>,
               staged: Path, target: Path, id: string)
    requires |hints| == SHARD_COUNT && f.IsRegular(staged)
    ensures var key := KeyOf(sha256, f.Read(staged).value);
            var candidate := HintFor(hints, key);
            var fate := CommitFate(sha256, fails, clock, f, hints, staged, target, id);
            && fate == (if candidate == "" then Unhinted else LinkFate(sha256, fails, clock + 2, f, candidate, LinkName(target, id), key))
            && (candidate != "" ==> !fate.Unhinted?)
            && (Smooth(fails) ==> (fate.Verified? <==> HintVerifies(sha256, f, hints, staged, target, id)))
  {
  }

  lemma NotCommitted(before: FileSystem, after: FileSystem, staged: Path, target: Path)
    requires Untouched(before, after, {})
    ensures Committed(before, after, staged, target, Failed)
  {
  }

  lemma ReplacedTouches(before: FileSystem, after: FileSystem, from: Path, to: Path, outcome: Outcome)
    requires before.Valid() && Replaced(before, after, from, to, outcome)
    ensures after.Valid() && before.Read(from).Some?
    ensures outcome.Failed? ==> Untouched(before, after, {})
    ensures !outcome.Failed? ==> Untouched(before, after, {from, to}) && to in after.links
    ensures !outcome.Failed? ==> after.Read(to) == Some(Installed(before.Read(from).value, outcome))
    ensures from in after.links ==> from in before.links && after.links[from] == before.links[from]
    ensures outcome.Renamed? ==> after.links[to] == before.links[from] && StaysIfShared(before, after, from, to)
  {
  }

  /** What installing a verified link does. */
  ghost predicate LinkMoved(before: FileSystem, after: FileSystem, linked: Path, staged: Path, target: Path, outcome: Outcome) {
    if outcome.Failed? then Untouched(before, after, {linked})
    else
      && before.IsRegular(linked) && Untouched(before, after, {linked, staged, target})
      && after.Read(target) == Some(Installed(before.Read(linked).value, outcome))
      && (staged in after.links ==> staged in before.links && after.links[staged] == before.links[staged])
  }

  lemma LinkFailed(before: FileSystem, after: FileSystem, linked: Path, staged: Path, target: Path)
    requires Untouched(before, after, {linked})
    ensures LinkMoved(before, after, linked, staged, target, Failed)
  {
  }

  lemma RemovedIsGone(f: FileSystem, p: Path)
    ensures p !in f.Remove(p).links
  {
  }

  lemma LinkInstalled(before: FileSystem, after: FileSystem, linked: Path, staged: Path, target: Path, outcome: Outcome)
    requires !outcome.Failed? && before.IsRegular(linked) && Untouched(before, after, {linked, staged, target})
    requires after.Read(target) == Some(Installed(before.Read(linked).value, outcome))
    requires staged in after.links ==> staged in before.links && after.links[staged] == before.links[staged]
    ensures LinkMoved(before, after, linked, staged, target, outcome)
  {
  }

  lemma LinkNameDiffers(target: Path, id: string)
    ensures LinkName(target, id) != target
  {
    assert |LinkName(target, id)| > |target|;
  }

  lemma FateIs(sha256: Bytes -> Bytes, fails: nat -> bool, clock: nat, f: FileSystem, candidate: Path, linked: Path, key: ContentKey)
    ensures var fate := LinkFate(sha256, fails, clock, f, candidate, linked, key);
            && (fate.Unlinked? <==> fails(clock) || candidate !in f.links || linked in f.links)
            && (fate.Verified? <==> !fate.Unlinked? && !fails(clock + 1) && f.IsRegular(candidate)
                                    && KeyOf(sha256, f.Read(candidate).value) == key)
            && (fate.Refused? <==> !fate.Unlinked? && !fate.Verified?)
  {
  }

  /** What a new link is. */
  lemma LinkIs(f: FileSystem, from: Path, to: Path)
    requires f.Valid() && from in f.links && to !in f.links
    ensures var r := f.Link(from, to);
            && r.links[to] == f.links[from] && r.Read(to) == f.Read(from) && (r.IsRegular(to) <==> f.IsRegular(from))
            && (r.IsRegular(to) ==> r.Read(to).value == f.Read(from).value && r.Read(to).value.Regular?)
            && forall p :: p in r.links <==> p in f.links || p == to
  {
  }

  lemma OthersStay(before: FileSystem, after: FileSystem, p: Path)
    requires Untouched(before, after, {p}) && forall q :: q in after.links ==> q in before.links
    ensures forall q :: q != p ==> (q in after.links <==> q in before.links)
  {
  }

  lemma FreeIs(fails: nat -> bool, names: nat -> string, clock: nat, f: FileSystem, fate: Fate, linked: Path)
    ensures NameIsFree(fails, names, clock, f, fate, linked)
       <==> (names(ReplaceClock(clock, fate) + 11) !in f.links
             && !(names(ReplaceClock(clock, fate) + 11) == linked && (fate.Verified? || (fate.Refused? && fails(clock + 4)))))
    ensures ReplaceClock(clock, fate) == clock + (match fate case Unhinted => 2 case Unlinked => 3 case Refused => 5 case Verified => 4)
  {
  }

  lemma SharedStays(before: FileSystem, after: FileSystem, from: Path, to: Path)
    ensures StaysIfShared(before, after, from, to) <==> (from in after.links <==> Shared(before, from, to))
  {
  }

  /** How a commit of a regular file ends follows from what is known before: the file system, the
      hints, and the calls that fail. The mode is kept exactly if a native rename works or it is the
      one a temporary file gets anyway. When no call fails, the staged path stays exactly if it
      shared the target's inode and no hinted candidate verifies. */
  ghost predicate Told(sha256: Bytes -> Bytes, fails: nat -> bool, names: nat -> string, clock: nat, before: FileSystem,
                       hints: seq<map<ContentKey, Path>>, after: FileSystem, staged: Path, target: Path, id: string, outcome: Outcome)
    requires |hints| == SHARD_COUNT && before.IsRegular(staged)
  {
    var fate := CommitFate(sha256, fails, clock, before, hints, staged, target, id);
    && outcome == CommitOutcome(fails, clock, fate, NameIsFree(fails, names, clock, before, fate, LinkName(target, id)))
    && (!outcome.Failed? ==>
          (after.Read(target) == before.Read(staged)
           <==> RenameWorks(fails, clock, fate) || before.Read(staged).value.mode == TEMP_MODE))
    && (Smooth(fails) ==>
          outcome.Renamed?
          && (staged in after.links <==> Shared(before, staged, target) && !HintVerifies(sha256, before, hints, staged, target, id)))
  }

  lemma CallsFail(sha256: Bytes -> Bytes, fails: nat -> bool, names: nat -> string, clock: nat, before: FileSystem,
                  hints: seq<map<ContentKey, Path>>, after: FileSystem, staged: Path, target: Path, id: string)
    requires |hints| == SHARD_COUNT && before.IsRegular(staged) && (fails(clock) || fails(clock + 1))
    ensures Told(sha256, fails, names, clock, before, hints, after, staged, target, id, Failed)
  {
  }

  lemma CallsTell(sha256: Bytes -> Bytes, fails: nat -> bool, names: nat -> string, clock: nat, before: FileSystem,
                  hints: seq<map<ContentKey, Path>>, after: FileSystem, staged: Path, target: Path, id: string, outcome: Outcome)
    requires |hints| == SHARD_COUNT && before.IsRegular(staged) && !fails(clock) && !fails(clock + 1)
    requires Committed(before, after, staged, target, outcome)
    requires var fate := CommitFate(sha256, fails, clock, before, hints, staged, target, id);
             && outcome == RenameOutcome(fails, ReplaceClock(clock, fate), NameIsFree(fails, names, clock, before, fate, LinkName(target, id)))
             && (Smooth(fails) ==> outcome.Renamed? && (staged in after.links <==> Shared(before, staged, target) && !fate.Verified?))
    ensures Told(sha256, fails, names, clock, before, hints, after, staged, target, id, outcome)
  {
    hide RenameWorks, RenameOutcome, ReplaceClock, NameIsFree, CommitFate, HintVerifies, Shared, Smooth, FileSystem.Read, Untouched;
    var fate := CommitFate(sha256, fails, clock, before, hints, staged, target, id);
    FateOf(sha256, fails, clock, before, hints, staged, target, id);
    RegularIsThere(before, staged);
    if !outcome.Failed? {
      ModeKeptExactly(fails, clock, fate, NameIsFree(fails, names, clock, before, fate, LinkName(target, id)), before.Read(staged).value);
    }
  }

  /** A link made on the way need not be counted. */
  lemma CommittedByLink(a: FileSystem, b: FileSystem, c: FileSystem, linked: Path, staged: Path, target: Path, outcome: Outcome)
    requires a.Valid() && a.IsRegular(staged) && Untouched(a, b, {}) && linked !in a.links
    requires b.Read(linked) == a.Read(staged) && LinkMoved(b, c, linked, staged, target, outcome)
    ensures Committed(a, c, staged, target, outcome) && c.Valid()
  {
  }

  lemma CommittedDirectly(a: FileSystem, b: FileSystem, c: FileSystem, staged: Path, target: Path, outcome: Outcome)
    requires a.Valid() && a.IsRegular(staged) && Untouched(a, b, {}) && Replaced(b, c, staged, target, outcome)
    ensures Committed(a, c, staged, target, outcome) && c.Valid()
  {
    UntouchedRead(a, b, {}, staged);
  }

  lemma StillRegular(a: FileSystem, b: FileSystem, p: Path)
    requires a.Valid() && a.IsRegular(p) && Untouched(a, b, {})
    ensures b.IsRegular(p) && b.Read(p) == a.Read(p)
  {
    UntouchedRead(a, b, {}, p);
  }

  ghost predicate Collisionless(sha256: Bytes -> Bytes) {
    forall a, b :: sha256(a) == sha256(b) ==> a == b
  }

  /** Equal fingerprints, equal files. */
  lemma SameContents(sha256: Bytes -> Bytes, a: FileSystem, b: FileSystem, p: Path, q: Path)
    requires Collisionless(sha256) && a.IsRegular(p) && b.IsRegular(q)
    requires KeyOf(sha256, a.Read(p).value) == KeyOf(sha256, b.Read(q).value)
    ensures b.Read(q) == a.Read(p)
  {
  }

  ghost predicate Reused(before: FileSystem, after: FileSystem, target: Path, outcome: Outcome) {
    if outcome.Failed? then Untouched(before, after, {})
    else
      && before.IsRegular(target) && Untouched(before, after, {target})
      && after.Read(target) == Some(Installed(before.Read(target).value, outcome))
      && (outcome.Renamed? ==> exists q :: q != target && q in after.links && after.links[q] == after.links[target])
  }

  /** A link that was made cannot be read as a regular file. */
  ghost predicate Unread(fails: nat -> bool, clock: nat, f: FileSystem, candidate: Path) {
    fails(clock + 1) || !f.IsRegular(candidate)
  }

  lemma UnreadIs(fails: nat -> bool, clock: nat, f: FileSystem, candidate: Path)
    ensures Unread(fails, clock, f, candidate) <==> fails(clock + 1) || !f.IsRegular(candidate)
  {
  }

  /** The temporary name a copy would take is free, with the link in place. */
  ghost predicate LinkedNameIsFree(names: nat -> string, clock: nat, f: FileSystem, linked: Path) {
    names(clock + 11) !in f.links && names(clock + 11) != linked
  }

  lemma LinkedFreeIs(names: nat -> string, clock: nat, f: FileSystem, linked: Path)
    ensures LinkedNameIsFree(names, clock, f, linked) <==> names(clock + 11) !in f.links && names(clock + 11) != linked
  {
  }

  lemma SharedIs(f: FileSystem, p: Path, q: Path)
    ensures Shared(f, p, q) <==> p in f.links && q in f.links && f.links[p] == f.links[q]
  {
  }

  /** What comes of an attempt to reuse: an error; nothing, because another attempt has the lock or the
      files share their inode already; the target becomes the hint; or a link is to replace it. */
  datatype ReuseFate = Broken | LeftAlone | Hinted | Replacing

  ghost function FateOfReuse(sha256: Bytes -> Bytes, fails: nat -> bool, clock: nat, f: FileSystem, hints: seq<map<ContentKey, Path>>,
                             target: Path, id: string): ReuseFate
    requires |hints| == SHARD_COUNT
  {
    if fails(clock) || !f.IsRegular(target) then Broken
    else if fails(clock + 1) then LeftAlone
    else
      var key := KeyOf(sha256, f.Read(target).value);
      var candidate := HintFor(hints, key);
      if candidate == "" || candidate == target then Hinted
      else if fails(clock + 2) then Broken
      else if !fails(clock + 3) && Shared(f, candidate, target) then LeftAlone
      else
        match LinkFate(sha256, fails, clock + 4, f, candidate, LinkName(target, id), key)
        case Verified => Replacing
        case Refused => if Unread(fails, clock + 4, f, candidate) then Broken else Hinted
        case _ => Hinted
  }

  lemma ReuseFateIs(sha256: Bytes -> Bytes, fails: nat -> bool, clock: nat, f: FileSystem, hints: seq<map<ContentKey, Path>>,
                    target: Path, id: string)
    requires |hints| == SHARD_COUNT
    ensures var fate := FateOfReuse(sha256, fails, clock, f, hints, target, id);
            && (fails(clock) || !f.IsRegular(target) ==> fate == Broken)
            && (!fails(clock) && f.IsRegular(target) && fails(clock + 1) ==> fate == LeftAlone)
            && (!fails(clock) && f.IsRegular(target) && !fails(clock + 1) ==>
                  var key := KeyOf(sha256, f.Read(target).value);
                  var candidate := HintFor(hints, key);
                  var link := LinkFate(sha256, fails, clock + 4, f, candidate, LinkName(target, id), key);
                  fate == if candidate == "" || candidate == target then Hinted
                          else if fails(clock + 2) then Broken
                          else if !fails(clock + 3) && Shared(f, candidate, target) then LeftAlone
                          else if link.Verified? then Replacing
                          else if link.Refused? && Unread(fails, clock + 4, f, candidate) then Broken else Hinted)
  {
  }

  lemma NotReused(before: FileSystem, after: FileSystem, target: Path)
    requires Untouched(before, after, {})
    ensures Reused(before, after, target, Failed)
  {
  }

  /** Linking `linked` to a verified candidate (b), moving it to the target (c), dropping what may be left of it (d). */
  lemma ReusedByLink(a: FileSystem, b: FileSystem, c: FileSystem, d: FileSystem, linked: Path, candidate: Path, target: Path, outcome: Outcome)
    requires a.Valid() && a.IsRegular(target) && Untouched(a, b, {}) && linked !in a.links && candidate in a.links && candidate != target
    requires linked in b.links && b.links[linked] == a.links[candidate] && b.Read(linked) == a.Read(target)
    requires Replaced(b, c, linked, target, outcome) && Untouched(c, d, {linked})
    ensures Reused(a, d, target, outcome) && d.Valid()
  {
    if outcome.Failed? {
      UntouchedChain(a, b, c, {}, {}, {});
      UntouchedChain(a, c, d, {}, {linked}, {});
    } else {
      UntouchedChain(a, b, c, {}, {linked, target}, {target});
      UntouchedChain(a, c, d, {target}, {linked}, {target});
      assert linked != target;
      UntouchedRead(c, d, {linked}, target);
      assert candidate in d.links && d.links[candidate] == a.links[candidate];
    }
  }

  /** Writing `staged` (b), committing it (c), dropping what may be left of it (d). */
  lemma WrittenAndCommitted(a: FileSystem, b: FileSystem, c: FileSystem, d: FileSystem, staged: Path, path: Path, outcome: Outcome)
    requires a.Valid() && b.Valid() && Untouched(a, b, {}) && staged !in a.links && staged != path
    requires Committed(b, c, staged, path, outcome) && Untouched(c, d, {staged})
    ensures outcome.Failed? ==> Untouched(a, d, {})
    ensures !outcome.Failed? ==> b.Read(staged).Some? && Untouched(a, d, {path}) && d.Read(path) == Some(Installed(b.Read(staged).value, outcome))
  {
    if outcome.Failed? {
      UntouchedChain(a, b, c, {}, {}, {});
      UntouchedChain(a, c, d, {}, {staged}, {});
    } else {
      UntouchedChain(a, b, c, {}, {staged, path}, {path});
      UntouchedChain(a, c, d, {path}, {staged}, {path});
      UntouchedRead(c, d, {staged}, path);
    }
  }

  lemma LongerName(path: string, suffix: string)
    requires suffix != ""
    ensures path + suffix != path
  {
    assert |path + suffix| > |path|;
  }

  class Disk {
    const sha256: Bytes -> Bytes
    const fails: nat -> bool
    const names: nat -> string
    const shards: array<map<ContentKey, Path>>
    var fs: FileSystem
    var clock: nat

    /** The digest tells contents apart; the hints may say anything, but they are bounded. */
    ghost predicate Valid()
      reads this`fs, shards
    {
      fs.Valid() && Collisionless(sha256) && HintsBounded(shards[..])
    }

    constructor (sha256: Bytes -> Bytes, fails: nat -> bool, names: nat -> string, hints: seq<map<ContentKey, Path>>, fs: FileSystem)
      requires |hints| == SHARD_COUNT
      ensures this.sha256 == sha256 && this.fails == fails && this.names == names && this.fs == fs && clock == 0
      ensures fresh(shards) && shards[..] == hints
    {
      this.sha256, this.fails, this.names, this.fs, this.clock := sha256, fails, names, fs, 0;
      shards := new map<ContentKey, Path>[SHARD_COUNT](i requires 0 <= i < |hints| => hints[i]);
    }

    method Try() returns (ok: bool)
      modifies this`clock
      ensures clock == old(clock) + 1 && ok == !fails(old(clock))
    {
      ok := !fails(clock);
      clock := clock + 1;
    }

    /** Removal is attempted; its failure is ignored. */
    method Remove(p: Path)
      requires fs.Valid()
      modifies this`clock, this`fs
      ensures Untouched(old(fs), fs, {p}) && (p in fs.links ==> p in old(fs.links) && fs.links[p] == old(fs.links[p]))
      ensures fs == (if fails(old(clock)) then old(fs) else old(fs).Remove(p)) && clock == old(clock) + 1
      ensures forall q :: q in fs.links ==> q in old(fs.links)
    {
      var ok := Try();
      if ok { fs := fs.Remove(p); }
    }

    /** The first attempts to rename, one after another. */
    method RenameAttempts(from: Path, to: Path) returns (ok: bool, missing: bool)
      requires fs.Valid()
      modifies this`clock, this`fs
      ensures missing ==> !ok && from !in old(fs.links)
      ensures from in old(fs.links) ==> ok == !AllFail(fails, old(clock), ATTEMPTS)
      ensures ok ==> from in old(fs.links) && fs == old(fs).Rename(from, to)
      ensures !ok ==> fs == old(fs) && (!missing ==> clock == old(clock) + ATTEMPTS)
    {
      for attempt := 0 to ATTEMPTS
        invariant fs == old(fs) && clock == old(clock) + attempt && AllFail(fails, old(clock), attempt)
      {
        var done := Try();
        if done && from !in fs.links { return false, true; }
        if done {
          fs := fs.Rename(from, to);
          return true, false;
        }
      }
      ok, missing := false, false;
    }

    /** Copies the bytes into a new file, and makes them durable. */
    method Fill(p: Path, inode: nat, node: Node) returns (ok: bool)
      modifies this`clock, this`fs
      ensures ok == NoneFails(fails, old(clock), 3)
      ensures ok ==> clock == old(clock) + 3 && fs == old(fs).Create(p, inode, node)
      ensures fs == old(fs) || fs == old(fs).Create(p, inode, node)
    {
      ok := Try();
      if !ok { return; }
      fs := fs.Create(p, inode, node);
      ok := Try();
      if ok { ok := Try(); }
    }

    /** A new file holding a copy of the source, under a name that was free. */
    method StageCopy(src: Path) returns (ok: bool, tmp: Path)
      requires fs.Valid() && fs.IsRegular(src)
      modifies this`clock, this`fs
      ensures ok == (NoneFails(fails, old(clock), 5) && names(old(clock) + 1) !in old(fs.links))
      ensures Untouched(old(fs), fs, {})
      ensures ok ==> clock == old(clock) + 5 && tmp == names(old(clock) + 1)
      ensures ok ==> tmp !in old(fs.links) && tmp in fs.links
      ensures ok ==> fs.Read(tmp) == Some(Installed(old(fs).Read(src).value, Copied)) && fs.links[tmp] !in old(fs.inodes)
    {
      hide *;
      ghost var c := clock;
      UntouchedSelf(fs, {});
      RegularIsThere(fs, src);
      FiveCalls(fails, c);
      var readable := Try();
      if !readable { return false, ""; }
      tmp := names(clock);
      var created := Try();
      if !created || tmp in fs.links { return false, tmp; }
      var inode := FreshFrom(fs.inodes, 0);
      FreshIsFresh(fs.inodes, 0);
      var empty, full := Regular([], TEMP_MODE), Regular(fs.Read(src).value.bytes, TEMP_MODE);
      CreatedUntouched(fs, tmp, inode, empty);
      CreatedUntouched(fs, tmp, inode, full);
      WrittenAgain(fs, tmp, inode, empty, full);
      fs := fs.Create(tmp, inode, empty);
      ok := Fill(tmp, inode, full);
      label Written:
      UntouchedValid(old(fs), fs, {});
      if !ok {
        Remove(tmp);
        UntouchedChain(old(fs), old@Written(fs), fs, {}, {tmp}, {});
      }
    }

    method CopyAndReplace(src: Path, dst: Path) returns (ok: bool)
      requires fs.Valid() && fs.IsRegular(src) && forall n :: dst != names(n)
      modifies this`clock, this`fs
      ensures ok == (NoneFails(fails, old(clock), 5) && names(old(clock) + 1) !in old(fs.links)
                     && !AllFail(fails, old(clock) + 5, ATTEMPTS))
      ensures Untouched(old(fs), fs, if ok then {dst} else {})
      ensures ok ==> dst in fs.links && fs.Read(dst) == Some(Installed(old(fs).Read(src).value, Copied))
    {
      hide *;
      var staged, tmp := StageCopy(src);
      if !staged { return false; }
      label Staged:
      UntouchedValid(old(fs), fs, {});
      RenameTouches(fs, tmp, dst);
      var missing: bool;
      ok, missing := RenameAttempts(tmp, dst);
      label Replaced:
      if ok { UntouchedValid(old@Staged(fs), fs, {tmp, dst}); }
      Remove(tmp);
      if ok {
        UntouchedRead(old@Replaced(fs), fs, {tmp}, dst);
        UntouchedChain(old(fs), old@Staged(fs), old@Replaced(fs), {}, {tmp, dst}, {dst});
        UntouchedChain(old(fs), old@Replaced(fs), fs, {dst}, {tmp}, {dst});
      } else {
        UntouchedChain(old(fs), old@Staged(fs), fs, {}, {tmp}, {});
      }
    }

    /** Native replacement, tried again and again, and copying as the last resort. A source that is
        reported missing ends it at once. */
    method SafeRename(from: Path, to: Path) returns (outcome: Outcome)
      requires fs.Valid() && (from in fs.links ==> fs.IsRegular(from)) && from != to && forall n :: to != names(n)
      modifies this`clock, this`fs
      ensures from in old(fs.links) ==>
                && outcome == RenameOutcome(fails, old(clock), names(old(clock) + 11) !in old(fs.links))
                && Replaced(old(fs), fs, from, to, outcome)
      ensures from !in old(fs.links) ==> outcome.Failed? && fs == old(fs)
    {
      hide *;
      var made := Try();
      if from !in fs.links {
        if !made { return Failed; }
        var renamed, missing := RenameAttempts(from, to);
        if missing { return Failed; }
        var found := Try();
        return Failed;
      }
      outcome := ReplaceExisting(from, to, made);
    }

    /** The same, once the directory has been made or not, for a source that is there. */
    method ReplaceExisting(from: Path, to: Path, made: bool) returns (outcome: Outcome)
      requires fs.Valid() && fs.IsRegular(from) && from != to && forall n :: to != names(n)
      requires clock > 0 && made == !fails(clock - 1)
      modifies this`clock, this`fs
      ensures outcome == RenameOutcome(fails, old(clock) - 1, names(old(clock) + 10) !in old(fs.links))
      ensures Replaced(old(fs), fs, from, to, outcome)
    {
      hide *;
      ghost var c: nat := clock - 1;
      UntouchedSelf(fs, {});
      RegularIsThere(fs, from);
      EightAttempts();
      if !made {
        FailsAtOnce(fails, c, names(c + 11) !in fs.links);
        NotReplaced(fs, fs, from, to);
        return Failed;
      }
      RenameTouches(fs, from, to);
      var renamed, missing := RenameAttempts(from, to);
      if renamed {
        FailsLater(fails, c, names(c + 11) !in old(fs.links), false, false);
        RenamedAway(old(fs), from, to);
        IsReplaced(old(fs), fs, from, to, Renamed);
        return Renamed;
      }
      var found := Try();
      var copied := false;
      if found { copied := CopyAndReplace(from, to); }
      label Tried:
      FailsLater(fails, c, names(c + 11) !in old(fs.links), found, copied);
      if copied {
        UntouchedValid(old(fs), fs, {to});
        UntouchedRead(old(fs), fs, {to}, from);
        Remove(from);
        UntouchedRead(old@Tried(fs), fs, {from}, to);
        UntouchedChain(old(fs), old@Tried(fs), fs, {to}, {from}, {from, to});
        IsReplaced(old(fs), fs, from, to, Copied);
        return Copied;
      }
      NotReplaced(old(fs), fs, from, to);
      outcome := Failed;
    }

    method Fingerprint(p: Path) returns (key: Option<ContentKey>)
      modifies this`clock
      ensures clock == old(clock) + 1
      ensures key == if fails(old(clock)) || !fs.IsRegular(p) then None else Some(KeyOf(sha256, fs.Read(p).value))
    {
      var ok := Try();
      if ok && fs.IsRegular(p) {
        return Some(KeyOf(sha256, fs.Read(p).value));
      }
      key := None;
    }

    method Link(from: Path, to: Path) returns (ok: bool)
      requires fs.Valid()
      modifies this`clock, this`fs
      ensures Untouched(old(fs), fs, {})
      ensures ok == (!fails(old(clock)) && from in old(fs.links) && to !in old(fs.links)) && clock == old(clock) + 1
      ensures fs == if ok then old(fs).Link(from, to) else old(fs)
    {
      ok := Try();
      ok := ok && from in fs.links && to !in fs.links;
      if ok { fs := fs.Link(from, to); }
    }

    /** The hint for contents; a table that is full is emptied first. */
    method Remember(key: ContentKey, target: Path)
      requires HintsBounded(shards[..])
      modifies shards
      ensures HintsBounded(shards[..]) && HintFor(shards[..], key) == target
    {
      var i := Stripe(key.digest);
      if |shards[i]| >= CANDIDATES_PER_SHARD { shards[i] := map[]; }
      ghost var held := shards[i];
      shards[i] := shards[i][key := target];
      assert shards[i].Keys == held.Keys + {key};
    }

    /** The hint moves on to the newest link. */
    method MoveHint(key: ContentKey, target: Path)
      requires HintsBounded(shards[..]) && HintFor(shards[..], key) != ""
      modifies shards
      ensures HintsBounded(shards[..]) && HintFor(shards[..], key) == target
    {
      var i := Stripe(key.digest);
      ghost var held := shards[i];
      shards[i] := shards[i][key := target];
      assert shards[i].Keys == held.Keys;
    }

    /** A link to a candidate that holds exactly the wanted contents: what is verified is the
        linked inode, not the candidate's path. */
    method LinkCandidate(candidate: Path, linked: Path, key: ContentKey) returns (ok: bool, unread: bool)
      requires fs.Valid()
      modifies this`clock, this`fs
      ensures Untouched(old(fs), fs, {})
      ensures ok ==> linked !in old(fs.links) && candidate in old(fs.links) && fs.IsRegular(linked)
      ensures ok ==> fs.links[linked] == old(fs.links[candidate]) && key == KeyOf(sha256, fs.Read(linked).value)
      ensures var fate := LinkFate(sha256, fails, old(clock), old(fs), candidate, linked, key);
              && ok == fate.Verified? && unread == (fate.Refused? && Unread(fails, old(clock), old(fs), candidate))
              && clock == old(clock) + (if fate.Unlinked? then 1 else if ok then 2 else 3)
              && (forall p :: p in fs.links <==> p in old(fs.links) || (p == linked && (ok || (fate.Refused? && fails(old(clock) + 2)))))
      ensures !ok && Smooth(fails) ==> fs == old(fs)
    {
      hide *;
      ghost var c := clock;
      ghost var fate := LinkFate(sha256, fails, c, fs, candidate, linked, key);
      FateIs(sha256, fails, c, fs, candidate, linked, key);
      UntouchedSelf(fs, {});
      UnreadIs(fails, c, fs, candidate);
      ok := Link(candidate, linked);
      unread := false;
      if !ok { return; }
      label Linked:
      LinkIs(old(fs), candidate, linked);
      UntouchedValid(old(fs), fs, {});
      var actual := Fingerprint(linked);
      if actual != Some(key) {
        Remove(linked);
        UntouchedChain(old(fs), old@Linked(fs), fs, {}, {linked}, {});
        UnlinkedIs(old(fs), candidate, linked);
        OthersStay(old@Linked(fs), fs, linked);
        if Smooth(fails) { SmoothRenames(fails, c, true); }
        ok, unread := false, actual.None?;
      }
    }

    /** The link takes the target's place; the staged path is no longer needed. */
    method InstallLink(linked: Path, staged: Path, target: Path) returns (outcome: Outcome)
      requires fs.Valid() && fs.IsRegular(linked) && fs.IsRegular(staged)
      requires linked != target && staged != target && forall n :: target != names(n)
      modifies this`clock, this`fs
      ensures LinkMoved(old(fs), fs, linked, staged, target, outcome)
      ensures outcome == RenameOutcome(fails, old(clock), names(old(clock) + 11) !in old(fs.links))
      ensures Smooth(fails) ==> outcome.Renamed? && staged !in fs.links
    {
      hide *;
      RegularIsThere(fs, staged);
      RegularIsThere(fs, linked);
      if Smooth(fails) { SmoothRenames(fails, clock, names(clock + 11) !in fs.links); }
      outcome := SafeRename(linked, target);
      label Moved:
      ReplacedTouches(old(fs), fs, linked, target, outcome);
      Remove(linked);
      label Unlinked:
      UntouchedValid(old@Moved(fs), fs, {linked});
      if outcome.Failed? {
        UntouchedChain(old(fs), old@Moved(fs), fs, {}, {linked}, {linked});
        LinkFailed(old(fs), fs, linked, staged, target);
        return;
      }
      UntouchedRead(old@Moved(fs), fs, {linked}, target);
      UntouchedChain(old(fs), old@Moved(fs), fs, {linked, target}, {linked}, {linked, target});
      Remove(staged);
      UntouchedRead(old@Unlinked(fs), fs, {staged}, target);
      UntouchedChain(old(fs), old@Unlinked(fs), fs, {linked, target}, {staged}, {linked, staged, target});
      if linked != staged { UntouchedRead(old(fs), old@Unlinked(fs), {linked, target}, staged); }
      LinkInstalled(old(fs), fs, linked, staged, target, outcome);
      RemovedIsGone(old@Unlinked(fs), staged);
    }

    /** The hint of a commit, if there is one. */
    method FollowHint(candidate: Path, linked: Path, key: ContentKey) returns (found: bool)
      requires fs.Valid() && clock >= 2
      modifies this`clock, this`fs
      ensures Untouched(old(fs), fs, {})
      ensures found ==> linked !in old(fs.links) && fs.IsRegular(linked) && key == KeyOf(sha256, fs.Read(linked).value)
      ensures !found && Smooth(fails) ==> fs == old(fs)
      ensures var c: nat := old(clock) - 2;
              var fate := if candidate == "" then Unhinted else LinkFate(sha256, fails, c + 2, old(fs), candidate, linked, key);
              && found == fate.Verified? && clock == ReplaceClock(c, fate)
              && NameIsFree(fails, names, c, old(fs), fate, linked) == (names(clock + 11) !in fs.links)
    {
      hide *;
      ghost var c: nat := clock - 2;
      ghost var fate := if candidate == "" then Unhinted else LinkFate(sha256, fails, c + 2, fs, candidate, linked, key);
      FreeIs(fails, names, c, fs, fate, linked);
      FateIs(sha256, fails, c + 2, fs, candidate, linked, key);
      UntouchedSelf(fs, {});
      found := false;
      if candidate != "" {
        var unread: bool;
        found, unread := LinkCandidate(candidate, linked, key);
      }
    }

    /** The part of a commit behind the fingerprint and the directory. */
    method Place(staged: Path, target: Path, linked: Path, candidate: Path, key: ContentKey) returns (found: bool, outcome: Outcome)
      requires fs.Valid() && Collisionless(sha256) && fs.IsRegular(staged) && key == KeyOf(sha256, fs.Read(staged).value)
      requires staged != target && linked != target && (forall n :: target != names(n)) && clock >= 2
      modifies this`clock, this`fs
      ensures fs.Valid() && Committed(old(fs), fs, staged, target, outcome)
      ensures var before := old(fs);
              var c: nat := old(clock) - 2;
              var fate := if candidate == "" then Unhinted else LinkFate(sha256, fails, c + 2, before, candidate, linked, key);
              && found == fate.Verified?
              && outcome == RenameOutcome(fails, ReplaceClock(c, fate), NameIsFree(fails, names, c, before, fate, linked))
              && (Smooth(fails) ==> outcome.Renamed? && (staged in fs.links <==> Shared(before, staged, target) && !found))
    {
      hide *;
      ghost var c: nat := clock - 2;
      ghost var fate := if candidate == "" then Unhinted else LinkFate(sha256, fails, c + 2, fs, candidate, linked, key);
      found := FollowHint(candidate, linked, key);
      label Checked:
      UntouchedValid(old(fs), fs, {});
      StillRegular(old(fs), fs, staged);
      RegularIsThere(old(fs), staged);
      RegularIsThere(fs, staged);
      if Smooth(fails) { SmoothRenames(fails, clock, names(clock + 11) !in fs.links); }
      if found {
        SameContents(sha256, old(fs), fs, staged, linked);
        outcome := InstallLink(linked, staged, target);
        CommittedByLink(old(fs), old@Checked(fs), fs, linked, staged, target, outcome);
      } else {
        outcome := SafeRename(staged, target);
        ReplacedTouches(old@Checked(fs), fs, staged, target, outcome);
        CommittedDirectly(old(fs), old@Checked(fs), fs, staged, target, outcome);
        SharedStays(old@Checked(fs), fs, staged, target);
      }
    }

    /** Moves the staged contents to the target, or a link to a file that already holds them.
        Whatever the hints say, the target reads the staged bytes afterwards, and no other path
        reads anything else; a failure leaves every path as it was. Which of these happens, whether
        the mode is kept, and whether the staged path stays is told from what is known before. */
    method Commit(staged: Path, target: Path, id: string) returns (outcome: Outcome)
      requires Valid() && staged != target && forall n :: target != names(n)
      modifies this`clock, this`fs, shards
      ensures Valid()
      ensures Committed(old(fs), fs, staged, target, outcome)
      ensures old(fs).IsRegular(staged) ==>
                Told(sha256, fails, names, old(clock), old(fs), old(shards[..]), fs, staged, target, id, outcome)
      ensures !outcome.Failed? ==> HintFor(shards[..], KeyOf(sha256, old(fs).Read(staged).value)) == target
    {
      hide *;
      IsValid();
      ghost var c, before, hints := clock, fs, shards[..];
      UntouchedSelf(fs, {});
      var fingerprint := Fingerprint(staged);
      var made := false;
      if fingerprint.Some? { made := Try(); }
      if !made {
        NotCommitted(before, fs, staged, target);
        if before.IsRegular(staged) { CallsFail(sha256, fails, names, c, before, hints, fs, staged, target, id); }
        return Failed;
      }
      RegularIsThere(before, staged);
      LinkNameDiffers(target, id);
      FateOf(sha256, fails, c, before, hints, staged, target, id);
      var key := fingerprint.value;
      var candidate := HintFor(shards[..], key);
      var found: bool;
      found, outcome := Place(staged, target, LinkName(target, id), candidate, key);
      CallsTell(sha256, fails, names, c, before, hints, fs, staged, target, id, outcome);
      StillValid();
      if outcome.Failed? { return; }
      if found { MoveHint(key, target); } else { Remember(key, target); }
      StillValid();
    }

    /** Replaces the target by a link to the candidate, if that holds the wanted contents. */
    method ReuseCandidate(candidate: Path, target: Path, linked: Path, key: ContentKey)
      returns (found: bool, unread: bool, outcome: Outcome)
      requires Valid() && fs.IsRegular(target) && key == KeyOf(sha256, fs.Read(target).value)
      requires candidate != target && linked != target && forall n :: target != names(n)
      modifies this`clock, this`fs
      ensures Valid() && Reused(old(fs), fs, target, outcome)
      ensures var fate := LinkFate(sha256, fails, old(clock), old(fs), candidate, linked, key);
              && found == fate.Verified? && unread == (fate.Refused? && Unread(fails, old(clock), old(fs), candidate))
              && outcome == if found then RenameOutcome(fails, old(clock) + 2, LinkedNameIsFree(names, old(clock) + 2, old(fs), linked))
                            else Failed
    {
      hide *;
      IsValid();
      found, unread := LinkCandidate(candidate, linked, key);
      label Verified:
      UntouchedValid(old(fs), fs, {});
      StillValid();
      if !found {
        NotReused(old(fs), fs, target);
        outcome := Failed;
        return;
      }
      RegularIsThere(fs, linked);
      SameContents(sha256, old(fs), fs, target, linked);
      LinkedFreeIs(names, clock, old(fs), linked);
      outcome := SafeRename(linked, target);
      label Moved:
      ReplacedTouches(old@Verified(fs), fs, linked, target, outcome);
      Remove(linked);
      ReusedByLink(old(fs), old@Verified(fs), old@Moved(fs), fs, linked, candidate, target, outcome);
      StillValid();
    }

    /** Coalesces an installed file with a candidate that holds the same contents. Whether it does or
        not, every path, the target included, reads what it read before: only its mode changes, and
        only if the link had to be copied. After a native rename the two share their inode. How it
        ends is told from what is known before, and an error leaves the hints as they were. */
    method ReuseExisting(target: Path, id: string) returns (outcome: Outcome, broken: bool)
      requires Valid() && forall n :: target != names(n)
      modifies this`clock, this`fs, shards
      ensures Valid()
      ensures Reused(old(fs), fs, target, outcome)
      ensures var fate := FateOfReuse(sha256, fails, old(clock), old(fs), old(shards[..]), target, id);
              && outcome == (if fate.Replacing?
                             then RenameOutcome(fails, old(clock) + 6, LinkedNameIsFree(names, old(clock) + 6, old(fs), LinkName(target, id)))
                             else Failed)
              && broken == (fate.Broken? || (fate.Replacing? && outcome.Failed?))
              && if broken || fate.LeftAlone? then shards[..] == old(shards[..])
                 else old(fs).IsRegular(target) && HintFor(shards[..], KeyOf(sha256, old(fs).Read(target).value)) == target
    {
      hide *;
      IsValid();
      UntouchedSelf(fs, {});
      NotReused(fs, fs, target);
      ghost var c, before, hints := clock, fs, shards[..];
      ReuseFateIs(sha256, fails, c, before, hints, target, id);
      outcome, broken := Failed, true;
      var fingerprint := Fingerprint(target);
      var locked := false;
      if fingerprint.Some? { locked := Try(); }
      if !locked {
        broken := fingerprint.None?;
        return;
      }
      RegularIsThere(before, target);
      var key := fingerprint.value;
      var candidate := HintFor(shards[..], key);
      if candidate != "" && candidate != target {
        var targetSeen := Try();
        if !targetSeen {
          return;
        }
        var seen := Try();
        SharedIs(fs, candidate, target);
        if seen && candidate in fs.links && target in fs.links && fs.links[candidate] == fs.links[target] {
          broken := false;
          return;
        }
        LinkNameDiffers(target, id);
        var found, unread: bool;
        found, unread, outcome := ReuseCandidate(candidate, target, LinkName(target, id), key);
        IsValid();
        broken := unread || (found && outcome.Failed?);
        if found && !broken { MoveHint(key, target); }
        if found || unread {
          StillValid();
          return;
        }
      }
      Remember(key, target);
      broken := false;
      StillValid();
    }

    /** Writes a file under a name of its own, and commits it. When that name is taken, creating the
        file fails, and the removal that follows every attempt takes what has the name. */
    method WriteFile(path: Path, data: Bytes, mode: nat, id: string, commitId: string) returns (outcome: Outcome)
      requires Valid() && forall n :: path != names(n)
      modifies this`clock, this`fs, shards
      ensures Valid()
      ensures path + ".tmp.content." + id !in old(fs.links) ==>
                if outcome.Failed? then Untouched(old(fs), fs, {})
                else Untouched(old(fs), fs, {path}) && fs.Read(path) == Some(Installed(Regular(data, mode), outcome))
      ensures path + ".tmp.content." + id in old(fs.links) ==>
                outcome.Failed? && fs == if NoneFails(fails, old(clock), 1) && !fails(old(clock) + 2)
                                         then old(fs).Remove(path + ".tmp.content." + id) else old(fs)
    {
      hide *;
      IsValid();
      UntouchedSelf(fs, {});
      OneCall(fails, clock);
      var made := Try();
      if !made { return Failed; }
      var staged := path + ".tmp.content." + id;
      LongerName(path, ".tmp.content." + id);
      var created := Try();
      if staged in fs.links {
        Remove(staged);
        UntouchedValid(old(fs), fs, {staged});
        StillValid();
        return Failed;
      }
      if created {
        var inode := FreshFrom(fs.inodes, 0);
        FreshIsFresh(fs.inodes, 0);
        CreatedUntouched(fs, staged, inode, Regular([], mode));
        CreatedUntouched(fs, staged, inode, Regular(data, mode));
        WrittenAgain(fs, staged, inode, Regular([], mode), Regular(data, mode));
        fs := fs.Create(staged, inode, Regular([], mode));
        created := Fill(staged, inode, Regular(data, mode));
      }
      label Written:
      UntouchedValid(old(fs), fs, {});
      StillValid();
      outcome := Failed;
      if created { outcome := Commit(staged, path, commitId); }
      label Done:
      IsValid();
      Remove(staged);
      if created {
        WrittenAndCommitted(old(fs), old@Written(fs), old@Done(fs), fs, staged, path, outcome);
      } else {
        UntouchedChain(old(fs), old@Done(fs), fs, {}, {staged}, {});
      }
      UntouchedValid(old@Done(fs), fs, {staged});
      StillValid();
    }

    lemma StillValid()
      requires fs.Valid() && Collisionless(sha256) && HintsBounded(shards[..])
      ensures Valid()
    {
    }

    lemma IsValid()
      requires Valid()
      ensures fs.Valid() && Collisionless(sha256) && HintsBounded(shards[..]) && |shards[..]| == SHARD_COUNT
    {
    }
  }

  // ----- Commits that go another way

  predicate OnlyRenamesFail(n: nat) { 3 <= n < 11 }

  predicate NothingFails(n: nat) { false }

  function Same(bytes: Bytes): Bytes { bytes }

  function AnyName(n: nat): string { "x" }

  function NoHints(): (hints: seq<map<ContentKey, Path>>)
    ensures |hints| == SHARD_COUNT && HintsBounded(hints)
    ensures forall key :: HintFor(hints, key) == ""
  {
    seq(SHARD_COUNT, i requires 0 <= i < SHARD_COUNT => map[])
  }

  /** When every rename of the staged file fails but copying works, a commit without a hint reports
      success and leaves mode 0600 at the target, whatever mode was staged, on every disk. */
  lemma CopyingLosesTheMode(sha256: Bytes -> Bytes, fails: nat -> bool, names: nat -> string, clock: nat, before: FileSystem,
                            hints: seq<map<ContentKey, Path>>, after: FileSystem, staged: Path, target: Path, id: string, outcome: Outcome)
    requires |hints| == SHARD_COUNT && before.IsRegular(staged) && HintFor(hints, KeyOf(sha256, before.Read(staged).value)) == ""
    requires Committed(before, after, staged, target, outcome)
    requires Told(sha256, fails, names, clock, before, hints, after, staged, target, id, outcome)
    requires NoneFails(fails, clock, 3) && AllFail(fails, clock + 3, ATTEMPTS) && NoneFails(fails, clock + 11, 7)
    requires names(clock + 13) !in before.links
    ensures outcome.Copied? && after.Read(target) == Some(Regular(before.Read(staged).value.bytes, TEMP_MODE))
  {
    assert !fails(clock) && !fails(clock + 1) && !fails(clock + 2) && !fails(clock + 17);
    assert NoneFails(fails, clock + 11, 6);
  }

  function StagedAlone(bytes: Bytes, mode: nat): FileSystem { FileSystem(map["staged" := 0], map[0 := Regular(bytes, mode)]) }

  /** Such a commit. */
  method CommitLosesTheMode(bytes: Bytes, mode: nat) returns (disk: Disk, outcome: Outcome)
    ensures Committed(StagedAlone(bytes, mode), disk.fs, "staged", "target", outcome)
    ensures Told(disk.sha256, disk.fails, disk.names, 0, StagedAlone(bytes, mode), NoHints(), disk.fs, "staged", "target", "id", outcome)
    ensures outcome.Copied? && disk.fs.Read("target") == Some(Regular(bytes, TEMP_MODE))
  {
    disk := new Disk(Same, OnlyRenamesFail, AnyName, NoHints(), StagedAlone(bytes, mode));
    outcome := disk.Commit("staged", "target", "id");
    CopyingLosesTheMode(disk.sha256, disk.fails, disk.names, 0, StagedAlone(bytes, mode), NoHints(), disk.fs, "staged", "target", "id", outcome);
  }

  function StagedShared(bytes: Bytes, mode: nat): FileSystem {
    FileSystem(map["staged" := 0, "target" := 0], map[0 := Regular(bytes, mode)])
  }

  /** When the staged path and the target are links to one inode, and no hint verifies, a commit in
      which nothing fails leaves the staged path. */
  method CommitCanLeaveStaged(bytes: Bytes, mode: nat) returns (disk: Disk, outcome: Outcome)
    ensures Committed(StagedShared(bytes, mode), disk.fs, "staged", "target", outcome)
    ensures Smooth(disk.fails)
    ensures Told(disk.sha256, disk.fails, disk.names, 0, StagedShared(bytes, mode), NoHints(), disk.fs, "staged", "target", "id", outcome)
    ensures outcome.Renamed? && disk.fs.Read("staged") == Some(Regular(bytes, mode))
  {
    disk := new Disk(Same, NothingFails, AnyName, NoHints(), StagedShared(bytes, mode));
    outcome := disk.Commit("staged", "target", "id");
    assert "staged" in disk.fs.links;
  }

  // ----- Runs

  /** What the operations promise: a file written or committed, or nothing done. */
  datatype Op =
    | Install(target: Path, bytes: Bytes, staged: Option<Path>)
    | Nothing

  /** The bytes of a regular file. */
  function BytesAt(fs: FileSystem, p: Path): Option<Bytes> {
    if fs.IsRegular(p) then Some(fs.Read(p).value.bytes) else None
  }

  /** One operation as seen through the paths. */
  ghost predicate Step(before: FileSystem, op: Op, after: FileSystem) {
    match op
    case Nothing => forall p :: BytesAt(before, p).Some? ==> BytesAt(after, p) == BytesAt(before, p)
    case Install(target, bytes, staged) =>
      && BytesAt(after, target) == Some(bytes)
      && (forall p :: p != target && Some(p) != staged && BytesAt(before, p).Some? ==> BytesAt(after, p) == BytesAt(before, p))
  }

  lemma CommitSteps(before: FileSystem, after: FileSystem, staged: Path, target: Path, outcome: Outcome)
    requires before.Valid() && Committed(before, after, staged, target, outcome)
    ensures outcome.Failed? ==> Step(before, Nothing, after)
    ensures !outcome.Failed? ==> before.IsRegular(staged) && Step(before, Install(target, before.Read(staged).value.bytes, Some(staged)), after)
  {
  }

  lemma ReuseSteps(before: FileSystem, after: FileSystem, target: Path, outcome: Outcome)
    requires before.Valid() && Reused(before, after, target, outcome)
    ensures Step(before, Nothing, after)
  {
  }

  lemma WriteSteps(before: FileSystem, after: FileSystem, path: Path, data: Bytes, mode: nat, outcome: Outcome)
    requires before.Valid() && if outcome.Failed? then Untouched(before, after, {})
             else Untouched(before, after, {path}) && after.Read(path) == Some(Installed(Regular(data, mode), outcome))
    ensures Step(before, if outcome.Failed? then Nothing else Install(path, data, None), after)
  {
  }

  ghost predicate Run(ops: seq<Op>, states: seq<FileSystem>) {
    |states| == |ops| + 1 && forall i :: 0 <= i < |ops| ==> Step(states[i], ops[i], states[i + 1])
  }

  /** The bytes last installed at a path, unless it was given away as a staged file since. */
  function LastInstalled(ops: seq<Op>, p: Path, initial: Option<Bytes>): Option<Bytes> {
    if ops == [] then initial
    else
      var last, before := ops[|ops| - 1], LastInstalled(ops[..|ops| - 1], p, initial);
      if last.Nothing? then before
      else if last.target == p then Some(last.bytes)
      else if last.staged == Some(p) then None
      else before
  }

  /** However inodes are shared, every path reads what was last committed to it. */
  lemma {:induction false} PathsReadTheirLastCommit(ops: seq<Op>, states: seq<FileSystem>, p: Path)
    requires Run(ops, states)
    requires LastInstalled(ops, p, BytesAt(states[0], p)).Some?
    ensures BytesAt(states[|ops|], p) == LastInstalled(ops, p, BytesAt(states[0], p))
  {
    hide BytesAt;
    if ops != [] {
      var n := |ops| - 1;
      assert Step(states[n], ops[n], states[n + 1]);
      if ops[n].Nothing? || (ops[n].target != p && ops[n].staged != Some(p)) {
        PathsReadTheirLastCommit(ops[..n], states[..n + 1], p);
      }
    }
  }
}
