/** The durable namespace snapshot: what a commit may leave on disk, step by step, through crashes and failures. */
module NamespaceStores {
  import opened Alignment
  import opened Options

  const SCHEMA_VERSION := 1

  /** Revisions by path, revisions of stream nodes by path, and the outcome of each operation (none if rejected). */
  datatype Snapshot = Snapshot(
    schemaVersion: nat,
    authorityEpoch: U64,
    nextRevision: U64,
    bindings: map<nat, U64>,
    streamNodes: map<nat, U64>,
    operations: map<nat, Option<U64>>)

  datatype Error = Io | Corrupt | UnsupportedSchema | AuthorityEpochExhausted

  function Default(): (s: Snapshot) {
    Snapshot(SCHEMA_VERSION, 0, 1, map[], map[], map[])
  }

  predicate InRange(revision: U64, next: U64) {
    0 < revision < next
  }

  function Validate(s: Snapshot): (error: Option<Error>) {
    if s.schemaVersion != SCHEMA_VERSION then Some(UnsupportedSchema)
    else if s.nextRevision == 0 then Some(Corrupt)
    else if (exists p :: p in s.bindings && !InRange(s.bindings[p], s.nextRevision))
         || (exists p :: p in s.streamNodes && !InRange(s.streamNodes[p], s.nextRevision)) then Some(Corrupt)
    else if exists o :: o in s.operations && s.operations[o].Some? && !InRange(s.operations[o].value, s.nextRevision)
    then Some(Corrupt)
    else None
  }

  predicate Valid(s: Snapshot) {
    Validate(s).None?
  }

  /** Every revision a snapshot speaks of: of a binding, of a stream node, or of an operation that was committed. */
  function Revisions(s: Snapshot): (revisions: set<U64>) {
    (set p | p in s.bindings :: s.bindings[p])
    + (set p | p in s.streamNodes :: s.streamNodes[p])
    + (set o | o in s.operations && s.operations[o].Some? :: s.operations[o].value)
  }

  /** The supported schema, and no revision but those handed out so far. */
  predicate WellFormed(s: Snapshot) {
    && s.schemaVersion == SCHEMA_VERSION && 0 < s.nextRevision
    && forall r :: r in Revisions(s) ==> 0 < r < s.nextRevision
  }

  /** A snapshot is accepted exactly if it is well-formed, and turned away for its schema first. */
  lemma ValidIff(s: Snapshot)
    ensures Valid(s) <==> WellFormed(s)
    ensures Validate(s) == Some(UnsupportedSchema) <==> s.schemaVersion != SCHEMA_VERSION
    ensures Validate(s) == Some(Corrupt) <==> s.schemaVersion == SCHEMA_VERSION && !WellFormed(s)
  {
    if WellFormed(s) {
      forall p | p in s.bindings ensures InRange(s.bindings[p], s.nextRevision) {
        assert s.bindings[p] in Revisions(s);
      }
      forall p | p in s.streamNodes ensures InRange(s.streamNodes[p], s.nextRevision) {
        assert s.streamNodes[p] in Revisions(s);
      }
      forall o | o in s.operations && s.operations[o].Some? ensures InRange(s.operations[o].value, s.nextRevision) {
        assert s.operations[o].value in Revisions(s);
      }
    }
  }

  // ─── the disk ──────────────────────────────────────────────────────────────

  /** The content of a file: a snapshot written out in full, or anything else. */
  datatype Content = Whole(snapshot: Snapshot) | Torn

  /** The temporary file; unless it was synced, a crash may leave anything of it. */
  datatype Temp = NoTemp | Temp(content: Content, synced: bool)

  /** The directory that holds the state file; its own entry is never synced by the store. */
  datatype Directory = Missing | Unsynced | Durable

  /**
   `visible` is what the state file holds now, and `survivors` what it may hold after a crash that
   leaves the directory: a rename that was not yet followed by a sync may or may not survive.
   */
  datatype Disk = Disk(directory: Directory, visible: Option<Content>, survivors: set<Option<Content>>, temp: Temp)

  /** What may be found at the path after a crash; a directory created and not yet durable may be gone with it. */
  predicate MayFind(d: Disk, c: Option<Content>) {
    c in d.survivors || (d.directory.Unsynced? && c.None?)
  }

  function MakeDirectory(d: Disk): (d': Disk) {
    if d.directory.Missing? then d.(directory := Unsynced) else d
  }

  function Create(d: Disk): (d': Disk) {
    d.(temp := Temp(Torn, false))
  }

  function Write(d: Disk, next: Snapshot): (d': Disk) {
    d.(temp := Temp(Whole(next), false))
  }

  function SyncFile(d: Disk): (d': Disk) {
    if d.temp.NoTemp? then d else d.(temp := d.temp.(synced := true))
  }

  function Rename(d: Disk): (d': Disk) {
    if d.temp.NoTemp? then d
    else
      d.(visible := Some(d.temp.content),
         survivors := d.survivors + {Some(if d.temp.synced then d.temp.content else Torn)},
         temp := NoTemp)
  }

  // Makes the entries of the directory durable, not the entry for the directory.
  function SyncDirectory(d: Disk): (d': Disk) {
    d.(survivors := {d.visible})
  }

  /** A crash that loses the directory, or one that leaves it and thereby shows it to be on disk. */
  function Crashed(d: Disk, lost: bool, survivor: Option<Content>, temp: Temp): (d': Disk) {
    if lost then Disk(Missing, None, {None}, NoTemp)
    else Disk(if d.directory.Unsynced? then Durable else d.directory, survivor, {survivor}, temp)
  }

  // ─── the store ─────────────────────────────────────────────────────────────

  datatype Phase = MakingDirectory | Creating | Writing | SyncingFile | Renaming | SyncingDirectory

  /** A commit in progress; `advancing` if it is the store's own step to the next epoch. */
  datatype Attempt = Attempt(next: Snapshot, phase: Phase, advancing: bool)

  /** `memory` is the open store's snapshot; `epochs` are those returned so far, over all openings. */
  datatype State = State(disk: Disk, memory: Option<Snapshot>, attempt: Option<Attempt>, epochs: seq<U64>)

  datatype Step =
    | Open
    | Commit(next: Snapshot)
    | Advance
    | Proceed
    | Fail(left: Temp)
    | Close
    | Crash(lost: bool, survivor: Option<Content>, temp: Temp)

  /** Nothing stored yet, below a directory that may or may not be there. */
  function Fresh(root: Directory): (s: State) {
    State(Disk(root, None, {None}, NoTemp), None, None, [])
  }

  predicate Enabled(s: State, step: Step) {
    match step
    case Open => s.memory.None?
    case Commit(_) => s.memory.Some? && s.attempt.None?
    case Advance => s.memory.Some? && s.attempt.None?
    case Proceed => s.attempt.Some?
    case Fail(_) => s.attempt.Some?
    case Close => s.attempt.None?
    case Crash(lost, survivor, _) =>
      if lost then s.disk.directory.Unsynced? && survivor.None? else survivor in s.disk.survivors
  }

  /** What opening makes of a file; a missing one is the default snapshot. */
  function Parse(c: Option<Content>): (r: Option<Snapshot>) {
    match c
    case None => Some(Default())
    case Some(Whole(snapshot)) => if Valid(snapshot) then Some(snapshot) else None
    case Some(Torn) => None
  }

  function Opened(d: Disk): (r: Option<Snapshot>) {
    Parse(d.visible)
  }

  function Begin(s: State, next: Snapshot, advancing: bool): (s': State) {
    if Valid(next) then s.(attempt := Some(Attempt(next, MakingDirectory, advancing))) else s
  }

  function Finish(s: State, a: Attempt): (s': State) {
    s.(memory := Some(a.next),
       attempt := None,
       epochs := if a.advancing then s.epochs + [a.next.authorityEpoch] else s.epochs)
  }

  function Proceeded(s: State, a: Attempt): (s': State) {
    match a.phase
    case MakingDirectory => s.(disk := MakeDirectory(s.disk), attempt := Some(a.(phase := Creating)))
    case Creating => s.(disk := Create(s.disk), attempt := Some(a.(phase := Writing)))
    case Writing => s.(disk := Write(s.disk, a.next), attempt := Some(a.(phase := SyncingFile)))
    case SyncingFile => s.(disk := SyncFile(s.disk), attempt := Some(a.(phase := Renaming)))
    case Renaming => s.(disk := Rename(s.disk), attempt := Some(a.(phase := SyncingDirectory)))
    case SyncingDirectory => Finish(s.(disk := SyncDirectory(s.disk)), a)
  }

  function Next(s: State, step: Step): (s': State)
    requires Enabled(s, step)
  {
    match step
    case Open => s.(memory := Opened(s.disk))
    case Commit(next) => Begin(s, next, false)
    case Advance =>
      var epoch := s.memory.value.authorityEpoch;
      if epoch == U64_MAX then s else Begin(s, s.memory.value.(authorityEpoch := epoch + 1), true)
    case Proceed => Proceeded(s, s.attempt.value)
    case Fail(left) => s.(disk := s.disk.(temp := left), attempt := None)
    case Close => s.(memory := None)
    case Crash(lost, survivor, temp) =>
      s.(disk := Crashed(s.disk, lost, survivor, temp), memory := None, attempt := None)
  }

  predicate Runs(s: State, steps: seq<Step>)
    decreases |steps|
  {
    steps == [] || (Enabled(s, steps[0]) && Runs(Next(s, steps[0]), steps[1..]))
  }

  function Run(s: State, steps: seq<Step>): (s': State)
    requires Runs(s, steps)
    decreases |steps|
  {
    if steps == [] then s else Run(Next(s, steps[0]), steps[1..])
  }

  // ─── invariants ────────────────────────────────────────────────────────────

  /** The state file is absent, or holds a valid snapshot in full. */
  predicate Sound(c: Option<Content>) {
    c.Some? ==> c.value.Whole? && Valid(c.value.snapshot)
  }

  /** All that can be read from this disk, now or after a crash, is sound. */
  ghost predicate Readable(d: Disk) {
    && Sound(d.visible) && d.visible in d.survivors && (forall c :: c in d.survivors ==> Sound(c))
    && (d.directory.Missing? ==> d.survivors == {None})
  }

  /** The temporary file is where the attempt has brought it. */
  predicate TempOk(temp: Temp, attempt: Option<Attempt>) {
    attempt.Some? ==>
      && Valid(attempt.value.next)
      && (attempt.value.phase.SyncingFile? ==> temp.Temp? && temp.content == Whole(attempt.value.next))
      && (attempt.value.phase.Renaming? ==> temp == Temp(Whole(attempt.value.next), true))
  }

  /** Whatever may be read, now or after a crash, is sound; and a directory about to be synced holds the attempt. */
  ghost predicate Inv(s: State) {
    && Readable(s.disk)
    && (s.attempt.Some? && !s.attempt.value.phase.MakingDirectory? ==> !s.disk.directory.Missing?)
    && TempOk(s.disk.temp, s.attempt)
    && (s.attempt.Some? ==> s.memory.Some?)
    && (s.memory.Some? ==> Valid(s.memory.value))
    && (s.attempt.Some? && s.attempt.value.phase.SyncingDirectory? ==>
           s.disk.visible == Some(Whole(s.attempt.value.next)))
  }

  lemma DefaultIsValid()
    ensures Valid(Default())
  {
  }

  /** A store that finds no file begins with nothing bound, no epoch handed out and the first revision still to come. */
  lemma DefaultIsTheBeginning(s: Snapshot)
    requires WellFormed(s)
    ensures WellFormed(Default()) && Revisions(Default()) == {}
    ensures Default().authorityEpoch == 0 && Default().nextRevision <= s.nextRevision
  {
  }

  lemma NextKeepsInv(s: State, step: Step)
    requires Inv(s) && Enabled(s, step)
    ensures Inv(Next(s, step))
  {
    DefaultIsValid();
  }

  lemma {:induction false} RunKeepsInv(s: State, steps: seq<Step>)
    requires Inv(s) && Runs(s, steps)
    ensures Inv(Run(s, steps))
    decreases |steps|
  {
    if steps != [] {
      NextKeepsInv(s, steps[0]);
      RunKeepsInv(Next(s, steps[0]), steps[1..]);
    }
  }

  // ─── crash consistency ─────────────────────────────────────────────────────

  /** Opening never fails: after any run of openings, commits, failures and crashes the file is sound. */
  lemma ReopeningSucceeds(root: Directory, steps: seq<Step>, found: Option<Content>)
    requires Runs(Fresh(root), steps) && MayFind(Run(Fresh(root), steps).disk, found)
    ensures Opened(Run(Fresh(root), steps).disk).Some? && WellFormed(Opened(Run(Fresh(root), steps).disk).value)
    ensures Parse(found).Some? && WellFormed(Parse(found).value)
  {
    DefaultIsValid();
    RunKeepsInv(Fresh(root), steps);
    ValidIff(Opened(Run(Fresh(root), steps).disk).value);
    ValidIff(Parse(found).value);
  }

  /** Whatever is found after any run speaks only of revisions below the next one it would hand out. */
  lemma FoundRevisionsAreBelowTheNext(root: Directory, steps: seq<Step>, found: Option<Content>, revision: U64)
    requires Runs(Fresh(root), steps) && MayFind(Run(Fresh(root), steps).disk, found)
    ensures Parse(found).Some?
    ensures revision in Revisions(Parse(found).value) ==> 0 < revision < Parse(found).value.nextRevision
  {
    ReopeningSucceeds(root, steps, found);
  }

  // ─── a commit that goes through ────────────────────────────────────────────

  /** This attempt stands before its `k`th operation, and the operations before it have succeeded. */
  ghost predicate Underway(s: State, next: Snapshot, advancing: bool, k: nat) {
    && k < 6 && Inv(s) && s.attempt.Some? && s.attempt.value.next == next && s.attempt.value.advancing == advancing
    && s.attempt.value.phase == [MakingDirectory, Creating, Writing, SyncingFile, Renaming, SyncingDirectory][k]
  }

  lemma OneOperation(s: State, next: Snapshot, advancing: bool, k: nat)
    requires Underway(s, next, advancing, k)
    ensures var s' := Next(s, Proceed);
            && (k < 5 ==> Underway(s', next, advancing, k + 1) && s'.memory == s.memory && s'.epochs == s.epochs)
            && (k == 5 ==> Completed(s', next) && s'.epochs == s.epochs + if advancing then [next.authorityEpoch]
                   else [])
  {
    NextKeepsInv(s, Proceed);
  }

  ghost predicate Completed(s: State, next: Snapshot) {
    && Inv(s) && s.memory == Some(next) && s.attempt.None?
    && s.disk.visible == Some(Whole(next)) && s.disk.survivors == {s.disk.visible}
  }

  lemma {:induction false} OperationsGoThrough(s: State, next: Snapshot, advancing: bool, k: nat, steps: seq<Step>)
    requires Underway(s, next, advancing, k) && |steps| == 6 - k && forall i :: 0 <= i < |steps| ==> steps[i].Proceed?
    ensures Runs(s, steps) && Completed(Run(s, steps), next)
    ensures Run(s, steps).epochs == s.epochs + if advancing then [next.authorityEpoch] else []
    decreases 6 - k
  {
    OneOperation(s, next, advancing, k);
    var s' := Next(s, Proceed);
    if k < 5 {
      OperationsGoThrough(s', next, advancing, k + 1, steps[1..]);
    } else {
      assert steps[1..] == [];
    }
  }

  predicate SixOperations(steps: seq<Step>) {
    |steps| == 6 && forall i :: 0 <= i < |steps| ==> steps[i].Proceed?
  }

  /** The disk after the first `k` operations of a commit. */
  function DiskAfter(d: Disk, next: Snapshot, k: nat): (d': Disk)
    requires k <= 6
  {
    if k == 0 then d
    else
      var before := DiskAfter(d, next, k - 1);
      match k
      case 1 => MakeDirectory(before)
      case 2 => Create(before)
      case 3 => Write(before, next)
      case 4 => SyncFile(before)
      case 5 => Rename(before)
      case _ => SyncDirectory(before)
  }

  /** These are the operations of an attempt, in its order. */
  lemma OperationsAreProceeds(s: State, d: Disk, next: Snapshot, advancing: bool, k: nat)
    requires Underway(s, next, advancing, k) && s.disk == DiskAfter(d, next, k)
    ensures Next(s, Proceed).disk == DiskAfter(d, next, k + 1)
  {
  }

  /** What a commit begun in `s0` comes to if none of its operations fails. */
  ghost predicate Commits(s0: State, next: Snapshot, steps: seq<Step>)
    requires Enabled(s0, Commit(next))
  {
    var s := Next(s0, Commit(next));
    if WellFormed(next) then
      && Runs(s, steps) && Completed(Run(s, steps), next) && Run(s, steps).epochs == s0.epochs
      && Next(Next(Run(s, steps), Close), Open).memory == Some(next)
    else s == s0
  }

  ghost predicate Advances(s0: State, steps: seq<Step>)
    requires Enabled(s0, Advance)
  {
    var s, was := Next(s0, Advance), s0.memory.value;
    if was.authorityEpoch < U64_MAX then
      && Runs(s, steps) && Completed(Run(s, steps), was.(authorityEpoch := was.authorityEpoch + 1))
      && Run(s, steps).epochs == s0.epochs + [was.authorityEpoch + 1]
    else s == s0
  }

  lemma CommitFrom(s0: State, next: Snapshot, steps: seq<Step>)
    requires Inv(s0) && Enabled(s0, Commit(next)) && SixOperations(steps)
    ensures Commits(s0, next, steps)
  {
    ValidIff(next);
    if WellFormed(next) {
      NextKeepsInv(s0, Commit(next));
      OperationsGoThrough(Next(s0, Commit(next)), next, false, 0, steps);
    }
  }

  lemma AdvanceFrom(s0: State, steps: seq<Step>)
    requires Inv(s0) && Enabled(s0, Advance) && SixOperations(steps)
    ensures Advances(s0, steps)
  {
    var was := s0.memory.value;
    if was.authorityEpoch < U64_MAX {
      var next := was.(authorityEpoch := was.authorityEpoch + 1);
      assert Valid(next);
      NextKeepsInv(s0, Advance);
      OperationsGoThrough(Next(s0, Advance), next, true, 0, steps);
    }
  }

  /**
   After any run: a commit of a well-formed snapshot, if none of its six operations fails, leaves it in memory
   and on disk, and opening the store again finds it; any other is turned away and changes nothing.
   */
  lemma CommitGoesThrough(root: Directory, before: seq<Step>, next: Snapshot, steps: seq<Step>)
    requires Runs(Fresh(root), before) && Enabled(Run(Fresh(root), before), Commit(next)) && SixOperations(steps)
    ensures Commits(Run(Fresh(root), before), next, steps)
  {
    RunKeepsInv(Fresh(root), before);
    CommitFrom(Run(Fresh(root), before), next, steps);
  }

  /**
   An advance returns the epoch after the one in memory, if there is one, and changes nothing else of
   the snapshot.
   */
  lemma AdvanceGoesThrough(root: Directory, before: seq<Step>, steps: seq<Step>)
    requires Runs(Fresh(root), before) && Enabled(Run(Fresh(root), before), Advance) && SixOperations(steps)
    ensures Advances(Run(Fresh(root), before), steps)
  {
    RunKeepsInv(Fresh(root), before);
    AdvanceFrom(Run(Fresh(root), before), steps);
  }

  /** No step but those of a single commit, up to and including its end, its failure or a crash. */
  predicate WithinCommit(steps: seq<Step>) {
    forall i :: 0 <= i < |steps| ==> steps[i].Proceed? || steps[i].Fail?
  }

  /** While this attempt runs, and after it ends, the disk holds what it held before or the attempted snapshot. */
  ghost predicate OldOrNew(d: Disk, before: Disk, next: Snapshot) {
    && (d.visible == before.visible || d.visible == Some(Whole(next)))
    && (forall c :: c in d.survivors ==> c in before.survivors || c == Some(Whole(next)))
    && (d.directory.Durable? <==> before.directory.Durable?)
    && (before.directory.Missing? ==> None in before.survivors)
  }

  lemma {:induction false} CommitStepsAreOldOrNew(s: State, before: Disk, next: Snapshot, steps: seq<Step>)
    requires Inv(s) && Runs(s, steps) && WithinCommit(steps) && OldOrNew(s.disk, before, next)
    requires s.attempt.Some? ==> s.attempt.value.next == next
    ensures OldOrNew(Run(s, steps).disk, before, next)
    ensures Run(s, steps).attempt.Some? ==> Run(s, steps).attempt.value.next == next
    decreases |steps|
  {
    if steps != [] {
      NextKeepsInv(s, steps[0]);
      CommitStepsAreOldOrNew(Next(s, steps[0]), before, next, steps[1..]);
    }
  }

  /** An attempt changes the snapshot in memory, and hands out its epoch, exactly when its last operation succeeds. */
  lemma {:induction false} MemoryChangesAtTheEnd(s: State, steps: seq<Step>)
    requires s.attempt.Some? && Runs(s, steps) && WithinCommit(steps)
    ensures var a, t := s.attempt.value, Run(s, steps);
            if t.attempt.Some? || (steps != [] && steps[|steps| - 1].Fail?) then
              t.memory == s.memory && t.epochs == s.epochs
            else
              && t.memory == Some(a.next)
              && t.epochs == if a.advancing then s.epochs + [a.next.authorityEpoch] else s.epochs
    decreases |steps|
  {
    if steps != [] {
      var s1, rest := Next(s, steps[0]), steps[1..];
      if s1.attempt.None? {
        NothingBegunNothingRuns(s1, rest);
      } else {
        MemoryChangesAtTheEnd(s1, rest);
        if rest != [] { assert steps[|steps| - 1] == rest[|rest| - 1]; }
      }
    }
  }

  /**
   Both syncs are needed: a crash before the directory is synced may find the old snapshot or the new one, and
   a file renamed before it was synced may be found torn.
   */
  lemma SyncsAreNeeded(d: Disk, next: Snapshot, found: Option<Content>)
    requires found in d.survivors
    ensures MayFind(DiskAfter(d, next, 5), found) && MayFind(DiskAfter(d, next, 5), Some(Whole(next)))
    ensures MayFind(Rename(DiskAfter(d, next, 3)), Some(Torn))
  {
    var d1 := MakeDirectory(d);
    assert DiskAfter(d, next, 0) == d;
    assert DiskAfter(d, next, 1) == d1;
    var d2 := Create(d1);
    var d3 := Write(d2, next);
    var d4 := SyncFile(d3);
    assert DiskAfter(d, next, 2) == d2 && DiskAfter(d, next, 3) == d3;
    assert DiskAfter(d, next, 4) == d4 && DiskAfter(d, next, 5) == Rename(d4);
    assert d1.survivors == d.survivors && Rename(d4).survivors == d.survivors + {Some(Whole(next))};
    assert Rename(d3).survivors == d.survivors + {Some(Torn)};
  }

  /** Whatever may be found while or after a commit could have been found before it, or is what it attempted. */
  lemma FoundIsOldOrNew(d: Disk, before: Disk, next: Snapshot, found: Option<Content>)
    requires OldOrNew(d, before, next) && MayFind(d, found)
    ensures MayFind(before, found) || found == Some(Whole(next))
  {
  }

  /**
   However far a commit gets before a crash or a failure, opening the store again, with or without a
   crash, yields a snapshot that could have been read before, or the attempted one.
   */
  lemma CrashYieldsOldOrNew(s: State, next: Snapshot, steps: seq<Step>, found: Option<Content>)
    requires Inv(s) && Enabled(s, Commit(next)) && WithinCommit(steps) && Runs(Next(s, Commit(next)), steps)
    requires MayFind(Run(Next(s, Commit(next)), steps).disk, found)
    ensures var s' := Run(Next(s, Commit(next)), steps);
            && Parse(found).Some? && Opened(s'.disk).Some?
            && (MayFind(s.disk, found) || Parse(found) == Some(next))
            && (s'.disk.visible == s.disk.visible || Opened(s'.disk) == Some(next))
  {
    var begun := Next(s, Commit(next));
    NextKeepsInv(s, Commit(next));
    CommitStepsAreOldOrNew(begun, s.disk, next, steps);
    RunKeepsInv(begun, steps);
    var s' := Run(begun, steps);
    FoundIsOldOrNew(s'.disk, s.disk, next, found);
    DefaultIsValid();
    if !Valid(next) { NothingBegunNothingRuns(s, steps); }
  }

  lemma NothingBegunNothingRuns(s: State, steps: seq<Step>)
    requires s.attempt.None? && WithinCommit(steps) && Runs(s, steps)
    ensures steps == []
  {
  }

  /** Nothing but this snapshot can be read, whether or not there is a crash. */
  ghost predicate OnlyReads(d: Disk, next: Snapshot) {
    Opened(d) == Some(next) && forall c :: MayFind(d, c) ==> Parse(c) == Some(next)
  }

  /** A snapshot that was renamed into place and synced is all that can be read exactly if the directory is durable. */
  lemma SyncedReadsIff(d: Disk, next: Snapshot)
    requires Valid(next) && d.visible == Some(Whole(next)) && d.survivors == {d.visible} && !d.directory.Missing?
    ensures OnlyReads(d, next) <==> d.directory.Durable? || next == Default()
  {
    if d.directory.Unsynced? {
      assert MayFind(d, None) && Parse(None) == Some(Default());
    }
  }

  /**
   A commit that reports success, after any run at all, is durable if and only if the directory was
   durable before the commit, or what was committed is the default snapshot.
   */
  lemma SuccessIsDurableIff(root: Directory, before: seq<Step>, begin: Step, steps: seq<Step>)
    requires Runs(Fresh(root), before)
    requires (begin.Commit? || begin.Advance?) && Enabled(Run(Fresh(root), before), begin)
    requires WithinCommit(steps) && Runs(Next(Run(Fresh(root), before), begin), steps)
    requires var s := Run(Next(Run(Fresh(root), before), begin), steps);
             s.attempt.Some? && s.attempt.value.phase.SyncingDirectory?
    ensures var was := Run(Fresh(root), before).disk.directory;
            var s := Run(Next(Run(Fresh(root), before), begin), steps);
            var s', next := Next(s, Proceed), s.attempt.value.next;
            && s'.memory == Some(next) && s'.attempt.None?
            && (OnlyReads(s'.disk, next) <==> was.Durable? || next == Default())
  {
    var s0 := Run(Fresh(root), before);
    var s1 := Next(s0, begin);
    RunKeepsInv(Fresh(root), before);
    NextKeepsInv(s0, begin);
    RunKeepsInv(s1, steps);
    if s1.attempt.None? {
      NothingBegunNothingRuns(s1, steps);
    } else {
      CommitStepsAreOldOrNew(s1, s0.disk, s1.attempt.value.next, steps);
      var s := Run(s1, steps);
      SyncedReadsIff(Next(s, Proceed).disk, s.attempt.value.next);
    }
  }

  // ─── epochs ────────────────────────────────────────────────────────────────

  predicate EpochAtLeast(c: Option<Content>, bound: nat) {
    (if c.Some? && c.value.Whole? then c.value.snapshot.authorityEpoch else 0) >= bound
  }

  /** The last epoch returned, or none. */
  function LastEpoch(s: State): (n: nat) {
    if s.epochs == [] then 0 else s.epochs[|s.epochs| - 1]
  }

  predicate StrictlyIncreasing(epochs: seq<U64>) {
    forall i, j :: 0 <= i < j < |epochs| ==> epochs[i] < epochs[j]
  }

  /** Nothing that is open, in progress, or readable after a crash has an epoch below the last one returned. */
  ghost predicate EpochsInv(s: State) {
    && StrictlyIncreasing(s.epochs) && (forall i :: 0 <= i < |s.epochs| ==> 0 < s.epochs[i] <= LastEpoch(s))
    && EpochAtLeast(s.disk.visible, LastEpoch(s))
    && (forall c :: c in s.disk.survivors ==> EpochAtLeast(c, LastEpoch(s)))
    && (s.memory.Some? ==> s.memory.value.authorityEpoch >= LastEpoch(s))
    && (s.attempt.Some? ==>
           s.attempt.value.next.authorityEpoch >= LastEpoch(s) + if s.attempt.value.advancing then 1 else 0)
  }

  /** Commits from outside do not lower the epoch. */
  predicate KeepsEpoch(s: State, step: Step) {
    step.Commit? && s.memory.Some? ==> step.next.authorityEpoch >= s.memory.value.authorityEpoch
  }

  predicate LosesDirectory(step: Step) {
    step.Crash? && step.lost
  }

  predicate NoneLost(steps: seq<Step>) {
    forall i :: 0 <= i < |steps| ==> !LosesDirectory(steps[i])
  }

  lemma FinishKeepsEpochs(s: State)
    requires Inv(s) && EpochsInv(s) && s.attempt.Some? && s.attempt.value.phase.SyncingDirectory?
    ensures EpochsInv(Next(s, Proceed))
  {
    var s' := Next(s, Proceed);
    if s.attempt.value.advancing {
      assert forall i :: 0 <= i < |s.epochs| ==> s'.epochs[i] == s.epochs[i];
    }
  }

  lemma ProceedKeepsEpochs(s: State)
    requires Inv(s) && EpochsInv(s) && Enabled(s, Proceed)
    ensures EpochsInv(Next(s, Proceed))
  {
    if s.attempt.value.phase.SyncingDirectory? { FinishKeepsEpochs(s); }
  }

  lemma NextKeepsEpochs(s: State, step: Step)
    requires Inv(s) && EpochsInv(s) && Enabled(s, step) && KeepsEpoch(s, step) && !LosesDirectory(step)
    ensures EpochsInv(Next(s, step))
  {
    if step.Proceed? { ProceedKeepsEpochs(s); }
  }

  predicate KeepEpochs(s: State, steps: seq<Step>)
    requires Runs(s, steps)
    decreases |steps|
  {
    steps == [] || (KeepsEpoch(s, steps[0]) && KeepEpochs(Next(s, steps[0]), steps[1..]))
  }

  lemma {:induction false} RunKeepsEpochs(s: State, steps: seq<Step>)
    requires Inv(s) && EpochsInv(s) && Runs(s, steps) && KeepEpochs(s, steps) && NoneLost(steps)
    ensures EpochsInv(Run(s, steps))
    decreases |steps|
  {
    if steps != [] {
      NextKeepsInv(s, steps[0]);
      NextKeepsEpochs(s, steps[0]);
      RunKeepsEpochs(Next(s, steps[0]), steps[1..]);
    }
  }

  /** A durable directory is never lost. */
  lemma {:induction false} DurableStays(s: State, steps: seq<Step>)
    requires s.disk.directory.Durable? && Runs(s, steps)
    ensures NoneLost(steps) && Run(s, steps).disk.directory.Durable?
    decreases |steps|
  {
    if steps != [] {
      DurableStays(Next(s, steps[0]), steps[1..]);
      assert steps == [steps[0]] + steps[1..];
    }
  }

  /**
   Over all runs without the loss of the directory, and commits that do not lower the epoch, epochs
   strictly increase.
   */
  lemma EpochsGrowUnlessDirectoryIsLost(root: Directory, steps: seq<Step>)
    requires Runs(Fresh(root), steps) && KeepEpochs(Fresh(root), steps) && NoneLost(steps)
    ensures StrictlyIncreasing(Run(Fresh(root), steps).epochs)
  {
    RunKeepsEpochs(Fresh(root), steps);
  }

  lemma FirstThen(s: State, step: Step, rest: seq<Step>)
    requires Enabled(s, step) && KeepsEpoch(s, step)
    requires Runs(Next(s, step), rest) && KeepEpochs(Next(s, step), rest)
    ensures Runs(s, [step] + rest) && KeepEpochs(s, [step] + rest)
    ensures Run(s, [step] + rest) == Run(Next(s, step), rest)
  {
    assert ([step] + rest)[1..] == rest;
  }

  /** The next `n` operations on the file system succeed. */
  function Proceeds(n: nat, rest: seq<Step>): (steps: seq<Step>) {
    if n == 0 then rest else [Proceed] + Proceeds(n - 1, rest)
  }

  lemma ProceedThen(s: State, n: nat, rest: seq<Step>)
    requires s.attempt.Some? && Runs(Next(s, Proceed), Proceeds(n, rest)) &&
               KeepEpochs(Next(s, Proceed), Proceeds(n, rest))
    ensures Runs(s, Proceeds(n + 1, rest)) && KeepEpochs(s, Proceeds(n + 1, rest))
    ensures Run(s, Proceeds(n + 1, rest)) == Run(Next(s, Proceed), Proceeds(n, rest))
  {
    FirstThen(s, Proceed, Proceeds(n, rest));
  }

  /** The store just opened on nothing, below a directory that is not durable. */
  predicate OpenedOnNothing(s: State) {
    s.memory == Some(Default()) && s.attempt.None? && s.disk.visible.None? && !s.disk.directory.Durable?
  }

  /** A first advance that succeeds: epoch 1 is returned, and the directory is still not durable. */
  lemma FirstAdvance(s: State, rest: seq<Step>) returns (s': State)
    requires OpenedOnNothing(s)
    ensures s'.epochs == s.epochs + [1] && s'.disk.directory.Unsynced? && s'.attempt.None?
    ensures Runs(s', rest) && KeepEpochs(s', rest) ==>
              var steps := [Advance] + Proceeds(6, rest);
              Runs(s, steps) && KeepEpochs(s, steps) && Run(s, steps) == Run(s', rest)
  {
    DefaultIsValid();
    var next := Default().(authorityEpoch := 1);
    assert Valid(next);
    var s0 := Next(s, Advance);
    var s1 := Next(s0, Proceed);
    var s2 := Next(s1, Proceed);
    var s3 := Next(s2, Proceed);
    var s4 := Next(s3, Proceed);
    var s5 := Next(s4, Proceed);
    s' := Next(s5, Proceed);
    if Runs(s', rest) && KeepEpochs(s', rest) {
      ProceedThen(s5, 0, rest);
      ProceedThen(s4, 1, rest);
      ProceedThen(s3, 2, rest);
      ProceedThen(s2, 3, rest);
      ProceedThen(s1, 4, rest);
      ProceedThen(s0, 5, rest);
      FirstThen(s, Advance, Proceeds(6, rest));
    }
  }

  /**
   Below a directory that is not durable the same epoch can be returned twice: a first advance
   succeeds, a crash takes the new directory with it, and the first advance succeeds again.
   */
  lemma LostDirectoryRepeatsTheEpoch(root: Directory) returns (steps: seq<Step>)
    requires !root.Durable?
    ensures Runs(Fresh(root), steps) && KeepEpochs(Fresh(root), steps)
    ensures Run(Fresh(root), steps).epochs == [1, 1]
  {
    var again := [Open] + ([Advance] + Proceeds(6, []));
    var crash := [Crash(true, None, NoTemp)] + again;
    var s1 := Next(Fresh(root), Open);
    var s2 := FirstAdvance(s1, crash);
    var s3 := Next(s2, Crash(true, None, NoTemp));
    var s4 := Next(s3, Open);
    var s5 := FirstAdvance(s4, []);
    FirstThen(s3, Open, [Advance] + Proceeds(6, []));
    FirstThen(s2, Crash(true, None, NoTemp), again);
    FirstThen(Fresh(root), Open, [Advance] + Proceeds(6, crash));
    steps := [Open] + ([Advance] + Proceeds(6, crash));
  }

  /** Every run that does not lower the epoch by a commit of its own returns ever larger epochs. */
  ghost predicate EpochsAlwaysGrow(root: Directory) {
    forall steps: seq<Step> :: Runs(Fresh(root), steps) && KeepEpochs(Fresh(root), steps) ==>
      StrictlyIncreasing(Run(Fresh(root), steps).epochs)
  }

  /**
   Over all runs of openings, crashes, failed commits and commits that do not lower the epoch, the
   epochs returned strictly increase if and only if the directory was durable to begin with.
   */
  lemma EpochsStrictlyIncreaseIff(root: Directory)
    ensures EpochsAlwaysGrow(root) <==> root.Durable?
  {
    if root.Durable? {
      forall steps: seq<Step> | Runs(Fresh(root), steps) && KeepEpochs(Fresh(root), steps)
        ensures StrictlyIncreasing(Run(Fresh(root), steps).epochs)
      {
        DurableStays(Fresh(root), steps);
        EpochsGrowUnlessDirectoryIsLost(root, steps);
      }
    } else {
      var steps := LostDirectoryRepeatsTheEpoch(root);
      assert !StrictlyIncreasing([1, 1]) by { assert [1, 1][0] == [1, 1][1]; }
    }
  }

  // ─── the store itself ──────────────────────────────────────────────────────

  class NamespaceStore {
    var disk: Disk
    var snapshot: Snapshot

    /** What the store holds was valid when it was taken in, and so is all that can be read from disk. */
    ghost predicate IsOpen()
      reads this
    {
      && Valid(snapshot) && Readable(disk)
    }

    /** Opens what is on disk; a missing file is the default snapshot. */
    constructor Open(disk: Disk)
      requires Opened(disk).Some? && Readable(disk)
      ensures IsOpen() && this.disk == disk && Opened(disk) == Some(snapshot)
    {
      DefaultIsValid();
      this.disk := disk;
      snapshot := Opened(disk).value;
    }

    /** The first `succeed` operations on the file system succeed; the next one fails and ends the attempt. */
    method Persist(next: Snapshot, succeed: nat, left: Temp) returns (error: Option<Error>)
      requires IsOpen() && Valid(next)
      modifies this`disk
      ensures IsOpen() && OldOrNew(disk, old(disk), next)
      ensures error == if succeed < 6 then Some(Io) else None
      ensures disk == if succeed < 6 then DiskAfter(old(disk), next, succeed).(temp := left)
                      else DiskAfter(old(disk), next, 6)
      ensures error.None? ==>
                disk.visible == Some(Whole(next)) && disk.survivors == {disk.visible} && !disk.directory.Missing?
    {
      error := Some(Io);
      if succeed > 0 {
        disk := MakeDirectory(disk);
        assert disk == DiskAfter(old(disk), next, 1);
        if succeed > 1 {
          disk := Create(disk);
          assert disk == DiskAfter(old(disk), next, 2);
          if succeed > 2 {
            disk := Write(disk, next);
            assert disk == DiskAfter(old(disk), next, 3);
            if succeed > 3 {
              disk := SyncFile(disk);
              assert disk == DiskAfter(old(disk), next, 4);
              if succeed > 4 {
                disk := Rename(disk);
                assert disk == DiskAfter(old(disk), next, 5);
                if succeed > 5 {
                  disk := SyncDirectory(disk);
                  assert disk == DiskAfter(old(disk), next, 6);
                  error := None;
                }
              }
            }
          }
        }
      }
      if error.Some? { disk := disk.(temp := left); }
    }

    /**
     A well-formed snapshot is committed if and only if no operation fails. A success is durable if and only if
     the directory was durable before, or the default snapshot was committed; a failure changes nothing in
     memory, and at most completes the replacement on disk.
     */
    method Commit(next: Snapshot, succeed: nat, left: Temp) returns (error: Option<Error>)
      requires IsOpen()
      modifies this
      ensures IsOpen() && OldOrNew(disk, old(disk), next)
      ensures error == if next.schemaVersion != SCHEMA_VERSION then Some(UnsupportedSchema)
                       else if !WellFormed(next) then Some(Corrupt)
                       else if succeed < 6 then Some(Io) else None
      ensures error.None? ==>
                && snapshot == next && Opened(disk) == Some(next)
                && (OnlyReads(disk, next) <==> old(disk).directory.Durable? || next == Default())
      ensures error.Some? ==> snapshot == old(snapshot)
      ensures !WellFormed(next) ==> disk == old(disk)
    {
      ValidIff(next);
      error := Validate(next);
      if error.Some? { return; }
      error := Persist(next, succeed, left);
      if error.Some? { return; }
      SyncedReadsIff(disk, next);
      snapshot := next;
    }

    /** Returns the next epoch if there is one and no operation fails. */
    method AdvanceAuthorityEpoch(succeed: nat, left: Temp) returns (r: Option<U64>)
      requires IsOpen()
      modifies this
      ensures IsOpen()
      ensures r == if old(snapshot).authorityEpoch < U64_MAX && succeed >= 6
                   then Some(old(snapshot).authorityEpoch + 1) else None
      ensures r.Some? ==>
                && snapshot == old(snapshot).(authorityEpoch := r.value) && Opened(disk) == Some(snapshot)
                && (OnlyReads(disk, snapshot) <==> old(disk).directory.Durable?)
      ensures r.None? ==> snapshot == old(snapshot)
    {
      if snapshot.authorityEpoch == U64_MAX { return None; }
      var next := snapshot.(authorityEpoch := snapshot.authorityEpoch + 1);
      assert Valid(next);
      ValidIff(next);
      var error := Commit(next, succeed, left);
      if error.Some? { return None; }
      return Some(snapshot.authorityEpoch);
    }
  }
}
