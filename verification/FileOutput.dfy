/**
 The recoverable multi-file commit of core/file_output.cpp: TransactionGroup stages every output next to
 its destination and publishes them together, with backups and a reverse-order rollback.

 The filesystem is a map from paths to contents. Every inspection, reservation, move and removal may fail;
 `faults` says which of the coming ones do, and a failing one leaves the map as it was.
 */
module FileOutput {

  import opened Options

  /** Callers name plain paths; reserved siblings carry a process-wide sequence number. */
  datatype Path = Plain(id: nat) | Sibling(of: nat, sequence: nat)

  datatype Content = Content(bytes: seq<nat>)

  type Files = map<Path, Content>

  datatype PublishMode = CreateNew | ReplaceExisting

  datatype Destination = Destination(id: nat, mode: PublishMode)

  datatype Entry = Entry(
    destination: Destination,
    temporary: Option<Path>,
    backup: Option<Path>,
    backupActive: bool,
    stagedPublished: bool)

  /** What a crash right after a filesystem step would leave behind. */
  datatype Snapshot = Snapshot(files: Files, entries: seq<Entry>)

  /** `journal` is history: one snapshot after every step that changed the filesystem. */
  datatype State = State(
    files: Files,
    entries: seq<Entry>,
    published: bool,
    sequence: nat,
    faults: seq<bool>,
    journal: seq<Snapshot>)

  const RESERVE_ATTEMPTS: nat := 100

  const EMPTY := Content([])

  function Target(e: Entry): Path {
    Plain(e.destination.id)
  }

  // ----- filesystem primitives -----

  predicate Faulty(s: State) {
    s.faults != [] && s.faults[0]
  }

  function Spent(s: State): State {
    s.(faults := if s.faults == [] then [] else s.faults[1..])
  }

  function Recorded(s: State, files: Files): State {
    s.(files := files, journal := s.journal + [Snapshot(files, s.entries)])
  }

  /** movePath: without `replace` an existing destination is refused. */
  function Move(s: State, from: Path, to: Path, replace: bool): (State, bool) {
    if from !in s.files || (!replace && to in s.files) || Faulty(s) then (Spent(s), false)
    else (Recorded(Spent(s), (s.files - {from})[to := s.files[from]]), true)
  }

  /** std::filesystem::remove: removing what is not there is no error. */
  function Remove(s: State, path: Path): (State, bool) {
    if Faulty(s) then (Spent(s), false) else (Recorded(Spent(s), s.files - {path}), true)
  }

  /** reserveTemporarySibling: creates an empty file under a name nothing has yet. */
  function Reserve(s: State, of: nat, attempts: nat): (State, Option<Path>)
    decreases attempts
  {
    if attempts == 0 then (s, None)
    else
      var candidate := Sibling(of, s.sequence);
      var next := s.(sequence := s.sequence + 1);
      if candidate in s.files then Reserve(next, of, attempts - 1)
      else if Faulty(s) then (Spent(next), None)
      else (Recorded(Spent(next), s.files[candidate := EMPTY]), Some(candidate))
  }

  function WithEntry(s: State, i: nat, e: Entry): State
    requires i < |s.entries|
  {
    s.(entries := s.entries[i := e])
  }

  // ----- rollback -----

  /** One member: remove what was published, then put the backup back. */
  function RollbackEntry(s: State, i: nat): (State, bool)
    requires i < |s.entries|
  {
    var (removed, gone) := RollbackRemove(s, i);
    var (moved, back) := RollbackMove(removed, i);
    (moved, gone && back)
  }

  function RollbackRemove(s: State, i: nat): (r: (State, bool))
    requires i < |s.entries|
    ensures |r.0.entries| == |s.entries|
  {
    var e := s.entries[i];
    if !e.stagedPublished then (s, true)
    else
      var (t, ok) := Remove(s, Target(e));
      if ok then (WithEntry(t, i, e.(stagedPublished := false)), true) else (t, false)
  }

  function RollbackMove(s: State, i: nat): (r: (State, bool))
    requires i < |s.entries|
    ensures |r.0.entries| == |s.entries|
  {
    var e := s.entries[i];
    if !e.backupActive then (s, true)
    else if e.backup.None? then (s, false)
    else
      var (t, ok) := Move(s, e.backup.value, Target(e), true);
      if ok then (WithEntry(t, i, e.(stagedPublished := false, backupActive := false, backup := None)), true)
      else (t, false)
  }

  /** Members i - 1 down to 0. */
  function RollbackFrom(s: State, i: nat, restored: bool): (State, bool)
    requires i <= |s.entries|
    decreases i
  {
    if i == 0 then (s, restored)
    else
      var (t, ok) := RollbackEntry(s, i - 1);
      RollbackFrom(t, i - 1, restored && ok)
  }

  function Rollback(s: State): (State, bool) {
    RollbackFrom(s, |s.entries|, true)
  }

  // ----- publish -----

  datatype Stage = Inspecting | Reserving | Preparing | Publishing

  /** The source reports `restored` only for the publishing stage; the other stages roll back silently. */
  datatype Outcome = Published | NotPublishable | Failed(stage: Stage, restored: bool)

  datatype Progress = Done | Stopped(stage: Stage)

  /** Moves each existing destination of a replacing member to a reserved backup. */
  function BackUpFrom(s: State, i: nat): (State, Progress)
    requires i <= |s.entries|
    decreases |s.entries| - i
  {
    if i == |s.entries| then (s, Done)
    else
      var (t, progress) := BackUpEntry(s, i);
      if progress.Done? then BackUpFrom(t, i + 1) else (t, progress)
  }

  function BackUpEntry(s: State, i: nat): (r: (State, Progress))
    requires i < |s.entries|
    ensures |r.0.entries| == |s.entries|
  {
    var e := s.entries[i];
    if e.destination.mode.CreateNew? then (s, Done)
    else if Faulty(s) then (Spent(s), Stopped(Inspecting))
    else if Target(e) !in s.files then (Spent(s), Done)
    else
      var (reserved, backup) := Reserve(Spent(s), e.destination.id, RESERVE_ATTEMPTS);
      ReserveKeepsEntries(Spent(s), e.destination.id, RESERVE_ATTEMPTS);
      var named := WithEntry(reserved, i, e.(backup := backup));
      if backup.None? then (named, Stopped(Reserving))
      else
        var (moved, ok) := Move(named, Target(e), backup.value, true);
        if ok then (WithEntry(moved, i, e.(backup := backup, backupActive := true)), Done)
        else
          var (cleared, _) := Remove(moved, backup.value);
          (WithEntry(cleared, i, e.(backup := None)), Stopped(Preparing))
  }

  lemma {:induction false} ReserveKeepsEntries(s: State, of: nat, attempts: nat)
    ensures Reserve(s, of, attempts).0.entries == s.entries
    ensures Reserve(s, of, attempts).0.published == s.published
    ensures Reserve(s, of, attempts).0.sequence >= s.sequence
    ensures s.journal <= Reserve(s, of, attempts).0.journal
    decreases attempts
  {
    if attempts > 0 && Sibling(of, s.sequence) in s.files {
      ReserveKeepsEntries(s.(sequence := s.sequence + 1), of, attempts - 1);
    }
  }

  /** Moves each staged file to its destination, which must be free by now. */
  function StageFrom(s: State, i: nat): (State, Progress)
    requires i <= |s.entries|
    decreases |s.entries| - i
  {
    if i == |s.entries| then (s, Done)
    else
      var (t, ok) := StageEntry(s, i);
      if ok then StageFrom(t, i + 1) else (t, Stopped(Publishing))
  }

  function StageEntry(s: State, i: nat): (r: (State, bool))
    requires i < |s.entries|
    ensures |r.0.entries| == |s.entries|
  {
    var e := s.entries[i];
    if e.temporary.None? then (s, false)
    else
      var (t, ok) := Move(s, e.temporary.value, Target(e), false);
      if ok then (WithEntry(t, i, e.(temporary := None, stagedPublished := true)), true) else (t, false)
  }

  /** Deletes the backups; a backup that cannot be deleted is left behind. */
  function CleanFrom(s: State, i: nat): State
    requires i <= |s.entries|
    decreases |s.entries| - i
  {
    if i == |s.entries| then s else CleanFrom(CleanEntry(s, i), i + 1)
  }

  function CleanEntry(s: State, i: nat): (r: State)
    requires i < |s.entries|
    ensures |r.entries| == |s.entries|
  {
    var e := s.entries[i];
    if e.backupActive && e.backup.Some? then
      WithEntry(Remove(s, e.backup.value).0, i, e.(backup := None, backupActive := false, stagedPublished := false))
    else WithEntry(s, i, e.(stagedPublished := false))
  }

  function Publish(s: State): (State, Outcome) {
    if s.published || s.entries == [] then (s, NotPublishable)
    else
      var (backedUp, prepared) := BackUpFrom(s, 0);
      if prepared.Stopped? then
        var (t, restored) := Rollback(backedUp);
        (t, Failed(prepared.stage, restored))
      else
        var (staged, done) := StageFrom(backedUp, 0);
        if done.Stopped? then
          var (t, restored) := Rollback(staged);
          (t, Failed(done.stage, restored))
        else (CleanFrom(staged, 0).(published := true), Published)
  }

  // ----- discard -----

  function DiscardEntry(s: State, i: nat): (r: State)
    requires i < |s.entries|
    ensures |r.entries| == |s.entries|
  {
    var e := s.entries[i];
    var t := if e.temporary.Some? then WithEntry(Remove(s, e.temporary.value).0, i, e.(temporary := None)) else s;
    var f := t.entries[i];
    if !f.backupActive && f.backup.Some? then WithEntry(Remove(t, f.backup.value).0, i, f.(backup := None)) else t
  }

  function DiscardFrom(s: State, i: nat): State
    requires i <= |s.entries|
    decreases |s.entries| - i
  {
    if i == |s.entries| then s else DiscardFrom(DiscardEntry(s, i), i + 1)
  }

  function Discard(s: State): State {
    if s.published then s
    else DiscardFrom(Rollback(s).0, 0).(entries := [])
  }

  // ----- what is kept -----

  /** A name this member may create, move or delete. */
  predicate Owns(e: Entry, path: Path) {
    e.temporary == Some(path) || e.backup == Some(path)
  }

  ghost predicate NamesOk(entries: seq<Entry>, sequence: nat) {
    && (forall i, path {:trigger Owns(entries[i], path)} | 0 <= i < |entries| && Owns(entries[i], path) ::
          path.Sibling? && path.sequence < sequence)
    && (forall i, j, path {:trigger Owns(entries[i], path), Owns(entries[j], path)}
          | 0 <= i < |entries| && 0 <= j < |entries| && i != j && Owns(entries[i], path) :: !Owns(entries[j], path))
    && (forall i | 0 <= i < |entries| && entries[i].temporary.Some? :: entries[i].temporary != entries[i].backup)
  }

  ghost predicate TargetsDistinct(entries: seq<Entry>) {
    forall i, j | 0 <= i < j < |entries| :: entries[i].destination.id != entries[j].destination.id
  }

  /** Both maps agree about one path. */
  ghost predicate SameAt(a: Files, b: Files, path: Path) {
    (path in a <==> path in b) && (path in a ==> a[path] == b[path])
  }

  /** Where the previous content of one destination is, as far as its flags say. */
  ghost predicate EntryOk(files: Files, e: Entry, before: Files) {
    var target := Target(e);
    && (e.stagedPublished ==> e.temporary.None?)
    && (e.backupActive ==>
          && target in before && e.backup.Some?
          && e.backup.value in files && files[e.backup.value] == before[target]
          && (!e.stagedPublished ==> target !in files))
    && (!e.backupActive && target in before ==>
        !e.stagedPublished && target in files && files[target] == before[target])
    && (!e.stagedPublished && target !in before ==> target !in files)
  }

  ghost predicate GroupOk(s: State, before: Files) {
    && NamesOk(s.entries, s.sequence)
    && TargetsDistinct(s.entries)
    && forall i | 0 <= i < |s.entries| :: EntryOk(s.files, s.entries[i], before)
  }

  /** A crash now loses no previous content: it is at its destination or at the backup on record. */
  ghost predicate Recoverable(snapshot: Snapshot, before: Files) {
    forall i | 0 <= i < |snapshot.entries| && Target(snapshot.entries[i]) in before ::
      PreviousKept(snapshot.files, snapshot.entries[i], before)
  }

  ghost predicate PreviousKept(files: Files, e: Entry, before: Files)
    requires Target(e) in before
  {
    || (Target(e) in files && files[Target(e)] == before[Target(e)])
    || (e.backup.Some? && e.backup.value in files && files[e.backup.value] == before[Target(e)])
  }

  /** Neither a destination nor a name of the group when `origin` was current. */
  ghost predicate Alien(origin: State, path: Path) {
    && (forall i | 0 <= i < |origin.entries| :: path != Target(origin.entries[i]) && !Owns(origin.entries[i], path))
    && (path.Sibling? ==> path in origin.files)
  }

  ghost predicate SameTargets(a: seq<Entry>, b: seq<Entry>) {
    |a| == |b| && forall i | 0 <= i < |a| :: a[i].destination == b[i].destination
  }

  ghost predicate AliensKept(origin: State, s: State) {
    && SameTargets(origin.entries, s.entries)
    && (forall path | Alien(origin, path) :: SameAt(origin.files, s.files, path))
    && (forall i, path | 0 <= i < |s.entries| && Owns(s.entries[i], path) :: !Alien(origin, path))
  }

  ghost predicate JournalSafe(origin: State, s: State, before: Files) {
    && origin.journal <= s.journal
    && forall k | |origin.journal| <= k < |s.journal| :: Recoverable(s.journal[k], before)
  }

  /** Everything the recoverable part of a commit keeps from `origin` on. */
  ghost predicate Sound(origin: State, s: State, before: Files) {
    GroupOk(s, before) && AliensKept(origin, s) && JournalSafe(origin, s, before) && s.published == origin.published
  }

  lemma SoundFromHere(s: State, before: Files)
    requires GroupOk(s, before)
    ensures Sound(s, s, before)
  {
  }

  // ----- frames -----

  lemma EntryKeepsPrevious(files: Files, e: Entry, before: Files)
    requires EntryOk(files, e, before) && Target(e) in before
    ensures PreviousKept(files, e, before)
  {
  }

  /** What one member does to the filesystem: only its own target and names, or a name no member has. */
  ghost predicate TouchesOnly(a: Files, b: Files, s: State, i: nat)
    requires i < |s.entries|
  {
    forall j | 0 <= j < |s.entries| && j != i ::
      SameAt(a, b, Target(s.entries[j])) && (s.entries[j].backup.Some? ==> SameAt(a, b, s.entries[j].backup.value))
  }

  /** Replacing one member by one that owns no more keeps the names apart. */
  lemma NamesShrink(entries: seq<Entry>, sequence: nat, i: nat, e: Entry)
    requires NamesOk(entries, sequence) && i < |entries|
    requires forall path | Owns(e, path) :: Owns(entries[i], path)
    requires e.temporary.Some? ==> e.temporary == entries[i].temporary
    requires e.backup.Some? ==> e.backup == entries[i].backup
    ensures NamesOk(entries[i := e], sequence)
  {
  }

  /** Outside the target of member i and the names it has in `a` or `b`, nothing differs. */
  ghost predicate LocalTo(a: State, b: State, i: nat)
    requires i < |a.entries| && i < |b.entries|
  {
    forall path {:trigger SameAt(a.files, b.files, path)}
      | path != Target(a.entries[i]) && !Owns(a.entries[i], path) && !Owns(b.entries[i], path) ::
      SameAt(a.files, b.files, path)
  }

  ghost predicate OnlyMember(a: State, b: State, i: nat) {
    i < |a.entries| == |b.entries| && b.entries == a.entries[i := b.entries[i]]
    && b.entries[i].destination == a.entries[i].destination && b.published == a.published
  }

  lemma LocalTouches(a: State, b: State, i: nat)
    requires OnlyMember(a, b, i) && TargetsDistinct(a.entries)
    requires NamesOk(a.entries, a.sequence) && NamesOk(b.entries, b.sequence) && LocalTo(a, b, i)
    ensures TouchesOnly(a.files, b.files, a, i)
  {
    forall j | 0 <= j < |a.entries| && j != i
      ensures SameAt(a.files, b.files, Target(a.entries[j]))
      ensures a.entries[j].backup.Some? ==> SameAt(a.files, b.files, a.entries[j].backup.value)
    {
      if a.entries[j].backup.Some? {
        var name := a.entries[j].backup.value;
        assert Owns(a.entries[j], name) && Owns(b.entries[j], name);
      }
    }
  }

  /** One member's work, done safely, keeps the whole commit sound. */
  lemma SoundStep(origin: State, s: State, t: State, i: nat, before: Files)
    requires Sound(origin, s, before) && OnlyMember(s, t, i)
    requires NamesOk(t.entries, t.sequence) && LocalTo(s, t, i)
    requires EntryOk(t.files, t.entries[i], before)
    requires JournalSafe(s, t, before)
    requires forall path | Owns(t.entries[i], path) :: !Alien(origin, path)
    ensures Sound(origin, t, before)
  {
    LocalTouches(s, t, i);
    forall path | Alien(origin, path)
      ensures SameAt(origin.files, t.files, path)
    {
      assert path != Target(s.entries[i]) by {
        assert path != Target(origin.entries[i]);
      }
      assert !Owns(s.entries[i], path) && !Owns(t.entries[i], path);
      assert SameAt(s.files, t.files, path);
      assert SameAt(origin.files, s.files, path);
    }
  }

  lemma OneSnapshot(s: State, t: State, before: Files)
    requires |t.journal| == |s.journal| + 1 && s.journal <= t.journal && Recoverable(t.journal[|s.journal|], before)
    ensures JournalSafe(s, t, before)
  {
  }

  // ----- rollback -----

  lemma SpentSound(origin: State, s: State, before: Files)
    requires Sound(origin, s, before)
    ensures Sound(origin, Spent(s), before)
  {
  }

  lemma RollbackRemoveOk(origin: State, s: State, i: nat, before: Files)
    requires Sound(origin, s, before) && i < |s.entries|
    ensures Sound(origin, RollbackRemove(s, i).0, before)
    ensures OnlyMember(s, RollbackRemove(s, i).0, i)
    ensures RollbackRemove(s, i).1 ==> !RollbackRemove(s, i).0.entries[i].stagedPublished
  {
    var t := RollbackRemove(s, i).0;
    var e := s.entries[i];
    if e.stagedPublished && !Faulty(s) {
      var f := e.(stagedPublished := false);
      NamesShrink(s.entries, s.sequence, i, f);
      assert t.entries == s.entries[i := f];
      assert EntryOk(t.files, f, before) by {
        BackupIsNoTarget(s, i, Target(e));
      }
      LocalTouches(s, t, i);
      if Target(e) in before {
        BackupIsNoTarget(s, i, Target(e));
      }
      OneSnapshot(s, t, before);
      SoundStep(origin, s, t, i, before);
    } else if e.stagedPublished {
      SpentSound(origin, s, before);
    }
  }

  lemma BackupIsNoTarget(s: State, i: nat, target: Path)
    requires NamesOk(s.entries, s.sequence) && i < |s.entries| && target.Plain?
    ensures s.entries[i].backup != Some(target) && s.entries[i].temporary != Some(target)
  {
    assert !Owns(s.entries[i], target);
  }

  lemma RollbackMoveOk(origin: State, s: State, i: nat, before: Files)
    requires Sound(origin, s, before) && i < |s.entries|
    ensures Sound(origin, RollbackMove(s, i).0, before)
    ensures OnlyMember(s, RollbackMove(s, i).0, i)
    ensures RollbackMove(s, i).1 ==>
              !RollbackMove(s, i).0.entries[i].backupActive
              && RollbackMove(s, i).0.entries[i].stagedPublished ==
                 (s.entries[i].stagedPublished && !s.entries[i].backupActive)
  {
    var (t, ok) := RollbackMove(s, i);
    var e := s.entries[i];
    if e.backupActive {
      if ok {
        var f := e.(stagedPublished := false, backupActive := false, backup := None);
        BackupIsNoTarget(s, i, Target(e));
        NamesShrink(s.entries, s.sequence, i, f);
        assert t.entries == s.entries[i := f];
        LocalTouches(s, t, i);
        OneSnapshot(s, t, before);
        SoundStep(origin, s, t, i, before);
      } else {
        SpentSound(origin, s, before);
      }
    }
  }

  /** Nothing of this member is published and no backup of it is outstanding. */
  predicate Settled(e: Entry) {
    !e.stagedPublished && !e.backupActive
  }

  lemma RollbackEntryOk(origin: State, s: State, i: nat, before: Files)
    requires Sound(origin, s, before) && i < |s.entries|
    ensures var (t, ok) := RollbackEntry(s, i);
            Sound(origin, t, before) && OnlyMember(s, t, i) && (ok ==> Settled(t.entries[i]))
  {
    RollbackRemoveOk(origin, s, i, before);
    RollbackMoveOk(origin, RollbackRemove(s, i).0, i, before);
  }

  /** A backup is put back even over a published file that could not be removed, if only the move goes through. */
  lemma BackupIsPutBack(s: State, i: nat, before: Files)
    requires i < |s.entries| && NamesOk(s.entries, s.sequence) && EntryOk(s.files, s.entries[i], before)
    requires s.entries[i].backupActive && !Faulty(if s.entries[i].stagedPublished then Spent(s) else s)
    ensures var t, e := RollbackEntry(s, i).0, s.entries[i];
            && Target(e) in before && Target(e) in t.files && t.files[Target(e)] == before[Target(e)]
            && Settled(t.entries[i]) && t.entries[i].backup.None? && e.backup.value !in t.files
  {
    BackupIsNoTarget(s, i, Target(s.entries[i]));
  }

  lemma {:induction false} RollbackFromOk(origin: State, s: State, i: nat, restored: bool, before: Files)
    requires Sound(origin, s, before) && i <= |s.entries|
    requires restored ==> forall k | i <= k < |s.entries| :: Settled(s.entries[k])
    ensures var (t, ok) := RollbackFrom(s, i, restored);
            && Sound(origin, t, before)
            && |t.entries| == |s.entries|
            && (ok ==> forall k | 0 <= k < |t.entries| :: Settled(t.entries[k]))
    decreases i
  {
    hide Sound, RollbackEntry;
    if i > 0 {
      var (t, ok) := RollbackEntry(s, i - 1);
      RollbackEntryOk(origin, s, i - 1, before);
      RollbackFromOk(origin, t, i - 1, restored && ok, before);
    }
  }

  /** Every destination is as it was in `before`: same content, or absent. */
  ghost predicate AsBefore(s: State, before: Files) {
    forall i | 0 <= i < |s.entries| :: SameAt(before, s.files, Target(s.entries[i]))
  }

  lemma SettledIsAsBefore(s: State, before: Files)
    requires GroupOk(s, before) && forall k | 0 <= k < |s.entries| :: Settled(s.entries[k])
    ensures AsBefore(s, before)
  {
    forall i | 0 <= i < |s.entries|
      ensures SameAt(before, s.files, Target(s.entries[i]))
    {
      assert EntryOk(s.files, s.entries[i], before);
    }
  }

  /**
   From any point of a commit, for any pattern of failures: no step of a rollback loses a previous content,
   and a rollback that reports success leaves every destination as it was.
   */
  lemma RollbackIsSafe(s: State, before: Files)
    requires GroupOk(s, before)
    ensures Sound(s, Rollback(s).0, before)
    ensures Rollback(s).1 ==> AsBefore(Rollback(s).0, before)
  {
    SoundFromHere(s, before);
    RollbackFromOk(s, s, |s.entries|, true, before);
    if Rollback(s).1 {
      SettledIsAsBefore(Rollback(s).0, before);
    }
  }

  // ----- backing up -----

  /** A replacing member that an earlier rollback could not take back, and whose published file is still there. */
  predicate LeftInPlace(s: State, i: nat)
    requires i < |s.entries|
  {
    var e := s.entries[i];
    e.destination.mode.ReplaceExisting? && e.stagedPublished && Target(e) in s.files
  }

  ghost predicate NothingLeftInPlace(s: State) {
    forall i | 0 <= i < |s.entries| :: !LeftInPlace(s, i)
  }

  lemma {:induction false} ReserveIsFresh(s: State, of: nat, attempts: nat)
    ensures var (t, name) := Reserve(s, of, attempts);
            && t.entries == s.entries && t.sequence >= s.sequence && t.published == s.published
            && (name.None? ==> t.files == s.files && t.journal == s.journal)
            && (name.Some? ==>
                  && name.value.Sibling? && s.sequence <= name.value.sequence < t.sequence
                  && name.value !in s.files && t.files == s.files[name.value := EMPTY]
                  && t.journal == s.journal + [Snapshot(t.files, s.entries)])
    decreases attempts
  {
    if attempts > 0 && Sibling(of, s.sequence) in s.files {
      ReserveIsFresh(s.(sequence := s.sequence + 1), of, attempts - 1);
    }
  }

  /** With nothing failing, the first free name is taken, if there is one among so many. */
  lemma {:induction false} ReserveTakesFirst(s: State, of: nat, attempts: nat)
    requires s.faults == []
    ensures var name := Reserve(s, of, attempts).1;
            && (name.None? <==> forall n | s.sequence <= n < s.sequence + attempts :: Sibling(of, n) in s.files)
            && (name.Some? ==>
                  name.value.Sibling? && name.value.of == of
                  && forall n | s.sequence <= n < name.value.sequence :: Sibling(of, n) in s.files)
    decreases attempts
  {
    if attempts > 0 && Sibling(of, s.sequence) in s.files {
      ReserveTakesFirst(s.(sequence := s.sequence + 1), of, attempts - 1);
    }
  }

  /** A reservation gives up exactly when one hundred names in a row are taken. */
  lemma OneHundredNames(s: State, of: nat)
    requires s.faults == []
    ensures Reserve(s, of, RESERVE_ATTEMPTS).1.None? <==>
              forall n | s.sequence <= n < s.sequence + 100 :: Sibling(of, n) in s.files
  {
    ReserveTakesFirst(s, of, RESERVE_ATTEMPTS);
  }

  lemma NamesGrow(entries: seq<Entry>, sequence: nat, later: nat, i: nat, name: Path, active: bool)
    requires NamesOk(entries, sequence) && i < |entries| && sequence <= later
    requires name.Sibling? && sequence <= name.sequence < later
    ensures NamesOk(entries[i := entries[i].(backup := Some(name), backupActive := active)], later)
  {
    var after := entries[i := entries[i].(backup := Some(name), backupActive := active)];
    forall j, path | 0 <= j < |after| && Owns(after[j], path)
      ensures (path == name && j == i) || Owns(entries[j], path)
    {
    }
    assert forall j | 0 <= j < |entries| :: !Owns(entries[j], name);
  }

  lemma ReservedSound(origin: State, s: State, t: State, i: nat, name: Path, before: Files)
    requires Sound(origin, s, before) && i < |s.entries|
    requires name.Sibling? && s.sequence <= name.sequence < t.sequence && name !in s.files
    requires t.published == s.published
    requires t.files == s.files[name := EMPTY] && t.journal == s.journal + [Snapshot(t.files, s.entries)]
    requires !s.entries[i].backupActive && t.entries == s.entries[i := s.entries[i].(backup := Some(name))]
    ensures Sound(origin, t, before)
  {
    NamesGrow(s.entries, s.sequence, t.sequence, i, name, false);
    LocalTouches(s, t, i);
    if Target(s.entries[i]) in before {
      EntryKeepsPrevious(s.files, s.entries[i], before);
    }
    OneSnapshot(s, t, before);
    SoundStep(origin, s, t, i, before);
  }

  lemma BackedUpSound(origin: State, s: State, t: State, i: nat, before: Files)
    requires Sound(origin, s, before) && i < |s.entries|
    requires var e := s.entries[i];
             && !e.backupActive && !e.stagedPublished && e.backup.Some?
             && Target(e) in s.files && Target(e) in before
             && t.files == (s.files - {Target(e)})[e.backup.value := s.files[Target(e)]]
             && t.journal == s.journal + [Snapshot(t.files, s.entries)]
             && t.sequence == s.sequence && t.published == s.published
             && t.entries == s.entries[i := e.(backupActive := true)]
    ensures Sound(origin, t, before)
  {
    var e := s.entries[i];
    BackupIsNoTarget(s, i, Target(e));
    NamesShrink(s.entries, s.sequence, i, e.(backupActive := true));
    LocalTouches(s, t, i);
    OneSnapshot(s, t, before);
    SoundStep(origin, s, t, i, before);
  }

  lemma ClearedSound(origin: State, s: State, t: State, i: nat, before: Files)
    requires Sound(origin, s, before) && i < |s.entries|
    requires var e := s.entries[i];
             && !e.backupActive && e.backup.Some?
             && t.entries == s.entries[i := e.(backup := None)] && t.sequence == s.sequence &&
                t.published == s.published
             && ((t.files == s.files && t.journal == s.journal)
                 || (t.files == s.files - {e.backup.value} && t.journal == s.journal + [Snapshot(t.files, s.entries)]))
    ensures Sound(origin, t, before)
  {
    var e := s.entries[i];
    BackupIsNoTarget(s, i, Target(e));
    NamesShrink(s.entries, s.sequence, i, e.(backup := None));
    LocalTouches(s, t, i);
    if Target(e) in before {
      EntryKeepsPrevious(s.files, e, before);
    }
    if t.journal != s.journal {
      OneSnapshot(s, t, before);
    }
    SoundStep(origin, s, t, i, before);
  }

  lemma UnreservedSound(origin: State, s: State, t: State, i: nat, before: Files)
    requires Sound(origin, s, before) && i < |s.entries| && !s.entries[i].backupActive
    requires t.files == s.files && t.journal == s.journal && t.sequence >= s.sequence && t.published == s.published
    requires t.entries == s.entries[i := s.entries[i].(backup := None)]
    ensures Sound(origin, t, before)
  {
    NamesShrink(s.entries, s.sequence, i, t.entries[i]);
    SoundStep(origin, s, t, i, before);
  }

  lemma SoundEntry(origin: State, s: State, i: nat, before: Files)
    requires Sound(origin, s, before) && i < |s.entries|
    ensures EntryOk(s.files, s.entries[i], before)
    ensures s.entries[i].temporary.Some? ==> s.entries[i].temporary != s.entries[i].backup
  {
  }

  /** A member's work at its own target leaves the targets of the others alone. */
  lemma StillNothingLeft(s: State, t: State, i: nat)
    requires NothingLeftInPlace(s) && OnlyMember(s, t, i) && TargetsDistinct(s.entries)
    requires forall id | Plain(id) != Target(s.entries[i]) :: SameAt(s.files, t.files, Plain(id))
    requires t.entries[i].stagedPublished == s.entries[i].stagedPublished
    requires s.entries[i].stagedPublished ==> SameAt(s.files, t.files, Target(s.entries[i]))
    ensures NothingLeftInPlace(t)
  {
    forall j | 0 <= j < |t.entries| ensures !LeftInPlace(t, j) {
      assert !LeftInPlace(s, j);
    }
  }

  lemma MoveFrame(s: State, from: Path, to: Path)
    ensures var t := Move(s, from, to, true).0;
            && t.entries == s.entries && t.published == s.published && t.sequence == s.sequence
            && (forall path | path != from && path != to :: SameAt(s.files, t.files, path))
  {
  }

  lemma RemoveFrame(s: State, path: Path)
    ensures var t := Remove(s, path).0;
            && t.entries == s.entries && t.published == s.published && t.sequence == s.sequence
            && (forall other | other != path :: SameAt(s.files, t.files, other))
  {
  }

  lemma BackUpEntryFrame(s: State, i: nat)
    requires i < |s.entries|
    ensures var t := BackUpEntry(s, i).0;
            && OnlyMember(s, t, i) && t.sequence >= s.sequence
            && t.entries[i].stagedPublished == s.entries[i].stagedPublished
            && t.entries[i].temporary == s.entries[i].temporary
            && (forall id | Plain(id) != Target(s.entries[i]) :: SameAt(s.files, t.files, Plain(id)))
            && (!(s.entries[i].destination.mode.ReplaceExisting? && Target(s.entries[i]) in s.files) ==>
                  t.files == s.files && t.entries == s.entries)
  {
    hide Reserve, Move, Remove, Faulty;
    var e := s.entries[i];
    if e.destination.mode.ReplaceExisting? && !Faulty(s) && Target(e) in s.files {
      var (reserved, backup) := Reserve(Spent(s), e.destination.id, RESERVE_ATTEMPTS);
      ReserveIsFresh(Spent(s), e.destination.id, RESERVE_ATTEMPTS);
      if backup.Some? {
        var named := WithEntry(reserved, i, e.(backup := backup));
        var moved := Move(named, Target(e), backup.value, true).0;
        var cleared := Remove(moved, backup.value).0;
        MoveFrame(named, Target(e), backup.value);
        RemoveFrame(moved, backup.value);
        forall id | Plain(id) != Target(e)
          ensures SameAt(s.files, moved.files, Plain(id)) && SameAt(s.files, cleared.files, Plain(id))
        {
          assert SameAt(named.files, moved.files, Plain(id)) && SameAt(moved.files, cleared.files, Plain(id));
        }
      }
    }
  }

  lemma BackUpEntryOk(origin: State, s: State, i: nat, before: Files)
    requires Sound(origin, s, before) && i < |s.entries| && !LeftInPlace(s, i)
    ensures Sound(origin, BackUpEntry(s, i).0, before)
  {
    hide Reserve, Sound, EntryOk, Owns;
    var e := s.entries[i];
    SpentSound(origin, s, before);
    SoundEntry(origin, s, i, before);
    if e.destination.mode.ReplaceExisting? && !Faulty(s) && Target(e) in s.files {
      InPlaceIsIdle(s.files, e, before);
      var (reserved, backup) := Reserve(Spent(s), e.destination.id, RESERVE_ATTEMPTS);
      ReserveIsFresh(Spent(s), e.destination.id, RESERVE_ATTEMPTS);
      var named := WithEntry(reserved, i, e.(backup := backup));
      if backup.None? {
        UnreservedSound(origin, s, named, i, before);
      } else {
        ReservedSound(origin, s, named, i, backup.value, before);
        var (moved, ok) := Move(named, Target(e), backup.value, true);
        if ok {
          BackedUpSound(origin, named, WithEntry(moved, i, e.(backup := backup, backupActive := true)), i, before);
        } else {
          var cleared := WithEntry(Remove(moved, backup.value).0, i, e.(backup := None));
          ClearedSound(origin, named, cleared, i, before);
        }
      }
    }
  }

  /** A member not published whose destination exists has nothing in a backup: that is its previous content. */
  lemma InPlaceIsIdle(files: Files, e: Entry, before: Files)
    requires EntryOk(files, e, before) && !e.stagedPublished && Target(e) in files
    ensures !e.backupActive && Target(e) in before
  {
  }

  ghost predicate SameTemporaries(a: seq<Entry>, b: seq<Entry>) {
    |a| == |b| && forall i | 0 <= i < |a| :: a[i].temporary == b[i].temporary
  }

  lemma {:induction false} BackUpFromOk(origin: State, s: State, i: nat, before: Files)
    requires Sound(origin, s, before) && NothingLeftInPlace(s) && i <= |s.entries|
    ensures Sound(origin, BackUpFrom(s, i).0, before)
    ensures SameTemporaries(s.entries, BackUpFrom(s, i).0.entries)
    decreases |s.entries| - i
  {
    hide Sound, BackUpEntry, NothingLeftInPlace, LeftInPlace;
    if i < |s.entries| {
      var (t, progress) := BackUpEntry(s, i);
      BackUpEntryFrame(s, i);
      BackUpStep(origin, s, i, before);
      if progress.Done? {
        BackUpFromOk(origin, t, i + 1, before);
      }
    }
  }

  lemma BackUpStep(origin: State, s: State, i: nat, before: Files)
    requires Sound(origin, s, before) && NothingLeftInPlace(s) && i < |s.entries|
    ensures Sound(origin, BackUpEntry(s, i).0, before) && NothingLeftInPlace(BackUpEntry(s, i).0)
  {
    hide BackUpEntry;
    BackUpEntryFrame(s, i);
    BackUpEntryOk(origin, s, i, before);
    StillNothingLeft(s, BackUpEntry(s, i).0, i);
  }

  /** Names reserved before `sequence` are left alone. */
  ghost predicate OlderSame(a: Files, b: Files, sequence: nat) {
    forall path: Path | path.Sibling? && path.sequence < sequence :: SameAt(a, b, path)
  }

  lemma BackUpEntryKeepsOlder(s: State, i: nat)
    requires i < |s.entries|
    ensures OlderSame(s.files, BackUpEntry(s, i).0.files, s.sequence)
    ensures BackUpEntry(s, i).0.sequence >= s.sequence
  {
    hide Reserve;
    var e := s.entries[i];
    if e.destination.mode.ReplaceExisting? && !Faulty(s) && Target(e) in s.files {
      var (reserved, backup) := Reserve(Spent(s), e.destination.id, RESERVE_ATTEMPTS);
      ReserveIsFresh(Spent(s), e.destination.id, RESERVE_ATTEMPTS);
      if backup.Some? {
        var named := WithEntry(reserved, i, e.(backup := backup));
        assert OlderSame(s.files, named.files, s.sequence);
        var (moved, ok) := Move(named, Target(e), backup.value, true);
        assert OlderSame(s.files, moved.files, s.sequence);
      }
    }
  }

  lemma {:induction false} BackUpFromKeepsOlder(s: State, i: nat, sequence: nat)
    requires i <= |s.entries| && sequence <= s.sequence
    ensures OlderSame(s.files, BackUpFrom(s, i).0.files, sequence)
    decreases |s.entries| - i
  {
    hide BackUpEntry;
    if i < |s.entries| {
      var (t, progress) := BackUpEntry(s, i);
      BackUpEntryKeepsOlder(s, i);
      if progress.Done? {
        BackUpFromKeepsOlder(t, i + 1, sequence);
      }
    }
  }

  // ----- staging -----

  /** Member i's destination holds what its staging file held in `first`. */
  ghost predicate HoldsStaged(first: State, files: Files, i: nat)
    requires i < |first.entries|
  {
    var e := first.entries[i];
    && e.temporary.Some? && e.temporary.value in first.files
    && Target(e) in files && files[Target(e)] == first.files[e.temporary.value]
  }

  ghost predicate AllPublished(first: State, files: Files) {
    forall i | 0 <= i < |first.entries| :: HoldsStaged(first, files, i)
  }

  ghost predicate StillStaged(first: State, s: State, k: nat)
    requires k < |first.entries| && k < |s.entries|
  {
    && s.entries[k].temporary == first.entries[k].temporary
    && (first.entries[k].temporary.Some? ==> SameAt(first.files, s.files, first.entries[k].temporary.value))
  }

  ghost predicate StagedUpTo(first: State, s: State, i: nat) {
    && SameTargets(first.entries, s.entries) && i <= |s.entries|
    && (forall k | 0 <= k < i :: HoldsStaged(first, s.files, k))
    && (forall k | i <= k < |s.entries| :: StillStaged(first, s, k))
  }

  lemma StagedSound(origin: State, s: State, t: State, i: nat, before: Files)
    requires Sound(origin, s, before) && i < |s.entries|
    requires var e := s.entries[i];
             && !e.stagedPublished && e.temporary.Some? && e.temporary.value in s.files && Target(e) !in s.files
             && t.files == (s.files - {e.temporary.value})[Target(e) := s.files[e.temporary.value]]
             && t.journal == s.journal + [Snapshot(t.files, s.entries)] && t.sequence == s.sequence
             && t.published == s.published
             && t.entries == s.entries[i := e.(temporary := None, stagedPublished := true)]
    ensures Sound(origin, t, before)
  {
    var e := s.entries[i];
    BackupIsNoTarget(s, i, Target(e));
    NamesShrink(s.entries, s.sequence, i, t.entries[i]);
    assert EntryOk(s.files, e, before);
    LocalTouches(s, t, i);
    OneSnapshot(s, t, before);
    SoundStep(origin, s, t, i, before);
  }

  lemma StagedAdvances(first: State, s: State, t: State, i: nat)
    requires NamesOk(s.entries, s.sequence) && TargetsDistinct(s.entries) && i < |s.entries|
    requires StagedUpTo(first, s, i)
    requires var e := s.entries[i];
             && e.temporary.Some? && e.temporary.value in s.files
             && t.files == (s.files - {e.temporary.value})[Target(e) := s.files[e.temporary.value]]
             && t.entries == s.entries[i := e.(temporary := None, stagedPublished := true)]
    ensures StagedUpTo(first, t, i + 1)
  {
    var e := s.entries[i];
    var name := e.temporary.value;
    assert Owns(e, name);
    assert StillStaged(first, s, i);
    forall k | 0 <= k < i ensures HoldsStaged(first, t.files, k) {
      assert HoldsStaged(first, s.files, k);
      assert Target(s.entries[k]) == Target(first.entries[k]);
    }
    forall k | i < k < |s.entries| ensures StillStaged(first, t, k) {
      assert StillStaged(first, s, k);
      if first.entries[k].temporary.Some? {
        assert Owns(s.entries[k], first.entries[k].temporary.value);
      }
    }
  }

  lemma StageEntryOk(origin: State, first: State, s: State, i: nat, before: Files)
    requires Sound(origin, s, before) && i < |s.entries| && StagedUpTo(first, s, i)
    ensures var (t, ok) := StageEntry(s, i);
            && Sound(origin, t, before) && |t.entries| == |s.entries|
            && (ok ==> StagedUpTo(first, t, i + 1))
  {
    var (t, ok) := StageEntry(s, i);
    assert StillStaged(first, s, i);
    SoundEntry(origin, s, i, before);
    if ok {
      StagedSound(origin, s, t, i, before);
      StagedAdvances(first, s, t, i);
    } else if s.entries[i].temporary.Some? {
      SpentSound(origin, s, before);
    }
  }

  lemma {:induction false} StageFromOk(origin: State, first: State, s: State, i: nat, before: Files)
    requires Sound(origin, s, before) && i <= |s.entries| && StagedUpTo(first, s, i)
    ensures var (t, done) := StageFrom(s, i);
            && Sound(origin, t, before)
            && (done.Done? ==> SameTargets(first.entries, t.entries) && AllPublished(first, t.files))
    decreases |s.entries| - i
  {
    hide Sound, StageEntry;
    if i < |s.entries| {
      var (t, ok) := StageEntry(s, i);
      StageEntryOk(origin, first, s, i, before);
      if ok {
        StageFromOk(origin, first, t, i + 1, before);
      }
    }
  }

  // ----- deleting the backups -----

  /** From the first deletion on, every snapshot has all members published; before it, all are recoverable. */
  ghost predicate JournalCommitted(origin: State, s: State, before: Files) {
    && origin.journal <= s.journal
    && forall k | |origin.journal| <= k < |s.journal| ::
         Recoverable(s.journal[k], before) || AllPublished(origin, s.journal[k].files)
  }

  ghost predicate CleanOk(origin: State, s: State, before: Files) {
    && AliensKept(origin, s)
    && AllPublished(origin, s.files)
    && JournalCommitted(origin, s, before)
    && forall i | 0 <= i < |s.entries| && s.entries[i].backup.Some? :: s.entries[i].backup.value.Sibling?
  }

  lemma CleanEntryOk(origin: State, s: State, i: nat, before: Files)
    requires CleanOk(origin, s, before) && i < |s.entries|
    ensures CleanOk(origin, CleanEntry(s, i), before)
  {
    var t := CleanEntry(s, i);
    var e := s.entries[i];
    forall path | Owns(t.entries[i], path) ensures Owns(e, path) {}
    if e.backupActive && e.backup.Some? {
      assert Owns(e, e.backup.value);
      assert AllPublished(origin, t.files) by {
        forall k | 0 <= k < |origin.entries| ensures HoldsStaged(origin, t.files, k) {
          assert HoldsStaged(origin, s.files, k);
        }
      }
      forall path | Alien(origin, path) ensures SameAt(origin.files, t.files, path) {
        assert SameAt(origin.files, s.files, path);
      }
    }
  }

  lemma {:induction false} CleanFromOk(origin: State, s: State, i: nat, before: Files)
    requires CleanOk(origin, s, before) && i <= |s.entries|
    ensures CleanOk(origin, CleanFrom(s, i), before)
    ensures |CleanFrom(s, i).entries| == |s.entries|
    decreases |s.entries| - i
  {
    hide CleanOk, CleanEntry;
    if i < |s.entries| {
      CleanEntryOk(origin, s, i, before);
      CleanFromOk(origin, CleanEntry(s, i), i + 1, before);
    }
  }

  // ----- the whole commit -----

  lemma SoundCommits(origin: State, s: State, before: Files)
    requires Sound(origin, s, before)
    ensures JournalCommitted(origin, s, before)
  {
  }

  lemma CleanStarts(origin: State, s: State, before: Files)
    requires Sound(origin, s, before) && AllPublished(origin, s.files)
    ensures CleanOk(origin, s, before)
  {
    forall i | 0 <= i < |s.entries| && s.entries[i].backup.Some?
      ensures s.entries[i].backup.value.Sibling?
    {
      assert Owns(s.entries[i], s.entries[i].backup.value);
    }
  }

  lemma RollbackAfter(origin: State, s: State, before: Files)
    requires Sound(origin, s, before)
    ensures Sound(origin, Rollback(s).0, before)
    ensures Rollback(s).1 ==> AsBefore(Rollback(s).0, before)
  {
    RollbackFromOk(origin, s, |s.entries|, true, before);
    if Rollback(s).1 {
      SettledIsAsBefore(Rollback(s).0, before);
    }
  }

  lemma StagingStarts(s: State, t: State, before: Files)
    requires Sound(s, t, before) && SameTemporaries(s.entries, t.entries)
    requires NamesOk(s.entries, s.sequence) && OlderSame(s.files, t.files, s.sequence)
    ensures StagedUpTo(s, t, 0)
  {
    forall k | 0 <= k < |t.entries| ensures StillStaged(s, t, k) {
      if s.entries[k].temporary.Some? {
        assert Owns(s.entries[k], s.entries[k].temporary.value);
      }
    }
  }

  /**
   Publishing, for any pattern of failures. After every single step each previous content is at its
   destination or at the backup on record, until every member is published; only then are backups deleted.
   Success means every destination holds its staged content. Failure with a rollback that reports success
   leaves every destination as before, and after any failure the group is still in a state a further
   rollback can work on. No other path changes.
   */
  lemma PublishIsSafe(s: State, before: Files)
    requires GroupOk(s, before) && NothingLeftInPlace(s)
    ensures var (t, outcome) := Publish(s);
            && JournalCommitted(s, t, before)
            && AliensKept(s, t)
            && (outcome.Published? ==> t.published && AllPublished(s, t.files))
            && (outcome.Failed? ==> Sound(s, t, before) && t.published == s.published)
            && (outcome.Failed? && outcome.restored ==> AsBefore(t, before))
            && (outcome.NotPublishable? <==> s.published || s.entries == [])
            && (outcome.NotPublishable? ==> t == s)
  {
    hide Sound, BackUpFrom, StageFrom, Rollback, CleanFrom;
    SoundFromHere(s, before);
    if !s.published && s.entries != [] {
      var (backedUp, prepared) := BackUpFrom(s, 0);
      BackUpFromOk(s, s, 0, before);
      if prepared.Stopped? {
        RollbackAfter(s, backedUp, before);
        SoundCommits(s, Rollback(backedUp).0, before);
      } else {
        BackUpFromKeepsOlder(s, 0, s.sequence);
        StagingStarts(s, backedUp, before);
        var (staged, done) := StageFrom(backedUp, 0);
        StageFromOk(s, s, backedUp, 0, before);
        if done.Stopped? {
          RollbackAfter(s, staged, before);
          SoundCommits(s, Rollback(staged).0, before);
        } else {
          CleanStarts(s, staged, before);
          CleanFromOk(s, staged, 0, before);
        }
      }
    } else {
      SoundCommits(s, s, before);
    }
  }

  // ----- exactly when a commit is safe -----

  /** What publish() promises its caller about this pattern of failures, whether it succeeds or not. */
  ghost predicate SafeUnder(s: State, faults: seq<bool>, before: Files) {
    var first := s.(faults := faults);
    var (t, outcome) := Publish(first);
    && JournalCommitted(first, t, before)
    && AliensKept(first, t)
    && (outcome.Published? ==> AllPublished(first, t.files))
    && (outcome.Failed? && outcome.restored ==> AsBefore(t, before))
  }

  /** The same members with the same staging files: backups and flags apart. */
  ghost predicate SameMembers(a: seq<Entry>, b: seq<Entry>) {
    SameTargets(a, b) && SameTemporaries(a, b)
  }

  /** Nobody else has taken a name the group has yet to reserve. */
  ghost predicate NamesFresh(s: State) {
    forall of: nat, n: nat | n >= s.sequence :: Sibling(of, n) !in s.files
  }

  /** Reserving under a fresh name when nothing fails. */
  lemma ReserveQuietly(s: State, of: nat)
    requires Sibling(of, s.sequence) !in s.files && s.faults != [] && !s.faults[0]
    ensures var name := Sibling(of, s.sequence);
            Reserve(s, of, RESERVE_ATTEMPTS)
            == (State(s.files[name := EMPTY], s.entries, s.published, s.sequence + 1, s.faults[1..],
                      s.journal + [Snapshot(s.files[name := EMPTY], s.entries)]), Some(name))
  {
  }

  lemma ReserveOnce(s: State, of: nat)
    requires Sibling(of, s.sequence) !in s.files && s.faults == []
    ensures var name := Sibling(of, s.sequence);
            Reserve(s, of, RESERVE_ATTEMPTS)
            == (State(s.files[name := EMPTY], s.entries, s.published, s.sequence + 1, [],
                      s.journal + [Snapshot(s.files[name := EMPTY], s.entries)]), Some(name))
  {
  }

  /** The next step succeeds, and `rest` decides about the ones after it. */
  function Quietly(rest: seq<bool>): (r: seq<bool>)
    ensures r != [] && !r[0] && r[1..] == rest
  {
    [false] + rest
  }

  /** The failures under which member i is backed up and `rest` decides what comes after it. */
  function UntilBackedUp(s: State, i: nat, rest: seq<bool>): seq<bool>
    requires i < |s.entries|
  {
    if s.entries[i].destination.mode.CreateNew? then rest
    else if Target(s.entries[i]) !in s.files then Quietly(rest)
    else Quietly(Quietly(Quietly(rest)))
  }

  lemma BackUpUnfaulted(s: State, i: nat, rest: seq<bool>)
    requires NamesFresh(s) && i < |s.entries|
    ensures BackUpEntry(s.(faults := UntilBackedUp(s, i, rest)), i) ==
            (BackUpEntry(s.(faults := []), i).0.(faults := rest), Done)
    ensures var t := BackUpEntry(s.(faults := []), i).0;
            NamesFresh(t) && s.journal <= t.journal && t.faults == []
  {
    hide Reserve, Quietly;
    var e := s.entries[i];
    if e.destination.mode.ReplaceExisting? && Target(e) in s.files {
      ReserveQuietly(Spent(s.(faults := UntilBackedUp(s, i, rest))), e.destination.id);
      ReserveOnce(Spent(s.(faults := [])), e.destination.id);
    }
  }

  /** There are failures that lead the backup phase past safe members and up to member i. */
  lemma {:induction false} SteerTo(s: State, j: nat, i: nat, rest: seq<bool>, before: Files)
    returns (faults: seq<bool>, u: State)
    requires GroupOk(s, before) && NamesFresh(s) && j <= i < |s.entries|
    requires forall k | j <= k < i :: !LeftInPlace(s, k)
    ensures GroupOk(u, before) && NamesFresh(u) && u.faults == rest && s.journal <= u.journal
    ensures SameMembers(s.entries, u.entries) && u.published == s.published
    ensures u.entries[i] == s.entries[i] && SameAt(s.files, u.files, Target(s.entries[i]))
    ensures BackUpFrom(s.(faults := faults), j) == BackUpFrom(u, i)
    decreases i - j
  {
    hide BackUpEntry, GroupOk, NamesFresh, LeftInPlace;
    if j == i {
      faults, u := rest, s.(faults := rest);
      FaultsDoNotMatter(s, rest, before);
    } else {
      var quiet := s.(faults := []);
      FaultsDoNotMatter(s, [], before);
      var t := BackUpEntry(quiet, j).0;
      SteerPast(s, quiet, j, i, before);
      var later;
      later, u := SteerTo(t, j + 1, i, rest, before);
      BackUpUnfaulted(s, j, later);
      faults := UntilBackedUp(s, j, later);
    }
  }

  lemma FaultsDoNotMatter(s: State, faults: seq<bool>, before: Files)
    requires GroupOk(s, before) && NamesFresh(s)
    ensures GroupOk(s.(faults := faults), before) && NamesFresh(s.(faults := faults))
    ensures forall k | 0 <= k < |s.entries| :: LeftInPlace(s.(faults := faults), k) == LeftInPlace(s, k)
  {
  }

  lemma SteerPast(s: State, quiet: State, j: nat, i: nat, before: Files)
    requires quiet == s.(faults := []) && GroupOk(quiet, before) && NamesFresh(quiet) && j < i < |s.entries|
    requires forall k | j <= k < i :: !LeftInPlace(quiet, k)
    ensures var t := BackUpEntry(quiet, j).0;
            && GroupOk(t, before) && NamesFresh(t) && s.journal <= t.journal
            && SameMembers(s.entries, t.entries) && t.published == s.published
            && t.entries[i] == s.entries[i] && SameAt(s.files, t.files, Target(s.entries[i]))
            && (forall k | j + 1 <= k < i :: !LeftInPlace(t, k))
  {
    hide BackUpEntry, NamesFresh;
    var t := BackUpEntry(quiet, j).0;
    BackUpUnfaulted(quiet, j, []);
    SoundFromHere(quiet, before);
    BackUpEntryOk(quiet, quiet, j, before);
    BackUpEntryFrame(quiet, j);
    assert quiet.entries[j].destination.id != quiet.entries[i].destination.id;
    forall k | j + 1 <= k < i ensures !LeftInPlace(t, k) {
      assert quiet.entries[j].destination.id != quiet.entries[k].destination.id;
      assert SameAt(quiet.files, t.files, Plain(quiet.entries[k].destination.id));
      assert !LeftInPlace(quiet, k);
    }
  }

  lemma RollbackEntryFrame(s: State, j: nat)
    requires j < |s.entries| && s.faults == []
    ensures var t := RollbackEntry(s, j).0;
            && t.faults == [] && |t.entries| == |s.entries| && s.journal <= t.journal
            && (forall k | 0 <= k < |s.entries| && k != j :: t.entries[k] == s.entries[k])
  {
  }

  lemma PublishedIsRemoved(s: State, i: nat)
    requires i < |s.entries| && s.faults == [] && s.entries[i].stagedPublished
    ensures s.journal + [Snapshot(s.files - {Target(s.entries[i])}, s.entries)] <= RollbackEntry(s, i).0.journal
  {
    var removed := RollbackRemove(s, i).0;
    assert removed.journal == s.journal + [Snapshot(s.files - {Target(s.entries[i])}, s.entries)];
  }

  /** Rolling back without failures removes a published member, whatever is on record for it. */
  lemma {:induction false} RollbackReaches(s: State, n: nat, i: nat, restored: bool) returns (k: nat)
    requires i < n <= |s.entries| && s.faults == [] && s.entries[i].stagedPublished
    ensures var t := RollbackFrom(s, n, restored).0;
            && |s.journal| <= k < |t.journal| && |t.journal[k].entries| == |s.entries|
            && t.journal[k].entries[i] == s.entries[i] && Target(s.entries[i]) !in t.journal[k].files
    decreases n
  {
    hide RollbackEntry;
    RollbackEntryFrame(s, n - 1);
    var (t, ok) := RollbackEntry(s, n - 1);
    if n - 1 == i {
      RollbackFromGrows(t, n - 1, restored && ok);
      PublishedIsRemoved(s, i);
      k := |s.journal|;
    } else {
      k := RollbackReaches(t, n - 1, i, restored && ok);
    }
  }

  /** An active backup is forgotten when the next reservation fails: the rollback then deletes the destination. */
  lemma BackedUpIsLost(s: State, i: nat, before: Files) returns (faults: seq<bool>)
    requires GroupOk(s, before) && !s.published && NamesFresh(s) && i < |s.entries|
    requires (forall k | 0 <= k < i :: !LeftInPlace(s, k)) && LeftInPlace(s, i) && s.entries[i].backupActive
    ensures !SafeUnder(s, faults, before)
  {
    hide BackUpEntry, RollbackFrom;
    var u;
    faults, u := SteerTo(s, 0, i, [false, true], before);
    ReservationFails(u, i);
    var v := BackUpEntry(u, i).0;
    var k := RollbackReaches(v, |v.entries|, i, true);
    var first := s.(faults := faults);
    var t := Publish(first).0;
    assert t == Rollback(v).0;
    assert EntryOk(s.files, s.entries[i], before);
    assert !PreviousKept(t.journal[k].files, t.journal[k].entries[i], before);
    assert !HoldsStaged(first, t.journal[k].files, i);
  }

  lemma ReservationFails(u: State, i: nat)
    requires i < |u.entries| && LeftInPlace(u, i) && NamesFresh(u) && u.faults == [false, true]
    ensures var (v, progress) := BackUpEntry(u, i);
            && progress == Stopped(Reserving) && v.faults == [] && v.journal == u.journal
            && v.entries == u.entries[i := u.entries[i].(backup := None)]
  {
    assert u.faults[1..] == [true] && u.faults[1..][1..] == [];
  }

  /** Backing up a published file that had no predecessor makes it look like one: as if it had been there before. */
  lemma BackedUpAgain(u: State, i: nat, rest: seq<bool>, before: Files)
    requires GroupOk(u, before) && NamesFresh(u) && i < |u.entries| && LeftInPlace(u, i)
    requires Target(u.entries[i]) !in before && u.faults == Quietly(Quietly(Quietly(rest)))
    ensures var (v, progress) := BackUpEntry(u, i);
            && progress == Done && v.faults == rest && SameMembers(u.entries, v.entries) && v.published == u.published
            && GroupOk(v, before[Target(u.entries[i]) := u.files[Target(u.entries[i])]])
  {
    var e := u.entries[i];
    var name := Sibling(e.destination.id, u.sequence);
    hide Quietly;
    var v := BackUpEntry(u, i).0;
    assert v.entries == u.entries[i := e.(backup := Some(name), backupActive := true)];
    assert v.files == (u.files[name := EMPTY] - {Target(e)})[name := u.files[Target(e)]];
    NamesGrow(u.entries, u.sequence, v.sequence, i, name, true);
    LocalTouches(u, v, i);
    forall j | 0 <= j < |v.entries|
      ensures EntryOk(v.files, v.entries[j], before[Target(e) := u.files[Target(e)]])
    {
      assert EntryOk(u.files, u.entries[j], before);
      assert j != i ==> u.entries[j].destination.id != e.destination.id;
    }
  }

  /** From there on one more failure, or none, stops the commit short without any failure left over. */
  lemma {:induction false} BackUpStops(v: State, k: nat)
    requires k <= |v.entries| && v.faults == [true]
    requires exists j | k <= j < |v.entries| :: v.entries[j].destination.mode.ReplaceExisting?
    ensures BackUpFrom(v, k) == (v.(faults := []), Stopped(Inspecting))
    decreases |v.entries| - k
  {
    if v.entries[k].destination.mode.CreateNew? {
      BackUpStops(v, k + 1);
    } else {
      assert v.faults[1..] == [];
    }
  }

  lemma {:induction false} BackUpPasses(v: State, k: nat)
    requires k <= |v.entries| && forall j | k <= j < |v.entries| :: v.entries[j].destination.mode.CreateNew?
    ensures BackUpFrom(v, k) == (v, Done)
    decreases |v.entries| - k
  {
    if k < |v.entries| {
      BackUpPasses(v, k + 1);
    }
  }

  /** Which failures remain, after member i is backed up, to stop the commit. */
  function Stopper(entries: seq<Entry>, i: nat): seq<bool>
    requires i < |entries|
  {
    if (exists j | i < j < |entries| :: entries[j].destination.mode.ReplaceExisting?) || entries[0].temporary.Some?
    then [true] else []
  }

  lemma CommitStops(v: State, i: nat) returns (stage: Stage)
    requires i < |v.entries| && v.faults == Stopper(v.entries, i)
    ensures var (backedUp, prepared) := BackUpFrom(v, i + 1);
            if prepared.Stopped? then backedUp == v.(faults := []) && stage == prepared.stage
            else StageFrom(backedUp, 0) == (v.(faults := []), Stopped(stage))
  {
    if exists j | i < j < |v.entries| :: v.entries[j].destination.mode.ReplaceExisting? {
      BackUpStops(v, i + 1);
      stage := Inspecting;
    } else {
      BackUpPasses(v, i + 1);
      stage := Publishing;
      assert v.faults == [true] ==> v.faults[1..] == [];
      assert StageEntry(v, 0) == (v.(faults := []), false);
    }
  }

  lemma SameStopper(a: seq<Entry>, b: seq<Entry>, i: nat)
    requires SameMembers(a, b) && i < |a|
    ensures Stopper(a, i) == Stopper(b, i)
  {
    if j :| i < j < |a| && a[j].destination.mode.ReplaceExisting? {
      assert b[j].destination.mode.ReplaceExisting?;
    }
    if j :| i < j < |b| && b[j].destination.mode.ReplaceExisting? {
      assert a[j].destination.mode.ReplaceExisting?;
    }
  }

  /** A published file that had no predecessor is put back by the rollback, which reports success. */
  lemma LeftoverIsPutBack(s: State, i: nat, before: Files) returns (faults: seq<bool>)
    requires GroupOk(s, before) && !s.published && NamesFresh(s) && i < |s.entries|
    requires (forall k | 0 <= k < i :: !LeftInPlace(s, k)) && LeftInPlace(s, i) && !s.entries[i].backupActive
    ensures !SafeUnder(s, faults, before)
  {
    hide BackUpEntry, RollbackFrom, StageFrom, Stopper, NamesFresh;
    var target := Target(s.entries[i]);
    assert target !in before by {
      assert EntryOk(s.files, s.entries[i], before);
    }
    var rest := Stopper(s.entries, i);
    var u;
    faults, u := SteerTo(s, 0, i, Quietly(Quietly(Quietly(rest))), before);
    BackedUpAgain(u, i, rest, before);
    var v := BackUpEntry(u, i).0;
    var restored := before[target := u.files[target]];
    SameStopper(s.entries, v.entries, i);
    var stage := CommitStops(v, i);
    var stopped := v.(faults := []);
    var first := s.(faults := faults);
    assert Publish(first) == (Rollback(stopped).0, Failed(stage, Rollback(stopped).1));
    FullRollback(stopped, restored);
    var t := Rollback(stopped).0;
    assert SameAt(restored, t.files, Target(t.entries[i]));
  }

  lemma FullRollback(s: State, before: Files)
    requires GroupOk(s, before) && s.faults == []
    ensures var (t, restored) := Rollback(s);
            restored && AsBefore(t, before) && SameTargets(s.entries, t.entries)
  {
    hide RollbackFrom;
    SoundFromHere(s, before);
    RestoredWithoutFaults(s, s, |s.entries|, before);
    RollbackIsSafe(s, before);
  }

  lemma LeastLeft(s: State, n: nat) returns (i: nat)
    requires n < |s.entries| && LeftInPlace(s, n)
    ensures i <= n && LeftInPlace(s, i) && forall k | 0 <= k < i :: !LeftInPlace(s, k)
  {
    hide LeftInPlace;
    i := 0;
    while !LeftInPlace(s, i)
      invariant i <= n && forall k | 0 <= k < i :: !LeftInPlace(s, k)
      decreases n - i
    {
      i := i + 1;
    }
  }

  /**
   A commit keeps its promises under every pattern of failures exactly when no replacing member that is
   still marked published has its file in place: a first publish, or one after a complete rollback, but
   also one whose leftovers are CreateNew members or have been taken away. Otherwise some failures, perhaps
   none, make it lose a previous content or report as restored what it left behind.
   */
  lemma PublishIsSafeIff(s: State, before: Files)
    requires GroupOk(s, before) && !s.published && NamesFresh(s)
    ensures (forall faults: seq<bool> :: SafeUnder(s, faults, before)) <==> NothingLeftInPlace(s)
  {
    if NothingLeftInPlace(s) {
      forall faults: seq<bool> ensures SafeUnder(s, faults, before) {
        FaultsDoNotMatter(s, faults, before);
        PublishIsSafe(s.(faults := faults), before);
      }
    } else {
      var n :| 0 <= n < |s.entries| && LeftInPlace(s, n);
      var i := LeastLeft(s, n);
      var faults;
      if s.entries[i].backupActive {
        faults := BackedUpIsLost(s, i, before);
      } else {
        faults := LeftoverIsPutBack(s, i, before);
      }
      assert !SafeUnder(s, faults, before);
    }
  }

  // ----- a commit nothing disturbs -----

  /** Every member has its staging file, and nothing stands where a new output is to go. */
  ghost predicate Ready(s: State) {
    forall i | 0 <= i < |s.entries| ::
      && s.entries[i].temporary.Some? && s.entries[i].temporary.value in s.files
      && (s.entries[i].destination.mode.CreateNew? ==> Plain(s.entries[i].destination.id) !in s.files)
  }

  /** One of the members from i on replaces what is at this plain path. */
  ghost predicate Replaces(entries: seq<Entry>, i: nat, id: nat) {
    exists k | i <= k < |entries| :: entries[k].destination == Destination(id, ReplaceExisting)
  }

  ghost predicate StagingName(entries: seq<Entry>, path: Path) {
    exists k | 0 <= k < |entries| :: entries[k].temporary == Some(path)
  }

  /** A member is yet to move or to delete this file. */
  ghost predicate Claimed(entries: seq<Entry>, path: Path) {
    exists k | 0 <= k < |entries| :: Claims(entries[k], path)
  }

  predicate Claims(e: Entry, path: Path) {
    e.temporary == Some(path) || (e.backupActive && e.backup == Some(path))
  }

  /** Siblings are either none of the group's business or claimed. */
  ghost predicate Accounted(first: State, s: State) {
    forall path: Path | path.Sibling? && path in s.files ::
      (path in first.files && !StagingName(first.entries, path)) || Claimed(s.entries, path)
  }

  /** One member's work on the siblings, as far as the accounts go. */
  lemma AccountsKept(first: State, s: State, t: State, i: nat)
    requires Accounted(first, s) && OnlyMember(s, t, i)
    requires forall path: Path | path.Sibling? && path in t.files && path !in s.files :: Claims(t.entries[i], path)
    requires forall path: Path | Claims(s.entries[i], path) && path in t.files :: Claims(t.entries[i], path)
    ensures Accounted(first, t)
  {
    forall path: Path | path.Sibling? && path in t.files
      ensures (path in first.files && !StagingName(first.entries, path)) || Claimed(t.entries, path)
    {
      if path in s.files && Claimed(s.entries, path) {
        var k :| 0 <= k < |s.entries| && Claims(s.entries[k], path);
        assert Claims(t.entries[k], path);
      } else if path !in s.files {
        assert Claims(t.entries[i], path);
      }
    }
  }

  lemma BackUpEntryQuiet(first: State, s: State, i: nat, before: Files)
    requires GroupOk(s, before) && NothingLeftInPlace(s) && NamesFresh(s) && s.faults == [] && i < |s.entries|
    requires Accounted(first, s)
    ensures var (t, progress) := BackUpEntry(s, i);
            && progress.Done? && t.faults == [] && NamesFresh(t) && Accounted(first, t)
            && forall id :: Plain(id) in t.files <==>
                            Plain(id) in s.files && s.entries[i].destination != Destination(id, ReplaceExisting)
  {
    var e := s.entries[i];
    var (t, progress) := BackUpEntry(s, i);
    assert EntryOk(s.files, e, before) && !LeftInPlace(s, i);
    if e.destination.mode.ReplaceExisting? && Target(e) in s.files {
      ReserveOnce(Spent(s), e.destination.id);
      var name := Sibling(e.destination.id, s.sequence);
      assert t.entries == s.entries[i := e.(backup := Some(name), backupActive := true)];
    } else {
      assert t.entries == s.entries[i := e];
    }
    AccountsKept(first, s, t, i);
  }

  lemma {:induction false} BackUpFromQuiet(first: State, s: State, i: nat, before: Files)
    requires GroupOk(s, before) && NothingLeftInPlace(s) && NamesFresh(s) && s.faults == [] && i <= |s.entries|
    requires Accounted(first, s)
    ensures var (t, progress) := BackUpFrom(s, i);
            && progress.Done? && t.faults == [] && Accounted(first, t)
            && SameMembers(s.entries, t.entries) && OlderSame(s.files, t.files, s.sequence)
            && forall id :: Plain(id) in t.files <==> Plain(id) in s.files && !Replaces(s.entries, i, id)
    decreases |s.entries| - i
  {
    hide BackUpEntry, GroupOk, NothingLeftInPlace, NamesFresh, Accounted;
    BackUpFromKeepsOlder(s, i, s.sequence);
    if i < |s.entries| {
      var t := BackUpEntry(s, i).0;
      BackUpEntryQuiet(first, s, i, before);
      BackUpEntryFrame(s, i);
      SoundFromHere(s, before);
      BackUpStep(s, s, i, before);
      SoundGroup(s, t, before);
      BackUpFromQuiet(first, t, i + 1, before);
      forall id ensures Replaces(s.entries, i, id) <==>
                        s.entries[i].destination == Destination(id, ReplaceExisting) || Replaces(t.entries, i + 1, id)
      {
        ReplacesStep(s.entries, t.entries, i, id);
      }
    }
  }

  lemma SoundGroup(origin: State, s: State, before: Files)
    requires Sound(origin, s, before)
    ensures GroupOk(s, before) && SameTargets(origin.entries, s.entries)
  {
  }

  lemma ReplacesStep(a: seq<Entry>, b: seq<Entry>, i: nat, id: nat)
    requires SameTargets(a, b) && i < |a|
    ensures Replaces(a, i, id) <==>
            a[i].destination == Destination(id, ReplaceExisting) || Replaces(b, i + 1, id)
  {
    if Replaces(a, i, id) && a[i].destination != Destination(id, ReplaceExisting) {
      var k :| i <= k < |a| && a[k].destination == Destination(id, ReplaceExisting);
      assert b[k].destination == Destination(id, ReplaceExisting);
    }
    if Replaces(b, i + 1, id) {
      var k :| i + 1 <= k < |b| && b[k].destination == Destination(id, ReplaceExisting);
      assert a[k].destination == Destination(id, ReplaceExisting);
    }
  }

  /** Member k can be staged. */
  predicate Stageable(s: State, k: nat)
    requires k < |s.entries|
  {
    var e := s.entries[k];
    e.temporary.Some? && e.temporary.value in s.files && Plain(e.destination.id) !in s.files
  }

  lemma StageEntryQuiet(first: State, s: State, i: nat)
    requires NamesOk(s.entries, s.sequence) && TargetsDistinct(s.entries) && s.faults == [] && i < |s.entries|
    requires Accounted(first, s)
    ensures var (t, ok) := StageEntry(s, i);
            && (ok <==> Stageable(s, i)) && t.faults == []
            && (ok ==> NamesOk(t.entries, t.sequence) && TargetsDistinct(t.entries) && Accounted(first, t)
                       && OnlyMember(s, t, i) && t.entries[i].temporary.None?
                       && forall k | 0 <= k < |s.entries| && k != i :: Stageable(t, k) == Stageable(s, k))
  {
    var e := s.entries[i];
    var (t, ok) := StageEntry(s, i);
    if ok {
      NamesShrink(s.entries, s.sequence, i, t.entries[i]);
      AccountsKept(first, s, t, i);
      forall k | 0 <= k < |s.entries| && k != i ensures Stageable(t, k) == Stageable(s, k) {
        assert Owns(e, e.temporary.value);
        if s.entries[k].temporary.Some? {
          assert Owns(s.entries[k], s.entries[k].temporary.value);
        }
      }
    }
  }

  /** Staging goes through exactly if every member can be staged, and leaves no staging file behind. */
  lemma {:induction false} StageFromQuiet(first: State, s: State, i: nat)
    requires NamesOk(s.entries, s.sequence) && TargetsDistinct(s.entries) && s.faults == [] && i <= |s.entries|
    requires Accounted(first, s) && forall k | 0 <= k < i :: s.entries[k].temporary.None?
    ensures var (t, done) := StageFrom(s, i);
            && (done.Done? <==> forall k | i <= k < |s.entries| :: Stageable(s, k)) && t.faults == []
            && (done.Done? ==> NamesOk(t.entries, t.sequence) && Accounted(first, t)
                               && |t.entries| == |s.entries|
                               && forall k | 0 <= k < |t.entries| :: t.entries[k].temporary.None?)
            && (done.Stopped? ==> done.stage.Publishing?)
    decreases |s.entries| - i
  {
    hide StageEntry, Accounted, NamesOk, Stageable;
    if i < |s.entries| {
      StageEntryQuiet(first, s, i);
      var (t, ok) := StageEntry(s, i);
      if ok {
        StageFromQuiet(first, t, i + 1);
      }
    }
  }

  lemma CleanEntryQuiet(first: State, s: State, i: nat)
    requires Accounted(first, s) && s.faults == [] && i < |s.entries|
    requires s.entries[i].temporary.None?
    ensures var t := CleanEntry(s, i);
            && Accounted(first, t) && t.faults == [] && OnlyMember(s, t, i) && t.entries[i].temporary.None?
            && forall path :: !Claims(t.entries[i], path)
  {
    AccountsKept(first, s, CleanEntry(s, i), i);
  }

  /** With its backups deleted, a published group has claims on nothing. */
  lemma {:induction false} CleanFromQuiet(first: State, s: State, i: nat)
    requires Accounted(first, s) && s.faults == [] && i <= |s.entries|
    requires forall k | 0 <= k < |s.entries| :: s.entries[k].temporary.None?
    requires forall k, path | 0 <= k < i :: !Claims(s.entries[k], path)
    ensures var t := CleanFrom(s, i);
            Accounted(first, t) && forall path :: !Claimed(t.entries, path)
    decreases |s.entries| - i
  {
    hide CleanEntry, Accounted;
    if i < |s.entries| {
      CleanEntryQuiet(first, s, i);
      CleanFromQuiet(first, CleanEntry(s, i), i + 1);
    }
  }

  lemma AccountsOpen(s: State)
    ensures Accounted(s, s)
  {
    forall path: Path | path.Sibling? && path in s.files && StagingName(s.entries, path)
      ensures Claimed(s.entries, path)
    {
      var k :| 0 <= k < |s.entries| && s.entries[k].temporary == Some(path);
      assert Claims(s.entries[k], path);
    }
  }

  lemma AccountsClosed(first: State, t: State)
    requires Accounted(first, t) && forall path :: !Claimed(t.entries, path)
    ensures forall path: Path | path.Sibling? && path in t.files ::
              path in first.files && !StagingName(first.entries, path)
  {
  }

  lemma GroupNames(s: State, before: Files)
    requires GroupOk(s, before)
    ensures NamesOk(s.entries, s.sequence) && TargetsDistinct(s.entries)
  {
  }

  /** After the backups, what can be staged is what was ready. */
  lemma ReadyIsStageable(s: State, t: State)
    requires NamesOk(s.entries, s.sequence) && TargetsDistinct(s.entries)
    requires SameMembers(s.entries, t.entries) && OlderSame(s.files, t.files, s.sequence)
    requires forall id :: Plain(id) in t.files <==> Plain(id) in s.files && !Replaces(s.entries, 0, id)
    ensures Ready(s) <==> forall k | 0 <= k < |t.entries| :: Stageable(t, k)
  {
    forall k | 0 <= k < |s.entries|
      ensures Stageable(t, k) <==>
              && s.entries[k].temporary.Some? && s.entries[k].temporary.value in s.files
              && (s.entries[k].destination.mode.CreateNew? ==> Plain(s.entries[k].destination.id) !in s.files)
    {
      var e := s.entries[k];
      if e.temporary.Some? {
        assert Owns(e, e.temporary.value);
        assert SameAt(s.files, t.files, e.temporary.value);
      }
      assert Replaces(s.entries, 0, e.destination.id) <==> e.destination.mode.ReplaceExisting?;
    }
  }

  /**
   A publish that nothing disturbs succeeds exactly when every staging file is there and no destination to be
   created is. It then leaves nothing of the group behind but the published files; otherwise it has restored
   every destination and says so.
   */
  lemma PublishSucceedsIff(s: State, before: Files)
    requires GroupOk(s, before) && NothingLeftInPlace(s) && NamesFresh(s)
    requires !s.published && s.entries != [] && s.faults == []
    ensures var (t, outcome) := Publish(s);
            && (outcome.Published? <==> Ready(s))
            && (Ready(s) ==> forall path: Path | path.Sibling? && path in t.files ::
                               path in s.files && !StagingName(s.entries, path))
            && (!Ready(s) ==> outcome == Failed(Publishing, true) && AsBefore(t, before))
  {
    hide GroupOk, Sound, BackUpFrom, StageFrom, CleanFrom, Rollback, Accounted, NamesFresh, NothingLeftInPlace;
    PublishIsSafe(s, before);
    SoundFromHere(s, before);
    AccountsOpen(s);
    BackUpFromQuiet(s, s, 0, before);
    BackUpFromOk(s, s, 0, before);
    var backedUp := BackUpFrom(s, 0).0;
    SoundGroup(s, backedUp, before);
    GroupNames(backedUp, before);
    StageFromQuiet(s, backedUp, 0);
    GroupNames(s, before);
    ReadyIsStageable(s, backedUp);
    var (staged, done) := StageFrom(backedUp, 0);
    if done.Done? {
      CleanFromQuiet(s, staged, 0);
      AccountsClosed(s, CleanFrom(staged, 0));
    } else {
      StagingStarts(s, backedUp, before);
      StageFromOk(s, s, backedUp, 0, before);
      SoundGroup(s, staged, before);
      FullRollback(staged, before);
    }
  }

  /** History only grows. */
  lemma RollbackEntryGrows(s: State, i: nat)
    requires i < |s.entries|
    ensures s.journal <= RollbackEntry(s, i).0.journal
  {
    assert s.journal <= RollbackRemove(s, i).0.journal;
  }

  lemma {:induction false} RollbackFromGrows(s: State, i: nat, restored: bool)
    requires i <= |s.entries|
    ensures s.journal <= RollbackFrom(s, i, restored).0.journal
    decreases i
  {
    hide RollbackEntry;
    if i > 0 {
      RollbackEntryGrows(s, i - 1);
      RollbackEntrySize(s, i - 1);
      RollbackFromGrows(RollbackEntry(s, i - 1).0, i - 1, restored && RollbackEntry(s, i - 1).1);
    }
  }

  lemma RollbackEntrySize(s: State, i: nat)
    requires i < |s.entries|
    ensures |RollbackEntry(s, i).0.entries| == |s.entries|
  {
  }

  // ----- giving up -----

  lemma DroppedNameSound(origin: State, s: State, t: State, i: nat, name: Path, before: Files)
    requires Sound(origin, s, before) && i < |s.entries|
    requires Owns(s.entries[i], name) && !(s.entries[i].backupActive && s.entries[i].backup == Some(name))
    requires t.sequence == s.sequence && t.published == s.published
    requires var e := s.entries[i];
             t.entries == s.entries[i := if e.temporary == Some(name) then e.(temporary := None)
                                    else e.(backup := None)]
    requires (t.files == s.files && t.journal == s.journal)
             || (t.files == s.files - {name} && t.journal == s.journal + [Snapshot(t.files, s.entries)])
    ensures Sound(origin, t, before)
  {
    var e := s.entries[i];
    BackupIsNoTarget(s, i, Target(e));
    NamesShrink(s.entries, s.sequence, i, t.entries[i]);
    LocalTouches(s, t, i);
    assert EntryOk(s.files, e, before);
    if t.journal != s.journal {
      OneSnapshot(s, t, before);
    }
    SoundStep(origin, s, t, i, before);
  }

  lemma DiscardEntryOk(origin: State, s: State, i: nat, before: Files)
    requires Sound(origin, s, before) && i < |s.entries|
    ensures Sound(origin, DiscardEntry(s, i), before)
    ensures forall k | 0 <= k < |s.entries| && Settled(s.entries[k]) :: Settled(DiscardEntry(s, i).entries[k])
  {
    hide Sound;
    var e := s.entries[i];
    var t := if e.temporary.Some? then WithEntry(Remove(s, e.temporary.value).0, i, e.(temporary := None)) else s;
    SoundEntry(origin, s, i, before);
    if e.temporary.Some? {
      DroppedNameSound(origin, s, t, i, e.temporary.value, before);
    }
    var f := t.entries[i];
    if !f.backupActive && f.backup.Some? {
      DroppedNameSound(origin, t, DiscardEntry(s, i), i, f.backup.value, before);
    }
  }

  lemma {:induction false} DiscardFromOk(origin: State, s: State, i: nat, before: Files)
    requires Sound(origin, s, before) && i <= |s.entries|
    ensures Sound(origin, DiscardFrom(s, i), before)
    ensures |DiscardFrom(s, i).entries| == |s.entries|
    ensures (forall k | 0 <= k < |s.entries| :: Settled(s.entries[k])) ==>
              forall k | 0 <= k < |s.entries| :: Settled(DiscardFrom(s, i).entries[k])
    decreases |s.entries| - i
  {
    hide Sound, DiscardEntry;
    if i < |s.entries| {
      DiscardEntryOk(origin, s, i, before);
      DiscardFromOk(origin, DiscardEntry(s, i), i + 1, before);
    }
  }

  /** The group just before the destructor forgets its members. */
  function Discarded(s: State): State {
    DiscardFrom(Rollback(s).0, 0)
  }

  /**
   The destructor retries the rollback and then deletes only staging files and unused reservations: no
   step loses a previous content, whatever fails, and if the rollback succeeds every destination is as
   before.
   */
  lemma DiscardIsSafe(s: State, before: Files)
    requires GroupOk(s, before) && !s.published
    ensures Discard(s).files == Discarded(s).files && Discard(s).journal == Discarded(s).journal
    ensures JournalSafe(s, Discarded(s), before) && AliensKept(s, Discarded(s))
    ensures Recoverable(Snapshot(Discarded(s).files, Discarded(s).entries), before)
    ensures Rollback(s).1 ==> AsBefore(Discarded(s), before)
  {
    SoundFromHere(s, before);
    RollbackFromOk(s, s, |s.entries|, true, before);
    DiscardFromOk(s, Rollback(s).0, 0, before);
    if Rollback(s).1 {
      SettledIsAsBefore(Discarded(s), before);
    }
  }

  lemma EntryRestoredWithoutFaults(s: State, i: nat, before: Files)
    requires i < |s.entries| && s.faults == [] && EntryOk(s.files, s.entries[i], before) &&
             NamesOk(s.entries, s.sequence)
    ensures RollbackEntry(s, i).1 && RollbackEntry(s, i).0.faults == []
  {
    BackupIsNoTarget(s, i, Target(s.entries[i]));
  }

  lemma {:induction false} RestoredWithoutFaults(origin: State, s: State, i: nat, before: Files)
    requires Sound(origin, s, before) && i <= |s.entries| && s.faults == []
    ensures RollbackFrom(s, i, true).1 && RollbackFrom(s, i, true).0.faults == []
    decreases i
  {
    hide RollbackEntry;
    if i > 0 {
      assert EntryOk(s.files, s.entries[i - 1], before);
      EntryRestoredWithoutFaults(s, i - 1, before);
      RollbackEntryOk(origin, s, i - 1, before);
      RestoredWithoutFaults(origin, RollbackEntry(s, i - 1).0, i - 1, before);
    }
  }

  /** Once the faults are over, the retry from the destructor always restores everything. */
  lemma RetryRestores(s: State, before: Files)
    requires GroupOk(s, before) && s.faults == [] && !s.published
    ensures Rollback(s).1 && AsBefore(Discarded(s), before)
  {
    SoundFromHere(s, before);
    RestoredWithoutFaults(s, s, |s.entries|, before);
    DiscardIsSafe(s, before);
  }

  /** Giving up after a publish gives nothing up. */
  lemma DiscardKeepsPublished(s: State)
    requires s.published
    ensures Discard(s) == s
  {
  }

  /** Of the siblings of `first` no new one has come, and what a member owned and is still there, it still owns. */
  ghost predicate Residue(first: State, s: State) {
    && |s.entries| == |first.entries|
    && forall path: Path | path.Sibling? && path in s.files ::
         && path in first.files
         && forall k | 0 <= k < |s.entries| && Owns(first.entries[k], path) :: Owns(s.entries[k], path)
  }

  lemma ResidueKept(first: State, s: State, t: State, i: nat)
    requires Residue(first, s) && OnlyMember(s, t, i)
    requires forall path: Path | path.Sibling? && path in t.files :: path in s.files
    requires forall path: Path | Owns(s.entries[i], path) && path.Sibling? && path in t.files ::
             Owns(t.entries[i], path)
    ensures Residue(first, t)
  {
  }

  lemma RollbackEntryTidy(first: State, s: State, i: nat)
    requires Residue(first, s) && NamesOk(s.entries, s.sequence) && i < |s.entries|
    ensures Residue(first, RollbackEntry(s, i).0)
  {
    hide RollbackRemove, RollbackMove, Residue;
    RemoveTidy(first, s, i);
    MoveTidy(first, RollbackRemove(s, i).0, i);
  }

  lemma RemoveTidy(first: State, s: State, i: nat)
    requires Residue(first, s) && NamesOk(s.entries, s.sequence) && i < |s.entries|
    ensures var t := RollbackRemove(s, i).0;
            Residue(first, t) && t.entries[i].backup == s.entries[i].backup && NamesOk(t.entries, t.sequence)
  {
    hide Residue;
    var t := RollbackRemove(s, i).0;
    assert forall path :: Owns(t.entries[i], path) <==> Owns(s.entries[i], path);
    NamesShrink(s.entries, s.sequence, i, t.entries[i]);
    assert t.entries == s.entries[i := t.entries[i]];
    ResidueKept(first, s, t, i);
  }

  lemma MoveTidy(first: State, s: State, i: nat)
    requires Residue(first, s) && NamesOk(s.entries, s.sequence) && i < |s.entries|
    ensures Residue(first, RollbackMove(s, i).0)
  {
    hide Residue;
    var e := s.entries[i];
    if e.backup.Some? {
      assert Owns(e, e.backup.value);
    }
    ResidueKept(first, s, RollbackMove(s, i).0, i);
  }

  lemma {:induction false} RollbackFromTidy(first: State, s: State, i: nat, restored: bool, before: Files)
    requires Residue(first, s) && GroupOk(s, before) && i <= |s.entries|
    ensures Residue(first, RollbackFrom(s, i, restored).0)
    decreases i
  {
    hide Residue, RollbackEntry, NamesOk;
    if i > 0 {
      GroupNames(s, before);
      RollbackEntryTidy(first, s, i - 1);
      SoundFromHere(s, before);
      RollbackEntryOk(s, s, i - 1, before);
      var (t, ok) := RollbackEntry(s, i - 1);
      SoundGroup(s, t, before);
      RollbackFromTidy(first, t, i - 1, restored && ok, before);
    }
  }

  lemma DiscardEntryTidy(first: State, s: State, i: nat)
    requires Residue(first, s) && s.faults == [] && i < |s.entries| && Settled(s.entries[i])
    ensures var t := DiscardEntry(s, i);
            && Residue(first, t) && t.faults == [] && OnlyMember(s, t, i) && Settled(t.entries[i])
            && forall path :: !Owns(t.entries[i], path)
  {
    ResidueKept(first, s, DiscardEntry(s, i), i);
  }

  lemma {:induction false} DiscardFromTidy(first: State, s: State, i: nat)
    requires Residue(first, s) && s.faults == [] && i <= |s.entries|
    requires forall k | 0 <= k < |s.entries| :: Settled(s.entries[k])
    requires forall k, path | 0 <= k < i :: !Owns(s.entries[k], path)
    ensures var t := DiscardFrom(s, i);
            Residue(first, t) && forall k, path | 0 <= k < |t.entries| :: !Owns(t.entries[k], path)
    decreases |s.entries| - i
  {
    hide Residue, DiscardEntry;
    if i < |s.entries| {
      DiscardEntryTidy(first, s, i);
      DiscardFromTidy(first, DiscardEntry(s, i), i + 1);
    }
  }

  /** With nothing failing, giving up leaves neither staging files nor backups nor reservations behind. */
  lemma DiscardLeavesNothing(s: State, before: Files)
    requires GroupOk(s, before) && s.faults == [] && !s.published
    ensures var t := Discard(s);
            && t.entries == [] && AsBefore(Discarded(s), before)
            && forall path: Path | path.Sibling? && path in t.files ::
                 path in s.files && forall k | 0 <= k < |s.entries| :: !Owns(s.entries[k], path)
  {
    hide RollbackFrom, DiscardFrom;
    RetryRestores(s, before);
    SoundFromHere(s, before);
    RestoredWithoutFaults(s, s, |s.entries|, before);
    RollbackFromOk(s, s, |s.entries|, true, before);
    RollbackFromTidy(s, s, |s.entries|, true, before);
    DiscardFromTidy(s, Rollback(s).0, 0);
  }

  // ----- beginning -----

  datatype BeginError = NoDestinations | Duplicate | CannotInspect | AlreadyExists | CannotReserve

  predicate HasTarget(entries: seq<Entry>, id: nat) {
    exists k | 0 <= k < |entries| :: entries[k].destination.id == id
  }

  function BeginFrom(s: State, destinations: seq<Destination>, i: nat): (State, Option<BeginError>)
    requires i <= |destinations|
    decreases |destinations| - i
  {
    if i == |destinations| then (s, None)
    else
      var (t, error) := BeginEntry(s, destinations[i]);
      if error.Some? then (t, error) else BeginFrom(t, destinations, i + 1)
  }

  function BeginEntry(s: State, d: Destination): (State, Option<BeginError>) {
    if HasTarget(s.entries, d.id) then (s, Some(Duplicate))
    else if d.mode.CreateNew? && Faulty(s) then (Spent(s), Some(CannotInspect))
    else if d.mode.CreateNew? && Plain(d.id) in s.files then (Spent(s), Some(AlreadyExists))
    else
      var (t, temporary) := Reserve(if d.mode.CreateNew? then Spent(s) else s, d.id, RESERVE_ATTEMPTS);
      if temporary.None? then (t, Some(CannotReserve))
      else (t.(entries := t.entries + [Entry(d, temporary, None, false, false)]), None)
  }

  /** A group that could not begin discards what it had reserved. */
  function Begin(s: State, destinations: seq<Destination>): (State, Option<BeginError>) {
    var empty := s.(entries := [], published := false);
    if destinations == [] then (empty, Some(NoDestinations))
    else
      var (t, error) := BeginFrom(empty, destinations, 0);
      if error.Some? then (Discard(t), error) else (t, None)
  }

  /** What a group is between begin and publish: every member has its own staging file and nothing else. */
  ghost predicate Begun(s: State, files: Files, destinations: seq<Destination>, n: nat) {
    && n <= |destinations| && |s.entries| == n && !s.published
    && (forall k | 0 <= k < n :: s.entries[k] == Entry(destinations[k], s.entries[k].temporary, None, false, false)
                                 && s.entries[k].temporary.Some? && s.entries[k].temporary.value in s.files
                                 && (destinations[k].mode.CreateNew? ==> Plain(destinations[k].id) !in files))
    && (forall id :: SameAt(files, s.files, Plain(id)))
    && NamesOk(s.entries, s.sequence) && TargetsDistinct(s.entries)
  }

  lemma BegunGrows(s: State, t: State, files: Files, destinations: seq<Destination>, n: nat, name: Path)
    requires Begun(s, files, destinations, n) && n < |destinations|
    requires name.Sibling? && s.sequence <= name.sequence < t.sequence && name !in s.files
    requires forall k | 0 <= k < n :: s.entries[k].destination.id != destinations[n].id
    requires destinations[n].mode.CreateNew? ==> Plain(destinations[n].id) !in s.files
    requires t.files == s.files[name := EMPTY] && !t.published
    requires t.entries == s.entries + [Entry(destinations[n], Some(name), None, false, false)]
    ensures Begun(t, files, destinations, n + 1)
  {
    assert forall k | 0 <= k < n :: !Owns(s.entries[k], name);
    forall k, path | 0 <= k < n + 1 && Owns(t.entries[k], path)
      ensures (k < n && Owns(s.entries[k], path)) || (k == n && path == name)
    {
    }
    assert SameAt(files, s.files, Plain(destinations[n].id));
    forall id ensures SameAt(files, t.files, Plain(id)) {
      assert SameAt(files, s.files, Plain(id));
    }
  }

  lemma BeginEntryOk(s: State, files: Files, destinations: seq<Destination>, i: nat)
    requires Begun(s, files, destinations, i) && i < |destinations|
    ensures var (t, error) := BeginEntry(s, destinations[i]);
            && |t.entries| == (if error.None? then i + 1 else i)
            && Begun(t, files, destinations, |t.entries|)
  {
    hide Reserve;
    var d := destinations[i];
    assert Begun(Spent(s), files, destinations, i);
    if !HasTarget(s.entries, d.id) && !(d.mode.CreateNew? && (Faulty(s) || Plain(d.id) in s.files)) {
      var inspected := if d.mode.CreateNew? then Spent(s) else s;
      var (t, temporary) := Reserve(inspected, d.id, RESERVE_ATTEMPTS);
      ReserveIsFresh(inspected, d.id, RESERVE_ATTEMPTS);
      if temporary.None? {
        assert Begun(t, files, destinations, i);
      } else {
        BegunGrows(inspected, BeginEntry(s, d).0, files, destinations, i, temporary.value);
      }
    }
  }

  lemma {:induction false} BeginFromOk(s: State, files: Files, destinations: seq<Destination>, i: nat)
    requires Begun(s, files, destinations, i)
    ensures var (t, error) := BeginFrom(s, destinations, i);
            i <= |t.entries| && Begun(t, files, destinations, |t.entries|) &&
              (error.None? ==> |t.entries| == |destinations|)
    decreases |destinations| - i
  {
    if i < |destinations| {
      hide Begun, BeginEntry;
      BeginEntryOk(s, files, destinations, i);
      var (t, error) := BeginEntry(s, destinations[i]);
      if error.None? {
        BeginFromOk(t, files, destinations, i + 1);
      }
    }
  }

  lemma {:induction false} NothingToRollBack(s: State, i: nat)
    requires i <= |s.entries| && forall k | 0 <= k < |s.entries| :: Settled(s.entries[k])
    ensures RollbackFrom(s, i, true) == (s, true)
    decreases i
  {
    if i > 0 {
      NothingToRollBack(s, i - 1);
    }
  }

  /**
   A group begins only with pairwise distinct destinations, each with a staging file of its own and, for
   CreateNew, none in place; whether it begins or not, no file the caller can name is touched.
   */
  lemma BeginIsSafe(s: State, destinations: seq<Destination>)
    ensures var (t, error) := Begin(s, destinations);
            && (error.None? ==> destinations != [] && Begun(t, s.files, destinations, |destinations|)
                                && GroupOk(t, s.files) && NothingLeftInPlace(t))
            && (forall id :: SameAt(s.files, t.files, Plain(id)))
  {
    var empty := s.(entries := [], published := false);
    if destinations != [] {
      assert Begun(empty, s.files, destinations, 0);
      BeginFromOk(empty, s.files, destinations, 0);
      var (t, error) := BeginFrom(empty, destinations, 0);
      if error.Some? {
        NothingToRollBack(t, |t.entries|);
        DiscardIsSafe(t, s.files);
        forall id ensures SameAt(s.files, Discarded(t).files, Plain(id)) {
          UntouchedPlain(t, s.files, id);
        }
      }
    }
  }

  /** What the destinations have to be like. */
  ghost predicate Startable(files: Files, destinations: seq<Destination>) {
    && destinations != []
    && (forall i, j | 0 <= i < j < |destinations| :: destinations[i].id != destinations[j].id)
    && (forall i | 0 <= i < |destinations| && destinations[i].mode.CreateNew? :: Plain(destinations[i].id) !in files)
  }

  /** Siblings are as in `files`, but for the staging files of the group. */
  ghost predicate OnlyStagingNew(files: Files, s: State) {
    forall path: Path | path.Sibling? && path in s.files :: path in files || StagingName(s.entries, path)
  }

  lemma StagingAdded(files: Files, s: State, t: State, e: Entry)
    requires OnlyStagingNew(files, s) && t.entries == s.entries + [e] && e.temporary.Some?
    requires t.files == s.files[e.temporary.value := EMPTY]
    ensures OnlyStagingNew(files, t)
  {
    forall path: Path | path.Sibling? && path in t.files ensures path in files || StagingName(t.entries, path) {
      if path in s.files && StagingName(s.entries, path) {
        var k :| 0 <= k < |s.entries| && s.entries[k].temporary == Some(path);
        assert t.entries[k].temporary == Some(path);
      } else if path !in s.files {
        assert t.entries[|s.entries|].temporary == Some(path);
      }
    }
  }

  /** With nothing failing, a group goes on beginning exactly while the next destination is new and may be used. */
  lemma {:induction false} BeginFromQuiet(s: State, files: Files, destinations: seq<Destination>, i: nat)
    requires Begun(s, files, destinations, i) && NamesFresh(s) && s.faults == [] && OnlyStagingNew(files, s)
    ensures var (t, error) := BeginFrom(s, destinations, i);
            && t.faults == [] && OnlyStagingNew(files, t)
            && (error.None? <==> forall k | i <= k < |destinations| ::
                   && (forall j | 0 <= j < k :: destinations[j].id != destinations[k].id)
                   && (destinations[k].mode.CreateNew? ==> Plain(destinations[k].id) !in files))
    decreases |destinations| - i
  {
    hide Reserve, NamesOk, OnlyStagingNew;
    if i < |destinations| {
      var d := destinations[i];
      assert SameAt(files, s.files, Plain(d.id));
      assert HasTarget(s.entries, d.id) <==> exists j | 0 <= j < i :: destinations[j].id == d.id;
      ReserveOnce(s, d.id);
      BeginEntryOk(s, files, destinations, i);
      var (t, error) := BeginEntry(s, d);
      if error.None? {
        StagingAdded(files, s, t, t.entries[i]);
        BeginFromQuiet(t, files, destinations, i + 1);
      }
    }
  }

  /**
   With nothing failing, a group begins exactly when its destinations are some, distinct and, where they are to
   be created, not there; if it does not, it leaves no file behind.
   */
  lemma BeginSucceedsIff(s: State, destinations: seq<Destination>)
    requires NamesFresh(s) && s.faults == []
    ensures var (t, error) := Begin(s, destinations);
            && (error.None? <==> Startable(s.files, destinations))
            && (error.Some? ==> t.files.Keys <= s.files.Keys)
  {
    hide BeginFrom, Discard, GroupOk;
    var empty := s.(entries := [], published := false);
    BeginIsSafe(s, destinations);
    if destinations != [] {
      assert Begun(empty, s.files, destinations, 0);
      BeginFromQuiet(empty, s.files, destinations, 0);
      BeginFromOk(empty, s.files, destinations, 0);
      var (t, error) := BeginFrom(empty, destinations, 0);
      if error.Some? {
        BegunIsOk(t, s.files, destinations);
        DiscardLeavesNothing(t, s.files);
        forall path | path in Discard(t).files ensures path in s.files {
          if path.Plain? {
            assert SameAt(s.files, Begin(s, destinations).0.files, Plain(path.id));
          } else {
            NotOwnedIsNotStaging(t.entries, path);
          }
        }
      }
    }
  }

  lemma NotOwnedIsNotStaging(entries: seq<Entry>, path: Path)
    requires forall k | 0 <= k < |entries| :: !Owns(entries[k], path)
    ensures !StagingName(entries, path)
  {
  }

  lemma BegunIsOk(t: State, files: Files, destinations: seq<Destination>)
    requires Begun(t, files, destinations, |t.entries|)
    ensures GroupOk(t, files)
  {
    forall k | 0 <= k < |t.entries| ensures EntryOk(t.files, t.entries[k], files) {
      assert SameAt(files, t.files, Plain(destinations[k].id));
    }
  }

  lemma UntouchedPlain(t: State, files: Files, id: nat)
    requires GroupOk(t, files) && (forall k | 0 <= k < |t.entries| :: Settled(t.entries[k]))
    requires SameAt(files, t.files, Plain(id))
    requires AliensKept(t, Discarded(t)) && AsBefore(Discarded(t), files)
    ensures SameAt(files, Discarded(t).files, Plain(id))
  {
    var d := Discarded(t);
    if HasTarget(t.entries, id) {
      var k :| 0 <= k < |t.entries| && t.entries[k].destination.id == id;
      assert d.entries[k].destination == t.entries[k].destination;
      assert SameAt(files, d.files, Target(d.entries[k]));
    } else {
      assert Alien(t, Plain(id));
    }
  }

  // ----- a run that loses a previous content -----

  const FIRST := Destination(0, ReplaceExisting)
  const SECOND := Destination(1, ReplaceExisting)

  /** Only the second member's move fails, and then both attempts to take the first one back. */
  const LATE_FAILURES := [false, false, false, false, false, true, true, true]

  function TwoMembers(previous: Content): State {
    Begin(State(map[Plain(0) := previous], [], false, 0, [false, false] + LATE_FAILURES, []), [FIRST, SECOND]).0
  }

  /** The caller writes the new contents into the staging files. */
  function Written(previous: Content, next: Content, other: Content): State {
    var begun := TwoMembers(previous);
    begun.(files := begun.files[Sibling(0, 0) := next][Sibling(1, 1) := other])
  }

  lemma TwoMembersBegin(previous: Content)
    ensures var t := TwoMembers(previous);
            && t.files == map[Plain(0) := previous, Sibling(0, 0) := EMPTY, Sibling(1, 1) := EMPTY]
            && t.entries == [Entry(FIRST, Some(Sibling(0, 0)), None, false, false),
                             Entry(SECOND, Some(Sibling(1, 1)), None, false, false)]
            && !t.published && t.sequence == 2 && t.faults == LATE_FAILURES
  {
    var s0 := State(map[Plain(0) := previous], [], false, 0, [false, false] + LATE_FAILURES, []);
    var (s1, e1) := BeginEntry(s0, FIRST);
    ReserveQuietly(s0, 0);
    assert s0.faults[1..] == [false] + LATE_FAILURES;
    ReserveQuietly(s1, 1);
    assert s1.faults[1..] == LATE_FAILURES;
    var (s2, e2) := BeginEntry(s1, SECOND);
    assert !HasTarget(s1.entries, 1);
    var both := [FIRST, SECOND];
    assert BeginFrom(s2, both, 2) == (s2, None);
    assert BeginFrom(s1, both, 1) == (s2, None);
    assert BeginFrom(s0, both, 0) == (s2, None);
  }

  /** Both members of the run after the backup phase of its first publish. */
  ghost predicate FirstBackedUp(s: State, previous: Content, next: Content, other: Content) {
    && s.files == map[Sibling(0, 2) := previous, Sibling(0, 0) := next, Sibling(1, 1) := other]
    && s.entries == [Entry(FIRST, Some(Sibling(0, 0)), Some(Sibling(0, 2)), true, false),
                     Entry(SECOND, Some(Sibling(1, 1)), None, false, false)]
    && !s.published && s.sequence == 3 && s.faults == [false, true, true, true]
  }

  /** And after the first publish: the first member is published, its previous content in a backup. */
  ghost predicate FirstLeft(s: State, previous: Content, next: Content, other: Content) {
    && s.files == map[Plain(0) := next, Sibling(0, 2) := previous, Sibling(1, 1) := other]
    && s.entries == [Entry(FIRST, None, Some(Sibling(0, 2)), true, true),
                     Entry(SECOND, Some(Sibling(1, 1)), None, false, false)]
    && !s.published && s.sequence == 3 && s.faults == []
  }

  /** Backing a member up takes an inspection, a reservation and a move. */
  lemma BackUpTakesThree(s: State, i: nat)
    requires i < |s.entries| && s.entries[i].destination.mode.ReplaceExisting? && Target(s.entries[i]) in s.files
    requires Sibling(s.entries[i].destination.id, s.sequence) !in s.files
    requires |s.faults| >= 3 && !s.faults[0] && !s.faults[1] && !s.faults[2]
    ensures var (t, progress) := BackUpEntry(s, i);
            var e, name := s.entries[i], Sibling(s.entries[i].destination.id, s.sequence);
            && progress == Done && t.faults == s.faults[3..] && t.published == s.published
            && t.sequence == s.sequence + 1 &&
               t.entries == s.entries[i := e.(backup := Some(name), backupActive := true)]
            && t.files == (s.files[name := EMPTY] - {Target(e)})[name := s.files[Target(e)]]
  {
    hide Reserve;
    assert Spent(s).faults == s.faults[1..] && Spent(s).faults[1..] == s.faults[2..];
    ReserveQuietly(Spent(s), s.entries[i].destination.id);
    assert s.faults[2..][1..] == s.faults[3..];
  }

  lemma FirstMemberIsBackedUp(previous: Content, next: Content, other: Content)
    ensures |Written(previous, next, other).entries| == 2
    ensures var (t, progress) := BackUpEntry(Written(previous, next, other), 0);
            && progress == Done && t.faults == [false, false, true, true, true]
            && FirstBackedUp(t.(faults := [false, true, true, true]), previous, next, other)
  {
    hide BackUpEntry, Begin;
    TwoMembersBegin(previous);
    BackUpTakesThree(Written(previous, next, other), 0);
    assert LATE_FAILURES[3..] == [false, false, true, true, true];
  }

  lemma SecondNeedsNoBackUp(s: State, previous: Content, next: Content, other: Content)
    requires s.faults == [false, false, true, true, true]
    requires FirstBackedUp(s.(faults := [false, true, true, true]), previous, next, other)
    ensures BackUpEntry(s, 1) == (s.(faults := [false, true, true, true]), Done)
  {
    assert [false, false, true, true, true][1..] == [false, true, true, true];
  }

  lemma FirstBackUp(previous: Content, next: Content, other: Content)
    ensures var (t, progress) := BackUpFrom(Written(previous, next, other), 0);
            progress == Done && FirstBackedUp(t, previous, next, other)
  {
    hide BackUpEntry, Begin;
    TwoMembersBegin(previous);
    FirstMemberIsBackedUp(previous, next, other);
    var s1 := BackUpEntry(Written(previous, next, other), 0).0;
    SecondNeedsNoBackUp(s1, previous, next, other);
    var s2 := BackUpEntry(s1, 1).0;
    assert BackUpFrom(s2, 2) == (s2, Done);
    assert BackUpFrom(s1, 1) == (s2, Done);
  }

  lemma FirstMemberIsPublished(s: State, previous: Content, next: Content, other: Content)
    requires FirstBackedUp(s, previous, next, other)
    ensures var (t, ok) := StageEntry(s, 0);
            ok && t.faults == [true, true, true] && FirstLeft(t.(faults := []), previous, next, other)
  {
    assert [false, true, true, true][1..] == [true, true, true];
  }

  lemma SecondMemberFails(s: State, previous: Content, next: Content, other: Content)
    requires s.faults == [true, true, true] && FirstLeft(s.(faults := []), previous, next, other)
    ensures StageEntry(s, 1) == (s.(faults := [true, true]), false)
  {
    assert [true, true, true][1..] == [true, true];
  }

  lemma FirstStage(s: State, previous: Content, next: Content, other: Content)
    requires FirstBackedUp(s, previous, next, other)
    ensures var (t, progress) := StageFrom(s, 0);
            && progress == Stopped(Publishing) && t.faults == [true, true]
            && FirstLeft(t.(faults := []), previous, next, other)
  {
    hide StageEntry;
    FirstMemberIsPublished(s, previous, next, other);
    var s1 := StageEntry(s, 0).0;
    SecondMemberFails(s1, previous, next, other);
    assert StageFrom(s1, 1) == (s1.(faults := [true, true]), Stopped(Publishing));
  }

  lemma FirstRollback(s: State, previous: Content, next: Content, other: Content)
    requires s.faults == [true, true] && FirstLeft(s.(faults := []), previous, next, other)
    ensures Rollback(s) == (s.(faults := []), false)
  {
    var t := s.(faults := []);
    assert RollbackEntry(s, 1) == (s, true);
    assert [true, true][1..] == [true] && [true][1..] == [];
    assert RollbackEntry(s, 0) == (t, false);
    assert RollbackFrom(t, 0, false) == (t, false);
    assert RollbackFrom(s, 1, true) == (t, false);
  }

  lemma FirstPublishFails(previous: Content, next: Content, other: Content)
    ensures var (t, outcome) := Publish(Written(previous, next, other));
            outcome == Failed(Publishing, false) && FirstLeft(t, previous, next, other)
  {
    hide BackUpFrom, StageFrom, Rollback, FirstBackedUp, FirstLeft;
    FirstBackUp(previous, next, other);
    var backedUp := BackUpFrom(Written(previous, next, other), 0).0;
    FirstStage(backedUp, previous, next, other);
    FirstRollback(StageFrom(backedUp, 0).0, previous, next, other);
    TwoMembersBegin(previous);
  }

  lemma SecondBackUp(s: State, previous: Content, next: Content, other: Content)
    requires FirstLeft(s, previous, next, other)
    ensures var (t, progress) := BackUpFrom(s, 0);
            && progress == Done && t.faults == []
            && t.files == map[Sibling(0, 3) := next, Sibling(0, 2) := previous, Sibling(1, 1) := other]
            && t.entries == [Entry(FIRST, None, Some(Sibling(0, 3)), true, true),
                             Entry(SECOND, Some(Sibling(1, 1)), None, false, false)]
  {
    ReserveOnce(s, 0);
    var t := BackUpEntry(s, 0).0;
    assert t.files == map[Sibling(0, 3) := next, Sibling(0, 2) := previous, Sibling(1, 1) := other];
    assert BackUpEntry(t, 1) == (t, Done);
    assert BackUpFrom(t, 2) == (t, Done);
    assert BackUpFrom(t, 1) == (t, Done);
  }

  lemma SecondPublishRestoresWrongly(s: State, previous: Content, next: Content, other: Content)
    requires FirstLeft(s, previous, next, other)
    ensures var (t, outcome) := Publish(s);
            && outcome == Failed(Publishing, true) && |t.entries| == 2
            && t.files == map[Plain(0) := next, Sibling(0, 2) := previous, Sibling(1, 1) := other]
            && t.entries[0] == Entry(FIRST, None, None, false, false)
  {
    hide BackUpFrom;
    SecondBackUp(s, previous, next, other);
    var s1 := BackUpFrom(s, 0).0;
    assert StageFrom(s1, 0) == (s1, Stopped(Publishing));
    assert RollbackEntry(s1, 1) == (s1, true);
    var (s2, ok) := RollbackEntry(s1, 0);
    assert ok && s2.files == map[Plain(0) := next, Sibling(0, 2) := previous, Sibling(1, 1) := other];
    assert RollbackFrom(s2, 0, true) == (s2, true);
    assert RollbackFrom(s1, 1, true) == (s2, true);
  }

  lemma WrittenIsOk(previous: Content, next: Content, other: Content)
    ensures GroupOk(Written(previous, next, other), map[Plain(0) := previous])
    ensures NothingLeftInPlace(Written(previous, next, other))
  {
    TwoMembersBegin(previous);
  }

  /**
   Begin, a publish that fails late, and publishing again with nothing failing any more: the rollback
   reports the destination restored, but it holds the new content, and the previous one is in a file the
   group no longer has on record.
   */
  lemma RepublishLosesPrevious(previous: Content, next: Content, other: Content)
    requires previous != next
    ensures var before: Files := map[Plain(0) := previous];
            var (once, first) := Publish(Written(previous, next, other));
            var (twice, second) := Publish(once);
            && GroupOk(Written(previous, next, other), before) && NothingLeftInPlace(Written(previous, next, other))
            && first == Failed(Publishing, false) && once.faults == []
            && second == Failed(Publishing, true) && Plain(0) in twice.files && twice.files[Plain(0)] == next
            && !Recoverable(Snapshot(twice.files, twice.entries), before)
  {
    hide Publish, Written, GroupOk;
    WrittenIsOk(previous, next, other);
    FirstPublishFails(previous, next, other);
    var once := Publish(Written(previous, next, other)).0;
    SecondPublishRestoresWrongly(once, previous, next, other);
    var twice := Publish(once).0;
    assert !PreviousKept(twice.files, twice.entries[0], map[Plain(0) := previous]);
  }

  // ----- the loops -----

  lemma FaultsOfSequence(s: State, sequence: nat)
    ensures Faulty(s.(sequence := sequence)) == Faulty(s)
  {
  }

  /** The group as the source runs it: entries, files and flags updated in place, one loop per phase. */
  class TransactionGroup {
    var files: Files
    var entries: seq<Entry>
    var published: bool
    var sequence: nat
    var faults: seq<bool>
    ghost var journal: seq<Snapshot>

    ghost function Now(): State
      reads this
    {
      State(files, entries, published, sequence, faults, journal)
    }

    constructor (files: Files, sequence: nat, faults: seq<bool>)
      ensures Now() == State(files, [], false, sequence, faults, [])
    {
      this.files, this.sequence, this.faults := files, sequence, faults;
      entries, published, journal := [], false, [];
    }

    method TakeFault() returns (faulty: bool)
      modifies this
      ensures faulty == Faulty(old(Now())) && Now() == Spent(old(Now()))
    {
      faulty := faults != [] && faults[0];
      faults := if faults == [] then [] else faults[1..];
    }

    method MovePath(from: Path, to: Path, replace: bool) returns (ok: bool)
      modifies this
      ensures (Now(), ok) == Move(old(Now()), from, to, replace)
    {
      var faulty := TakeFault();
      if from !in files || (!replace && to in files) || faulty {
        return false;
      }
      files := (files - {from})[to := files[from]];
      journal := journal + [Snapshot(files, entries)];
      ok := true;
    }

    method RemovePath(path: Path) returns (ok: bool)
      modifies this
      ensures (Now(), ok) == Remove(old(Now()), path)
    {
      var faulty := TakeFault();
      if faulty {
        return false;
      }
      files := files - {path};
      journal := journal + [Snapshot(files, entries)];
      ok := true;
    }

    method ReserveFile(candidate: Path) returns (reserved: bool)
      modifies this
      ensures reserved == !Faulty(old(Now()))
      ensures Now() == if reserved then Recorded(Spent(old(Now())), old(files)[candidate := EMPTY])
                       else Spent(old(Now()))
    {
      var faulty := TakeFault();
      reserved := !faulty;
      if reserved {
        files := files[candidate := EMPTY];
        journal := journal + [Snapshot(files, entries)];
      }
    }

    method ReserveTemporarySibling(of: nat) returns (name: Option<Path>)
      modifies this
      ensures (Now(), name) == Reserve(old(Now()), of, RESERVE_ATTEMPTS)
    {
      hide Faulty, Spent, Recorded;
      for attempt := 0 to RESERVE_ATTEMPTS
        invariant Reserve(Now(), of, RESERVE_ATTEMPTS - attempt) == Reserve(old(Now()), of, RESERVE_ATTEMPTS)
      {
        var candidate := Sibling(of, sequence);
        sequence := sequence + 1;
        if candidate !in files {
          ghost var next := Now();
          FaultsOfSequence(next, next.sequence - 1);
          var reserved := ReserveFile(candidate);
          return if reserved then Some(candidate) else None;
        }
      }
      name := None;
    }

    method RollbackMember(i: nat) returns (ok: bool)
      requires i < |entries|
      modifies this
      ensures (Now(), ok) == RollbackEntry(old(Now()), i)
    {
      ok := true;
      if entries[i].stagedPublished {
        var removed := RemovePath(Target(entries[i]));
        if removed {
          entries := entries[i := entries[i].(stagedPublished := false)];
        } else {
          ok := false;
        }
      }
      if entries[i].backupActive {
        if entries[i].backup.None? {
          ok := false;
        } else {
          var moved := MovePath(entries[i].backup.value, Target(entries[i]), true);
          if moved {
            entries := entries[i := entries[i].(stagedPublished := false, backupActive := false, backup := None)];
          } else {
            ok := false;
          }
        }
      }
    }

    method RollbackAll() returns (restored: bool)
      modifies this
      ensures (Now(), restored) == Rollback(old(Now()))
    {
      restored := true;
      var i: nat := |entries|;
      while i > 0
        invariant i <= |entries|
        invariant RollbackFrom(Now(), i, restored) == Rollback(old(Now()))
      {
        hide RollbackEntry, Now;
        i := i - 1;
        RollbackEntrySize(Now(), i);
        var ok := RollbackMember(i);
        restored := restored && ok;
      }
    }

    method BackUpMember(i: nat) returns (progress: Progress)
      requires i < |entries|
      modifies this
      ensures (Now(), progress) == BackUpEntry(old(Now()), i)
    {
      progress := Done;
      if entries[i].destination.mode.CreateNew? {
        return;
      }
      var target := Target(entries[i]);
      var cannotInspect := TakeFault();
      if cannotInspect {
        return Stopped(Inspecting);
      }
      if target !in files {
        return;
      }
      ReserveKeepsEntries(Now(), entries[i].destination.id, RESERVE_ATTEMPTS);
      var backup := ReserveTemporarySibling(entries[i].destination.id);
      entries := entries[i := entries[i].(backup := backup)];
      if backup.None? {
        return Stopped(Reserving);
      }
      var moved := MovePath(target, backup.value, true);
      if !moved {
        var ignored := RemovePath(backup.value);
        entries := entries[i := entries[i].(backup := None)];
        return Stopped(Preparing);
      }
      entries := entries[i := entries[i].(backupActive := true)];
    }

    method StageMember(i: nat) returns (ok: bool)
      requires i < |entries|
      modifies this
      ensures (Now(), ok) == StageEntry(old(Now()), i)
    {
      if entries[i].temporary.None? {
        return false;
      }
      ok := MovePath(entries[i].temporary.value, Target(entries[i]), false);
      if ok {
        entries := entries[i := entries[i].(temporary := None, stagedPublished := true)];
      }
    }

    method CleanMember(i: nat)
      requires i < |entries|
      modifies this
      ensures Now() == CleanEntry(old(Now()), i)
    {
      if entries[i].backupActive && entries[i].backup.Some? {
        var ignored := RemovePath(entries[i].backup.value);
        entries := entries[i := entries[i].(backup := None, backupActive := false)];
      }
      entries := entries[i := entries[i].(stagedPublished := false)];
    }

    method BackUpAll() returns (progress: Progress)
      modifies this
      ensures (Now(), progress) == BackUpFrom(old(Now()), 0)
    {
      var i := 0;
      while i < |entries|
        invariant i <= |entries|
        invariant BackUpFrom(Now(), i) == BackUpFrom(old(Now()), 0)
      {
        hide BackUpEntry;
        progress := BackUpMember(i);
        if progress.Stopped? {
          return;
        }
        i := i + 1;
      }
      progress := Done;
    }

    method StageAll() returns (progress: Progress)
      modifies this
      ensures (Now(), progress) == StageFrom(old(Now()), 0)
    {
      var i := 0;
      while i < |entries|
        invariant i <= |entries|
        invariant StageFrom(Now(), i) == StageFrom(old(Now()), 0)
      {
        hide StageEntry;
        var moved := StageMember(i);
        if !moved {
          return Stopped(Publishing);
        }
        i := i + 1;
      }
      progress := Done;
    }

    method CleanAll()
      modifies this
      ensures Now() == CleanFrom(old(Now()), 0)
    {
      var i := 0;
      while i < |entries|
        invariant i <= |entries|
        invariant CleanFrom(Now(), i) == CleanFrom(old(Now()), 0)
      {
        hide CleanEntry;
        CleanMember(i);
        i := i + 1;
      }
    }

    method PublishAll() returns (outcome: Outcome)
      modifies this
      ensures (Now(), outcome) == Publish(old(Now()))
    {
      hide BackUpFrom, StageFrom, CleanFrom, Rollback;
      if published || entries == [] {
        return NotPublishable;
      }
      var progress := BackUpAll();
      if progress.Done? {
        progress := StageAll();
      }
      if progress.Stopped? {
        var restored := RollbackAll();
        return Failed(progress.stage, restored);
      }
      CleanAll();
      published := true;
      outcome := Published;
    }

    method DiscardMember(i: nat)
      requires i < |entries|
      modifies this
      ensures Now() == DiscardEntry(old(Now()), i)
    {
      if entries[i].temporary.Some? {
        var ignored := RemovePath(entries[i].temporary.value);
        entries := entries[i := entries[i].(temporary := None)];
      }
      if !entries[i].backupActive && entries[i].backup.Some? {
        var ignored := RemovePath(entries[i].backup.value);
        entries := entries[i := entries[i].(backup := None)];
      }
    }

    method DiscardAll()
      modifies this
      ensures Now() == Discard(old(Now()))
    {
      hide DiscardEntry, Rollback;
      if published {
        return;
      }
      var ignoredRollback := RollbackAll();
      ghost var rolledBack := Now();
      var i := 0;
      while i < |entries|
        invariant i <= |entries|
        invariant DiscardFrom(Now(), i) == DiscardFrom(rolledBack, 0)
      {
        DiscardMember(i);
        i := i + 1;
      }
      entries := [];
    }

    method BeginMember(d: Destination) returns (error: Option<BeginError>)
      modifies this
      ensures (Now(), error) == BeginEntry(old(Now()), d)
    {
      if HasTarget(entries, d.id) {
        return Some(Duplicate);
      }
      if d.mode.CreateNew? {
        var cannotInspect := TakeFault();
        if cannotInspect {
          return Some(CannotInspect);
        }
        if Plain(d.id) in files {
          return Some(AlreadyExists);
        }
      }
      var temporary := ReserveTemporarySibling(d.id);
      if temporary.None? {
        return Some(CannotReserve);
      }
      entries := entries + [Entry(d, temporary, None, false, false)];
      error := None;
    }

    method BeginAll(destinations: seq<Destination>) returns (error: Option<BeginError>)
      modifies this
      ensures (Now(), error) == Begin(old(Now()), destinations)
    {
      hide BeginEntry, Discard;
      entries, published := [], false;
      if destinations == [] {
        return Some(NoDestinations);
      }
      ghost var empty := Now();
      var i := 0;
      while i < |destinations|
        invariant i <= |destinations|
        invariant BeginFrom(Now(), destinations, i) == BeginFrom(empty, destinations, 0)
      {
        error := BeginMember(destinations[i]);
        if error.Some? {
          DiscardAll();
          return;
        }
        i := i + 1;
      }
      error := None;
    }
  }
}
