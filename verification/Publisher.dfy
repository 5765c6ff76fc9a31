/** Crash-safe artifact publication: a swap record, two renames, and a recovery that can itself crash.
    The disk decides at every step whether the step works, raises, is interrupted, or the machine
    stops, before or after the step, or halfway through a deletion or a file write. */
module Publisher {

  datatype Name = Target | Staging(run: nat) | Backup(run: nat) | Swap(run: nat) | Corrupt(run: nat)

  /** A complete artifact, a directory that fails verification, a complete swap record naming its own
      staging and backup, or a swap record cut short. */
  datatype Content = Artifact(id: nat) | Partial | SwapRecord | Torn

  type Files = map<Name, Content>

  datatype Fault = Fine | Raises | Interrupts | RaisesHalfway | StopsBefore | StopsHalfway | StopsAfter

  /** `Interrupted` is an exception the inner handlers do not catch; `Stopped` runs nothing more. */
  datatype Status = Done | Raised | Interrupted | Stopped

  predicate IsArtifact(files: Files, n: Name) {
    n in files && files[n].Artifact?
  }

  predicate Recorded(files: Files, run: nat) {
    Swap(run) in files && files[Swap(run)] == SwapRecord
  }

  predicate RecordedBackup(files: Files, run: nat, id: nat) {
    Recorded(files, run) && Backup(run) in files && files[Backup(run)] == Artifact(id)
  }

  /** This artifact is at the target, or in a backup a swap record names. */
  ghost predicate Holds(files: Files, id: nat) {
    (Target in files && files[Target] == Artifact(id)) || exists run :: RecordedBackup(files, run, id)
  }

  ghost predicate Survives(files: Files) {
    exists id :: Holds(files, id)
  }

  /** Going from one disk to another loses no last artifact and brings up none but `added` ones. */
  ghost predicate Keeps(before: Files, after: Files, added: set<nat>) {
    && (Survives(before) ==> Survives(after))
    && forall id :: Holds(after, id) ==> Holds(before, id) || id in added
  }

  ghost predicate NoSwapFiles(files: Files) {
    forall run :: Swap(run) !in files
  }

  ghost predicate OneSwapFile(files: Files) {
    forall x, y :: Swap(x) in files && Swap(y) in files ==> x == y
  }

  function Moved(files: Files, from: Name, to: Name): Files
    requires from in files
  {
    (files - {from})[to := files[from]]
  }

  // ----- what each kind of step keeps

  lemma SameAnswersKeep(before: Files, after: Files)
    requires forall id :: Holds(before, id) <==> Holds(after, id)
    ensures Keeps(before, after, {})
  {
    if Survives(before) {
      var id :| Holds(before, id);
      assert Holds(after, id);
    }
  }

  /** Staging and corrupt directories, and backups without a record, do not matter. */
  lemma AsidesDoNotMatter(before: Files, after: Files, n: Name)
    requires n.Staging? || n.Corrupt? || (n.Backup? && !Recorded(before, n.run))
    requires forall m | m != n :: (m in before <==> m in after) && (m in before ==> after[m] == before[m])
    ensures Keeps(before, after, {})
  {
    forall id
      ensures Holds(before, id) <==> Holds(after, id)
    {
      forall run
        ensures RecordedBackup(before, run, id) <==> RecordedBackup(after, run, id)
      {
        assert Swap(run) != n;
      }
    }
    SameAnswersKeep(before, after);
  }

  /** With a valid target, backups, records and asides may go. */
  lemma ValidTargetIsEnough(before: Files, after: Files, n: Name)
    requires IsArtifact(before, Target) && n != Target
    requires n in after ==> !after[n].Artifact? && !after[n].SwapRecord?
    requires forall m | m != n :: (m in before <==> m in after) && (m in before ==> after[m] == before[m])
    ensures Keeps(before, after, {})
  {
    assert Holds(after, after[Target].id);
    forall id | Holds(after, id)
      ensures Holds(before, id)
    {
      if after[Target] != Artifact(id) {
        var run :| RecordedBackup(after, run, id);
        assert RecordedBackup(before, run, id);
      }
    }
  }

  /** Restoring a recorded backup to an absent target. */
  lemma RestoringKeeps(files: Files, run: nat)
    requires Target !in files && Recorded(files, run) && IsArtifact(files, Backup(run))
    ensures Keeps(files, Moved(files, Backup(run), Target), {}) && IsArtifact(Moved(files, Backup(run), Target), Target)
  {
    var after := Moved(files, Backup(run), Target);
    var saved := files[Backup(run)].id;
    assert RecordedBackup(files, run, saved);
    assert Holds(after, saved);
    forall id | Holds(after, id)
      ensures Holds(files, id)
    {
      if id != saved {
        var other :| RecordedBackup(after, other, id);
        assert RecordedBackup(files, other, id);
      }
    }
  }

  /** Moving the target to the backup its record names changes nothing that counts. */
  lemma MovingAsideKeeps(files: Files, run: nat)
    requires Target in files && Recorded(files, run) && Backup(run) !in files
    ensures Keeps(files, Moved(files, Target, Backup(run)), {})
  {
    var after := Moved(files, Target, Backup(run));
    forall id
      ensures Holds(files, id) <==> Holds(after, id)
    {
      assert RecordedBackup(after, run, id) <==> files[Target] == Artifact(id);
      forall other | other != run
        ensures RecordedBackup(files, other, id) <==> RecordedBackup(after, other, id)
      {
      }
    }
    SameAnswersKeep(files, after);
  }

  /** A target that must go may go while a recorded backup is valid. */
  lemma DroppingTargetKeeps(files: Files, run: nat, corrupt: Name)
    requires Target in files && Recorded(files, run) && IsArtifact(files, Backup(run)) && corrupt.Corrupt?
    ensures Keeps(files, Moved(files, Target, corrupt), {})
  {
    var after := Moved(files, Target, corrupt);
    assert RecordedBackup(after, run, files[Backup(run)].id);
    assert Holds(after, files[Backup(run)].id);
    forall id | Holds(after, id)
      ensures Holds(files, id)
    {
      var other :| RecordedBackup(after, other, id);
      assert RecordedBackup(files, other, id);
    }
  }

  /** Installing a verified staging directory at an absent target. */
  lemma InstallingKeeps(files: Files, from: Name)
    requires Target !in files && IsArtifact(files, from) && (from.Staging? || from.Corrupt?)
    ensures var after := Moved(files, from, Target);
            Keeps(files, after, {files[from].id}) && IsArtifact(after, Target)
  {
    var after := Moved(files, from, Target);
    assert Holds(after, files[from].id);
    forall id | Holds(after, id)
      ensures Holds(files, id) || id == files[from].id
    {
      if id != files[from].id {
        var run :| RecordedBackup(after, run, id);
        assert RecordedBackup(files, run, id);
      }
    }
  }

  /** A new record for a backup that does not exist yet. */
  lemma NewRecordKeeps(files: Files, run: nat, content: Content)
    requires Swap(run) !in files && Backup(run) !in files && !content.Artifact?
    ensures Keeps(files, files[Swap(run) := content], {})
  {
    var after := files[Swap(run) := content];
    forall id
      ensures Holds(files, id) <==> Holds(after, id)
    {
      forall other
        ensures RecordedBackup(files, other, id) <==> RecordedBackup(after, other, id)
      {
      }
    }
    SameAnswersKeep(files, after);
  }

  lemma KeepsIsTransitive(a: Files, b: Files, c: Files, added: set<nat>)
    requires Keeps(a, b, added) && Keeps(b, c, added)
    ensures Keeps(a, c, added)
  {
  }

  lemma KeepsNothingNew(a: Files, b: Files, added: set<nat>)
    requires Keeps(a, b, {})
    ensures Keeps(a, b, added)
  {
  }

  // ----- the disk

  /** Nothing goes wrong but one exception, after which nothing more does. */
  ghost predicate OneException(faults: seq<Fault>) {
    faults != [] && faults[|faults| - 1] == Raises && forall i | 0 <= i < |faults| - 1 :: faults[i] == Fine
  }

  /** What a step makes of that: the exception is still to come, or it was this one. */
  ghost predicate Afterwards(after: seq<Fault>, s: Status) {
    if s == Done then after == [] || OneException(after) else s == Raised && after == []
  }

  lemma FirstOfOne(faults: seq<Fault>)
    ensures OneException(faults) ==>
              && (faults[0] == Fine || faults[0] == Raises)
              && (faults[0] == Fine ==> OneException(faults[1..]))
              && (faults[0] == Raises ==> faults[1..] == [])
  {
  }

  class Disk {
    var files: Files
    var faults: seq<Fault>
    /** Suffixes are never reused. */
    var nextRun: nat
    /** Verification of a valid artifact never fails. */
    const reliable: bool

    ghost predicate Valid()
      reads this
    {
      forall n | n in files && n != Target :: n.run < nextRun
    }

    constructor (files: Files, faults: seq<Fault>, nextRun: nat, reliable: bool)
      requires forall n | n in files && n != Target :: n.run < nextRun
      ensures Valid() && this.files == files && this.reliable == reliable
    {
      this.files, this.faults, this.nextRun, this.reliable := files, faults, nextRun, reliable;
    }

    method NextFault() returns (fault: Fault)
      modifies this`faults
      ensures old(faults) == [] ==> fault.Fine? && faults == []
      ensures old(faults) != [] ==> fault == old(faults)[0] && faults == old(faults)[1..]
    {
      if faults == [] {
        return Fine;
      }
      fault := faults[0];
      faults := faults[1..];
    }

    method FreshRun() returns (run: nat)
      requires Valid()
      modifies this`nextRun
      ensures Valid() && nextRun == old(nextRun) + 1 && run == old(nextRun)
    {
      run := nextRun;
      nextRun := nextRun + 1;
    }

    /** Atomic: the name moves entirely or not at all. */
    method Rename(from: Name, to: Name) returns (s: Status)
      requires Valid() && (to != Target ==> to.run < nextRun)
      modifies this`files, this`faults
      ensures Valid()
      ensures s == Done ==> from in old(files) && to !in old(files) && files == Moved(old(files), from, to)
      ensures s == Raised || s == Interrupted ==> files == old(files)
      ensures old(faults) == [] ==> faults == [] && (s == Done <==> from in old(files) && to !in old(files))
      ensures files == old(files) || (from in old(files) && to !in old(files) && files == Moved(old(files), from, to))
      ensures OneException(old(faults)) && from in old(files) && to !in old(files) ==> Afterwards(faults, s)
      ensures old(faults) != [] ==> faults == old(faults)[1..]
    {
      FirstOfOne(faults);
      var fault := NextFault();
      if from !in files || to in files || fault.Raises? || fault.RaisesHalfway? {
        return Raised;
      }
      if fault.Interrupts? {
        return Interrupted;
      }
      if fault.StopsBefore? || fault.StopsHalfway? {
        return Stopped;
      }
      files := Moved(files, from, to);
      return if fault.StopsAfter? then Stopped else Done;
    }

    /** Deleting a tree passes through a partial, invalid directory. */
    method RemoveTree(n: Name) returns (s: Status)
      requires Valid() && n in files
      modifies this`files, this`faults
      ensures Valid() && (old(faults) == [] ==> faults == [] && s == Done)
      ensures s == Done ==> files == old(files) - {n}
      ensures files == old(files) || files == old(files)[n := Partial] || files == old(files) - {n}
    {
      var fault := NextFault();
      match fault {
        case Raises => return Raised;
        case Interrupts => return Interrupted;
        case RaisesHalfway =>
          files := files[n := Partial];
          return Raised;
        case StopsBefore => return Stopped;
        case StopsHalfway =>
          files := files[n := Partial];
          return Stopped;
        case StopsAfter =>
          files := files - {n};
          return Stopped;
        case Fine =>
          files := files - {n};
          return Done;
      }
    }

    method Unlink(n: Name) returns (s: Status)
      requires Valid() && n in files
      modifies this`files, this`faults
      ensures Valid() && (old(faults) == [] ==> faults == [] && s == Done)
      ensures s == Done ==> files == old(files) - {n}
      ensures files == old(files) || files == old(files) - {n}
    {
      var fault := NextFault();
      if fault.Raises? || fault.RaisesHalfway? {
        return Raised;
      }
      if fault.Interrupts? {
        return Interrupted;
      }
      if fault.StopsBefore? || fault.StopsHalfway? {
        return Stopped;
      }
      files := files - {n};
      return if fault.StopsAfter? then Stopped else Done;
    }

    /** Creating a file or directory can leave `half` of it. */
    method Create(n: Name, half: Content, whole: Content) returns (s: Status)
      requires Valid() && n != Target && n !in files && n.run < nextRun
      modifies this`files, this`faults
      ensures Valid() && (old(faults) == [] ==> faults == [] && s == Done)
      ensures s == Done ==> files == old(files)[n := whole]
      ensures files == old(files) || files == old(files)[n := half] || files == old(files)[n := whole]
      ensures OneException(old(faults)) ==> Afterwards(faults, s)
    {
      FirstOfOne(faults);
      var fault := NextFault();
      match fault {
        case Raises => return Raised;
        case Interrupts => return Interrupted;
        case RaisesHalfway =>
          files := files[n := half];
          return Raised;
        case StopsBefore => return Stopped;
        case StopsHalfway =>
          files := files[n := half];
          return Stopped;
        case StopsAfter =>
          files := files[n := whole];
          return Stopped;
        case Fine =>
          files := files[n := whole];
          return Done;
      }
    }

    /** Filling a directory leaves it partial until the last file is in. */
    method Fill(n: Name, whole: Content) returns (s: Status)
      requires Valid() && n in files
      modifies this`files, this`faults
      ensures Valid() && (old(faults) == [] ==> faults == [] && s == Done)
      ensures s == Done ==> files == old(files)[n := whole]
      ensures files == old(files) || files == old(files)[n := Partial] || files == old(files)[n := whole]
      ensures OneException(old(faults)) ==> Afterwards(faults, s)
    {
      FirstOfOne(faults);
      var fault := NextFault();
      match fault {
        case Raises => return Raised;
        case Interrupts => return Interrupted;
        case RaisesHalfway =>
          files := files[n := Partial];
          return Raised;
        case StopsBefore => return Stopped;
        case StopsHalfway =>
          files := files[n := Partial];
          return Stopped;
        case StopsAfter =>
          files := files[n := whole];
          return Stopped;
        case Fine =>
          files := files[n := whole];
          return Done;
      }
    }

    /** Opening verifies every member; a read error also counts as invalid. */
    method Opens(n: Name) returns (valid: bool)
      modifies this`faults
      ensures old(faults) == [] ==> faults == [] && (valid <==> IsArtifact(files, n))
      ensures valid ==> IsArtifact(files, n)
      ensures reliable && IsArtifact(files, n) ==> valid
      ensures !reliable && old(faults) != [] && old(faults)[0] != Fine ==> !valid
      ensures OneException(old(faults)) ==>
                faults == [] || (OneException(faults) && (IsArtifact(files, n) ==> valid))
    {
      FirstOfOne(faults);
      var fault := NextFault();
      valid := n in files && files[n].Artifact? && (reliable || fault.Fine?);
    }
  }

  // ----- recovery

  /** No swap record was touched. */
  ghost predicate SameSwaps(before: Files, after: Files) {
    forall run :: (Swap(run) in before <==> Swap(run) in after)
               && (Swap(run) in before ==> after[Swap(run)] == before[Swap(run)])
  }

  ghost predicate NoNewSwaps(before: Files, after: Files) {
    forall run :: Swap(run) in after ==> Swap(run) in before && after[Swap(run)] == before[Swap(run)]
  }

  /** Puts a valid artifact back at the target if the recorded backup is needed for that. */
  method RestoreTarget(disk: Disk, run: nat) returns (s: Status, targetValid: bool)
    requires disk.Valid() && Recorded(disk.files, run)
    modifies disk
    ensures disk.Valid() && Keeps(old(disk.files), disk.files, {}) && SameSwaps(old(disk.files), disk.files)
    ensures old(disk.faults) == [] ==> s == Done && disk.faults == []
    ensures s == Done && targetValid ==> IsArtifact(disk.files, Target)
    ensures s == Done && disk.reliable ==>
              (targetValid <==> IsArtifact(old(disk.files), Target) || IsArtifact(old(disk.files), Backup(run)))
    ensures disk.reliable && IsArtifact(old(disk.files), Target) ==> disk.files == old(disk.files)
    ensures s == Done && disk.reliable && !IsArtifact(old(disk.files), Target)
            && IsArtifact(old(disk.files), Backup(run)) ==>
              disk.files[Target] == old(disk.files)[Backup(run)]
    ensures OneException(old(disk.faults)) && Target in old(disk.files) ==> Target in disk.files
  {
    hide OneException;
    SameAnswersKeep(disk.files, disk.files);
    var backupValid := disk.Opens(Backup(run));
    targetValid := disk.Opens(Target);
    if Target !in disk.files && backupValid {
      RestoringKeeps(disk.files, run);
      s := disk.Rename(Backup(run), Target);
      targetValid := true;
    } else if Target in disk.files && backupValid && !targetValid {
      s := ReplaceTarget(disk, run);
      targetValid := true;
    } else {
      s := Done;
    }
  }

  /** Sets an invalid target aside, restores the backup, checks it, and deletes what was set aside. */
  method ReplaceTarget(disk: Disk, run: nat) returns (s: Status)
    requires disk.Valid() && Recorded(disk.files, run)
    requires Target in disk.files && IsArtifact(disk.files, Backup(run))
    modifies disk
    ensures disk.Valid() && Keeps(old(disk.files), disk.files, {}) && SameSwaps(old(disk.files), disk.files)
    ensures s == Done ==> IsArtifact(disk.files, Target) && disk.files[Target] == old(disk.files)[Backup(run)]
    ensures old(disk.faults) == [] ==> s == Done && disk.faults == []
    ensures OneException(old(disk.faults)) ==> Target in disk.files
  {
    hide OneException, Keeps;
    ghost var start := disk.files;
    SameAnswersKeep(start, start);
    var suffix := disk.FreshRun();
    var corrupt := Corrupt(suffix);
    DroppingTargetKeeps(start, run, corrupt);
    s := disk.Rename(Target, corrupt);
    if s != Done {
      return;
    }
    s := RestoreOrUndo(disk, run, corrupt, start);
    if s != Done {
      return;
    }
    ghost var restored := disk.files;
    s := CheckAndDiscard(disk, corrupt);
    KeepsIsTransitive(start, restored, disk.files, {});
  }

  /** The restored target is verified before what was set aside is deleted. */
  method CheckAndDiscard(disk: Disk, corrupt: Name) returns (s: Status)
    requires disk.Valid() && corrupt.Corrupt? && corrupt in disk.files && IsArtifact(disk.files, Target)
    modifies disk
    ensures disk.Valid() && Keeps(old(disk.files), disk.files, {}) && SameSwaps(old(disk.files), disk.files)
    ensures IsArtifact(disk.files, Target) && disk.files[Target] == old(disk.files)[Target]
    ensures s == Done ==> corrupt !in disk.files
    ensures old(disk.faults) == [] ==> s == Done && disk.faults == []
  {
    hide Keeps;
    ghost var restored := disk.files;
    SameAnswersKeep(restored, restored);
    var verified := disk.Opens(Target);
    if !verified {
      return Raised;
    }
    AsidesDoNotMatter(restored, restored[corrupt := Partial], corrupt);
    AsidesDoNotMatter(restored, restored - {corrupt}, corrupt);
    s := disk.RemoveTree(corrupt);
  }

  /** The backup goes to the target; if that raises, what was set aside goes back. */
  method RestoreOrUndo(disk: Disk, run: nat, corrupt: Name, ghost start: Files) returns (s: Status)
    requires disk.Valid() && Target in start && Recorded(start, run) && IsArtifact(start, Backup(run))
    requires corrupt.Corrupt? && corrupt !in start && disk.files == Moved(start, Target, corrupt)
    requires Keeps(start, disk.files, {})
    modifies disk
    ensures disk.Valid() && Keeps(start, disk.files, {}) && SameSwaps(old(disk.files), disk.files)
    ensures s == Done ==> disk.files == Moved(old(disk.files), Backup(run), Target)
    ensures old(disk.faults) == [] ==> s == Done && disk.faults == []
    ensures OneException(old(disk.faults)) ==> if s == Done then Afterwards(disk.faults, s) else disk.files == start
  {
    hide OneException, Keeps;
    ghost var aside := disk.files;
    RestoringKeeps(aside, run);
    SameAnswersKeep(aside, aside);
    s := disk.Rename(Backup(run), Target);
    KeepsIsTransitive(start, aside, disk.files, {});
    if s == Raised || s == Interrupted {
      UndoKeeps(start, run, corrupt);
      var undone := disk.Rename(corrupt, Target);
      return if undone == Stopped then Stopped else s;
    }
  }

  /** Moving the set-aside directory back is the original disk again. */
  lemma UndoKeeps(files: Files, run: nat, corrupt: Name)
    requires Target in files && Recorded(files, run) && IsArtifact(files, Backup(run)) && corrupt.Corrupt?
             && corrupt !in files
    ensures var aside := Moved(files, Target, corrupt);
            Moved(aside, corrupt, Target) == files && Keeps(files, files, {})
  {
    SameAnswersKeep(files, files);
  }

  /** Deletes one leftover while the target is valid. */
  method RemoveLeftover(disk: Disk, n: Name) returns (s: Status)
    requires disk.Valid() && IsArtifact(disk.files, Target) && (n.Backup? || n.Staging?)
    modifies disk
    ensures disk.Valid() && Keeps(old(disk.files), disk.files, {}) && SameSwaps(old(disk.files), disk.files)
    ensures IsArtifact(disk.files, Target) && disk.files[Target] == old(disk.files)[Target]
    ensures forall m :: m in disk.files ==> m in old(disk.files)
    ensures s == Done ==> n !in disk.files
    ensures old(disk.faults) == [] ==> s == Done && disk.faults == [] && disk.files == old(disk.files) - {n}
  {
    SameAnswersKeep(disk.files, disk.files);
    ValidTargetIsEnough(disk.files, disk.files[n := Partial], n);
    ValidTargetIsEnough(disk.files, disk.files - {n}, n);
    s := Done;
    if n in disk.files {
      s := disk.RemoveTree(n);
    }
  }

  /** The tail of recovering one record. */
  method FinishRecord(disk: Disk, run: nat) returns (s: Status)
    requires disk.Valid() && IsArtifact(disk.files, Target) && Swap(run) in disk.files
    modifies disk
    ensures disk.Valid() && Keeps(old(disk.files), disk.files, {}) && NoNewSwaps(old(disk.files), disk.files)
    ensures IsArtifact(disk.files, Target) && disk.files[Target] == old(disk.files)[Target]
    ensures old(disk.faults) == [] ==> s == Done && disk.faults == []
    ensures s == Done ==> Backup(run) !in disk.files && Staging(run) !in disk.files && Swap(run) !in disk.files
  {
    ghost var start := disk.files;
    s := RemoveLeftover(disk, Backup(run));
    if s != Done {
      return;
    }
    ghost var second := disk.files;
    s := RemoveLeftover(disk, Staging(run));
    KeepsIsTransitive(start, second, disk.files, {});
    if s != Done {
      return;
    }
    ghost var third := disk.files;
    ValidTargetIsEnough(third, third - {Swap(run)}, Swap(run));
    SameAnswersKeep(third, third);
    s := disk.Unlink(Swap(run));
    KeepsIsTransitive(start, third, disk.files, {});
  }

  /** Recovery of one swap record; a torn one makes recovery raise. */
  method RecoverRecord(disk: Disk, run: nat) returns (s: Status)
    requires disk.Valid() && Swap(run) in disk.files
    modifies disk
    ensures disk.Valid() && Keeps(old(disk.files), disk.files, {}) && NoNewSwaps(old(disk.files), disk.files)
    ensures old(disk.faults) == [] && Recorded(old(disk.files), run) ==> s == Done && disk.faults == []
    ensures s == Done && disk.reliable
            && (IsArtifact(old(disk.files), Target) || IsArtifact(old(disk.files), Backup(run))) ==>
              && IsArtifact(disk.files, Target)
              && Backup(run) !in disk.files && Staging(run) !in disk.files && Swap(run) !in disk.files
    ensures disk.reliable ==> ValidTargetStays(old(disk.files), disk.files)
    ensures s == Done && disk.reliable && !IsArtifact(old(disk.files), Target)
            && IsArtifact(old(disk.files), Backup(run)) ==>
              disk.files[Target] == old(disk.files)[Backup(run)]
    ensures OneException(old(disk.faults)) && Target in old(disk.files) ==> Target in disk.files
  {
    hide OneException;
    SameAnswersKeep(disk.files, disk.files);
    if disk.files[Swap(run)] != SwapRecord {
      return Raised;
    }
    ghost var start := disk.files;
    var targetValid;
    s, targetValid := RestoreTarget(disk, run);
    if s != Done || !targetValid {
      return;
    }
    ghost var middle := disk.files;
    s := FinishRecord(disk, run);
    KeepsIsTransitive(start, middle, disk.files, {});
  }

  /** The records found when recovery starts. */
  function SwapRuns(files: Files): set<nat> {
    set n | n in files && n.Swap? :: n.run
  }

  ghost predicate NoTornRecord(files: Files) {
    forall run | Swap(run) in files :: Recorded(files, run)
  }

  lemma NoSwapFilesMeansNoRuns(files: Files)
    ensures NoSwapFiles(files) <==> SwapRuns(files) == {}
  {
    forall run
      ensures Swap(run) in files <==> run in SwapRuns(files)
    {
    }
  }

  /** A valid target is never touched. */
  predicate ValidTargetStays(before: Files, after: Files) {
    IsArtifact(before, Target) ==> IsArtifact(after, Target) && after[Target] == before[Target]
  }

  /** Recovery goes through the records found at its start; any order will do. However it ends, no
      artifact is lost and a valid target is not touched. If it completes with reliable reads from a disk that
      held an artifact and at most one record, the target is valid, the recorded backup where it was not before,
      and no record, staging or recorded backup is left. */
  method Recover(disk: Disk) returns (s: Status)
    requires disk.Valid()
    modifies disk
    ensures disk.Valid() && Keeps(old(disk.files), disk.files, {}) && NoNewSwaps(old(disk.files), disk.files)
    ensures old(disk.faults) == [] && NoTornRecord(old(disk.files)) ==> s == Done && disk.faults == []
    ensures NoSwapFiles(old(disk.files)) ==>
              s == Done && disk.files == old(disk.files) && disk.faults == old(disk.faults)
    ensures s == Done && disk.reliable && Survives(old(disk.files)) && OneSwapFile(old(disk.files)) ==>
              && IsArtifact(disk.files, Target) && NoSwapFiles(disk.files)
              && forall run | Swap(run) in old(disk.files) ::
                   && Backup(run) !in disk.files && Staging(run) !in disk.files
                   && (!IsArtifact(old(disk.files), Target) ==>
                         && Backup(run) in old(disk.files)
                         && disk.files[Target] == old(disk.files)[Backup(run)])
    ensures disk.reliable ==> ValidTargetStays(old(disk.files), disk.files)
  {
    ghost var start := disk.files;
    SameAnswersKeep(start, start);
    var todo := SwapRuns(disk.files);
    NoSwapFilesMeansNoRuns(start);
    ghost var first := true;
    while todo != {}
      invariant disk.Valid() && Keeps(start, disk.files, {}) && NoNewSwaps(start, disk.files)
      invariant first ==> disk.files == start && todo == SwapRuns(start) && disk.faults == old(disk.faults)
      invariant old(disk.faults) == [] && NoTornRecord(start) ==> disk.faults == []
      invariant todo != {} || !first ==> !NoSwapFiles(start)
      invariant forall run | run in todo :: Swap(run) in start
      invariant !first && disk.reliable && Survives(start) && OneSwapFile(start) ==>
                  && todo == {} && IsArtifact(disk.files, Target) && NoSwapFiles(disk.files)
                  && forall run | Swap(run) in start ::
                       && Backup(run) !in disk.files && Staging(run) !in disk.files
                       && (!IsArtifact(start, Target) ==>
                             Backup(run) in start && disk.files[Target] == start[Backup(run)])
      invariant disk.reliable ==> ValidTargetStays(start, disk.files)
      decreases todo
    {
      var run :| run in todo;
      todo := todo - {run};
      if Swap(run) in disk.files {
        ghost var before := disk.files;
        s := RecoverRecord(disk, run);
        KeepsIsTransitive(start, before, disk.files, {});
        if first && disk.reliable && Survives(start) && OneSwapFile(start) {
          TheOnlyRecordCounts(start, run);
        }
        if s != Done {
          return;
        }
      }
      first := false;
    }
    NoRecordsMeansTarget(start);
    s := Done;
  }

  lemma TheOnlyRecordCounts(files: Files, run: nat)
    requires Survives(files) && OneSwapFile(files) && Swap(run) in files
    ensures IsArtifact(files, Target) || (Recorded(files, run) && IsArtifact(files, Backup(run)))
    ensures SwapRuns(files) == {run}
  {
    var id :| Holds(files, id);
    if files[if Target in files then Target else Swap(run)] != Artifact(id) {
      var other :| RecordedBackup(files, other, id);
      assert other == run;
    }
    assert Swap(run) in files;
  }

  lemma NoRecordsMeansTarget(files: Files)
    ensures Survives(files) && SwapRuns(files) == {} ==> IsArtifact(files, Target) && NoSwapFiles(files)
  {
    if SwapRuns(files) == {} {
      forall run
        ensures Swap(run) !in files
      {
        assert Swap(run) in files ==> run in SwapRuns(files);
      }
    }
  }

  // ----- publication

  datatype Policy = ERROR | SKIP | OVERWRITE

  /** What the caller's builder leaves in the staging directory, or an exception. */
  datatype Build = Built(content: Content) | BuildRaises(left: Content)

  datatype Outcome = Published | Skipped | Refused | Failed(status: Status)

  /** The artifact this attempt may bring up. */
  function NewIds(build: Build): set<nat> {
    if build.Built? && build.content.Artifact? then {build.content.id} else {}
  }

  predicate NewAtTarget(files: Files, build: Build) {
    IsArtifact(files, Target) && files[Target].id in NewIds(build)
  }

  /** Renames the verified staging directory to an absent target and checks it there. */
  method Install(disk: Disk, staging: Name, ghost build: Build) returns (s: Status)
    requires disk.Valid() && staging.Staging? && Target !in disk.files && IsArtifact(disk.files, staging)
    requires disk.files[staging].id in NewIds(build)
    modifies disk
    ensures disk.Valid() && Keeps(old(disk.files), disk.files, NewIds(build)) && SameSwaps(old(disk.files), disk.files)
    ensures s == Done ==> NewAtTarget(disk.files, build)
    ensures old(disk.faults) == [] ==> s == Done && disk.faults == []
    ensures disk.files == old(disk.files) || disk.files == Moved(old(disk.files), staging, Target)
    ensures OneException(old(disk.faults)) ==> Afterwards(disk.faults, s)
    ensures !disk.reliable && |old(disk.faults)| == 2 && OneException(old(disk.faults)) ==> s == Raised
  {
    SameAnswersKeep(disk.files, disk.files);
    KeepsNothingNew(disk.files, disk.files, NewIds(build));
    InstallingKeeps(disk.files, staging);
    s := disk.Rename(staging, Target);
    if s == Done {
      var verified := disk.Opens(Target);
      s := if verified then Done else Raised;
    }
  }

  /** Replaces an existing target: record, move aside, install, drop the record, drop the backup. */
  method Replace(disk: Disk, run: nat, build: Build) returns (s: Status)
    requires disk.Valid() && Target in disk.files && IsArtifact(disk.files, Staging(run)) && run < disk.nextRun
    requires disk.files[Staging(run)].id in NewIds(build)
    requires Swap(run) !in disk.files && Backup(run) !in disk.files
    modifies disk
    ensures disk.Valid() && Keeps(old(disk.files), disk.files, NewIds(build))
    ensures NoSwapFiles(old(disk.files)) ==> OneSwapFile(disk.files)
    ensures s == Done ==> NewAtTarget(disk.files, build)
    ensures old(disk.faults) == [] ==>
              s == Done && disk.faults == []
              && disk.files == (old(disk.files) - {Staging(run)})[Target := old(disk.files)[Staging(run)]]
    ensures OneException(old(disk.faults)) ==> Target in disk.files
  {
    hide Keeps, NewIds, NewAtTarget, OneException;
    ghost var start := disk.files;
    SameAnswersKeep(start, start);
    NewRecordKeeps(start, run, Torn);
    NewRecordKeeps(start, run, SwapRecord);
    s := disk.Create(Swap(run), Torn, SwapRecord);
    ghost var recorded := disk.files;
    KeepsNothingNew(start, recorded, NewIds(build));
    if s != Done {
      return;
    }
    s := Exchange(disk, run, build);
    KeepsIsTransitive(start, recorded, disk.files, NewIds(build));
  }

  /** The steps after the record is written. */
  method Exchange(disk: Disk, run: nat, build: Build) returns (s: Status)
    requires disk.Valid() && Target in disk.files && IsArtifact(disk.files, Staging(run)) && run < disk.nextRun
    requires disk.files[Staging(run)].id in NewIds(build)
    requires Recorded(disk.files, run) && Backup(run) !in disk.files
    modifies disk
    ensures disk.Valid() && Keeps(old(disk.files), disk.files, NewIds(build)) && NoNewSwaps(old(disk.files), disk.files)
    ensures s == Done ==> NewAtTarget(disk.files, build)
    ensures old(disk.faults) == [] ==>
              s == Done && disk.faults == []
              && disk.files == (old(disk.files) - {Staging(run), Swap(run)})[Target := old(disk.files)[Staging(run)]]
    ensures OneException(old(disk.faults)) ==> Target in disk.files
  {
    hide OneException;
    ghost var start := disk.files;
    ghost var ids := NewIds(build);
    SameAnswersKeep(start, start);
    MovingAsideKeeps(start, run);
    s := disk.Rename(Target, Backup(run));
    ghost var aside := disk.files;
    KeepsNothingNew(start, aside, ids);
    if s != Done {
      return;
    }
    s := InstallOrRollback(disk, run, build);
    KeepsIsTransitive(start, aside, disk.files, ids);
    if s != Done {
      return;
    }
    s := DropOldVersion(disk, run, start, ids);
  }

  /** With the old version in its backup: installs the new one, or puts the old one back. */
  method InstallOrRollback(disk: Disk, run: nat, build: Build) returns (s: Status)
    requires disk.Valid() && Target !in disk.files && IsArtifact(disk.files, Staging(run))
    requires disk.files[Staging(run)].id in NewIds(build)
    requires Recorded(disk.files, run) && Backup(run) in disk.files
    modifies disk
    ensures disk.Valid() && Keeps(old(disk.files), disk.files, NewIds(build)) && SameSwaps(old(disk.files), disk.files)
    ensures s == Done ==>
              NewAtTarget(disk.files, build) && disk.files == Moved(old(disk.files), Staging(run), Target)
    ensures old(disk.faults) == [] ==> s == Done && disk.faults == []
    ensures OneException(old(disk.faults)) ==> Target in disk.files
  {
    hide Keeps, OneException;
    ghost var start := disk.files;
    ghost var ids := NewIds(build);
    s := Install(disk, Staging(run), build);
    if s == Raised {
      ghost var failed := disk.files;
      s := Rollback(disk, run);
      KeepsNothingNew(failed, disk.files, ids);
      KeepsIsTransitive(start, failed, disk.files, ids);
    }
  }

  lemma PuttingBackKeeps(files: Files, run: nat)
    requires Target !in files && Recorded(files, run) && Backup(run) in files
    ensures Keeps(files, Moved(files, Backup(run), Target), {})
  {
    if IsArtifact(files, Backup(run)) {
      RestoringKeeps(files, run);
    } else {
      var after := Moved(files, Backup(run), Target);
      forall id
        ensures Holds(files, id) <==> Holds(after, id)
      {
        forall other
          ensures RecordedBackup(files, other, id) <==> RecordedBackup(after, other, id)
        {
        }
      }
      SameAnswersKeep(files, after);
    }
  }

  /** The handler of a failed installation puts the backup back if the target is absent. */
  method Rollback(disk: Disk, run: nat) returns (s: Status)
    requires disk.Valid() && Recorded(disk.files, run)
    modifies disk
    ensures disk.Valid() && SameSwaps(old(disk.files), disk.files) && Keeps(old(disk.files), disk.files, {})
    ensures s != Done
    ensures Target in old(disk.files) ==> disk.files == old(disk.files)
    ensures old(disk.faults) == [] && Target !in old(disk.files) && Backup(run) in old(disk.files) ==>
              disk.files == Moved(old(disk.files), Backup(run), Target)
  {
    SameAnswersKeep(disk.files, disk.files);
    s := Raised;
    if Target !in disk.files && Backup(run) in disk.files {
      PuttingBackKeeps(disk.files, run);
      var back := disk.Rename(Backup(run), Target);
      s := if back == Done then Raised else back;
    }
  }

  method DropOldVersion(disk: Disk, run: nat, ghost start: Files, ghost ids: set<nat>) returns (s: Status)
    requires disk.Valid() && IsArtifact(disk.files, Target) && Recorded(disk.files, run) && Backup(run) in disk.files
    requires Keeps(start, disk.files, ids)
    modifies disk
    ensures disk.Valid() && Keeps(start, disk.files, ids) && NoNewSwaps(old(disk.files), disk.files)
    ensures old(disk.faults) == [] ==>
              s == Done && disk.faults == [] && disk.files == old(disk.files) - {Swap(run)} - {Backup(run)}
    ensures IsArtifact(disk.files, Target) && disk.files[Target] == old(disk.files)[Target]
  {
    ghost var installed := disk.files;
    SameAnswersKeep(installed, installed);
    ValidTargetIsEnough(installed, installed - {Swap(run)}, Swap(run));
    s := disk.Unlink(Swap(run));
    ghost var unlinked := disk.files;
    KeepsNothingNew(installed, unlinked, ids);
    KeepsIsTransitive(start, installed, unlinked, ids);
    if s != Done {
      return;
    }
    s := RemoveLeftover(disk, Backup(run));
    KeepsNothingNew(unlinked, disk.files, ids);
    KeepsIsTransitive(start, unlinked, disk.files, ids);
  }

  lemma StagingDoesNotMatter(before: Files, run: nat, content: Content)
    ensures Keeps(before, before[Staging(run) := content], {})
    ensures Keeps(before, before - {Staging(run)}, {})
  {
    AsidesDoNotMatter(before, before[Staging(run) := content], Staging(run));
    AsidesDoNotMatter(before, before - {Staging(run)}, Staging(run));
  }

  predicate Proper(build: Build) {
    build.Built? && build.content.Artifact?
  }

  /** The guarded part of an attempt: build, verify, check that another copy fits, then install or replace. */
  method Attempt(disk: Disk, run: nat, policy: Policy, build: Build, room: bool) returns (s: Status)
    requires disk.Valid() && run < disk.nextRun && Staging(run) in disk.files
    requires Swap(run) !in disk.files && Backup(run) !in disk.files
    modifies disk
    ensures disk.Valid() && Keeps(old(disk.files), disk.files, NewIds(build))
    ensures NoSwapFiles(old(disk.files)) ==> OneSwapFile(disk.files)
    ensures s == Done ==> NewAtTarget(disk.files, build) && room
    ensures old(disk.faults) == [] && Proper(build) && room && (policy == OVERWRITE || Target !in old(disk.files)) ==>
              s == Done && disk.faults == []
              && disk.files == (old(disk.files) - {Staging(run)})[Target := build.content]
    ensures policy != OVERWRITE && Target in old(disk.files) ==>
              s != Done && disk.files - {Staging(run)} == old(disk.files) - {Staging(run)}
    ensures old(disk.faults) == []
            && (!Proper(build) || !room || (policy != OVERWRITE && Target in old(disk.files))) ==>
              s == Raised && disk.faults == [] && disk.files - {Staging(run)} == old(disk.files) - {Staging(run)}
    ensures OneException(old(disk.faults)) && Target in old(disk.files) ==> Target in disk.files
  {
    hide OneException;
    ghost var start := disk.files;
    ghost var ids := NewIds(build);
    SameAnswersKeep(start, start);
    var content := if build.Built? then build.content else build.left;
    StagingDoesNotMatter(start, run, Partial);
    StagingDoesNotMatter(start, run, content);
    s := disk.Fill(Staging(run), content);
    ghost var filled := disk.files;
    KeepsNothingNew(start, filled, ids);
    if s != Done {
      return;
    }
    var verified := disk.Opens(Staging(run));
    if build.BuildRaises? || !verified || !room {
      return Raised;
    }
    if Target !in disk.files {
      s := Install(disk, Staging(run), build);
    } else if policy != OVERWRITE {
      return Raised;
    } else {
      s := Replace(disk, run, build);
    }
    KeepsIsTransitive(start, filled, disk.files, ids);
  }

  /** An empty staging directory under a fresh suffix. */
  method OpenStaging(disk: Disk) returns (run: nat, s: Status)
    requires disk.Valid()
    modifies disk
    ensures disk.Valid() && run < disk.nextRun
    ensures Keeps(old(disk.files), disk.files, {}) && SameSwaps(old(disk.files), disk.files)
    ensures Swap(run) !in disk.files && Backup(run) !in disk.files && Staging(run) !in old(disk.files)
    ensures s == Done ==> disk.files == old(disk.files)[Staging(run) := Partial]
    ensures OneException(old(disk.faults)) ==> Afterwards(disk.faults, s)
    ensures disk.files - {Staging(run)} == old(disk.files) - {Staging(run)}
    ensures old(disk.faults) == [] ==> s == Done && disk.faults == []
  {
    ghost var start := disk.files;
    run := disk.FreshRun();
    StagingDoesNotMatter(start, run, Partial);
    SameAnswersKeep(start, start);
    s := disk.Create(Staging(run), Partial, Partial);
  }

  /** There is something at the target, and no swap was left half done. */
  ghost predicate Occupied(files: Files) {
    Target in files && NoSwapFiles(files)
  }

  /** Publication at an acceptable path. */
  method PublishAt(disk: Disk, policy: Policy, build: Build, space: bool, room: bool) returns (out: Outcome)
    requires disk.Valid()
    modifies disk
    ensures disk.Valid() && Keeps(old(disk.files), disk.files, NewIds(build))
    ensures out == Published ==> NewAtTarget(disk.files, build) && space && room
    ensures old(disk.faults) == [] && NoSwapFiles(old(disk.files)) && Proper(build) && space && room
            && (policy == OVERWRITE || Target !in old(disk.files)) ==>
              out == Published && disk.files == old(disk.files)[Target := build.content]
    ensures out == Refused ==> policy == ERROR && Target in disk.files
    ensures out == Skipped ==> policy == SKIP && IsArtifact(disk.files, Target)
    ensures policy != OVERWRITE && Occupied(old(disk.files)) ==>
              && disk.files == old(disk.files) && out != Published
              && (policy == ERROR ==> out == Refused)
              && (old(disk.faults) == [] && policy == SKIP ==>
                    out == if IsArtifact(old(disk.files), Target) then Skipped else Failed(Raised))
    ensures policy != OVERWRITE && disk.reliable && IsArtifact(old(disk.files), Target) ==>
              out != Published && IsArtifact(disk.files, Target) && disk.files[Target] == old(disk.files)[Target]
    ensures old(disk.faults) == [] && NoSwapFiles(old(disk.files)) && !(Proper(build) && space && room)
            && (policy == OVERWRITE || Target !in old(disk.files)) ==>
              out == Failed(Raised) && disk.files == old(disk.files)
    ensures disk.reliable && Survives(old(disk.files)) && OneSwapFile(old(disk.files)) ==> OneSwapFile(disk.files)
    ensures OneException(old(disk.faults)) && Occupied(old(disk.files)) ==> Target in disk.files
  {
    hide Keeps, Survives, NewIds, NewAtTarget, OneException;
    ghost var start := disk.files;
    ghost var ids := NewIds(build);
    var s := Recover(disk);
    ghost var recovered := disk.files;
    KeepsNothingNew(start, recovered, ids);
    if s != Done {
      return Failed(s);
    }
    if Target in disk.files && policy == ERROR {
      return Refused;
    }
    if Target in disk.files && policy == SKIP {
      var verified := disk.Opens(Target);
      return if verified then Skipped else Failed(Raised);
    }
    if !space {
      return Failed(Raised);
    }
    out := StageAndInstall(disk, policy, build, room);
    KeepsIsTransitive(start, recovered, disk.files, ids);
  }

  /** Everything in a fresh staging directory, which goes at the end. */
  method StageAndInstall(disk: Disk, policy: Policy, build: Build, room: bool) returns (out: Outcome)
    requires disk.Valid() && (policy == OVERWRITE || Target !in disk.files)
    modifies disk
    ensures disk.Valid() && Keeps(old(disk.files), disk.files, NewIds(build))
    ensures NoSwapFiles(old(disk.files)) ==> OneSwapFile(disk.files)
    ensures out == Published ==> NewAtTarget(disk.files, build) && room
    ensures out.Published? || out.Failed?
    ensures old(disk.faults) == [] ==>
              if Proper(build) && room then
                out == Published && disk.files == old(disk.files)[Target := build.content]
              else out == Failed(Raised) && disk.files == old(disk.files)
    ensures OneException(old(disk.faults)) && Target in old(disk.files) ==> Target in disk.files
  {
    hide Keeps, NewIds, NewAtTarget, OneException;
    ghost var start := disk.files;
    ghost var ids := NewIds(build);
    var run: nat, s: Status;
    run, s := OpenStaging(disk);
    ghost var staged := disk.files;
    assert Target in start ==> Target in staged - {Staging(run)} by {
      assert Target in start ==> Target in start - {Staging(run)};
    }
    KeepsNothingNew(start, staged, ids);
    if s != Done {
      return Failed(s);
    }
    s := Attempt(disk, run, policy, build, room);
    KeepsIsTransitive(start, staged, disk.files, ids);
    ghost var attempted := disk.files;
    out := CleanUp(disk, run, s, build, start);
    assert Target in attempted ==> Target in attempted - {Staging(run)};
  }

  /** One call of publish. However and wherever it ends, no last artifact is lost; only the new
      artifact can come up; a success leaves the new artifact, verified, at the target. An existing target is
      replaced under the overwriting policy only: otherwise it stays as it is, refused or, if it is valid,
      skipped. Without faults and leftovers, a proper build is published and nothing else on the disk changes,
      and any other build leaves the disk as it was. */
  method Publish(disk: Disk, policy: Policy, build: Build, safe: bool, space: bool, room: bool)
    returns (out: Outcome)
    requires disk.Valid()
    modifies disk
    ensures disk.Valid() && Keeps(old(disk.files), disk.files, NewIds(build))
    ensures out == Published ==> NewAtTarget(disk.files, build) && safe && space && room
    ensures !safe ==> out == Failed(Raised) && disk.files == old(disk.files)
    ensures old(disk.faults) == [] && NoSwapFiles(old(disk.files)) && Proper(build) && safe && space && room
            && (policy == OVERWRITE || Target !in old(disk.files)) ==>
              out == Published && disk.files == old(disk.files)[Target := build.content]
    ensures out == Refused ==> policy == ERROR && Target in disk.files
    ensures out == Skipped ==> policy == SKIP && IsArtifact(disk.files, Target)
    ensures safe && policy != OVERWRITE && Occupied(old(disk.files)) ==>
              && disk.files == old(disk.files) && out != Published
              && (policy == ERROR ==> out == Refused)
              && (old(disk.faults) == [] && policy == SKIP ==>
                    out == if IsArtifact(old(disk.files), Target) then Skipped else Failed(Raised))
    ensures policy != OVERWRITE && disk.reliable && IsArtifact(old(disk.files), Target) ==>
              out != Published && IsArtifact(disk.files, Target) && disk.files[Target] == old(disk.files)[Target]
    ensures safe && old(disk.faults) == [] && NoSwapFiles(old(disk.files)) && !(Proper(build) && space && room)
            && (policy == OVERWRITE || Target !in old(disk.files)) ==>
              out == Failed(Raised) && disk.files == old(disk.files)
    ensures disk.reliable && Survives(old(disk.files)) && OneSwapFile(old(disk.files)) ==> OneSwapFile(disk.files)
    ensures OneException(old(disk.faults)) && Occupied(old(disk.files)) ==> Target in disk.files
  {
    if !safe {
      SameAnswersKeep(disk.files, disk.files);
      KeepsNothingNew(disk.files, disk.files, NewIds(build));
      return Failed(Raised);
    }
    hide Keeps, Survives, NewIds, NewAtTarget;
    hide OneException;
    out := PublishAt(disk, policy, build, space, room);
  }

  /** The `finally` clause: the staging directory goes unless the machine stopped. */
  method CleanUp(disk: Disk, run: nat, s: Status, build: Build, ghost start: Files) returns (out: Outcome)
    requires disk.Valid() && Keeps(start, disk.files, NewIds(build))
    requires s == Done ==> NewAtTarget(disk.files, build)
    modifies disk
    ensures disk.Valid() && Keeps(start, disk.files, NewIds(build)) && SameSwaps(old(disk.files), disk.files)
    ensures out == Published ==> s == Done && NewAtTarget(disk.files, build)
    ensures out.Published? || out.Failed?
    ensures disk.files - {Staging(run)} == old(disk.files) - {Staging(run)}
    ensures old(disk.faults) == [] && s != Stopped ==>
              disk.files == old(disk.files) - {Staging(run)} && out == if s == Done then Published else Failed(s)
  {
    ghost var before := disk.files;
    StagingDoesNotMatter(before, run, Partial);
    var cleaned := Done;
    if s != Stopped && Staging(run) in disk.files {
      cleaned := disk.RemoveTree(Staging(run));
    }
    SameAnswersKeep(before, before);
    KeepsNothingNew(before, disk.files, NewIds(build));
    KeepsIsTransitive(start, before, disk.files, NewIds(build));
    out := if cleaned != Done then Failed(cleaned) else if s == Done then Published else Failed(s);
  }

  /** `safe` is an output path without links that is no root or working directory, `space` a gigabyte free beforehand,
      and `room` the output's own size free once it is built. */
  datatype Call = Call(policy: Policy, build: Build, safe: bool, space: bool, room: bool)

  function AllNewIds(calls: seq<Call>): set<nat> {
    if calls == [] then {} else AllNewIds(calls[..|calls| - 1]) + NewIds(calls[|calls| - 1].build)
  }

  /** Any history: publications that succeed, fail or stop anywhere, each starting from what the last
      one left, and finally a recovery. An artifact that once existed is never lost without a new
      one in its place, and a completed recovery leaves a valid target and nothing half done. */
  method PublishThenRecover(disk: Disk, calls: seq<Call>) returns (s: Status)
    requires disk.Valid()
    modifies disk
    ensures disk.Valid() && Keeps(old(disk.files), disk.files, AllNewIds(calls))
    ensures s == Done && disk.reliable && Survives(old(disk.files)) && OneSwapFile(old(disk.files)) ==>
              IsArtifact(disk.files, Target) && NoSwapFiles(disk.files)
  {
    ghost var start := disk.files;
    SameAnswersKeep(start, start);
    for i := 0 to |calls|
      invariant disk.Valid() && Keeps(start, disk.files, AllNewIds(calls[..i]))
      invariant disk.reliable && Survives(start) && OneSwapFile(start) ==> OneSwapFile(disk.files)
    {
      ghost var before := disk.files;
      assert calls[..i + 1][..i] == calls[..i];
      var _ := Publish(disk, calls[i].policy, calls[i].build, calls[i].safe, calls[i].space, calls[i].room);
      KeepsMore(start, before, disk.files, AllNewIds(calls[..i]), NewIds(calls[i].build));
    }
    assert calls[..|calls|] == calls;
    ghost var last := disk.files;
    s := Recover(disk);
    KeepsMore(start, last, disk.files, AllNewIds(calls), {});
    assert AllNewIds(calls) + {} == AllNewIds(calls);
  }

  lemma KeepsMore(a: Files, b: Files, c: Files, first: set<nat>, second: set<nat>)
    requires Keeps(a, b, first) && Keeps(b, c, second)
    ensures Keeps(a, c, first + second)
  {
  }
}
