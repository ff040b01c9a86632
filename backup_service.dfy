/** The retention cycle as the service runs it: a holding directory whose contents the
    service changes step by step, a search loop for a free copy name, a verification loop
    with its numbered search, and the delete and expiry loops. Each step is proved to do
    to the directory exactly what module BackupSpec's reference functions describe. */
module BackupService {
  import opened Wrappers
  import opened Paths
  import opened Clock
  import opened BackupSpec

  /** The photos directory on disk: whether it exists, its top-level files (name to length)
      and its subdirectories. */
  class HoldingDirectory {
    var present: bool
    var files: map<string, nat>
    var folders: map<string, Folder>

    constructor (present: bool, files: map<string, nat>, folders: map<string, Folder>)
      ensures this.present == present && this.files == files && this.folders == folders
    {
      this.present := present;
      this.files := files;
      this.folders := folders;
    }

    function Snapshot(): (h: Holding)
      reads this
    {
      Holding(present, files, folders)
    }
  }

  /** The rename loop of the copy step: while the current name is taken, suffix it with
      the next counter. */
  method FindFreeTarget(name: string, names: set<string>) returns (target: string)
    ensures target == TargetName(name, names)
    ensures target !in names
    ensures name !in names <==> target == name
  {
    target := name;
    var counter := 1;
    while target in names
      invariant 1 <= counter
      invariant target == Candidate(name, counter - 1)
      invariant FreeCandidate(name, counter - 1, names) == TargetName(name, names)
      decreases Longest(names) - |target|
    {
      SuffixedGrows(target, counter);
      target := Suffixed(target, counter);
      counter := counter + 1;
    }
  }

  /** Where verification looks for the copy of `name`: the name itself, else `stem_k.ext`
      of the name for k = 1..100, stopping at the first that exists. */
  method LocateBackup(name: string, names: set<string>) returns (r: Option<string>)
    ensures r == Locate(name, names)
  {
    var target := name;
    if target !in names {
      var counter := 1;
      while counter <= NumberedSearchLimit
        invariant 1 <= counter <= NumberedSearchLimit + 1
        invariant SearchNumbered(name, names, counter) == SearchNumbered(name, names, 1)
        invariant target !in names
      {
        target := Suffixed(name, counter);
        if target in names {
          break;
        }
        counter := counter + 1;
      }
    }
    if target in names {
      r := Some(target);
    } else {
      r := None;
    }
  }

  /** The verification loop: every source is checked (a failure does not stop the loop),
      and the result is true exactly when every source has a located backup of its length. */
  method VerifyBackupIntegrity(sources: seq<string>, roots: map<string, nat>, backup: map<string, nat>)
    returns (ok: bool)
    ensures ok == Verified(sources, roots, backup)
  {
    ok := true;
    var i := 0;
    while i < |sources|
      invariant 0 <= i <= |sources|
      invariant ok == forall j :: 0 <= j < i ==> BackupMatches(sources[j], roots, backup)
    {
      var source := sources[i];
      var found := LocateBackup(source, backup.Keys);
      if found.None? {
        ok := false;
      } else if source !in roots || roots[source] != backup[found.value] {
        ok := false;
      }
      i := i + 1;
    }
  }

  class PhotoBackupCleanupService {
    const holding: HoldingDirectory

    constructor (holding: HoldingDirectory)
      ensures this.holding == holding
    {
      this.holding := holding;
    }

    /** `Directory.CreateDirectory` of `Backup_<stamp>`: it fails when it throws or when a
        file already has that name; an existing directory of that name is kept. */
    method CreateTimestampedBackupDirectory(now: DateTime, createFails: bool) returns (dir: Option<string>)
      requires now.Valid()
      modifies holding
      ensures dir.Some? <==> !createFails && BackupName(now) !in old(holding.files)
      ensures dir.Some? ==>
        && dir.value == BackupName(now)
        && holding.folders == old(holding.folders)[BackupName(now) := BackupFolder(old(holding.Snapshot()), now)]
      ensures dir.None? ==> holding.folders == old(holding.folders)
      ensures holding.present == old(holding.present) && holding.files == old(holding.files)
    {
      var name := BackupPrefix + Stamp(now);
      if createFails || name in holding.files {
        return None;
      }
      if name !in holding.folders {
        holding.folders := holding.folders[name := Folder(Seconds(now), map[])];
      }
      return Some(name);
    }

    /** The copy loop: each source is copied under the first free name; a failed copy is
        skipped and the loop goes on; the step succeeds when every copy did. */
    method CopyFilesToBackupDirectory(sources: seq<string>, dir: string, copy: string -> CopyOutcome)
      returns (ok: bool)
      requires dir in holding.folders
      modifies holding
      ensures var log := CopyStep(sources, old(holding.folders[dir].files), copy);
        && ok == (log.copied == |sources|)
        && holding.folders == old(holding.folders)[dir := old(holding.folders[dir]).(files := log.backup)]
      ensures holding.present == old(holding.present) && holding.files == old(holding.files)
    {
      ghost var folders0 := holding.folders;
      ghost var start := holding.folders[dir].files;
      var successCount := 0;
      var i := 0;
      while i < |sources|
        invariant 0 <= i <= |sources|
        invariant var log := CopyStep(sources[..i], start, copy);
          successCount == log.copied && holding.folders == folders0[dir := folders0[dir].(files := log.backup)]
        invariant holding.present == old(holding.present) && holding.files == old(holding.files)
      {
        var source := sources[i];
        var files := holding.folders[dir].files;
        assert sources[..i + 1][..i] == sources[..i];
        var target := FindFreeTarget(source, files.Keys);
        match copy(source) {
          case Copied(n) =>
            holding.folders := holding.folders[dir := holding.folders[dir].(files := files[target := n])];
            successCount := successCount + 1;
          case CopyFailed =>
        }
        i := i + 1;
      }
      assert sources[..i] == sources;
      ok := successCount == |sources|;
    }

    /** The delete loop: each image is deleted; a locked one is skipped. */
    method DeleteRootDirectoryImages(images: seq<string>, locked: set<string>)
      modifies holding
      ensures holding.files == RemoveOriginals(old(holding.files), images, locked)
      ensures holding.present == old(holding.present) && holding.folders == old(holding.folders)
    {
      ghost var files0 := holding.files;
      var i := 0;
      while i < |images|
        invariant 0 <= i <= |images|
        invariant holding.files == RemoveOriginals(files0, images[..i], locked)
        invariant holding.present == old(holding.present) && holding.folders == old(holding.folders)
      {
        assert forall n :: n in images[..i + 1] <==> n in images[..i] || n == images[i];
        if images[i] !in locked {
          holding.files := holding.files - {images[i]};
        }
        i := i + 1;
      }
      assert images[..i] == images;
    }

    /** The expiry loop: every subdirectory created before the cutoff is deleted with its
        contents, unless deleting it throws; when listing throws, nothing is deleted. */
    method CleanupExpiredDirectories(now: DateTime, env: Environment)
      modifies holding
      ensures holding.folders == Expire(old(holding.folders), Cutoff(now), env)
      ensures holding.present == old(holding.present) && holding.files == old(holding.files)
    {
      var oneWeekAgo := Cutoff(now);
      if env.listDirsFails {
        return;
      }
      ghost var folders0 := holding.folders;
      var remaining := holding.folders.Keys;
      while remaining != {}
        invariant remaining <= folders0.Keys
        invariant holding.folders == map d | d in folders0
          && (d in remaining || oneWeekAgo <= folders0[d].created || d in env.lockedDirs) :: folders0[d]
        invariant holding.present == old(holding.present) && holding.files == old(holding.files)
        decreases remaining
      {
        var d :| d in remaining;
        if holding.folders[d].created < oneWeekAgo && d !in env.lockedDirs {
          holding.folders := holding.folders - {d};
        }
        remaining := remaining - {d};
      }
    }

    /** One run of the cycle: back up the root images into a new timestamped directory,
        verify the copies, delete the originals, expire old subdirectories. The result and
        the directory afterwards are exactly those of `Cycle`. */
    method ExecuteBackupAndCleanup(now: DateTime, env: Environment, listing: seq<string>) returns (ok: bool)
      requires now.Valid()
      modifies holding
      ensures var r := Cycle(old(holding.Snapshot()), now, env, listing);
        ok == r.ok && holding.Snapshot() == r.after
    {
      ghost var h := holding.Snapshot();
      if !holding.present {
        return true;
      }
      if env.listFilesFails {
        return false;
      }
      var images := ImageFiles(listing);
      if images != [] {
        var dir := CreateTimestampedBackupDirectory(now, env.createFails);
        if dir.None? {
          return false;
        }
        ghost var folder := BackupFolder(h, now);
        ghost var log := CopyStep(images, folder.files, env.copy);
        var copied := CopyFilesToBackupDirectory(images, dir.value, env.copy);
        assert holding.Snapshot() == h.(folders := h.folders[dir.value := folder.(files := log.backup)]);
        if !copied {
          return false;
        }
        var verified := VerifyBackupIntegrity(images, holding.files, holding.folders[dir.value].files);
        assert verified == Verified(images, h.files, log.backup);
        if !verified {
          return false;
        }
        DeleteRootDirectoryImages(images, env.lockedFiles);
      }
      CleanupExpiredDirectories(now, env);
      ok := true;
    }
  }

}
