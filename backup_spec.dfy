/** Reference semantics of one retention cycle over the holding directory, as values: the
    directory is a map from file name to length plus a map of subdirectories, and every
    outcome the filesystem decides (a listing that throws, a copy that fails or writes the
    wrong number of bytes, a file or directory that is locked) comes from an `Environment`.
    The imperative service in module BackupService is proved to compute exactly this. */
module BackupSpec {
  import opened Wrappers
  import opened Paths
  import opened Clock

  /** The extensions (lower-cased) of the files the cycle backs up. */
  const ImageExtensions: seq<string> :=
    [".jpg", ".jpeg", ".png", ".gif", ".bmp", ".tiff", ".raw", ".cr2", ".arw", ".nef", ".dng"]

  const BackupPrefix: string := "Backup_"

  /** Subdirectories created longer ago than this are deleted. */
  const RetentionDays: int := 7

  /** How many numbered names verification tries after the direct one. */
  const NumberedSearchLimit: nat := 100

  /** A subdirectory: its creation time in seconds and its files (name to length). */
  datatype Folder = Folder(created: int, files: map<string, nat>)

  /** The holding directory: whether it exists, its top-level files, its subdirectories. */
  datatype Holding = Holding(present: bool, files: map<string, nat>, folders: map<string, Folder>)

  /** What a single `File.Copy` does: it writes a file of `bytes` bytes, or it throws. The
      byte count differs from the source's length only when something else touches the
      file during the copy (a camera driver still writing it, a failing disk). */
  datatype CopyOutcome = Copied(bytes: nat) | CopyFailed

  /** Every decision the filesystem makes during one cycle. */
  datatype Environment = Environment(
    listFilesFails: bool,           // Directory.GetFiles throws
    createFails: bool,              // Directory.CreateDirectory throws
    copy: string -> CopyOutcome,    // File.Copy of each source file
    lockedFiles: set<string>,       // File.Delete throws for these originals
    listDirsFails: bool,            // Directory.GetDirectories throws
    lockedDirs: set<string>)        // Directory.Delete throws for these subdirectories

  /** The result of the copy step: the backup directory's files afterwards, how many
      copies succeeded, and the name chosen for each source (in source order). */
  datatype CopyLog = CopyLog(backup: map<string, nat>, copied: nat, targets: seq<string>)

  datatype CycleResult = CycleResult(ok: bool, after: Holding)

  predicate NoDup(s: seq<string>)
  {
    forall i, j :: 0 <= i < j < |s| ==> s[i] != s[j]
  }

  /** `listing` is what enumerating a directory with these files returns: each name once,
      in the order the operating system chooses. */
  ghost predicate Lists(listing: seq<string>, files: map<string, nat>)
  {
    NoDup(listing) && forall n :: n in listing <==> n in files
  }

  // ---------------------------------------------------------------------------------
  // Selecting the image files

  /** The extension, lower-cased, is one of the image extensions; a name without an
      extension never is. */
  predicate IsImageFile(name: string): (r: bool)
    ensures r ==> Extension(name) != ""
  {
    ToLowerAscii(Extension(name)) in ImageExtensions
  }

  /** The listing with every non-image entry dropped, order kept. */
  function ImageFiles(listing: seq<string>): (r: seq<string>)
    ensures forall x :: x in r <==> x in listing && IsImageFile(x)
    ensures |r| <= |listing|
    ensures NoDup(listing) ==> NoDup(r)
  {
    if listing == [] then []
    else
      var rest := ImageFiles(listing[1..]);
      assert forall x :: x in listing <==> x == listing[0] || x in listing[1..];
      if IsImageFile(listing[0]) then
        assert NoDup(listing) ==> listing[0] !in listing[1..];
        [listing[0]] + rest
      else rest
  }

  /** `idx` lists increasing positions of `listing` whose entries, in turn, are `r`: `r` is
      a subsequence of `listing`. */
  predicate PicksInOrder(r: seq<string>, listing: seq<string>, idx: seq<nat>)
  {
    && |idx| == |r|
    && (forall i :: 0 <= i < |idx| ==> idx[i] < |listing| && r[i] == listing[idx[i]])
    && (forall i, j :: 0 <= i < j < |idx| ==> idx[i] < idx[j])
  }

  /** The selection keeps the listing's order: it is a subsequence of the listing. */
  lemma {:induction false} ImageFilesOrder(listing: seq<string>) returns (idx: seq<nat>)
    ensures PicksInOrder(ImageFiles(listing), listing, idx)
  {
    if listing == [] {
      idx := [];
    } else {
      var tailIdx := ImageFilesOrder(listing[1..]);
      var keep := IsImageFile(listing[0]);
      assert ImageFiles(listing) == if keep then [listing[0]] + ImageFiles(listing[1..]) else ImageFiles(listing[1..]);
      idx := PicksCons(listing, ImageFiles(listing[1..]), tailIdx, keep);
    }
  }

  /** A subsequence of the tail, with or without the head in front, is a subsequence. */
  lemma PicksCons(listing: seq<string>, rest: seq<string>, tailIdx: seq<nat>, keep: bool) returns (idx: seq<nat>)
    requires listing != [] && PicksInOrder(rest, listing[1..], tailIdx)
    ensures PicksInOrder(if keep then [listing[0]] + rest else rest, listing, idx)
  {
    var shifted := seq(|tailIdx|, i requires 0 <= i < |tailIdx| => tailIdx[i] + 1);
    assert forall i :: 0 <= i < |shifted| ==> rest[i] == listing[shifted[i]] by {
      forall i | 0 <= i < |shifted| ensures rest[i] == listing[shifted[i]] {
        assert rest[i] == listing[1..][tailIdx[i]];
      }
    }
    idx := if keep then [0] + shifted else shifted;
  }

  // ---------------------------------------------------------------------------------
  // Collision-avoiding names

  /** `stem_k.ext`, built from the stem and extension of `name` itself. */
  function Suffixed(name: string, k: nat): (r: string)
  {
    Stem(name) + "_" + NatToString(k) + Extension(name)
  }

  lemma SuffixedGrows(name: string, k: nat)
    ensures |Suffixed(name, k)| > |name|
  {
    StemAndExtension(name);
  }

  /** Suffixing a name that has an extension keeps the extension and puts `_k` at the end
      of the stem, so a renamed image is still an image. */
  lemma SuffixedKeepsExtension(name: string, k: nat)
    requires Extension(name) != ""
    ensures Extension(Suffixed(name, k)) == Extension(name)
    ensures Stem(Suffixed(name, k)) == Stem(name) + "_" + NatToString(k)
  {
    ExtensionShape(name);
    SuffixKeepsExtension(Stem(name) + "_" + NatToString(k), Extension(name));
  }

  /** Appending a dot-led, otherwise dot-free extension to a stem gives a name with exactly
      that stem and extension. */
  lemma SuffixKeepsExtension(stem: string, e: string)
    requires 2 <= |e| && e[0] == '.' && forall j :: 1 <= j < |e| ==> e[j] != '.'
    ensures Extension(stem + e) == e && Stem(stem + e) == stem
  {
    var ext := e[1..];
    assert e == "." + ext;
    assert '.' !in ext by {
      forall j | 0 <= j < |ext| ensures ext[j] != '.' {
        assert ext[j] == e[j + 1];
      }
    }
    assert stem + e == stem + "." + ext;
    SplitAtLastDot(stem, ext);
  }

  /** The k-th name the copy step tries: each attempt suffixes the previous attempt, so
      the names run `IMG.JPG`, `IMG_1.JPG`, `IMG_1_2.JPG`, `IMG_1_2_3.JPG`, ... */
  function Candidate(name: string, k: nat): (r: string)
  {
    if k == 0 then name else Suffixed(Candidate(name, k - 1), k)
  }

  /** A bound on the length of every name in `names`. */
  ghost function Longest(names: set<string>): (n: nat)
    ensures forall x :: x in names ==> |x| <= n
  {
    if names == {} then 0
    else
      var x :| x in names;
      var m := Longest(names - {x});
      if |x| > m then |x| else m
  }

  lemma CandidateGrows(name: string, k: nat)
    ensures |Candidate(name, k + 1)| > |Candidate(name, k)|
  {
    SuffixedGrows(Candidate(name, k), k + 1);
  }

  /** Every candidate has the extension of the original name. */
  lemma {:induction false} CandidateKeepsExtension(name: string, k: nat)
    requires Extension(name) != ""
    ensures Extension(Candidate(name, k)) == Extension(name)
  {
    if k > 0 {
      CandidateKeepsExtension(name, k - 1);
      SuffixedKeepsExtension(Candidate(name, k - 1), k);
    }
  }

  /** Later candidates are strictly longer, so a later candidate is never the name itself. */
  lemma {:induction false} CandidateStrictlyGrows(name: string, j: nat, k: nat)
    requires j < k
    ensures |Candidate(name, j)| < |Candidate(name, k)|
    decreases k - j
  {
    CandidateGrows(name, k - 1);
    if j < k - 1 {
      CandidateStrictlyGrows(name, j, k - 1);
    }
  }

  /** The index of the first candidate from the k-th on that is not in `names`. The search
      ends because every candidate is longer than the one before. */
  function FirstFreeIndex(name: string, k: nat, names: set<string>): (n: nat)
    ensures k <= n && Candidate(name, n) !in names
    ensures n == k <==> Candidate(name, k) !in names
    decreases Longest(names) - |Candidate(name, k)|
  {
    if Candidate(name, k) !in names then k
    else
      CandidateGrows(name, k);
      FirstFreeIndex(name, k + 1, names)
  }

  /** The rename loop from its k-th attempt on: the first candidate from the k-th that is
      not taken. */
  function FreeCandidate(name: string, k: nat, names: set<string>): (t: string)
    ensures t !in names
    ensures 0 < k ==> t != name
    decreases Longest(names) - |Candidate(name, k)|
  {
    if Candidate(name, k) !in names then
      if 0 < k then CandidateStrictlyGrows(name, 0, k); Candidate(name, k)
      else Candidate(name, k)
    else
      CandidateGrows(name, k);
      FreeCandidate(name, k + 1, names)
  }

  /** The name under which a source named `name` is copied into a directory holding
      `names`. */
  function TargetName(name: string, names: set<string>): (t: string)
    ensures t !in names
    ensures t == name <==> name !in names
  {
    FreeCandidate(name, 0, names)
  }

  /** A renamed copy of an image keeps its extension, so it is an image too. */
  lemma TargetKeepsExtension(name: string, names: set<string>)
    requires IsImageFile(name)
    ensures Extension(TargetName(name, names)) == Extension(name) && IsImageFile(TargetName(name, names))
  {
    FreeCandidateIsFirstFree(name, 0, names);
    CandidateKeepsExtension(name, FirstFreeIndex(name, 0, names));
  }

  /** The rename loop stops at the first candidate that is not taken. */
  lemma {:induction false} FreeCandidateIsFirstFree(name: string, k: nat, names: set<string>)
    ensures FreeCandidate(name, k, names) == Candidate(name, FirstFreeIndex(name, k, names))
    decreases Longest(names) - |Candidate(name, k)|
  {
    if Candidate(name, k) in names {
      CandidateGrows(name, k);
      FreeCandidateIsFirstFree(name, k + 1, names);
    }
  }

  /** The copy target is the first candidate that is not taken: every earlier one is, and
      it is not. */
  lemma TargetNameIsFirstFree(name: string, names: set<string>, j: nat)
    ensures TargetName(name, names) == Candidate(name, FirstFreeIndex(name, 0, names))
    ensures TargetName(name, names) !in names
    ensures j < FirstFreeIndex(name, 0, names) ==> Candidate(name, j) in names
  {
    FreeCandidateIsFirstFree(name, 0, names);
    if j < FirstFreeIndex(name, 0, names) {
      TakenBeforeFirstFree(name, 0, j, names);
    }
  }

  /** Every candidate from the k-th up to the first free one is taken. */
  lemma {:induction false} TakenBeforeFirstFree(name: string, k: nat, j: nat, names: set<string>)
    requires k <= j < FirstFreeIndex(name, k, names)
    ensures Candidate(name, j) in names
    decreases j - k
  {
    if j > k {
      assert FirstFreeIndex(name, k, names) != k;
      FirstFreeIndexStep(name, k, names);
      TakenBeforeFirstFree(name, k + 1, j, names);
    }
  }

  /** A taken candidate passes the search on to the next one. */
  lemma FirstFreeIndexStep(name: string, k: nat, names: set<string>)
    requires Candidate(name, k) in names
    ensures FirstFreeIndex(name, k, names) == FirstFreeIndex(name, k + 1, names)
  {
  }

  /** A taken name gets the suffix `_1` before its extension. */
  lemma RenameExample()
    ensures TargetName("IMG_0001.JPG", {"IMG_0001.JPG"}) == "IMG_0001_1.JPG"
  {
    var n0, n1 := "IMG_0001.JPG", "IMG_0001_1.JPG";
    FirstRename();
    assert Candidate(n0, 1) == n1;
    assert FreeCandidate(n0, 1, {n0}) == n1;
  }

  lemma FirstRename()
    ensures Suffixed("IMG_0001.JPG", 1) == "IMG_0001_1.JPG"
  {
    assert "IMG_0001.JPG" == "IMG_0001" + "." + "JPG";
    SplitAtLastDot("IMG_0001", "JPG");
    assert NatToString(1) == "1";
  }

  lemma SecondRename()
    ensures Suffixed("IMG_0001_1.JPG", 2) == "IMG_0001_1_2.JPG"
  {
    assert "IMG_0001_1.JPG" == "IMG_0001_1" + "." + "JPG";
    SplitAtLastDot("IMG_0001_1", "JPG");
    assert NatToString(2) == "2";
  }

  /** A second collision suffixes the suffixed name: `IMG_0001_1_2.JPG`, not
      `IMG_0001_2.JPG`. */
  lemma RenameChainExample()
    ensures TargetName("IMG_0001.JPG", {"IMG_0001.JPG", "IMG_0001_1.JPG"}) == "IMG_0001_1_2.JPG"
  {
    var n0, n1, n2 := "IMG_0001.JPG", "IMG_0001_1.JPG", "IMG_0001_1_2.JPG";
    var names := {n0, n1};
    FirstRename();
    SecondRename();
    assert Candidate(n0, 1) == n1;
    assert Candidate(n0, 2) == n2;
    assert n2 !in names;
    assert FreeCandidate(n0, 2, names) == n2;
    assert FreeCandidate(n0, 1, names) == n2;
  }

  // ---------------------------------------------------------------------------------
  // The copy step

  /** Copying `sources` (in order) into a directory holding `backup`: each source goes to
      the first free candidate of its name; a failed copy writes nothing and the later
      ones still run. */
  function CopyStep(sources: seq<string>, backup: map<string, nat>, copy: string -> CopyOutcome): (log: CopyLog)
    ensures |log.targets| == |sources| && log.copied <= |sources|
    decreases |sources|
  {
    if sources == [] then CopyLog(backup, 0, [])
    else
      var prev := CopyStep(sources[..|sources| - 1], backup, copy);
      var s := sources[|sources| - 1];
      var t := TargetName(s, prev.backup.Keys);
      match copy(s)
      case Copied(n) => CopyLog(prev.backup[t := n], prev.copied + 1, prev.targets + [t])
      case CopyFailed => CopyLog(prev.backup, prev.copied, prev.targets + [t])
  }

  /** One more source: its target was free before it, and is the source's own name exactly
      when that name was free; a successful copy writes it, a failed one writes nothing. */
  lemma CopyStepLast(sources: seq<string>, backup: map<string, nat>, copy: string -> CopyOutcome)
    requires sources != []
    ensures var prev := CopyStep(sources[..|sources| - 1], backup, copy);
      var s := sources[|sources| - 1];
      var log := CopyStep(sources, backup, copy);
      var t := log.targets[|sources| - 1];
      && log.targets == prev.targets + [t]
      && t !in prev.backup
      && (s !in prev.backup <==> t == s)
      && log.backup == (if copy(s).Copied? then prev.backup[t := copy(s).bytes] else prev.backup)
      && log.copied == (if copy(s).Copied? then prev.copied + 1 else prev.copied)
  {
  }

  /** A file that was in the backup directory before the copy step is still there, unchanged. */
  lemma {:induction false} CopyKeepsExisting(sources: seq<string>, backup: map<string, nat>, copy: string -> CopyOutcome)
    ensures var after := CopyStep(sources, backup, copy).backup;
      forall n :: n in backup ==> n in after && after[n] == backup[n]
    decreases |sources|
  {
    if sources != [] {
      CopyKeepsExisting(sources[..|sources| - 1], backup, copy);
      CopyStepLast(sources, backup, copy);
    }
  }

  /** Every successful copy lands under a name that was free before the step and keeps
      the bytes it wrote until the end of the step. */
  lemma {:induction false} CopyWritesFreshTargets(sources: seq<string>, backup: map<string, nat>, copy: string -> CopyOutcome)
    ensures var log := CopyStep(sources, backup, copy);
      forall i :: 0 <= i < |sources| && copy(sources[i]).Copied? ==>
        log.targets[i] !in backup && log.targets[i] in log.backup
        && log.backup[log.targets[i]] == copy(sources[i]).bytes
    decreases |sources|
  {
    if sources != [] {
      var init := sources[..|sources| - 1];
      var prev := CopyStep(init, backup, copy);
      var log := CopyStep(sources, backup, copy);
      var s := sources[|sources| - 1];
      var t := log.targets[|sources| - 1];
      CopyStepLast(sources, backup, copy);
      CopyWritesFreshTargets(init, backup, copy);
      CopyKeepsExisting(init, backup, copy);
      forall i | 0 <= i < |sources| && copy(sources[i]).Copied?
        ensures log.targets[i] !in backup && log.targets[i] in log.backup
        ensures log.backup[log.targets[i]] == copy(sources[i]).bytes
      {
        if i < |init| {
          assert sources[i] == init[i] && log.targets[i] == prev.targets[i];
          assert log.targets[i] in prev.backup && log.targets[i] != t;
        }
      }
    }
  }

  /** No two successful copies share a name. */
  lemma {:induction false} CopyTargetsDistinct(sources: seq<string>, backup: map<string, nat>, copy: string -> CopyOutcome)
    ensures var log := CopyStep(sources, backup, copy);
      forall i, j :: 0 <= i < j < |sources| && copy(sources[i]).Copied? && copy(sources[j]).Copied? ==>
        log.targets[i] != log.targets[j]
    decreases |sources|
  {
    if sources != [] {
      var init := sources[..|sources| - 1];
      var prev := CopyStep(init, backup, copy);
      var log := CopyStep(sources, backup, copy);
      CopyStepLast(sources, backup, copy);
      CopyTargetsDistinct(init, backup, copy);
      CopyWritesFreshTargets(init, backup, copy);
      forall i, j | 0 <= i < j < |sources| && copy(sources[i]).Copied? && copy(sources[j]).Copied?
        ensures log.targets[i] != log.targets[j]
      {
        assert sources[i] == init[i] && log.targets[i] == prev.targets[i];
        if j < |init| {
          assert sources[j] == init[j] && log.targets[j] == prev.targets[j];
        } else {
          assert log.targets[i] in prev.backup;
        }
      }
    }
  }

  /** The copy step adds nothing to the backup directory but the targets of successful copies. */
  lemma {:induction false} CopyAddsOnlyTargets(sources: seq<string>, backup: map<string, nat>, copy: string -> CopyOutcome)
    ensures var log := CopyStep(sources, backup, copy);
      forall n :: n in log.backup ==>
        n in backup || exists i :: 0 <= i < |sources| && copy(sources[i]).Copied? && n == log.targets[i]
    decreases |sources|
  {
    if sources != [] {
      var init := sources[..|sources| - 1];
      var prev := CopyStep(init, backup, copy);
      var log := CopyStep(sources, backup, copy);
      CopyStepLast(sources, backup, copy);
      CopyAddsOnlyTargets(init, backup, copy);
      forall n | n in log.backup && n !in backup
        ensures exists i :: 0 <= i < |sources| && copy(sources[i]).Copied? && n == log.targets[i]
      {
        if n !in prev.backup {
          assert n == log.targets[|sources| - 1];
        } else {
          var i :| 0 <= i < |init| && copy(init[i]).Copied? && n == prev.targets[i];
          assert sources[i] == init[i] && log.targets[i] == n;
        }
      }
    }
  }

  /** The copy step reports success (every source counted) exactly when no copy failed. */
  lemma {:induction false} CopyCount(sources: seq<string>, backup: map<string, nat>, copy: string -> CopyOutcome)
    ensures CopyStep(sources, backup, copy).copied == |sources|
        <==> forall i :: 0 <= i < |sources| ==> copy(sources[i]).Copied?
    decreases |sources|
  {
    if sources != [] {
      var init := sources[..|sources| - 1];
      var prev := CopyStep(init, backup, copy);
      var s := sources[|sources| - 1];
      CopyStepLast(sources, backup, copy);
      CopyCount(init, backup, copy);
      assert forall i :: 0 <= i < |init| ==> sources[i] == init[i];
      if copy(s).Copied? {
        assert CopyStep(sources, backup, copy).copied == prev.copied + 1;
      } else {
        assert CopyStep(sources, backup, copy).copied == prev.copied <= |init|;
      }
    }
  }

  /** After the copy step every successfully copied source's own name is in the backup
      directory: it was free, so the copy went there, or it was taken and stays taken. */
  lemma {:induction false} CopiedNamesPresent(sources: seq<string>, backup: map<string, nat>, copy: string -> CopyOutcome)
    ensures var after := CopyStep(sources, backup, copy).backup;
      forall i :: 0 <= i < |sources| && copy(sources[i]).Copied? ==> sources[i] in after
    decreases |sources|
  {
    if sources != [] {
      var init := sources[..|sources| - 1];
      var prev := CopyStep(init, backup, copy);
      var log := CopyStep(sources, backup, copy);
      CopyStepLast(sources, backup, copy);
      CopiedNamesPresent(init, backup, copy);
      assert prev.backup.Keys <= log.backup.Keys;
      var s := sources[|sources| - 1];
      assert copy(s).Copied? ==> s in log.backup by {
        if copy(s).Copied? && s !in prev.backup {
          assert log.targets[|sources| - 1] == s;
          assert log.backup == prev.backup[s := copy(s).bytes];
        }
      }
      forall i | 0 <= i < |sources| && copy(sources[i]).Copied?
        ensures sources[i] in log.backup
      {
        if i < |init| {
          assert sources[i] == init[i];
          assert init[i] in prev.backup;
        }
      }
    }
  }

  // ---------------------------------------------------------------------------------
  // Verification

  /** The numbered search of verification: `stem_k.ext` of the ORIGINAL name, for k from
      `k` to 100, the first that exists. */
  function SearchNumbered(name: string, names: set<string>, k: nat): (r: Option<string>)
    ensures r.Some? ==> r.value in names && exists j :: (k <= j <= NumberedSearchLimit
      && r.value == Suffixed(name, j) && forall i :: k <= i < j ==> Suffixed(name, i) !in names)
    ensures r.None? ==> forall j :: k <= j <= NumberedSearchLimit ==> Suffixed(name, j) !in names
    decreases NumberedSearchLimit + 1 - k
  {
    if k > NumberedSearchLimit then None
    else if Suffixed(name, k) in names then Some(Suffixed(name, k))
    else SearchNumbered(name, names, k + 1)
  }

  /** The file verification compares a source with: its own name if present, else the
      first present `stem_k.ext` with k in 1..100. */
  function Locate(name: string, names: set<string>): (r: Option<string>)
    ensures r.Some? ==> r.value in names
    ensures name in names <==> r == Some(name)
  {
    if name in names then Some(name) else SearchNumbered(name, names, 1)
  }

  /** Verification of one source: it still exists, a backup is located for it and the two
      lengths are equal. */
  predicate BackupMatches(name: string, roots: map<string, nat>, backup: map<string, nat>): (r: bool)
    ensures name in backup ==> (r <==> name in roots && backup[name] == roots[name])
  {
    && name in roots
    && Locate(name, backup.Keys).Some?
    && backup[Locate(name, backup.Keys).value] == roots[name]
  }

  /** Every source passes verification. */
  predicate Verified(sources: seq<string>, roots: map<string, nat>, backup: map<string, nat>): (r: bool)
    ensures sources == [] ==> r
    ensures r ==> forall i :: 0 <= i < |sources| ==> sources[i] in roots
  {
    forall i :: 0 <= i < |sources| ==> BackupMatches(sources[i], roots, backup)
  }

  /** A source that passes verification still exists, and the backup holds a file of its
      length. */
  lemma VerifiedFindsCopies(sources: seq<string>, roots: map<string, nat>, backup: map<string, nat>)
    requires Verified(sources, roots, backup)
    ensures forall i :: 0 <= i < |sources| ==>
      sources[i] in roots && exists n :: n in backup && backup[n] == roots[sources[i]]
  {
    forall i | 0 <= i < |sources|
      ensures sources[i] in roots && exists n :: n in backup && backup[n] == roots[sources[i]]
    {
      assert BackupMatches(sources[i], roots, backup);
      var n := Locate(sources[i], backup.Keys).value;
      assert n in backup && backup[n] == roots[sources[i]];
    }
  }

  /** When every copy succeeded, verification never reaches its numbered search: it
      compares each source with the file under the source's own name. */
  lemma VerifiedComparesDirectNames(sources: seq<string>, roots: map<string, nat>, backup: map<string, nat>,
                                    copy: string -> CopyOutcome)
    requires forall i :: 0 <= i < |sources| ==> copy(sources[i]).Copied?
    ensures var after := CopyStep(sources, backup, copy).backup;
      Verified(sources, roots, after) <==>
        forall i :: 0 <= i < |sources| ==>
          sources[i] in roots && sources[i] in after && after[sources[i]] == roots[sources[i]]
  {
    CopiedNamesPresent(sources, backup, copy);
  }

  /** Verification as the evidently intended: each source is compared with the copy the
      copy step actually made of it. */
  predicate CopiesVerified(sources: seq<string>, roots: map<string, nat>, log: CopyLog)
    requires |log.targets| == |sources|
  {
    forall i :: 0 <= i < |sources| ==>
      sources[i] in roots && log.targets[i] in log.backup && log.backup[log.targets[i]] == roots[sources[i]]
  }

  /** When the copy step succeeded and the intended verification passes, every source was
      copied in this cycle, with exactly its length, to a name that did not exist before. */
  lemma CopiesVerifiedSound(sources: seq<string>, roots: map<string, nat>, backup: map<string, nat>,
                            copy: string -> CopyOutcome)
    requires CopyStep(sources, backup, copy).copied == |sources|
    requires CopiesVerified(sources, roots, CopyStep(sources, backup, copy))
    ensures forall i :: 0 <= i < |sources| ==>
      copy(sources[i]) == Copied(roots[sources[i]])
      && CopyStep(sources, backup, copy).targets[i] !in backup
  {
    CopyCount(sources, backup, copy);
    CopyWritesFreshTargets(sources, backup, copy);
  }

  /** Copying distinct names into an empty directory never renames: each source goes to
      its own name, and nothing else is written. */
  lemma {:induction false} FreshCopiesKeepNames(sources: seq<string>, copy: string -> CopyOutcome)
    requires NoDup(sources)
    ensures var log := CopyStep(sources, map[], copy);
      && (forall i :: 0 <= i < |sources| ==> log.targets[i] == sources[i])
      && (forall n :: n in log.backup ==> n in sources)
    decreases |sources|
  {
    if sources != [] {
      var init := sources[..|sources| - 1];
      var s := sources[|sources| - 1];
      assert NoDup(init);
      FreshCopiesKeepNames(init, copy);
      CopyStepLast(sources, map[], copy);
      var prev := CopyStep(init, map[], copy);
      assert s !in init by {
        forall j | 0 <= j < |init|
          ensures init[j] != s
        {
          assert init[j] == sources[j];
        }
      }
      assert s !in prev.backup;
      var log := CopyStep(sources, map[], copy);
      forall i | 0 <= i < |sources|
        ensures log.targets[i] == sources[i]
      {
        if i < |init| {
          assert log.targets[i] == prev.targets[i];
        }
      }
      forall n | n in log.backup
        ensures n in sources
      {
        if n != s {
          assert n in prev.backup;
          var j :| 0 <= j < |init| && init[j] == n;
          assert sources[j] == n;
        }
      }
    }
  }

  /** With a new backup directory and every copy successful, verification as written is
      the intended one: the finding below needs a backup directory that already exists. */
  lemma FreshBackupVerifiesCopies(sources: seq<string>, roots: map<string, nat>, copy: string -> CopyOutcome)
    requires NoDup(sources)
    requires forall i :: 0 <= i < |sources| ==> copy(sources[i]).Copied?
    ensures var log := CopyStep(sources, map[], copy);
      Verified(sources, roots, log.backup) <==> CopiesVerified(sources, roots, log)
  {
    FreshCopiesKeepNames(sources, copy);
    VerifiedComparesDirectNames(sources, roots, map[], copy);
    CopiedNamesPresent(sources, map[], copy);
  }

  /** As written, verification passes although the only copy made of the source is short:
      the backup directory already held a file of the source's name and length, so the copy
      went to `IMG_1.JPG` and verification measured the older `IMG.JPG`. */
  lemma VerifiedAcceptsShortCopy()
    ensures var sources, roots, backup := ["IMG.JPG"], map["IMG.JPG" := 10], map["IMG.JPG" := 10];
      var copy := (s: string) => Copied(3);
      var log := CopyStep(sources, backup, copy);
      && log.copied == |sources|
      && Verified(sources, roots, log.backup)
      && !CopiesVerified(sources, roots, log)
  {
    var sources, roots, backup := ["IMG.JPG"], map["IMG.JPG" := 10], map["IMG.JPG" := 10];
    var copy := (s: string) => Copied(3);
    assert "IMG.JPG" == "IMG" + "." + "JPG";
    SplitAtLastDot("IMG", "JPG");
    assert NatToString(1) == "1";
    assert Candidate("IMG.JPG", 1) == "IMG_1.JPG";
    assert TargetName("IMG.JPG", {"IMG.JPG"}) == "IMG_1.JPG" by {
      assert FreeCandidate("IMG.JPG", 1, {"IMG.JPG"}) == "IMG_1.JPG";
    }
    assert sources[..0] == [];
    assert CopyStep(sources[..0], backup, copy) == CopyLog(backup, 0, []);
    assert backup.Keys == {"IMG.JPG"};
    var log := CopyStep(sources, backup, copy);
    assert log == CopyLog(map["IMG.JPG" := 10, "IMG_1.JPG" := 3], 1, ["IMG_1.JPG"]);
    assert Locate("IMG.JPG", log.backup.Keys) == Some("IMG.JPG");
  }

  // ---------------------------------------------------------------------------------
  // Deleting originals and expiring subdirectories

  /** The root files after deleting `images`, skipping the locked ones. */
  function RemoveOriginals(files: map<string, nat>, images: seq<string>, locked: set<string>): (r: map<string, nat>)
    ensures forall n :: n in files ==> (n !in r <==> n in images && n !in locked)
    ensures forall n :: n in r ==> n in files && r[n] == files[n]
  {
    map n | n in files && (n !in images || n in locked) :: files[n]
  }

  /** `DateTime.Now.AddDays(-7)` in seconds. */
  function Cutoff(now: DateTime): (c: int)
    ensures c < Seconds(now)
  {
    Seconds(now) - RetentionDays * SecondsPerDay
  }

  /** The subdirectories after expiry: those created before `cutoff` are deleted unless
      deleting them throws; when listing them throws nothing is deleted. */
  function Expire(folders: map<string, Folder>, cutoff: int, env: Environment): (r: map<string, Folder>)
    ensures forall d :: d in folders ==>
      (d !in r <==> !env.listDirsFails && folders[d].created < cutoff && d !in env.lockedDirs)
    ensures forall d :: d in r ==> d in folders && r[d] == folders[d]
  {
    if env.listDirsFails then folders
    else map d | d in folders && (cutoff <= folders[d].created || d in env.lockedDirs) :: folders[d]
  }

  /** A snapshot created 8 days ago goes, one created 6 days ago stays. */
  lemma ExpiryExample(now: DateTime, env: Environment)
    requires !env.listDirsFails && env.lockedDirs == {}
    ensures var folders := map["Backup_old" := Folder(Seconds(now) - 8 * SecondsPerDay, map[]),
                               "Backup_new" := Folder(Seconds(now) - 6 * SecondsPerDay, map[])];
      Expire(folders, Cutoff(now), env) == map["Backup_new" := folders["Backup_new"]]
  {
  }

  // ---------------------------------------------------------------------------------
  // The cycle

  function BackupName(now: DateTime): (name: string)
    requires now.Valid()
  {
    BackupPrefix + Stamp(now)
  }

  /** `Directory.CreateDirectory` on the backup path: an existing directory is kept as it
      is, otherwise an empty one is created now. */
  function BackupFolder(h: Holding, now: DateTime): (f: Folder)
    requires now.Valid()
    ensures BackupName(now) in h.folders ==> f == h.folders[BackupName(now)]
    ensures BackupName(now) !in h.folders ==> f.files == map[] && f.created == Seconds(now)
  {
    if BackupName(now) in h.folders then h.folders[BackupName(now)] else Folder(Seconds(now), map[])
  }

  /** One run of the backup-and-cleanup cycle. */
  function Cycle(h: Holding, now: DateTime, env: Environment, listing: seq<string>): (r: CycleResult)
    requires now.Valid()
    ensures r.after.present == h.present
    ensures !r.ok ==> r.after.files == h.files
  {
    if !h.present then CycleResult(true, h)
    else if env.listFilesFails then CycleResult(false, h)
    else
      var images := ImageFiles(listing);
      if images == [] then CycleResult(true, h.(folders := Expire(h.folders, Cutoff(now), env)))
      else if env.createFails || BackupName(now) in h.files then CycleResult(false, h)
      else
        var name := BackupName(now);
        var log := CopyStep(images, BackupFolder(h, now).files, env.copy);
        var h1 := h.(folders := h.folders[name := BackupFolder(h, now).(files := log.backup)]);
        if log.copied != |images| then CycleResult(false, h1)
        else if !Verified(images, h.files, log.backup) then CycleResult(false, h1)
        else CycleResult(true, h1.(files := RemoveOriginals(h.files, images, env.lockedFiles),
                                   folders := Expire(h1.folders, Cutoff(now), env)))
  }

  /** Every step up to verification succeeded: the backup directory was created, every
      copy succeeded, and every source verified. */
  predicate BackupSucceeded(h: Holding, now: DateTime, env: Environment, listing: seq<string>)
    requires now.Valid()
  {
    var images := ImageFiles(listing);
    && !env.createFails && BackupName(now) !in h.files
    && (forall i :: 0 <= i < |images| ==> env.copy(images[i]).Copied?)
    && Verified(images, h.files, CopyStep(images, BackupFolder(h, now).files, env.copy).backup)
  }

  /** The cycle never creates or changes a root file, and of the subdirectories it creates
      or changes only the backup directory; everything else it may only delete. */
  lemma CycleFrame(h: Holding, now: DateTime, env: Environment, listing: seq<string>)
    requires now.Valid()
    ensures var r := Cycle(h, now, env, listing);
      && (forall n :: n in r.after.files ==> n in h.files && r.after.files[n] == h.files[n])
      && (forall d :: d in r.after.folders && d != BackupName(now) ==>
            d in h.folders && r.after.folders[d] == h.folders[d])
  {
    var r := Cycle(h, now, env, listing);
    var images := ImageFiles(listing);
    var name := BackupName(now);
    if h.present && !env.listFilesFails && images != [] && !env.createFails && name !in h.files {
      var log := CopyStep(images, BackupFolder(h, now).files, env.copy);
      var h1 := h.(folders := h.folders[name := BackupFolder(h, now).(files := log.backup)]);
      assert r.after == h1 || r.after == h1.(files := RemoveOriginals(h.files, images, env.lockedFiles),
                                             folders := Expire(h1.folders, Cutoff(now), env));
    }
  }

  /** A missing holding directory is a success that changes nothing. */
  lemma CycleWithoutDirectory(h: Holding, now: DateTime, env: Environment, listing: seq<string>)
    requires now.Valid() && !h.present
    ensures Cycle(h, now, env, listing) == CycleResult(true, h)
  {
  }

  /** The cycle's verdict depends only on listing, backup creation, copy and verification;
      failed deletes and failed expiries never turn it into a failure. */
  lemma CycleResultIff(h: Holding, now: DateTime, env: Environment, listing: seq<string>)
    requires now.Valid()
    ensures Cycle(h, now, env, listing).ok <==>
      !h.present || (!env.listFilesFails && (ImageFiles(listing) == [] || BackupSucceeded(h, now, env, listing)))
  {
    var images := ImageFiles(listing);
    if h.present && !env.listFilesFails && images != [] && !env.createFails && BackupName(now) !in h.files {
      CopyCount(images, BackupFolder(h, now).files, env.copy);
    }
  }

  /** The safety ordering: no original is deleted unless the backup was created, every
      copy succeeded and verification passed; a failed cycle leaves the root files and the
      existing subdirectories in place. Expiry runs on every successful cycle, also one
      that found no images and made no backup. */
  lemma CycleSafety(h: Holding, now: DateTime, env: Environment, listing: seq<string>)
    requires now.Valid()
    ensures var r := Cycle(h, now, env, listing);
      && (r.after.files != h.files ==> ImageFiles(listing) != [] && BackupSucceeded(h, now, env, listing))
      && (!r.ok ==> r.after.files == h.files && h.folders.Keys <= r.after.folders.Keys
                    && forall d :: d in h.folders && d != BackupName(now) ==> r.after.folders[d] == h.folders[d])
      && r.after.files.Keys <= h.files.Keys
  {
    var images := ImageFiles(listing);
    if h.present && !env.listFilesFails && images != [] && !env.createFails && BackupName(now) !in h.files {
      CopyCount(images, BackupFolder(h, now).files, env.copy);
    }
  }

  /** What a successful cycle deletes: exactly the unlocked image files among the originals
      (none when there were none), and exactly the unlocked subdirectories created before
      the cutoff, whether or not there were images to back up. */
  lemma CycleDeletes(h: Holding, now: DateTime, env: Environment, listing: seq<string>)
    requires now.Valid() && h.present && Lists(listing, h.files)
    requires Cycle(h, now, env, listing).ok
    ensures var r := Cycle(h, now, env, listing);
      && (forall n :: n in h.files ==>
            (n !in r.after.files <==> IsImageFile(n) && n !in env.lockedFiles))
      && (forall n :: n in r.after.files ==> n in h.files && r.after.files[n] == h.files[n])
      && (forall d :: d in h.folders && d != BackupName(now) ==>
            (d !in r.after.folders <==>
               !env.listDirsFails && h.folders[d].created < Cutoff(now) && d !in env.lockedDirs))
  {
    var r := Cycle(h, now, env, listing);
    var images := ImageFiles(listing);
    assert forall n :: n in images <==> n in h.files && IsImageFile(n);
    if images == [] {
      assert r.after == h.(folders := Expire(h.folders, Cutoff(now), env));
    } else {
      var name := BackupName(now);
      var log := CopyStep(images, BackupFolder(h, now).files, env.copy);
      var h1 := h.(folders := h.folders[name := BackupFolder(h, now).(files := log.backup)]);
      assert log.copied == |images| && Verified(images, h.files, log.backup);
      assert r.after == h1.(files := RemoveOriginals(h.files, images, env.lockedFiles),
                            folders := Expire(h1.folders, Cutoff(now), env));
    }
  }

  /** When the backup directory is new, every original the cycle deletes survives in it
      under its own name with its own length, and the directory is not expired. */
  lemma DeletedOriginalsAreBackedUp(h: Holding, now: DateTime, env: Environment, listing: seq<string>)
    requires now.Valid() && Lists(listing, h.files)
    requires BackupName(now) !in h.folders
    ensures var r := Cycle(h, now, env, listing);
      var name := BackupName(now);
      forall n :: n in h.files && n !in r.after.files ==>
        name in r.after.folders && n in r.after.folders[name].files
        && r.after.folders[name].files[n] == h.files[n]
  {
    var r := Cycle(h, now, env, listing);
    var images := ImageFiles(listing);
    var name := BackupName(now);
    if r.after.files != h.files {
      CycleSafety(h, now, env, listing);
      var log := CopyStep(images, BackupFolder(h, now).files, env.copy);
      CopyCount(images, BackupFolder(h, now).files, env.copy);
      VerifiedComparesDirectNames(images, h.files, BackupFolder(h, now).files, env.copy);
      var created := BackupFolder(h, now).created;
      assert created >= Cutoff(now) by {
        assert created == Seconds(now);
      }
      forall n | n in h.files && n !in r.after.files
        ensures name in r.after.folders && n in r.after.folders[name].files
          && r.after.folders[name].files[n] == h.files[n]
      {
        assert n in images;
        var i :| 0 <= i < |images| && images[i] == n;
      }
    }
  }

}
