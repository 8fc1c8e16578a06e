/** zipSession, unzipSession, isExists and discardSessionArchive over an
    abstract filesystem: the set of paths that exist. Each archive or
    extraction attempt takes its result from an oracle; the loops sleep
    by recording the requested delay. */
module ArchiveController {
  import opened Retry
  import opened ArchivePaths

  datatype Option<T> = None | Some(value: T)

  /** The shared filesystem, reduced to the paths that exist on it. */
  class FileSystem {
    var paths: set<string>

    constructor (initial: set<string>)
      ensures paths == initial
    {
      paths := initial;
    }
  }

  /** What one archive attempt meets: whether mkdirSync would succeed
      (consulted only when the archive directory is missing) and whether
      tar.c would succeed. */
  datatype ZipAttempt = ZipAttempt(mkdirOk: bool, packOk: bool)

  /** Whether the archive directory exists once the first `n` attempts ran. */
  predicate DirPresentAfter(dirPresent: bool, attempts: seq<ZipAttempt>, n: nat)
  {
    if n == 0 then dirPresent
    else DirPresentAfter(dirPresent, attempts, n - 1) || (n - 1 < |attempts| && attempts[n - 1].mkdirOk)
  }

  /** Attempt k succeeds when the archive directory is there (found, or
      just made), the directory the archive file goes into exists
      (`parentOk`), and the pack succeeds. */
  function ZipResults(dirPresent: bool, parentOk: bool, attempts: seq<ZipAttempt>): seq<bool>
  {
    seq(|attempts|, k requires 0 <= k < |attempts| => attempts[k].packOk && parentOk && DirPresentAfter(dirPresent, attempts, k + 1))
  }

  /** An existing archive directory stays: no attempt removes it. */
  lemma {:induction false} DirPresentAfterKeeps(dirPresent: bool, attempts: seq<ZipAttempt>, n: nat)
    ensures dirPresent ==> DirPresentAfter(dirPresent, attempts, n)
  {
    if n > 0 {
      DirPresentAfterKeeps(dirPresent, attempts, n - 1);
    }
  }

  /** When the archive file's directory is missing, every pack fails with
      it: the loop makes all 7 attempts, sleeps 63 seconds in all, and
      writes nothing. */
  lemma ZipWithoutParentExhausts(dirPresent: bool, attempts: seq<ZipAttempt>)
    ensures var r := Run(ZipResults(dirPresent, false, attempts));
      && r.exhausted && !r.succeeded
      && r.Attempts() == MaxRetries + 2
      && Sum(r.delays) == 63000
  {
    var r := Run(ZipResults(dirPresent, false, attempts));
    AlwaysFailing(ZipResults(dirPresent, false, attempts));
    ScheduleTotal(r.retries);
    assert Pow2(6) == 64;
  }

  /** Reads attempt k's result off ZipResults, for the loop proof. */
  lemma ZipResultAt(dirPresent: bool, parentOk: bool, attempts: seq<ZipAttempt>, k: nat, attempt: ZipAttempt)
    requires attempt == if k < |attempts| then attempts[k] else ZipAttempt(false, false)
    ensures AttemptSucceeds(ZipResults(dirPresent, parentOk, attempts), k)
      <==> attempt.packOk && parentOk && (DirPresentAfter(dirPresent, attempts, k) || attempt.mkdirOk)
  {
  }

  /** `base` with the archive directory and the archive file added when
      present. */
  function PathsWith(base: set<string>, dirPath: string, dir: bool, filePath: string, file: bool): set<string>
  {
    base + (if dir then {dirPath} else {}) + (if file then {filePath} else {})
  }

  /** The path set after one more attempt, in the loop's terms. */
  lemma PathsAfterAttempt(base: set<string>, before: set<string>, dirPath: string, filePath: string,
                          dirBefore: bool, dirMade: bool, dirAfter: bool, packed: bool)
    requires before == PathsWith(base, dirPath, dirBefore, filePath, false)
    requires dirAfter == (dirBefore || dirMade)
    ensures before + (if dirMade then {dirPath} else {}) + (if packed then {filePath} else {})
         == PathsWith(base, dirPath, dirAfter, filePath, packed)
  {
  }

  /** isExists: whether `target` is on the filesystem. */
  method IsExists(fs: FileSystem, target: string) returns (present: bool)
    ensures present <==> target in fs.paths
  {
    present := target in fs.paths;
  }

  /** One pass through zipSession's `try` block: create the archive
      directory when it is missing, then pack into `parentDir/fileName`.
      tar.c cannot open that file unless `parentDir` exists. */
  method TryZip(fs: FileSystem, dirPath: string, parentDir: string, fileName: string, attempt: ZipAttempt) returns (ok: bool)
    modifies fs
    ensures ok <==> && (dirPath in old(fs.paths) || attempt.mkdirOk)
                    && (parentDir in old(fs.paths) || parentDir == dirPath)
                    && attempt.packOk
    ensures fs.paths == old(fs.paths)
      + (if attempt.mkdirOk then {dirPath} else {})
      + (if ok then {parentDir + "/" + fileName} else {})
  {
    var dirExists := IsExists(fs, dirPath);
    if !dirExists {
      if !attempt.mkdirOk {
        return false;
      }
      fs.paths := fs.paths + {dirPath};
    }
    var parentExists := IsExists(fs, parentDir);
    ok := parentExists && attempt.packOk;
    if ok {
      fs.paths := fs.paths + {parentDir + "/" + fileName};
    }
  }

  /** Attempt number `k` of zipSession's loop, on a filesystem that is
      `base` with what the earlier attempts added. */
  method ZipOnce(fs: FileSystem, dirPath: string, parentDir: string, fileName: string, attempts: seq<ZipAttempt>, k: nat,
                 ghost base: set<string>)
    returns (ok: bool)
    modifies fs
    requires fs.paths == PathsWith(base, dirPath, DirPresentAfter(dirPath in base, attempts, k), parentDir + "/" + fileName, false)
    ensures ok == AttemptSucceeds(ZipResults(dirPath in base, parentDir in base || parentDir == dirPath, attempts), k)
    ensures fs.paths == PathsWith(base, dirPath, DirPresentAfter(dirPath in base, attempts, k + 1), parentDir + "/" + fileName, ok)
  {
    ghost var dir0 := dirPath in base;
    ghost var dirNow := DirPresentAfter(dir0, attempts, k);
    ghost var before := fs.paths;
    assert |parentDir + "/" + fileName| > |parentDir|;
    var attempt := if k < |attempts| then attempts[k] else ZipAttempt(false, false);
    assert dirPath in before <==> dirNow by {
      DirPresentAfterKeeps(dir0, attempts, k);
    }
    ok := TryZip(fs, dirPath, parentDir, fileName, attempt);
    ZipResultAt(dir0, parentDir in base || parentDir == dirPath, attempts, k, attempt);
    PathsAfterAttempt(base, before, dirPath, parentDir + "/" + fileName, dirNow, attempt.mkdirOk,
      DirPresentAfter(dir0, attempts, k + 1), ok);
  }

  /** The retry loop of zipSession, packing into `parentDir/fileName`. */
  method ZipInto(fs: FileSystem, opts: ServerOptions, parentDir: string, fileName: string, attempts: seq<ZipAttempt>) returns (run: LoopState)
    modifies fs
    ensures run == Run(ZipResults(SessionsPath(opts) in old(fs.paths),
                                  parentDir in old(fs.paths) || parentDir == SessionsPath(opts), attempts))
    ensures fs.paths == PathsWith(old(fs.paths), SessionsPath(opts),
      DirPresentAfter(SessionsPath(opts) in old(fs.paths), attempts, run.Attempts()),
      parentDir + "/" + fileName, run.succeeded)
  {
    var dirPath := SessionsPath(opts);
    ghost var base := fs.paths;
    ghost var oks := ZipResults(dirPath in base, parentDir in base || parentDir == dirPath, attempts);
    ghost var st := Start;
    var succeeded := false;
    var exhausted := false;
    var retries: nat := 0;
    var delays: seq<nat> := [];
    while !succeeded
      invariant st == LoopState(retries, succeeded, false, delays)
      invariant Consistent(oks, st) && RunFrom(oks, st) == Run(oks)
      invariant fs.paths == PathsWith(base, dirPath,
        DirPresentAfter(dirPath in base, attempts, if succeeded then retries + 1 else retries),
        parentDir + "/" + fileName, succeeded)
      decreases MaxRetries + 1 - retries, if succeeded then 0 else 1
    {
      succeeded := ZipOnce(fs, dirPath, parentDir, fileName, attempts, retries, base);
      StepPreserves(oks, st);
      st := Step(st, succeeded);
      if !succeeded {
        if retries > MaxRetries {
          exhausted := true;
          break;
        }
        delays := delays + [BackoffDelay(retries)];
        retries := retries + 1;
      }
    }
    run := LoopState(retries, succeeded, exhausted, delays);
  }

  /** zipSession as written: the archive file is named after the text of
      the function SESSIONS_PATH, so it goes into the directory that text
      names. Where no such directory exists, which is every ordinary
      deployment, each pack fails and the loop runs to exhaustion. Either
      way the target that unzipSession and discardSessionArchive look for
      is neither created nor touched. */
  method ZipSession(fs: FileSystem, customerId: string, opts: ServerOptions, attempts: seq<ZipAttempt>) returns (run: LoopState)
    modifies fs
    ensures run == Run(ZipResults(SessionsPath(opts) in old(fs.paths), FunctionText in old(fs.paths), attempts))
    ensures fs.paths == old(fs.paths)
      + (if DirPresentAfter(SessionsPath(opts) in old(fs.paths), attempts, run.Attempts()) then {SessionsPath(opts)} else {})
      + (if run.succeeded then {ZipWritePath(customerId)} else {})
    ensures FunctionText !in old(fs.paths) ==>
      && run.exhausted && !run.succeeded
      && run.Attempts() == MaxRetries + 2 && Sum(run.delays) == 63000
    ensures ArchiveTarget(opts, customerId) in fs.paths <==> ArchiveTarget(opts, customerId) in old(fs.paths)
  {
    ZipWritePathMissesTarget(opts, customerId, customerId);
    ArchiveTargetDecodes(opts, customerId);
    ZipWithoutParentExhausts(SessionsPath(opts) in fs.paths, attempts);
    run := ZipInto(fs, opts, FunctionText, ArchiveFileName(customerId), attempts);
  }

  /** zipSession with the archive written to the archive target. */
  method ZipSessionIntended(fs: FileSystem, customerId: string, opts: ServerOptions, attempts: seq<ZipAttempt>) returns (run: LoopState)
    modifies fs
    ensures run == Run(ZipResults(SessionsPath(opts) in old(fs.paths), true, attempts))
    ensures fs.paths == old(fs.paths)
      + (if DirPresentAfter(SessionsPath(opts) in old(fs.paths), attempts, run.Attempts()) then {SessionsPath(opts)} else {})
      + (if run.succeeded then {ArchiveTarget(opts, customerId)} else {})
    ensures run.succeeded ==> ArchiveTarget(opts, customerId) in fs.paths && SessionsPath(opts) in fs.paths
  {
    run := ZipInto(fs, opts, SessionsPath(opts), ArchiveFileName(customerId), attempts);
  }

  /** unzipSession with the extraction made in `cwd`: nothing happens when
      the archive is missing; otherwise the retry loop runs tar.x, which on
      success recreates the entry `<customerId>` under `cwd`. The archive
      itself is left in place. */
  method UnzipInto(fs: FileSystem, customerId: string, opts: ServerOptions, cwd: string, outcomes: seq<bool>) returns (run: Option<LoopState>)
    modifies fs
    ensures ArchiveTarget(opts, customerId) !in old(fs.paths) ==> run == None && fs.paths == old(fs.paths)
    ensures ArchiveTarget(opts, customerId) in old(fs.paths) ==>
      && run == Some(Run(outcomes))
      && fs.paths == old(fs.paths) + (if run.value.succeeded then {ExtractedDir(cwd, customerId)} else {})
  {
    var target := ArchiveTarget(opts, customerId);
    var present := IsExists(fs, target);
    if !present {
      return None;
    }
    var succeeded := false;
    var exhausted := false;
    var retries: nat := 0;
    var delays: seq<nat> := [];
    while !succeeded
      invariant Consistent(outcomes, LoopState(retries, succeeded, false, delays))
      invariant RunFrom(outcomes, LoopState(retries, succeeded, false, delays)) == Run(outcomes)
      invariant fs.paths == old(fs.paths) + (if succeeded then {ExtractedDir(cwd, customerId)} else {})
      decreases MaxRetries + 1 - retries, if succeeded then 0 else 1
    {
      ghost var s := LoopState(retries, false, false, delays);
      var extracted := retries < |outcomes| && outcomes[retries];
      StepPreserves(outcomes, s);
      if extracted {
        fs.paths := fs.paths + {ExtractedDir(cwd, customerId)};
        succeeded := true;
      } else {
        if retries > MaxRetries {
          exhausted := true;
          break;
        }
        delays := delays + [BackoffDelay(retries)];
        retries := retries + 1;
      }
    }
    run := Some(LoopState(retries, succeeded, exhausted, delays));
  }

  /** unzipSession as written: it extracts into the archive directory, so
      the session comes back at SessionsPath(opts)/<customerId> rather than
      in customUserDataDir, where zipSession packs it from. */
  method UnzipSession(fs: FileSystem, customerId: string, opts: ServerOptions, outcomes: seq<bool>) returns (run: Option<LoopState>)
    modifies fs
    ensures ArchiveTarget(opts, customerId) !in old(fs.paths) ==> run == None && fs.paths == old(fs.paths)
    ensures ArchiveTarget(opts, customerId) in old(fs.paths) ==>
      && run == Some(Run(outcomes))
      && fs.paths == old(fs.paths) + (if run.value.succeeded then {ExtractedDir(SessionsPath(opts), customerId)} else {})
    ensures opts.customUserDataDir != SessionsPath(opts) ==>
      (SourceDir(opts, customerId) in fs.paths <==> SourceDir(opts, customerId) in old(fs.paths))
  {
    ExtractedDirIsSourceDir(opts, SessionsPath(opts), customerId);
    run := UnzipInto(fs, customerId, opts, SessionsPath(opts), outcomes);
  }

  /** unzipSession extracting into customUserDataDir. */
  method UnzipSessionIntended(fs: FileSystem, customerId: string, opts: ServerOptions, outcomes: seq<bool>) returns (run: Option<LoopState>)
    modifies fs
    ensures ArchiveTarget(opts, customerId) !in old(fs.paths) ==> run == None && fs.paths == old(fs.paths)
    ensures ArchiveTarget(opts, customerId) in old(fs.paths) ==>
      && run == Some(Run(outcomes))
      && fs.paths == old(fs.paths) + (if run.value.succeeded then {SourceDir(opts, customerId)} else {})
  {
    run := UnzipInto(fs, customerId, opts, opts.customUserDataDir, outcomes);
  }

  /** discardSessionArchive: if the archive target exists it is unlinked
      (unless the unlink fails, which is only logged); nothing else changes. */
  method DiscardSessionArchive(fs: FileSystem, customerId: string, opts: ServerOptions, unlinkOk: bool) returns (removed: bool)
    modifies fs
    ensures removed <==> ArchiveTarget(opts, customerId) in old(fs.paths) && unlinkOk
    ensures fs.paths == if removed then old(fs.paths) - {ArchiveTarget(opts, customerId)} else old(fs.paths)
    ensures ArchiveTarget(opts, customerId) !in old(fs.paths) ==> fs.paths == old(fs.paths)
  {
    var target := ArchiveTarget(opts, customerId);
    var present := IsExists(fs, target);
    if !present {
      removed := false;
    } else if unlinkOk {
      fs.paths := fs.paths - {target};
      removed := true;
    } else {
      removed := false;
    }
  }

  /** Archive, lose the live directory, restore, as the code is written:
      when no archive target existed before, the restore finds nothing and
      makes no attempt, so the live directory stays lost. */
  method RoundTripAsWritten(fs: FileSystem, customerId: string, opts: ServerOptions, zipAttempts: seq<ZipAttempt>, unzipOutcomes: seq<bool>)
    returns (unzipRun: Option<LoopState>)
    requires ArchiveTarget(opts, customerId) !in fs.paths
    modifies fs
    ensures unzipRun == None
    ensures ArchiveTarget(opts, customerId) !in fs.paths
    ensures SourceDir(opts, customerId) !in fs.paths
  {
    var zipRun := ZipSession(fs, customerId, opts, zipAttempts);
    fs.paths := fs.paths - {SourceDir(opts, customerId)};
    unzipRun := UnzipSession(fs, customerId, opts, unzipOutcomes);
  }

  /** The same with the corrected zip and unzip: once both succeed, the
      live directory is back where the next archive will pack it from. */
  method RoundTripIntended(fs: FileSystem, customerId: string, opts: ServerOptions, zipAttempts: seq<ZipAttempt>, unzipOutcomes: seq<bool>)
    returns (zipRun: LoopState, unzipRun: Option<LoopState>)
    modifies fs
    ensures zipRun.succeeded ==> unzipRun == Some(Run(unzipOutcomes))
    ensures zipRun.succeeded ==> ArchiveTarget(opts, customerId) in fs.paths
    ensures zipRun.succeeded && unzipRun.Some? && unzipRun.value.succeeded ==> SourceDir(opts, customerId) in fs.paths
  {
    ArchiveTargetIsNotSourceDir(opts, customerId);
    zipRun := ZipSessionIntended(fs, customerId, opts, zipAttempts);
    fs.paths := fs.paths - {SourceDir(opts, customerId)};
    unzipRun := UnzipSessionIntended(fs, customerId, opts, unzipOutcomes);
  }
}
