# Session archive controller: a Dafny model

This project models the archive controller of a WhatsApp-session server
(`src/controller/archiveController.ts`). The controller stores a customer's
session directory as an archive on a shared mount. `zipSession` packs the
directory into `<customerId>.zip`. `unzipSession` extracts that archive
again when it exists. `discardSessionArchive` deletes it. Packing and
extracting are each wrapped in a bounded exponential-backoff retry loop.

The model has three modules:

- `Retry` (`retry.dfy`) specifies the retry loop once, as a state machine.
  Its state is the `retries` counter, the success flag, whether the loop
  left through its `break`, and the list of delays it asked to sleep.
  An oracle, a `seq<bool>` of per-attempt outcomes, drives it. `Run` gives
  the final state, and the lemmas about `Run` state the loop's properties:
  - it always terminates;
  - it stops right after the first successful attempt;
  - delay k is `2^k * 1000` ms;
  - an operation that always fails makes 7 attempts and 6 delays, then
    gives up without raising.
- `ArchivePaths` (`paths.dfy`) holds the path templates as pure functions:
  `SESSIONS_PATH`, the archive target `<SESSIONS_PATH>/<customerId>.zip`,
  the live directory that `zipSession` packs, and the path `zipSession`
  actually writes to.
- `ArchiveController` (`archive.dfy`) models the filesystem as a class
  `FileSystem` whose one field is the set of existing paths. `zipSession`,
  `unzipSession` and `discardSessionArchive` are methods on it.
  - `IsExists` stands for `isExists` and for the `fs.access(F_OK)` and
    `existsSync` checks. It is nothing more than a membership test on the
    path set, so it has no row of its own below.
  - Each retry loop is a `while` loop that mutates `retries` and the success
    flag, as the source does. The loop is proved to end in the state
    `Retry.Run` gives.
  - Each operation of the controller (`ZipInto`, `ZipSession`, `UnzipInto`,
    `UnzipSession`, `DiscardSessionArchive` and their corrected versions)
    states exactly what the path set is afterwards. The two round-trip
    methods, which chain several operations, state only which of the
    archive target and the live session directory exist at the end.
  - A zip attempt writes its file into a directory, and tar.c fails when
    that directory does not exist. The model follows this: an attempt
    succeeds only when the file's parent directory exists.

An attempt index past the end of an oracle counts as a failed attempt, so
no operation requires an oracle of any particular length.

The retry count follows the code, which differs from the usual reading of
"5 retries". The guard `retries > MAX_RETRIES` is tested before the counter
is incremented. With `MAX_RETRIES = 5`, a failing operation is therefore
attempted at `retries` = 0..6, which is 7 attempts. It sleeps 6 times
(1, 2, 4, 8, 16 and 32 s), for 63 s in all, not the 6 attempts, 5 delays
and about 31 s that the usual reading suggests.

## Model

| member | source | states |
|---|---|---|
| Retry.RunFrom | src/controller/archiveController.ts:21-43 | from any state the loop can reach, running the loop ends in a stopped state that the loop can also reach: counter at most MAX_RETRIES + 1, delays equal to the doubling schedule, every earlier attempt failed |
| Retry.Run | src/controller/archiveController.ts:19-44 | the loop stops either through success or through the break, never both. On success, the last attempt (number `retries`) succeeded; through the break, `retries == MAX_RETRIES + 1`. Every earlier attempt failed, and the recorded delays are the schedule 2^k * 1000 ms for k < retries |
| Retry.ScheduleDoubles | src/controller/archiveController.ts:39-41 | the delay before the retry that follows failed attempt k is 2^k * 1000 ms: the first is 1000 ms and each one doubles the previous one |
| Retry.SucceedsIffSomeAttemptSucceeds | src/controller/archiveController.ts:21-37 | the loop reports success exactly when one of attempts 0..MAX_RETRIES+1 succeeds, in both directions |
| Retry.StopsAfterFirstSuccess | src/controller/archiveController.ts:21-31 | if attempt k is the first to succeed, the loop stops right after it: k + 1 attempts, `retries == k`, delays for attempts 0..k-1 only |
| Retry.FirstAttemptSucceeds | src/controller/archiveController.ts:21-31 | a first attempt that succeeds ends the loop after one attempt, with no delay and `retries` still 0 |
| Retry.AlwaysFailing | src/controller/archiveController.ts:34-42 | an operation that always fails is attempted MAX_RETRIES + 2 = 7 times, with delays 1000, 2000, 4000, 8000, 16000 and 32000 ms. The loop then leaves through the break instead of raising |
| Retry.ScheduleTotal | src/controller/archiveController.ts:39-41 | sleeping through the first n delays takes (2^n - 1) * 1000 ms |
| Retry.WorstCaseWait | src/controller/archiveController.ts:34-42 | for any outcomes, one run of the loop sleeps at most 63000 ms in all |
| Retry.StepPreserves | src/controller/archiveController.ts:31-42 | one pass through the loop body keeps the state reachable and does not change where the run ends |
| ArchivePaths.SessionsPathDecodes | src/controller/archiveController.ts:11-12 | the archive directory is exactly `../../../` + efsMountContainerPath + `/archives`, and the mount path can be read back from it |
| ArchivePaths.SessionsPathInjective | src/controller/archiveController.ts:11-12 | two options give the same archive directory path if and only if their mount paths are spelled the same |
| ArchivePaths.ArchiveTargetDecodes | src/controller/archiveController.ts:52-54 | the target is the archive directory, `/`, the customer id and `.zip`, and it differs from the directory itself |
| ArchivePaths.ArchiveTargetInjective | src/controller/archiveController.ts:81-83 | two customers share an archive target if and only if their ids are equal |
| ArchivePaths.ZipWritePathMissesTarget | src/controller/archiveController.ts:29 | the path zipSession writes to is never an archive target of any customer under any options, and never the archive directory |
| ArchivePaths.ArchiveTargetIsNotSourceDir | src/controller/archiveController.ts:30 | the archive target of line 83 is never the live directory that tar.c packs at line 30, for any options and any customer id: the first ends in `<customerId>.zip`, the second in `/<customerId>` |
| ArchivePaths.ExtractedDirIsSourceDir | src/controller/archiveController.ts:90-93 | extracting into a directory recreates the live session directory path if and only if that directory is spelled the same as customUserDataDir |
| ArchiveController.DirPresentAfterKeeps | src/controller/archiveController.ts:24-27 | an archive directory that exists still exists after any number of attempts |
| ArchiveController.ZipWithoutParentExhausts | src/controller/archiveController.ts:29-42 | when the directory the archive file goes into is missing, every attempt fails: the loop breaks after MAX_RETRIES + 2 = 7 attempts, having slept 63000 ms in all, and never succeeds |
| ArchiveController.TryZip | src/controller/archiveController.ts:23-31 | one attempt creates the missing archive directory when mkdir succeeds, and fails if mkdir fails. Otherwise it succeeds exactly when the archive file's directory exists and the pack succeeds. It adds the archive file exactly when it succeeds |
| ArchiveController.ZipOnce | src/controller/archiveController.ts:22-31 | attempt k succeeds exactly as the k-th attempt result says, and leaves the path set as the earlier attempts left it, plus the directory if mkdir made it, plus the archive file on success |
| ArchiveController.ZipInto | src/controller/archiveController.ts:19-44 | the zip loop ends in `Retry.Run` of the attempt results. Afterwards the path set is the old one, plus the archive directory if some attempt made it, plus the archive file if the run succeeded |
| ArchiveController.ZipSession | src/controller/archiveController.ts:14-46 | as written: the file goes under the directory named by the function text. Unless that directory already exists, the run is exhausted after 7 attempts and 63000 ms of sleeping, and no archive is written. Either way, the archive target that unzip and discard read is left exactly as it was |
| ArchiveController.ZipSessionIntended | src/controller/archiveController.ts:24-30 | corrected: a successful run leaves the archive target and the archive directory in place |
| ArchiveController.UnzipInto | src/controller/archiveController.ts:85-108 | a missing archive makes no attempt and changes nothing. Otherwise the extract loop ends in `Retry.Run` of the outcomes and adds only the extracted directory, on success. The archive is kept |
| ArchiveController.UnzipSession | src/controller/archiveController.ts:77-109 | as written: extraction goes to the archive directory. Unless customUserDataDir is spelled the same as that directory, the live session directory path is neither created nor removed |
| ArchiveController.UnzipSessionIntended | src/controller/archiveController.ts:85-94 | corrected: a successful extraction recreates the live session directory under customUserDataDir |
| ArchiveController.DiscardSessionArchive | src/controller/archiveController.ts:48-66 | if the target exists and the unlink succeeds, exactly that path is removed. Otherwise nothing changes, and that includes an absent target |
| ArchiveController.RoundTripAsWritten | src/controller/archiveController.ts:29-30 | as written: with no archive target before, zip then restore makes no extraction attempt. At the end there is still no archive target and no live session directory: the session is lost |
| ArchiveController.RoundTripIntended | src/controller/archiveController.ts:81-94 | corrected: after a successful zip, the archive target exists and the restore always runs. Once the restore succeeds, the live directory is back where the next zip packs it from |

## Findings

| source | as written | input that shows it | evidently intended | confidence | as-written member | corrected member |
|---|---|---|---|---|---|---|
| src/controller/archiveController.ts:29 | the file path interpolates the function `SESSIONS_PATH` itself, so tar.c is asked to write `<function source text>/<customerId>.zip`. That text contains `/` and names a directory path that does not exist, so every attempt fails | any customer, e.g. `cust42` with mount `efs`: all 7 attempts fail, the loop sleeps 63 s and gives up, and `../../../efs/archives/cust42.zip`, which unzip checks, is never created | `${SESSIONS_PATH(serverOptions)}/${customerId}.zip`, the target of lines 54 and 83 | high, not executed | ArchiveController.ZipSession | ArchiveController.ZipSessionIntended |
| src/controller/archiveController.ts:92 | tar.x extracts with `cwd` set to the archive directory | mount `efs`, customUserDataDir `./userDataDir`, customer `cust42`: the session comes back as `../../../efs/archives/cust42`, while zip packs `./userDataDir/cust42` | extract with `cwd: serverOptions.customUserDataDir`, the directory zip packs from (line 30) | medium, not executed | ArchiveController.UnzipSession | ArchiveController.UnzipSessionIntended |

`ArchiveController.RoundTripAsWritten` and `ArchivePaths.ZipWritePathMissesTarget` also show the first finding. The corrected pair is used by
`ArchiveController.RoundTripIntended`.

## Left out

- Real filesystem and archive calls (`existsSync`, `mkdirSync`, `access`, `unlink`, `tar.c`, `tar.x`): each is replaced by a membership test on the path set or by an oracle outcome.
- The archive's contents: an archive is a path. A successful extraction recreates the directory named by the customer id, the single entry that zipSession packs. Byte-level round trips are not modelled.
- Partial results of failed attempts: a failed `tar.c` or `tar.x` adds no path in the model, although a real one may leave an incomplete file or directory behind.
- Whether `tar.c` finds the live directory is not tied to the path set: a missing source directory shows up only as failing pack outcomes in the oracle.
- `setTimeout` sleeping (line 9): the requested delay is recorded instead.
- `console.*` logging and `JSON.stringify` of errors, which are diagnostics only.
- The exact text JavaScript produces when it renders a function value (line 29): `ArchivePaths.FunctionText` stands for it. The model uses only two facts about it: it does not start with `.` (the stand-in starts with `(`, one possible first character; a compiled build would start with `function`), and it is the directory the archive file must go into. Whether that directory exists is read from the path set, so a filesystem that happens to contain it lets the pack through.
- Directories above the archive file's directory are not modelled one by one. `mkdirSync` with `recursive: true` is one oracle outcome that creates the archive directory as a single path.
- The callback structure of `discardSessionArchive` (it is not awaited, and its unlink runs later). The model performs the check and the unlink at once, and an `unlinkOk` flag gives the unlink's result.
- Concurrency: overlapping requests for the same customer are not modelled, and every operation runs to completion on its own.
- Route classification and the request lifecycle hooks that call these functions are not part of this model. They are not in `archiveController.ts`.
- Path equivalence: paths are compared as strings. Trailing slashes, `.` and `..` segments, and relative against absolute spellings are not normalised, so two spellings of one directory count as two paths. A customUserDataDir of `../../../efs/archives/` names the archive directory on a real filesystem, yet the model treats it as a different path.
- No sanitisation of the customer id: ids are used as given, as in the source, and ids containing `/` or `..` are not treated specially.
