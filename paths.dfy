/** The path templates of the archive controller. Paths are plain strings
    and two paths are the same only when they are spelled the same:
    nothing is normalised, and the customer id is used as given. */
module ArchivePaths {

  /** The two fields of the server options the controller reads. */
  datatype ServerOptions = ServerOptions(efsMountContainerPath: string, customUserDataDir: string)

  /** SESSIONS_PATH: the directory that holds the archives. */
  function SessionsPath(opts: ServerOptions): string
  {
    "../../../" + opts.efsMountContainerPath + "/archives"
  }

  /** The archive's file name, `<customerId>.zip` (the content is tar). */
  function ArchiveFileName(customerId: string): string
  {
    customerId + ".zip"
  }

  /** The archive target that unzipSession and discardSessionArchive use. */
  function ArchiveTarget(opts: ServerOptions, customerId: string): string
  {
    SessionsPath(opts) + "/" + ArchiveFileName(customerId)
  }

  /** The live session directory that zipSession packs: the entry
      `<customerId>` taken relative to customUserDataDir. */
  function SourceDir(opts: ServerOptions, customerId: string): string
  {
    opts.customUserDataDir + "/" + customerId
  }

  /** The directory an extraction into `cwd` recreates from an archive
      whose single entry is `<customerId>`. */
  function ExtractedDir(cwd: string, customerId: string): string
  {
    cwd + "/" + customerId
  }

  /** Stands for the text JavaScript substitutes when the function value
      SESSIONS_PATH itself is interpolated into a template string. Its exact
      characters are not modelled, and `(` is one possible first character
      (an arrow function kept as written; a compiled build gives `function`).
      The real text contains `/` characters, so it names a nested directory
      path. What the model uses is only that it does not begin with `.`,
      so it is not a path under `../../../`. */
  const FunctionText: string := "(serverOptions) => ..."

  /** The file zipSession actually writes to: `/<customerId>.zip` inside
      the directory the function text names, not the archive directory. */
  function ZipWritePath(customerId: string): string
  {
    FunctionText + "/" + ArchiveFileName(customerId)
  }

  /** The archive directory is exactly `../../../`, the mount path and
      `/archives`, and the mount path can be read back from it. */
  lemma SessionsPathDecodes(opts: ServerOptions)
    ensures var p := SessionsPath(opts);
      && |p| == |opts.efsMountContainerPath| + 18
      && p[..9] == "../../../"
      && p[9..|p| - 9] == opts.efsMountContainerPath
      && p[|p| - 9..] == "/archives"
  {
  }

  /** Different mount paths give different archive directories. */
  lemma SessionsPathInjective(a: ServerOptions, b: ServerOptions)
    ensures SessionsPath(a) == SessionsPath(b) <==> a.efsMountContainerPath == b.efsMountContainerPath
  {
    SessionsPathDecodes(a);
    SessionsPathDecodes(b);
  }

  /** The target lies directly in the archive directory, ends in `.zip`,
      names the customer between the two, and is not the directory itself. */
  lemma ArchiveTargetDecodes(opts: ServerOptions, customerId: string)
    ensures var t, d := ArchiveTarget(opts, customerId), SessionsPath(opts);
      && |t| == |d| + |customerId| + 5
      && t[..|d| + 1] == d + "/"
      && t[|d| + 1..|t| - 4] == customerId
      && t[|t| - 4..] == ".zip"
      && t != d
  {
  }

  /** Each customer has an archive of its own. */
  lemma ArchiveTargetInjective(opts: ServerOptions, a: string, b: string)
    ensures ArchiveTarget(opts, a) == ArchiveTarget(opts, b) <==> a == b
  {
    ArchiveTargetDecodes(opts, a);
    ArchiveTargetDecodes(opts, b);
  }

  /** The file zipSession writes is never an archive target, for any
      options and any customer, nor the archive directory. */
  lemma ZipWritePathMissesTarget(opts: ServerOptions, customerId: string, other: string)
    ensures ZipWritePath(customerId) != ArchiveTarget(opts, other)
    ensures ZipWritePath(customerId) != SessionsPath(opts)
    ensures FunctionText != SessionsPath(opts)
  {
    assert ZipWritePath(customerId)[0] == '(';
    assert ArchiveTarget(opts, other)[0] == '.';
    assert SessionsPath(opts)[0] == '.';
  }

  /** `id + ".zip"` from index 3 on differs from `"/" + id`: starting from
      an index j (3 mod 4) whose character is not `/`, step back by 4 until
      two characters 4 apart differ, or index 3 is reached. Returns the
      position of the difference. */
  lemma {:induction false} SuffixMismatch(id: string, j: nat) returns (p: nat)
    requires j % 4 == 3 && j < |id| + 4 && (id + ".zip")[j] != '/'
    ensures p < |id| + 1 && (id + ".zip")[p + 3] != ("/" + id)[p]
    decreases j
  {
    var s := id + ".zip";
    if j == 3 {
      p := 0;
    } else if s[j] != s[j - 4] {
      p := j - 3;
      assert ("/" + id)[p] == id[j - 4] == s[j - 4];
    } else {
      p := SuffixMismatch(id, j - 4);
    }
  }

  /** No archive target is ever the live session directory: the target
      ends in `<customerId>.zip`, the live directory in `/<customerId>`,
      and no string ends in both. */
  lemma ArchiveTargetIsNotSourceDir(opts: ServerOptions, customerId: string)
    ensures ArchiveTarget(opts, customerId) != SourceDir(opts, customerId)
  {
    var t, u := ArchiveTarget(opts, customerId), SourceDir(opts, customerId);
    var n := |customerId|;
    var s := customerId + ".zip";
    var j := n + 3 - n % 4;
    assert s[j] == ".zip"[j - n];
    var p := SuffixMismatch(customerId, j);
    assert t[|t| - (n + 1) + p] == s[p + 3];
    assert u[|u| - (n + 1) + p] == ("/" + customerId)[p];
  }

  /** Extracting into the archive directory recreates the live directory
      only when customUserDataDir happens to be that very directory. */
  lemma ExtractedDirIsSourceDir(opts: ServerOptions, cwd: string, customerId: string)
    ensures ExtractedDir(cwd, customerId) == SourceDir(opts, customerId) <==> cwd == opts.customUserDataDir
  {
    var e, s := ExtractedDir(cwd, customerId), SourceDir(opts, customerId);
    if e == s {
      var n := |customerId| + 1;
      assert e[..|e| - n] == cwd;
      assert s[..|s| - n] == opts.customUserDataDir;
    }
  }
}
