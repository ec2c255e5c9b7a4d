/** The upload script (upload.ts) up to the transfer: the target environment and flags, the FTP
    configuration and its validation, the walk over the build directory, the mapping of each
    local file to its remote path, and the dry-run report. The directory tree, the file sizes,
    the process environment and whether the build directory exists are inputs; paths are taken
    in resolved form, the build directory being `root`. */
module Upload {
  import opened Wrappers
  import opened Text
  import opened Seqs
  import Build

  // ---------------------------------------------------------------------------------------
  // Arguments

  predicate HelpRequested(args: seq<string>) {
    "--help" in args || "-h" in args
  }

  predicate DryRunRequested(args: seq<string>) {
    "--dry-run" in args || "-d" in args
  }

  /** The index of the first argument at or after `from` that does not start with "-". */
  function FirstPositional(args: seq<string>, from: nat): (r: Option<nat>)
    ensures r.Some? ==> from <= r.value < |args| && !StartsWith(args[r.value], "-")
    ensures r.Some? ==> forall j :: from <= j < r.value ==> StartsWith(args[j], "-")
    ensures r.None? ==> forall j :: from <= j < |args| ==> StartsWith(args[j], "-")
    decreases |args| - from
  {
    if from >= |args| then None
    else if !StartsWith(args[from], "-") then Some(from)
    else FirstPositional(args, from + 1)
  }

  /** `args.find(arg => !arg.startsWith("-")) || "prod"`: an empty first positional argument
      is falsy and also gives "prod". */
  function UploadTarget(args: seq<string>): (target: string)
    ensures target != ""
    ensures target == "prod" || exists i :: 0 <= i < |args| && args[i] == target && !StartsWith(target, "-")
  {
    match FirstPositional(args, 0)
    case Some(i) => if args[i] == "" then "prod" else args[i]
    case None => "prod"
  }

  /** The first argument that is not an option names the target, whatever follows it. */
  lemma TargetAfterOptions(options: seq<string>, target: string, rest: seq<string>)
    requires forall j :: 0 <= j < |options| ==> StartsWith(options[j], "-")
    requires target != "" && !StartsWith(target, "-")
    ensures UploadTarget(options + [target] + rest) == target
  {
    var args := options + [target] + rest;
    assert args[|options|] == target;
    assert forall j :: 0 <= j < |options| ==> args[j] == options[j];
    assert FirstPositional(args, 0) == Some(|options|);
  }

  /** Options alone upload the production build. */
  lemma TargetDefaultsToProd(args: seq<string>)
    requires forall j :: 0 <= j < |args| ==> StartsWith(args[j], "-")
    ensures UploadTarget(args) == "prod"
  {
  }

  // ---------------------------------------------------------------------------------------
  // Configuration

  /** The environment file the script reports reading its settings from. */
  function EnvFile(e: Build.Env): (file: string)
    ensures e == Build.Dev <==> file == ".env.development"
    ensures e == Build.Stage <==> file == ".env.staging"
    ensures e == Build.Prod <==> file == ".env.production"
  {
    match e
    case Dev => ".env.development"
    case Stage => ".env.staging"
    case Prod => ".env.production"
  }

  /** `ftpConfig`; `port` is `parseInt` of the port setting, `None` standing for NaN. */
  datatype FtpConfig = FtpConfig(host: Option<string>, port: Option<int>, user: Option<string>,
                                 password: Option<string>, remotePath: string, secure: bool)

  /** The remote directory used when FTP_REMOTE_PATH is absent or empty. */
  function DefaultRemotePath(e: Build.Env): (path: string)
    ensures StartsWith(path, "/")
    ensures e == Build.Prod ==> path == "/"
    ensures e != Build.Prod ==> path[1..] == Build.EnvName(e)
  {
    if e == Build.Prod then "/" else "/" + Build.EnvName(e)
  }

  function ConfigFrom(e: Build.Env, environ: Build.Environ): (c: FtpConfig)
    ensures c.host == Build.Var(environ, "FTP_HOST") && c.user == Build.Var(environ, "FTP_USER")
    ensures c.password == Build.Var(environ, "FTP_PASSWORD")
    ensures !Truthy(Build.Var(environ, "FTP_PORT")) ==> c.port == ParseInt("21")
    ensures Truthy(Build.Var(environ, "FTP_PORT")) ==> c.port == ParseInt(environ["FTP_PORT"])
    ensures Truthy(Build.Var(environ, "FTP_REMOTE_PATH")) ==> c.remotePath == environ["FTP_REMOTE_PATH"]
    ensures !Truthy(Build.Var(environ, "FTP_REMOTE_PATH")) ==> c.remotePath == DefaultRemotePath(e)
    ensures c.secure <==> Build.Var(environ, "FTP_SECURE") == Some("true")
  {
    var port := Build.Var(environ, "FTP_PORT");
    var remote := Build.Var(environ, "FTP_REMOTE_PATH");
    FtpConfig(Build.Var(environ, "FTP_HOST"),
              ParseInt(if Truthy(port) then port.value else "21"),
              Build.Var(environ, "FTP_USER"),
              Build.Var(environ, "FTP_PASSWORD"),
              if Truthy(remote) then remote.value else DefaultRemotePath(e),
              Build.Var(environ, "FTP_SECURE") == Some("true"))
  }

  /** Without a port setting the port is 21. */
  lemma DefaultPort(e: Build.Env, environ: Build.Environ)
    requires !Truthy(Build.Var(environ, "FTP_PORT"))
    ensures ConfigFrom(e, environ).port == Some(21)
  {
    assert NatToString(21) == "21" by {
      assert NatToString(2) == "2";
    }
    ParseIntOfNat(21, "");
    assert NatToString(21) + "" == "21";
  }

  /** The required settings, in the order they are checked. */
  function Required(c: FtpConfig): seq<(string, Option<string>)> {
    [("FTP_HOST", c.host), ("FTP_USER", c.user), ("FTP_PASSWORD", c.password)]
  }

  /** The name of a required setting, when its value is missing or empty. */
  function MissingName(setting: (string, Option<string>)): Option<string> {
    if Truthy(setting.1) then None else Some(setting.0)
  }

  /** The names of the missing settings, in checking order. */
  function MissingKeys(c: FtpConfig): (keys: seq<string>)
    ensures |keys| <= 3
    ensures forall k :: k in keys ==> k in ["FTP_HOST", "FTP_USER", "FTP_PASSWORD"]
  {
    var keys := FilterMap(MissingName, Required(c));
    FilterMapOrigins(MissingName, Required(c));
    assert forall j :: 0 <= j < 3 ==> MissingName(Required(c)[j]).Some? ==> MissingName(Required(c)[j]).value == Required(c)[j].0;
    keys
  }

  /** `missingConfig`, built by one `push` per missing setting. */
  method CheckConfig(c: FtpConfig) returns (missingConfig: seq<string>)
    ensures missingConfig == MissingKeys(c)
  {
    missingConfig := [];
    if !Truthy(c.host) {
      missingConfig := missingConfig + ["FTP_HOST"];
    }
    if !Truthy(c.user) {
      missingConfig := missingConfig + ["FTP_USER"];
    }
    if !Truthy(c.password) {
      missingConfig := missingConfig + ["FTP_PASSWORD"];
    }
    var r := Required(c);
    assert r[..3] == r;
    FilterMapStep(MissingName, r, 0);
    FilterMapStep(MissingName, r, 1);
    FilterMapStep(MissingName, r, 2);
    assert r[..0] == [];
  }

  /** The report lists the missing settings among FTP_HOST, FTP_USER and FTP_PASSWORD, in that
      order. */
  lemma MissingKeysInOrder(c: FtpConfig)
    ensures MissingKeys(c) == (if Truthy(c.host) then [] else ["FTP_HOST"])
                            + (if Truthy(c.user) then [] else ["FTP_USER"])
                            + (if Truthy(c.password) then [] else ["FTP_PASSWORD"])
  {
    var r := Required(c);
    assert r[..3] == r;
    FilterMapStep(MissingName, r, 0);
    FilterMapStep(MissingName, r, 1);
    FilterMapStep(MissingName, r, 2);
    assert r[..0] == [];
  }

  /** A setting is reported exactly when it is missing or empty, and the report is empty exactly
      when all three are set. */
  lemma MissingKeysExact(c: FtpConfig)
    ensures "FTP_HOST" in MissingKeys(c) <==> !Truthy(c.host)
    ensures "FTP_USER" in MissingKeys(c) <==> !Truthy(c.user)
    ensures "FTP_PASSWORD" in MissingKeys(c) <==> !Truthy(c.password)
    ensures MissingKeys(c) == [] <==> Truthy(c.host) && Truthy(c.user) && Truthy(c.password)
  {
    MissingKeysInOrder(c);
  }

  /** The password as the verbose listing shows it: one "*" per character. */
  function Mask(password: string): (masked: string)
    ensures |masked| == |password|
    ensures forall i :: 0 <= i < |masked| ==> masked[i] == '*'
  {
    if password == [] then [] else Mask(password[1..]) + "*"
  }

  // ---------------------------------------------------------------------------------------
  // The directory walk

  /** An entry of a directory listing: a file with its size in bytes, or a sub-directory. */
  datatype Entry = File(name: string, size: nat) | Dir(name: string, children: seq<Entry>)

  /** A collected file: its path and the size `statSync` reports for it. */
  datatype LocalFile = LocalFile(path: string, size: nat)

  /** `path.join(dir, name)` for a plain name. */
  function ChildPath(dir: string, name: string): string {
    dir + "/" + name
  }

  /** The files under an entry of `dir`, depth first. */
  function FilesOf(dir: string, e: Entry): (files: seq<LocalFile>)
    ensures forall k :: 0 <= k < |files| ==> StartsWith(files[k].path, dir + "/")
    decreases e
  {
    match e
    case File(name, size) =>
      assert StartsWith(ChildPath(dir, name), dir + "/") by {
        assert ChildPath(dir, name)[..|dir + "/"|] == dir + "/";
      }
      [LocalFile(ChildPath(dir, name), size)]
    case Dir(name, children) =>
      var sub := FilesIn(ChildPath(dir, name), children);
      forall k | 0 <= k < |sub| ensures StartsWith(sub[k].path, dir + "/") {
        assert sub[k].path[..|dir + "/"|] == (ChildPath(dir, name) + "/")[..|dir + "/"|];
      }
      sub
  }

  /** The files under the entries of `dir`, entry after entry: the non-directory entries of the
      tree in depth-first listing order. */
  function FilesIn(dir: string, entries: seq<Entry>): (files: seq<LocalFile>)
    ensures forall k :: 0 <= k < |files| ==> StartsWith(files[k].path, dir + "/")
    decreases entries
  {
    if entries == [] then []
    else
      var init := FilesIn(dir, entries[..|entries| - 1]);
      var last := FilesOf(dir, entries[|entries| - 1]);
      assert forall k :: |init| <= k < |init| + |last| ==> (init + last)[k] == last[k - |init|];
      init + last
  }

  /** `getAllFiles`: each entry of the listing is either walked recursively, threading the
      accumulated list through, or pushed. */
  method GetAllFiles(dir: string, entries: seq<Entry>, arrayOfFiles: seq<LocalFile>)
    returns (files: seq<LocalFile>)
    ensures files == arrayOfFiles + FilesIn(dir, entries)
    decreases entries
  {
    files := arrayOfFiles;
    for i := 0 to |entries|
      invariant files == arrayOfFiles + FilesIn(dir, entries[..i])
    {
      assert entries[..i + 1][..i] == entries[..i];
      var fullPath := ChildPath(dir, entries[i].name);
      match entries[i]
      case Dir(_, children) =>
        files := GetAllFiles(fullPath, children, files);
      case File(_, size) =>
        files := files + [LocalFile(fullPath, size)];
    }
    assert entries[..|entries|] == entries;
  }

  /** The number of files in a tree. */
  function FileCount(e: Entry): nat
    decreases e
  {
    match e
    case File(_, _) => 1
    case Dir(_, children) => FileCountIn(children)
  }

  function FileCountIn(entries: seq<Entry>): nat
    decreases entries
  {
    if entries == [] then 0 else FileCountIn(entries[..|entries| - 1]) + FileCount(entries[|entries| - 1])
  }

  /** The number of bytes in a tree. */
  function Bytes(e: Entry): nat
    decreases e
  {
    match e
    case File(_, size) => size
    case Dir(_, children) => BytesIn(children)
  }

  function BytesIn(entries: seq<Entry>): nat
    decreases entries
  {
    if entries == [] then 0 else BytesIn(entries[..|entries| - 1]) + Bytes(entries[|entries| - 1])
  }

  /** `filesToUpload.reduce((sum, file) => sum + size, 0)`. */
  function TotalSize(files: seq<LocalFile>): (total: nat)
    ensures forall i :: 0 <= i < |files| ==> files[i].size <= total
    ensures files == [] ==> total == 0
  {
    if files == [] then 0 else TotalSize(files[..|files| - 1]) + files[|files| - 1].size
  }

  lemma {:induction false} TotalSizeAppend(a: seq<LocalFile>, b: seq<LocalFile>)
    ensures TotalSize(a + b) == TotalSize(a) + TotalSize(b)
    decreases |b|
  {
    if b == [] {
      assert a + b == a;
    } else {
      assert (a + b)[..|a + b| - 1] == a + b[..|b| - 1];
      TotalSizeAppend(a, b[..|b| - 1]);
    }
  }

  /** The walk collects every file of the tree once: as many files as the tree has, with as
      many bytes in total. */
  lemma {:induction false} FilesInTotals(dir: string, entries: seq<Entry>)
    ensures |FilesIn(dir, entries)| == FileCountIn(entries)
    ensures TotalSize(FilesIn(dir, entries)) == BytesIn(entries)
    decreases entries
  {
    if entries != [] {
      var init := entries[..|entries| - 1];
      var last := entries[|entries| - 1];
      FilesInTotals(dir, init);
      FilesOfTotals(dir, last);
      TotalSizeAppend(FilesIn(dir, init), FilesOf(dir, last));
    }
  }

  lemma {:induction false} FilesOfTotals(dir: string, e: Entry)
    ensures |FilesOf(dir, e)| == FileCount(e)
    ensures TotalSize(FilesOf(dir, e)) == Bytes(e)
    decreases e
  {
    match e
    case File(name, size) =>
      assert TotalSize([LocalFile(ChildPath(dir, name), size)]) == TotalSize([]) + size;
    case Dir(name, children) =>
      FilesInTotals(ChildPath(dir, name), children);
  }

  // ---------------------------------------------------------------------------------------
  // Local to remote paths

  predicate IsSeparator(c: char) {
    c == '/' || c == '\\'
  }

  /** `s.replace(/^[\/\\]+/, "")`. */
  function StripLeadingSeparators(s: string): (r: string)
    ensures |r| <= |s| && r == s[|s| - |r|..]
    ensures forall i :: 0 <= i < |s| - |r| ==> IsSeparator(s[i])
    ensures r == [] || !IsSeparator(r[0])
  {
    if s != [] && IsSeparator(s[0]) then StripLeadingSeparators(s[1..]) else s
  }

  /** `s.replace(/\\/g, "/")`. */
  function ForwardSlashes(s: string): (r: string)
    ensures |r| == |s|
    ensures forall i :: 0 <= i < |s| ==> r[i] == if s[i] == '\\' then '/' else s[i]
  {
    if s == [] then [] else [if s[0] == '\\' then '/' else s[0]] + ForwardSlashes(s[1..])
  }

  /** The relative path of a file: the build path removed where it first occurs, then leading
      separators, then backslashes turned into slashes. It neither starts with a separator nor
      contains a backslash. */
  function RelativePath(file: string, buildPath: string): (rel: string)
    ensures forall i :: 0 <= i < |rel| ==> rel[i] != '\\'
    ensures rel == [] || rel[0] != '/'
  {
    var withoutBuildPath := ReplaceFirst(file, buildPath, "");
    var withoutSeparators := StripLeadingSeparators(withoutBuildPath);
    ForwardSlashes(withoutSeparators)
  }

  /** A file under the build directory: its relative path is what follows the build path, with
      the leading separators dropped and backslashes made slashes. */
  lemma RelativeOfTail(buildPath: string, tail: string)
    ensures RelativePath(buildPath + tail, buildPath) == ForwardSlashes(StripLeadingSeparators(tail))
  {
    ReplaceFirstAtStart(buildPath, tail);
  }

  /** Prefixing the build directory and a slash to a relative path gives back the file path. */
  lemma RelativeRoundTrip(buildPath: string, rel: string)
    requires forall i :: 0 <= i < |rel| ==> rel[i] != '\\'
    requires rel == [] || rel[0] != '/'
    ensures RelativePath(buildPath + "/" + rel, buildPath) == rel
  {
    assert buildPath + "/" + rel == buildPath + ("/" + rel);
    RelativeOfTail(buildPath, "/" + rel);
    StripOneSlash(rel);
    ForwardSlashesUnchanged(rel);
  }

  lemma StripOneSlash(rel: string)
    requires rel == [] || !IsSeparator(rel[0])
    ensures StripLeadingSeparators("/" + rel) == rel
  {
    assert ("/" + rel)[1..] == rel;
  }

  lemma ForwardSlashesUnchanged(s: string)
    requires forall i :: 0 <= i < |s| ==> s[i] != '\\'
    ensures ForwardSlashes(s) == s
  {
  }

  /** No two slashes in a row. */
  predicate SingleSlashes(s: string) {
    forall i :: 0 < i < |s| ==> !(s[i - 1] == '/' && s[i] == '/')
  }

  /** `s` with every run of slashes made one slash. */
  function CollapseSlashes(s: string): (r: string)
    ensures SingleSlashes(r)
    ensures |r| <= |s| && (r == [] <==> s == [])
    ensures r != [] ==> r[0] == s[0]
  {
    if |s| >= 2 && s[0] == '/' && s[1] == '/' then CollapseSlashes(s[1..])
    else if s == [] then []
    else
      var rest := CollapseSlashes(s[1..]);
      assert rest == [] || rest[0] == s[1];
      [s[0]] + rest
  }

  /** Collapsing leaves text without double slashes unchanged. */
  lemma {:induction false} CollapseSingle(s: string)
    requires SingleSlashes(s)
    ensures CollapseSlashes(s) == s
    decreases |s|
  {
    if s != [] {
      assert SingleSlashes(s[1..]) by {
        forall i | 0 < i < |s[1..]| ensures !(s[1..][i - 1] == '/' && s[1..][i] == '/') {
          assert s[1..][i - 1] == s[i] && s[1..][i] == s[i + 1];
        }
      }
      CollapseSingle(s[1..]);
      if |s| >= 2 {
        assert !(s[0] == '/' && s[1] == '/');
      }
    }
  }

  /** `path.posix.join(a, b)` for paths whose segments are plain names: the non-empty
      arguments joined with "/", slash runs collapsed, "." when both are empty. */
  function PosixJoin(a: string, b: string): (r: string)
    ensures SingleSlashes(r) && r != ""
  {
    if a == "" && b == "" then "."
    else CollapseSlashes(if a == "" then b else if b == "" then a else a + "/" + b)
  }

  /** Joining onto "/" puts the relative path right after the root slash. */
  lemma JoinRoot(rel: string)
    requires rel != [] && rel[0] != '/' && SingleSlashes(rel)
    ensures PosixJoin("/", rel) == "/" + rel
  {
    assert "/" + "/" + rel == ['/'] + ("/" + rel);
    assert CollapseSlashes("/" + "/" + rel) == CollapseSlashes("/" + rel);
    assert SingleSlashes("/" + rel) by {
      forall i | 0 < i < |"/" + rel| ensures !(("/" + rel)[i - 1] == '/' && ("/" + rel)[i] == '/') {
        if i > 1 {
          assert ("/" + rel)[i - 1] == rel[i - 2] && ("/" + rel)[i] == rel[i - 1];
        }
      }
    }
    CollapseSingle("/" + rel);
  }

  /** Joining onto a directory that does not end in a slash puts one slash between. */
  lemma JoinDirectory(dir: string, rel: string)
    requires dir != [] && dir[|dir| - 1] != '/' && SingleSlashes(dir)
    requires rel != [] && rel[0] != '/' && SingleSlashes(rel)
    ensures PosixJoin(dir, rel) == dir + "/" + rel
  {
    var s := dir + "/" + rel;
    assert SingleSlashes(s) by {
      forall i | 0 < i < |s| ensures !(s[i - 1] == '/' && s[i] == '/') {
        if i < |dir| {
          assert s[i - 1] == dir[i - 1] && s[i] == dir[i];
        } else if i == |dir| {
          assert s[i - 1] == dir[|dir| - 1];
        } else if i == |dir| + 1 {
          assert s[i] == rel[0];
        } else {
          assert s[i - 1] == rel[i - |dir| - 2] && s[i] == rel[i - |dir| - 1];
        }
      }
    }
    CollapseSingle(s);
  }

  /** A local file and the remote path it is uploaded to. */
  datatype Mapping = Mapping(local: string, remote: string)

  /** `relativeFiles`: one mapping per collected file, in order. */
  function Mappings(files: seq<LocalFile>, buildPath: string, remotePath: string): (mappings: seq<Mapping>)
    ensures |mappings| == |files|
    ensures forall i :: 0 <= i < |files| ==>
      mappings[i].local == files[i].path && mappings[i].remote != "" && SingleSlashes(mappings[i].remote)
  {
    seq(|files|, i requires 0 <= i < |files| => MappingOf(files[i], buildPath, remotePath))
  }

  /** The mapping of one collected file. */
  function MappingOf(file: LocalFile, buildPath: string, remotePath: string): (m: Mapping)
    ensures m.local == file.path
    ensures m.remote != "" && SingleSlashes(m.remote)
  {
    Mapping(file.path, PosixJoin(remotePath, RelativePath(file.path, buildPath)))
  }

  // ---------------------------------------------------------------------------------------
  // Sizes and the dry run

  const Kilobyte := 1024
  const Megabyte := 1024 * 1024

  /** How a size is shown: in megabytes or kilobytes (two decimals), or as the exact count of
      bytes followed by " B". */
  datatype SizeText = Megabytes | Kilobytes | ExactBytes(text: string)

  function ShowSize(size: nat): (shown: SizeText)
    ensures shown.Megabytes? <==> size > Megabyte
    ensures shown.Kilobytes? <==> Kilobyte < size <= Megabyte
    ensures shown.ExactBytes? <==> size <= Kilobyte
    ensures shown.ExactBytes? ==> ParseInt(shown.text) == Some(size)
    ensures shown.ExactBytes? ==> |shown.text| >= 2 && shown.text[|shown.text| - 2..] == " B"
  {
    if size > Megabyte then Megabytes
    else if size > Kilobyte then Kilobytes
    else
      BytesText(size);
      ExactBytes(NatToString(size) + " B")
  }

  /** The exact count, followed by " B", reads back as the count. */
  lemma BytesText(size: nat)
    ensures var text := NatToString(size) + " B";
      ParseInt(text) == Some(size) && text[|text| - 2..] == " B"
  {
    ParseIntOfNat(size, " B");
  }

  /** What the dry run reports: each mapping with its size, the number of files and the total
      size. */
  datatype DryRunReport = DryRunReport(lines: seq<(Mapping, SizeText)>, totalFiles: nat, totalSize: SizeText)

  function DryRun(files: seq<LocalFile>, buildPath: string, remotePath: string): (report: DryRunReport)
    ensures |report.lines| == |files| && report.totalFiles == |files|
    ensures forall i :: 0 <= i < |files| ==>
      report.lines[i] == (MappingOf(files[i], buildPath, remotePath), ShowSize(files[i].size))
    ensures report.totalSize == ShowSize(TotalSize(files))
  {
    var mappings := Mappings(files, buildPath, remotePath);
    DryRunReport(seq(|files|, i requires 0 <= i < |files| => (mappings[i], ShowSize(files[i].size))),
                 |files|, ShowSize(TotalSize(files)))
  }

  // ---------------------------------------------------------------------------------------
  // The script up to the transfer

  /** How the script ends before the transfer, or what it transfers. */
  datatype Outcome =
    | ShowHelp
    | InvalidTarget(target: string)
    | NoBuild(buildPath: string)
    | MissingConfig(envFile: string, keys: seq<string>)
    | DryRunDone(report: DryRunReport)
    | Transfer(config: FtpConfig, mappings: seq<Mapping>)

  /** The status the process exits with, when it stops before the transfer. */
  function ExitCode(outcome: Outcome): Option<int> {
    match outcome
    case ShowHelp => Some(0)
    case InvalidTarget(_) => Some(1)
    case NoBuild(_) => Some(1)
    case MissingConfig(_, _) => Some(1)
    case DryRunDone(_) => Some(0)
    case Transfer(_, _) => None
  }

  /** The script: help; the target; the build directory (`root`, whose listing is `listing`);
      the configuration check; then the dry run or the transfer. */
  function PlanUpload(args: seq<string>, environ: Build.Environ, root: string, buildExists: bool,
                      listing: seq<Entry>): (outcome: Outcome)
    ensures outcome.DryRunDone? || outcome.Transfer? ==>
      && !HelpRequested(args) && buildExists
      && Build.EnvOfName(UploadTarget(args)).Some?
      && MissingKeys(ConfigFrom(Build.EnvOfName(UploadTarget(args)).value, environ)) == []
    ensures outcome.DryRunDone? ==> DryRunRequested(args)
    ensures outcome.Transfer? ==> !DryRunRequested(args)
    ensures !HelpRequested(args) && buildExists && Build.EnvOfName(UploadTarget(args)).Some?
            && MissingKeys(ConfigFrom(Build.EnvOfName(UploadTarget(args)).value, environ)) == [] ==>
      && (outcome.DryRunDone? <==> DryRunRequested(args))
      && (outcome.Transfer? <==> !DryRunRequested(args))
  {
    if HelpRequested(args) then ShowHelp
    else
      var target := UploadTarget(args);
      match Build.EnvOfName(target)
      case None => InvalidTarget(target)
      case Some(e) =>
        if !buildExists then NoBuild("./builds/" + target)
        else
          var config := ConfigFrom(e, environ);
          if MissingKeys(config) != [] then MissingConfig(EnvFile(e), MissingKeys(config))
          else
            var files := FilesIn(root, listing);
            if DryRunRequested(args) then DryRunDone(DryRun(files, root, config.remotePath))
            else Transfer(config, Mappings(files, root, config.remotePath))
  }

  /** The checks before any FTP setting is read: help exits with 0; a target that names no
      environment, or an environment that has not been built, exits with 1. */
  lemma UploadStops(args: seq<string>, environ: Build.Environ, root: string, buildExists: bool, listing: seq<Entry>)
    ensures HelpRequested(args) ==>
      PlanUpload(args, environ, root, buildExists, listing) == ShowHelp
      && ExitCode(PlanUpload(args, environ, root, buildExists, listing)) == Some(0)
    ensures !HelpRequested(args) && Build.EnvOfName(UploadTarget(args)).None? ==>
      PlanUpload(args, environ, root, buildExists, listing) == InvalidTarget(UploadTarget(args))
      && ExitCode(PlanUpload(args, environ, root, buildExists, listing)) == Some(1)
    ensures !HelpRequested(args) && Build.EnvOfName(UploadTarget(args)).Some? && !buildExists ==>
      PlanUpload(args, environ, root, buildExists, listing) == NoBuild("./builds/" + UploadTarget(args))
      && ExitCode(PlanUpload(args, environ, root, buildExists, listing)) == Some(1)
  {
  }

  /** A missing FTP setting stops the script with status 1, a dry run included, and nothing is
      transferred. */
  lemma MissingConfigStops(args: seq<string>, environ: Build.Environ, root: string, listing: seq<Entry>)
    requires !HelpRequested(args) && Build.EnvOfName(UploadTarget(args)).Some?
    requires !Truthy(Build.Var(environ, "FTP_HOST")) || !Truthy(Build.Var(environ, "FTP_USER"))
             || !Truthy(Build.Var(environ, "FTP_PASSWORD"))
    ensures PlanUpload(args, environ, root, true, listing).MissingConfig?
    ensures ExitCode(PlanUpload(args, environ, root, true, listing)) == Some(1)
  {
    var e := Build.EnvOfName(UploadTarget(args)).value;
    var c := ConfigFrom(e, environ);
    MissingKeysExact(c);
    assert MissingKeys(c) != [];
    assert PlanUpload(args, environ, root, true, listing) == MissingConfig(EnvFile(e), MissingKeys(c));
  }

  /** The dry run counts every file of the build tree and adds up all their sizes. */
  lemma DryRunCountsTree(args: seq<string>, environ: Build.Environ, root: string, listing: seq<Entry>)
    requires PlanUpload(args, environ, root, true, listing).DryRunDone?
    ensures PlanUpload(args, environ, root, true, listing).report.totalFiles == FileCountIn(listing)
    ensures PlanUpload(args, environ, root, true, listing).report.totalSize == ShowSize(BytesIn(listing))
  {
    FilesInTotals(root, listing);
  }

  /** Every collected file is mapped, in order, to the remote path joined from the remote
      directory and the file's path below `root`. */
  lemma TransferMapsEveryFile(args: seq<string>, environ: Build.Environ, root: string, listing: seq<Entry>)
    requires PlanUpload(args, environ, root, true, listing).Transfer?
    ensures var outcome := PlanUpload(args, environ, root, true, listing);
      var files := FilesIn(root, listing);
      && |outcome.mappings| == |files| == FileCountIn(listing)
      && forall i :: 0 <= i < |files| ==>
           && outcome.mappings[i].local == files[i].path
           && outcome.mappings[i].remote ==
                PosixJoin(outcome.config.remotePath, ForwardSlashes(StripLeadingSeparators(files[i].path[|root|..])))
  {
    var files := FilesIn(root, listing);
    var outcome := PlanUpload(args, environ, root, true, listing);
    assert outcome.mappings == Mappings(files, root, outcome.config.remotePath);
    FilesInTotals(root, listing);
    MappingsOfCollected(root, outcome.config.remotePath, files);
  }

  /** The mappings of files below `root`: each keeps its local path and goes to the remote path
      joined with the rest of its path after `root`. */
  lemma MappingsOfCollected(root: string, remotePath: string, files: seq<LocalFile>)
    requires forall k :: 0 <= k < |files| ==> StartsWith(files[k].path, root + "/")
    ensures |Mappings(files, root, remotePath)| == |files|
    ensures forall i :: 0 <= i < |files| ==>
      (|root| < |files[i].path|
       && Mappings(files, root, remotePath)[i].local == files[i].path
       && Mappings(files, root, remotePath)[i].remote ==
            PosixJoin(remotePath, ForwardSlashes(StripLeadingSeparators(files[i].path[|root|..]))))
  {
    CollectedRelative(root, files);
  }

  /** Files below `root`: the relative path is the rest of the path after `root`, leading
      separators dropped and backslashes made slashes. */
  lemma CollectedRelative(root: string, files: seq<LocalFile>)
    requires forall k :: 0 <= k < |files| ==> StartsWith(files[k].path, root + "/")
    ensures forall i :: 0 <= i < |files| ==>
      (|root| < |files[i].path|
       && RelativePath(files[i].path, root) == ForwardSlashes(StripLeadingSeparators(files[i].path[|root|..])))
  {
    forall i | 0 <= i < |files|
      ensures |root| < |files[i].path|
      ensures RelativePath(files[i].path, root) == ForwardSlashes(StripLeadingSeparators(files[i].path[|root|..]))
    {
      var p := files[i].path;
      assert p == root + p[|root|..] by { assert p[..|root + "/"|][..|root|] == root; }
      RelativeOfTail(root, p[|root|..]);
    }
  }
}
