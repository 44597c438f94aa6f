/** Locating and identifying the control executable: an explicit path or
    `nssm.exe`, searched for on the `;`-separated PATH when not absolute,
    required to be a file, and accepted only if the first line of its
    `version` output matches `^NSSM.*$`. */
module Executable {
  import opened SvcmBase
  import opened Text
  import opened Process

  /** The file system as the locator sees it. */
  datatype FileSystem = FileSystem(
    isFile: string -> bool,
    isAbsolute: string -> bool,
    join: (string, string) -> string)

  const EXEC_FNAME: string := "nssm.exe"
  const PATH_SEPARATOR: char := ';'
  /** Timeout of the identity query, in seconds. */
  const VERSION_TIMEOUT: nat := 5
  const EXEC_ID_PREFIX: string := "NSSM"
  /** What escapes when PATH is unset: splitting the missing value. */
  const PATH_UNSET: Error := Uncaught(AttributeError("'NoneType' object has no attribute 'split'"))

  /** The first directory of `dirs` in which `name` is a file. */
  function FindOnPath(dirs: seq<string>, name: string, fs: FileSystem): (r: Option<nat>)
    ensures r.Some? ==> r.value < |dirs| && fs.isFile(fs.join(dirs[r.value], name))
    ensures r.Some? ==> forall j :: 0 <= j < r.value ==> !fs.isFile(fs.join(dirs[j], name))
    ensures r.None? ==> forall j :: 0 <= j < |dirs| ==> !fs.isFile(fs.join(dirs[j], name))
  {
    if |dirs| == 0 then None
    else if fs.isFile(fs.join(dirs[0], name)) then Some(0)
    else match FindOnPath(dirs[1..], name, fs)
      case None => None
      case Some(i) => Some(i + 1)
  }

  /** The PATH search loop: the joined path of the first match, if any. */
  method SearchPath(dirs: seq<string>, name: string, fs: FileSystem) returns (found: Option<string>)
    ensures found.None? <==> FindOnPath(dirs, name, fs).None?
    ensures found.Some? ==> found.value == fs.join(dirs[FindOnPath(dirs, name, fs).value], name)
  {
    var i := 0;
    while i < |dirs|
      invariant 0 <= i <= |dirs|
      invariant forall j :: 0 <= j < i ==> !fs.isFile(fs.join(dirs[j], name))
    {
      var absPath := fs.join(dirs[i], name);
      if fs.isFile(absPath) {
        return Some(absPath);
      }
      i := i + 1;
    }
    return None;
  }

  /** The executable name to look for: the configured path, else `nssm.exe`. */
  function ExecutableName(execPathOption: Option<string>): string
  {
    if execPathOption.Some? then execPathOption.value else EXEC_FNAME
  }

  /** Where the executable is, before its identity is checked. */
  function LocateExecutable(execPathOption: Option<string>, envPath: Option<string>, fs: FileSystem): (r: Result<string>)
    ensures r.Ok? ==> fs.isFile(r.value)
    ensures !fs.isAbsolute(ExecutableName(execPathOption)) && envPath.None? ==> r == Err(PATH_UNSET)
  {
    var name := ExecutableName(execPathOption);
    if !fs.isAbsolute(name) then
      if envPath.None? then
        Err(PATH_UNSET)
      else
        var dirs := Split(envPath.value, PATH_SEPARATOR);
        match FindOnPath(dirs, name, fs)
        case None => Err(SetupError(ExecutableNotFound(name)))
        case Some(i) =>
          var path := fs.join(dirs[i], name);
          if !fs.isFile(path) then Err(SetupError(ExecutableNotFound(path))) else Ok(path)
    else if !fs.isFile(name) then Err(SetupError(ExecutableNotFound(name)))
    else Ok(name)
  }

  /** A relative name is resolved against the PATH entries in order: the
      first entry holding the file wins, and with none the executable is
      not found. */
  lemma LocateSearchesPath(execPathOption: Option<string>, envPath: Option<string>, fs: FileSystem,
                           name: string, dirs: seq<string>)
    requires name == ExecutableName(execPathOption) && !fs.isAbsolute(name)
    requires envPath.Some? && dirs == Split(envPath.value, PATH_SEPARATOR)
    ensures LocateExecutable(execPathOption, envPath, fs).Ok?
        <==> exists i :: 0 <= i < |dirs| && fs.isFile(fs.join(dirs[i], name))
    ensures var r := LocateExecutable(execPathOption, envPath, fs);
      r.Ok? ==>
        exists i :: (0 <= i < |dirs| && r.value == fs.join(dirs[i], name)
          && forall j :: 0 <= j < i ==> !fs.isFile(fs.join(dirs[j], name)))
    ensures var r := LocateExecutable(execPathOption, envPath, fs);
      r.Err? ==> r.error == SetupError(ExecutableNotFound(name))
  {
    var found := FindOnPath(dirs, name, fs);
    if found.Some? {
      var i := found.value;
      assert LocateExecutable(execPathOption, envPath, fs) == Ok(fs.join(dirs[i], name));
      assert fs.isFile(fs.join(dirs[i], name));
    } else {
      assert LocateExecutable(execPathOption, envPath, fs) == Err(SetupError(ExecutableNotFound(name)));
    }
  }

  /** An absolute name is used as it is, if it is a file. */
  lemma LocateAbsolute(execPathOption: Option<string>, envPath: Option<string>, fs: FileSystem)
    requires fs.isAbsolute(ExecutableName(execPathOption))
    ensures
      var name := ExecutableName(execPathOption);
      LocateExecutable(execPathOption, envPath, fs)
        == if fs.isFile(name) then Ok(name) else Err(SetupError(ExecutableNotFound(name)))
  {
  }

  /** `.*$` can end at `k`: no newline from position 4 up to `k`, and `k`
      is the end or the position of a final newline. */
  predicate DotStarEndsAt(line: string, k: nat)
    requires 4 <= k <= |line|
  {
    (forall j :: 4 <= j < k ==> line[j] != '\n')
    && (k == |line| || (k == |line| - 1 && line[k] == '\n'))
  }

  /** `re.compile('^NSSM.*$').search(line)` finds a match: no flags, so `^`
      is the start of the text, `.` is any character but a newline and `$`
      is the end of the text or just before a final newline. */
  predicate IdPatternSearch(line: string)
  {
    StartsWith(line, EXEC_ID_PREFIX)
    && exists k :: 4 <= k <= |line| && DotStarEndsAt(line, k)
  }

  /** On a line without a newline, the identity pattern is a case-sensitive
      prefix test. */
  lemma IdPatternIsPrefix(line: string)
    requires forall i :: 0 <= i < |line| ==> line[i] != '\n'
    ensures IdPatternSearch(line) <==> StartsWith(line, EXEC_ID_PREFIX)
  {
    if StartsWith(line, EXEC_ID_PREFIX) {
      assert DotStarEndsAt(line, |line|);
    }
  }

  /** The identity query sent to the executable. */
  function VersionQuery(path: string): Invocation
  {
    Invocation([path, "version"], VERSION_TIMEOUT)
  }

  /** The verdict on the identity query's outcome: a failure to run, a
      timeout or a non-zero exit means the executable is broken; empty
      output raises IndexError; otherwise the first output line must match
      the identity pattern. */
  function CheckIdentity(path: string, outcome: RawOutcome): (r: Result<string>)
    ensures r.Ok? <==> outcome.Exited? && outcome.returncode == 0 && outcome.stdout != ""
                       && StartsWith(LineHead(outcome.stdout), EXEC_ID_PREFIX)
    ensures r.Ok? ==> r.value == path
    ensures !(outcome.Exited? && outcome.returncode == 0) ==>
      r == Err(SetupError(ExecutableBroken(path, outcome)))
    ensures r.Err? && r.error.Uncaught? <==> outcome.Exited? && outcome.returncode == 0 && outcome.stdout == ""
    ensures outcome.Exited? && outcome.returncode == 0 && outcome.stdout != ""
            && !StartsWith(LineHead(outcome.stdout), EXEC_ID_PREFIX) ==>
      r == Err(SetupError(ExecutableMismatch(path)))
  {
    match outcome
    case Exited(returncode, stdout, _) =>
      if returncode != 0 then Err(SetupError(ExecutableBroken(path, outcome)))
      else (
        match FirstLine(stdout)
        case None => Err(Uncaught(IndexError("list index out of range")))
        case Some(line) =>
          IdPatternIsPrefix(line);
          if !IdPatternSearch(line) then Err(SetupError(ExecutableMismatch(path))) else Ok(path))
    case _ => Err(SetupError(ExecutableBroken(path, outcome)))
  }

  /** `_verify_executor` as a function of the world: its verdict and the
      processes spawned by the end of it (the identity query, and only once
      the executable has been located). */
  function VerifiedExecutable(execPathOption: Option<string>, envPath: Option<string>, fs: FileSystem,
                              respond: (seq<Invocation>, Invocation) -> RawOutcome,
                              history: seq<Invocation>): (Result<string>, seq<Invocation>)
  {
    match LocateExecutable(execPathOption, envPath, fs)
    case Err(e) => (Err(e), history)
    case Ok(path) =>
      (CheckIdentity(path, respond(history, VersionQuery(path))), history + [VersionQuery(path)])
  }

  /** An accepted executable is a file that answered the identity query
      with a first line starting with NSSM; nothing but that one query was
      spawned. */
  lemma VerifiedExecutableAccepted(execPathOption: Option<string>, envPath: Option<string>, fs: FileSystem,
                                   respond: (seq<Invocation>, Invocation) -> RawOutcome,
                                   history: seq<Invocation>)
    requires VerifiedExecutable(execPathOption, envPath, fs, respond, history).0.Ok?
    ensures
      var (r, spawned) := VerifiedExecutable(execPathOption, envPath, fs, respond, history);
      var outcome := respond(history, VersionQuery(r.value));
      && fs.isFile(r.value)
      && spawned == history + [Invocation([r.value, "version"], 5)]
      && outcome.Exited? && outcome.returncode == 0
      && FirstLine(outcome.stdout).Some? && StartsWith(FirstLine(outcome.stdout).value, "NSSM")
  {
  }
}
