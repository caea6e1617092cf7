/**
 * Command-line options of the later scanner variant. Flag parsing itself
 * is not part of this model: `Parse` starts from the parsed flag values,
 * or from the parser's error. The logger's `Verbose` switch, which `Parse`
 * sets, is the one piece of outside state it changes.
 */
module Options {
  import opened Wrappers

  /** The three default Windows driver directories. */
  const WindowsDriverDirs: seq<string> :=
    ["C:\\Windows\\System32\\drivers", "C:\\Windows\\System32\\DriverStore\\FileRepository", "C:\\WINDOWS\\inf"]

  /** The values of `-m`, `-f`, `-d`, `-l`, `-w`, `-s`, `-g` and `-j` after flag parsing. */
  datatype Flags = Flags(mode: string, driverFile: string, scanDir: string, scanSize: int, workers: int,
                         suppressErrors: bool, grepable: bool, json: bool)

  /** The flag defaults. */
  const DefaultFlags := Flags("online", "", "", 10, 20, false, false, false)

  /** `options.Options`, without the start time. */
  datatype Options = Options(mode: string, modeLocalFilePath: string, scanDirectories: seq<string>,
                             scanSizeLimit: int, scanWorkers: int, scanShowErrors: bool, outputMode: string)

  /** The logger package's `Verbose` switch. */
  class LoggerSwitch {
    var verbose: bool

    constructor()
      ensures !verbose
    {
      verbose := false;
    }
  }

  predicate KnownMode(mode: string)
  {
    mode == "online" || mode == "internal" || mode == "local"
  }

  /** The error `Parse` rejects the flags with: the mode is checked before the output style. */
  function Check(f: Flags): (r: Option<string>)
    ensures !KnownMode(f.mode) ==> r == Some("invalid mode")
    ensures f.mode == "local" && f.driverFile == "" ==> r == Some("-m/--mode 'local' requires '-f/--driver-file'")
    ensures KnownMode(f.mode) && !(f.mode == "local" && f.driverFile == "") ==>
              (r.Some? <==> f.grepable && f.json)
              && (r.Some? ==> r.value == "only use '-g/--grepable' or '-j/--json', not both")
  {
    if f.mode == "online" || f.mode == "internal" then
      if f.grepable && f.json then Some("only use '-g/--grepable' or '-j/--json', not both") else None
    else if f.mode == "local" then
      if f.driverFile == "" then Some("-m/--mode 'local' requires '-f/--driver-file'")
      else if f.grepable && f.json then Some("only use '-g/--grepable' or '-j/--json', not both")
      else None
    else Some("invalid mode")
  }

  /** The options `Parse` returns for accepted flags. */
  function Configure(f: Flags): (r: Result<Options, string>)
    ensures r.Failure? <==> Check(f).Some?
    ensures r.Failure? ==> r.error == Check(f).value
    ensures r.Success? ==> KnownMode(r.value.mode) && (r.value.mode == "local" ==> r.value.modeLocalFilePath != "")
    ensures r.Success? ==> (r.value.outputMode == "grep" <==> f.grepable)
                           && (r.value.outputMode == "json" <==> f.json)
                           && (r.value.outputMode == "" <==> !f.grepable && !f.json)
    ensures r.Success? ==> (if f.scanDir == "" then r.value.scanDirectories == WindowsDriverDirs
                            else r.value.scanDirectories == [f.scanDir])
    ensures r.Success? ==> r.value.mode == f.mode && r.value.modeLocalFilePath == f.driverFile
                           && r.value.scanSizeLimit == f.scanSize && r.value.scanWorkers == f.workers
                           && r.value.scanShowErrors == f.suppressErrors
  {
    if Check(f).Some? then Failure(Check(f).value)
    else
      var output := if f.grepable then "grep" else if f.json then "json" else "";
      var dirs := if f.scanDir == "" then WindowsDriverDirs else [f.scanDir];
      Success(Options(f.mode, f.driverFile, dirs, f.scanSize, f.workers, f.suppressErrors, output))
  }

  /**
   * `Parse`: a flag-parser error is returned as it is; otherwise verbose
   * logging is switched on, the flags are checked, and the machine-readable
   * output styles switch it off again.
   */
  method Parse(flags: Result<Flags, string>, log: LoggerSwitch) returns (opt: Result<Options, string>)
    modifies log
    ensures opt == (if flags.Failure? then Failure(flags.error) else Configure(flags.value))
    ensures log.verbose == (if flags.Failure? then old(log.verbose)
                            else !(opt.Success? && (flags.value.grepable || flags.value.json)))
  {
    if flags.Failure? {
      return Failure(flags.error);
    }
    var f := flags.value;
    log.verbose := true;

    if f.mode == "online" || f.mode == "internal" {
    } else if f.mode == "local" {
      if f.driverFile == "" {
        return Failure("-m/--mode 'local' requires '-f/--driver-file'");
      }
    } else {
      return Failure("invalid mode");
    }

    var outputMode := "";
    if f.grepable && f.json {
      return Failure("only use '-g/--grepable' or '-j/--json', not both");
    } else if f.grepable {
      outputMode := "grep";
      log.verbose := false;
    } else if f.json {
      outputMode := "json";
      log.verbose := false;
    }

    var scanDirectories: seq<string> := [];
    if f.scanDir == "" {
      scanDirectories := WindowsDriverDirs;
    } else {
      scanDirectories := scanDirectories + [f.scanDir];
      assert scanDirectories == [f.scanDir];
    }

    return Success(Options(f.mode, f.driverFile, scanDirectories, f.scanSize, f.workers, f.suppressErrors, outputMode));
  }

  /** The defaults are accepted: online mode, the Windows driver directories, 10 MB, 20 workers, plain output. */
  lemma DefaultsAccepted()
    ensures Configure(DefaultFlags) == Success(Options("online", "", WindowsDriverDirs, 10, 20, false, ""))
  {
  }

  /** An unknown mode is reported as such even when both output styles are also requested. */
  lemma ModeCheckedFirst(f: Flags)
    requires !KnownMode(f.mode) && f.grepable && f.json
    ensures Configure(f) == Failure("invalid mode")
  {
  }

  /** Every accepted configuration scans at least one directory, and never an empty path. */
  lemma ScanDirectoriesNonEmpty(f: Flags)
    requires Configure(f).Success?
    ensures |Configure(f).value.scanDirectories| >= 1
    ensures forall d :: d in Configure(f).value.scanDirectories ==> d != ""
  {
  }
}
