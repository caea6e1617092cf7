/**
 * What the operating system reports to the scanner, as values: the error
 * classes `os.IsNotExist` / `os.IsPermission` distinguish, the `os.FileInfo`
 * fields the filters read, and one visit of `filepath.Walk` (the callback's
 * `path, info, err` arguments). The walk itself is not modelled: callers are
 * handed the sequence of visits it would make.
 */
module Os {

  datatype ErrorKind = NotExist | Permission | Other

  /** An `error` value: its class and its text (`err.Error()`). */
  datatype OsError = OsError(kind: ErrorKind, text: string)

  /** The parts of `os.FileInfo` that are read: `IsDir()`, `Mode().IsRegular()`, `Mode().Perm()` and `Size()`. */
  datatype FileInfo = FileInfo(path: string, isDir: bool, isRegular: bool, perm: bv32, size: int)

  /** One call of a `filepath.WalkFunc`: either an error for `path`, or the path's information. */
  datatype WalkEntry =
    | Visit(info: FileInfo)
    | VisitError(path: string, err: OsError)
}
