/**
 * File-system helpers: whether a file exists, reading a whole file with
 * its errors mapped to fixed messages, and collecting the files under a
 * folder, optionally only those with a given extension.
 */
module FileSystem {
  import opened Wrappers
  import opened Strings
  import opened Os

  type Bytes = seq<bv8>

  /** `FileExists`: only an `os.Stat` error that `os.IsNotExist` recognises makes a file absent. */
  predicate FileExists(stat: Option<OsError>)
  {
    !(stat.Some? && stat.value.kind == NotExist)
  }

  /**
   * A file is missing only when `os.Stat` fails with the not-exist class:
   * a permission error or any other stat error still counts as existing.
   */
  lemma OnlyNotExistIsAbsent(e: OsError)
    ensures FileExists(None)
    ensures !FileExists(Some(e)) <==> e.kind == NotExist
  {
  }

  /**
   * `FileRead`: `stat` is the error of `os.Stat` (if any), `open` that of
   * `os.Open`, `read` the outcome of `io.ReadAll`. Each failure is reported
   * with its own message naming the file; the underlying error text is
   * dropped.
   */
  function FileRead(path: string, stat: Option<OsError>, open: Option<OsError>,
                    read: Result<Bytes, OsError>): (r: Result<Bytes, string>)
    ensures stat.Some? && stat.value.kind == NotExist ==> r == Failure("file '" + path + "' does not exist")
    // a stat error of any other kind does not stop the attempt to open the file
    ensures (stat.None? || stat.value.kind != NotExist) && open.Some? ==>
              r == Failure("could not open file '" + path + "'")
    ensures (stat.None? || stat.value.kind != NotExist) && open.None? && read.Failure? ==>
              r == Failure("could not read file '" + path + "'")
    ensures r.Success? ==> open.None? && read.Success? && r.value == read.value
  {
    if !FileExists(stat) then Failure("file '" + path + "' does not exist")
    else if open.Some? then Failure("could not open file '" + path + "'")
    else if read.Failure? then Failure("could not read file '" + path + "'")
    else Success(read.value)
  }

  /** Which visited paths are collected: every non-directory, or only those with a (lower-cased) extension. */
  datatype Filter = AllFiles | WithExt(lowerExt: string)

  /** `FilesInFolderExt` filters only when `ext` is not empty, and compares lower-cased extensions. */
  function FilterFor(ext: string): Filter
  {
    if ext == "" then AllFiles else WithExt(Lower(ext))
  }

  predicate Keeps(f: Filter, info: FileInfo)
  {
    !info.isDir && (f.WithExt? ==> Lower(Ext(info.path)) == f.lowerExt)
  }

  /** What a walk returns: the files collected and the error that stopped it, if one did. */
  datatype Collected = Collected(files: seq<string>, err: Option<OsError>)

  /**
   * The result of walking `entries` with a callback that collects what
   * `f` keeps and returns every error it is handed, which ends the walk.
   */
  function Collect(entries: seq<WalkEntry>, f: Filter): Collected
  {
    if entries == [] then Collected([], None)
    else
      var prev := Collect(entries[..|entries| - 1], f);
      if prev.err.Some? then prev
      else
        match entries[|entries| - 1]
        case VisitError(_, e) => Collected(prev.files, Some(e))
        case Visit(info) => if Keeps(f, info) then Collected(prev.files + [info.path], None) else prev
  }

  lemma CollectSnoc(entries: seq<WalkEntry>, i: nat)
    requires i < |entries|
    ensures entries[..i + 1][..i] == entries[..i] && entries[..i + 1][i] == entries[i]
  {
  }

  /** Once the walk has stopped on an error, later entries change nothing. */
  lemma {:induction false} CollectStops(entries: seq<WalkEntry>, i: nat, f: Filter)
    requires i <= |entries|
    requires Collect(entries[..i], f).err.Some?
    ensures Collect(entries, f) == Collect(entries[..i], f)
    decreases |entries| - i
  {
    if i < |entries| {
      CollectSnoc(entries, i);
      CollectStops(entries, i + 1, f);
    } else {
      assert entries[..i] == entries;
    }
  }

  /** `FilesInFolder`: every path that is not a directory, in walk order; any error stops the walk. */
  method FilesInFolder(entries: seq<WalkEntry>) returns (files: seq<string>, err: Option<OsError>)
    ensures Collected(files, err) == Collect(entries, AllFiles)
  {
    files := [];
    var i := 0;
    while i < |entries|
      invariant 0 <= i <= |entries|
      invariant Collect(entries[..i], AllFiles) == Collected(files, None)
    {
      CollectSnoc(entries, i);
      match entries[i] {
        case VisitError(_, e) =>
          CollectStops(entries, i + 1, AllFiles);
          return files, Some(e);
        case Visit(info) =>
          if !info.isDir {
            files := files + [info.path];
          }
      }
      i := i + 1;
    }
    assert entries[..i] == entries;
    err := None;
  }

  /** `FilesInFolderExt`: like `FilesInFolder`, restricted to one extension when `ext` is not empty. */
  method FilesInFolderExt(entries: seq<WalkEntry>, ext: string) returns (files: seq<string>, err: Option<OsError>)
    ensures Collected(files, err) == Collect(entries, FilterFor(ext))
  {
    var useFilter := false;
    var lowerExt := ext;
    if ext != "" {
      lowerExt := Lower(ext);
      useFilter := true;
    }
    files := [];
    var i := 0;
    while i < |entries|
      invariant 0 <= i <= |entries|
      invariant useFilter <==> ext != ""
      invariant useFilter ==> lowerExt == Lower(ext)
      invariant Collect(entries[..i], FilterFor(ext)) == Collected(files, None)
    {
      CollectSnoc(entries, i);
      match entries[i] {
        case VisitError(_, e) =>
          CollectStops(entries, i + 1, FilterFor(ext));
          return files, Some(e);
        case Visit(info) =>
          if useFilter {
            if !info.isDir && Lower(Ext(info.path)) == lowerExt {
              files := files + [info.path];
            }
          } else {
            if !info.isDir {
              files := files + [info.path];
            }
          }
      }
      i := i + 1;
    }
    assert entries[..i] == entries;
    err := None;
  }

  /** Every collected path was visited, is not a directory and passed the filter. */
  lemma {:induction false} CollectSound(entries: seq<WalkEntry>, f: Filter, p: string)
    requires p in Collect(entries, f).files
    ensures exists k :: 0 <= k < |entries| && entries[k].Visit? && entries[k].info.path == p
                     && Keeps(f, entries[k].info)
  {
    var init := entries[..|entries| - 1];
    if p in Collect(init, f).files {
      CollectSound(init, f, p);
      var k :| 0 <= k < |init| && init[k].Visit? && init[k].info.path == p && Keeps(f, init[k].info);
      assert entries[k] == init[k];
    }
  }

  /** A kept path visited before any error is collected. */
  lemma {:induction false} CollectComplete(entries: seq<WalkEntry>, f: Filter, k: nat)
    requires k < |entries| && entries[k].Visit? && Keeps(f, entries[k].info)
    requires forall j :: 0 <= j < k ==> !entries[j].VisitError?
    ensures entries[k].info.path in Collect(entries, f).files
  {
    NoErrorBefore(entries[..k], f);
    CollectSnoc(entries, k);
    KeptStays(entries, f, k + 1, entries[k].info.path);
  }

  /** Without an error entry, the walk ends without an error. */
  lemma {:induction false} NoErrorBefore(entries: seq<WalkEntry>, f: Filter)
    requires forall j :: 0 <= j < |entries| ==> !entries[j].VisitError?
    ensures Collect(entries, f).err.None?
  {
    if entries != [] {
      NoErrorBefore(entries[..|entries| - 1], f);
    }
  }

  /** A collected path stays collected as the walk goes on. */
  lemma {:induction false} KeptStays(entries: seq<WalkEntry>, f: Filter, i: nat, p: string)
    requires i <= |entries|
    requires p in Collect(entries[..i], f).files
    ensures p in Collect(entries, f).files
    decreases |entries| - i
  {
    if i < |entries| {
      CollectSnoc(entries, i);
      KeptStays(entries, f, i + 1, p);
    } else {
      assert entries[..i] == entries;
    }
  }

  /**
   * The error returned is that of the first error entry, and there is one
   * exactly when some entry is an error.
   */
  lemma {:induction false} CollectError(entries: seq<WalkEntry>, f: Filter)
    ensures Collect(entries, f).err.Some? <==> exists k :: 0 <= k < |entries| && entries[k].VisitError?
    ensures Collect(entries, f).err.Some? ==>
              exists k :: 0 <= k < |entries| && entries[k].VisitError?
                       && Collect(entries, f).err.value == entries[k].err
                       && forall j :: 0 <= j < k ==> !entries[j].VisitError?
  {
    if entries != [] {
      var init := entries[..|entries| - 1];
      CollectError(init, f);
      if Collect(init, f).err.Some? {
        var k :| 0 <= k < |init| && init[k].VisitError? && Collect(init, f).err.value == init[k].err
                 && forall j :: 0 <= j < k ==> !init[j].VisitError?;
        assert entries[k] == init[k];
        assert forall j :: 0 <= j < k ==> entries[j] == init[j];
      } else {
        assert forall j :: 0 <= j < |init| ==> entries[j] == init[j];
      }
    }
  }

  /** The paths `f` keeps among `entries`, in order, once per visit; error entries add nothing. */
  function KeptPaths(entries: seq<WalkEntry>, f: Filter): seq<string>
  {
    if entries == [] then []
    else
      KeptPaths(entries[..|entries| - 1], f)
      + (match entries[|entries| - 1]
         case Visit(info) => if Keeps(f, info) then [info.path] else []
         case VisitError(_, _) => [])
  }

  /** Without an error entry, the walk collects exactly the kept paths. */
  lemma {:induction false} CollectAllKept(entries: seq<WalkEntry>, f: Filter)
    requires forall j :: 0 <= j < |entries| ==> !entries[j].VisitError?
    ensures Collect(entries, f) == Collected(KeptPaths(entries, f), None)
  {
    if entries != [] {
      CollectAllKept(entries[..|entries| - 1], f);
    }
  }

  /**
   * The files returned are the kept paths visited before the first error
   * entry `n` (or all of them when there is none), in walk order and once
   * per visit, and the error returned is that entry's.
   */
  lemma CollectInWalkOrder(entries: seq<WalkEntry>, f: Filter, n: nat)
    requires n <= |entries|
    requires forall j :: 0 <= j < n ==> !entries[j].VisitError?
    requires n < |entries| ==> entries[n].VisitError?
    ensures Collect(entries, f).files == KeptPaths(entries[..n], f)
    ensures Collect(entries, f).err == (if n < |entries| then Some(entries[n].err) else None)
  {
    CollectAllKept(entries[..n], f);
    if n < |entries| {
      CollectSnoc(entries, n);
      CollectStops(entries, n + 1, f);
    } else {
      assert entries[..n] == entries;
    }
  }

  /** With an empty `ext`, `FilesInFolderExt` returns what `FilesInFolder` returns. */
  lemma EmptyExtIsNoFilter(entries: seq<WalkEntry>)
    ensures Collect(entries, FilterFor("")) == Collect(entries, AllFiles)
  {
  }

  /** The extension argument is case-insensitive: ".SYS" selects what ".sys" selects. */
  lemma ExtCaseInsensitive(entries: seq<WalkEntry>, ext: string)
    ensures Collect(entries, FilterFor(ext)) == Collect(entries, FilterFor(Lower(ext)))
  {
    LowerIdempotent(ext);
  }
}
