/**
 * `DirectoryWalker`: the callback that decides, for every entry of a
 * recursive walk, whether the path is sent to the checksum workers, skipped,
 * or ends the walk with an error. Sending on the channel is modelled as
 * appending to the list of sent paths.
 */
module DirectoryWalk {
  import opened Wrappers
  import opened Os

  /** Go's `int64`; on 64-bit Windows Go's `int` has the same range. */
  newtype int64 = x: int | -0x8000_0000_0000_0000 <= x < 0x8000_0000_0000_0000

  /** Two's-complement wrap-around of a mathematical integer into `int64`. */
  function WrapInt64(x: int): (r: int64)
    ensures -0x8000_0000_0000_0000 <= x < 0x8000_0000_0000_0000 ==> r as int == x
  {
    (((x + 0x8000_0000_0000_0000) % 0x1_0000_0000_0000_0000) - 0x8000_0000_0000_0000) as int64
  }

  /** `int64(sizeLimit)*1024*1024`, evaluated in `int64` arithmetic. */
  function LimitBytes(sizeLimit: int64): int64
  {
    WrapInt64(sizeLimit as int * 1024 * 1024)
  }

  /** The owner-read bit, 0400, of `Mode().Perm()`. */
  predicate OwnerReadable(perm: bv32)
  {
    perm & 0x100 != 0
  }

  /** The filters a visited file must pass to be sent. */
  predicate Passes(info: FileInfo, sizeLimit: int64)
  {
    !info.isDir && info.isRegular && OwnerReadable(info.perm) && info.size <= LimitBytes(sizeLimit) as int
  }

  /** Errors the walk tolerates: `os.IsPermission` and `os.IsNotExist`. */
  predicate Tolerated(e: OsError)
  {
    e.kind == Permission || e.kind == NotExist
  }

  /** What the walk has produced: the paths sent and the error that ended it, if any. */
  datatype Walked = Walked(sent: seq<string>, err: Option<OsError>)

  /** The outcome of the callback over `entries`, entry by entry. */
  function Walk(entries: seq<WalkEntry>, sizeLimit: int64): Walked
  {
    if entries == [] then Walked([], None)
    else
      var prev := Walk(entries[..|entries| - 1], sizeLimit);
      if prev.err.Some? then prev
      else
        match entries[|entries| - 1]
        case VisitError(_, e) => if Tolerated(e) then prev else Walked(prev.sent, Some(e))
        case Visit(info) => if Passes(info, sizeLimit) then Walked(prev.sent + [info.path], None) else prev
  }

  lemma PrefixStep(entries: seq<WalkEntry>, i: nat)
    requires i < |entries|
    ensures entries[..i + 1][..i] == entries[..i] && entries[..i + 1][i] == entries[i]
  {
  }

  /** Once an error has ended the walk, later entries change nothing. */
  lemma {:induction false} WalkStops(entries: seq<WalkEntry>, i: nat, sizeLimit: int64)
    requires i <= |entries|
    requires Walk(entries[..i], sizeLimit).err.Some?
    ensures Walk(entries, sizeLimit) == Walk(entries[..i], sizeLimit)
    decreases |entries| - i
  {
    if i < |entries| {
      PrefixStep(entries, i);
      WalkStops(entries, i + 1, sizeLimit);
    } else {
      assert entries[..i] == entries;
    }
  }

  /**
   * `DirectoryWalker(root, sizeLimit, filepaths)`, with the walk below
   * `root` given as its sequence of entries.
   */
  method DirectoryWalker(entries: seq<WalkEntry>, sizeLimit: int64) returns (sent: seq<string>, err: Option<OsError>)
    ensures Walked(sent, err) == Walk(entries, sizeLimit)
  {
    sent := [];
    var i := 0;
    while i < |entries|
      invariant 0 <= i <= |entries|
      invariant Walk(entries[..i], sizeLimit) == Walked(sent, None)
    {
      PrefixStep(entries, i);
      match entries[i] {
        case VisitError(_, e) =>
          if e.kind != Permission && e.kind != NotExist {
            WalkStops(entries, i + 1, sizeLimit);
            return sent, Some(e);
          }
        case Visit(info) =>
          if info.isDir || !info.isRegular {
            // directories and non-regular files are skipped
          } else if info.perm & 0x100 == 0 {
            // so are files the owner cannot read
          } else if info.size > LimitBytes(sizeLimit) as int {
            // and files over the size limit
          } else {
            sent := sent + [info.path];
          }
      }
      i := i + 1;
    }
    assert entries[..i] == entries;
    err := None;
  }

  /** Every path sent was visited and passed every filter. */
  lemma {:induction false} SentPassedFilters(entries: seq<WalkEntry>, sizeLimit: int64, p: string)
    requires p in Walk(entries, sizeLimit).sent
    ensures exists k :: 0 <= k < |entries| && entries[k].Visit? && entries[k].info.path == p
                     && Passes(entries[k].info, sizeLimit)
  {
    var init := entries[..|entries| - 1];
    if p in Walk(init, sizeLimit).sent {
      SentPassedFilters(init, sizeLimit, p);
      var k :| 0 <= k < |init| && init[k].Visit? && init[k].info.path == p && Passes(init[k].info, sizeLimit);
      assert entries[k] == init[k];
    }
  }

  /** An entry that is not an error, or only a tolerated one, never ends the walk. */
  predicate Harmless(e: WalkEntry)
  {
    e.VisitError? ==> Tolerated(e.err)
  }

  /**
   * When every error is a permission or not-exist error, the walk ends
   * without an error and sends exactly the visited paths that pass the
   * filters, in walk order.
   */
  lemma {:induction false} ToleratedWalkSendsPassing(entries: seq<WalkEntry>, sizeLimit: int64)
    requires forall k :: 0 <= k < |entries| ==> Harmless(entries[k])
    ensures Walk(entries, sizeLimit) == Walked(PassingPaths(entries, sizeLimit), None)
  {
    if entries != [] {
      ToleratedWalkSendsPassing(entries[..|entries| - 1], sizeLimit);
    }
  }

  /** The paths of the visited entries that pass the filters, in order. */
  function PassingPaths(entries: seq<WalkEntry>, sizeLimit: int64): seq<string>
  {
    if entries == [] then []
    else
      var last := entries[|entries| - 1];
      PassingPaths(entries[..|entries| - 1], sizeLimit)
        + (if last.Visit? && Passes(last.info, sizeLimit) then [last.info.path] else [])
  }

  /**
   * A walk that returns an error returned the first error that is neither a
   * permission nor a not-exist error.
   */
  lemma {:induction false} AbortingError(entries: seq<WalkEntry>, sizeLimit: int64)
    requires Walk(entries, sizeLimit).err.Some?
    ensures exists k :: 0 <= k < |entries| && entries[k].VisitError? && !Tolerated(entries[k].err)
                     && Walk(entries, sizeLimit).err.value == entries[k].err
                     && forall j :: 0 <= j < k ==> Harmless(entries[j])
  {
    var init := entries[..|entries| - 1];
    if Walk(init, sizeLimit).err.Some? {
      AbortingError(init, sizeLimit);
      var k :| 0 <= k < |init| && init[k].VisitError? && !Tolerated(init[k].err)
               && Walk(init, sizeLimit).err.value == init[k].err
               && forall j :: 0 <= j < k ==> Harmless(init[j]);
      assert entries[k] == init[k];
      assert forall j :: 0 <= j < k ==> entries[j] == init[j];
    } else {
      NoAbortSoFar(init, sizeLimit);
      assert forall j :: 0 <= j < |init| ==> entries[j] == init[j];
    }
  }

  /** A walk that has not ended on an error has met only harmless entries. */
  lemma {:induction false} NoAbortSoFar(entries: seq<WalkEntry>, sizeLimit: int64)
    requires Walk(entries, sizeLimit).err.None?
    ensures forall k :: 0 <= k < |entries| ==> Harmless(entries[k])
  {
    if entries != [] {
      var init := entries[..|entries| - 1];
      NoAbortSoFar(init, sizeLimit);
      assert forall j :: 0 <= j < |init| ==> entries[j] == init[j];
    }
  }

  /**
   * The size limit is inclusive: for a limit of `n` MiB that does not
   * overflow, a readable regular file of exactly `n * 1048576` bytes passes
   * and one a byte larger does not.
   */
  lemma SizeLimitBoundary(info: FileInfo, sizeLimit: int64)
    requires 0 <= sizeLimit as int < 0x800_0000_0000
    requires !info.isDir && info.isRegular && OwnerReadable(info.perm)
    ensures info.size == sizeLimit as int * 1048576 ==> Passes(info, sizeLimit)
    ensures info.size == sizeLimit as int * 1048576 + 1 ==> !Passes(info, sizeLimit)
  {
    assert LimitBytes(sizeLimit) as int == sizeLimit as int * 1048576;
  }

  /** A limit of 2^43 MiB wraps to the most negative `int64`, so no file of non-negative size passes. */
  lemma OverflowingLimitSkipsAll(info: FileInfo)
    requires info.size >= 0
    ensures !Passes(info, 0x800_0000_0000 as int64)
  {
    assert LimitBytes(0x800_0000_0000 as int64) as int == -0x8000_0000_0000_0000;
  }
}
