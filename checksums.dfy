/**
 * Checksum calculation and comparison for the scanner variant that first
 * computes all three digests of a file (`Calc`, `CalcRunner`) and then
 * compares them against the hash buckets of the data set (`CompareRunner`),
 * MD5 first, then SHA1, then SHA256. The digests themselves are not
 * computed: each helper is handed what it meets on disk.
 */
module Checksums {
  import opened Wrappers
  import Strings
  import opened Os
  import FileSystem
  import opened LolDrivers
  import Logger

  /** The digests of one file; `filename` is set only when all three were computed. */
  datatype Sums = Sums(filename: string, md5: string, sha1: string, sha256: string)

  /**
   * What a digest helper meets: the error of `os.Stat` (through
   * `filesystem.FileExists`), the text of the `os.Open` error, the text of
   * the `io.Copy` error, and the hex digest of the content when it is read.
   */
  datatype FileIo = FileIo(stat: Option<OsError>, openErr: Option<string>, copyErr: Option<string>, digest: string)

  /** Open errors about access or a vanished file are not reported. */
  predicate OpenErrorIgnored(text: string)
  {
    Strings.Contains(Strings.Lower(text), "access") || Strings.Contains(Strings.Lower(text), "does not exist")
  }

  /** A read error about another process's lock is not reported. */
  predicate ReadErrorIgnored(text: string)
  {
    Strings.Contains(Strings.Lower(text), "has locked")
  }

  /**
   * `MD5`, `SHA1` and `SHA256` (the three are the same steps over different
   * hashes): an absent file is an error; an ignored open or read error
   * gives an empty digest and no error; any other error is returned as it is.
   */
  function Digest(path: string, io: FileIo): (r: Result<string, string>)
    ensures r.Failure? <==> (!FileSystem.FileExists(io.stat)
                             || (io.openErr.Some? && !OpenErrorIgnored(io.openErr.value))
                             || (io.openErr.None? && io.copyErr.Some? && !ReadErrorIgnored(io.copyErr.value)))
    ensures !FileSystem.FileExists(io.stat) ==> r.error == "file '" + path + "' does not exist"
    ensures FileSystem.FileExists(io.stat) && r.Failure? ==>
              r.error == (if io.openErr.Some? then io.openErr.value else io.copyErr.value)
    // the digest is reported only when the file was opened and read; an ignored error reports ""
    ensures r.Success? ==> ((r.value == io.digest && io.openErr.None? && io.copyErr.None?)
                            || (r.value == "" && (io.openErr.Some? || io.copyErr.Some?)))
  {
    if !FileSystem.FileExists(io.stat) then Failure("file '" + path + "' does not exist")
    else if io.openErr.Some? then
      if OpenErrorIgnored(io.openErr.value) then Success("") else Failure(io.openErr.value)
    else if io.copyErr.Some? then
      if ReadErrorIgnored(io.copyErr.value) then Success("") else Failure(io.copyErr.value)
    else Success(io.digest)
  }

  /** Upper case makes no difference to which errors are ignored. */
  lemma IgnoredErrorsIgnoreCase(text: string)
    ensures OpenErrorIgnored(text) <==> OpenErrorIgnored(Strings.Lower(text))
    ensures ReadErrorIgnored(text) <==> ReadErrorIgnored(Strings.Lower(text))
  {
    Strings.LowerIdempotent(text);
  }

  /**
   * However it is capitalised and whatever text surrounds it, "access" or
   * "does not exist" makes an open error ignored, and "has locked" a read
   * error ("Access denied", "The file does not exist", "another process
   * has locked a portion of the file").
   */
  lemma IgnoredWordsAnywhere(pre: string, word: string, post: string)
    ensures Strings.Lower(word) == "access" ==> OpenErrorIgnored(pre + word + post)
    ensures Strings.Lower(word) == "does not exist" ==> OpenErrorIgnored(pre + word + post)
    ensures Strings.Lower(word) == "has locked" ==> ReadErrorIgnored(pre + word + post)
  {
    Strings.ContainsLowered(pre, word, post);
  }

  /** `Calc`'s result: the digests filled in so far and the error that stopped it, if any. */
  datatype CalcResult = CalcResult(sums: Sums, err: Option<string>)

  /**
   * `Calc`: MD5, then SHA1, then SHA256; the first error is returned at
   * once with the later digests and the file name left empty.
   */
  function Calc(path: string, io: Algorithm -> FileIo): (r: CalcResult)
    ensures r.err.None? <==> Digest(path, io(MD5)).Success? && Digest(path, io(SHA1)).Success?
                             && Digest(path, io(SHA256)).Success?
    ensures r.err.None? ==> r.sums == Sums(path, Digest(path, io(MD5)).value,
                                           Digest(path, io(SHA1)).value, Digest(path, io(SHA256)).value)
    ensures r.err.Some? ==> r.sums.filename == "" && r.sums.sha256 == ""
    ensures Digest(path, io(MD5)).Failure? ==>
              r.err == Some(Digest(path, io(MD5)).error) && r.sums.md5 == "" && r.sums.sha1 == ""
    ensures Digest(path, io(MD5)).Success? && Digest(path, io(SHA1)).Failure? ==>
              r.err == Some(Digest(path, io(SHA1)).error)
              && r.sums.md5 == Digest(path, io(MD5)).value && r.sums.sha1 == ""
    ensures Digest(path, io(MD5)).Success? && Digest(path, io(SHA1)).Success? && Digest(path, io(SHA256)).Failure? ==>
              r.err == Some(Digest(path, io(SHA256)).error)
              && r.sums.md5 == Digest(path, io(MD5)).value && r.sums.sha1 == Digest(path, io(SHA1)).value
  {
    var md5 := Digest(path, io(MD5));
    if md5.Failure? then CalcResult(Sums("", "", "", ""), Some(md5.error))
    else
      var sha1 := Digest(path, io(SHA1));
      if sha1.Failure? then CalcResult(Sums("", md5.value, "", ""), Some(sha1.error))
      else
        var sha256 := Digest(path, io(SHA256));
        if sha256.Failure? then CalcResult(Sums("", md5.value, sha1.value, ""), Some(sha256.error))
        else CalcResult(Sums(path, md5.value, sha1.value, sha256.value), None)
  }

  /** After a failed MD5 nothing else is looked at: the other two files' outcomes do not matter. */
  lemma CalcStopsAtFirstError(path: string, io1: Algorithm -> FileIo, io2: Algorithm -> FileIo)
    requires io1(MD5) == io2(MD5) && Digest(path, io1(MD5)).Failure?
    ensures Calc(path, io1) == Calc(path, io2)
  {
  }

  // ---------------------------------------------------------------------------
  // CalcRunner
  // ---------------------------------------------------------------------------

  /** What `CalcRunner` produces for a list of jobs: the sums it forwards and the error lines it prints. */
  datatype Calculated = Calculated(sums: seq<Sums>, logged: seq<string>)

  function CalcAll(jobs: seq<string>, io: string -> Algorithm -> FileIo): Calculated
  {
    if jobs == [] then Calculated([], [])
    else
      var prev := CalcAll(jobs[..|jobs| - 1], io);
      var job := jobs[|jobs| - 1];
      var c := Calc(job, io(job));
      if c.err.Some? then Calculated(prev.sums, prev.logged + ["ERROR: " + c.err.value])
      else Calculated(prev.sums + [c.sums], prev.logged)
  }

  /**
   * `CalcRunner`, run over the jobs one after another: a job whose `Calc`
   * fails is reported and skipped, every other job's sums are forwarded.
   */
  method CalcRunner(jobs: seq<string>, io: string -> Algorithm -> FileIo, log: Logger.Logger) returns (results: seq<Sums>)
    modifies log`stdout
    ensures results == CalcAll(jobs, io).sums
    ensures log.stdout == old(log.stdout) + CalcAll(jobs, io).logged
  {
    results := [];
    var i := 0;
    while i < |jobs|
      invariant 0 <= i <= |jobs|
      invariant results == CalcAll(jobs[..i], io).sums
      invariant log.stdout == old(log.stdout) + CalcAll(jobs[..i], io).logged
    {
      var job := jobs[i];
      assert jobs[..i + 1][..i] == jobs[..i];
      var c := Calc(job, io(job));
      if c.err.Some? {
        log.Catch(c.err.value);
      } else {
        results := results + [c.sums];
      }
      i := i + 1;
    }
    assert jobs[..i] == jobs;
  }

  /**
   * Every job is either forwarded or reported, never both; what is
   * forwarded is the job's own `Calc` sums, unchanged, named after the job.
   */
  lemma {:induction false} CalcAllForwards(jobs: seq<string>, io: string -> Algorithm -> FileIo)
    ensures |CalcAll(jobs, io).sums| + |CalcAll(jobs, io).logged| == |jobs|
    ensures forall s :: s in CalcAll(jobs, io).sums ==>
              exists k :: 0 <= k < |jobs| && Calc(jobs[k], io(jobs[k])) == CalcResult(s, None) && s.filename == jobs[k]
  {
    if jobs != [] {
      var init := jobs[..|jobs| - 1];
      CalcAllForwards(init, io);
      forall s | s in CalcAll(jobs, io).sums
        ensures exists k :: 0 <= k < |jobs| && Calc(jobs[k], io(jobs[k])) == CalcResult(s, None) && s.filename == jobs[k]
      {
        if s in CalcAll(init, io).sums {
          var k :| 0 <= k < |init| && Calc(init[k], io(init[k])) == CalcResult(s, None) && s.filename == init[k];
          assert jobs[k] == init[k];
        } else {
          assert Calc(jobs[|jobs| - 1], io(jobs[|jobs| - 1])) == CalcResult(s, None);
        }
      }
    }
  }

  // ---------------------------------------------------------------------------
  // CompareRunner
  // ---------------------------------------------------------------------------

  /** `contains`: a linear search with early return. */
  method Contains(slice: seq<string>, value: string) returns (found: bool)
    ensures found <==> value in slice
  {
    var i := 0;
    while i < |slice|
      invariant 0 <= i <= |slice|
      invariant value !in slice[..i]
    {
      if slice[i] == value {
        return true;
      }
      assert slice[..i + 1] == slice[..i] + [slice[i]];
      i := i + 1;
    }
    assert slice[..i] == slice;
    return false;
  }

  /** The result `CompareRunner` sends for one job, if any: MD5 is checked first, then SHA1, then SHA256. */
  function CompareOne(job: Sums, checksums: DriverHashes): (r: Option<Logger.Result>)
    ensures r.None? <==> job.md5 !in checksums.md5Sums && job.sha1 !in checksums.sha1Sums
                         && job.sha256 !in checksums.sha256Sums
    ensures r.Some? ==> r.value.filename == job.filename
    ensures r.Some? ==> ((job.md5 in checksums.md5Sums && r.value.checksum == job.md5)
                         || (job.md5 !in checksums.md5Sums && job.sha1 in checksums.sha1Sums
                             && r.value.checksum == job.sha1)
                         || (job.md5 !in checksums.md5Sums && job.sha1 !in checksums.sha1Sums
                             && job.sha256 in checksums.sha256Sums && r.value.checksum == job.sha256))
  {
    if job.md5 in checksums.md5Sums then Some(Logger.Result(job.filename, job.md5))
    else if job.sha1 in checksums.sha1Sums then Some(Logger.Result(job.filename, job.sha1))
    else if job.sha256 in checksums.sha256Sums then Some(Logger.Result(job.filename, job.sha256))
    else None
  }

  function CompareAll(jobs: seq<Sums>, checksums: DriverHashes): seq<Logger.Result>
  {
    if jobs == [] then []
    else
      var r := CompareOne(jobs[|jobs| - 1], checksums);
      CompareAll(jobs[..|jobs| - 1], checksums) + (if r.Some? then [r.value] else [])
  }

  /** `CompareRunner`, run over the jobs one after another. */
  method CompareRunner(jobs: seq<Sums>, checksums: DriverHashes) returns (results: seq<Logger.Result>)
    ensures results == CompareAll(jobs, checksums)
  {
    results := [];
    var i := 0;
    while i < |jobs|
      invariant 0 <= i <= |jobs|
      invariant results == CompareAll(jobs[..i], checksums)
    {
      var job := jobs[i];
      assert jobs[..i + 1][..i] == jobs[..i];
      i := i + 1;
      var hit := Contains(checksums.md5Sums, job.md5);
      if hit {
        results := results + [Logger.Result(job.filename, job.md5)];
        continue;
      }
      hit := Contains(checksums.sha1Sums, job.sha1);
      if hit {
        results := results + [Logger.Result(job.filename, job.sha1)];
        continue;
      }
      hit := Contains(checksums.sha256Sums, job.sha256);
      if hit {
        results := results + [Logger.Result(job.filename, job.sha256)];
        continue;
      }
    }
    assert jobs[..i] == jobs;
  }

  /** At most one result per job, and each result is the one its job gives. */
  lemma {:induction false} CompareAtMostOnePerJob(jobs: seq<Sums>, checksums: DriverHashes)
    ensures |CompareAll(jobs, checksums)| <= |jobs|
    ensures forall r :: r in CompareAll(jobs, checksums) ==>
              exists k :: 0 <= k < |jobs| && CompareOne(jobs[k], checksums) == Some(r)
  {
    if jobs != [] {
      var init := jobs[..|jobs| - 1];
      CompareAtMostOnePerJob(init, checksums);
      forall r | r in CompareAll(jobs, checksums)
        ensures exists k :: 0 <= k < |jobs| && CompareOne(jobs[k], checksums) == Some(r)
      {
        if r in CompareAll(init, checksums) {
          var k :| 0 <= k < |init| && CompareOne(init[k], checksums) == Some(r);
          assert jobs[k] == init[k];
        }
      }
    }
  }

  /**
   * With buckets built by `GetHashes`, no reported checksum is empty or the
   * placeholder: a digest left empty by an ignored read error never matches.
   */
  lemma {:induction false} EmptyDigestNeverMatches(jobs: seq<Sums>, drivers: seq<Driver>)
    ensures forall r :: r in CompareAll(jobs, Hashes(drivers)) ==> Present(r.checksum)
  {
    var h := Hashes(drivers);
    var all := AllSamples(drivers);
    forall r | r in CompareAll(jobs, h) ensures Present(r.checksum) {
      CompareAtMostOnePerJob(jobs, h);
      var k :| 0 <= k < |jobs| && CompareOne(jobs[k], h) == Some(r);
      if r.checksum in h.md5Sums {
        BucketMembership(all, MD5, r.checksum);
      } else if r.checksum in h.sha1Sums {
        BucketMembership(all, SHA1, r.checksum);
      } else {
        BucketMembership(all, SHA256, r.checksum);
      }
    }
  }
}
