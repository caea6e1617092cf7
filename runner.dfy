/**
 * The checksum runner of the later scanner variant: for each file it tries
 * SHA256, then SHA1, then MD5, stops at the first digest that the data set
 * knows, and reports digest errors without giving up on the file. The
 * digest helpers and the package-level one-argument `MatchHash` that this
 * runner calls are not part of this model: they are passed in as functions.
 */
module ChecksumRunner {
  import opened Wrappers
  import opened LolDrivers
  import Results

  /** `calcSHA256`, `calcSHA1` and `calcMD5` of a path: the hex digest or the error text. */
  type Digest = (string, Algorithm) -> Result<string, string>

  /** The one-argument `MatchHash`: the matching driver, if any. */
  type Lookup = string -> Option<Driver>

  /** The order in which the runner tries the digests. */
  const Order: seq<Algorithm> := [SHA256, SHA1, MD5]

  /** The digest of `job` in `alg` was computed and the data set knows it. */
  predicate Hit(job: string, alg: Algorithm, digest: Digest, lookup: Lookup)
  {
    digest(job, alg).Success? && lookup(digest(job, alg).value).Some?
  }

  /** What one job yields: the result it sends, if any, and the errors it logs. */
  datatype Attempt = Attempt(result: Option<Results.Result>, errors: seq<string>)

  /** Trying the algorithms `algs` in order on `job`. */
  function TryFrom(job: string, algs: seq<Algorithm>, digest: Digest, lookup: Lookup): Attempt
  {
    if algs == [] then Attempt(None, [])
    else
      var d := digest(job, algs[0]);
      var rest := TryFrom(job, algs[1..], digest, lookup);
      if d.Failure? then Attempt(rest.result, [d.error] + rest.errors)
      else if lookup(d.value).Some? then Attempt(Some(Results.Result(job, d.value, lookup(d.value).value)), [])
      else rest
  }

  /**
   * The first algorithm whose digest the data set knows decides the
   * result, and there is none exactly when no algorithm hits; every
   * logged error is the error of one of the digests, at most one each.
   */
  lemma {:induction false} TryFromFirstHit(job: string, algs: seq<Algorithm>, digest: Digest, lookup: Lookup)
    ensures TryFrom(job, algs, digest, lookup).result.None?
        <==> forall k :: 0 <= k < |algs| ==> !Hit(job, algs[k], digest, lookup)
    ensures TryFrom(job, algs, digest, lookup).result.Some? ==>
              exists k :: 0 <= k < |algs| && Hit(job, algs[k], digest, lookup)
                          && (forall j :: 0 <= j < k ==> !Hit(job, algs[j], digest, lookup))
                          && TryFrom(job, algs, digest, lookup).result.value
                             == Results.Result(job, digest(job, algs[k]).value, lookup(digest(job, algs[k]).value).value)
    ensures |TryFrom(job, algs, digest, lookup).errors| <= |algs|
    ensures forall e :: e in TryFrom(job, algs, digest, lookup).errors ==>
              exists k :: 0 <= k < |algs| && digest(job, algs[k]) == Failure(e)
  {
    if algs != [] {
      var tail := algs[1..];
      TryFromFirstHit(job, tail, digest, lookup);
      var a := TryFrom(job, algs, digest, lookup);
      var rest := TryFrom(job, tail, digest, lookup);
      assert forall k :: 1 <= k < |algs| ==> algs[k] == tail[k - 1];
      if !Hit(job, algs[0], digest, lookup) {
        assert a.result == rest.result;
        if rest.result.Some? {
          var k :| 0 <= k < |tail| && Hit(job, tail[k], digest, lookup)
                   && (forall j :: 0 <= j < k ==> !Hit(job, tail[j], digest, lookup))
                   && rest.result.value
                      == Results.Result(job, digest(job, tail[k]).value, lookup(digest(job, tail[k]).value).value);
          assert algs[k + 1] == tail[k];
        }
        forall e | e in a.errors
          ensures exists k :: 0 <= k < |algs| && digest(job, algs[k]) == Failure(e)
        {
          if e !in rest.errors {
            assert digest(job, algs[0]) == Failure(e);
          } else {
            var k :| 0 <= k < |tail| && digest(job, tail[k]) == Failure(e);
            assert algs[k + 1] == tail[k];
          }
        }
      }
    }
  }

  /** `whole` is what trying `alg` first and then falling back to `rest` gives. */
  predicate Unfolds(whole: Attempt, job: string, alg: Algorithm, rest: Attempt, digest: Digest, lookup: Lookup)
  {
    (digest(job, alg).Failure? ==> whole == Attempt(rest.result, [digest(job, alg).error] + rest.errors))
    && (Hit(job, alg, digest, lookup) ==>
          whole == Attempt(Some(Results.Result(job, digest(job, alg).value, lookup(digest(job, alg).value).value)), []))
    && (digest(job, alg).Success? && !Hit(job, alg, digest, lookup) ==> whole == rest)
  }

  /** `TryFrom` over `Order`, one algorithm at a time. */
  lemma TryOrder(job: string, digest: Digest, lookup: Lookup)
    ensures Unfolds(TryFrom(job, Order, digest, lookup), job, SHA256, TryFrom(job, [SHA1, MD5], digest, lookup), digest, lookup)
    ensures Unfolds(TryFrom(job, [SHA1, MD5], digest, lookup), job, SHA1, TryFrom(job, [MD5], digest, lookup), digest, lookup)
    ensures Unfolds(TryFrom(job, [MD5], digest, lookup), job, MD5, Attempt(None, []), digest, lookup)
  {
    assert Order[1..] == [SHA1, MD5] && [SHA1, MD5][1..] == [MD5] && [MD5][1..] == [];
  }

  /** What the runner sends and logs for a list of jobs. */
  datatype Run = Run(results: seq<Results.Result>, errors: seq<string>)

  /** What one file contributes to the run. */
  function JobRun(job: string, digest: Digest, lookup: Lookup): Run
  {
    var a := TryFrom(job, Order, digest, lookup);
    Run(if a.result.Some? then [a.result.value] else [], a.errors)
  }

  /** Two runs one after the other. */
  function Join(x: Run, y: Run): Run
  {
    Run(x.results + y.results, x.errors + y.errors)
  }

  function RunAll(jobs: seq<string>, digest: Digest, lookup: Lookup): Run
  {
    if jobs == [] then Run([], [])
    else Join(RunAll(jobs[..|jobs| - 1], digest, lookup), JobRun(jobs[|jobs| - 1], digest, lookup))
  }

  lemma RunAllSnoc(jobs: seq<string>, i: nat, digest: Digest, lookup: Lookup)
    requires i < |jobs|
    ensures RunAll(jobs[..i + 1], digest, lookup) == Join(RunAll(jobs[..i], digest, lookup), JobRun(jobs[i], digest, lookup))
  {
    assert jobs[..i + 1][..i] == jobs[..i];
  }

  /**
   * The body of `CalcRunner`'s loop for one file: each digest in turn, a
   * failed one logged and skipped, a known one sent at once.
   */
  method TryJob(job: string, digest: Digest, lookup: Lookup) returns (result: Option<Results.Result>, errors: seq<string>)
    ensures Attempt(result, errors) == TryFrom(job, Order, digest, lookup)
  {
    ghost var a := TryFrom(job, Order, digest, lookup);
    ghost var a1 := TryFrom(job, [SHA1, MD5], digest, lookup);
    ghost var a2 := TryFrom(job, [MD5], digest, lookup);
    TryOrder(job, digest, lookup);

    var logged;
    result, errors := TryDigest(job, SHA256, digest, lookup);
    if result.Some? {
      assert Hit(job, SHA256, digest, lookup) && errors == [];
      return;
    }
    assert errors + a1.errors == a.errors && a.result == a1.result;

    result, logged := TryDigest(job, SHA1, digest, lookup);
    if result.Some? {
      assert Hit(job, SHA1, digest, lookup) && logged == [];
      errors := errors + logged;
      return;
    }
    errors := errors + logged;
    assert errors + a2.errors == a.errors && a.result == a2.result;

    result, logged := TryDigest(job, MD5, digest, lookup);
    errors := errors + logged;
  }

  /** One digest of `job`: a failure is logged, a digest the data set knows is the result. */
  method TryDigest(job: string, alg: Algorithm, digest: Digest, lookup: Lookup)
    returns (result: Option<Results.Result>, logged: seq<string>)
    ensures result.Some? <==> Hit(job, alg, digest, lookup)
    ensures result.Some? ==> result.value == Results.Result(job, digest(job, alg).value, lookup(digest(job, alg).value).value)
    ensures logged == (if digest(job, alg).Failure? then [digest(job, alg).error] else [])
  {
    var sum := digest(job, alg);
    if sum.Failure? {
      return None, [sum.error];
    }
    var driver := lookup(sum.value);
    if driver.Some? {
      return Some(Results.Result(job, sum.value, driver.value)), [];
    }
    return None, [];
  }

  /** `CalcRunner`, run over the jobs one after another: the results it sends and the errors it logs. */
  method CalcRunner(jobs: seq<string>, digest: Digest, lookup: Lookup) returns (results: seq<Results.Result>, errors: seq<string>)
    ensures results == RunAll(jobs, digest, lookup).results
    ensures errors == RunAll(jobs, digest, lookup).errors
  {
    results, errors := [], [];
    var i := 0;
    while i < |jobs|
      invariant 0 <= i <= |jobs|
      invariant results == RunAll(jobs[..i], digest, lookup).results
      invariant errors == RunAll(jobs[..i], digest, lookup).errors
    {
      RunAllSnoc(jobs, i, digest, lookup);
      var result, logged := TryJob(jobs[i], digest, lookup);
      if result.Some? {
        results := results + [result.value];
      }
      errors := errors + logged;
      i := i + 1;
    }
    assert jobs[..i] == jobs;
  }

  /**
   * At most one result per file and at most one logged error per digest;
   * every result names one of the jobs, carries one of that file's
   * computed digests, and carries the driver the lookup gives for it.
   */
  lemma {:induction false} RunAllResults(jobs: seq<string>, digest: Digest, lookup: Lookup)
    ensures |RunAll(jobs, digest, lookup).results| <= |jobs|
    ensures |RunAll(jobs, digest, lookup).errors| <= 3 * |jobs|
    ensures forall r :: r in RunAll(jobs, digest, lookup).results ==>
              r.filepath in jobs && lookup(r.checksum) == Some(r.driver)
              && exists alg :: digest(r.filepath, alg) == Success(r.checksum)
  {
    if jobs != [] {
      var init := jobs[..|jobs| - 1];
      RunAllResults(init, digest, lookup);
      var a := TryFrom(jobs[|jobs| - 1], Order, digest, lookup);
      TryFromFirstHit(jobs[|jobs| - 1], Order, digest, lookup);
      forall r | r in RunAll(jobs, digest, lookup).results
        ensures r.filepath in jobs && lookup(r.checksum) == Some(r.driver)
        ensures exists alg :: digest(r.filepath, alg) == Success(r.checksum)
      {
        if r in RunAll(init, digest, lookup).results {
          assert r.filepath in init;
          var k :| 0 <= k < |init| && init[k] == r.filepath;
          assert jobs[k] == init[k];
        } else {
          assert r == a.result.value;
          var k :| 0 <= k < |Order| && Hit(jobs[|jobs| - 1], Order[k], digest, lookup)
                   && a.result.value == Results.Result(jobs[|jobs| - 1], digest(jobs[|jobs| - 1], Order[k]).value,
                                                       lookup(digest(jobs[|jobs| - 1], Order[k]).value).value);
          assert digest(r.filepath, Order[k]) == Success(r.checksum);
        }
      }
    }
  }

  /**
   * One more file adds its own results and errors after the others': the run
   * is the in-order concatenation of the per-file runs.
   */
  lemma RunAllLast(s: seq<string>, job: string, digest: Digest, lookup: Lookup)
    ensures RunAll(s + [job], digest, lookup) == Join(RunAll(s, digest, lookup), JobRun(job, digest, lookup))
  {
    assert (s + [job])[..|s|] == s;
  }

  /** A file whose SHA256 is known never has its SHA1 or MD5 looked at, and logs nothing. */
  lemma Sha256First(job: string, digest: Digest, lookup: Lookup, other: Digest)
    requires Hit(job, SHA256, digest, lookup)
    requires other(job, SHA256) == digest(job, SHA256)
    ensures TryFrom(job, Order, digest, lookup) == TryFrom(job, Order, other, lookup)
    ensures TryFrom(job, Order, digest, lookup).errors == []
    ensures TryFrom(job, Order, digest, lookup).result.value.checksum == digest(job, SHA256).value
  {
  }

  /** A digest error does not end the file's check: the error is logged and the next digest tried. */
  lemma ErrorFallsThrough(job: string, digest: Digest, lookup: Lookup)
    requires digest(job, SHA256).Failure?
    ensures TryFrom(job, Order, digest, lookup).result == TryFrom(job, [SHA1, MD5], digest, lookup).result
    ensures TryFrom(job, Order, digest, lookup).errors
            == [digest(job, SHA256).error] + TryFrom(job, [SHA1, MD5], digest, lookup).errors
  {
    assert Order[1..] == [SHA1, MD5];
  }

  /** The lookup backed by the list search `MatchHash` over a loaded data set. */
  function ListLookup(drivers: seq<Driver>): Lookup
  {
    h => if MatchHash(h, drivers).Success? then Some(MatchHash(h, drivers).value) else None
  }

  /**
   * With the list search as lookup, every result is genuine: its driver
   * has a sample carrying the reported checksum, and the checksum is a
   * digest of the reported file.
   */
  lemma RunnerMatchesAreGenuine(jobs: seq<string>, digest: Digest, drivers: seq<Driver>)
    ensures forall r :: r in RunAll(jobs, digest, ListLookup(drivers)).results ==>
              r.filepath in jobs && DriverHasHash(r.driver, r.checksum)
              && exists alg :: digest(r.filepath, alg) == Success(r.checksum)
  {
    RunAllResults(jobs, digest, ListLookup(drivers));
    forall r | r in RunAll(jobs, digest, ListLookup(drivers)).results
      ensures DriverHasHash(r.driver, r.checksum)
    {
      assert ListLookup(drivers)(r.checksum) == Some(r.driver);
      var m := MatchHash(r.checksum, drivers);
      assert m.Success? && m.value == r.driver;
    }
  }
}
