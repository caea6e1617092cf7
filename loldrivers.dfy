/**
 * The driver data set of loldrivers.io and the two searches the scanner runs
 * over it: sorting every known sample's MD5/SHA1/SHA256 into one bucket per
 * algorithm (`GetHashes`), and finding the driver a checksum belongs to
 * (`MatchHash`). `LoadDrivers` chooses where the data set comes from.
 */
module LolDrivers {
  import opened Wrappers

  /** One entry of `KnownVulnerableSamples`; an absent hash is "" or the placeholder "-". */
  datatype Sample = Sample(filename: string, md5: string, sha1: string, sha256: string)

  /** A driver record; only the fields the scanner reads are kept. */
  datatype Driver = Driver(id: string, category: string, samples: seq<Sample>)

  datatype DriverHashes = DriverHashes(md5Sums: seq<string>, sha1Sums: seq<string>, sha256Sums: seq<string>)

  datatype Algorithm = MD5 | SHA1 | SHA256

  type Bytes = seq<bv8>

  /** The field of a sample that holds the digest of algorithm `alg`. */
  function Field(s: Sample, alg: Algorithm): string
  {
    match alg
    case MD5 => s.md5
    case SHA1 => s.sha1
    case SHA256 => s.sha256
  }

  /** A hash field counts as present unless it is empty or the "-" placeholder. */
  predicate Present(h: string)
  {
    h != "" && h != "-"
  }

  // ---------------------------------------------------------------------------
  // GetHashes
  // ---------------------------------------------------------------------------

  /** Every known sample of every driver, driver by driver, in data-set order. */
  function AllSamples(drivers: seq<Driver>): seq<Sample>
  {
    if drivers == [] then []
    else AllSamples(drivers[..|drivers| - 1]) + drivers[|drivers| - 1].samples
  }

  /** The present `alg` fields of `samples`, in order, duplicates kept. */
  function Bucket(samples: seq<Sample>, alg: Algorithm): seq<string>
  {
    if samples == [] then []
    else
      var last := Field(samples[|samples| - 1], alg);
      Bucket(samples[..|samples| - 1], alg) + (if Present(last) then [last] else [])
  }

  /** The three buckets of a list of samples. */
  function SampleHashes(samples: seq<Sample>): DriverHashes
  {
    DriverHashes(Bucket(samples, MD5), Bucket(samples, SHA1), Bucket(samples, SHA256))
  }

  /** The three buckets `GetHashes` builds from `drivers`. */
  function Hashes(drivers: seq<Driver>): DriverHashes
  {
    SampleHashes(AllSamples(drivers))
  }

  /** The bucket of `h` that belongs to algorithm `alg`. */
  function BucketOf(h: DriverHashes, alg: Algorithm): seq<string>
  {
    match alg
    case MD5 => h.md5Sums
    case SHA1 => h.sha1Sums
    case SHA256 => h.sha256Sums
  }

  /** One step of the inner loop: each present hash of `s` appended to its own bucket. */
  function AddSample(h: DriverHashes, s: Sample): DriverHashes
  {
    DriverHashes(h.md5Sums + (if Present(s.md5) then [s.md5] else []),
                 h.sha1Sums + (if Present(s.sha1) then [s.sha1] else []),
                 h.sha256Sums + (if Present(s.sha256) then [s.sha256] else []))
  }

  lemma BucketSnoc(samples: seq<Sample>, s: Sample, alg: Algorithm)
    ensures Bucket(samples + [s], alg)
         == Bucket(samples, alg) + (if Present(Field(s, alg)) then [Field(s, alg)] else [])
  {
    assert (samples + [s])[..|samples|] == samples;
  }

  lemma SampleHashesSnoc(samples: seq<Sample>, s: Sample)
    ensures SampleHashes(samples + [s]) == AddSample(SampleHashes(samples), s)
  {
    assert (samples + [s])[..|samples|] == samples;
  }

  lemma InnerStep(before: seq<Sample>, samples: seq<Sample>, j: nat)
    requires j < |samples|
    ensures SampleHashes(before + samples[..j + 1]) == AddSample(SampleHashes(before + samples[..j]), samples[j])
  {
    assert before + samples[..j + 1] == (before + samples[..j]) + [samples[j]];
    SampleHashesSnoc(before + samples[..j], samples[j]);
  }

  lemma AllSamplesSnoc(drivers: seq<Driver>, i: nat)
    requires i < |drivers|
    ensures AllSamples(drivers[..i + 1]) == AllSamples(drivers[..i]) + drivers[i].samples
  {
    assert drivers[..i + 1][..i] == drivers[..i];
  }

  /** The body of the inner loop: each present hash of `s` goes to its own bucket. */
  method AppendSample(h: DriverHashes, s: Sample) returns (r: DriverHashes)
    ensures r == AddSample(h, s)
  {
    var md5s, sha1s, sha256s := h.md5Sums, h.sha1Sums, h.sha256Sums;
    if s.md5 != "" && s.md5 != "-" {
      md5s := md5s + [s.md5];
    }
    if s.sha1 != "" && s.sha1 != "-" {
      sha1s := sha1s + [s.sha1];
    }
    if s.sha256 != "" && s.sha256 != "-" {
      sha256s := sha256s + [s.sha256];
    }
    r := DriverHashes(md5s, sha1s, sha256s);
  }

  /** The inner loop, over the known samples of one driver. */
  method AppendSamples(h: DriverHashes, ghost before: seq<Sample>, samples: seq<Sample>) returns (r: DriverHashes)
    requires h == SampleHashes(before)
    ensures r == SampleHashes(before + samples)
  {
    r := h;
    var j := 0;
    assert before + samples[..0] == before;
    while j < |samples|
      invariant 0 <= j <= |samples|
      invariant r == SampleHashes(before + samples[..j])
    {
      InnerStep(before, samples, j);
      r := AppendSample(r, samples[j]);
      j := j + 1;
    }
    assert samples[..j] == samples;
  }

  /**
   * Walks every driver and every known sample and appends each present
   * hash to the bucket of its own algorithm.
   */
  method GetHashes(drivers: seq<Driver>) returns (h: DriverHashes)
    ensures h == Hashes(drivers)
  {
    h := DriverHashes([], [], []);
    var i := 0;
    while i < |drivers|
      invariant 0 <= i <= |drivers|
      invariant h == Hashes(drivers[..i])
    {
      h := AppendSamples(h, AllSamples(drivers[..i]), drivers[i].samples);
      AllSamplesSnoc(drivers, i);
      i := i + 1;
    }
    assert drivers[..i] == drivers;
  }

  /**
   * A string is in the `alg` bucket exactly when it is present and some
   * sample carries it in its `alg` field: no placeholder gets in, and no
   * value crosses from one algorithm's field into another's bucket,
   * whatever its length.
   */
  lemma {:induction false} BucketMembership(samples: seq<Sample>, alg: Algorithm, x: string)
    ensures x in Bucket(samples, alg)
        <==> Present(x) && exists k :: 0 <= k < |samples| && Field(samples[k], alg) == x
  {
    if samples != [] {
      var init := samples[..|samples| - 1];
      BucketMembership(init, alg, x);
      if exists k :: 0 <= k < |init| && Field(init[k], alg) == x {
        var k :| 0 <= k < |init| && Field(init[k], alg) == x;
        assert Field(samples[k], alg) == x;
      }
      if exists k :: 0 <= k < |samples| && Field(samples[k], alg) == x {
        var k :| 0 <= k < |samples| && Field(samples[k], alg) == x;
        if k < |init| {
          assert Field(init[k], alg) == x;
        }
      }
    }
  }

  /** Each bucket has at most one entry per known sample. */
  lemma {:induction false} BucketLength(samples: seq<Sample>, alg: Algorithm)
    ensures |Bucket(samples, alg)| <= |samples|
  {
    if samples != [] {
      BucketLength(samples[..|samples| - 1], alg);
    }
  }

  /** The number of samples whose `alg` field is `x`. */
  function CountField(samples: seq<Sample>, alg: Algorithm, x: string): nat
  {
    if samples == [] then 0
    else CountField(samples[..|samples| - 1], alg, x)
         + (if Field(samples[|samples| - 1], alg) == x then 1 else 0)
  }

  /** Duplicates are kept: a present hash occurs in its bucket once per sample that carries it. */
  lemma {:induction false} BucketKeepsDuplicates(samples: seq<Sample>, alg: Algorithm, x: string)
    requires Present(x)
    ensures multiset(Bucket(samples, alg))[x] == CountField(samples, alg, x)
  {
    if samples != [] {
      BucketKeepsDuplicates(samples[..|samples| - 1], alg, x);
    }
  }

  /** Buckets are built sample by sample, so the buckets of a concatenation are the concatenated buckets. */
  lemma {:induction false} BucketAppend(a: seq<Sample>, b: seq<Sample>, alg: Algorithm)
    ensures Bucket(a + b, alg) == Bucket(a, alg) + Bucket(b, alg)
  {
    if b != [] {
      var init := b[..|b| - 1];
      var x := b[|b| - 1];
      var tail := if Present(Field(x, alg)) then [Field(x, alg)] else [];
      assert b == init + [x];
      assert a + b == (a + init) + [x];
      calc {
        Bucket(a + b, alg);
        Bucket((a + init) + [x], alg);
        { BucketSnoc(a + init, x, alg); }
        Bucket(a + init, alg) + tail;
        { BucketAppend(a, init, alg); }
        Bucket(a, alg) + Bucket(init, alg) + tail;
        { BucketSnoc(init, x, alg); }
        Bucket(a, alg) + Bucket(b, alg);
      }
    } else {
      assert a + b == a;
    }
  }

  /** Every sample in `AllSamples` is a known sample of some driver ... */
  lemma {:induction false} AllSamplesOwner(drivers: seq<Driver>, n: nat) returns (i: nat, k: nat)
    requires n < |AllSamples(drivers)|
    ensures i < |drivers| && k < |drivers[i].samples|
    ensures drivers[i].samples[k] == AllSamples(drivers)[n]
  {
    var init := drivers[..|drivers| - 1];
    var last := |drivers| - 1;
    if n < |AllSamples(init)| {
      i, k := AllSamplesOwner(init, n);
      assert drivers[i] == init[i];
    } else {
      i, k := last, n - |AllSamples(init)|;
    }
  }

  /** ... and every known sample of every driver is in `AllSamples`. */
  lemma {:induction false} AllSamplesHas(drivers: seq<Driver>, i: nat, k: nat) returns (n: nat)
    requires i < |drivers| && k < |drivers[i].samples|
    ensures n < |AllSamples(drivers)| && AllSamples(drivers)[n] == drivers[i].samples[k]
  {
    var init := drivers[..|drivers| - 1];
    if i < |drivers| - 1 {
      assert drivers[i] == init[i];
      n := AllSamplesHas(init, i, k);
    } else {
      n := |AllSamples(init)| + k;
    }
  }

  // ---------------------------------------------------------------------------
  // MatchHash
  // ---------------------------------------------------------------------------

  /** One of the sample's three fields equals `hash` (no placeholder filtering). */
  predicate SampleHasHash(s: Sample, hash: string)
  {
    s.md5 == hash || s.sha1 == hash || s.sha256 == hash
  }

  predicate DriverHasHash(d: Driver, hash: string)
  {
    exists k :: 0 <= k < |d.samples| && SampleHasHash(d.samples[k], hash)
  }

  /** The inner loop of `MatchHash`: does any sample from position `k` on carry `hash`? */
  function SamplesMatchFrom(samples: seq<Sample>, hash: string, k: nat): (b: bool)
    requires k <= |samples|
    ensures b <==> exists m :: k <= m < |samples| && SampleHasHash(samples[m], hash)
    decreases |samples| - k
  {
    if k == |samples| then false
    else if SampleHasHash(samples[k], hash) then true
    else SamplesMatchFrom(samples, hash, k + 1)
  }

  /** The outer loop of `MatchHash`, from driver `i` on. */
  function MatchFrom(hash: string, drivers: seq<Driver>, i: nat): (r: Result<Driver, string>)
    requires i <= |drivers|
    ensures r.Failure? <==> forall j :: i <= j < |drivers| ==> !DriverHasHash(drivers[j], hash)
    ensures r.Failure? ==> r.error == "no match found"
    ensures r.Success? ==> exists m :: i <= m < |drivers| && drivers[m] == r.value
                                    && DriverHasHash(drivers[m], hash)
                                    && forall j :: i <= j < m ==> !DriverHasHash(drivers[j], hash)
    decreases |drivers| - i
  {
    if i == |drivers| then Failure("no match found")
    else if SamplesMatchFrom(drivers[i].samples, hash, 0) then Success(drivers[i])
    else MatchFrom(hash, drivers, i + 1)
  }

  /**
   * The first driver, in data-set order, that has a sample whose MD5, SHA1
   * or SHA256 equals `hash`; "no match found" when there is none.
   */
  function MatchHash(hash: string, drivers: seq<Driver>): (r: Result<Driver, string>)
    ensures r.Failure? <==> forall i :: 0 <= i < |drivers| ==> !DriverHasHash(drivers[i], hash)
    ensures r.Failure? ==> r.error == "no match found"
    ensures r.Success? ==> exists i :: 0 <= i < |drivers| && drivers[i] == r.value
                                    && DriverHasHash(drivers[i], hash)
                                    && forall j :: 0 <= j < i ==> !DriverHasHash(drivers[j], hash)
  {
    MatchFrom(hash, drivers, 0)
  }

  /**
   * Every hash `GetHashes` puts in a bucket is found again by `MatchHash`,
   * which returns a driver that really has a sample with that hash in that
   * algorithm's field.
   */
  lemma BucketedHashMatches(drivers: seq<Driver>, alg: Algorithm, h: string)
    requires h in BucketOf(Hashes(drivers), alg)
    ensures MatchHash(h, drivers).Success?
    ensures DriverHasHash(MatchHash(h, drivers).value, h)
  {
    var all := AllSamples(drivers);
    assert BucketOf(Hashes(drivers), alg) == Bucket(all, alg) by {
      match alg
      case MD5 =>
      case SHA1 =>
      case SHA256 =>
    }
    BucketMembership(all, alg, h);
    var n :| 0 <= n < |all| && Field(all[n], alg) == h;
    var i, k := AllSamplesOwner(drivers, n);
    assert SampleHasHash(drivers[i].samples[k], h);
    assert DriverHasHash(drivers[i], h);
  }

  /**
   * Conversely, a present hash that `MatchHash` finds is in one of the
   * three buckets: the bucket of the field that carried it.
   */
  lemma MatchedHashIsBucketed(drivers: seq<Driver>, h: string)
    requires Present(h)
    requires MatchHash(h, drivers).Success?
    ensures h in Hashes(drivers).md5Sums || h in Hashes(drivers).sha1Sums || h in Hashes(drivers).sha256Sums
  {
    var d := MatchHash(h, drivers).value;
    var i :| 0 <= i < |drivers| && drivers[i] == d && DriverHasHash(d, h);
    var k :| 0 <= k < |d.samples| && SampleHasHash(d.samples[k], h);
    var all := AllSamples(drivers);
    var n := AllSamplesHas(drivers, i, k);
    var alg := if all[n].md5 == h then MD5 else if all[n].sha1 == h then SHA1 else SHA256;
    assert Field(all[n], alg) == h;
    BucketMembership(all, alg, h);
  }

  /**
   * `MatchHash` does not skip placeholders: the query "-" (or "") matches the
   * first driver with a sample that leaves any of its hash fields as "-" (or "").
   */
  lemma PlaceholderQueryMatches(drivers: seq<Driver>, i: nat, k: nat, placeholder: string)
    requires !Present(placeholder)
    requires i < |drivers| && k < |drivers[i].samples|
    requires SampleHasHash(drivers[i].samples[k], placeholder)
    requires forall j :: 0 <= j < i ==> !DriverHasHash(drivers[j], placeholder)
    ensures MatchHash(placeholder, drivers) == Success(drivers[i])
  {
    assert DriverHasHash(drivers[i], placeholder);
    var r := MatchHash(placeholder, drivers);
    var m :| 0 <= m < |drivers| && drivers[m] == r.value && DriverHasHash(drivers[m], placeholder)
             && forall j :: 0 <= j < m ==> !DriverHasHash(drivers[j], placeholder);
    assert m == i;
  }

  // ---------------------------------------------------------------------------
  // LoadDrivers
  // ---------------------------------------------------------------------------

  /**
   * The outcome of `LoadDrivers`: the drivers with a nil error, the error
   * returned to the caller, or the critical log line after which the
   * process exits.
   */
  datatype LoadOutcome =
    | Loaded(drivers: seq<Driver>)
    | LoadFailed(err: string)
    | Fatal(message: string)

  /**
   * The mode decision of `LoadDrivers`. The outside world is passed in:
   * `download` is what `download()` returned (request, read and parse in
   * one), `fileRead` what `filesystem.FileRead(path)` returned, `parse` the
   * JSON parser and `internal` the embedded data set.
   */
  function LoadDrivers(mode: string, path: string,
                       download: Result<seq<Driver>, string>,
                       fileRead: Result<Bytes, string>,
                       parse: Bytes -> Result<seq<Driver>, string>,
                       internal: Bytes): (r: LoadOutcome)
    ensures r.Fatal? <==> mode !in {"online", "local", "internal"} || (mode == "local" && path == "")
    // a downloaded set, or a local file that reads and parses, is what is loaded
    ensures mode == "online" && download.Success? ==> r == Loaded(download.value)
    ensures mode == "local" && path != "" && fileRead.Success? && parse(fileRead.value).Success? ==>
              r == Loaded(parse(fileRead.value).value)
    // a local file that cannot be read is reported, with no fallback
    ensures mode == "local" && path != "" && fileRead.Failure? ==> r == LoadFailed(fileRead.error)
    // the internal mode, and a failed download or local parse, load the embedded set or return its parse error
    ensures (mode == "internal"
             || (mode == "online" && download.Failure?)
             || (mode == "local" && path != "" && fileRead.Success? && parse(fileRead.value).Failure?)) ==>
              (if parse(internal).Success? then r == Loaded(parse(internal).value)
               else r == LoadFailed(parse(internal).error))
    ensures r.Loaded? ==> (
              (mode == "online" && download == Success(r.drivers))
           || (mode == "local" && fileRead.Success? && parse(fileRead.value) == Success(r.drivers))
           || (parse(internal) == Success(r.drivers)
               && (mode == "internal"
                   || (mode == "online" && download.Failure?)
                   || (mode == "local" && fileRead.Success? && parse(fileRead.value).Failure?))))
    ensures r.LoadFailed? ==> (
              (mode == "local" && fileRead.Failure? && r.err == fileRead.error)
           || parse(internal) == Failure(r.err))
  {
    if mode == "online" then
      if download.Success? then Loaded(download.value) else FallBack(parse(internal))
    else if mode == "local" then
      if path == "" then Fatal("mode 'local' requires '-f'")
      else if fileRead.Failure? then LoadFailed(fileRead.error)
      else
        var parsed := parse(fileRead.value);
        if parsed.Success? then Loaded(parsed.value) else FallBack(parse(internal))
    else if mode == "internal" then
      FallBack(parse(internal))
    else
      Fatal("invalid mode '" + mode + "'")
  }

  /** The result of parsing the embedded data set, returned as it is. */
  function FallBack(parsed: Result<seq<Driver>, string>): (r: LoadOutcome)
    ensures parsed.Success? ==> r == Loaded(parsed.value)
    ensures parsed.Failure? ==> r == LoadFailed(parsed.error)
  {
    if parsed.Success? then Loaded(parsed.value) else LoadFailed(parsed.error)
  }
}
