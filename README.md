# loldrivers-client, modelled in Dafny

loldrivers-client scans a Windows machine for drivers listed in the
loldrivers.io data set of known vulnerable and malicious drivers. It does
four things:

- loads the data set: downloaded, read from a local `drivers.json`, or the
  copy embedded in the binary;
- gathers the MD5, SHA1 and SHA256 digests of the known samples;
- walks the driver directories, hashing every file that passes its filters;
- prints the files whose digest is in the data set.

This project models the logic around those steps. It does not model the
hashing, I/O or concurrency themselves. It covers:

- building the hash buckets;
- the linear `MatchHash` search;
- the choice of data set by mode;
- the JSON field normalisers;
- the per-file digest and match policies of the two scanner variants;
- the directory-walk filters;
- option validation;
- the three result printers.

The repository holds several iterations of the tool, and they are kept
apart here:

- `checksums.go` compares digests MD5 first. `runner.go` tries SHA256
  first, with a one-argument `MatchHash`.
- `logger.go`, `output.go` and `result.go` each print results in their own
  format.

The outside world comes in as parameters:

- what `os.Stat`, `os.Open`, `io.Copy` and `io.ReadAll` return;
- the entries a directory walk visits, in walk order;
- the digest functions and `json.Marshal`;
- the outcomes of the download and of JSON parsing.

Standard output is the list of lines written to it. The logger's switches
and output are fields of the `Logger.Logger` class. The channel loops of
the runners are run one job after another over a sequence of jobs. Each
loop is a method proved equal to a function over that sequence, and the
lemmas are stated about that function.

Modules:

- `LolDrivers`: `GetHashes`, `MatchHash` and `LoadDrivers`.
- `JsonFields`: the two `UnmarshalJSON` normalisers. Their copies in
  `pkg/loldrivers/parse.go` and `pkg/loldrivers/loldrivers.go` are
  identical, so they are modelled once, after `parse.go`.
- `Checksums`: `checksums.go`.
- `ChecksumRunner`: `runner.go`.
- `DirectoryWalk`: `filewalker.go`.
- `FileSystem`: `filesystem.go`.
- `Options`: `options.go`.
- `Logger`: `logger.go`.
- `Output`: `output.go`.
- `Results`: `result.go`.
- Helpers for the Go standard library pieces the core relies on:
  - `Strings`: `strings.ToLower`, `strings.Contains` and `filepath.Ext` on
    Windows paths, and the decimal formatting of counters;
  - `Os`: walk entries and error kinds;
  - `Wrappers`: `Option` and `Result`.

## Model

| member | source | states |
|---|---|---|
| LolDrivers.AppendSample | pkg/loldrivers/loldrivers.go:208-219 | one known sample adds each of its present hashes, and only those, to the bucket of its own algorithm (`AddSample`) |
| LolDrivers.AppendSamples | pkg/loldrivers/loldrivers.go:207-220 | the inner loop over one driver's samples gives the buckets of everything seen so far followed by that driver's samples |
| LolDrivers.GetHashes | pkg/loldrivers/loldrivers.go:204-224 | the nested loops build exactly the three buckets of `Hashes(drivers)`, one per algorithm, over all samples in driver then sample order |
| LolDrivers.BucketMembership | pkg/loldrivers/loldrivers.go:209-219 | a string is in an algorithm's bucket iff it is present (not `""` nor `"-"`) and some sample carries it in that algorithm's field, so placeholders never enter and nothing leaks between buckets |
| LolDrivers.BucketLength | pkg/loldrivers/loldrivers.go:206-220 | a bucket is never longer than the number of known samples |
| LolDrivers.BucketKeepsDuplicates | pkg/loldrivers/loldrivers.go:204-224 | duplicates are kept: each string occurs in a bucket as often as samples carry it in that field |
| LolDrivers.BucketAppend | pkg/loldrivers/loldrivers.go:206-221 | buckets respect order: the bucket of a concatenation is the concatenation of the buckets |
| LolDrivers.AllSamplesOwner | pkg/loldrivers/loldrivers.go:206-207 | every flattened sample is some driver's sample |
| LolDrivers.AllSamplesHas | pkg/loldrivers/loldrivers.go:206-207 | every driver's sample appears among the flattened samples |
| LolDrivers.MatchFrom | pkg/loldrivers/loldrivers.go:229-242 | the search from driver `i` fails iff no later driver has the hash; otherwise it returns the first such driver |
| LolDrivers.MatchHash | pkg/loldrivers/loldrivers.go:227-243 | "no match found" iff no driver has a sample whose MD5, SHA1 or SHA256 equals the hash; otherwise the first driver, in order, that has one |
| LolDrivers.BucketedHashMatches | pkg/loldrivers/loldrivers.go:204-243 | every bucketed hash is found by `MatchHash`, and the driver returned has a sample carrying it |
| LolDrivers.MatchedHashIsBucketed | pkg/loldrivers/loldrivers.go:204-243 | a present hash that `MatchHash` finds is in one of the three buckets |
| LolDrivers.PlaceholderQueryMatches | pkg/loldrivers/loldrivers.go:231-238 | `MatchHash` does not filter placeholders: a `""` or `"-"` query matches the first driver with a sample leaving any of its hash fields at that placeholder |
| LolDrivers.LoadDrivers | pkg/loldrivers/loldrivers.go:144-200 | fatal exit iff the mode is unknown or local without a path; a successful download, or a local file that reads and parses, is loaded as it is; an unreadable local file is returned with no fallback; the internal mode and a failed download or local parse give the embedded set, or its parse error |
| LolDrivers.FallBack | pkg/loldrivers/loldrivers.go:157-160 | the embedded set's parse result is returned as it is: its drivers with no error, or its error |
| JsonFields.DecodeString | pkg/loldrivers/parse.go:92 | decoding into a string succeeds iff the value is a JSON string, and gives its text |
| JsonFields.DecodeStringArray | pkg/loldrivers/parse.go:124 | decoding into `[]string` succeeds iff the value is an array of strings only, and gives them in order |
| JsonFields.DecodeStrings | pkg/loldrivers/parse.go:124 | the elements decode iff every one is a string, and give their texts in order |
| JsonFields.StringArrayRoundTrip | pkg/loldrivers/parse.go:124 | an encoded list of strings decodes back to the same list |
| JsonFields.FieldNamed | pkg/loldrivers/parse.go:57-63 | a key selects a `Command` field only when it equals that field's JSON name, ignoring case |
| JsonFields.DecodeMembers | pkg/loldrivers/parse.go:100 | decoding object members fails iff some member with a known key holds a non-string value |
| JsonFields.DecodeCommand | pkg/loldrivers/parse.go:100 | only a JSON object can decode into a `Command` |
| JsonFields.KeyNamesItsField | pkg/loldrivers/parse.go:100 | the JSON key of every `Command` field is matched back to that same field, so no two keys collide under case-insensitive matching |
| JsonFields.CommandRoundTrip | pkg/loldrivers/parse.go:100 | an encoded `Command` decodes back to the same command |
| JsonFields.UnmarshalCommands.constructor | pkg/loldrivers/parse.go:74-77 | the zero value: no commands, not set |
| JsonFields.UnmarshalCommands.UnmarshalJSON | pkg/loldrivers/parse.go:88-110 | a string appends a command holding only that text; otherwise a decoded `Command` object is appended; success appends exactly one and sets the flag; a failure returns the error and leaves the value and flag unchanged |
| JsonFields.UnmarshalStringOrStringArray.constructor | pkg/loldrivers/parse.go:81-84 | the zero value: empty list, not set |
| JsonFields.UnmarshalStringOrStringArray.UnmarshalJSON | pkg/loldrivers/parse.go:114-134 | a string `s` sets the value to `[s]`; an array of strings replaces the value; success sets the flag; a failure returns the error and leaves the value and flag unchanged |
| JsonFields.ScalarsAreRejected | pkg/loldrivers/parse.go:92-105 | a number or a boolean is rejected by both normalisers |
| Checksums.Digest | pkg/checksums/checksums.go:55-99 | the failure cases are exactly: a missing file ("does not exist"); an open error whose lower-cased text has neither "access" nor "does not exist"; a read error without "has locked". Other errors are propagated as they are, and an ignored error yields the empty digest with no error |
| Checksums.IgnoredWordsAnywhere | pkg/checksums/checksums.go:66-87 | "access" or "does not exist" anywhere in an open error, and "has locked" anywhere in a read error, in any letter case, make the error ignored |
| Checksums.IgnoredErrorsIgnoreCase | pkg/checksums/checksums.go:66-87 | the error classification does not depend on letter case |
| Checksums.Calc | pkg/checksums/checksums.go:29-52 | MD5, then SHA1, then SHA256; the first error is returned at once with later digests and the file name empty; on success the file name is the path and all three digests are set |
| Checksums.CalcStopsAtFirstError | pkg/checksums/checksums.go:31-34 | after a failed MD5 the other digests do not affect the result |
| Checksums.CalcRunner | pkg/checksums/checksums.go:196-211 | the forwarded sums and the logged `ERROR:` lines are those of `CalcAll` over the jobs |
| Checksums.CalcAllForwards | pkg/checksums/checksums.go:200-210 | every job is either forwarded or logged; what is forwarded is that job's successful `Calc` result, named after the job |
| Checksums.Contains | pkg/checksums/checksums.go:250-258 | true iff the value is an element of the slice |
| Checksums.CompareOne | pkg/checksums/checksums.go:218-246 | a job yields nothing iff none of its digests is in its bucket; otherwise a result with the job's file name and the first matching digest, in MD5, SHA1, SHA256 order |
| Checksums.CompareRunner | pkg/checksums/checksums.go:214-247 | the results sent are `CompareAll` over the jobs |
| Checksums.CompareAtMostOnePerJob | pkg/checksums/checksums.go:218-246 | at most one result per job, each being what its job yields |
| Checksums.EmptyDigestNeverMatches | pkg/checksums/checksums.go:220-238 | with buckets from `GetHashes`, a reported checksum is never `""` or `"-"`, so an ignored error's empty digest never matches |
| ChecksumRunner.TryFromFirstHit | pkg/checksums/runner.go:17-57 | trying algorithms in order yields nothing iff none hits; otherwise a result with the path, the first hitting digest and its driver; the errors logged are those of failed digests |
| ChecksumRunner.TryDigest | pkg/checksums/runner.go:18-28 | one digest: its error is logged; a result is sent exactly when the digest was computed and the data set knows it, carrying the path, that digest and its driver |
| ChecksumRunner.TryJob | pkg/checksums/runner.go:17-57 | the loop body for one file yields exactly `TryFrom(job, [SHA256, SHA1, MD5])` |
| ChecksumRunner.CalcRunner | pkg/checksums/runner.go:13-59 | the results sent and errors logged are those of `RunAll` over the jobs |
| ChecksumRunner.RunAllResults | pkg/checksums/runner.go:16-58 | at most one result per job and three errors per job; each result names a job, carries a digest of it, and the driver the lookup gives for that digest |
| ChecksumRunner.RunAllLast | pkg/checksums/runner.go:16 | the run over the jobs is the in-order concatenation of the per-file runs: one more file adds its own results and errors after the others |
| ChecksumRunner.Sha256First | pkg/checksums/runner.go:18-29 | when the SHA256 digest is known, the result carries it, nothing is logged, and the other digests are irrelevant |
| ChecksumRunner.ErrorFallsThrough | pkg/checksums/runner.go:19-20 | a failed SHA256 is logged and SHA1 and MD5 are still tried |
| ChecksumRunner.RunnerMatchesAreGenuine | pkg/checksums/runner.go:21-26 | with `MatchHash` as lookup, every result's driver has a sample carrying the reported checksum, which is a digest of the reported file |
| DirectoryWalk.WrapInt64 | pkg/checksums/filewalker.go:40 | in-range values are unchanged by the int64 wrap-around |
| DirectoryWalk.DirectoryWalker | pkg/checksums/filewalker.go:11-53 | the paths sent and the error returned are those of `Walk` over the visited entries |
| DirectoryWalk.WalkStops | pkg/checksums/filewalker.go:26 | once an error aborts the walk, later entries change nothing |
| DirectoryWalk.SentPassedFilters | pkg/checksums/filewalker.go:29-44 | every path sent was visited as a regular, non-directory, owner-readable file within the size limit |
| DirectoryWalk.ToleratedWalkSendsPassing | pkg/checksums/filewalker.go:14-44 | with only permission or not-exist errors, the walk succeeds and sends exactly the passing paths in walk order |
| DirectoryWalk.AbortingError | pkg/checksums/filewalker.go:26-49 | a returned error comes from a visited error that is neither permission nor not-exist |
| DirectoryWalk.NoAbortSoFar | pkg/checksums/filewalker.go:16-24 | a walk that returns no error met only tolerated errors |
| DirectoryWalk.SizeLimitBoundary | pkg/checksums/filewalker.go:40-42 | a file of exactly the limit in MiB is sent and one byte more is skipped |
| DirectoryWalk.OverflowingLimitSkipsAll | pkg/checksums/filewalker.go:40 | a limit of 2^43 MiB overflows int64 and skips every file |
| FileSystem.FileRead | pkg/filesystem/filesystem.go:20-48 | a not-exist stat error gives "does not exist", other stat errors do not stop it; then an open failure gives "could not open", a read failure "could not read"; success returns the bytes read |
| FileSystem.OnlyNotExistIsAbsent | pkg/filesystem/filesystem.go:20-26 | `FileExists` is false exactly for a stat error that `os.IsNotExist` recognises; no error, or any other error, means the file exists |
| FileSystem.FilesInFolder | pkg/filesystem/filesystem.go:52-76 | the files and error returned are those of `Collect` with no extension filter: every non-directory path visited before the first error, in walk order and once per visit (`CollectInWalkOrder`), then that error |
| FileSystem.FilesInFolderExt | pkg/filesystem/filesystem.go:82-121 | the files and error returned are those of `Collect` with the lower-cased extension filter, or none when `ext` is empty: the kept paths visited before the first error, in walk order and once per visit (`CollectInWalkOrder`), then that error |
| FileSystem.CollectStops | pkg/filesystem/filesystem.go:57-59 | once an error aborts the walk, later entries change nothing |
| FileSystem.CollectSound | pkg/filesystem/filesystem.go:62-65 | every collected path was visited, is not a directory and passed the filter |
| FileSystem.CollectComplete | pkg/filesystem/filesystem.go:62-65 | every kept path visited before the first error is collected |
| FileSystem.NoErrorBefore | pkg/filesystem/filesystem.go:56-59 | a walk without error entries returns no error |
| FileSystem.KeptStays | pkg/filesystem/filesystem.go:64 | a collected path is never removed later |
| FileSystem.CollectError | pkg/filesystem/filesystem.go:57-71 | an error is returned iff the walk visited one, and it is the first one |
| FileSystem.CollectAllKept | pkg/filesystem/filesystem.go:57-71 | a walk with no error entry returns exactly the kept paths, in walk order, and no error |
| FileSystem.CollectInWalkOrder | pkg/filesystem/filesystem.go:57-71 | the files returned are the kept paths visited before the first error entry, in walk order and once per visit, and the error returned is that entry's |
| FileSystem.EmptyExtIsNoFilter | pkg/filesystem/filesystem.go:85-110 | an empty extension gives the same result as `FilesInFolder` |
| FileSystem.ExtCaseInsensitive | pkg/filesystem/filesystem.go:86-100 | the extension filter ignores the letter case of `ext` |
| Logger.Logger.constructor | pkg/logger/logger.go:12-17 | all three switches start off and nothing has been printed |
| Logger.Logger.Log | pkg/logger/logger.go:30-35 | the message is printed only when neither parsable nor JSON output is selected |
| Logger.Logger.Verbose | pkg/logger/logger.go:37-42 | the message is printed only in verbose mode |
| Logger.Logger.Catch | pkg/logger/logger.go:44-47 | prints the error as an `ERROR:` line |
| Logger.Logger.CatchCrit | pkg/logger/logger.go:50-54 | prints the error as a `CRITICAL:` line |
| Logger.Logger.PrintJob | pkg/logger/logger.go:79-91 | one result prints the line `PrintOne` gives for the output switches; an unencodable JSON result prints its error and is not counted |
| Logger.Logger.OutputRunner | pkg/logger/logger.go:70-101 | prints `PrintAll` of the results, then the summary through the gated `Log`; the counter is `PrintAll`'s |
| Logger.CounterCountsPrinted | pkg/logger/logger.go:78-94 | the counter is the number of results minus the JSON marshal failures, which are skipped |
| Logger.ParsableLines | pkg/logger/logger.go:80-81 | in parsable mode the lines are exactly `filename;checksum` per result |
| Logger.SummaryNoneIffZero | pkg/logger/logger.go:96-100 | the "No vulnerable/malicious driver(s) found!" line is printed iff the counter is 0 |
| Output.PrintOne | pkg/output/output.go:33-47 | one result prints the lines of `Lines` for the mode; one that cannot be encoded prints only the `CRITICAL:` line |
| Output.PrintAll | pkg/output/output.go:27-50 | the loop prints `Render` of the results, stopping after the `CRITICAL:` line of the first that cannot be encoded; without it the counter is `Render`'s |
| Output.Runner | pkg/output/output.go:24-57 | prints `Render` of the results, then a `CRITICAL:` line if one could not be encoded (and exits), else the summary through the gated `Log` |
| Output.RenderCounter | pkg/output/output.go:31-49 | without a critical error the counter equals the number of results; a critical error happens only in JSON mode, at the first result that cannot be encoded |
| Output.DefaultModeLines | pkg/output/output.go:42-46 | the default display prints four lines per result: MATCH path, category, checksum, and a link built from the driver ID |
| Output.SilentModeLines | pkg/output/output.go:34-35 | silent mode prints exactly the paths |
| Output.DefaultModeIsFourLines | pkg/output/output.go:13 | the initial `Mode` is the four-line default display |
| Output.SummaryNoneIffZero | pkg/output/output.go:52-56 | the "No vulnerable or malicious driver(s) found!" line iff the counter is 0 |
| Results.Format | pkg/result/result.go:28-41 | the switch on the mode yields `Lines`: the path, the JSON text or the three-line display, or the encoding error |
| Results.OutputRunner | pkg/result/result.go:21-52 | the lines written and the counter are those of `Render`; it ends by exiting with the first encoding error, or by logging the summary |
| Results.RenderCounter | pkg/result/result.go:27-44 | without a fatal error the counter equals the number of results; a fatal error happens only in JSON mode, at the first result that cannot be encoded |
| Results.DefaultModeLines | pkg/result/result.go:37-41 | the default display prints category, path and link per result, and never the checksum |
| Results.SilentModeLines | pkg/result/result.go:29-30 | silent mode prints exactly the paths |
| Results.SummaryNoneIffZero | pkg/result/result.go:47-51 | the "No vulnerable or malicious driver(s) found!" line iff the counter is 0 |
| Options.Check | pkg/options/options.go:61-74 | an unknown mode gives "invalid mode", local without a file gives the `-f` error, and only then are both output styles rejected |
| Options.Configure | pkg/options/options.go:61-93 | accepted iff `Check` finds nothing; an accepted mode is known and local has a file; `OutputMode` is "grep", "json" or "" after the flags; no scan dir gives the three Windows driver directories, otherwise exactly `[dir]`; the other values are copied |
| Options.Parse | pkg/options/options.go:28-94 | a flag-parser error is returned as it is; otherwise the result is `Configure`'s, and verbose logging ends up on unless grepable or JSON output was accepted |
| Options.DefaultsAccepted | pkg/options/options.go:36-52 | the default flags give online mode, the Windows driver directories, 10 MB, 20 workers and plain output |
| Options.ModeCheckedFirst | pkg/options/options.go:61-74 | an unknown mode is reported even when both output styles are requested |
| Options.ScanDirectoriesNonEmpty | pkg/options/options.go:83-89 | an accepted configuration scans at least one directory and no empty path |

## Left out

- Computing MD5, SHA1 and SHA256, `io.Copy` and hex encoding. The digest of a file is an input (`FileIo.digest` in `Checksums`, the `Digest` function in `ChecksumRunner`).
- The HTTP download and `json.Unmarshal` of the whole data set. `LoadDrivers` receives their outcomes, and `parse` is an abstract function.
- `os.Stat`, `os.Open`, `io.ReadAll` and the `filepath.Walk` traversal. Their outcomes, and the entries visited in walk order, are inputs.
- `IsAdmin` (pkg/filesystem/filesystem.go:124-127): a single `os.Open` probe of the physical drive.
- Goroutines, channels and wait groups. Each runner processes its jobs one after another, in channel order, so interleavings of several workers are not modelled.
- Flag parsing, usage text and banners. `Options.Parse` starts from the parsed flag values or the parser's error.
- Timestamps on log lines, the start time in `Options`, and colour output.
- The log lines of `LoadDrivers` ("Loading drivers", fallback notices and the `Catch` of the parse error) and the `Verbose` lines of `FilesInFolder`/`FilesInFolderExt`. Only the returned values are modelled.
- ChecksumRunner.CalcRunner: the errors are returned as a list instead of printed. The logger package that `runner.go`, `result.go`, `filewalker.go` and `options.go` import, with `logger.Error`, `Logf`, `Fatal` and `Info`, is not part of this model; its `Verbose` variable is modelled only as `Options.LoggerSwitch`.
- Results.OutputRunner: the summary line is returned rather than printed, for the same reason. The JSON fatal exit is its `Exited` ending.
- ChecksumRunner: the calcSHA256/calcSHA1/calcMD5 helpers and the one-argument `MatchHash` are not part of this model. They are the abstract `Digest` and `Lookup` parameters. `RunnerMatchesAreGenuine` instantiates the lookup with the list search of `loldrivers.go`.
- JSON `null` and `json.Unmarshal`'s full rules. The `Json` datatype has strings, numbers, booleans, arrays and objects. Object keys are matched to `Command` fields ignoring ASCII case only; unknown keys are skipped and a later duplicate key wins.
- `strings.ToLower` is modelled for ASCII letters only.
- The data set is not indexed by digest length. The three bucket slices and the linear `MatchHash` search are modelled as the code has them, with no length check. There is no SHA1-first priority in any of the modelled files: `checksums.go` compares MD5 first and `runner.go` tries SHA256 first.
- The `-s` flag ("do not show file read errors") is stored in `ScanShowErrors` as given. Its consumer is outside the modelled files.
