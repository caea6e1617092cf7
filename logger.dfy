/**
 * The logger package: three global output switches, the gated `Log` and
 * `Verbose` printers, error reporting, and `OutputRunner`, the single
 * consumer that prints every match and a closing summary. Standard output
 * is modelled as the list of lines written to it; the timestamp that
 * prefixes `Log`, `Verbose`, `Catch` and `CatchCrit` lines is left out.
 */
module Logger {
  import Wrappers
  import opened Strings

  /** `logger.Result`: a file and the checksum of it that matched. */
  datatype Result = Result(filename: string, checksum: string)

  /** `json.Marshal` of a result: its JSON text, or the error text. */
  type Marshal = Result -> Wrappers.Result<string, string>

  /** What `Log` prints of `lines`: everything, unless parsable or JSON output is selected. */
  function Gated(parsable: bool, json: bool, lines: seq<string>): seq<string>
  {
    if !parsable && !json then lines else []
  }

  /** The lines printed for one result, and whether it is counted. */
  datatype Printed = Printed(lines: seq<string>, counted: bool)

  function PrintOne(parsable: bool, json: bool, marshal: Marshal, job: Result): Printed
  {
    if parsable then Printed([job.filename + ";" + job.checksum], true)
    else if json then
      match marshal(job)
      case Success(text) => Printed([text], true)
      case Failure(e) => Printed(["ERROR: " + e], false)
    else Printed(["[+] " + job.filename + ":" + job.checksum], true)
  }

  /** What the loop of `OutputRunner` prints for `jobs`, and the final value of its counter. */
  datatype Output = Output(lines: seq<string>, counter: nat)

  function PrintAll(parsable: bool, json: bool, marshal: Marshal, jobs: seq<Result>): Output
  {
    if jobs == [] then Output([], 0)
    else
      var prev := PrintAll(parsable, json, marshal, jobs[..|jobs| - 1]);
      var p := PrintOne(parsable, json, marshal, jobs[|jobs| - 1]);
      Output(prev.lines + p.lines, prev.counter + (if p.counted then 1 else 0))
  }

  /** The closing line of `OutputRunner`. */
  function Summary(counter: nat): string
  {
    if counter == 0 then "[-] No vulnerable/malicious driver(s) found!"
    else "[*] Found " + NatToString(counter) + " vulnerable/malicious driver(s)!"
  }

  /** The package state: the output switches and standard output. */
  class Logger {
    var beVerbose: bool
    var outputJSON: bool
    var outputParsable: bool
    var stdout: seq<string>

    /** The package's initial state: every switch off, nothing printed. */
    constructor ()
      ensures !beVerbose && !outputJSON && !outputParsable && stdout == []
    {
      beVerbose, outputJSON, outputParsable := false, false, false;
      stdout := [];
    }

    /** `Log` prints only when neither parsable nor JSON output is selected. */
    method Log(message: string)
      modifies this`stdout
      ensures stdout == old(stdout) + Gated(outputParsable, outputJSON, [message])
    {
      if !outputParsable && !outputJSON {
        stdout := stdout + [message];
      }
    }

    /** `Verbose` prints only in verbose mode. */
    method Verbose(message: string)
      modifies this`stdout
      ensures stdout == old(stdout) + (if beVerbose then [message] else [])
    {
      if beVerbose {
        stdout := stdout + [message];
      }
    }

    /** `Catch` always prints the error. */
    method Catch(err: string)
      modifies this`stdout
      ensures stdout == old(stdout) + ["ERROR: " + err]
    {
      stdout := stdout + ["ERROR: " + err];
    }

    /** `CatchCrit` prints the error; the process then exits, so callers stop. */
    method CatchCrit(err: string)
      modifies this`stdout
      ensures stdout == old(stdout) + ["CRITICAL: " + err]
    {
      stdout := stdout + ["CRITICAL: " + err];
    }

    /** The body of `OutputRunner`'s loop: one result printed, and whether it is counted. */
    method PrintJob(job: Result, marshal: Marshal) returns (counted: bool)
      modifies this`stdout
      ensures counted == PrintOne(outputParsable, outputJSON, marshal, job).counted
      ensures stdout == old(stdout) + PrintOne(outputParsable, outputJSON, marshal, job).lines
    {
      if outputParsable {
        stdout := stdout + [job.filename + ";" + job.checksum];
      } else if outputJSON {
        var jsonOutput := marshal(job);
        if jsonOutput.Failure? {
          Catch(jsonOutput.error);
          return false;
        }
        stdout := stdout + [jsonOutput.value];
      } else {
        Log("[+] " + job.filename + ":" + job.checksum);
      }
      counted := true;
    }

    /**
     * `OutputRunner`: prints every result in the selected style, counting
     * each one that was printed, then the summary through `Log`.
     */
    method OutputRunner(jobs: seq<Result>, marshal: Marshal) returns (counter: nat)
      modifies this`stdout
      ensures counter == PrintAll(outputParsable, outputJSON, marshal, jobs).counter
      ensures stdout == old(stdout) + PrintAll(outputParsable, outputJSON, marshal, jobs).lines
                        + Gated(outputParsable, outputJSON, [Summary(counter)])
    {
      counter := 0;
      var i := 0;
      while i < |jobs|
        invariant 0 <= i <= |jobs|
        invariant counter == PrintAll(outputParsable, outputJSON, marshal, jobs[..i]).counter
        invariant stdout == old(stdout) + PrintAll(outputParsable, outputJSON, marshal, jobs[..i]).lines
      {
        assert jobs[..i + 1][..i] == jobs[..i];
        var counted := PrintJob(jobs[i], marshal);
        if counted {
          counter := counter + 1;
        }
        i := i + 1;
      }
      assert jobs[..i] == jobs;
      if counter == 0 {
        Log("[-] No vulnerable/malicious driver(s) found!");
      } else {
        Log("[*] Found " + NatToString(counter) + " vulnerable/malicious driver(s)!");
      }
    }
  }

  /** The number of results whose marshalling fails. */
  function MarshalFailures(marshal: Marshal, jobs: seq<Result>): nat
  {
    if jobs == [] then 0
    else MarshalFailures(marshal, jobs[..|jobs| - 1]) + (if marshal(jobs[|jobs| - 1]).Failure? then 1 else 0)
  }

  /**
   * The counter counts every result except, in JSON output (and only when
   * parsable output is not also selected), those whose marshalling failed.
   */
  lemma {:induction false} CounterCountsPrinted(parsable: bool, json: bool, marshal: Marshal, jobs: seq<Result>)
    ensures MarshalFailures(marshal, jobs) <= |jobs|
    ensures PrintAll(parsable, json, marshal, jobs).counter
         == if json && !parsable then |jobs| - MarshalFailures(marshal, jobs) else |jobs|
  {
    if jobs != [] {
      CounterCountsPrinted(parsable, json, marshal, jobs[..|jobs| - 1]);
    }
  }

  /** In parsable output each result is exactly one `filename;checksum` line, in order. */
  lemma {:induction false} ParsableLines(json: bool, marshal: Marshal, jobs: seq<Result>)
    ensures PrintAll(true, json, marshal, jobs).lines
         == seq(|jobs|, k requires 0 <= k < |jobs| => jobs[k].filename + ";" + jobs[k].checksum)
  {
    if jobs != [] {
      ParsableLines(json, marshal, jobs[..|jobs| - 1]);
    }
  }

  /** The "none found" line is printed exactly when nothing was counted. */
  lemma SummaryNoneIffZero(counter: nat)
    ensures Summary(counter) == "[-] No vulnerable/malicious driver(s) found!" <==> counter == 0
  {
    if counter != 0 {
      assert Summary(counter)[1] == '*';
    }
  }
}
