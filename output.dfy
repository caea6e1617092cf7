/**
 * The output package: the global display mode and `Runner`, the single
 * consumer that prints every match through the logger's standard output
 * and then the closing summary through the gated `Log`. A JSON encoding
 * failure is critical: `CatchCrit` prints it and the process exits.
 */
module Output {
  import Wrappers
  import opened Strings
  import opened LolDrivers
  import Logger

  /** The initial value of the package variable `Mode`. */
  const DefaultMode := "default"

  /** `output.Result`: the file, the checksum that matched and the matched driver. */
  datatype Result = Result(filepath: string, checksum: string, driver: Driver)

  /** `json.Marshal` of a result: its JSON text, or the error text. */
  type Marshal = Result -> Wrappers.Result<string, string>

  const LinkPrefix := "https://loldrivers.io/drivers/"

  /** The four lines of the default display. */
  function MatchLines(r: Result): seq<string>
  {
    ["[!] MATCH: " + r.filepath,
     "    |-- Category: " + r.driver.category,
     "    |-- Checksum: " + r.checksum,
     "    |-- Link: " + LinkPrefix + r.driver.id]
  }

  /** What one result prints in `mode`, or the error that ends the process. */
  function Lines(mode: string, marshal: Marshal, r: Result): Wrappers.Result<seq<string>, string>
  {
    if mode == "silent" then Wrappers.Success([r.filepath])
    else if mode == "json" then
      match marshal(r)
      case Success(text) => Wrappers.Success([text])
      case Failure(e) => Wrappers.Failure(e)
    else Wrappers.Success(MatchLines(r))
  }

  /** What the loop of `Runner` prints, its counter, and the critical error that stopped it, if any. */
  datatype Rendered = Rendered(lines: seq<string>, counter: nat, fatal: Wrappers.Option<string>)

  function Render(mode: string, marshal: Marshal, rs: seq<Result>): Rendered
  {
    if rs == [] then Rendered([], 0, Wrappers.None)
    else
      match Lines(mode, marshal, rs[0])
      case Failure(e) => Rendered([], 0, Wrappers.Some(e))
      case Success(ls) =>
        var rest := Render(mode, marshal, rs[1..]);
        Rendered(ls + rest.lines, rest.counter + 1, rest.fatal)
  }

  /** The closing line handed to `Log`. */
  function Summary(counter: nat): string
  {
    if counter == 0 then "[-] No vulnerable or malicious driver(s) found!"
    else "[+] Found a total of " + NatToString(counter) + " vulnerable or malicious driver(s)!"
  }

  /** One step of `Render` from position `i`. */
  lemma RenderUnfold(mode: string, marshal: Marshal, rs: seq<Result>, i: nat)
    requires i < |rs|
    ensures Lines(mode, marshal, rs[i]).Failure? ==>
              Render(mode, marshal, rs[i..]) == Rendered([], 0, Wrappers.Some(Lines(mode, marshal, rs[i]).error))
    ensures Lines(mode, marshal, rs[i]).Success? ==>
              Render(mode, marshal, rs[i..])
              == Rendered(Lines(mode, marshal, rs[i]).value + Render(mode, marshal, rs[i + 1..]).lines,
                          Render(mode, marshal, rs[i + 1..]).counter + 1,
                          Render(mode, marshal, rs[i + 1..]).fatal)
  {
    assert rs[i..][1..] == rs[i + 1..];
  }

  /**
   * One iteration of `Runner`'s loop: the result is printed in the style
   * of `mode`, or, when it cannot be encoded, `CatchCrit` prints the
   * critical error.
   */
  method PrintOne(log: Logger.Logger, mode: string, marshal: Marshal, result: Result)
    returns (printed: Wrappers.Result<seq<string>, string>)
    modifies log`stdout
    ensures printed == Lines(mode, marshal, result)
    ensures printed.Success? ==> log.stdout == old(log.stdout) + printed.value
    ensures printed.Failure? ==> log.stdout == old(log.stdout) + ["CRITICAL: " + printed.error]
  {
    if mode == "silent" {
      printed := Wrappers.Success([result.filepath]);
    } else if mode == "json" {
      var encoded := marshal(result);
      if encoded.Failure? {
        log.CatchCrit(encoded.error);
        return Wrappers.Failure(encoded.error);
      }
      printed := Wrappers.Success([encoded.value]);
    } else {
      printed := Wrappers.Success(MatchLines(result));
    }
    log.stdout := log.stdout + printed.value;
  }

  /**
   * The loop of `Runner`: every result is printed until one cannot be
   * encoded, which ends the process after `CatchCrit`.
   */
  method PrintAll(log: Logger.Logger, mode: string, results: seq<Result>, marshal: Marshal)
    returns (counter: nat, exited: bool)
    modifies log`stdout
    ensures exited <==> Render(mode, marshal, results).fatal.Some?
    ensures !exited ==> counter == Render(mode, marshal, results).counter
    ensures log.stdout == old(log.stdout) + Render(mode, marshal, results).lines
                          + (if exited then ["CRITICAL: " + Render(mode, marshal, results).fatal.value] else [])
  {
    ghost var all := Render(mode, marshal, results);
    counter := 0;
    ghost var out := [];
    var i := 0;
    while i < |results|
      invariant 0 <= i <= |results|
      invariant log.stdout == old(log.stdout) + out
      invariant all.lines == out + Render(mode, marshal, results[i..]).lines
      invariant all.counter == counter + Render(mode, marshal, results[i..]).counter
      invariant all.fatal == Render(mode, marshal, results[i..]).fatal
    {
      RenderUnfold(mode, marshal, results, i);
      var printed := PrintOne(log, mode, marshal, results[i]);
      if printed.Failure? {
        assert all.lines == out && all.fatal == Wrappers.Some(printed.error);
        return counter, true;
      }
      out := out + printed.value;
      counter := counter + 1;
      i := i + 1;
    }
    assert results[i..] == [];
    assert all == Rendered(out, counter, Wrappers.None);
    return counter, false;
  }

  /**
   * `Runner`, consuming `results` in channel order with the package
   * variable `Mode` set to `mode`: the loop, then the summary through the
   * gated `Log`. It reports whether the process exited on a critical
   * error. The output switches of the logger are untouched.
   */
  method Runner(log: Logger.Logger, mode: string, results: seq<Result>, marshal: Marshal) returns (exited: bool)
    modifies log`stdout
    ensures exited <==> Render(mode, marshal, results).fatal.Some?
    ensures log.stdout == old(log.stdout) + Render(mode, marshal, results).lines
                          + (if exited then ["CRITICAL: " + Render(mode, marshal, results).fatal.value]
                             else Logger.Gated(log.outputParsable, log.outputJSON,
                                               [Summary(Render(mode, marshal, results).counter)]))
  {
    var counter;
    counter, exited := PrintAll(log, mode, results, marshal);
    if !exited {
      log.Log(Summary(counter));
    }
  }

  /**
   * Only the JSON mode can stop early, and it stops at the first result
   * that cannot be encoded: the counter is that result's position.
   * Without a critical error every result is counted.
   */
  lemma {:induction false} RenderCounter(mode: string, marshal: Marshal, rs: seq<Result>)
    ensures Render(mode, marshal, rs).fatal.None? ==> Render(mode, marshal, rs).counter == |rs|
    ensures Render(mode, marshal, rs).fatal.Some? ==>
              mode == "json"
              && Render(mode, marshal, rs).counter < |rs|
              && marshal(rs[Render(mode, marshal, rs).counter]) == Wrappers.Failure(Render(mode, marshal, rs).fatal.value)
              && forall k :: 0 <= k < Render(mode, marshal, rs).counter ==> marshal(rs[k]).Success?
  {
    if rs != [] {
      RenderCounter(mode, marshal, rs[1..]);
      var n := Render(mode, marshal, rs[1..]).counter;
      if Render(mode, marshal, rs).fatal.Some? && Lines(mode, marshal, rs[0]).Success? {
        forall k | 0 <= k < n + 1 ensures marshal(rs[k]).Success? {
          if k > 0 {
            assert rs[k] == rs[1..][k - 1];
          }
        }
      }
    }
  }

  /** The default mode prints four lines per result: path, category, checksum and link. */
  lemma {:induction false} DefaultModeLines(mode: string, marshal: Marshal, rs: seq<Result>)
    requires mode != "silent" && mode != "json"
    ensures Render(mode, marshal, rs).fatal.None?
    ensures |Render(mode, marshal, rs).lines| == 4 * |rs|
    ensures forall k :: 0 <= k < |rs| ==>
              Render(mode, marshal, rs).lines[4 * k] == "[!] MATCH: " + rs[k].filepath
              && Render(mode, marshal, rs).lines[4 * k + 1] == "    |-- Category: " + rs[k].driver.category
              && Render(mode, marshal, rs).lines[4 * k + 2] == "    |-- Checksum: " + rs[k].checksum
              && Render(mode, marshal, rs).lines[4 * k + 3] == "    |-- Link: " + LinkPrefix + rs[k].driver.id
  {
    if rs != [] {
      DefaultModeLines(mode, marshal, rs[1..]);
      var rest := Render(mode, marshal, rs[1..]).lines;
      assert Render(mode, marshal, rs).lines == MatchLines(rs[0]) + rest;
      forall k | 1 <= k < |rs|
        ensures Render(mode, marshal, rs).lines[4 * k] == "[!] MATCH: " + rs[k].filepath
        ensures Render(mode, marshal, rs).lines[4 * k + 1] == "    |-- Category: " + rs[k].driver.category
        ensures Render(mode, marshal, rs).lines[4 * k + 2] == "    |-- Checksum: " + rs[k].checksum
        ensures Render(mode, marshal, rs).lines[4 * k + 3] == "    |-- Link: " + LinkPrefix + rs[k].driver.id
      {
        assert rs[k] == rs[1..][k - 1];
        assert 4 * k == 4 + 4 * (k - 1);
        assert Render(mode, marshal, rs).lines[4 * k] == rest[4 * (k - 1)];
      }
    }
  }

  /** The silent mode prints exactly the paths, one per result. */
  lemma {:induction false} SilentModeLines(marshal: Marshal, rs: seq<Result>)
    ensures Render("silent", marshal, rs).fatal.None?
    ensures Render("silent", marshal, rs).lines == seq(|rs|, k requires 0 <= k < |rs| => rs[k].filepath)
  {
    if rs != [] {
      SilentModeLines(marshal, rs[1..]);
    }
  }

  /** The package's initial mode is the four-line default display. */
  lemma DefaultModeIsFourLines(marshal: Marshal, rs: seq<Result>)
    ensures |Render(DefaultMode, marshal, rs).lines| == 4 * |rs|
  {
    DefaultModeLines(DefaultMode, marshal, rs);
  }

  lemma SummaryNoneIffZero(counter: nat)
    ensures Summary(counter) == "[-] No vulnerable or malicious driver(s) found!" <==> counter == 0
  {
    if counter != 0 {
      var s := Summary(counter);
      assert s[1] == '+';
    }
  }
}
