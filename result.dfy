/**
 * The result package: a match found by the checksum runners and
 * `OutputRunner`, the single consumer that prints every match in the
 * selected mode and then a closing summary. A JSON encoding failure is
 * fatal: the process exits and nothing after it is printed.
 */
module Results {
  import Wrappers
  import opened Strings
  import opened LolDrivers

  /** `result.Result`: the file, the checksum that matched and the matched driver. */
  datatype Result = Result(filepath: string, checksum: string, driver: Driver)

  /** `json.Marshal` of a result: its JSON text, or the error text. */
  type Marshal = Result -> Wrappers.Result<string, string>

  const LinkPrefix := "https://loldrivers.io/drivers/"

  /** The three lines of the default display; the checksum line is commented out in the source. */
  function FoundLines(r: Result): seq<string>
  {
    ["[!] Found " + r.driver.category,
     "    |--> Path: " + r.filepath,
     "    |--> Link: " + LinkPrefix + r.driver.id]
  }

  /** What one result prints in `mode`, or the error that ends the process. */
  function Lines(mode: string, marshal: Marshal, r: Result): Wrappers.Result<seq<string>, string>
  {
    if mode == "silent" then Wrappers.Success([r.filepath])
    else if mode == "json" then
      match marshal(r)
      case Success(text) => Wrappers.Success([text])
      case Failure(e) => Wrappers.Failure(e)
    else Wrappers.Success(FoundLines(r))
  }

  /** What the loop of `OutputRunner` prints, its counter, and the fatal error that stopped it, if any. */
  datatype Rendered = Rendered(lines: seq<string>, counter: nat, fatal: Wrappers.Option<string>)

  function Render(mode: string, marshal: Marshal, rs: seq<Result>): Rendered
  {
    if rs == [] then Rendered([], 0, Wrappers.None)
    else
      match Lines(mode, marshal, rs[0])
      case Failure(e) => Rendered([], 0, Wrappers.Some(e))
      case Success(ls) =>
        var rest := Render(mode, marshal, rs[1..]);
        Rendered(ls + rest.lines, rest.counter + 1, rest.fatal)
  }

  /** The closing line handed to the logger. */
  function Summary(counter: nat): string
  {
    if counter == 0 then "[-] No vulnerable or malicious driver(s) found!"
    else "[+] Found a total of " + NatToString(counter) + " vulnerable or malicious driver(s)!"
  }

  /** How `OutputRunner` ends: by exiting on a fatal error, or by logging the summary. */
  datatype Ending = Exited(err: string) | Summarised(line: string)

  /** The switch on the output mode in the body of `OutputRunner`'s loop. */
  method Format(mode: string, marshal: Marshal, result: Result) returns (printed: Wrappers.Result<seq<string>, string>)
    ensures printed == Lines(mode, marshal, result)
  {
    if mode == "silent" {
      printed := Wrappers.Success([result.filepath]);
    } else if mode == "json" {
      var jsonOutput := marshal(result);
      if jsonOutput.Failure? {
        return Wrappers.Failure(jsonOutput.error);
      }
      printed := Wrappers.Success([jsonOutput.value]);
    } else {
      printed := Wrappers.Success(FoundLines(result));
    }
  }

  /**
   * `OutputRunner`, consuming `results` in channel order: the lines written
   * to standard output, the number of results printed, and how it ended.
   */
  method OutputRunner(results: seq<Result>, mode: string, marshal: Marshal)
    returns (out: seq<string>, counter: nat, ending: Ending)
    ensures out == Render(mode, marshal, results).lines
    ensures counter == Render(mode, marshal, results).counter
    ensures ending == (if Render(mode, marshal, results).fatal.Some?
                       then Exited(Render(mode, marshal, results).fatal.value)
                       else Summarised(Summary(counter)))
  {
    ghost var all := Render(mode, marshal, results);
    out, counter := [], 0;
    var i := 0;
    while i < |results|
      invariant 0 <= i <= |results|
      invariant all.lines == out + Render(mode, marshal, results[i..]).lines
      invariant all.counter == counter + Render(mode, marshal, results[i..]).counter
      invariant all.fatal == Render(mode, marshal, results[i..]).fatal
    {
      RenderUnfold(mode, marshal, results, i);
      var printed := Format(mode, marshal, results[i]);
      if printed.Failure? {
        assert all.lines == out && all.counter == counter && all.fatal == Wrappers.Some(printed.error);
        ending := Exited(printed.error);
        return;
      }
      out := out + printed.value;
      counter := counter + 1;
      i := i + 1;
    }
    assert results[i..] == [];
    assert all == Rendered(out, counter, Wrappers.None);
    ending := Summarised(Summary(counter));
  }

  /** One step of `Render` from position `i`. */
  lemma RenderUnfold(mode: string, marshal: Marshal, rs: seq<Result>, i: nat)
    requires i < |rs|
    ensures Lines(mode, marshal, rs[i]).Failure? ==>
              Render(mode, marshal, rs[i..]) == Rendered([], 0, Wrappers.Some(Lines(mode, marshal, rs[i]).error))
    ensures Lines(mode, marshal, rs[i]).Success? ==>
              Render(mode, marshal, rs[i..])
              == Rendered(Lines(mode, marshal, rs[i]).value + Render(mode, marshal, rs[i + 1..]).lines,
                          Render(mode, marshal, rs[i + 1..]).counter + 1,
                          Render(mode, marshal, rs[i + 1..]).fatal)
  {
    assert rs[i..][1..] == rs[i + 1..];
  }

  /**
   * Only the JSON mode can stop early, and it stops at the first result
   * that cannot be encoded: the counter is that result's position.
   * Without a fatal error every result is counted.
   */
  lemma {:induction false} RenderCounter(mode: string, marshal: Marshal, rs: seq<Result>)
    ensures Render(mode, marshal, rs).fatal.None? ==> Render(mode, marshal, rs).counter == |rs|
    ensures Render(mode, marshal, rs).fatal.Some? ==>
              mode == "json"
              && Render(mode, marshal, rs).counter < |rs|
              && marshal(rs[Render(mode, marshal, rs).counter]) == Wrappers.Failure(Render(mode, marshal, rs).fatal.value)
              && forall k :: 0 <= k < Render(mode, marshal, rs).counter ==> marshal(rs[k]).Success?
  {
    if rs != [] {
      RenderCounter(mode, marshal, rs[1..]);
      var n := Render(mode, marshal, rs[1..]).counter;
      if Render(mode, marshal, rs).fatal.Some? && Lines(mode, marshal, rs[0]).Success? {
        forall k | 0 <= k < n + 1 ensures marshal(rs[k]).Success? {
          if k > 0 {
            assert rs[k] == rs[1..][k - 1];
          }
        }
      }
    }
  }

  /** The default mode prints three lines per result: category, path and link, and never the checksum. */
  lemma {:induction false} DefaultModeLines(mode: string, marshal: Marshal, rs: seq<Result>)
    requires mode != "silent" && mode != "json"
    ensures Render(mode, marshal, rs).fatal.None?
    ensures |Render(mode, marshal, rs).lines| == 3 * |rs|
    ensures forall k :: 0 <= k < |rs| ==>
              Render(mode, marshal, rs).lines[3 * k] == "[!] Found " + rs[k].driver.category
              && Render(mode, marshal, rs).lines[3 * k + 1] == "    |--> Path: " + rs[k].filepath
              && Render(mode, marshal, rs).lines[3 * k + 2] == "    |--> Link: " + LinkPrefix + rs[k].driver.id
  {
    if rs != [] {
      DefaultModeLines(mode, marshal, rs[1..]);
      var rest := Render(mode, marshal, rs[1..]).lines;
      assert Render(mode, marshal, rs).lines == FoundLines(rs[0]) + rest;
      forall k | 1 <= k < |rs|
        ensures Render(mode, marshal, rs).lines[3 * k] == "[!] Found " + rs[k].driver.category
        ensures Render(mode, marshal, rs).lines[3 * k + 1] == "    |--> Path: " + rs[k].filepath
        ensures Render(mode, marshal, rs).lines[3 * k + 2] == "    |--> Link: " + LinkPrefix + rs[k].driver.id
      {
        assert rs[k] == rs[1..][k - 1];
        assert 3 * k == 3 + 3 * (k - 1);
        assert Render(mode, marshal, rs).lines[3 * k] == rest[3 * (k - 1)];
      }
    }
  }

  /** The silent mode prints exactly the paths, one per result. */
  lemma {:induction false} SilentModeLines(marshal: Marshal, rs: seq<Result>)
    ensures Render("silent", marshal, rs).fatal.None?
    ensures Render("silent", marshal, rs).lines == seq(|rs|, k requires 0 <= k < |rs| => rs[k].filepath)
  {
    if rs != [] {
      SilentModeLines(marshal, rs[1..]);
    }
  }

  lemma SummaryNoneIffZero(counter: nat)
    ensures Summary(counter) == "[-] No vulnerable or malicious driver(s) found!" <==> counter == 0
  {
    if counter != 0 {
      var s := Summary(counter);
      assert s[1] == '+';
    }
  }
}
