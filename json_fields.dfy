/**
 * The two loosely typed fields of the driver data set and the custom
 * `UnmarshalJSON` methods that normalise them: a field that is either a
 * string or an array of strings, and the `Commands` field that is either a
 * string or a `Command` object. `encoding/json` itself is modelled only as
 * far as these methods use it: decoding one already-parsed JSON value into
 * a Go string, a `[]string` or a `Command`.
 */
module JsonFields {
  import opened Wrappers
  import opened Strings

  /** A parsed JSON value (JSON `null` is not represented). */
  datatype Json =
    | JString(s: string)
    | JNumber(literal: string)
    | JBool(b: bool)
    | JArray(items: seq<Json>)
    | JObject(members: seq<(string, Json)>)

  /** `json.UnmarshalTypeError`: a JSON value of kind `found` cannot be stored in a Go `target`. */
  datatype JsonError = UnmarshalTypeError(found: string, target: string)

  /** The JSON kind name `encoding/json` puts in its type errors. */
  function Kind(j: Json): string
  {
    match j
    case JString(_) => "string"
    case JNumber(_) => "number"
    case JBool(_) => "bool"
    case JArray(_) => "array"
    case JObject(_) => "object"
  }

  /** `json.Unmarshal(b, &strVal)` with `strVal string`. */
  function DecodeString(j: Json): (r: Result<string, JsonError>)
    ensures r.Success? <==> j.JString?
    ensures r.Success? ==> r.value == j.s
  {
    if j.JString? then Success(j.s) else Failure(UnmarshalTypeError(Kind(j), "string"))
  }

  /** `json.Unmarshal(b, &arrVal)` with `arrVal []string`: an array whose elements are all strings. */
  function DecodeStringArray(j: Json): (r: Result<seq<string>, JsonError>)
    ensures r.Success? <==> j.JArray? && forall k :: 0 <= k < |j.items| ==> j.items[k].JString?
    ensures r.Success? ==> |r.value| == |j.items| && forall k :: 0 <= k < |j.items| ==> r.value[k] == j.items[k].s
  {
    if j.JArray? then DecodeStrings(j.items) else Failure(UnmarshalTypeError(Kind(j), "[]string"))
  }

  /** The elements of an array decoded one by one; the first element that is not a string is the error. */
  function DecodeStrings(items: seq<Json>): (r: Result<seq<string>, JsonError>)
    ensures r.Success? <==> forall k :: 0 <= k < |items| ==> items[k].JString?
    ensures r.Success? ==> |r.value| == |items| && forall k :: 0 <= k < |items| ==> r.value[k] == items[k].s
  {
    if items == [] then Success([])
    else if !items[0].JString? then Failure(UnmarshalTypeError(Kind(items[0]), "string"))
    else
      var rest := DecodeStrings(items[1..]);
      assert forall k :: 1 <= k < |items| ==> items[k] == items[1..][k - 1];
      if rest.Success? then Success([items[0].s] + rest.value) else rest
  }

  /** The JSON array of strings that holds `ss`. */
  function EncodeStrings(ss: seq<string>): (j: Json)
  {
    JArray(seq(|ss|, k requires 0 <= k < |ss| => JString(ss[k])))
  }

  /** Any list of strings survives a trip through a JSON array. */
  lemma StringArrayRoundTrip(ss: seq<string>)
    ensures DecodeStringArray(EncodeStrings(ss)) == Success(ss)
  {
    var r := DecodeStringArray(EncodeStrings(ss));
    assert r.Success?;
    assert r.value == ss;
  }

  /** A command of the data set. */
  datatype Command = Command(command: string, description: string, usecase: string,
                             privileges: string, operatingSystem: string)

  const EmptyCommand := Command("", "", "", "", "")

  datatype CommandField = CommandText | Description | Usecase | Privileges | OperatingSystem

  /** The JSON key of each field of `Command`. */
  function KeyOf(f: CommandField): string
  {
    match f
    case CommandText => "Command"
    case Description => "Description"
    case Usecase => "Usecase"
    case Privileges => "Privileges"
    case OperatingSystem => "OperatingSystem"
  }

  /** The field an object key is stored in: keys match field names without regard to case. */
  function FieldNamed(key: string): (r: Option<CommandField>)
    ensures r.Some? ==> Lower(key) == Lower(KeyOf(r.value))
  {
    var k := Lower(key);
    if k == Lower("Command") then Some(CommandText)
    else if k == Lower("Description") then Some(Description)
    else if k == Lower("Usecase") then Some(Usecase)
    else if k == Lower("Privileges") then Some(Privileges)
    else if k == Lower("OperatingSystem") then Some(OperatingSystem)
    else None
  }

  function SetField(c: Command, f: CommandField, v: string): Command
  {
    match f
    case CommandText => c.(command := v)
    case Description => c.(description := v)
    case Usecase => c.(usecase := v)
    case Privileges => c.(privileges := v)
    case OperatingSystem => c.(operatingSystem := v)
  }

  /**
   * The members of an object stored into `acc` in order: unknown keys are
   * skipped, a later key overwrites an earlier one, and the first member
   * whose value is not a string is the error.
   */
  function DecodeMembers(members: seq<(string, Json)>, acc: Command): (r: Result<Command, JsonError>)
    ensures r.Failure? <==> exists k :: 0 <= k < |members| && FieldNamed(members[k].0).Some? && !members[k].1.JString?
  {
    if members == [] then Success(acc)
    else
      var field := FieldNamed(members[0].0);
      var value := members[0].1;
      var r :=
        if field.None? then DecodeMembers(members[1..], acc)
        else if !value.JString? then Failure(UnmarshalTypeError(Kind(value), "string"))
        else DecodeMembers(members[1..], SetField(acc, field.value, value.s));
      assert forall k :: 1 <= k < |members| ==> members[k] == members[1..][k - 1];
      r
  }

  /** `json.Unmarshal(b, &cmdVal)` with `cmdVal Command`. */
  function DecodeCommand(j: Json): (r: Result<Command, JsonError>)
    ensures r.Success? ==> j.JObject?
  {
    if j.JObject? then DecodeMembers(j.members, EmptyCommand)
    else Failure(UnmarshalTypeError(Kind(j), "loldrivers.Command"))
  }

  /** The JSON object that holds `c`, one member per field. */
  function EncodeCommand(c: Command): Json
  {
    JObject([("Command", JString(c.command)), ("Description", JString(c.description)),
             ("Usecase", JString(c.usecase)), ("Privileges", JString(c.privileges)),
             ("OperatingSystem", JString(c.operatingSystem))])
  }

  /** The key of each field names that field: no two keys of `Command` collide. */
  lemma KeyNamesItsField(f: CommandField)
    ensures FieldNamed(KeyOf(f)) == Some(f)
  {
    assert Lower("Usecase")[0] == 'u' && Lower("Command")[0] == 'c';
  }

  /** Any command survives a trip through its JSON object. */
  lemma CommandRoundTrip(c: Command)
    ensures DecodeCommand(EncodeCommand(c)) == Success(c)
  {
    var ms := EncodeCommand(c).members;
    KeyNamesItsField(CommandText);
    KeyNamesItsField(Description);
    KeyNamesItsField(Usecase);
    KeyNamesItsField(Privileges);
    KeyNamesItsField(OperatingSystem);
    var c1 := EmptyCommand.(command := c.command);
    var c2 := c1.(description := c.description);
    var c3 := c2.(usecase := c.usecase);
    var c4 := c3.(privileges := c.privileges);
    calc {
      DecodeMembers(ms, EmptyCommand);
      DecodeMembers(ms[1..], c1);
      { assert ms[1..][1..] == ms[2..]; }
      DecodeMembers(ms[2..], c2);
      { assert ms[2..][1..] == ms[3..]; }
      DecodeMembers(ms[3..], c3);
      { assert ms[3..][1..] == ms[4..]; }
      DecodeMembers(ms[4..], c4);
      { assert ms[4..][1..] == []; }
      DecodeMembers([], c);
      Success(c);
    }
  }

  /** The `Commands` field: the commands decoded so far and whether any was. */
  class UnmarshalCommands {
    var value: seq<Command>
    var isSet: bool

    constructor ()
      ensures value == [] && !isSet
    {
      value := [];
      isSet := false;
    }

    /**
     * A JSON string becomes a command with only its `Command` text; otherwise
     * the value must decode as a `Command` object. Success appends one command.
     */
    method UnmarshalJSON(b: Json) returns (err: Option<JsonError>)
      modifies this
      ensures b.JString? ==> err.None? && value == old(value) + [EmptyCommand.(command := b.s)] && isSet
      ensures !b.JString? && DecodeCommand(b).Success? ==>
                err.None? && value == old(value) + [DecodeCommand(b).value] && isSet
      ensures !b.JString? && DecodeCommand(b).Failure? ==>
                err == Some(DecodeCommand(b).error) && value == old(value) && isSet == old(isSet)
    {
      var cmdVal: Command;
      var str := DecodeString(b);
      if str.Success? {
        cmdVal := EmptyCommand.(command := str.value);
      } else {
        var obj := DecodeCommand(b);
        if obj.Failure? {
          return Some(obj.error);
        }
        cmdVal := obj.value;
      }
      value := value + [cmdVal];
      isSet := true;
      return None;
    }
  }

  /** A field that is either one string or an array of strings, always kept as a list. */
  class UnmarshalStringOrStringArray {
    var value: seq<string>
    var isSet: bool

    constructor ()
      ensures value == [] && !isSet
    {
      value := [];
      isSet := false;
    }

    /**
     * A JSON string `s` becomes `[s]`, an array of strings is taken as it
     * is; either replaces the previous list. Anything else is an error and
     * leaves the field as it was.
     */
    method UnmarshalJSON(b: Json) returns (err: Option<JsonError>)
      modifies this
      ensures b.JString? ==> err.None? && value == [b.s] && isSet
      ensures !b.JString? && DecodeStringArray(b).Success? ==>
                err.None? && value == DecodeStringArray(b).value && isSet
      ensures !b.JString? && DecodeStringArray(b).Failure? ==>
                err == Some(DecodeStringArray(b).error) && value == old(value) && isSet == old(isSet)
    {
      var arrVal: seq<string>;
      var str := DecodeString(b);
      if str.Success? {
        arrVal := [str.value];
      } else {
        var arr := DecodeStringArray(b);
        if arr.Failure? {
          return Some(arr.error);
        }
        arrVal := arr.value;
      }
      value := arrVal;
      isSet := true;
      return None;
    }
  }

  /** Neither normaliser accepts a number or a boolean, so neither changes its field for one. */
  lemma ScalarsAreRejected(j: Json)
    requires j.JNumber? || j.JBool?
    ensures DecodeString(j).Failure? && DecodeStringArray(j).Failure? && DecodeCommand(j).Failure?
  {
  }
}
