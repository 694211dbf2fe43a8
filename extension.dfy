/**
 * The argument reader of the wiki extension (BMWExtension.php:20-46): each
 * `name=value` line of a `{{#bugzilla:…}}` call is split at its first `=`,
 * its value trimmed and checked against the name's expression, and then
 * either set or reported as a warning. The host's `set` keeps `debug` for
 * itself and hands every other name to the query (BugzillaReports.php:191-210).
 */
module Extension {
  import opened Php
  import opened Diagnostics
  import Validation
  import Schema
  import Query

  /** What reading arguments changes: the query's explicit values, `$this->debug` and the messages warned. */
  datatype Options = Options(params: map<string, string>, debug: Option<string>, warnings: seq<string>)

  /** The warning for a value its name's expression rejects; it shows the expression's source text. */
  function InvalidWarning(name: string, value: string): string {
    "Parameter " + name + "=" + value + " is invalid using regex " + Validation.RegexText(Validation.HostPolicy(name))
  }

  /** The host's `set`: `debug` is stored on the extension, any other name is the query's `set`. */
  function SetEffect(o: Options, name: string, value: string): Options {
    if name == "debug" then o.(debug := Some(value))
    else
      var stored := Query.StoreParameter(o.params, name, value);
      o.(params := stored.value, warnings := o.warnings + stored.warnings)
  }

  /** A name and its trimmed value: set when the expression matches, otherwise one warning and nothing set. */
  function Assign(o: Options, name: string, value: string): Options {
    match Validation.Match(Validation.HostPolicy(name), value)
    case Some(matched) => SetEffect(o, name, matched)
    case None => o.(warnings := o.warnings + [InvalidWarning(name, value)])
  }

  /** One argument line: a line without `=` is skipped; otherwise the name is what precedes the first `=`. */
  function OptionLine(o: Options, line: string): Options {
    match IndexOf(line, '=')
    case None => o
    case Some(i) => Assign(o, line[..i], Trim(line[i + 1..]))
  }

  /** `extractOptions`: the lines in order. */
  function Extracted(o: Options, lines: seq<string>): Options {
    if lines == [] then o
    else OptionLine(Extracted(o, lines[..|lines| - 1]), lines[|lines| - 1])
  }

  // ---------------------------------------------------------------------------
  // Properties of one line

  /** A line without `=` changes nothing and warns nothing. */
  lemma LineWithoutEqualsSkipped(o: Options, line: string)
    requires '=' !in line
    ensures OptionLine(o, line) == o
  {
  }

  /** The line is split at its first `=` only: later `=` belong to the value, and only the value is trimmed. */
  lemma SplitAtFirstEquals(o: Options, name: string, rest: string)
    requires '=' !in name
    ensures OptionLine(o, name + "=" + rest) == Assign(o, name, Trim(rest))
  {
    var line := name + "=" + rest;
    assert line == name + ("=" + rest);
    IndexOfAfter(name, "=" + rest, '=');
    assert line[..|name|] == name;
    assert line[|name| + 1..] == rest;
  }

  /** A value its expression accepts, once trimmed, is set exactly as trimmed. */
  lemma AcceptedValueIsSet(o: Options, name: string, rest: string)
    requires '=' !in name && Validation.Accepts(Validation.HostPolicy(name), Trim(rest))
    ensures OptionLine(o, name + "=" + rest) == SetEffect(o, name, Trim(rest))
  {
    SplitAtFirstEquals(o, name, rest);
  }

  /** A value its expression rejects is not set anywhere, and exactly one warning names it. */
  lemma RejectedValueWarnsOnce(o: Options, name: string, rest: string)
    requires '=' !in name && !Validation.Accepts(Validation.HostPolicy(name), Trim(rest))
    ensures OptionLine(o, name + "=" + rest) == o.(warnings := o.warnings + [InvalidWarning(name, Trim(rest))])
  {
    SplitAtFirstEquals(o, name, rest);
    Validation.MatchTrimmed(Validation.HostPolicy(name), rest);
  }

  /** `debug` only ever takes the levels its expression admits. */
  lemma DebugLevelsOnly(o: Options, line: string)
    ensures var r := OptionLine(o, line); r.debug == o.debug || r.debug == Some("1") || r.debug == Some("2")
  {
    match IndexOf(line, '=')
    case None =>
    case Some(i) =>
      var name, value := line[..i], Trim(line[i + 1..]);
      match Validation.Match(Validation.HostPolicy(name), value)
      case None =>
      case Some(m) =>
        if name == "debug" {
          assert Validation.Accepts(Validation.DebugLevel, m);
          assert m == [m[0]];
        }
  }

  // ---------------------------------------------------------------------------
  // Properties of a whole call

  lemma ExtractedSnoc(o: Options, lines: seq<string>, line: string)
    ensures Extracted(o, lines + [line]) == OptionLine(Extracted(o, lines), line)
  {
    assert (lines + [line])[..|lines|] == lines;
  }

  /**
   * The last line that sets a supported query parameter decides its value,
   * whatever the earlier lines held, and leaves every other parameter as the
   * earlier lines set it.
   */
  lemma LastWriteWins(o: Options, lines: seq<string>, name: string, rest: string, other: string)
    requires '=' !in name && name != "debug" && Schema.IsSupported(name)
    requires Validation.Accepts(Validation.HostPolicy(name), Trim(rest))
    ensures var r := Extracted(o, lines + [name + "=" + rest]);
      Query.Parameter(r.params, name) == Some(Query.Stored(name, Trim(rest)))
      && (other != name ==> Query.Parameter(r.params, other) == Query.Parameter(Extracted(o, lines).params, other))
  {
    ExtractedSnoc(o, lines, name + "=" + rest);
    AcceptedValueIsSet(Extracted(o, lines), name, rest);
    Query.SetThenGet(Extracted(o, lines).params, name, Trim(rest), other);
  }

  /** Warnings are only appended, at most one per line; nothing warned before is lost. */
  lemma {:induction false} WarningsOnlyAppend(o: Options, lines: seq<string>)
    ensures var r := Extracted(o, lines);
      |o.warnings| <= |r.warnings| <= |o.warnings| + |lines| && r.warnings[..|o.warnings|] == o.warnings
    decreases |lines|
  {
    if lines != [] {
      var init := lines[..|lines| - 1];
      WarningsOnlyAppend(o, init);
      var before := Extracted(o, init);
      var after := OptionLine(before, lines[|lines| - 1]);
      assert |before.warnings| <= |after.warnings| <= |before.warnings| + 1;
      assert after.warnings[..|before.warnings|] == before.warnings;
      assert after.warnings[..|o.warnings|] == before.warnings[..|o.warnings|];
    }
  }

  /** Over a whole call, `debug` ends as it started or at one of the admitted levels. */
  lemma {:induction false} DebugLevelsOnlyAll(o: Options, lines: seq<string>)
    ensures var r := Extracted(o, lines); r.debug == o.debug || r.debug == Some("1") || r.debug == Some("2")
    decreases |lines|
  {
    if lines != [] {
      DebugLevelsOnlyAll(o, lines[..|lines| - 1]);
      DebugLevelsOnly(Extracted(o, lines[..|lines| - 1]), lines[|lines| - 1]);
    }
  }

  // ---------------------------------------------------------------------------
  // The extension object

  /** The report extension: its warning context and the query it fills in. */
  class Reports {
    const context: Context
    const query: Query.BugzillaQuery

    ghost predicate Valid()
      reads context`warnings, context`messages
    {
      query.context == context && context.Valid()
    }

    constructor (context: Context, query: Query.BugzillaQuery)
      requires query.context == context
      ensures this.context == context && this.query == query
    {
      this.context := context;
      this.query := query;
    }

    ghost function State(): Options
      reads query`parameters, context`debug, context`messages
    {
      Options(query.parameters, context.debug, context.messages)
    }

    /** `set` (BugzillaReports.php:191-198). */
    method Set(name: string, value: string)
      requires Valid()
      modifies query`parameters, context`debug, context`warnings, context`messages
      ensures Valid()
      ensures State() == SetEffect(old(State()), name, value)
    {
      if name == "debug" {
        context.debug := Some(value);
      } else {
        query.Set(name, value);
      }
    }

    /** The body of the `extractOptions` loop for one line (BMWExtension.php:22-42). */
    method ExtractOption(line: string)
      requires Valid()
      modifies query`parameters, context`debug, context`warnings, context`messages
      ensures Valid()
      ensures State() == OptionLine(old(State()), line)
    {
      var eq := IndexOf(line, '=');
      if eq.None? {
        return;
      }
      var name := line[..eq.value];
      var value := Trim(line[eq.value + 1..]);
      var filter := Validation.HostPolicy(name);
      var matched := Validation.Match(filter, value);
      if matched.Some? {
        Set(name, matched.value);
      } else {
        context.Warn("Parameter " + name + "=" + value + " is invalid using regex " + Validation.RegexText(filter));
      }
    }

    /** `extractOptions` (BMWExtension.php:20-46). */
    method ExtractOptions(args: seq<string>)
      requires Valid()
      modifies query`parameters, context`debug, context`warnings, context`messages
      ensures Valid()
      ensures State() == Extracted(old(State()), args)
    {
      for i := 0 to |args|
        invariant Valid()
        invariant State() == Extracted(old(State()), args[..i])
      {
        ExtractOption(args[i]);
        ExtractedSnoc(old(State()), args[..i], args[i]);
        assert args[..i + 1] == args[..i] + [args[i]];
      }
      assert args[..|args|] == args;
    }
  }
}
