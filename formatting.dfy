/**
 * Rendering one result cell (BSQLQuery.php:439-642, 1229-1235): a column's
 * format decides how a value is shown — as an external link, a bug link, a
 * number, a person's name or initials, or a list of wiki links. The date
 * formats depend on the clock and are a parameter here.
 */
module Formatting {
  import opened Php
  import opened Diagnostics
  import Schema

  // ---------------------------------------------------------------------------
  // Initials

  /**
   * `convertNameToTla` as written: the middle branch tests `strlen($name[0] > 1)`,
   * an undefined `$name` whose test is always false, so a two-word name whose
   * second word is one letter always gets three letters plus `A`.
   */
  function TlaAsWritten(value: string): string {
    var names := Split(value, ' ');
    var tla :=
      if |names| == 1 then (if |value| > 3 then Prefix(value, 3) else value)
      else if |names[1]| > 1 then Prefix(names[0], 1) + Prefix(names[1], 2)
      else names[0] + names[1] + "A";
    ToUpper(tla)
  }

  /**
   * `convertNameToTla` as intended: at most three upper-cased letters, taken
   * from the first word alone, or from the first two words.
   */
  function Tla(value: string): (r: string)
    ensures |r| <= 3
  {
    var names := Split(value, ' ');
    var tla :=
      if |names| == 1 then (if |value| > 3 then Prefix(value, 3) else value)
      else if |names[1]| > 1 then Prefix(names[0], 1) + Prefix(names[1], 2)
      else if |names[0]| > 1 then Prefix(names[0], 2) + Prefix(names[1], 1)
      else names[0] + names[1] + "A";
    ToUpper(tla)
  }

  /** The name `Jo B` gets four letters as written and three as intended. */
  lemma TlaDeadBranch()
    ensures TlaAsWritten("Jo B") == "JOBA"
    ensures Tla("Jo B") == "JOB"
  {
    assert "Jo B" == "Jo" + [' '] + "B";
    SplitAt("Jo", "B", ' ');
    var names := Split("Jo B", ' ');
    assert names[0] == "Jo" && names[1] == "B" && |names| == 2;
    assert "Jo" + "B" + "A" == "JoBA";
    assert TlaAsWritten("Jo B") == ToUpper("JoBA");
    assert ToUpper("JoBA") == "JOBA";
    assert Prefix("Jo", 2) + Prefix("B", 1) == "JoB";
    assert Tla("Jo B") == ToUpper("JoB");
    assert ToUpper("JoB") == "JOB";
  }

  /** Both agree on a single word: its first three letters, upper-cased. */
  lemma TlaOneWord(value: string)
    requires ' ' !in value
    ensures Tla(value) == TlaAsWritten(value) == ToUpper(Prefix(value, 3))
  {
  }

  /** Both agree when the second word has two letters or more. */
  lemma TlaLongSurname(first: string, last: string)
    requires ' ' !in first && ' ' !in last && |last| > 1
    ensures var name := first + " " + last;
      Tla(name) == TlaAsWritten(name) == ToUpper(Prefix(first, 1) + Prefix(last, 2))
  {
    var name := first + " " + last;
    assert name == first + [' '] + last;
    SplitAt(first, last, ' ');
  }

  // ---------------------------------------------------------------------------
  // Numbers

  /** The `sprintf` pattern of the `number` format: integral, one decimal or two. */
  function NumberPattern(v: real): (r: string)
    ensures r == "%d" || r == "%1$.1f" || r == "%1$.2f"
  {
    if v - v.Floor as real != 0.0 then
      (if 10.0 * v - (10.0 * v).Floor as real != 0.0 then "%1$.2f" else "%1$.1f")
    else "%d"
  }

  /** Whole numbers print as integers. */
  lemma WholeNumbers(n: int)
    ensures NumberPattern(n as real) == "%d"
  {
  }

  /** Tenths that are not whole print with one decimal. */
  lemma Tenths(n: int)
    requires n % 10 != 0
    ensures NumberPattern(n as real / 10.0) == "%1$.1f"
  {
    var v := n as real / 10.0;
    assert 10.0 * v == n as real;
    assert v.Floor == n / 10;
  }

  // ---------------------------------------------------------------------------
  // One cell

  /** The site settings the bug-link format reads. */
  datatype Site = Site(rawHTML: bool, bzserver: string, interwiki: Option<string>)

  /**
   * A cell value: its text, and the number PHP's arithmetic reads from that
   * text (used only by the `number` format). The number is meaningful for
   * numeric database values, which are what a `number` column holds.
   */
  datatype Cell = Cell(text: string, number: real)

  /**
   * The parameters a cell's rendering consults (`zeroasblank`, `nameformat`),
   * `sprintf` for numbers and the renderer of the clock-dependent formats.
   */
  datatype Renderers = Renderers(
    zeroAsBlank: Option<string>,
    nameFormat: Option<string>,
    printf: (string, real) -> string,
    dates: (string, string) -> string)

  /** The bug link of the `id` format. */
  function BugLink(site: Site, id: string, title: string): (r: string)
    ensures site.rawHTML ==> StartsWith(r, "<a href=\"" + site.bzserver + "/show_bug.cgi?id=" + id)
    ensures !site.rawHTML && !Truthy(site.interwiki) ==> StartsWith(r, "[" + site.bzserver + "/show_bug.cgi?id=" + id + " ")
  {
    var text :=
      if TruthyStr(title) then
        "<span title=\"" + title + "\">" + id + (if !LooseEquals(title, id) then "<span class=\"flag\">+</span>" else "") + "</span>"
      else id;
    if site.rawHTML then "<a href=\"" + site.bzserver + "/show_bug.cgi?id=" + id + "\">" + text + "</a>"
    else if Truthy(site.interwiki) then "[[" + site.interwiki.value + ":" + id + "|" + text + "]]"
    else "[" + site.bzserver + "/show_bug.cgi?id=" + id + " " + text + "]"
  }

  /** One wiki link of the `link` format: to the page itself, or under a prefix given as `link~prefix`. */
  function WikiLink(parts: seq<string>, page: string): string {
    if |parts| > 1 then "[[" + parts[1] + " " + page + "|" + page + "]]" else "[[" + page + "]]"
  }

  function WikiLinks(parts: seq<string>, pages: seq<string>): (r: seq<string>)
    ensures |r| == |pages|
    ensures forall i :: 0 <= i < |pages| ==> r[i] == WikiLink(parts, pages[i])
  {
    seq(|pages|, i requires 0 <= i < |pages| => WikiLink(parts, pages[i]))
  }

  /** The `link` format: each comma-separated value a wiki link, joined by `, `. */
  function LinkCell(format: string, value: string): string {
    if TruthyStr(value) then Join(WikiLinks(Split(format, '~'), Split(value, ',')), ", ") else ""
  }

  /** `formatForExplicitFormat` for the `link` format, as its loop builds the text. */
  method RenderLinks(format: string, value: string) returns (rendered: string)
    ensures rendered == LinkCell(format, value)
  {
    rendered := "";
    var parts := Split(format, '~');
    if TruthyStr(value) {
      var pages := Split(value, ',');
      for i := 0 to |pages|
        invariant rendered == Join(WikiLinks(parts, pages[..i]), ", ")
        invariant i > 0 ==> TruthyStr(rendered)
      {
        var links := WikiLinks(parts, pages[..i]);
        assert WikiLinks(parts, pages[..i + 1]) == links + [WikiLink(parts, pages[i])];
        assert (links + [WikiLink(parts, pages[i])])[..i] == links;
        if TruthyStr(rendered) {
          rendered := rendered + ", ";
        }
        rendered := rendered + WikiLink(parts, pages[i]);
        assert |rendered| >= |WikiLink(parts, pages[i])| >= 4;
      }
      assert pages[..|pages|] == pages;
    }
  }

  /** A non-empty list of links has one link per value. */
  lemma LinkCount(format: string, pages: seq<string>)
    requires |pages| > 0 && TruthyStr(Join(pages, ","))
    requires forall i :: 0 <= i < |pages| ==> ',' !in pages[i]
    ensures LinkCell(format, Join(pages, ",")) == Join(WikiLinks(Split(format, '~'), pages), ", ")
  {
    SplitJoin(pages, ',');
  }

  /**
   * `formatForExplicitFormat`: the cell in the format named before any `~`;
   * an unknown format warns and shows the value unchanged.
   */
  function FormatExplicit(cell: Cell, format: string, title: string, site: Site, env: Renderers): (r: Logged<string>)
    ensures |r.warnings| <= 1
    ensures r.warnings != [] <==> Split(format, '~')[0] !in KnownFormats
  {
    var kind := Split(format, '~')[0];
    var value := cell.text;
    if kind == "date" || kind == "relativedate" || kind == "radar" then Logged(env.dates(kind, value), [])
    else if kind == "url" then Logged(if TruthyStr(value) then "[" + value + "]" else "&nbsp;", [])
    else if kind == "id" then Logged(if TruthyStr(value) then BugLink(site, value, title) else "&nbsp;", [])
    else if kind == "number" then
      Logged(
        if cell.number == 0.0 then (if env.zeroAsBlank == Some("true") then "" else "0")
        else env.printf(NumberPattern(cell.number), cell.number),
        [])
    else if kind == "name" then
      Logged(
        if !TruthyStr(value) then "&nbsp;"
        else if env.nameFormat == Some("tla") then TlaAsWritten(value)
        else ReplaceChar(value, ' ', "&nbsp;"),
        [])
    else if kind == "link" then Logged(LinkCell(format, value), [])
    else Logged(value, ["Format " + format + " not recognised"])
  }

  const KnownFormats: set<string> := {"date", "relativedate", "radar", "url", "id", "number", "name", "link"}

  /** Names never wrap: spaces become non-breaking, and an empty name is one non-breaking space. */
  lemma NamesDoNotWrap(cell: Cell, site: Site, env: Renderers)
    requires env.nameFormat != Some("tla")
    ensures ' ' !in FormatExplicit(cell, "name", "", site, env).value
  {
    assert Split("name", '~') == ["name"];
  }

  /**
   * With `nameformat=tla` a name shows as its initials, computed as written;
   * they are at most three letters unless the name's second word is a single
   * letter.
   */
  lemma TlaNames(cell: Cell, site: Site, env: Renderers)
    requires env.nameFormat == Some("tla") && TruthyStr(cell.text)
    ensures FormatExplicit(cell, "name", "", site, env).value == TlaAsWritten(cell.text)
    ensures var names := Split(cell.text, ' ');
      |names| == 1 || |names[1]| > 1 ==> |FormatExplicit(cell, "name", "", site, env).value| <= 3
  {
    assert Split("name", '~') == ["name"];
  }

  /** A zero shows as blank exactly when `zeroasblank` is `true`. */
  lemma ZeroAsBlank(text: string, site: Site, env: Renderers)
    ensures FormatExplicit(Cell(text, 0.0), "number", "", site, env).value == "" <==> env.zeroAsBlank == Some("true")
  {
    assert Split("number", '~') == ["number"];
  }

  /** `format`: the column's format if it has one, otherwise the value as it is. */
  function Format(cell: Cell, column: string, title: string, formats: map<string, string>, site: Site, env: Renderers)
    : (r: Logged<string>)
    ensures column !in formats ==> r == Logged(cell.text, [])
    ensures column in formats ==> r == FormatExplicit(cell, formats[column], title, site, env)
  {
    if column in formats then FormatExplicit(cell, formats[column], title, site, env) else Logged(cell.text, [])
  }

  /** `formatForHeading`: `groupformat` if set, else the column's format; an empty heading reads `not set`. */
  function FormatForHeading(cell: Cell, column: string, groupFormat: Option<string>, formats: map<string, string>, site: Site, env: Renderers)
    : (r: Logged<string>)
    ensures TruthyStr(r.value)
    ensures Truthy(groupFormat) ==> r.warnings == FormatExplicit(cell, groupFormat.value, "", site, env).warnings
  {
    var formatted :=
      if Truthy(groupFormat) then FormatExplicit(cell, groupFormat.value, "", site, env)
      else Format(cell, column, "", formats, site, env);
    Logged(if TruthyStr(formatted.value) then formatted.value else "not set", formatted.warnings)
  }

  /** Without `groupformat`, a heading of a column that has no format shows a non-falsy value as it is. */
  lemma HeadingKeepsValue(cell: Cell, column: string, formats: map<string, string>, site: Site, env: Renderers)
    requires column !in formats && TruthyStr(cell.text)
    ensures FormatForHeading(cell, column, None, formats, site, env).value == cell.text
  {
  }

  /**
   * Without `groupformat` a heading shows the column's formatted value when
   * that is not falsy, and exactly `not set` when it is; the warnings are
   * the format's.
   */
  lemma HeadingShowsFormatted(cell: Cell, column: string, groupFormat: Option<string>, formats: map<string, string>, site: Site, env: Renderers)
    requires !Truthy(groupFormat)
    ensures var f := Format(cell, column, "", formats, site, env);
      var r := FormatForHeading(cell, column, groupFormat, formats, site, env);
      (TruthyStr(f.value) ==> r.value == f.value)
      && (!TruthyStr(f.value) ==> r.value == "not set")
      && r.warnings == f.warnings
  {
  }

  /** Under a set `groupformat` the heading depends on neither the column nor the column formats. */
  lemma GroupFormatDecides(cell: Cell, c1: string, c2: string, groupFormat: Option<string>,
                           f1: map<string, string>, f2: map<string, string>, site: Site, env: Renderers)
    requires Truthy(groupFormat)
    ensures FormatForHeading(cell, c1, groupFormat, f1, site, env) == FormatForHeading(cell, c2, groupFormat, f2, site, env)
    ensures FormatForHeading(cell, c1, groupFormat, f1, site, env).value
      == if TruthyStr(FormatExplicit(cell, groupFormat.value, "", site, env).value)
         then FormatExplicit(cell, groupFormat.value, "", site, env).value else "not set"
  {
  }

  // ---------------------------------------------------------------------------
  // Titles and result keys

  /** The text of the result columns named by `valueTitle`, each followed by a space (a missing key reads as empty). */
  function TitleWords(line: map<string, string>, columns: seq<string>): string {
    if columns == [] then ""
    else
      var c := columns[|columns| - 1];
      TitleWords(line, columns[..|columns| - 1]) + (if c in line then line[c] else "") + " "
  }

  /** `getValueTitle`: the values of a column's title columns, space-separated and trimmed. */
  function ValueTitle(line: map<string, string>, column: string): (r: string)
    ensures Schema.ValueTitleOf(column).None? ==> r == ""
    ensures r == [] || (!IsTrimChar(r[0]) && !IsTrimChar(r[|r| - 1]))
  {
    var spec := Schema.ValueTitleOf(column);
    if spec.None? then "" else
      var words := TitleWords(line, Split(spec.value, ','));
      Trim(words)
  }

  /** `getValueTitle` as its loop builds the title. */
  method GetValueTitle(line: map<string, string>, column: string) returns (title: string)
    ensures title == ValueTitle(line, column)
  {
    title := "";
    if Schema.ValueTitleOf(column).Some? {
      var columns := Split(Schema.ValueTitleOf(column).value, ',');
      for i := 0 to |columns|
        invariant title == TitleWords(line, columns[..i])
      {
        assert columns[..i + 1][..i] == columns[..i];
        title := title + (if columns[i] in line then line[columns[i]] else "") + " ";
      }
      assert columns[..|columns|] == columns;
      title := Trim(title);
    }
  }

  /** `mapField`: the result-set key of a column. */
  function MapField(column: string): (r: string)
    ensures Schema.FieldMappingOf(column).None? ==> r == column
    ensures Schema.FieldMappingOf(column).Some? ==> r == Schema.FieldMappingOf(column).value
  {
    Schema.FieldMappingOf(column).GetOr(column)
  }

  /** Mapping a key once is enough: no result key is itself mapped elsewhere. */
  lemma MapFieldIdempotent(column: string)
    ensures MapField(MapField(column)) == MapField(column)
  {
  }

  // ---------------------------------------------------------------------------
  // Row limits

  /**
   * `getMaxRows` and `getMaxRowsForBarChart`: the requested limit unless it
   * is falsy (then the configured one silently) or exceeds the configured one
   * (then the configured one, with a warning).
   */
  function MaxRows(requested: Option<string>, configured: nat, warning: string): (r: Logged<string>)
    ensures !Truthy(requested) ==> r == Logged(NatToString(configured), [])
    ensures Truthy(requested) && !LooseGreater(requested.value, configured) ==> r == Logged(requested.value, [])
    ensures Truthy(requested) && LooseGreater(requested.value, configured) ==> r == Logged(NatToString(configured), [warning])
  {
    if Truthy(requested) then
      if LooseGreater(requested.value, configured) then Logged(NatToString(configured), [warning])
      else Logged(requested.value, [])
    else Logged(NatToString(configured), [])
  }

  const MaxRowsWarning := "Max rows in function parameter greater than in config -> ignoring"
  const MaxRowsBarWarning := "Max rows bar in function parameter greater than in config -> ignoring"

  /** A limit given in digits never exceeds the configured one. */
  lemma MaxRowsBounded(requested: string, configured: nat, warning: string)
    requires IsDigits(requested)
    ensures var r := MaxRows(Some(requested), configured, warning).value;
      IsDigits(r) && DigitsValue(r) <= configured
  {
    DigitsOfNat(configured);
    var r := MaxRows(Some(requested), configured, warning).value;
    if r == NatToString(configured) {
      assert IsDigits(r);
    }
  }
}
