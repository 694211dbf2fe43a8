/**
 * What a report parameter may contain. Every parameter type has a regular
 * expression `^[class]*$` over one character class (BSQLQuery.php:136-169);
 * the host narrows `debug` to `^[12]$` (BugzillaReports.php:204-210). Values
 * spliced into SQL literals pass `safeSQLdecode` (BSQLQuery.php:1246-1255),
 * and `field`/`columns` values are tidied around their commas on entry
 * (BSQLQuery.php:118-128).
 */
module Validation {
  import opened Php
  import opened Diagnostics
  import Schema

  /** The regular expressions of `getParameterRegex`, one per parameter type family. */
  datatype Policy =
    | FilterChars   // filters and every type starting with "field"
    | ColumnChars   // column
    | ColumnsChars  // columns
    | DateChars     // field-date
    | AnyLine       // free
    | SortChars     // sort
    | WordChars     // every other type, and unsupported names
    | DebugLevel    // the host's `debug` parameter

  /** The policy of a parameter type; `None` is an unsupported name (BSQLQuery.php:136-169). */
  function PolicyOfType(t: Option<string>): Policy {
    if t == Some("filters") then FilterChars
    else if t == Some("column") then ColumnChars
    else if t == Some("columns") then ColumnsChars
    else if t == Some("field-date") then DateChars
    else if t == Some("free") then AnyLine
    else if t == Some("sort") then SortChars
    else if t.Some? && Prefix(t.value, 5) == "field" then FilterChars
    else WordChars
  }

  /** `BSQLQuery::getParameterRegex` for a parameter name. */
  function ParameterPolicy(name: string): Policy {
    PolicyOfType(Schema.TypeOf(name))
  }

  /** The host's `getParameterRegex`: `debug` is its own, everything else the query's. */
  function HostPolicy(name: string): (p: Policy)
    ensures p == DebugLevel <==> name == "debug"
    ensures name != "debug" ==> p == ParameterPolicy(name)
  {
    if name == "debug" then DebugLevel else ParameterPolicy(name)
  }

  /** The source text of each expression, as shown in warnings. */
  function RegexText(p: Policy): string {
    match p
    case FilterChars => "/^[\\w,@\\.\\s\\*\\/%!()+->]*$/"
    case ColumnChars => "/^[\\w_+-]*$/"
    case ColumnsChars => "/^[\\w,_+-~]*$/"
    case DateChars => "/^[\\*\\w+-:]*$/"
    case AnyLine => "/^.*$/"
    case SortChars => "/^[\\w\\s,_-]*$/"
    case WordChars => "/^[\\w]*$/"
    case DebugLevel => "/^[12]$/"
  }

  /**
   * The character class of each expression. `+->`, `+-~` and `+-:` are
   * ranges from `+`; a `-` next to `]` is literal; `.` is any character
   * but a line feed.
   */
  predicate Allowed(p: Policy, c: char) {
    match p
    case FilterChars => IsWordChar(c) || c == ',' || c == '@' || c == '.' || c == '*' || c == '/' || c == '%' || c == '!' || c == '(' || c == ')' || IsRegexSpace(c) || ('+' <= c <= '>')
    case ColumnChars => IsWordChar(c) || c == '+' || c == '-'
    case ColumnsChars => IsWordChar(c) || c == ',' || ('+' <= c <= '~')
    case DateChars => c == '*' || IsWordChar(c) || ('+' <= c <= ':')
    case AnyLine => c != '\n'
    case SortChars => IsWordChar(c) || IsRegexSpace(c) || c == ',' || c == '-'
    case WordChars => IsWordChar(c)
    case DebugLevel => c == '1' || c == '2'
  }

  /** The whole of `w` matches the expression between `^` and `$`. */
  predicate Accepts(p: Policy, w: string) {
    if p == DebugLevel then |w| == 1 && Allowed(p, w[0])
    else forall i :: 0 <= i < |w| ==> Allowed(p, w[i])
  }

  predicate EndsInNewline(v: string) {
    |v| > 0 && v[|v| - 1] == '\n'
  }

  /**
   * `preg_match` of the policy's expression, yielding `$matches[0]`: PCRE's
   * `$` also matches just before a final line feed, which is then not part
   * of the match.
   */
  function Match(p: Policy, v: string): (r: Option<string>)
    ensures r.Some? ==> Accepts(p, r.value)
    ensures r.Some? ==> r.value == v || (EndsInNewline(v) && r.value == v[..|v| - 1])
    ensures Accepts(p, v) ==> r == Some(v)
    ensures r.None? <==> !Accepts(p, v) && !(EndsInNewline(v) && Accepts(p, v[..|v| - 1]))
  {
    if Accepts(p, v) then Some(v)
    else if EndsInNewline(v) && Accepts(p, v[..|v| - 1]) then Some(v[..|v| - 1])
    else None
  }

  /** Without a final line feed the match is all or nothing. */
  lemma MatchWhole(p: Policy, v: string)
    requires !EndsInNewline(v)
    ensures Match(p, v) == if Accepts(p, v) then Some(v) else None
  {
  }

  /** A trimmed value never ends in a line feed, so its match is the value itself or nothing. */
  lemma MatchTrimmed(p: Policy, v: string)
    ensures Match(p, Trim(v)) == if Accepts(p, Trim(v)) then Some(Trim(v)) else None
  {
    MatchWhole(p, Trim(v));
  }

  /** Only `free` parameters can carry a quote character into the store. */
  lemma OnlyFreeTextCarriesQuotes(p: Policy, v: string)
    requires p != AnyLine && Match(p, v).Some?
    ensures '\'' !in Match(p, v).value && '"' !in Match(p, v).value
  {
    var m := Match(p, v).value;
    assert forall i :: 0 <= i < |m| ==> Allowed(p, m[i]);
  }

  // ---------------------------------------------------------------------------
  // safeSQLdecode

  const InvalidFieldValue: string := "INVALID_FIELD_VALUE"
  const SafeSqlRegex: string := "/^[\\w,@\\.\\s\\*\\/%!()+-]*$/"

  /** The class of `$safeSQLRegex`. */
  predicate SafeSqlChar(c: char) {
    IsWordChar(c) || IsRegexSpace(c) || c == ',' || c == '@' || c == '.' || c == '*' || c == '/'
      || c == '%' || c == '!' || c == '(' || c == ')' || c == '+' || c == '-'
  }

  predicate AllSafe(s: string) {
    forall i :: 0 <= i < |s| ==> SafeSqlChar(s[i])
  }

  /**
   * `safeSQLdecode`: the URL-decoded string when all of it is in the safe
   * class, otherwise the sentinel and one warning. (A final line feed is
   * itself in the class, so PCRE's `$` adds no case here.)
   */
  function SafeSqlDecode(s: string): (r: Logged<string>)
    ensures AllSafe(UrlDecode(s)) ==> r == Logged(UrlDecode(s), [])
    ensures !AllSafe(UrlDecode(s)) ==> r.value == InvalidFieldValue && |r.warnings| == 1
    ensures AllSafe(r.value)
    ensures '\'' !in r.value && '"' !in r.value
  {
    var decoded := UrlDecode(s);
    if AllSafe(decoded) then Logged(decoded, [])
    else
      assert forall i :: 0 <= i < |InvalidFieldValue| ==> IsWordChar(InvalidFieldValue[i]);
      Logged(InvalidFieldValue, ["String " + decoded + " is invalid using regex " + SafeSqlRegex])
  }

  /** `urldecode` leaves a string without `+` and `%` as it is. */
  lemma {:induction false} UrlDecodePlain(s: string)
    requires '+' !in s && '%' !in s
    ensures UrlDecode(s) == s
    decreases |s|
  {
    if s != [] {
      assert '+' !in s[1..] && '%' !in s[1..];
      UrlDecodePlain(s[1..]);
    }
  }

  /** A plain safe value (no `+`, no `%`) passes `safeSQLdecode` unchanged and silently. */
  lemma SafePlainValue(s: string)
    requires '+' !in s && '%' !in s && AllSafe(s)
    ensures SafeSqlDecode(s) == Logged(s, [])
  {
    UrlDecodePlain(s);
  }

  // ---------------------------------------------------------------------------
  // tidyCommaSeparated

  /** Trim every piece. */
  function TrimAll(parts: seq<string>): (r: seq<string>)
    ensures |r| == |parts|
    ensures forall i :: 0 <= i < |parts| ==> r[i] == Trim(parts[i])
  {
    if parts == [] then [] else TrimAll(parts[..|parts| - 1]) + [Trim(parts[|parts| - 1])]
  }

  /** The value `tidyCommaSeparated` computes: each comma-separated piece trimmed. */
  function Tidy(value: string): string {
    Join(TrimAll(Split(value, ',')), ",")
  }

  /** Tidying keeps the pieces and their number, each one trimmed. */
  lemma TidyPieces(value: string)
    ensures Split(Tidy(value), ',') == TrimAll(Split(value, ','))
    ensures |Split(Tidy(value), ',')| == |Split(value, ',')|
  {
    var parts := Split(value, ',');
    var trimmed := TrimAll(parts);
    SplitPieces(value, ',');
    forall i | 0 <= i < |trimmed|
      ensures ',' !in trimmed[i]
    {
      TrimKeeps(parts[i], ',');
    }
    SplitJoin(trimmed, ',');
  }

  /** Tidying twice is tidying once. */
  lemma TidyIdempotent(value: string)
    ensures Tidy(Tidy(value)) == Tidy(value)
  {
    var trimmed := TrimAll(Split(value, ','));
    TidyPieces(value);
    forall i | 0 <= i < |trimmed|
      ensures Trim(trimmed[i]) == trimmed[i]
    {
      TrimIdempotent(Split(value, ',')[i]);
    }
    assert TrimAll(trimmed) == trimmed;
  }

  /** Appending one piece to a join adds the separator only after a first piece. */
  lemma JoinSnoc(parts: seq<string>, x: string, sep: string)
    ensures Join(parts + [x], sep) == if parts == [] then x else Join(parts, sep) + sep + x
  {
    assert (parts + [x])[..|parts|] == parts;
  }

  /** `tidyCommaSeparated`: the loop over the exploded pieces (BSQLQuery.php:118-128). */
  method TidyCommaSeparated(value: string) returns (newValue: string)
    ensures newValue == Tidy(value)
  {
    var pieces := Split(value, ',');
    var started := false;
    newValue := "";
    for i := 0 to |pieces|
      invariant started <==> i > 0
      invariant newValue == Join(TrimAll(pieces[..i]), ",")
    {
      ghost var done := TrimAll(pieces[..i]);
      assert pieces[..i + 1][..i] == pieces[..i];
      assert TrimAll(pieces[..i + 1]) == done + [Trim(pieces[i])];
      JoinSnoc(done, Trim(pieces[i]), ",");
      if !started {
        newValue := Trim(pieces[i]);
        started := true;
      } else {
        newValue := newValue + "," + Trim(pieces[i]);
      }
    }
    assert pieces[..|pieces|] == pieces;
  }
}
