/**
 * The report query object (`BSQLQuery` with its subclass `BugzillaQuery`):
 * a store of explicit and implicit parameters, memoised sort settings, the
 * set of fields the SQL must fetch, the implicit column rules, the Bugzilla
 * search URL built alongside the WHERE clause, and the SQL statement itself.
 *
 * Each state-changing method is proved against a pure function of the old
 * state: `FieldEffect` for `processField`, `ParametersEffect` for the WHERE
 * loop of `getSQL`, `ResolveColumns` for `getColumns`.
 */
module Query {
  import opened Php
  import opened Diagnostics
  import Schema
  import Validation
  import Filters
  import SearchUrl
  import Columns
  import Sorting
  import Sql
  import Formatting

  // ---------------------------------------------------------------------------
  // The parameter store

  /** `get`: the explicit value, else the default, else null; implicit values are never consulted (BSQLQuery.php:193-208). */
  function Parameter(params: map<string, string>, name: string): Option<string> {
    if !Schema.IsSupported(name) then None
    else if name in params then Some(params[name])
    else Schema.DefaultOf(name)
  }

  /** What `set` stores: `field` and `columns` values are tidied around their commas (BSQLQuery.php:92-109). */
  function Stored(name: string, value: string): string {
    var t := Schema.TypeOf(name);
    if t == Some("field") || t == Some("columns") then Validation.Tidy(value) else value
  }

  function SetWarning(name: string): string {
    "Setting parameter " + name + " is not supported"
  }

  /** `set` on the store: a supported name is stored, any other name only warns. */
  function StoreParameter(params: map<string, string>, name: string, value: string): (r: Logged<map<string, string>>)
    ensures Schema.IsSupported(name) ==> r.warnings == [] && r.value.Keys == params.Keys + {name}
    ensures !Schema.IsSupported(name) ==> r.value == params && r.warnings == [SetWarning(name)]
  {
    if Schema.IsSupported(name) then Logged(params[name := Stored(name, value)], [])
    else Logged(params, [SetWarning(name)])
  }

  /** `sortable` is a plain parameter: `set` stores its value as given. */
  lemma SortableStoredAsIs(params: map<string, string>)
    ensures StoreParameter(params, "sortable", "0") == Logged(params["sortable" := "0"], [])
  {
    assert Schema.TypeOf("sortable") == Some("boolean");
  }

  /** A value `set` stores reads back through `get`, and no other name is affected. */
  lemma SetThenGet(params: map<string, string>, name: string, value: string, other: string)
    requires Schema.IsSupported(name)
    ensures Parameter(StoreParameter(params, name, value).value, name) == Some(Stored(name, value))
    ensures other != name ==> Parameter(StoreParameter(params, name, value).value, other) == Parameter(params, other)
  {
  }

  /** Storing a stored value again changes nothing: tidying is idempotent. */
  lemma StoredIdempotent(name: string, value: string)
    ensures Stored(name, Stored(name, value)) == Stored(name, value)
  {
    var t := Schema.TypeOf(name);
    if t == Some("field") || t == Some("columns") {
      Validation.TidyIdempotent(value);
    }
  }

  /** The tidied value keeps the number of comma-separated pieces. */
  lemma StoredKeepsPieces(name: string, value: string)
    ensures |Split(Stored(name, value), ',')| == |Split(value, ',')|
  {
    var t := Schema.TypeOf(name);
    if t == Some("field") || t == Some("columns") {
      Validation.TidyPieces(value);
    }
  }

  /** `is`: a truthy value loosely equal to `'1'`, or exactly `'y'` (BSQLQuery.php:216-229). */
  predicate Affirmative(v: Option<string>) {
    Truthy(v) && (LooselyOne(v.value) || v.value == "y")
  }

  lemma AffirmativeSpellings()
    ensures Affirmative(Some("1")) && Affirmative(Some("y"))
    ensures !Affirmative(None) && !Affirmative(Some("")) && !Affirmative(Some("0"))
    ensures !Affirmative(Some("true")) && !Affirmative(Some("Y"))
  {
    assert WordNumeric("1") == Some(1) by {
      assert IsDigits("1");
    }
    assert WordNumeric("true").None? by {
      assert !IsDigit("true"[0]);
      assert "true"[..3] == "tru" && !IsDigit("tru"[0]);
    }
  }

  // ---------------------------------------------------------------------------
  // processField

  /** The state `processField` and the WHERE loop of `getSQL` change, with the warnings raised so far. */
  datatype Tally = Tally(
    bzURL: string,
    bzFieldCount: nat,
    oneValue: bool,
    added: seq<string>,
    removed: seq<string>,
    implicitParameters: map<string, string>,
    required: set<string>,
    custom: seq<string>,
    warnings: seq<string>)

  /** What the WHERE builders read besides their arguments. */
  datatype Setting = Setting(
    params: map<string, string>,
    prefixLength: Option<nat>,
    supported: seq<string>,
    titled: set<string>,
    dialect: Sql.Dialect,
    now: int,
    ymd: int -> string)
  {
    /** The custom-field rule these parameters select. */
    function Rule(): Columns.CustomRule {
      RuleOf(params, prefixLength, supported)
    }
  }

  /** The types `processField` handles; every other type yields `''` and changes nothing. */
  predicate Handled(kind: string) {
    kind == "field-id" || kind == "field" || kind == "field-filter" || kind == "field-date"
    || kind == "field-number" || kind == "field-depends"
  }

  /** The types whose value decides whether the column is shown implicitly. */
  predicate DecidesColumn(kind: string) {
    kind == "field" || kind == "field-filter" || kind == "field-date" || kind == "field-number"
  }

  predicate MultiValueChar(c: char) {
    c == ',' || c == '!' || c == '+' || c == '*' || c == '%' || c == '<' || c == '>'
  }

  /** `preg_match('/[,!+\*%<>]/', $fieldValue)`: a value that may match several bugs. */
  predicate MultiValued(value: string) {
    exists i :: 0 <= i < |value| && MultiValueChar(value[i])
  }

  /** `!strpos($fieldValue, ',')` as written: a comma at position 0 also counts as "no comma". */
  predicate OneValueAsWritten(value: string) {
    IndexOf(value, ',').None? || IndexOf(value, ',') == Some(0)
  }

  /** A value naming one bug: it holds no comma. */
  predicate OneValue(value: string) {
    ',' !in value
  }

  /** A list that starts with a comma passes the test as written. */
  lemma LeadingCommaCountsAsOne()
    ensures OneValueAsWritten(",1,2") && !OneValue(",1,2")
  {
    assert ",1,2"[0] == ',';
  }

  /** Both tests agree on every value that does not start with a comma. */
  lemma OneValueAgrees(value: string)
    requires |value| == 0 || value[0] != ','
    ensures OneValueAsWritten(value) <==> OneValue(value)
  {
  }

  /** The intended test: a value names one bug exactly when `explode` finds one piece in it. */
  lemma OneValueIsOnePiece(value: string)
    ensures OneValue(value) <==> |Split(value, ',')| == 1
  {
    SplitHead(value, ',');
  }

  /** The WHERE fragment of one field (BugzillaQuery.php:852-866). */
  function FieldWhere(column: string, value: string, kind: string, s: Setting): (r: Logged<string>)
    ensures !Handled(kind) || kind == "field-filter" ==> r == Logged("", [])
  {
    var sqlColumn := Schema.SqlColumnOf(column).GetOr(column);
    if kind == "field-id" || kind == "field" || kind == "field-depends" then Filters.WhereClause(value, sqlColumn)
    else if kind == "field-number" then Filters.IntWhereClause(value, sqlColumn)
    else if kind == "field-date" then Filters.DateWhereClause(value, sqlColumn, s.now, s.ymd)
    else Logged("", [])
  }

  /** The implicit column rule of one filtered field (BugzillaQuery.php:837-851). */
  function ColumnRule(t: Tally, column: string, value: string): (r: Tally)
    ensures MultiValued(value) ==> r.added == Columns.AddKey(t.added, column) && r.removed == t.removed
    ensures !MultiValued(value) ==> r.removed == Columns.AddKey(t.removed, column) && r.added == t.added
    ensures MultiValued(value) && Schema.DefaultOrderOf(column).Some? ==>
      r.implicitParameters == t.implicitParameters["sort" := column]["order" := Schema.DefaultOrderOf(column).value]
    ensures !(MultiValued(value) && Schema.DefaultOrderOf(column).Some?) ==> r.implicitParameters == t.implicitParameters
    ensures r.(added := t.added, removed := t.removed, implicitParameters := t.implicitParameters) == t
  {
    if MultiValued(value) then
      var r := t.(added := Columns.AddKey(t.added, column));
      match Schema.DefaultOrderOf(column)
      case Some(order) => r.(implicitParameters := r.implicitParameters["sort" := column]["order" := order])
      case None => r
    else t.(removed := Columns.AddKey(t.removed, column))
  }

  /** The name the search URL uses for a column (`fieldBZQuery`). */
  function SearchName(column: string): string {
    Schema.SearchFieldOf(column).GetOr(column)
  }

  lemma SortAndOrderSupported()
    ensures Schema.IsSupported("sort") && Schema.IsSupported("order")
  {
  }

  /** `processField`'s first step: a `field-id` value without a comma marks the report as naming one bug. */
  function OneValueStep(t: Tally, value: string, kind: string): (r: Tally)
    ensures r == t.(oneValue := t.oneValue || (kind == "field-id" && OneValueAsWritten(value)))
  {
    if kind == "field-id" && OneValueAsWritten(value) then t.(oneValue := true) else t
  }

  /** `processField`'s second step: the implicit column rule, for the types it applies to. */
  function ColumnStep(t: Tally, column: string, value: string, kind: string): (r: Tally)
    ensures !DecidesColumn(kind) ==> r == t
  {
    if DecidesColumn(kind) then ColumnRule(t, column, value) else t
  }

  /** `processField`'s last step: the WHERE builder's warnings, the required field and the search URL. */
  function RecordStep(t: Tally, column: string, value: string, kind: string, s: Setting): (r: Tally)
    ensures r.required == t.required + {column}
    ensures r.warnings == t.warnings + FieldWhere(column, value, kind, s).warnings
    ensures (r.bzURL, r.bzFieldCount) == (t.bzURL + SearchUrl.BzQuery(value, SearchName(column), t.bzFieldCount).0,
      SearchUrl.BzQuery(value, SearchName(column), t.bzFieldCount).1)
    ensures r.(bzURL := t.bzURL, bzFieldCount := t.bzFieldCount, required := t.required, warnings := t.warnings) == t
  {
    var w := FieldWhere(column, value, kind, s);
    var bz := SearchUrl.BzQuery(value, SearchName(column), t.bzFieldCount);
    t.(warnings := t.warnings + w.warnings, required := t.required + {column},
       bzURL := t.bzURL + bz.0, bzFieldCount := bz.1)
  }

  /** `processField`'s effect on the state (BugzillaQuery.php:824-885). */
  function FieldEffect(t: Tally, column: string, value: string, kind: string, s: Setting): (r: Tally)
    ensures !Handled(kind) ==> r == t
    ensures Handled(kind) ==> r.required == t.required + {column}
    ensures r.bzFieldCount >= t.bzFieldCount
    ensures Handled(kind) ==> r.bzURL == t.bzURL + SearchUrl.BzQuery(value, SearchName(column), t.bzFieldCount).0
    ensures Handled(kind) ==> r.oneValue == (t.oneValue || (kind == "field-id" && OneValueAsWritten(value)))
    ensures !DecidesColumn(kind) ==> r.added == t.added && r.removed == t.removed && r.implicitParameters == t.implicitParameters
    ensures r.custom == t.custom
    ensures r.warnings == t.warnings + FieldWhere(column, value, kind, s).warnings
  {
    if !Handled(kind) then t
    else
      SearchUrl.CounterAdvances(value, SearchName(column), t.bzFieldCount);
      RecordStep(ColumnStep(OneValueStep(t, value, kind), column, value, kind), column, value, kind, s)
  }

  /** A handled field with a usable value always moves the search counter on. */
  lemma FieldAdvancesCounter(t: Tally, column: string, value: string, kind: string, s: Setting)
    requires Handled(kind) && !SearchUrl.Unsupported(value)
    ensures FieldEffect(t, column, value, kind, s).bzFieldCount > t.bzFieldCount
  {
    SearchUrl.CounterAdvances(value, SearchName(column), t.bzFieldCount);
  }

  /** A multi-valued filter shows its column and takes the column's default sort; a single value hides it. */
  lemma FilteredColumnShownIffMultiValued(t: Tally, column: string, value: string, kind: string, s: Setting)
    requires DecidesColumn(kind)
    ensures var r := FieldEffect(t, column, value, kind, s);
      (MultiValued(value) ==> column in r.added && r.removed == t.removed)
      && (!MultiValued(value) ==> column in r.removed && r.added == t.added)
      && (MultiValued(value) && Schema.DefaultOrderOf(column).Some? ==>
            r.implicitParameters["sort"] == column && r.implicitParameters["order"] == Schema.DefaultOrderOf(column).value)
  {
  }

  // ---------------------------------------------------------------------------
  // The WHERE loop of getSQL

  /** The rule `isCustomField` applies, from the store and the cached prefix length. */
  function RuleOf(params: map<string, string>, prefixLength: Option<nat>, supported: seq<string>): Columns.CustomRule {
    Columns.CustomRule("implicitcustom" in params && params["implicitcustom"] == "true",
      if "customprefix" in params then params["customprefix"] else "cf_", prefixLength, supported)
  }

  /** The rule reads `implicitcustom` and `customprefix` through `get`, defaults included. */
  lemma RuleOfReadsParameters(params: map<string, string>, prefixLength: Option<nat>, supported: seq<string>)
    ensures RuleOf(params, prefixLength, supported).implicitCustom <==> Parameter(params, "implicitcustom") == Some("true")
    ensures RuleOf(params, prefixLength, supported).prefix == OrEmpty(Parameter(params, "customprefix"))
  {
    assert Schema.IsSupported("implicitcustom") && Schema.DefaultOf("implicitcustom") == Some("false");
    assert Schema.IsSupported("customprefix") && Schema.DefaultOf("customprefix") == Some("cf_");
  }

  function NotFieldWarning(column: string): string {
    column + " is not of type field so ignoring"
  }

  function BadFilterWarning(arg: string): string {
    "arg field not a valid format so ignoring , it should include '%3D', it was " + arg
  }

  /** A filter argument's column and value: a custom field counts as a plain field (BugzillaQuery.php:440-455). */
  function FilterFieldEffect(t: Tally, column: string, value: string, s: Setting): (r: (Tally, string))
    ensures !Columns.IsCustomFieldAsWritten(s.Rule(), s.titled, column) && Prefix(Schema.TypeOf(column).GetOr(""), 5) != "field"
      ==> r == (t.(warnings := t.warnings + [NotFieldWarning(column)]), "")
  {
    var custom := Columns.IsCustomFieldAsWritten(s.Rule(), s.titled, column);
    var t1 := if custom then t.(custom := t.custom + [column]) else t;
    var kind := if custom then "field" else Schema.TypeOf(column).GetOr("");
    if Prefix(kind, 5) != "field" then (t1.(warnings := t1.warnings + [NotFieldWarning(column)]), "")
    else (FieldEffect(t1, column, value, kind, s), FieldWhere(column, value, kind, s).value)
  }

  /** One `name%3Dvalue` argument of `filters` (BugzillaQuery.php:434-457). */
  function FilterArgEffect(t: Tally, arg: string, s: Setting): (r: (Tally, string))
    ensures !Contains(arg, "%3D") ==> r == (t.(warnings := t.warnings + [BadFilterWarning(arg)]), "")
  {
    if Contains(arg, "%3D") then
      var parts := Explode(arg, "%3D");
      FilterFieldEffect(t, parts[0], parts[1], s)
    else (t.(warnings := t.warnings + [BadFilterWarning(arg)]), "")
  }

  /** The arguments of `filters`, in order; the WHERE fragments are concatenated. */
  function FilterArgs(t: Tally, args: seq<string>, s: Setting): (Tally, string) {
    if args == [] then (t, "")
    else
      var (t1, w1) := FilterArgs(t, args[..|args| - 1], s);
      var (t2, w2) := FilterArgEffect(t1, args[|args| - 1], s);
      (t2, w1 + w2)
  }

  lemma FilterLoopStep(t0: Tally, args: seq<string>, i: nat, s: Setting, before: (Tally, string), after: Tally, clause: string)
    requires i < |args| && before == FilterArgs(t0, args[..i], s)
    requires (after, clause) == FilterArgEffect(before.0, args[i], s)
    ensures (after, before.1 + clause) == FilterArgs(t0, args[..i + 1], s)
  {
    var next := args[..i + 1];
    assert next[..|next| - 1] == args[..i] && next[|next| - 1] == args[i];
  }

  /** The head of the keyword subquery; the field's own clause and `)` follow. */
  function KeywordsOpen(d: Sql.Dialect): string {
    "AND EXISTS (SELECT keywordid,keywords.bug_id FROM " + Sql.Table(d, "keywords") + " AS keywords "
    + " LEFT JOIN " + Sql.Table(d, "keyworddefs") + " AS keyworddefs "
    + " ON keywords.keywordid=keyworddefs.id " + " WHERE keywords.bug_id=bugs.bug_id "
  }

  /** One supported parameter in the WHERE loop (BugzillaQuery.php:424-471). */
  function ParameterEffect(t: Tally, name: string, s: Setting): (r: (Tally, string))
    ensures !Truthy(Parameter(s.params, name)) ==> r == (t, "")
  {
    var v := Parameter(s.params, name);
    if !Truthy(v) then (t, "")
    else
      var kind := Schema.TypeOf(name).GetOr("");
      if kind == "filters" then FilterArgs(t, Explode(v.value, "%26"), s)
      else FieldParameterEffect(t, name, v.value, kind, s)
  }

  /** A parameter of any type but `filters`: keywords go through a subquery, anything else is `processField` (BugzillaQuery.php:459-469). */
  function FieldParameterEffect(t: Tally, name: string, value: string, kind: string, s: Setting): (Tally, string) {
    if kind == "field-keywords" then
      (FieldEffect(t, name, value, "field", s), KeywordsOpen(s.dialect) + FieldWhere(name, value, "field", s).value + ")")
    else (FieldEffect(t, name, value, kind, s), FieldWhere(name, value, kind, s).value)
  }

  /** The supported parameters in declaration order; the WHERE fragments are concatenated. */
  function ParametersEffect(t: Tally, names: seq<string>, s: Setting): (Tally, string) {
    if names == [] then (t, "")
    else
      var (t1, w1) := ParametersEffect(t, names[..|names| - 1], s);
      var (t2, w2) := ParameterEffect(t1, names[|names| - 1], s);
      (t2, w1 + w2)
  }

  /** `r` extends `t`: the required set grows, warnings are appended and the counter never decreases. */
  predicate Extends(t: Tally, r: Tally) {
    t.required <= r.required && r.bzFieldCount >= t.bzFieldCount
    && |t.warnings| <= |r.warnings| && r.warnings[..|t.warnings|] == t.warnings
  }

  lemma ExtendsTransitive(a: Tally, b: Tally, c: Tally)
    requires Extends(a, b) && Extends(b, c)
    ensures Extends(a, c)
  {
    assert c.warnings[..|a.warnings|] == c.warnings[..|b.warnings|][..|a.warnings|];
  }

  lemma ParametersLoopStep(t0: Tally, names: seq<string>, i: nat, s: Setting, before: (Tally, string), after: Tally, clause: string)
    requires i < |names| && before == ParametersEffect(t0, names[..i], s)
    requires (after, clause) == ParameterEffect(before.0, names[i], s)
    ensures (after, before.1 + clause) == ParametersEffect(t0, names[..i + 1], s)
  {
    var next := names[..i + 1];
    assert next[..|next| - 1] == names[..i] && next[|next| - 1] == names[i];
  }

  /** The WHERE loop only adds to the state. */
  lemma {:induction false} ParametersOnlyAdd(t: Tally, names: seq<string>, s: Setting)
    ensures Extends(t, ParametersEffect(t, names, s).0)
    decreases |names|
  {
    if names != [] {
      var init := names[..|names| - 1];
      ParametersOnlyAdd(t, init, s);
      var t1 := ParametersEffect(t, init, s).0;
      ParameterOnlyAdds(t1, names[|names| - 1], s);
      ExtendsTransitive(t, t1, ParametersEffect(t, names, s).0);
    }
  }

  lemma ParameterOnlyAdds(t: Tally, name: string, s: Setting)
    ensures Extends(t, ParameterEffect(t, name, s).0)
  {
    var v := Parameter(s.params, name);
    if Truthy(v) {
      var kind := Schema.TypeOf(name).GetOr("");
      if kind == "filters" {
        FilterArgsOnlyAdd(t, Explode(v.value, "%26"), s);
      } else {
        FieldParameterOnlyAdds(t, name, v.value, kind, s);
      }
    }
  }

  lemma FieldParameterOnlyAdds(t: Tally, name: string, value: string, kind: string, s: Setting)
    ensures Extends(t, FieldParameterEffect(t, name, value, kind, s).0)
  {
  }

  lemma FilterArgOnlyAdds(t: Tally, arg: string, s: Setting)
    ensures Extends(t, FilterArgEffect(t, arg, s).0)
  {
    if Contains(arg, "%3D") {
      var parts := Explode(arg, "%3D");
      FilterFieldOnlyAdds(t, parts[0], parts[1], s);
    }
  }

  lemma FilterFieldOnlyAdds(t: Tally, column: string, value: string, s: Setting)
    ensures Extends(t, FilterFieldEffect(t, column, value, s).0)
  {
    var custom := Columns.IsCustomFieldAsWritten(s.Rule(), s.titled, column);
    var t1 := if custom then t.(custom := t.custom + [column]) else t;
    var kind := if custom then "field" else Schema.TypeOf(column).GetOr("");
    if Prefix(kind, 5) == "field" {
      assert Extends(t1, FieldEffect(t1, column, value, kind, s));
    }
  }

  lemma {:induction false} FilterArgsOnlyAdd(t: Tally, args: seq<string>, s: Setting)
    ensures Extends(t, FilterArgs(t, args, s).0)
    decreases |args|
  {
    if args != [] {
      var init := args[..|args| - 1];
      FilterArgsOnlyAdd(t, init, s);
      var t1 := FilterArgs(t, init, s).0;
      FilterArgOnlyAdds(t1, args[|args| - 1], s);
      ExtendsTransitive(t, t1, FilterArgs(t, args, s).0);
    }
  }


  /** An argument `name%3Dvalue` whose name holds no `%` is split right after the name. */
  lemma ExplodeAtFirst(column: string, value: string)
    requires '%' !in column
    ensures Contains(column + "%3D" + value, "%3D")
    ensures var parts := Explode(column + "%3D" + value, "%3D");
      |parts| >= 2 && parts[0] == column && parts[1] == Explode(value, "%3D")[0]
  {
    var s := column + "%3D" + value;
    assert OccursAt(s, "%3D", |column|) by {
      assert s[|column|..|column| + 3] == "%3D";
    }
    FindContains(s, "%3D");
    var i := Find(s, "%3D").value;
    assert forall j :: 0 <= j < |column| ==> s[j] != '%' by {
      assert forall j :: 0 <= j < |column| ==> s[j] == column[j];
    }
    assert s[i..i + 3] == "%3D";
    assert s[i] == s[i..i + 3][0] == '%';
    assert i == |column|;
    assert s[..i] == column;
    assert s[i + 3..] == value;
  }

  /** A filter naming a parameter that is neither custom nor of a field type is ignored with one warning. */
  lemma NonFieldFilterIgnored(t: Tally, column: string, value: string, s: Setting)
    requires '%' !in column && !Columns.IsCustomFieldAsWritten(s.Rule(), s.titled, column)
    requires Prefix(Schema.TypeOf(column).GetOr(""), 5) != "field"
    ensures FilterArgEffect(t, column + "%3D" + value, s) == (t.(warnings := t.warnings + [NotFieldWarning(column)]), "")
  {
    ExplodeAtFirst(column, value);
  }

  /** A filter on a custom field is processed as a plain field, and the field is recorded as a required custom field. */
  lemma CustomFilterIsField(t: Tally, column: string, value: string, s: Setting)
    requires '%' !in column && '%' !in value && Columns.IsCustomFieldAsWritten(s.Rule(), s.titled, column)
    ensures var r := FilterArgEffect(t, column + "%3D" + value, s);
      r.0 == FieldEffect(t.(custom := t.custom + [column]), column, value, "field", s)
      && r.1 == FieldWhere(column, value, "field", s).value
  {
    ExplodeAtFirst(column, value);
    NoPercentNoSeparator(value);
    var arg := column + "%3D" + value;
    assert Explode(arg, "%3D")[0] == column && Explode(arg, "%3D")[1] == value;
  }

  lemma NoPercentNoSeparator(value: string)
    requires '%' !in value
    ensures !Contains(value, "%3D")
  {
    forall k: nat | k <= |value|
      ensures !OccursAt(value, "%3D", k)
    {
      if k + 3 <= |value| {
        assert value[k..k + 3][0] == value[k];
      }
    }
  }

  // ---------------------------------------------------------------------------
  // Columns

  /** `implictlyAddColumn` for each name in turn. */
  function AddKeys(keys: seq<string>, names: seq<string>): seq<string> {
    if names == [] then keys
    else Columns.AddKey(AddKeys(keys, names[..|names| - 1]), names[|names| - 1])
  }

  /** The keys afterwards are the keys before and the names added, the old keys first and in their order. */
  lemma {:induction false} AddKeysMembers(keys: seq<string>, names: seq<string>)
    ensures forall x :: x in AddKeys(keys, names) <==> x in keys || x in names
    ensures |keys| <= |AddKeys(keys, names)| && AddKeys(keys, names)[..|keys|] == keys
    decreases |names|
  {
    if names != [] {
      var init := names[..|names| - 1];
      AddKeysMembers(keys, init);
      assert names == init + [names[|names| - 1]];
      var r := AddKeys(keys, names);
      assert r[..|keys|] == r[..|AddKeys(keys, init)|][..|keys|];
    }
  }

  /** Adding one more name is one more `implictlyAddColumn`. */
  lemma AddKeysSnoc(keys: seq<string>, names: seq<string>, x: string)
    ensures AddKeys(keys, names + [x]) == Columns.AddKey(AddKeys(keys, names), x)
  {
    assert (names + [x])[..|names|] == names;
  }

  /** Three implicit additions in a row. */
  lemma AddKeysThree(keys: seq<string>, a: string, b: string, c: string)
    ensures AddKeys(keys, [a, b, c]) == Columns.AddKey(Columns.AddKey(Columns.AddKey(keys, a), b), c)
  {
    AddKeysSnoc(keys, [], a);
    assert [] + [a] == [a];
    AddKeysSnoc(keys, [a], b);
    assert [a] + [b] == [a, b];
    AddKeysSnoc(keys, [a, b], c);
    assert [a, b] + [c] == [a, b, c];
  }

  /**
   * An explicit `columns` value (BSQLQuery.php:1030-1125): a signed value
   * edits the default list, any other lists the columns outright. Returns
   * the columns and the bookkeeping after it.
   */
  function ExplicitColumns(value: string, defaultColumns: seq<string>, start: Columns.Edit, rule: Columns.CustomRule)
    : (seq<string>, Columns.Edit)
  {
    match Columns.SignedMatch(value)
    case Some((add, rest)) =>
      var e := Columns.EditAll(start.(base := defaultColumns), Split(rest, ','), add, rule);
      (Columns.EditedColumns(e), e)
    case None =>
      var (cols, titles, custom) := Columns.ListAll(start.titles, start.custom, Split(value, ','), rule);
      (cols, start.(titles := titles, custom := custom))
  }

  /** `getColumns` when nothing is cached (BSQLQuery.php:1029-1132); without an explicit value the implicit rules apply to the default list. */
  function ResolveColumns(explicit: Option<string>, defaultColumns: string, start: Columns.Edit, rule: Columns.CustomRule)
    : (seq<string>, Columns.Edit)
  {
    if Truthy(explicit) then ExplicitColumns(explicit.value, Split(defaultColumns, ','), start, rule)
    else (Columns.ApplyImplicit(Split(defaultColumns, ','), start.added, start.removed), start)
  }

  /** A signed value edits: no column twice, every column it adds is shown, and a shown base column was not removed. */
  lemma EditedColumnsShown(value: string, defaultColumns: seq<string>, start: Columns.Edit, rule: Columns.CustomRule)
    requires Columns.SignedMatch(value).Some?
    ensures var r := ExplicitColumns(value, defaultColumns, start, rule);
      NoDuplicates(r.0) && (forall c :: c in r.1.appended ==> c in r.0)
      && (forall c :: c in r.0 && c !in r.1.appended ==> c !in r.1.removed)
  {
    var (add, rest) := Columns.SignedMatch(value).value;
    var e := Columns.EditAll(start.(base := defaultColumns), Split(rest, ','), add, rule);
    assert ExplicitColumns(value, defaultColumns, start, rule) == (Columns.EditedColumns(e), e);
    Columns.EditedColumnsMembers(e);
  }

  /** An unsigned value lists its entries' names in order, and leaves the implicit columns and warnings alone. */
  lemma ListedColumnsInOrder(value: string, defaultColumns: seq<string>, start: Columns.Edit, rule: Columns.CustomRule)
    requires Columns.SignedMatch(value).None?
    ensures var r := ExplicitColumns(value, defaultColumns, start, rule);
      var entries := Split(value, ',');
      r.1.added == start.added && r.1.removed == start.removed && r.1.warnings == start.warnings
      && |r.0| == |entries| && forall i :: 0 <= i < |entries| ==> r.0[i] == Columns.NameAndTitle(entries[i]).0
  {
    var (cols, titles, custom) := Columns.ListAll(start.titles, start.custom, Split(value, ','), rule);
    assert ExplicitColumns(value, defaultColumns, start, rule) == (cols, start.(titles := titles, custom := custom));
    Columns.ListAllNames(start.titles, start.custom, Split(value, ','), rule);
  }

  /** Without an explicit value the bookkeeping is untouched, and the columns are the default and added ones less the removed. */
  lemma DefaultColumnsImplicit(defaultColumns: string, start: Columns.Edit, rule: Columns.CustomRule, explicit: Option<string>)
    requires !Truthy(explicit)
    ensures var r := ResolveColumns(explicit, defaultColumns, start, rule);
      r.1 == start && forall c :: c in r.0 <==> (c in Split(defaultColumns, ',') || c in start.added) && c !in start.removed
  {
    Columns.ApplyImplicitMembers(Split(defaultColumns, ','), start.added, start.removed);
  }

  /**
   * With the default column list, `preSQLGenerate` shows the sorted columns
   * and hides the grouped ones: a grouped column is removed even when it is
   * also sorted on, and a sorted one is shown unless removed before.
   */
  lemma SortShownGroupsHidden(defaultColumns: string, start: Columns.Edit, rule: Columns.CustomRule,
                              added: seq<string>, removed: seq<string>, sortColumns: seq<string>, groups: seq<string>)
    requires start.added == AddKeys(added, sortColumns) && start.removed == AddKeys(removed, groups)
    ensures var columns := ResolveColumns(None, defaultColumns, start, rule).0;
      (forall c :: c in groups ==> c !in columns)
      && (forall c :: c in sortColumns && c !in groups && c !in removed ==> c in columns)
  {
    AddKeysMembers(added, sortColumns);
    AddKeysMembers(removed, groups);
    DefaultColumnsImplicit(defaultColumns, start, rule, None);
  }

  // ---------------------------------------------------------------------------
  // Links and formats

  /** One `link` rule `column~prefix`: the column and the format it gets (BugzillaQuery.php:328-337). */
  function LinkRule(linked: string): (r: (string, string))
    ensures StartsWith(r.1, "link")
    ensures '~' !in linked ==> r == (linked, "link")
  {
    var parts := Split(linked, '~');
    (parts[0], if |parts| > 1 then "link~" + parts[1] else "link")
  }

  /** A rule `column~prefix` links the column's values to wiki pages named after the prefix. */
  lemma LinkRuleWithPrefix(column: string, prefix: string)
    requires '~' !in column && '~' !in prefix
    ensures LinkRule(column + "~" + prefix) == (column, "link~" + prefix)
  {
    assert column + "~" + prefix == column + ['~'] + prefix;
    SplitAt(column, prefix, '~');
  }

  /** The columns the `link` rules name. */
  function LinkColumns(links: seq<string>): seq<string> {
    if links == [] then []
    else LinkColumns(links[..|links| - 1]) + [LinkRule(links[|links| - 1]).0]
  }

  /** The formats after the `link` rules, applied in order. */
  function LinkFormats(formats: map<string, string>, links: seq<string>): map<string, string> {
    if links == [] then formats
    else
      var rule := LinkRule(links[|links| - 1]);
      LinkFormats(formats, links[..|links| - 1])[rule.0 := rule.1]
  }

  /** The `link` rules add a format for each column they name and remove none. */
  lemma {:induction false} LinkFormatsKeys(formats: map<string, string>, links: seq<string>)
    ensures forall k :: k in LinkFormats(formats, links) <==> k in formats || k in LinkColumns(links)
    decreases |links|
  {
    if links != [] {
      LinkFormatsKeys(formats, links[..|links| - 1]);
    }
  }

  /** One more `link` rule: its column gets its format and is added implicitly. */
  lemma LinkRulesStep(formats: map<string, string>, added: seq<string>, links: seq<string>, i: nat)
    requires i < |links|
    ensures var rule := LinkRule(links[i]);
      LinkFormats(formats, links[..i + 1]) == LinkFormats(formats, links[..i])[rule.0 := rule.1]
      && AddKeys(added, LinkColumns(links[..i + 1])) == Columns.AddKey(AddKeys(added, LinkColumns(links[..i])), rule.0)
  {
    var next := links[..i + 1];
    assert next[..i] == links[..i] && next[i] == links[i];
    var init := LinkColumns(links[..i]);
    var columns := init + [LinkRule(links[i]).0];
    assert LinkColumns(next) == columns;
    assert columns[..|columns| - 1] == init;
  }

  /** The last rule that names a column decides its format. */
  lemma {:induction false} LastLinkRuleWins(formats: map<string, string>, links: seq<string>, i: nat)
    requires i < |links|
    requires forall j :: i < j < |links| ==> LinkRule(links[j]).0 != LinkRule(links[i]).0
    ensures var rule := LinkRule(links[i]);
      rule.0 in LinkFormats(formats, links) && LinkFormats(formats, links)[rule.0] == rule.1
    decreases |links|
  {
    if i < |links| - 1 {
      var init := links[..|links| - 1];
      assert forall j :: i < j < |init| ==> init[j] == links[j];
      assert init[i] == links[i];
      LastLinkRuleWins(formats, init, i);
    }
  }

  /** A column that no rule names keeps its format. */
  lemma {:induction false} UnlinkedFormatKept(formats: map<string, string>, links: seq<string>, column: string)
    requires column in formats && column !in LinkColumns(links)
    ensures column in LinkFormats(formats, links) && LinkFormats(formats, links)[column] == formats[column]
    decreases |links|
  {
    if links != [] {
      var init := links[..|links| - 1];
      assert LinkColumns(links) == LinkColumns(init) + [LinkRule(links[|links| - 1]).0];
      UnlinkedFormatKept(formats, init, column);
    }
  }

  /** The keyword link `lastcomment` sets unless the keywords already have a format (BugzillaQuery.php:341-346). */
  function KeywordFormat(formats: map<string, string>): map<string, string> {
    if "keywords" in formats then formats else formats["keywords" := "link~keyword"]
  }

  /** The formats once `render` has applied the `link` rules and the keyword link of `lastcomment` (BugzillaQuery.php:327-347). */
  function RenderFormats(formats: map<string, string>, link: Option<string>, lastcomment: Option<string>): map<string, string> {
    var linked := if Truthy(link) then LinkFormats(formats, Split(link.value, ',')) else formats;
    if Truthy(lastcomment) then KeywordFormat(linked) else linked
  }

  /** The keywords always get a format; one already given is kept, and no other format changes. */
  lemma KeywordFormatKeeps(formats: map<string, string>)
    ensures var r := KeywordFormat(formats);
      "keywords" in r && r.Keys == formats.Keys + {"keywords"}
      && ("keywords" in formats ==> r == formats)
      && ("keywords" !in formats ==> r["keywords"] == "link~keyword")
      && forall k :: k in formats ==> r[k] == formats[k]
  {
  }

  /** `overrideFormats`: `modifiedformat` and `createdformat` replace those columns' formats (BugzillaQuery.php:1010-1021). */
  function OverriddenFormats(formats: map<string, string>, modified: Option<string>, created: Option<string>)
    : (r: map<string, string>)
    ensures Truthy(modified) ==> "modified" in r && r["modified"] == modified.value
    ensures Truthy(created) ==> "created" in r && r["created"] == created.value
    ensures forall k :: (k in formats && (k != "modified" || !Truthy(modified)) && (k != "created" || !Truthy(created))
      ==> k in r && r[k] == formats[k])
    ensures r.Keys == formats.Keys + (if Truthy(modified) then {"modified"} else {}) + (if Truthy(created) then {"created"} else {})
  {
    var m := if Truthy(modified) then formats["modified" := modified.value] else formats;
    if Truthy(created) then m["created" := created.value] else m
  }

  /** The search term of `search`, spliced into the WHERE clause as written (BugzillaQuery.php:489-491). */
  function SearchClause(search: Option<string>): (r: string)
    ensures !Truthy(search) ==> r == ""
    ensures Truthy(search) ==> StartsWith(r, " AND short_desc LIKE '%") && EndsWith(r, "%'")
  {
    if Truthy(search) then
      var r := " AND short_desc LIKE '%" + search.value + "%'";
      assert r[..|" AND short_desc LIKE '%"|] == " AND short_desc LIKE '%";
      assert r[|r| - 2..] == "%'";
      r
    else ""
  }

  predicate EndsWith(s: string, suffix: string) {
    |suffix| <= |s| && s[|s| - |suffix|..] == suffix
  }

  /** The elements of a list, as a set. */
  function Members(s: seq<string>): set<string> {
    set x | x in s
  }

  /** The first occurrence found by a scan is the one `FirstIndex` names. */
  lemma FirstIndexAt(s: seq<string>, x: string, i: nat)
    requires i < |s| && s[i] == x && x !in s[..i]
    ensures Columns.FirstIndex(s, x) == Some(i)
  {
  }

  // ---------------------------------------------------------------------------
  // The query object

  class BugzillaQuery {
    /** `$parameters`: explicitly set values. */
    var parameters: map<string, string>
    /** `$implicitParameters`: values derived from other parameters. */
    var implicitParameters: map<string, string>
    /** `$cache`: the first computed sort, order, group and group order. */
    var cache: map<string, string>
    /** `$fieldsRequired`: the fields the SQL fetches. */
    var fieldsRequired: set<string>
    /** The keys of `$implicityAddedColumns` and `$implicityRemovedColumns`, in insertion order. */
    var implicitlyAdded: seq<string>
    var implicitlyRemoved: seq<string>
    /** `$columnName`: column headings. */
    var columnName: map<string, string>
    /** `$formats`: the rendering format of each column. */
    var formats: map<string, string>
    /** `$columnsToRender`: the computed column list, empty until computed. */
    var columnsToRender: seq<string>
    var bzURL: string
    var bzFieldCount: nat
    var explicitlyOneValue: bool
    var supportedCustomFields: seq<string>
    var requiredCustomFields: seq<string>
    /** `$customPrefixLength`: unset until rendering starts. */
    var customPrefixLength: Option<nat>

    /** The extension object: warnings and site settings. */
    const context: Context
    /** The connector's dialect, for `getTable`. */
    const dialect: Sql.Dialect
    /** `$fieldIds`, read from the database before the SQL is built. */
    const fieldIds: map<string, string>
    /** The clock reading and the date rendering the date filters use. */
    const now: int
    const ymd: int -> string

    ghost predicate Valid()
      reads context`warnings, context`messages
    {
      context.Valid()
    }

    constructor (context: Context, dialect: Sql.Dialect, fieldIds: map<string, string>, now: int, ymd: int -> string)
      ensures this.context == context && this.dialect == dialect && this.fieldIds == fieldIds
      ensures this.now == now && this.ymd == ymd
      ensures parameters == map[] && implicitParameters == map[] && cache == map[] && fieldsRequired == {}
      ensures implicitlyAdded == [] && implicitlyRemoved == [] && columnsToRender == []
      ensures columnName == Schema.InitialColumnNames && formats == Schema.InitialFormats
      ensures bzURL == "" && bzFieldCount == 0 && !explicitlyOneValue
      ensures supportedCustomFields == [] && requiredCustomFields == [] && customPrefixLength.None?
    {
      parameters := map[];
      implicitParameters := map[];
      cache := map[];
      fieldsRequired := {};
      implicitlyAdded := [];
      implicitlyRemoved := [];
      columnName := Schema.InitialColumnNames;
      formats := Schema.InitialFormats;
      columnsToRender := [];
      bzURL := "";
      bzFieldCount := 0;
      explicitlyOneValue := false;
      supportedCustomFields := [];
      requiredCustomFields := [];
      customPrefixLength := None;
      this.context := context;
      this.dialect := dialect;
      this.fieldIds := fieldIds;
      this.now := now;
      this.ymd := ymd;
    }

    // -------------------------------------------------------------------------
    // The store

    /** `get` without its warning, for the supported names the query itself reads. */
    function Lookup(name: string): Option<string>
      reads this`parameters
    {
      Parameter(parameters, name)
    }

    function Explicit(name: string): Option<string>
      reads this`parameters
    {
      if Schema.IsSupported(name) && name in parameters then Some(parameters[name]) else None
    }

    function Implicit(name: string): Option<string>
      reads this`implicitParameters
    {
      if Schema.IsSupported(name) && name in implicitParameters then Some(implicitParameters[name]) else None
    }

    function Default(name: string): Option<string> {
      if Schema.IsSupported(name) then Schema.DefaultOf(name) else None
    }

    /** `set` (BSQLQuery.php:92-109). */
    method Set(name: string, value: string)
      requires Valid()
      modifies this`parameters, context`warnings, context`messages
      ensures Valid()
      ensures parameters == old(StoreParameter(parameters, name, value)).value
      ensures context.messages == old(context.messages) + old(StoreParameter(parameters, name, value)).warnings
    {
      var t := Schema.TypeOf(name);
      if t.Some? {
        if t == Some("field") || t == Some("columns") {
          var tidied := Validation.TidyCommaSeparated(value);
          parameters := parameters[name := tidied];
        } else {
          parameters := parameters[name := value];
        }
      } else {
        context.Warn(SetWarning(name));
      }
    }

    /** `setImplicit` (BSQLQuery.php:177-185). */
    method SetImplicit(name: string, value: string)
      requires Valid()
      modifies this`implicitParameters, context`warnings, context`messages
      ensures Valid()
      ensures Schema.IsSupported(name) ==>
        implicitParameters == old(implicitParameters)[name := value] && context.messages == old(context.messages)
      ensures !Schema.IsSupported(name) ==>
        implicitParameters == old(implicitParameters) && context.messages == old(context.messages) + [SetWarning(name)]
    {
      if Schema.IsSupported(name) {
        implicitParameters := implicitParameters[name := value];
      } else {
        context.Warn(SetWarning(name));
      }
    }

    /** `get` (BSQLQuery.php:193-208). */
    method Get(name: string) returns (value: Option<string>)
      requires Valid()
      modifies context`warnings, context`messages
      ensures Valid()
      ensures value == Lookup(name)
      ensures context.messages == old(context.messages)
        + (if Schema.IsSupported(name) then [] else ["Getting parameter " + name + " is not supported"])
    {
      if Schema.IsSupported(name) {
        value := if name in parameters then Some(parameters[name]) else Schema.DefaultOf(name);
      } else {
        context.Warn("Getting parameter " + name + " is not supported");
        value := None;
      }
    }

    /** `getImplicit` (BSQLQuery.php:239-250). */
    method GetImplicit(name: string) returns (value: Option<string>)
      requires Valid()
      modifies context`warnings, context`messages
      ensures Valid()
      ensures value == Implicit(name)
      ensures context.messages == old(context.messages)
        + (if Schema.IsSupported(name) then [] else ["Getting implicit parameter " + name + " is not supported"])
    {
      if Schema.IsSupported(name) {
        value := if name in implicitParameters then Some(implicitParameters[name]) else None;
      } else {
        context.Warn("Getting implicit parameter " + name + " is not supported");
        value := None;
      }
    }

    /** `getExplicit` (BSQLQuery.php:259-270). */
    method GetExplicit(name: string) returns (value: Option<string>)
      requires Valid()
      modifies context`warnings, context`messages
      ensures Valid()
      ensures value == Explicit(name)
      ensures context.messages == old(context.messages)
        + (if Schema.IsSupported(name) then [] else ["Getting explicit parameter " + name + " is not supported"])
    {
      if Schema.IsSupported(name) {
        value := if name in parameters then Some(parameters[name]) else None;
      } else {
        context.Warn("Getting explicit parameter " + name + " is not supported");
        value := None;
      }
    }

    /** `getDefault` (BSQLQuery.php:278-289). */
    method GetDefault(name: string) returns (value: Option<string>)
      requires Valid()
      modifies context`warnings, context`messages
      ensures Valid()
      ensures value == Default(name)
      ensures context.messages == old(context.messages)
        + (if Schema.IsSupported(name) then [] else ["Getting default parameter " + name + " is not supported"])
    {
      if Schema.IsSupported(name) {
        value := Schema.DefaultOf(name);
      } else {
        context.Warn("Getting default parameter " + name + " is not supported");
        value := None;
      }
    }

    /** `is` (BSQLQuery.php:216-229). */
    predicate Is(name: string)
      reads this`parameters
    {
      Affirmative(Lookup(name))
    }

    /** `requireField` (BSQLQuery.php:298-302). */
    method RequireField(column: string)
      modifies this`fieldsRequired
      ensures fieldsRequired == old(fieldsRequired) + {column}
    {
      fieldsRequired := fieldsRequired + {column};
    }

    /** `isRequired` (BSQLQuery.php:310-316). */
    predicate IsRequired(column: string)
      reads this`fieldsRequired
    {
      column in fieldsRequired
    }

    // -------------------------------------------------------------------------
    // Memoised sort settings (BSQLQuery.php:859-997)

    /** The cached value of `key`, else what would be computed now. */
    function Memo(key: string, computed: string): string
      reads this`cache
    {
      if key in cache then cache[key] else computed
    }

    function ResolvedGroup(): string
      reads this`parameters, this`implicitParameters
    {
      OrEmpty(Sorting.Resolve(Explicit("group"), Implicit("group"), None))
    }

    function ResolvedGroupOrder(): string
      reads this`parameters, this`implicitParameters
    {
      Sorting.Direction(Sorting.Resolve(Explicit("grouporder"), Implicit("grouporder"), Default("grouporder")))
    }

    function ResolvedOrder(): string
      reads this`parameters, this`implicitParameters
    {
      Sorting.Direction(Sorting.Resolve(Explicit("order"), Implicit("order"), Default("order")))
    }

    /** What `getGroup` returns now: the cached group, else the resolved one. */
    function CurrentGroup(): string
      reads this`parameters, this`implicitParameters, this`cache
    {
      Memo("group", ResolvedGroup())
    }

    function CurrentGroupOrder(): string
      reads this`parameters, this`implicitParameters, this`cache
    {
      Memo("grouporder", ResolvedGroupOrder())
    }

    function CurrentOrder(): string
      reads this`parameters, this`implicitParameters, this`cache
    {
      Memo("order", ResolvedOrder())
    }

    /** What `getSort` computes: the resolved sort, after the cached group and its direction when a group is set. */
    function ResolvedSort(): string
      reads this`parameters, this`implicitParameters, this`cache
    {
      Sorting.SortWithGroup(OrEmpty(Sorting.Resolve(Explicit("sort"), Implicit("sort"), Default("sort"))),
        CurrentGroup(), CurrentGroupOrder())
    }

    /** What `getSort` returns now: the cached sort, else the resolved one. */
    function CurrentSort(): string
      reads this`parameters, this`implicitParameters, this`cache
    {
      Memo("sort", ResolvedSort())
    }

    /** The cache after `getSort` computes the sort: the group, its direction when a group is set, then the sort. */
    function CacheAfterSort(): map<string, string>
      reads this`parameters, this`implicitParameters, this`cache
    {
      var withGroup := cache["group" := CurrentGroup()];
      var withOrder :=
        if TruthyStr(withGroup["group"]) then withGroup["grouporder" := CurrentGroupOrder()]
        else withGroup;
      withOrder["sort" := ResolvedSort()]
    }

    /** `getGroup`: an unset group is cached as the empty string, PHP's `false`. */
    method GetGroup() returns (group: string)
      modifies this`cache
      ensures group == old(CurrentGroup())
      ensures cache == old(cache)["group" := group]
    {
      if "group" !in cache {
        var resolved := OrEmpty(Sorting.Resolve(Explicit("group"), Implicit("group"), None));
        cache := cache["group" := resolved];
      }
      group := cache["group"];
    }

    method GetGroupOrder() returns (order: string)
      modifies this`cache
      ensures order == old(CurrentGroupOrder())
      ensures cache == old(cache)["grouporder" := order]
    {
      if "grouporder" !in cache {
        var resolved := Sorting.Resolve(Explicit("grouporder"), Implicit("grouporder"), Default("grouporder"));
        cache := cache["grouporder" := if resolved == Some("desc") then "DESC" else "ASC"];
      }
      order := cache["grouporder"];
    }

    method GetOrder() returns (order: string)
      modifies this`cache
      ensures order == old(CurrentOrder())
      ensures cache == old(cache)["order" := order]
    {
      if "order" !in cache {
        var resolved := Sorting.Resolve(Explicit("order"), Implicit("order"), Default("order"));
        cache := cache["order" := if resolved == Some("desc") then "DESC" else "ASC"];
      }
      order := cache["order"];
    }

    method GetSort() returns (sort: string)
      modifies this`cache
      ensures sort == old(CurrentSort())
      ensures cache == old(if "sort" in cache then cache else CacheAfterSort())
      ensures CurrentGroup() == old(CurrentGroup())
    {
      if "sort" !in cache {
        var resolved := OrEmpty(Sorting.Resolve(Explicit("sort"), Implicit("sort"), Default("sort")));
        var group := GetGroup();
        if TruthyStr(group) {
          var groupOrder := GetGroupOrder();
          resolved := group + " " + groupOrder + "," + resolved;
        }
        cache := cache["sort" := resolved];
      }
      sort := cache["sort"];
    }

    /** Once computed, the order is fixed: later changes to the parameters do not reach it. */
    method OrderFixedOnFirstUse(name: string, value: string) returns (first: string, second: string)
      requires Valid()
      modifies this`cache, this`parameters, this`implicitParameters, context`warnings, context`messages
      ensures Valid()
      ensures first == second && first == old(CurrentOrder())
      ensures first == "DESC" || first == "ASC" || "order" in old(cache)
    {
      first := GetOrder();
      Set(name, value);
      SetImplicit(name, value);
      second := GetOrder();
    }

    /** `getMappedSort` (BSQLQuery.php:892-922). */
    method GetMappedSort() returns (mapped: string)
      requires Valid()
      modifies this`cache, context`warnings, context`messages
      ensures Valid()
      ensures cache == old(if "sort" in cache then cache else CacheAfterSort())
      ensures mapped == Sorting.MappedSort(cache["sort"]).value
      ensures context.messages == old(context.messages) + Sorting.MappedSort(cache["sort"]).warnings
    {
      var sort := GetSort();
      var warnings;
      mapped, warnings := Sorting.GetMappedSort(sort);
      context.WarnAll(warnings);
    }

    // -------------------------------------------------------------------------
    // Implicit columns

    /** `implictlyAddColumn` (BSQLQuery.php:1014-1017). */
    method ImplicitlyAdd(column: string)
      modifies this`implicitlyAdded
      ensures implicitlyAdded == Columns.AddKey(old(implicitlyAdded), column)
    {
      if column !in implicitlyAdded {
        implicitlyAdded := implicitlyAdded + [column];
      }
    }

    /** `implictlyRemoveColumn` (BSQLQuery.php:1004-1007). */
    method ImplicitlyRemove(column: string)
      modifies this`implicitlyRemoved
      ensures implicitlyRemoved == Columns.AddKey(old(implicitlyRemoved), column)
    {
      if column !in implicitlyRemoved {
        implicitlyRemoved := implicitlyRemoved + [column];
      }
    }

    // -------------------------------------------------------------------------
    // processField and the WHERE loop

    ghost function Snapshot(): Tally
      reads this`bzURL, this`bzFieldCount, this`explicitlyOneValue, this`implicitlyAdded, this`implicitlyRemoved,
        this`implicitParameters, this`fieldsRequired, this`requiredCustomFields, context`messages
    {
      Tally(bzURL, bzFieldCount, explicitlyOneValue, implicitlyAdded, implicitlyRemoved, implicitParameters,
        fieldsRequired, requiredCustomFields, context.messages)
    }

    function Rule(): Columns.CustomRule
      reads this`parameters, this`customPrefixLength, this`supportedCustomFields
    {
      RuleOf(parameters, customPrefixLength, supportedCustomFields)
    }

    function CurrentSetting(): Setting
      reads this`parameters, this`customPrefixLength, this`supportedCustomFields, this`columnName
    {
      Setting(parameters, customPrefixLength, supportedCustomFields, columnName.Keys, dialect, now, ymd)
    }

    /** `getBZQuery` (BugzillaQuery.php:948-1005), threading the field counter. */
    method GetBzQuery(value: string, name: string) returns (query: string)
      modifies this`bzFieldCount
      ensures (query, bzFieldCount) == SearchUrl.BzQuery(value, name, old(bzFieldCount))
    {
      var next;
      query, next := SearchUrl.BuildBzQuery(value, name, bzFieldCount);
      bzFieldCount := next;
    }

    /** The implicit column rule of a filtered field (BugzillaQuery.php:837-851). */
    method ApplyColumnRule(column: string, fieldValue: string)
      requires Valid()
      modifies this`implicitlyAdded, this`implicitlyRemoved, this`implicitParameters, context`warnings, context`messages
      ensures Valid()
      ensures Snapshot() == ColumnRule(old(Snapshot()), column, fieldValue)
    {
      if MultiValued(fieldValue) {
        ImplicitlyAdd(column);
        var order := Schema.DefaultOrderOf(column);
        if order.Some? {
          SortAndOrderSupported();
          SetImplicit("sort", column);
          SetImplicit("order", order.value);
        }
      } else {
        ImplicitlyRemove(column);
      }
    }

    /** The rest of `processField`: the WHERE fragment, the required field and the search URL (BugzillaQuery.php:852-884). */
    method RecordField(column: string, fieldValue: string, kind: string) returns (where: string)
      requires Valid()
      modifies this`bzURL, this`bzFieldCount, this`fieldsRequired, context`warnings, context`messages
      ensures Valid()
      ensures Snapshot() == RecordStep(old(Snapshot()), column, fieldValue, kind, old(CurrentSetting()))
      ensures where == FieldWhere(column, fieldValue, kind, CurrentSetting()).value
    {
      var clause := FieldWhere(column, fieldValue, kind, CurrentSetting());
      context.WarnAll(clause.warnings);
      where := clause.value;
      RequireField(column);
      var query := GetBzQuery(fieldValue, SearchName(column));
      bzURL := bzURL + query;
    }

    /** `processField` (BugzillaQuery.php:824-885). */
    method ProcessField(column: string, fieldValue: string, kind: string) returns (where: string)
      requires Valid()
      modifies this`bzURL, this`bzFieldCount, this`explicitlyOneValue, this`implicitlyAdded, this`implicitlyRemoved,
        this`implicitParameters, this`fieldsRequired, context`warnings, context`messages
      ensures Valid()
      ensures Snapshot() == FieldEffect(old(Snapshot()), column, fieldValue, kind, old(CurrentSetting()))
      ensures where == FieldWhere(column, fieldValue, kind, CurrentSetting()).value
    {
      where := "";
      if !Handled(kind) {
        return;
      }
      ghost var t0 := Snapshot();
      if kind == "field-id" && OneValueAsWritten(fieldValue) {
        explicitlyOneValue := true;
      }
      ghost var t1 := OneValueStep(t0, fieldValue, kind);
      assert Snapshot() == t1;
      if DecidesColumn(kind) {
        ApplyColumnRule(column, fieldValue);
      }
      assert Snapshot() == ColumnStep(t1, column, fieldValue, kind);
      where := RecordField(column, fieldValue, kind);
    }

    /** `isCustomField` (BugzillaQuery.php:1037-1048), as written. */
    predicate IsCustomField(column: string)
      reads this`parameters, this`customPrefixLength, this`supportedCustomFields, this`columnName
    {
      Columns.IsCustomFieldAsWritten(Rule(), columnName.Keys, column)
    }

    /** `addCustomField` (BugzillaQuery.php:1055-1058). */
    method AddCustomField(column: string)
      modifies this`requiredCustomFields
      ensures requiredCustomFields == old(requiredCustomFields) + [column]
    {
      requiredCustomFields := requiredCustomFields + [column];
    }

    /** The column and value of one `filters` argument (BugzillaQuery.php:440-455). */
    method ProcessFilterField(argColumn: string, argFieldValue: string) returns (where: string)
      requires Valid()
      modifies this`bzURL, this`bzFieldCount, this`explicitlyOneValue, this`implicitlyAdded, this`implicitlyRemoved,
        this`implicitParameters, this`fieldsRequired, this`requiredCustomFields, context`warnings, context`messages
      ensures Valid()
      ensures (Snapshot(), where) == FilterFieldEffect(old(Snapshot()), argColumn, argFieldValue, old(CurrentSetting()))
    {
      where := "";
      var argType: string;
      if IsCustomField(argColumn) {
        argType := "field";
        AddCustomField(argColumn);
      } else {
        argType := Schema.TypeOf(argColumn).GetOr("");
      }
      if Prefix(argType, 5) != "field" {
        context.Warn(NotFieldWarning(argColumn));
      } else {
        where := ProcessField(argColumn, argFieldValue, argType);
      }
    }

    /** One argument of `filters` (BugzillaQuery.php:434-457). */
    method ProcessFilterArg(arg: string) returns (where: string)
      requires Valid()
      modifies this`bzURL, this`bzFieldCount, this`explicitlyOneValue, this`implicitlyAdded, this`implicitlyRemoved,
        this`implicitParameters, this`fieldsRequired, this`requiredCustomFields, context`warnings, context`messages
      ensures Valid()
      ensures (Snapshot(), where) == FilterArgEffect(old(Snapshot()), arg, old(CurrentSetting()))
    {
      if Contains(arg, "%3D") {
        var parts := Explode(arg, "%3D");
        where := ProcessFilterField(parts[0], parts[1]);
      } else {
        context.Warn(BadFilterWarning(arg));
        where := "";
      }
    }

    /** The `filters` parameter: each `%26`-separated argument in turn (BugzillaQuery.php:430-458). */
    method ProcessFilters(value: string) returns (where: string)
      requires Valid()
      modifies this`bzURL, this`bzFieldCount, this`explicitlyOneValue, this`implicitlyAdded, this`implicitlyRemoved,
        this`implicitParameters, this`fieldsRequired, this`requiredCustomFields, context`warnings, context`messages
      ensures Valid()
      ensures (Snapshot(), where) == FilterArgs(old(Snapshot()), Explode(value, "%26"), old(CurrentSetting()))
    {
      var args := Explode(value, "%26");
      ghost var s := CurrentSetting();
      ghost var t0 := Snapshot();
      where := "";
      for i := 0 to |args|
        invariant Valid()
        invariant CurrentSetting() == s
        invariant (Snapshot(), where) == FilterArgs(t0, args[..i], s)
      {
        where := ProcessFilterStep(t0, args, i, s, where);
      }
      assert args[..|args|] == args;
    }

    /** One pass of the `filters` loop: argument `i` after the ones before it. */
    method ProcessFilterStep(ghost t0: Tally, args: seq<string>, i: nat, ghost s: Setting, where0: string)
      returns (where: string)
      requires Valid() && i < |args| && CurrentSetting() == s
      requires (Snapshot(), where0) == FilterArgs(t0, args[..i], s)
      modifies this`bzURL, this`bzFieldCount, this`explicitlyOneValue, this`implicitlyAdded, this`implicitlyRemoved,
        this`implicitParameters, this`fieldsRequired, this`requiredCustomFields, context`warnings, context`messages
      ensures Valid() && CurrentSetting() == s
      ensures (Snapshot(), where) == FilterArgs(t0, args[..i + 1], s)
    {
      ghost var before := (Snapshot(), where0);
      var clause := ProcessFilterArg(args[i]);
      FilterLoopStep(t0, args, i, s, before, Snapshot(), clause);
      where := where0 + clause;
    }

    /** One parameter of the WHERE loop of `getSQL` (BugzillaQuery.php:426-470). */
    method ProcessParameter(name: string) returns (where: string)
      requires Valid()
      modifies this`bzURL, this`bzFieldCount, this`explicitlyOneValue, this`implicitlyAdded, this`implicitlyRemoved,
        this`implicitParameters, this`fieldsRequired, this`requiredCustomFields, context`warnings, context`messages
      ensures Valid()
      ensures (Snapshot(), where) == ParameterEffect(old(Snapshot()), name, old(CurrentSetting()))
    {
      where := "";
      var fieldValue := Lookup(name);
      if !Truthy(fieldValue) {
        return;
      }
      var kind := Schema.TypeOf(name).GetOr("");
      if kind == "filters" {
        where := ProcessFilters(fieldValue.value);
      } else {
        where := ProcessFieldParameter(name, fieldValue.value, kind);
      }
    }

    /** A parameter of any type but `filters` (BugzillaQuery.php:459-469). */
    method ProcessFieldParameter(name: string, fieldValue: string, kind: string) returns (where: string)
      requires Valid()
      modifies this`bzURL, this`bzFieldCount, this`explicitlyOneValue, this`implicitlyAdded, this`implicitlyRemoved,
        this`implicitParameters, this`fieldsRequired, this`requiredCustomFields, context`warnings, context`messages
      ensures Valid()
      ensures (Snapshot(), where) == FieldParameterEffect(old(Snapshot()), name, fieldValue, kind, old(CurrentSetting()))
    {
      if kind == "field-keywords" {
        var clause := ProcessField(name, fieldValue, "field");
        where := KeywordsOpen(dialect) + clause + ")";
      } else {
        where := ProcessField(name, fieldValue, kind);
      }
    }

    /** The WHERE loop of `getSQL`: every supported parameter, in declaration order. */
    method CollectWhere() returns (where: string)
      requires Valid()
      modifies this`bzURL, this`bzFieldCount, this`explicitlyOneValue, this`implicitlyAdded, this`implicitlyRemoved,
        this`implicitParameters, this`fieldsRequired, this`requiredCustomFields, context`warnings, context`messages
      ensures Valid()
      ensures (Snapshot(), where) == ParametersEffect(old(Snapshot()), Schema.ParameterNames, old(CurrentSetting()))
    {
      var names := Schema.ParameterNames;
      ghost var s := CurrentSetting();
      ghost var t0 := Snapshot();
      where := "";
      for i := 0 to |names|
        invariant Valid()
        invariant CurrentSetting() == s
        invariant (Snapshot(), where) == ParametersEffect(t0, names[..i], s)
      {
        ghost var before := (Snapshot(), where);
        var clause := ProcessParameter(names[i]);
        ParametersLoopStep(t0, names, i, s, before, Snapshot(), clause);
        where := where + clause;
      }
      assert names[..|names|] == names;
    }

    // -------------------------------------------------------------------------
    // Columns (BSQLQuery.php:1024-1191)

    /** The bookkeeping `getColumns` edits, with the base list and the appended columns of an edit in progress. */
    ghost function EditState(base: seq<string>, appended: seq<string>): Columns.Edit
      reads this`implicitlyAdded, this`implicitlyRemoved, this`columnName, this`requiredCustomFields, context`messages
    {
      Columns.Edit(base, appended, implicitlyAdded, implicitlyRemoved, columnName, requiredCustomFields, context.messages)
    }

    /** The column bookkeeping outside any one edit. */
    ghost function ColumnState(): Columns.Edit
      reads this`implicitlyAdded, this`implicitlyRemoved, this`columnName, this`requiredCustomFields, context`messages
    {
      EditState([], [])
    }

    /** `getColumnNameAndRegisterTitle` (BSQLQuery.php:1151-1162). */
    method RegisterColumnTitle(column: string) returns (name: string)
      modifies this`columnName
      ensures name == Columns.NameAndTitle(column).0
      ensures columnName == Columns.RegisterTitle(old(columnName), column)
    {
      var parts := Split(column, ':');
      if |parts| > 1 {
        name := parts[0];
        columnName := columnName[name := parts[1]];
      } else {
        name := column;
      }
    }

    /** The search of the base list for a column to remove (BSQLQuery.php:1067-1075). */
    method FindColumn(columns: seq<string>, column: string) returns (found: Option<nat>)
      ensures found == Columns.FirstIndex(columns, column)
    {
      found := None;
      var i := 0;
      while i < |columns|
        invariant 0 <= i <= |columns|
        invariant column !in columns[..i]
      {
        if columns[i] == column {
          found := Some(i);
          FirstIndexAt(columns, column, i);
          return;
        }
        assert columns[..i + 1] == columns[..i] + [columns[i]];
        i := i + 1;
      }
      assert columns[..i] == columns;
    }

    /** `applyImplicitColumns` (BSQLQuery.php:1170-1191): add the implicit columns, each once, then drop the removed ones. */
    method ApplyImplicitColumns(columns: seq<string>) returns (result: seq<string>)
      ensures result == Columns.ApplyImplicit(columns, implicitlyAdded, implicitlyRemoved)
    {
      var merged := Columns.Dedup(columns + implicitlyAdded);
      var newColumns := merged;
      Columns.WithoutNothing(merged, []);
      for i := 0 to |implicitlyRemoved|
        invariant newColumns == Without(merged, implicitlyRemoved[..i])
      {
        var column := implicitlyRemoved[i];
        Columns.WithoutWithout(merged, implicitlyRemoved[..i], [column]);
        assert implicitlyRemoved[..i + 1] == implicitlyRemoved[..i] + [column];
        newColumns := Columns.RemoveKey(newColumns, column);
      }
      assert implicitlyRemoved[..|implicitlyRemoved|] == implicitlyRemoved;
      result := newColumns;
    }

    /** One entry of a signed `columns` value (BSQLQuery.php:1042-1101). */
    method EditColumn(base: seq<string>, appended: seq<string>, entry: string, leadingAdd: bool)
      returns (newBase: seq<string>, newAppended: seq<string>)
      requires Valid()
      modifies this`implicitlyAdded, this`implicitlyRemoved, this`columnName, this`requiredCustomFields,
        context`warnings, context`messages
      ensures Valid()
      ensures EditState(newBase, newAppended) == old(Columns.EditStep(EditState(base, appended), entry, leadingAdd, Rule()))
    {
      var (add, rest) := Columns.EntryOperation(entry, leadingAdd);
      var newColumn := RegisterColumnTitle(rest);
      newBase, newAppended := base, appended;
      if add {
        newAppended := appended + [newColumn];
        if IsCustomField(newColumn) {
          AddCustomField(newColumn);
        }
        if newColumn in implicitlyRemoved {
          implicitlyRemoved := Columns.RemoveKey(implicitlyRemoved, newColumn);
        } else {
          Columns.WithoutNothing(implicitlyRemoved, [newColumn]);
        }
      } else {
        var found := FindColumn(base, newColumn);
        if found.Some? {
          newBase := Columns.RemoveAt(base, found.value);
          if newColumn in implicitlyAdded {
            implicitlyAdded := Columns.RemoveKey(implicitlyAdded, newColumn);
          } else {
            Columns.WithoutNothing(implicitlyAdded, [newColumn]);
          }
        } else {
          context.Warn("Can't remove column [" + newColumn + "] it doesn't exist");
        }
      }
    }

    /** A signed `columns` value edits the default list entry by entry (BSQLQuery.php:1030-1112). */
    method EditColumns(defaultColumns: seq<string>, add: bool, delta: string) returns (columns: seq<string>)
      requires Valid()
      modifies this`implicitlyAdded, this`implicitlyRemoved, this`columnName, this`requiredCustomFields,
        context`warnings, context`messages
      ensures Valid()
      ensures var e := Columns.EditAll(old(ColumnState()).(base := defaultColumns), Split(delta, ','), add, old(Rule()));
        columns == Columns.EditedColumns(e) && ColumnState() == e.(base := [], appended := [])
    {
      var base, newColumns := EditEntries(defaultColumns, Split(delta, ','), add);
      var implicitApplied := ApplyImplicitColumns(base);
      columns := Columns.Dedup(implicitApplied + newColumns);
    }

    /** The entries of a signed `columns` value, one after another (BSQLQuery.php:1043-1102). */
    method EditEntries(defaultColumns: seq<string>, entries: seq<string>, add: bool)
      returns (base: seq<string>, newColumns: seq<string>)
      requires Valid()
      modifies this`implicitlyAdded, this`implicitlyRemoved, this`columnName, this`requiredCustomFields,
        context`warnings, context`messages
      ensures Valid()
      ensures EditState(base, newColumns) == Columns.EditAll(old(ColumnState()).(base := defaultColumns), entries, add, old(Rule()))
    {
      base, newColumns := defaultColumns, [];
      ghost var start := EditState(defaultColumns, []);
      ghost var rule := Rule();
      for i := 0 to |entries|
        invariant Valid() && Rule() == rule
        invariant EditState(base, newColumns) == Columns.EditAll(start, entries[..i], add, rule)
      {
        assert entries[..i + 1][..i] == entries[..i];
        base, newColumns := EditColumn(base, newColumns, entries[i], add);
      }
      assert entries[..|entries|] == entries;
    }

    /** An explicit, unsigned `columns` value lists the columns outright (BSQLQuery.php:1113-1125). */
    method ListColumns(value: string)
      requires Valid()
      modifies this`columnsToRender, this`columnName, this`requiredCustomFields
      ensures Valid()
      ensures (columnsToRender, columnName, requiredCustomFields)
        == Columns.ListAll(old(columnName), old(requiredCustomFields), Split(value, ','), old(Rule()))
    {
      var entries := Split(value, ',');
      ghost var titles, custom := columnName, requiredCustomFields;
      ghost var rule := Rule();
      columnsToRender := [];
      for i := 0 to |entries|
        invariant Rule() == rule
        invariant (columnsToRender, columnName, requiredCustomFields) == Columns.ListAll(titles, custom, entries[..i], rule)
      {
        assert entries[..i + 1][..i] == entries[..i];
        var newColumn := RegisterColumnTitle(entries[i]);
        columnsToRender := columnsToRender + [newColumn];
        if IsCustomField(newColumn) {
          AddCustomField(newColumn);
        }
      }
      assert entries[..|entries|] == entries;
    }

    /** The columns `getColumns` computes from the bookkeeping `start`: the explicit value's, else the default list after the implicit rules. */
    ghost function ColumnsFrom(start: Columns.Edit): (seq<string>, Columns.Edit)
      reads this`parameters, this`customPrefixLength, this`supportedCustomFields
    {
      ResolveColumns(Explicit("columns"), OrEmpty(Default("columns")), start, Rule())
    }

    /** `getColumns` (BSQLQuery.php:1024-1140): computed once, then returned from the cache while non-empty. */
    method GetColumns() returns (columns: seq<string>)
      requires Valid()
      modifies this`columnsToRender, this`implicitlyAdded, this`implicitlyRemoved, this`columnName,
        this`requiredCustomFields, context`warnings, context`messages
      ensures Valid()
      ensures columns == columnsToRender
      ensures old(columnsToRender) != [] ==> columns == old(columnsToRender) && ColumnState() == old(ColumnState())
      ensures old(columnsToRender) == [] ==>
        var r := ColumnsFrom(old(ColumnState()));
        columns == r.0 && ColumnState() == r.1.(base := [], appended := [])
    {
      if columnsToRender != [] {
        return columnsToRender;
      }
      ghost var start := ColumnState();
      var explicit := Explicit("columns");
      var defaults := OrEmpty(Default("columns"));
      ghost var r := ColumnsFrom(start);
      assert r == ResolveColumns(explicit, defaults, start, Rule());
      var defaultColumns := Split(defaults, ',');
      if Truthy(explicit) {
        assert r == ExplicitColumns(explicit.value, defaultColumns, start, Rule());
        ResolveExplicitColumns(explicit.value, defaultColumns);
      } else {
        assert r == (Columns.ApplyImplicit(defaultColumns, start.added, start.removed), start);
        columnsToRender := ApplyImplicitColumns(defaultColumns);
        assert ColumnState() == start == start.(base := [], appended := []);
      }
      columns := columnsToRender;
    }

    /** The explicit branch of `getColumns` (BSQLQuery.php:1030-1125). */
    method ResolveExplicitColumns(value: string, defaultColumns: seq<string>)
      requires Valid()
      modifies this`columnsToRender, this`implicitlyAdded, this`implicitlyRemoved, this`columnName,
        this`requiredCustomFields, context`warnings, context`messages
      ensures Valid()
      ensures var r := ExplicitColumns(value, defaultColumns, old(ColumnState()), old(Rule()));
        columnsToRender == r.0 && ColumnState() == r.1.(base := [], appended := [])
    {
      var signed := Columns.SignedMatch(value);
      if signed.Some? {
        columnsToRender := EditColumns(defaultColumns, signed.value.0, signed.value.1);
      } else {
        ListColumns(value);
      }
    }

    // -------------------------------------------------------------------------
    // preSQLGenerate and getSQL

    /** The first loop of `preSQLGenerate`: every sorted column is added implicitly (BSQLQuery.php:1198-1203). */
    method AddSortColumns(sortColumns: seq<string>)
      modifies this`implicitlyAdded
      ensures implicitlyAdded == AddKeys(old(implicitlyAdded), sortColumns)
    {
      ghost var added0 := implicitlyAdded;
      for i := 0 to |sortColumns|
        invariant implicitlyAdded == AddKeys(added0, sortColumns[..i])
      {
        assert sortColumns[..i + 1][..i] == sortColumns[..i];
        ImplicitlyAdd(sortColumns[i]);
      }
      assert sortColumns[..|sortColumns|] == sortColumns;
    }

    /** The second loop: every grouped column is removed implicitly and still fetched (BSQLQuery.php:1206-1210). */
    method HideGroupColumns(groups: seq<string>)
      modifies this`implicitlyRemoved, this`fieldsRequired
      ensures implicitlyRemoved == AddKeys(old(implicitlyRemoved), groups)
      ensures fieldsRequired == old(fieldsRequired) + Members(groups)
    {
      ghost var removed0, required0 := implicitlyRemoved, fieldsRequired;
      for i := 0 to |groups|
        invariant implicitlyRemoved == AddKeys(removed0, groups[..i])
        invariant fieldsRequired == required0 + Members(groups[..i])
      {
        assert groups[..i + 1] == groups[..i] + [groups[i]];
        ImplicitlyRemove(groups[i]);
        RequireField(groups[i]);
      }
      assert groups[..|groups|] == groups;
    }

    /** The third loop: every rendered column is fetched (BSQLQuery.php:1213-1215). */
    method RequireColumns(columns: seq<string>)
      modifies this`fieldsRequired
      ensures fieldsRequired == old(fieldsRequired) + Members(columns)
    {
      ghost var required0 := fieldsRequired;
      for i := 0 to |columns|
        invariant fieldsRequired == required0 + Members(columns[..i])
      {
        assert columns[..i + 1] == columns[..i] + [columns[i]];
        RequireField(columns[i]);
      }
      assert columns[..|columns|] == columns;
    }

    /** The `bar` field, which a bar chart needs. */
    function BarField(): set<string>
      reads this`parameters
    {
      if Truthy(Lookup("bar")) then {Lookup("bar").value} else {}
    }

    /** The last loop and the bar field of `preSQLGenerate` (BSQLQuery.php:1213-1222). */
    method RequireRenderedFields(columns: seq<string>)
      modifies this`fieldsRequired
      ensures fieldsRequired == old(fieldsRequired) + Members(columns) + BarField()
    {
      RequireColumns(columns);
      var bar := Lookup("bar");
      if Truthy(bar) {
        RequireField(bar.value);
      }
    }

    /** The first two loops of `preSQLGenerate`: sorted columns are added, grouped ones removed but fetched (BSQLQuery.php:1198-1210). */
    method ImplicitSortAndGroupColumns()
      modifies this`cache, this`implicitlyAdded, this`implicitlyRemoved, this`fieldsRequired
      ensures "sort" in cache && cache["sort"] == old(CurrentSort())
      ensures ColumnState() == old(ImplicitStart())
      ensures fieldsRequired == old(fieldsRequired) + Members(Split(old(CurrentGroup()), ','))
    {
      var sort := GetSort();
      AddSortColumns(Sorting.SortColumns(sort));
      var group := GetGroup();
      assert group == old(CurrentGroup());
      HideGroupColumns(Split(group, ','));
    }

    /** The column bookkeeping once the sorted columns are added and the grouped ones removed. */
    ghost function ImplicitStart(): Columns.Edit
      reads this`implicitlyAdded, this`implicitlyRemoved, this`columnName, this`requiredCustomFields, context`messages,
        this`parameters, this`implicitParameters, this`cache
    {
      ColumnState().(added := AddKeys(implicitlyAdded, Sorting.SortColumns(CurrentSort())),
        removed := AddKeys(implicitlyRemoved, Split(CurrentGroup(), ',')))
    }

    /** `preSQLGenerate` up to the columns: the implicit columns of sorting and grouping, then `getColumns` (BSQLQuery.php:1198-1212). */
    method ColumnsAfterImplicit() returns (columns: seq<string>)
      requires Valid()
      modifies this`cache, this`implicitlyAdded, this`implicitlyRemoved, this`fieldsRequired, this`columnsToRender,
        this`columnName, this`requiredCustomFields, context`warnings, context`messages
      ensures Valid() && columns == columnsToRender
      ensures "sort" in cache && cache["sort"] == old(CurrentSort())
      ensures fieldsRequired == old(fieldsRequired) + Members(Split(old(CurrentGroup()), ','))
      ensures old(columnsToRender) != [] ==> columnsToRender == old(columnsToRender)
      ensures old(columnsToRender) == [] ==>
        columnsToRender == ColumnsFrom(old(ImplicitStart())).0
    {
      ImplicitSortAndGroupColumns();
      columns := GetColumns();
    }

    /**
     * `preSQLGenerate` (BSQLQuery.php:1196-1223): the sorted columns are
     * added and the grouped ones removed before the columns are computed;
     * the grouped, rendered and bar fields are required.
     */
    method PreSQLGenerate()
      requires Valid()
      modifies this`cache, this`implicitlyAdded, this`implicitlyRemoved, this`fieldsRequired, this`columnsToRender,
        this`columnName, this`requiredCustomFields, context`warnings, context`messages
      ensures Valid()
      ensures "sort" in cache && cache["sort"] == old(CurrentSort())
      ensures var groups := Split(old(CurrentGroup()), ',');
        fieldsRequired == old(fieldsRequired) + Members(groups) + Members(columnsToRender) + BarField()
      ensures old(columnsToRender) != [] ==> columnsToRender == old(columnsToRender)
      ensures old(columnsToRender) == [] ==>
        columnsToRender == ColumnsFrom(old(ImplicitStart())).0
    {
      ghost var required, groups := fieldsRequired, Split(CurrentGroup(), ',');
      var columns := ColumnsAfterImplicit();
      assert fieldsRequired == required + Members(groups);
      RequireRenderedFields(columns);
    }

    /** The id `getSQL` uses for status changes, as text; `''` when the database did not list it. */
    function StatusFieldId(): string {
      if "bug_status" in fieldIds then fieldIds["bug_status"] else ""
    }

    function Inputs(): Sql.JoinInputs
      reads this`parameters
    {
      Sql.JoinInputs(dialect, StatusFieldId(), Lookup("dependsstatus"), Lookup("cc"), Lookup("flag"))
    }

    /** The fields the list format, the flag mode and the last-comment mode need. */
    function ModeFields(): set<string>
      reads this`parameters
    {
      (if Lookup("format") == Some("list") then {"to", "deadline"} else {})
      + (if Truthy(Lookup("flag")) then {"flag"} else {})
      + (if Truthy(Lookup("lastcomment")) then {"lastcomment"} else {})
    }

    /** The state after the modes' fields are required and, in flag mode, the flag columns added. */
    function WithModes(t: Tally): Tally
      reads this`parameters
    {
      t.(required := t.required + ModeFields(),
         added := if Truthy(Lookup("flag")) then AddKeys(t.added, ["flagfrom", "flagname", "flagdate"]) else t.added)
    }

    /** The fields and columns of the format, flag and last-comment modes (BugzillaQuery.php:472-486). */
    method RequireModeFields()
      modifies this`fieldsRequired, this`implicitlyAdded
      ensures fieldsRequired == old(fieldsRequired) + ModeFields()
      ensures implicitlyAdded == if Truthy(Lookup("flag")) then AddKeys(old(implicitlyAdded), ["flagfrom", "flagname", "flagdate"])
        else old(implicitlyAdded)
    {
      var format := Lookup("format");
      if format == Some("list") {
        RequireField("to");
        RequireField("deadline");
      }
      var flag := Lookup("flag");
      if Truthy(flag) {
        RequireField("flag");
        AddFlagColumns();
      }
      var lastcomment := Lookup("lastcomment");
      if Truthy(lastcomment) {
        RequireField("lastcomment");
      }
    }

    /** The columns of the flag mode (BugzillaQuery.php:477-480). */
    method AddFlagColumns()
      modifies this`implicitlyAdded
      ensures implicitlyAdded == AddKeys(old(implicitlyAdded), ["flagfrom", "flagname", "flagdate"])
    {
      AddKeysThree(implicitlyAdded, "flagfrom", "flagname", "flagdate");
      ImplicitlyAdd("flagfrom");
      ImplicitlyAdd("flagname");
      ImplicitlyAdd("flagdate");
    }

    /** The implicit parameters once a grouped column with a default order has set `grouporder` to it. */
    function GroupOrdered(implicit: map<string, string>): map<string, string>
      reads this`parameters
    {
      var group := Lookup("group");
      if Truthy(group) && Schema.DefaultOrderOf(group.value).Some?
      then implicit["grouporder" := Schema.DefaultOrderOf(group.value).value]
      else implicit
    }

    /** The implicit group order: a grouped column with a default order sorts its groups that way (BugzillaQuery.php:493-496). */
    method ImplicitGroupOrder()
      requires Valid()
      modifies this`implicitParameters, context`warnings, context`messages
      ensures Valid() && context.messages == old(context.messages)
      ensures implicitParameters == GroupOrdered(old(implicitParameters))
    {
      var group := Lookup("group");
      if Truthy(group) && Schema.DefaultOrderOf(group.value).Some? {
        SetImplicit("grouporder", Schema.DefaultOrderOf(group.value).value);
      }
    }

    /** The statement over the fields required, the custom fields, the sort and the order as they stand. */
    function StatementText(where: string): Logged<string>
      requires "sort" in cache && "order" in cache
      reads this`fieldsRequired, this`parameters, this`requiredCustomFields, this`cache
    {
      Sql.SqlText(Sql.Request(fieldsRequired, Lookup("format"), Lookup("nameformat"), requiredCustomFields,
        where, Sorting.MappedSort(cache["sort"]).value, cache["order"], Inputs()))
    }

    /** The statement of `getSQL` over the fields required by now (BugzillaQuery.php:503-811). */
    method Statement(where: string) returns (sql: string)
      requires Valid()
      modifies this`cache, context`warnings, context`messages
      ensures Valid()
      ensures "sort" in cache && "order" in cache
      ensures sql == StatementText(where).value
      ensures context.messages == old(context.messages) + StatementText(where).warnings + Sorting.MappedSort(cache["sort"]).warnings
    {
      var joins := Sql.JoinList(fieldsRequired, Inputs());
      context.WarnAll(joins.warnings);
      var mappedSort := GetMappedSort();
      var order := GetOrder();
      var format := Lookup("format");
      var nameFormat := Lookup("nameformat");
      var request := Sql.Request(fieldsRequired, format, nameFormat, requiredCustomFields, where, mappedSort, order, Inputs());
      sql := Sql.SqlText(request).value;
    }

    /** The WHERE clause `getSQL` builds from the current state: the parameters' clauses, then the search (BugzillaQuery.php:426-472). */
    ghost function WhereText(): string
      reads this`bzURL, this`bzFieldCount, this`explicitlyOneValue, this`implicitlyAdded, this`implicitlyRemoved,
        this`implicitParameters, this`fieldsRequired, this`requiredCustomFields, context`messages,
        this`parameters, this`customPrefixLength, this`supportedCustomFields, this`columnName
    {
      ParametersEffect(Snapshot(), Schema.ParameterNames, CurrentSetting()).1 + SearchClause(Lookup("search"))
    }

    /** The WHERE clause of `getSQL` and the fields of its modes (BugzillaQuery.php:426-491). */
    method WhereClause() returns (where: string)
      requires Valid()
      modifies this`bzURL, this`bzFieldCount, this`explicitlyOneValue, this`implicitlyAdded, this`implicitlyRemoved,
        this`implicitParameters, this`fieldsRequired, this`requiredCustomFields, context`warnings, context`messages
      ensures Valid()
      ensures where == old(WhereText())
      ensures Snapshot() == WithModes(ParametersEffect(old(Snapshot()), Schema.ParameterNames, old(CurrentSetting())).0)
      ensures old(fieldsRequired) + ModeFields() <= fieldsRequired
    {
      ghost var t0, s0 := Snapshot(), CurrentSetting();
      ghost var effect := ParametersEffect(t0, Schema.ParameterNames, s0);
      where := CollectWhere();
      assert where == effect.1;
      ParametersOnlyAdd(t0, Schema.ParameterNames, s0);
      RequireModeFields();
      assert Snapshot() == WithModes(effect.0);
      var search := Lookup("search");
      where := where + SearchClause(search);
    }

    /** Between the WHERE clause and the statement: the implicit group order, the quick flag and alias fields, then `preSQLGenerate` (BugzillaQuery.php:493-503). */
    method PrepareStatement()
      requires Valid()
      modifies this`implicitlyAdded, this`implicitlyRemoved, this`implicitParameters, this`fieldsRequired,
        this`requiredCustomFields, this`cache, this`columnsToRender, this`columnName, context`warnings, context`messages
      ensures Valid()
      ensures "sort" in cache
      ensures implicitParameters == GroupOrdered(old(implicitParameters))
      ensures fieldsRequired == old(fieldsRequired) + {"quickflag", "alias"} + Members(Split(old(CurrentGroup()), ','))
        + Members(columnsToRender) + BarField()
      ensures old(columnsToRender) != [] ==> columnsToRender == old(columnsToRender)
      ensures old(fieldsRequired) + {"quickflag", "alias"} <= fieldsRequired
    {
      ghost var groups := Split(CurrentGroup(), ',');
      GroupOrderAndFlagFields();
      ghost var required := fieldsRequired;
      PreSQLGenerate();
      assert fieldsRequired == required + Members(groups) + Members(columnsToRender) + BarField();
    }

    /** The implicit group order, then the quick flag and alias fields (BugzillaQuery.php:493-502). */
    method GroupOrderAndFlagFields()
      requires Valid()
      modifies this`implicitParameters, this`fieldsRequired, context`warnings, context`messages
      ensures Valid()
      ensures implicitParameters == GroupOrdered(old(implicitParameters))
      ensures fieldsRequired == old(fieldsRequired) + {"quickflag", "alias"}
      ensures CurrentGroup() == old(CurrentGroup())
    {
      ImplicitGroupOrder();
      RequireField("quickflag");
      RequireField("alias");
    }

    /**
     * `getSQL` (BugzillaQuery.php:418-814): the WHERE loop, the fields the
     * format, flag and last-comment modes need, the search term, the implicit
     * group order, then the statement over the fields required by then.
     */
    method GetSQL() returns (sql: string)
      requires Valid()
      modifies this`bzURL, this`bzFieldCount, this`explicitlyOneValue, this`implicitlyAdded, this`implicitlyRemoved,
        this`implicitParameters, this`fieldsRequired, this`requiredCustomFields, this`cache, this`columnsToRender,
        this`columnName, context`warnings, context`messages
      ensures Valid()
      ensures "sort" in cache && "order" in cache
      ensures sql == StatementText(old(WhereText())).value
      ensures old(fieldsRequired) + ModeFields() + {"quickflag", "alias"} <= fieldsRequired
    {
      ghost var required := fieldsRequired;
      var where := WhereClause();
      ghost var withModes := fieldsRequired;
      PrepareStatement();
      assert required + ModeFields() <= withModes && withModes + {"quickflag", "alias"} <= fieldsRequired;
      sql := Statement(where);
    }

    // -------------------------------------------------------------------------
    // Rendering set-up, formats and limits

    /** The search URL base and the custom field settings at the start of `render` (BugzillaQuery.php:317-326). */
    method SetUpCustomFields()
      modifies this`bzURL, this`supportedCustomFields, this`customPrefixLength
      ensures bzURL == context.bzserver + Schema.BuglistUri
      ensures supportedCustomFields == if Truthy(Lookup("customfields")) then Split(OrEmpty(Lookup("customfields")), ',')
        else old(supportedCustomFields)
      ensures customPrefixLength == Some(|OrEmpty(Lookup("customprefix"))|)
    {
      bzURL := context.bzserver + Schema.BuglistUri;
      var customFields := Lookup("customfields");
      if Truthy(customFields) {
        supportedCustomFields := Split(customFields.value, ',');
      }
      var prefix := Lookup("customprefix");
      customPrefixLength := Some(|OrEmpty(prefix)|);
    }

    /** The `link` rules in order: each sets its column's format and adds the column (BugzillaQuery.php:328-338). */
    method ApplyLinkRules(links: seq<string>)
      modifies this`formats, this`implicitlyAdded
      ensures formats == LinkFormats(old(formats), links)
      ensures implicitlyAdded == AddKeys(old(implicitlyAdded), LinkColumns(links))
    {
      ghost var formats0, added0 := formats, implicitlyAdded;
      for i := 0 to |links|
        invariant formats == LinkFormats(formats0, links[..i])
        invariant implicitlyAdded == AddKeys(added0, LinkColumns(links[..i]))
      {
        LinkRulesStep(formats0, added0, links, i);
        var (column, format) := LinkRule(links[i]);
        formats := formats[column := format];
        ImplicitlyAdd(column);
      }
      assert links[..|links|] == links;
    }

    /** The keyword link and the keywords field of `lastcomment` (BugzillaQuery.php:340-347). */
    method ApplyLastComment(lastcomment: Option<string>)
      modifies this`formats, this`fieldsRequired
      ensures formats == if Truthy(lastcomment) then KeywordFormat(old(formats)) else old(formats)
      ensures fieldsRequired == old(fieldsRequired) + if Truthy(lastcomment) then {"keywords"} else {}
    {
      if Truthy(lastcomment) {
        RequireField("keywords");
        if "keywords" !in formats {
          formats := formats["keywords" := "link~keyword"];
        }
      }
    }

    /** Sorting does not work with grouping, so `render` turns the sortable table off (BugzillaQuery.php:349-352). */
    method DisableSortingWhenGrouped()
      requires Valid()
      modifies this`parameters, context`warnings, context`messages
      ensures Valid() && context.messages == old(context.messages)
      ensures parameters == if Truthy(Parameter(old(parameters), "group")) then old(parameters)["sortable" := "0"] else old(parameters)
    {
      var group := Lookup("group");
      if Truthy(group) {
        SortableStoredAsIs(parameters);
        Set("sortable", "0");
      }
    }

    /**
     * The start of `render` (BugzillaQuery.php:316-347): the search URL base,
     * the custom field list and prefix length, the `link` rules, the keyword
     * link of `lastcomment`.
     */
    method PrepareFormats()
      modifies this`bzURL, this`supportedCustomFields, this`customPrefixLength, this`formats, this`implicitlyAdded,
        this`fieldsRequired
      ensures bzURL == context.bzserver + Schema.BuglistUri
      ensures supportedCustomFields == if Truthy(Lookup("customfields")) then Split(OrEmpty(Lookup("customfields")), ',')
        else old(supportedCustomFields)
      ensures customPrefixLength == Some(|OrEmpty(Lookup("customprefix"))|)
      ensures formats == RenderFormats(old(formats), Lookup("link"), Lookup("lastcomment"))
      ensures implicitlyAdded == if Truthy(Lookup("link")) then AddKeys(old(implicitlyAdded), LinkColumns(Split(OrEmpty(Lookup("link")), ',')))
        else old(implicitlyAdded)
      ensures fieldsRequired == old(fieldsRequired) + if Truthy(Lookup("lastcomment")) then {"keywords"} else {}
    {
      SetUpCustomFields();
      var link := Lookup("link");
      var lastcomment := Lookup("lastcomment");
      ApplyRenderFormats(link, lastcomment);
    }

    /** The `link` rules, then the keyword link of `lastcomment` (BugzillaQuery.php:327-347). */
    method ApplyRenderFormats(link: Option<string>, lastcomment: Option<string>)
      modifies this`formats, this`implicitlyAdded, this`fieldsRequired
      ensures formats == RenderFormats(old(formats), link, lastcomment)
      ensures implicitlyAdded == if Truthy(link) then AddKeys(old(implicitlyAdded), LinkColumns(Split(OrEmpty(link), ',')))
        else old(implicitlyAdded)
      ensures fieldsRequired == old(fieldsRequired) + if Truthy(lastcomment) then {"keywords"} else {}
    {
      ghost var formats0 := formats;
      if Truthy(link) {
        ApplyLinkRules(Split(link.value, ','));
      }
      ghost var linked := formats;
      assert linked == if Truthy(link) then LinkFormats(formats0, Split(link.value, ',')) else formats0;
      ApplyLastComment(lastcomment);
      assert formats == RenderFormats(formats0, link, lastcomment);
    }

    /** The start of `render`, then no sortable table when grouping (BugzillaQuery.php:316-352). */
    method PrepareRender()
      requires Valid()
      modifies this`bzURL, this`supportedCustomFields, this`customPrefixLength, this`formats, this`implicitlyAdded,
        this`fieldsRequired, this`parameters, context`warnings, context`messages
      ensures Valid()
      ensures bzURL == context.bzserver + Schema.BuglistUri
      ensures var p := old(parameters);
        supportedCustomFields == if Truthy(Parameter(p, "customfields")) then Split(OrEmpty(Parameter(p, "customfields")), ',')
          else old(supportedCustomFields)
      ensures customPrefixLength == Some(|OrEmpty(Parameter(old(parameters), "customprefix"))|)
      ensures formats == RenderFormats(old(formats), Parameter(old(parameters), "link"), Parameter(old(parameters), "lastcomment"))
      ensures var link := Parameter(old(parameters), "link");
        implicitlyAdded == if Truthy(link) then AddKeys(old(implicitlyAdded), LinkColumns(Split(link.value, ','))) else old(implicitlyAdded)
      ensures fieldsRequired == old(fieldsRequired) + if Truthy(Parameter(old(parameters), "lastcomment")) then {"keywords"} else {}
      ensures parameters == if Truthy(Parameter(old(parameters), "group")) then old(parameters)["sortable" := "0"] else old(parameters)
      ensures context.messages == old(context.messages)
    {
      PrepareFormats();
      DisableSortingWhenGrouped();
    }

    /** `overrideFormats` (BugzillaQuery.php:1010-1021). */
    method OverrideFormats()
      modifies this`formats
      ensures formats == OverriddenFormats(old(formats), Lookup("modifiedformat"), Lookup("createdformat"))
    {
      var modified := Lookup("modifiedformat");
      if Truthy(modified) {
        formats := formats["modified" := modified.value];
      }
      var created := Lookup("createdformat");
      if Truthy(created) {
        formats := formats["created" := created.value];
      }
    }

    /** `getMaxRows` (BSQLQuery.php:822-833). */
    method GetMaxRows() returns (rows: string)
      requires Valid()
      modifies context`warnings, context`messages
      ensures Valid()
      ensures var r := Formatting.MaxRows(Lookup("maxrows"), context.maxrowsFromConfig, Formatting.MaxRowsWarning);
        rows == r.value && context.messages == old(context.messages) + r.warnings
    {
      var requested := Lookup("maxrows");
      if Truthy(requested) {
        if LooseGreater(requested.value, context.maxrowsFromConfig) {
          context.Warn(Formatting.MaxRowsWarning);
          rows := NatToString(context.maxrowsFromConfig);
        } else {
          rows := requested.value;
        }
      } else {
        rows := NatToString(context.maxrowsFromConfig);
      }
    }

    /** `getMaxRowsForBarChart` (BSQLQuery.php:841-852). */
    method GetMaxRowsForBarChart() returns (rows: string)
      requires Valid()
      modifies context`warnings, context`messages
      ensures Valid()
      ensures var r := Formatting.MaxRows(Lookup("maxrowsbar"), context.maxrowsForBarChartFromConfig, Formatting.MaxRowsBarWarning);
        rows == r.value && context.messages == old(context.messages) + r.warnings
    {
      var requested := Lookup("maxrowsbar");
      if Truthy(requested) {
        if LooseGreater(requested.value, context.maxrowsForBarChartFromConfig) {
          context.Warn(Formatting.MaxRowsBarWarning);
          rows := NatToString(context.maxrowsForBarChartFromConfig);
        } else {
          rows := requested.value;
        }
      } else {
        rows := NatToString(context.maxrowsForBarChartFromConfig);
      }
    }
  }
}
