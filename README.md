# BugzillaReports in Dafny

A model of the core of the MediaWiki BugzillaReports extension. A wiki page
holds a `{{#bugzilla:…}}` call. The extension reads its `name=value`
arguments, checks each value against the parameter's regular expression and
stores it. From those parameters it builds one SQL statement against a
Bugzilla database: the WHERE clause, the columns to show, the fields to
fetch, the sort order and the grouping. It also builds a search URL back into
Bugzilla, and it formats each result cell.

Modules, following the source files:

- `Php`: the PHP built-ins the core relies on, stated over `seq<char>`. These
  are `trim`, `strpos`, `explode`, `implode`, `substr`, `str_replace`,
  `strtoupper`, integer interpolation and PHP 8's loose comparison of numeric
  word strings (`Php.LooseEquals`).
- `Diagnostics`: the shared context object. It holds the warnings list, the
  configuration (`rawHTML`, `bzserver`, `interwiki`, the row limits) and the
  debug level (BMWExtension.php).
- `Schema`: the tables of BugzillaQuery.php's parameter list. These are the
  supported names, their types and defaults, SQL columns, sort mappings,
  default orders, value titles, field mappings and the initial formats.
- `Validation`: the parameter expressions, `safeSQLdecode` and
  `tidyCommaSeparated` (BSQLQuery.php, BugzillaReports.php).
- `Filters`: `getWhereClause`, `getMatchExpression`, the int and date WHERE
  builders and the special values (BSQLQuery.php, BugzillaQuery.php).
- `Sorting`: the resolution of `sort`, `order`, `group` and `grouporder`, and
  `getMappedSort`.
- `Columns`: the column-list algebra of `getColumns`, `applyImplicitColumns`,
  `getColumnNameAndRegisterTitle` and `isCustomField`.
- `SearchUrl`: `getBZQuery`, the Bugzilla search URL fragments.
- `Sql`: the text of the statement of `getSQL`: select list, joins, WHERE,
  grouping, and the wrapper of the count format.
- `Formatting`: cell rendering (`formatForExplicitFormat`, `format`,
  `formatForHeading`, `getValueTitle`, `convertNameToTla`, `mapField`,
  `getMaxRows`).
- `Query`: the query object. `BugzillaQuery` is a class whose methods update
  the store, the cache, the implicit columns, the required fields, the
  formats and the search URL in place. Each method is proved against a pure
  function of the state before the call. The properties the source promises
  are lemmas about those functions.
- `Extension`: the argument reader `extractOptions` and the host's `set`.

Where the code departs from its evident intent (see "## Findings"), the
operational members follow the code as written: `Formatting.TlaAsWritten`,
`Columns.IsCustomFieldAsWritten` and `Query.OneValueAsWritten`. The intended
readings, `Formatting.Tla`, `Columns.IsCustomField` and `Query.OneValue`, are
kept beside them with their properties and the lemmas that say where the two
agree.

The model follows PHP 8 semantics, except where "## Left out" names PHP 7.

I/O stays outside the model. The database connection, the clock and the
renderers are not modelled. The field-id table is a constructor argument. The
clock enters as `now`, and the `date('Y-m-d', ·)` rendering as a function
parameter `ymd`.

## Model

| member | source | states |
|---|---|---|
| Diagnostics.Context.Warn | BMWExtension.php:64-67 | a warning appends exactly one list item and keeps everything recorded before |
| Diagnostics.Context.GetWarnings | BMWExtension.php:69-75 | null exactly when nothing was warned; otherwise every warning so far, in order, inside one box |
| Diagnostics.WarningsOnlyGrow | BMWExtension.php:64-67 | the items of earlier warnings remain a prefix of the list after more warnings |
| Extension.Reports.Set | BugzillaReports.php:191-198 | `debug` goes to the extension's debug level; every other name goes to the query's `set` |
| Extension.Reports.ExtractOption | BMWExtension.php:22-42 | one argument line changes the state as `OptionLine` says: skipped without `=`, otherwise set when valid or warned |
| Extension.Reports.ExtractOptions | BMWExtension.php:20-46 | the whole call is the lines applied in order |
| Extension.LineWithoutEqualsSkipped | BMWExtension.php:22-24 | a line without `=` changes nothing and warns nothing |
| Extension.SplitAtFirstEquals | BMWExtension.php:26-27 | the name is what precedes the first `=`; later `=` belong to the value, which alone is trimmed |
| Extension.AcceptedValueIsSet | BMWExtension.php:37-38 | a value its expression accepts is set exactly as trimmed |
| Extension.RejectedValueWarnsOnce | BMWExtension.php:40-42 | a rejected value sets nothing and adds exactly one warning that names it |
| Extension.DebugLevelsOnly | BugzillaReports.php:204-210 | a line leaves `debug` as it was or sets it to `1` or `2` |
| Extension.DebugLevelsOnlyAll | BugzillaReports.php:204-210 | over a whole call `debug` ends as it started or at `1` or `2` |
| Extension.LastWriteWins | BMWExtension.php:20-46 | the last valid line for a supported name decides its stored value; other names keep what earlier lines set |
| Extension.WarningsOnlyAppend | BMWExtension.php:20-46 | warnings are only appended, at most one per line |
| Validation.HostPolicy | BugzillaReports.php:204-210 | `debug` has its own expression, and every other name uses the query's |
| Validation.Match | BMWExtension.php:37-38 | `preg_match`'s `$matches[0]`: the value when accepted; without its final line feed when only that is accepted; otherwise nothing |
| Validation.MatchTrimmed | BMWExtension.php:27-37 | a trimmed value matches as a whole or not at all |
| Validation.OnlyFreeTextCarriesQuotes | BSQLQuery.php:136-169 | no expression except that of `free` parameters admits a quote character |
| Validation.SafeSqlDecode | BSQLQuery.php:1246-1255 | the URL-decoded text when all of it is safe; otherwise the sentinel and one warning; the result is always safe and quote-free |
| Validation.SafePlainValue | BSQLQuery.php:1246-1255 | a safe value without `+` or `%` passes unchanged and silently |
| Validation.TidyPieces | BSQLQuery.php:118-128 | tidying keeps the comma-separated pieces and their number, each trimmed |
| Validation.TidyIdempotent | BSQLQuery.php:118-128 | tidying twice is tidying once |
| Validation.TidyCommaSeparated | BSQLQuery.php:118-128 | the loop over the exploded pieces computes `Tidy` |
| Query.StoreParameter | BSQLQuery.php:92-109 | a supported name is stored without warning; any other name leaves the store alone and warns once |
| Query.SetThenGet | BSQLQuery.php:193-208 | a stored value reads back through `get` in its tidied form, and no other name changes |
| Query.StoredIdempotent | BSQLQuery.php:92-109 | storing a stored value again changes nothing |
| Query.StoredKeepsPieces | BSQLQuery.php:92-109 | the stored value has as many comma-separated pieces as the given one |
| Query.BugzillaQuery.Set | BSQLQuery.php:92-109 | the store and the warnings become what `StoreParameter` says |
| Query.BugzillaQuery.SetImplicit | BSQLQuery.php:177-185 | a supported name gets its implicit value; any other name only warns |
| Query.BugzillaQuery.Get | BSQLQuery.php:193-208 | the explicit value, else the default; never an implicit value; an unsupported name warns |
| Query.BugzillaQuery.GetImplicit | BSQLQuery.php:239-250 | the implicit value only; an unsupported name warns |
| Query.BugzillaQuery.GetExplicit | BSQLQuery.php:259-270 | the explicit value only; an unsupported name warns |
| Query.BugzillaQuery.GetDefault | BSQLQuery.php:278-289 | the declared default only; an unsupported name warns |
| Query.BugzillaQuery.RequireField | BSQLQuery.php:298-302 | the field joins the required set, and the set only grows |
| Query.AffirmativeSpellings | BSQLQuery.php:216-229 | `is` accepts `1` and `y` only: not `true`, `Y`, `0`, empty or unset |
| Sorting.Resolve | BSQLQuery.php:859-997 | the explicit value when truthy, else the implicit when truthy, else the fallback |
| Sorting.ResolvedTruthy | BSQLQuery.php:859-997 | the result is falsy only when every tier was |
| Sorting.Direction | BSQLQuery.php:929-974 | `DESC` exactly for the literal `desc`, `ASC` for anything else |
| Sorting.SortWithGroup | BSQLQuery.php:874-877 | a set group goes first with its direction; then comes the sort unchanged |
| Sorting.SortMapping | BSQLQuery.php:54-65 | the explicit sort mapping, else the SQL column, else the name itself |
| Sorting.MappedTerm | BSQLQuery.php:898-912 | a term sorts on its column's mapping, with at most one warning |
| Sorting.BareColumn | BSQLQuery.php:898-912 | a bare column sorts on its mapping, silently |
| Sorting.ColumnWithDirection | BSQLQuery.php:898-912 | a direction word of either case becomes `ASC` or `DESC`; any other word is dropped with one warning |
| Sorting.ExtraWordsIgnored | BSQLQuery.php:898-912 | a term of three words or more sorts on its first word only, silently |
| Sorting.BareColumnsTerms | BSQLQuery.php:892-922 | bare columns sort on their mappings, in order, without warnings |
| Sorting.BareColumns | BSQLQuery.php:892-922 | a comma list of bare columns maps to the join of their mappings |
| Sorting.SortColumns | BSQLQuery.php:1198-1203 | one column per sort term, the term's first word |
| Sorting.GetMappedSort | BSQLQuery.php:892-922 | the loop that pushes and joins mapped terms computes `MappedSort` |
| Query.BugzillaQuery.GetGroup | BSQLQuery.php:981-997 | the resolved group, cached; an unset group is cached as empty |
| Query.BugzillaQuery.GetGroupOrder | BSQLQuery.php:955-974 | the resolved group direction, cached |
| Query.BugzillaQuery.GetOrder | BSQLQuery.php:929-948 | the resolved direction, cached |
| Query.BugzillaQuery.GetSort | BSQLQuery.php:859-885 | the resolved sort with the group in front, cached; a cached sort is returned as is |
| Query.BugzillaQuery.OrderFixedOnFirstUse | BSQLQuery.php:929-948 | once computed, the order does not change even when parameters change afterwards |
| Query.BugzillaQuery.GetMappedSort | BSQLQuery.php:892-922 | the mapped form of the cached sort, with its warnings |
| Filters.ControlOf | BugzillaQuery.php:888-897 | the control character, when present, is `!`, `<` or `>` |
| Filters.OperatorText | BugzillaQuery.php:911-938 | every operator ends in the one opening quote of the literal |
| Filters.MatchExpression | BugzillaQuery.php:887-939 | the comparison starts with the column and ends with a quote; with a quote-free column name it holds exactly two quotes; at most one warning |
| Filters.NegationIsOpposite | BugzillaQuery.php:896-938 | an incoming negation always yields the opposite comparison |
| Filters.PlainComparator | BugzillaQuery.php:896-938 | `%` means a pattern match; otherwise `<`, `>` and `!` choose less, greater or not-equal; otherwise equality |
| Filters.LikeIffPercent | BugzillaQuery.php:911-917 | a pattern match happens exactly when the raw term holds `%` |
| Filters.WhereClauseSpecial | BSQLQuery.php:801-814 | `+` is not null, `-` is null, `*` is no condition; anything else warns and adds nothing |
| Filters.WhereClause | BSQLQuery.php:669-706 | a special value, or a parenthesised list of comparisons joined by OR (AND under `!(`), or a single comparison |
| Filters.WhereClauseSpecials | BSQLQuery.php:669-706 | the three special values compile to exactly their conditions |
| Filters.PlainValueClause | BSQLQuery.php:669-706 | a plain word value compiles to one equality on itself and warns nothing |
| Filters.NegatedListTerms | BSQLQuery.php:681-697 | under `!(…)` every term says the opposite of what it says on its own |
| Filters.TermsAt | BSQLQuery.php:691-698 | term `i` of a list compiles from piece `i` alone |
| Filters.GetWhereClause | BSQLQuery.php:669-706 | the accumulating loop computes `WhereClause` |
| Filters.ListClause | BSQLQuery.php:677-702 | the list loop joins the terms with the operator inside parentheses |
| Filters.IntWhereClause | BSQLQuery.php:716-728 | only `+` is understood; every other value warns once and adds nothing |
| Filters.DateOffset | BSQLQuery.php:768-781 | a relative date is one that starts with a sign |
| Filters.AbsoluteDate | BSQLQuery.php:767-791 | a relative date is the calendar day of `now` plus its offset; anything else is kept as written |
| Filters.RelativeOffset | BSQLQuery.php:768-786 | `+Nd`, `+Nw` and `+Nm` move N days, weeks or 30-day months ahead; `-` moves back as far |
| Filters.UnitWithoutCount | BSQLQuery.php:768-776 | a sign and a unit without digits, such as `+d` or `-w`, move by nothing |
| Filters.OffsetSigns | BSQLQuery.php:768-786 | the two signs move the same distance in opposite directions |
| Filters.RangePieces | BSQLQuery.php:738-761 | `explode` yields the two pieces around the first colon |
| Filters.DateWhereClause | BSQLQuery.php:738-761 | a range bounds both ends, with `*` for an open end; `+X` is an upper bound; `-X` is a lower bound |
| Filters.AbsoluteRange | BSQLQuery.php:738-761 | a range of fixed days compiles to both bounds on the days as written |
| SearchUrl.SafeValue | BugzillaQuery.php:955-956 | spaces are encoded, so none remain |
| SearchUrl.BzQuery | BugzillaQuery.php:948-1005 | an unsupported value adds nothing; otherwise one triple per term, and the counter moves by the term count under AND and by one under OR |
| SearchUrl.CounterAdvances | BugzillaQuery.php:948-1005 | the counter never decreases, and every supported value moves it on |
| SearchUrl.NegatedIffBang | BugzillaQuery.php:959-977 | the terms are negated exactly when the value holds `!` |
| SearchUrl.NoSpaces | BugzillaQuery.php:948-1005 | with a space-free field name the fragment holds no space |
| SearchUrl.FieldIdInjective | BugzillaQuery.php:979-1002 | different counters or groups give different field ids |
| SearchUrl.TermIdsDistinct | BugzillaQuery.php:979-1002 | within one call every term gets its own id |
| SearchUrl.TermIdsBelowNext | BugzillaQuery.php:979-1002 | the ids one call uses lie below the counter it leaves for the next call |
| SearchUrl.AppendTriples | BugzillaQuery.php:979-1002 | the loop appends one triple per term, moving the counter under AND and the group under OR |
| SearchUrl.BuildBzQuery | BugzillaQuery.php:948-1005 | the method computes `BzQuery` |
| Query.BugzillaQuery.GetBzQuery | BugzillaQuery.php:948-1005 | the fragment, with the object's counter threaded through |
| Query.OneValueAgrees | BugzillaQuery.php:827-832 | the written and the intended one-value tests agree on every value that does not start with a comma |
| Query.OneValueIsOnePiece | BugzillaQuery.php:827-832 | the intended test holds exactly when `explode` finds one piece |
| Query.FieldWhere | BugzillaQuery.php:852-869 | an unhandled type, and `field-filter`, add no condition and no warning |
| Query.ColumnRule | BugzillaQuery.php:837-851 | a multi-valued filter adds its column and sets its default sort; a single value removes the column; nothing else changes |
| Query.FieldEffect | BugzillaQuery.php:824-885 | an unhandled type changes nothing; a handled one requires the field, extends the search URL, and marks the report as naming one bug when a `field-id` value passes the `!strpos` test as written, a leading comma included |
| Query.FieldAdvancesCounter | BugzillaQuery.php:871-881 | a handled field with a usable value moves the search counter on |
| Query.FilteredColumnShownIffMultiValued | BugzillaQuery.php:837-851 | a multi-valued filter shows its column and takes its default sort; a single value hides it |
| Query.BugzillaQuery.ApplyColumnRule | BugzillaQuery.php:837-851 | the state becomes what `ColumnRule` says |
| Query.BugzillaQuery.RecordField | BugzillaQuery.php:852-884 | the WHERE fragment, the required field and the search URL as `RecordStep` says |
| Query.BugzillaQuery.ProcessField | BugzillaQuery.php:824-885 | the state becomes what `FieldEffect` says, with the one-bug flag set by the `!strpos` test as written, and the fragment is the field's WHERE condition |
| Query.RuleOfReadsParameters | BugzillaQuery.php:1037-1048 | the custom-field rule reads `implicitcustom` and `customprefix` as `get` would |
| Query.FilterFieldEffect | BugzillaQuery.php:440-455 | a filter on a column that is neither custom, by the index lookup as written, nor of a field type warns and adds nothing |
| Query.FilterArgEffect | BugzillaQuery.php:434-457 | an argument without `%3D` warns and adds nothing |
| Query.ExplodeAtFirst | BugzillaQuery.php:437-440 | an argument `name%3Dvalue` is split right after the name |
| Query.NonFieldFilterIgnored | BugzillaQuery.php:440-455 | a filter on a parameter that is neither custom, by the index lookup as written, nor a field is ignored, with one warning |
| Query.CustomFilterIsField | BugzillaQuery.php:440-455 | a filter on a field that the index lookup as written calls custom is processed as a plain field, and the field is recorded as a required custom field |
| Query.ParameterEffect | BugzillaQuery.php:424-470 | a falsy parameter contributes nothing |
| Query.ParametersOnlyAdd | BugzillaQuery.php:424-471 | the WHERE loop only adds to the state: fields, columns, custom fields and warnings |
| Query.FilterArgsOnlyAdd | BugzillaQuery.php:430-458 | the `filters` loop only adds to the state |
| Query.BugzillaQuery.ProcessFilterField | BugzillaQuery.php:440-455 | the state and fragment are what `FilterFieldEffect` says, custom fields decided by the index lookup as written |
| Query.BugzillaQuery.ProcessFilterArg | BugzillaQuery.php:434-457 | the state and fragment are what `FilterArgEffect` says |
| Query.BugzillaQuery.ProcessFilters | BugzillaQuery.php:430-458 | the arguments are processed in order, as `FilterArgs` says |
| Query.BugzillaQuery.ProcessParameter | BugzillaQuery.php:426-470 | the state and fragment are what `ParameterEffect` says |
| Query.BugzillaQuery.ProcessFieldParameter | BugzillaQuery.php:459-469 | a field-typed parameter is processed as `FieldParameterEffect` says |
| Query.BugzillaQuery.CollectWhere | BugzillaQuery.php:424-471 | every supported parameter in declaration order, as `ParametersEffect` says |
| Query.SearchClause | BugzillaQuery.php:489-491 | no `search` gives no clause; otherwise a `LIKE '%…%'` on the summary |
| Columns.RemoveKeyMembers | BSQLQuery.php:1073 | unsetting a key drops exactly that key and keeps the rest unrepeated |
| Columns.DedupMembers | BSQLQuery.php:1108-1113 | each name once, and no others |
| Columns.DedupAppend | BSQLQuery.php:1108-1113 | names of the first list keep their places; the second adds only new names |
| Columns.ApplyImplicitMembers | BSQLQuery.php:1170-1191 | each listed or implicitly added column once, unless implicitly removed |
| Columns.ApplyImplicitOrder | BSQLQuery.php:1170-1191 | the columns' own order first, then the order of addition |
| Query.BugzillaQuery.ApplyImplicitColumns | BSQLQuery.php:1170-1191 | the loop computes `ApplyImplicit` |
| Columns.SignedMatch | BSQLQuery.php:1030 | an operator and the rest exactly when the value starts with a sign; the rest loses only a final line feed |
| Columns.NameAndTitle | BSQLQuery.php:1151-1162 | the name is what precedes the first colon; without a colon the entry is the name |
| Columns.RegisterTitle | BSQLQuery.php:1151-1162 | an entry with a title registers exactly its name; one without changes nothing |
| Query.BugzillaQuery.RegisterColumnTitle | BSQLQuery.php:1151-1162 | the name returned and the title table are what `NameAndTitle` and `RegisterTitle` say |
| Columns.ListedIsCustom | BugzillaQuery.php:1037-1048 | a listed custom field is custom under the intended reading |
| Columns.PrefixedIsCustom | BugzillaQuery.php:1037-1048 | a column that starts with the custom prefix is custom under both readings |
| Php.LooseEqualsEquivalence | BugzillaQuery.php:1043 | loose equality of strings is reflexive and symmetric |
| Php.LooseNumbers | BugzillaQuery.php:1043 | two spellings of one number (`1` and `01`, `100` and `1e2`) are loosely equal; a number and a word are not |
| Columns.NumericPrefixMatchesLoosely | BugzillaQuery.php:1043 | the prefix is compared loosely: with `customprefix=01`, the column `1` is custom as written |
| Columns.ImplicitCustomAgrees | BugzillaQuery.php:1037-1048 | under `implicitcustom` both readings say: custom exactly when the column has no heading |
| Columns.FirstIndex | BSQLQuery.php:1079-1084 | no index when the column is absent; otherwise its first position |
| Query.BugzillaQuery.FindColumn | BSQLQuery.php:1076-1084 | the search loop finds the first position |
| Columns.EditStep | BSQLQuery.php:1042-1103 | one entry warns at most once and appends at most one column; an added column is recorded as custom by the index lookup as written |
| Columns.OwnOperatorWins | BSQLQuery.php:1047-1050 | an entry with its own sign ignores the leading one |
| Columns.AddedIsShown | BSQLQuery.php:1062-1074 | an added column is shown and no longer implicitly removed |
| Columns.RemovingAbsentOnlyWarns | BSQLQuery.php:1098-1100 | removing a column not in the base list changes nothing but one warning |
| Columns.RemovingPresentDrops | BSQLQuery.php:1086-1097 | removing a base column takes it out of the base and of the implicit additions |
| Columns.EditedColumnsMembers | BSQLQuery.php:1108-1113 | no column twice; every added one shown; any other shown one comes from the base or the implicit additions and was not removed |
| Columns.ListAllNames | BSQLQuery.php:1123-1132 | the outright list is the entries' names, in order |
| Query.BugzillaQuery.EditColumn | BSQLQuery.php:1042-1103 | one entry edits the state as `EditStep` says, custom columns decided by the index lookup as written |
| Query.BugzillaQuery.EditEntries | BSQLQuery.php:1042-1104 | the entries in order, as `EditAll` says |
| Query.BugzillaQuery.EditColumns | BSQLQuery.php:1037-1113 | a signed value edits the default list entry by entry |
| Query.BugzillaQuery.ListColumns | BSQLQuery.php:1122-1132 | an unsigned value lists its columns outright, as `ListAll` says, custom columns decided by the index lookup as written |
| Query.BugzillaQuery.ResolveExplicitColumns | BSQLQuery.php:1029-1133 | the explicit branch as `ExplicitColumns` says |
| Query.BugzillaQuery.GetColumns | BSQLQuery.php:1024-1141 | computed once and then returned from the cache while non-empty |
| Query.EditedColumnsShown | BSQLQuery.php:1030-1117 | a signed value gives no column twice, shows every column it adds, and shows no removed base column |
| Query.ListedColumnsInOrder | BSQLQuery.php:1118-1133 | an unsigned value lists its entries' names in order and leaves the implicit columns and warnings alone |
| Query.DefaultColumnsImplicit | BSQLQuery.php:1134-1138 | without a value, the default and added columns less the removed |
| Query.SortShownGroupsHidden | BSQLQuery.php:1196-1212 | sorted columns are shown and grouped ones hidden, even when a grouped column is also sorted |
| Query.AddKeysMembers | BSQLQuery.php:1014-1017 | implicit additions keep earlier keys first and in order, and add the new names |
| Query.BugzillaQuery.ImplicitlyAdd | BSQLQuery.php:1014-1017 | the column joins the implicit additions once |
| Query.BugzillaQuery.ImplicitlyRemove | BSQLQuery.php:1004-1007 | the column joins the implicit removals once |
| Query.BugzillaQuery.AddCustomField | BugzillaQuery.php:1055-1058 | the field is appended to the required custom fields |
| Query.BugzillaQuery.AddSortColumns | BSQLQuery.php:1198-1203 | every sorted column is added implicitly, in order |
| Query.BugzillaQuery.HideGroupColumns | BSQLQuery.php:1206-1210 | every grouped column is removed implicitly and still fetched |
| Query.BugzillaQuery.RequireColumns | BSQLQuery.php:1213-1215 | every rendered column is fetched |
| Query.BugzillaQuery.RequireRenderedFields | BSQLQuery.php:1213-1222 | the rendered columns and the bar field are fetched |
| Query.BugzillaQuery.ImplicitSortAndGroupColumns | BSQLQuery.php:1198-1210 | the sort is cached; its columns are added and the group's removed but fetched |
| Query.BugzillaQuery.ColumnsAfterImplicit | BSQLQuery.php:1198-1212 | the columns are computed after the implicit sort and group columns |
| Query.BugzillaQuery.PreSQLGenerate | BSQLQuery.php:1196-1223 | the grouped, rendered and bar fields are required, and the columns are computed after the implicit rules |
| Query.BugzillaQuery.RequireModeFields | BugzillaQuery.php:473-487 | the format, flag and last-comment modes require their fields; the flag mode adds its three columns |
| Query.BugzillaQuery.AddFlagColumns | BugzillaQuery.php:478-483 | the flag mode adds its three columns in order |
| Query.BugzillaQuery.ImplicitGroupOrder | BugzillaQuery.php:494-496 | a grouped column with a default order sorts its groups that way |
| Query.BugzillaQuery.GroupOrderAndFlagFields | BugzillaQuery.php:493-502 | the implicit group order is set and the quick flag and alias fields are required; the group stays as it was |
| Query.BugzillaQuery.WhereClause | BugzillaQuery.php:424-491 | the WHERE text of the loop and the search term; the whole new state is the loop's effect with the mode fields required and, in flag mode, the three flag columns added |
| Query.BugzillaQuery.PrepareStatement | BugzillaQuery.php:493-505 | the implicit group order is set; the required fields are exactly the earlier ones, the quick flag and alias, the grouped, the rendered and the bar fields; computed columns are kept |
| Query.BugzillaQuery.Statement | BugzillaQuery.php:505-811 | the statement text over the fields required by then; the joins' warnings come first, then the sort mapping's |
| Query.BugzillaQuery.GetSQL | BugzillaQuery.php:418-814 | the statement is `StatementText` of the WHERE clause; the mode, quick flag and alias fields are among those required |
| Sql.Table | BMysqlConnector.php:108-110 | MySQL qualifies a table with its database; PostgreSQL keeps the name |
| Sql.IncludedFieldsMembers | BugzillaQuery.php:512-644 | a field's part appears exactly when the field is listed and required |
| Sql.StatementShape | BugzillaQuery.php:804-811 | every statement ends in `;`; a count is wrapped; anything else starts with the id column |
| Sql.AlwaysSelected | BugzillaQuery.php:512-644 | priority and severity are always selected; the quick flag never beside the flag |
| Sql.PartIffRequired | BugzillaQuery.php:512-799 | a field's select and join parts appear exactly when it is required |
| Sql.FlagWins | BugzillaQuery.php:512-799 | once the flag is required, requiring the quick flag too changes nothing |
| Sql.OnlyListedFieldsMatter | BugzillaQuery.php:512-799 | required names outside the list change nothing |
| Sql.LoginOnlyForPeople | BugzillaQuery.php:512-644 | a login or a name is chosen only for the person fields |
| Sql.NameFormatIrrelevant | BugzillaQuery.php:512-644 | with no person field required, `nameformat` leaves the statement unchanged |
| Query.LinkRule | BugzillaQuery.php:328-337 | a rule without `~` gives plain `link`; every format starts with `link` |
| Query.LinkRuleWithPrefix | BugzillaQuery.php:328-337 | `column~prefix` links the column to wiki pages under the prefix |
| Query.LinkFormatsKeys | BugzillaQuery.php:327-338 | the rules add a format for each column they name and remove none |
| Query.LastLinkRuleWins | BugzillaQuery.php:327-338 | the last rule naming a column decides its format |
| Query.UnlinkedFormatKept | BugzillaQuery.php:327-338 | a column no rule names keeps its format |
| Query.KeywordFormatKeeps | BugzillaQuery.php:341-346 | keywords always get a format; a given one is kept; nothing else changes |
| Query.OverriddenFormats | BugzillaQuery.php:1010-1021 | `modifiedformat` and `createdformat` replace those formats only |
| Query.BugzillaQuery.SetUpCustomFields | BugzillaQuery.php:317-326 | the search URL base, the custom field list and the prefix length |
| Query.BugzillaQuery.ApplyLinkRules | BugzillaQuery.php:328-338 | each rule sets its column's format and adds the column |
| Query.BugzillaQuery.ApplyLastComment | BugzillaQuery.php:340-347 | `lastcomment` links the keywords and requires them |
| Query.BugzillaQuery.ApplyRenderFormats | BugzillaQuery.php:327-347 | the link rules, then the keyword link, as `RenderFormats` says |
| Query.BugzillaQuery.DisableSortingWhenGrouped | BugzillaQuery.php:350-352 | grouping turns `sortable` off, and nothing else |
| Query.BugzillaQuery.PrepareFormats | BugzillaQuery.php:316-347 | the start of `render`, as the parts above state |
| Query.BugzillaQuery.PrepareRender | BugzillaQuery.php:316-352 | the start of `render`, then no sortable table when grouping |
| Query.BugzillaQuery.OverrideFormats | BugzillaQuery.php:1010-1021 | the formats become `OverriddenFormats` |
| Formatting.Tla | BSQLQuery.php:583-602 | the intended initials have at most three letters |
| Formatting.TlaOneWord | BSQLQuery.php:586-591 | a single word gets its first three letters, upper-cased |
| Formatting.TlaLongSurname | BSQLQuery.php:593-594 | a second word of two letters or more gives one letter of the first and two of the second |
| Formatting.NumberPattern | BSQLQuery.php:533-541 | integral values print as integers, tenths with one decimal, others with two |
| Formatting.WholeNumbers | BSQLQuery.php:533-541 | whole numbers print as integers |
| Formatting.Tenths | BSQLQuery.php:533-541 | tenths that are not whole print with one decimal |
| Formatting.BugLink | BSQLQuery.php:497-523 | a bug id links to `show_bug.cgi`, as HTML or as an external wiki link; the `+` flag marks a title that is not loosely equal to the id |
| Formatting.LinkCount | BSQLQuery.php:556-571 | a list of values renders one link per value |
| Formatting.RenderLinks | BSQLQuery.php:556-571 | the loop computes `LinkCell` |
| Formatting.FormatExplicit | BSQLQuery.php:448-575 | an unknown format warns once; a known one does not; a `tla` name gets the initials `convertNameToTla` computes as written |
| Formatting.NamesDoNotWrap | BSQLQuery.php:544-555 | names never hold a space |
| Formatting.TlaNames | BSQLQuery.php:544-555 | with `nameformat=tla` a name shows as `convertNameToTla` as written computes it: at most three letters, unless its second word is a single letter |
| Formatting.ZeroAsBlank | BSQLQuery.php:526-531 | zero shows as blank exactly when `zeroasblank` is `true` |
| Formatting.Format | BSQLQuery.php:612-619 | the column's format when it has one, otherwise the value as it is |
| Formatting.FormatForHeading | BSQLQuery.php:647-660 | a heading is never falsy; `groupformat` wins when set |
| Formatting.HeadingKeepsValue | BSQLQuery.php:647-660 | without `groupformat`, a column with no format shows a non-falsy value as it is |
| Formatting.HeadingShowsFormatted | BSQLQuery.php:652-659 | without `groupformat`, a heading shows the column's formatted value when it is not falsy and exactly `not set` when it is, with the format's warnings |
| Formatting.GroupFormatDecides | BSQLQuery.php:648-659 | with `groupformat` set, the heading depends on neither the column nor the column formats: it is the group format's value, or `not set` when that is falsy |
| Formatting.GetValueTitle | BSQLQuery.php:628-638 | the loop computes `ValueTitle`, which is trimmed and empty for a column without titles |
| Formatting.MapField | BSQLQuery.php:1229-1235 | the mapped key when there is one, otherwise the column |
| Formatting.MapFieldIdempotent | BSQLQuery.php:1229-1235 | mapping twice is mapping once |
| Formatting.MaxRows | BSQLQuery.php:822-833 | the request unless falsy or above the configured limit; only the latter warns |
| Formatting.MaxRowsBounded | BSQLQuery.php:822-833 | a limit in digits never exceeds the configured one |
| Query.BugzillaQuery.GetMaxRows | BSQLQuery.php:822-833 | the limit and warning `MaxRows` gives for `maxrows` |
| Query.BugzillaQuery.GetMaxRowsForBarChart | BSQLQuery.php:841-852 | the limit and warning `MaxRows` gives for `maxrowsbar` |
| Formatting.TlaDeadBranch | BSQLQuery.php:595 | the name `Jo B` gets four letters as written and three as intended |
| Columns.IndexLookupMissesNames | BugzillaQuery.php:1044 | the written lookup misses a listed field and accepts a number instead |
| Query.LeadingCommaCountsAsOne | BugzillaQuery.php:828 | a list that starts with a comma passes the written one-value test |

## Left out

- The database connection, `initFieldIds` (BugzillaQuery.php:1064-1080) and running the statement: the field-id table is a constructor argument.
- The clock and the date renderings: `now` and `ymd` are parameters. `getRadarFormat`, `getRelativeDateFormat` and the `date`, `relativedate` and `radar` branches of `formatForExplicitFormat` are not modelled, because they depend on the clock and on PHP's date formatting.
- `sprintf` and floating point output: `Formatting.NumberPattern` picks the pattern but does not render the number.
- The renderers and the rest of `render` after its first steps: the HTML output is not modelled.
- Debug logging (`wfDebugLog`, `debug()`, BMWExtension.php:51-59): it writes to a log and changes no state the model keeps.
- Php.LooseEquals: loose comparison (`==`, `!=`) of two strings, used for the custom prefix (BugzillaQuery.php:1043) and the bug-link title (BSQLQuery.php:503). It recognises numeric strings made of word characters only (digits, with an optional `e` exponent); a sign, a decimal point or surrounding whitespace, which PHP 8 also accepts as numeric, make the string compare as text here. Numbers are compared exactly, not as doubles.
- Formatting.ZeroAsBlank: `$value == 0` (BSQLQuery.php:526) is modelled as `Cell.number == 0.0`, the number PHP reads from a numeric database value. For a non-numeric text such as `0abc`, PHP 8 compares it with `"0"` as a string and does not take the zero branch; the model does not tie the number to the text.
- `array_fill_keys` is called with one argument at BSQLQuery.php:1108 and 1171. PHP does not accept that call. The model takes the evident intent: an order-preserving de-duplication by name (`Columns.Dedup`).
- The warning "Operation not recognised in column" (BSQLQuery.php:1102) cannot be reached: the regular expression admits only `+` and `-`. The model has no such branch.
- The default of `extractOptions` when `preg_match` fails cannot be reached: the model has no such branch.
- Query.BugzillaQuery.PrepareStatement: the sort put in the cache and the columns computed when none were cached are those `preSQLGenerate` gives for the state after the implicit group order. The contract does not restate them in terms of the state before the call.
- Query.BugzillaQuery.GetSQL: the contract states the statement and a lower bound for the required fields, not the exact required set; the warnings of the WHERE loop are stated by `CollectWhere`, not by `GetSQL`.
- Formatting.MaxRows: the limit is returned as text, as the parameter holds it, not converted to an integer.
- Query.BugzillaQuery.Lookup: internal reads use the pure lookup and skip `get`'s warning for unsupported names, which never happens for the fixed names the core reads.
- Query.BugzillaQuery.GetSort: the group part is resolved through the cached group, as `getSort` reads it through `getGroup`.
- The supported parameters and their defaults are tables in `Schema`, not instance fields.
- Query.RuleOf: reads `implicitcustom` and `customprefix` from the store directly; `RuleOfReadsParameters` proves that equal to `get`.
- `getDBValue`, `getFormats` and `getDefaultSort` return a field or a constant and are not modelled separately.
- `isRequired` (BSQLQuery.php:310-316) is set membership on `fieldsRequired`.
- Filters.RelativeOffset: a sign and a unit without digits (`+d`) multiply the unit by the empty string (BSQLQuery.php:770, 773, 776). The model follows PHP 7, which warns and reads it as 0 (`Filters.UnitWithoutCount`); PHP 8 throws a `TypeError` there, which the model does not raise. The same holds for `Filters.DateOffset` and `Filters.UnsignedOffset`.
- Strings are sequences of characters, not bytes. `strlen` and `substr` count bytes in `convertNameToTla` (BSQLQuery.php:587-598, `Formatting.TlaAsWritten`), in `customPrefixLength` (BugzillaQuery.php:325, `Query.BugzillaQuery.SetUpCustomFields`) and in the prefix cut of `isCustomField` (BugzillaQuery.php:1043, `Columns.LeadingPart`). The model counts characters, so for a name such as `Zoë` it keeps the whole `ë` where PHP cuts inside it.
- Formatting.NumberPattern: the pattern is chosen over exact reals, not IEEE doubles. `Formatting.Tenths` holds of exact reals only: in doubles `0.7 * 10` is 7.000000000000001, so PHP prints 0.7 with two decimals.

## Findings

The operations follow the code as written (`Formatting.TlaAsWritten`, `Columns.IsCustomFieldAsWritten`, `Query.OneValueAsWritten`). In each row the as-written member exhibits the discrepancy, and the corrected member proves the intended property of the intended reading.

| source | as written | input that shows it | evidently intended | confidence | as-written member | corrected member |
|---|---|---|---|---|---|---|
| BSQLQuery.php:595 | the middle branch tests `strlen($name[0] > 1)`, an undefined variable, so it never fires | `Jo B` gives `JOBA` | `Jo B` gives `JOB`: two letters of a long first word and one of the second | not executed | Formatting.TlaDeadBranch | Formatting.Tla |
| BugzillaQuery.php:1044 | `isCustomField` looks the column up as an index of the custom field list | with `customfields=bug_color`, `bug_color` is not custom but `0` is | a listed field is custom | not executed | Columns.IndexLookupMissesNames | Columns.ListedIsCustom |
| BugzillaQuery.php:828 | `!strpos($value, ',')` is also true when the comma is at index 0 | `,1,2` counts as one bug | one bug exactly when there is one comma-separated piece | not executed | Query.LeadingCommaCountsAsOne | Query.OneValueIsOnePiece |
