/**
 * The SQL text of a report (BugzillaQuery.php:507-812): which select items
 * and joins appear is decided by the set of required fields alone; `format`
 * chooses the counting wrapper and `nameformat` whether people are listed by
 * login or by real name. The WHERE fragments, the mapped sort and the order
 * are computed before the text is assembled and come in as strings.
 */
module Sql {
  import opened Php
  import opened Diagnostics
  import Filters

  /** The database a connector talks to; MySQL tables are qualified by the database name. */
  datatype Dialect = MySql(database: string) | Postgres

  /** `getTable` of the two connectors (BMysqlConnector.php:108-110, BPGConnector.php:137-139). */
  function Table(d: Dialect, table: string): (r: string)
    ensures d.Postgres? ==> r == table
    ensures d.MySql? ==> r == "`" + d.database + "`." + table
  {
    match d
    case MySql(db) => "`" + db + "`." + table
    case Postgres => table
  }

  /** The concatenation of a list of SQL pieces. */
  function Concat(items: seq<string>): string {
    if items == [] then "" else Concat(items[..|items| - 1]) + items[|items| - 1]
  }

  /** The fields whose presence decides one select item, in the order of the select list. */
  const SelectOrder: seq<string> := [
    "alias", "assigned", "attachments", "blocks", "cc", "closed", "component", "created",
    "deadline", "depends", "flag", "quickflag", "estimated", "from", "hardware", "keywords",
    "milestone", "lastcomment", "modified", "os", "priority", "product", "qa", "remaining",
    "reopened", "resolution", "resolved", "severity", "status", "summary", "to", "url",
    "version", "votes", "work"
  ]

  /** The fields whose presence decides one join, in the order of the joins. */
  const JoinOrder: seq<string> := [
    "assigned", "attachments", "blocks", "component", "cc", "closed", "depends", "flag",
    "quickflag", "from", "lastcomment", "product", "qa", "reopened", "resolved", "to",
    "verified", "alias", "work"
  ]

  /**
   * Whether a part appears: priority and severity always (the row is styled
   * by them), the quick flag only when the full flag is not required, every
   * other part when its field is required.
   */
  predicate Included(field: string, required: set<string>) {
    if field == "priority" || field == "severity" then true
    else if field == "quickflag" then "quickflag" in required && "flag" !in required
    else field in required
  }

  /** The fields of `order` whose parts appear, in order. */
  function IncludedFields(order: seq<string>, required: set<string>): seq<string> {
    if order == [] then []
    else
      var init := IncludedFields(order[..|order| - 1], required);
      var f := order[|order| - 1];
      if Included(f, required) then init + [f] else init
  }

  /** The included fields are those of the list whose parts appear, and no more than the list. */
  lemma {:induction false} IncludedFieldsMembers(order: seq<string>, required: set<string>)
    ensures forall f :: f in IncludedFields(order, required) <==> f in order && Included(f, required)
    ensures |IncludedFields(order, required)| <= |order|
    decreases |order|
  {
    if order != [] {
      var init := order[..|order| - 1];
      IncludedFieldsMembers(init, required);
      assert order == init + [order[|order| - 1]];
    }
  }

  /** The select item of a field (BugzillaQuery.php:515-644). */
  function SelectItem(field: string, login: bool): string {
    match field
    case "alias" => ", aliases.alias AS alias"
    case "assigned" => ", assignedactivity.bug_when AS assigned"
    case "attachments" => ", attachments.nattachments AS attachments "
    case "blocks" => ", blockstab.blocks AS blocks, blockstab.blocksalias AS blocksalias, blockstab.blockssummary AS blockssummary,blockstab.blocksstatus AS blocksstatus, blockstab.blockspriority AS blockspriority, blockstab.realname AS blocksto"
    case "cc" => if login then ", ccprofiles.login_name AS cc" else ", ccprofiles.realname AS cc"
    case "closed" => ", closedactivity.bug_when AS closed"
    case "component" => ", components.name AS component"
    case "created" => ", creation_ts AS created"
    case "deadline" => ", deadline"
    case "depends" => ", dependstab.depends AS depends, dependstab.dependsalias AS dependsalias, dependstab.dependssummary AS dependssummary,dependstab.dependsstatus AS dependsstatus, dependstab.dependspriority AS dependspriority, dependstab.realname AS dependsto"
    case "flag" =>
      (if login then ", flagprofiles.flagfrom_login AS flagfrom, flagprofiles.flag_login AS flag"
       else ", flagprofiles.flagfrom_realname AS flagfrom, flagprofiles.flag_realname AS flag")
      + ", flagprofiles.flagname AS flagname, flagprofiles.flagdate AS flagdate"
    case "quickflag" => ", quickflag.flagdate AS flagdate"
    case "estimated" => ", estimated_time AS estimated"
    case "from" => if login then ", reporterprofiles.login_name AS raisedby" else ", reporterprofiles.realname AS raisedby"
    case "hardware" => ", rep_platform AS hardware"
    case "keywords" => ", (SELECT GROUP_CONCAT(keyworddefs.name) FROM bugs.keyworddefs WHERE keyworddefs.id IN (SELECT keywords.keywordid FROM bugs.keywords WHERE keywords.bug_id=bugs.bug_id )) AS keywords"
    case "milestone" => ", target_milestone AS milestone"
    case "lastcomment" => ", longdescslastcomment.thetext"
    case "modified" => ", lastdiffed AS modified"
    case "os" => ", op_sys AS os"
    case "priority" => ", priority"
    case "product" => ", products.name AS product"
    case "qa" => if login then ", qaprofiles.login_name AS qa" else ", qaprofiles.realname AS qa"
    case "remaining" => ", remaining_time AS remaining"
    case "reopened" => ", reopenedactivity.bug_when AS reopened"
    case "resolution" => ", resolution"
    case "resolved" => ", resolvedactivity.bug_when AS resolved"
    case "severity" => ", bug_severity AS severity"
    case "status" => ", bug_status AS status"
    case "summary" => ", short_desc AS summary"
    case "to" => if login then ", profiles.login_name AS assignedto" else ", profiles.realname AS assignedto"
    case "url" => ", bug_file_loc AS url"
    case "version" => ", version"
    case "votes" => ", votes"
    case "work" => ", SUM(longdescswork.work_time) AS work"
    case _ => ""
  }

  function SelectItems(fields: seq<string>, login: bool): (r: seq<string>)
    ensures |r| == |fields|
    ensures forall i :: 0 <= i < |fields| ==> r[i] == SelectItem(fields[i], login)
  {
    seq(|fields|, i requires 0 <= i < |fields| => SelectItem(fields[i], login))
  }

  /** The select items after `bugs.bug_id AS id`. */
  function SelectList(required: set<string>, login: bool): string {
    Concat(SelectItems(IncludedFields(SelectOrder, required), login))
  }

  /** What the joins read besides the required set. */
  datatype JoinInputs = JoinInputs(
    dialect: Dialect,
    statusFieldId: string,     // `BugzillaQuery::$fieldIds['bug_status']` as text, `''` when unknown
    dependsStatus: Option<string>, // `get('dependsstatus')`
    cc: Option<string>,        // `get('cc')`
    flag: Option<string>)      // `get('flag')`

  /** The latest change of a bug's status to `state`, joined as `alias`. */
  function ActivityJoin(j: JoinInputs, state: string, alias: string, fromKeyword: string): string {
    " LEFT JOIN  (SELECT bug_id, MAX(bug_when) AS bug_when " + fromKeyword + " " + Table(j.dialect, "bugs_activity")
    + " WHERE fieldid=" + j.statusFieldId
    + " AND added='" + state + "' GROUP BY bug_id) AS " + alias + " ON bugs.bug_id=" + alias + ".bug_id"
  }

  /** The join of a field and the warnings its embedded WHERE clause raised (BugzillaQuery.php:652-799). */
  function JoinItem(field: string, j: JoinInputs): (r: Logged<string>)
  {
    var t := (name: string) => Table(j.dialect, name);
    match field
    case "assigned" => Logged(ActivityJoin(j, "ASSIGNED", "assignedactivity", "FROM"), [])
    case "attachments" =>
      Logged(" LEFT JOIN (SELECT bug_id as attachmentbugid, COUNT(attach_id) AS nattachments FROM " + t("attachments")
        + " GROUP BY attachmentbugid) AS attachments ON attachments.attachmentbugid=bugs.bug_id", [])
    case "blocks" =>
      var w := Filters.WhereClause(OrEmpty(j.dependsStatus), "blockedbugs.bug_status");
      Logged(" LEFT JOIN (SELECT dependson,blocked AS blocks, blockedalias.alias AS blocksalias, blockedbugs.short_desc AS blockssummary, blockedbugs.bug_status AS blocksstatus, blockedbugs.priority AS blockspriority,login_name,realname FROM "
        + t("dependencies") + " INNER JOIN " + t("bugs") + " AS blockedbugs ON dependencies.blocked=blockedbugs.bug_id"
        + " LEFT JOIN " + t("bugs_aliases") + " AS blockedalias ON blockedalias.bug_id=blockedbugs.bug_id"
        + " INNER JOIN " + t("profiles") + " ON blockedbugs.assigned_to=profiles.userid"
        + " WHERE 1=1 " + w.value + " ORDER BY blockedbugs.priority) AS blockstab ON blockstab.dependson=bugs.bug_id",
        w.warnings)
    case "component" => Logged(" LEFT JOIN " + t("components") + " on bugs.component_id=components.id", [])
    case "cc" =>
      var w := if Truthy(j.cc) then Filters.WhereClause(j.cc.value, "profiles.login_name") else Logged("", []);
      Logged(" INNER JOIN (SELECT bug_id,login_name,realname FROM " + t("cc") + " INNER JOIN " + t("profiles")
        + " ON cc.who=profiles.userid" + w.value + ") AS ccprofiles ON ccprofiles.bug_id=bugs.bug_id",
        w.warnings)
    case "closed" => Logged(ActivityJoin(j, "CLOSED", "closedactivity", "FROM"), [])
    case "depends" =>
      var w := Filters.WhereClause(OrEmpty(j.dependsStatus), "dependsonbugs.bug_status");
      Logged(" LEFT JOIN (SELECT blocked,dependson AS depends, dependsonalias.alias AS dependsalias, dependsonbugs.short_desc AS dependssummary, dependsonbugs.bug_status AS dependsstatus, dependsonbugs.priority AS dependspriority, login_name, realname FROM "
        + t("dependencies") + " INNER JOIN " + t("bugs") + " AS dependsonbugs ON dependencies.dependson=dependsonbugs.bug_id"
        + " LEFT JOIN " + t("bugs_aliases") + " AS dependsonalias ON dependsonalias.bug_id=dependsonbugs.bug_id"
        + " INNER JOIN " + t("profiles") + " ON dependsonbugs.assigned_to=profiles.userid"
        + " WHERE 1=1 " + w.value + " ORDER BY dependsonbugs.priority) AS dependstab ON dependstab.blocked=bugs.bug_id",
        w.warnings)
    case "flag" =>
      var w := if Truthy(j.flag) then Filters.WhereClause(j.flag.value, "flagsto.login_name") else Logged("", []);
      Logged(" INNER JOIN (SELECT bug_id,creation_date AS flagdate,flagsto.login_name AS flag_login,flagsto.realname AS flag_realname,flagsfrom.login_name AS flagfrom_login, flagsfrom.realname AS flagfrom_realname,flagtypes.name AS flagname FROM "
        + t("flags") + " INNER JOIN " + t("flagtypes") + " ON flags.type_id=flagtypes.id INNER JOIN " + t("profiles")
        + " AS flagsto ON flags.requestee_id=flagsto.userid INNER JOIN " + t("profiles")
        + " AS flagsfrom ON flags.setter_id=flagsfrom.userid WHERE status='?'" + w.value
        + ") as flagprofiles on flagprofiles.bug_id=bugs.bug_id",
        w.warnings)
    case "quickflag" =>
      Logged(" LEFT JOIN (SELECT bug_id AS quickflagbugid, MAX(creation_date) AS flagdate FROM " + t("flags")
        + " WHERE status='?' GROUP BY quickflagbugid) AS quickflag on quickflag.quickflagbugid=bugs.bug_id", [])
    case "from" => Logged(" LEFT JOIN " + t("profiles") + " AS reporterprofiles ON bugs.reporter=reporterprofiles.userid", [])
    case "lastcomment" =>
      Logged(" LEFT JOIN (SELECT MAX(longdescs.bug_when) AS sub_comment_when, longdescs.bug_id AS sub_bug_id FROM "
        + t("longdescs") + " GROUP BY longdescs.bug_id) descs ON bugs.bug_id=descs.sub_bug_id LEFT JOIN "
        + t("longdescs") + " AS longdescslastcomment ON longdescslastcomment.bug_when=sub_comment_when", [])
    case "product" => Logged(" LEFT JOIN " + t("products") + " ON bugs.product_id=products.id", [])
    case "qa" => Logged(" LEFT JOIN " + t("profiles") + " AS qaprofiles ON bugs.qa_contact=qaprofiles.userid", [])
    case "reopened" => Logged(ActivityJoin(j, "REOPENED", "reopenedactivity", "FROM"), [])
    case "resolved" => Logged(ActivityJoin(j, "RESOLVED", "resolvedactivity", "FROM"), [])
    case "to" => Logged(" LEFT JOIN " + t("profiles") + " ON bugs.assigned_to=profiles.userid", [])
    case "verified" => Logged(ActivityJoin(j, "VERIFIED", "verifiedactivity", "from"), [])
    case "alias" => Logged(" LEFT JOIN " + t("bugs_aliases") + " AS aliases ON aliases.bug_id=bugs.bug_id", [])
    case "work" => Logged(", " + t("longdescs") + " AS longdescswork", [])
    case _ => Logged("", [])
  }

  /** The joins of the given fields, in order, with their warnings in order. */
  function Joins(fields: seq<string>, j: JoinInputs): Logged<string> {
    if fields == [] then Logged("", [])
    else
      var init := Joins(fields[..|fields| - 1], j);
      var last := JoinItem(fields[|fields| - 1], j);
      Logged(init.value + last.value, init.warnings + last.warnings)
  }

  /** The joins of a required set. */
  function JoinList(required: set<string>, j: JoinInputs): Logged<string> {
    Joins(IncludedFields(JoinOrder, required), j)
  }

  /** `, $column` for each required custom field. */
  function CustomItems(fields: seq<string>): string {
    if fields == [] then "" else CustomItems(fields[..|fields| - 1]) + ", " + fields[|fields| - 1]
  }

  const CountPrefix := "SELECT COUNT(DISTINCT(id)) AS count FROM ("
  const CountSuffix := ") AS b"
  const SelectStart := "SELECT DISTINCT bugs.bug_id AS id"
  const WorkGrouping := " AND longdescswork.bug_id=bugs.bug_id GROUP BY bugs.bug_id"

  /** Everything `getSQL` assembles once the required set and the WHERE fragments are known. */
  datatype Request = Request(
    required: set<string>,
    format: Option<string>,
    nameFormat: Option<string>,
    customFields: seq<string>,
    where: string,
    mappedSort: string,
    order: string,
    joins: JoinInputs)

  /** The inner statement: select items, custom fields, FROM and joins, WHERE, grouping and ORDER BY. */
  function InnerSelect(q: Request): string {
    SelectStart + SelectedColumns(q)
  }

  /** Everything of the inner statement after `SELECT DISTINCT bugs.bug_id AS id`. */
  function SelectedColumns(q: Request): string {
    SelectList(q.required, q.nameFormat == Some("login")) + CustomItems(q.customFields)
    + " FROM " + Table(q.joins.dialect, "bugs") + JoinList(q.required, q.joins).value
    + " WHERE 1=1 " + q.where + (if "work" in q.required then WorkGrouping else "")
    + " ORDER BY " + q.mappedSort + " " + q.order
  }

  /** The statement and the warnings its joins raised; `format=count` wraps the inner statement in a count. */
  function SqlText(q: Request): Logged<string> {
    Logged(Wrapped(q.format, InnerSelect(q)), JoinList(q.required, q.joins).warnings)
  }

  /** `format=count` wraps the inner statement in a count; the statement ends in `;`. */
  function Wrapped(format: Option<string>, inner: string): string {
    (if format == Some("count") then CountPrefix + inner + CountSuffix else inner) + ";"
  }

  // ---------------------------------------------------------------------------
  // Properties

  predicate EndsWith(s: string, suffix: string) {
    |suffix| <= |s| && s[|s| - |suffix|..] == suffix
  }

  lemma Affixes(prefix: string, middle: string, suffix: string)
    ensures StartsWith(prefix + middle + suffix, prefix)
    ensures EndsWith(prefix + middle + suffix, suffix)
  {
    var s := prefix + middle + suffix;
    assert s[..|prefix|] == prefix;
    assert s[|s| - |suffix|..] == suffix;
  }

  /** Every statement ends in `;`, a count is wrapped, and anything else starts with the id column. */
  lemma StatementShape(q: Request)
    ensures var s := SqlText(q).value;
      |s| > 0 && s[|s| - 1] == ';'
      && (q.format == Some("count") ==> StartsWith(s, CountPrefix + SelectStart) && EndsWith(s, CountSuffix + ";"))
      && (q.format != Some("count") ==> StartsWith(s, SelectStart))
  {
    WrappedShape(q.format, SelectedColumns(q));
  }

  lemma WrappedShape(format: Option<string>, rest: string)
    ensures var s := Wrapped(format, SelectStart + rest);
      |s| > 0 && s[|s| - 1] == ';'
      && (format == Some("count") ==> StartsWith(s, CountPrefix + SelectStart) && EndsWith(s, CountSuffix + ";"))
      && (format != Some("count") ==> StartsWith(s, SelectStart))
  {
    if format == Some("count") {
      Affixes(CountPrefix + SelectStart, rest, CountSuffix + ";");
      assert CountPrefix + (SelectStart + rest) + CountSuffix + ";" == (CountPrefix + SelectStart) + rest + (CountSuffix + ";");
    } else {
      Affixes(SelectStart, rest, ";");
    }
  }

  /** Priority and severity are always selected, in that order; the quick flag never beside the full flag. */
  lemma AlwaysSelected(required: set<string>)
    ensures "priority" in IncludedFields(SelectOrder, required)
    ensures "severity" in IncludedFields(SelectOrder, required)
    ensures !("flag" in IncludedFields(SelectOrder, required) && "quickflag" in IncludedFields(SelectOrder, required))
    ensures !("flag" in IncludedFields(JoinOrder, required) && "quickflag" in IncludedFields(JoinOrder, required))
  {
    IncludedFieldsMembers(SelectOrder, required);
    IncludedFieldsMembers(JoinOrder, required);
    assert SelectOrder[20] == "priority" && SelectOrder[27] == "severity";
  }

  /** A field's part appears exactly when the field is required (priority and severity aside, the quick flag as stated). */
  lemma PartIffRequired(field: string, required: set<string>)
    requires field != "priority" && field != "severity" && field != "quickflag"
    ensures field in IncludedFields(SelectOrder, required) <==> field in SelectOrder && field in required
    ensures field in IncludedFields(JoinOrder, required) <==> field in JoinOrder && field in required
  {
    IncludedFieldsMembers(SelectOrder, required);
    IncludedFieldsMembers(JoinOrder, required);
  }

  /** The flag wins: once `flag` is required, requiring the quick flag too changes nothing. */
  lemma FlagWins(required: set<string>, q: Request)
    requires "flag" in required
    ensures IncludedFields(SelectOrder, required + {"quickflag"}) == IncludedFields(SelectOrder, required - {"quickflag"})
    ensures IncludedFields(JoinOrder, required + {"quickflag"}) == IncludedFields(JoinOrder, required - {"quickflag"})
  {
    FlagWinsIn(SelectOrder, required);
    FlagWinsIn(JoinOrder, required);
  }

  lemma {:induction false} FlagWinsIn(order: seq<string>, required: set<string>)
    requires "flag" in required
    ensures IncludedFields(order, required + {"quickflag"}) == IncludedFields(order, required - {"quickflag"})
    decreases |order|
  {
    if order != [] {
      FlagWinsIn(order[..|order| - 1], required);
    }
  }

  /** Only the fields of the list matter: required names outside it change nothing. */
  lemma {:induction false} OnlyListedFieldsMatter(order: seq<string>, a: set<string>, b: set<string>)
    requires forall f :: f in order ==> (f in a <==> f in b)
    requires "flag" in a <==> "flag" in b
    ensures IncludedFields(order, a) == IncludedFields(order, b)
    decreases |order|
  {
    if order != [] {
      assert forall f :: f in order[..|order| - 1] ==> f in order;
      OnlyListedFieldsMatter(order[..|order| - 1], a, b);
    }
  }

  /** People are listed by login or by name only through the cc, flag, reporter, QA and assignee items. */
  lemma {:induction false} LoginOnlyForPeople(fields: seq<string>)
    requires forall i :: 0 <= i < |fields| ==> fields[i] !in {"cc", "flag", "from", "qa", "to"}
    ensures Concat(SelectItems(fields, true)) == Concat(SelectItems(fields, false))
    decreases |fields|
  {
    if fields != [] {
      var init := fields[..|fields| - 1];
      LoginOnlyForPeople(init);
      assert SelectItems(fields, true)[..|fields| - 1] == SelectItems(init, true);
      assert SelectItems(fields, false)[..|fields| - 1] == SelectItems(init, false);
    }
  }

  /** With no person field required, `nameformat` leaves the statement unchanged. */
  lemma NameFormatIrrelevant(q: Request)
    requires forall f :: f in {"cc", "flag", "from", "qa", "to"} ==> f !in q.required
    ensures SqlText(q.(nameFormat := Some("login"))) == SqlText(q.(nameFormat := None))
  {
    var fields := IncludedFields(SelectOrder, q.required);
    IncludedFieldsMembers(SelectOrder, q.required);
    forall i | 0 <= i < |fields|
      ensures fields[i] !in {"cc", "flag", "from", "qa", "to"}
    {
      assert fields[i] in fields;
    }
    LoginOnlyForPeople(fields);
  }
}
