/**
 * The fixed tables of the Bugzilla report kind: which parameters exist and of
 * which type, their defaults, how report columns map to SQL columns, to search
 * URL fields and to sort expressions, and the initial display titles and
 * formats of columns.
 */
module Schema {
  import opened Php

  /** The names of `supportedParameters` in declaration order (BugzillaQuery.php:10-85). */
  const ParameterNames: seq<string> := [
    "alias", "assigned", "attachments", "bar", "bzalternateconfig", "bzurl",
    "blocks", "cc", "closed", "columns", "created", "createdformat",
    "component", "customfields", "customprefix", "deadline", "depends", "dependsstatus",
    "detailsrow", "detailsrowprepend", "disablecache", "estimated", "filters", "flag",
    "format", "from", "group", "groupformat", "grouporder", "hardware",
    "heading", "headers", "hide", "id", "implicitcustom", "instance",
    "keywords", "link", "lastcomment", "maxrows", "maxrowsbar", "milestone",
    "modified", "modifiedformat", "nameformat", "order", "os", "priority",
    "product", "qa", "quickflag", "noresultsmessage", "remaining", "reopened",
    "resolution", "resolved", "search", "severity", "sort", "sortable",
    "status", "status_whiteboard", "style", "to", "total", "url",
    "version", "verified", "votes", "work", "zeroasblank"
  ]

  /**
   * The type tag of each supported parameter; `None` for an unsupported name
   * (BugzillaQuery.php:10-85). The tables here are grouped by first letter.
   */
  function TypeOf(name: string): Option<string>
  {
    if name == [] then None
    else match name[0]
    case 'a' => (
      match name
      case "alias" => Some("field-id")
      case "assigned" => Some("field-date")
      case "attachments" => Some("field-number")
      case _ => None)
    case 'b' => (
      match name
      case "bar" => Some("column")
      case "bzalternateconfig" => Some("free")
      case "bzurl" => Some("value")
      case "blocks" => Some("field-depends")
      case _ => None)
    case 'c' => (
      match name
      case "cc" => Some("field")
      case "closed" => Some("field-date")
      case "columns" => Some("columns")
      case "created" => Some("field-date")
      case "createdformat" => Some("value")
      case "component" => Some("field")
      case "customfields" => Some("value")
      case "customprefix" => Some("cf_")
      case _ => None)
    case 'd' => (
      match name
      case "deadline" => Some("field-date")
      case "depends" => Some("field-depends")
      case "dependsstatus" => Some("field-join")
      case "detailsrow" => Some("columns")
      case "detailsrowprepend" => Some("free")
      case "disablecache" => Some("boolean")
      case _ => None)
    case 'e' => (
      match name
      case "estimated" => Some("field-number")
      case _ => None)
    case 'f' => (
      match name
      case "filters" => Some("filters")
      case "flag" => Some("field-special")
      case "format" => Some("value")
      case "from" => Some("field")
      case _ => None)
    case 'g' => (
      match name
      case "group" => Some("sort")
      case "groupformat" => Some("value")
      case "grouporder" => Some("value")
      case _ => None)
    case 'h' => (
      match name
      case "hardware" => Some("field")
      case "heading" => Some("free")
      case "headers" => Some("value")
      case "hide" => Some("value")
      case _ => None)
    case 'i' => (
      match name
      case "id" => Some("field-id")
      case "implicitcustom" => Some("boolean")
      case "instance" => Some("value")
      case _ => None)
    case 'k' => (
      match name
      case "keywords" => Some("field-keywords")
      case _ => None)
    case 'l' => (
      match name
      case "link" => Some("columns")
      case "lastcomment" => Some("boolean")
      case _ => None)
    case 'm' => (
      match name
      case "maxrows" => Some("value")
      case "maxrowsbar" => Some("value")
      case "milestone" => Some("field")
      case "modified" => Some("field-date")
      case "modifiedformat" => Some("value")
      case _ => None)
    case 'n' => (
      match name
      case "nameformat" => Some("value")
      case "noresultsmessage" => Some("free")
      case _ => None)
    case 'o' => (
      match name
      case "order" => Some("value")
      case "os" => Some("field")
      case _ => None)
    case 'p' => (
      match name
      case "priority" => Some("field")
      case "product" => Some("field")
      case _ => None)
    case 'q' => (
      match name
      case "qa" => Some("field")
      case "quickflag" => Some("value")
      case _ => None)
    case 'r' => (
      match name
      case "remaining" => Some("field-number")
      case "reopened" => Some("field-date")
      case "resolution" => Some("field")
      case "resolved" => Some("field-date")
      case _ => None)
    case 's' => (
      match name
      case "search" => Some("field-text")
      case "severity" => Some("field")
      case "sort" => Some("sort")
      case "sortable" => Some("boolean")
      case "status" => Some("field")
      case "status_whiteboard" => Some("field")
      case "style" => Some("free")
      case _ => None)
    case 't' => (
      match name
      case "to" => Some("field")
      case "total" => Some("columns")
      case _ => None)
    case 'u' => (
      match name
      case "url" => Some("field")
      case _ => None)
    case 'v' => (
      match name
      case "version" => Some("field")
      case "verified" => Some("field-date")
      case "votes" => Some("field-number")
      case _ => None)
    case 'w' => (
      match name
      case "work" => Some("field-number")
      case _ => None)
    case 'z' => (
      match name
      case "zeroasblank" => Some("boolean")
      case _ => None)
    case _ => None
  }

  predicate IsSupported(name: string) {
    TypeOf(name).Some?
  }

  /** `defaultParameters` (BugzillaQuery.php:87-101) */
  function DefaultOf(name: string): Option<string>
  {
    if name == [] then None
    else match name[0]
    case 'b' => (
      match name
      case "bzurl" => Some("show")
      case _ => None)
    case 'c' => (
      match name
      case "columns" => Some("id,priority,status,severity,version,product,summary,url")
      case "customprefix" => Some("cf_")
      case _ => None)
    case 'd' => (
      match name
      case "dependsstatus" => Some("!(CLOSED,VERIFIED,RESOLVED)")
      case _ => None)
    case 'f' => (
      match name
      case "format" => Some("table")
      case _ => None)
    case 'i' => (
      match name
      case "implicitcustom" => Some("false")
      case _ => None)
    case 'n' => (
      match name
      case "noresultsmessage" => Some("no bugzilla tickets were found")
      case _ => None)
    case 'o' => (
      match name
      case "order" => Some("asc")
      case _ => None)
    case 's' => (
      match name
      case "status" => Some("!CLOSED")
      case "sort" => Some("priority,status")
      case "sortable" => Some("1")
      case _ => None)
    case 'z' => (
      match name
      case "zeroasblank" => Some("true")
      case _ => None)
    case _ => None
  }

  /** `columnName`: the heading of each column; titles given as `name:title` are added at run time (BugzillaQuery.php:103-142) */
  const InitialColumnNames: map<string, string> := map[
    "alias" := "Alias",
    "assigned" := "Assigned",
    "attachments" := "@",
    "blocks" := "Blocks",
    "closed" := "Closed",
    "component" := "Component",
    "cc" := "CC",
    "created" := "Created",
    "deadline" := "Deadline",
    "depends" := "Depends",
    "estimated" := "E",
    "flag" := "Flagged For",
    "flagdate" := "Flag Date",
    "flagfrom" := "Flagged By",
    "flagname" := "Flag",
    "from" := "Requester",
    "hardware" := "Hardware",
    "keyworddefs.name" := "Keywords",
    "id" := "ID",
    "milestone" := "Milestone",
    "modified" := "Modified",
    "os" := "OS",
    "product" := "Product",
    "priority" := "P",
    "qa" := "QA",
    "remaining" := "R",
    "reopened" := "Reopened",
    "resolution" := "Resolution",
    "resolved" := "Resolved",
    "severity" := "Severity",
    "status" := "Status",
    "summary" := "Summary",
    "to" := "Assignee",
    "url" := "&nbsp;",
    "version" := "Version",
    "verified" := "Verified",
    "votes" := "Votes",
    "work" := "W"
  ]

  /** `fieldMapping`: the result-set key of a column whose key differs from its name (BugzillaQuery.php:152-156) */
  function FieldMappingOf(name: string): Option<string>
  {
    match name
    case "cc" => Some("cc")
    case "from" => Some("raisedby")
    case "to" => Some("assignedto")
    case _ => None
  }

  /** `fieldSQLColumn`: the SQL expression a column is filtered and sorted on (BugzillaQuery.php:158-184) */
  function SqlColumnOf(name: string): Option<string>
  {
    if name == [] then None
    else match name[0]
    case 'a' => (
      match name
      case "assigned" => Some("assignedactivity.bug_when")
      case "attachments" => Some("attachments.nattachments")
      case _ => None)
    case 'c' => (
      match name
      case "cc" => Some("ccprofiles.login_name")
      case "component" => Some("components.name")
      case "closed" => Some("closedactivity.bug_when")
      case "created" => Some("creation_ts")
      case _ => None)
    case 'e' => (
      match name
      case "estimated" => Some("estimated_time")
      case _ => None)
    case 'h' => (
      match name
      case "hardware" => Some("rep_platform")
      case _ => None)
    case 'i' => (
      match name
      case "id" => Some("bugs.bug_id")
      case _ => None)
    case 'f' => (
      match name
      case "from" => Some("reporterprofiles.login_name")
      case _ => None)
    case 'k' => (
      match name
      case "keywords" => Some("keyworddefs.name")
      case _ => None)
    case 'm' => (
      match name
      case "milestone" => Some("target_milestone")
      case "modified" => Some("lastdiffed")
      case _ => None)
    case 'p' => (
      match name
      case "product" => Some("products.name")
      case _ => None)
    case 'o' => (
      match name
      case "os" => Some("op_sys")
      case _ => None)
    case 'q' => (
      match name
      case "qa" => Some("qaprofiles.login_name")
      case _ => None)
    case 'r' => (
      match name
      case "remaining" => Some("remaining_time")
      case "reopened" => Some("reopenedactivity.bug_when")
      case "resolved" => Some("resolvedactivity.bug_when")
      case _ => None)
    case 's' => (
      match name
      case "severity" => Some("bug_severity")
      case "status" => Some("bug_status")
      case _ => None)
    case 't' => (
      match name
      case "to" => Some("profiles.login_name")
      case _ => None)
    case 'u' => (
      match name
      case "url" => Some("bug_file_loc")
      case _ => None)
    case 'v' => (
      match name
      case "verified" => Some("verifiedactivity.bug_when")
      case _ => None)
    case 'w' => (
      match name
      case "work" => Some("work_time")
      case _ => None)
    case _ => None
  }

  /** `fieldBZQuery`: the field name the Bugzilla search URL uses for a column (BugzillaQuery.php:187-197) */
  function SearchFieldOf(name: string): Option<string>
  {
    match name
    case "blocks" => Some("blocked")
    case "hardware" => Some("rep_platform")
    case "id" => Some("bug_id")
    case "milestone" => Some("target_milestone")
    case "os" => Some("op_sys")
    case "qa" => Some("qa_contact")
    case "severity" => Some("bug_severity")
    case "status" => Some("bug_status")
    case "to" => Some("assigned_to")
    case _ => None
  }

  /** `fieldDefaultOrder`: columns that, once filtered on or grouped by, sort in this order (BugzillaQuery.php:199-202) */
  function DefaultOrderOf(name: string): Option<string>
  {
    match name
    case "modified" => Some("desc")
    case "votes" => Some("desc")
    case _ => None
  }

  /** `formats`: the display format of each column; the link and format parameters override entries at run time (BugzillaQuery.php:204-227) */
  const InitialFormats: map<string, string> := map[
    "alias" := "id",
    "assigned" := "date",
    "blocks" := "id",
    "cc" := "name",
    "created" := "date",
    "closed" := "date",
    "deadline" := "date",
    "depends" := "id",
    "estimated" := "number",
    "flagdate" := "date",
    "flagfrom" := "name",
    "from" := "name",
    "id" := "id",
    "modified" := "relativedate",
    "qa" := "name",
    "remaining" := "number",
    "reopened" := "date",
    "resolved" := "date",
    "to" := "name",
    "url" := "url",
    "votes" := "number",
    "work" := "number"
  ]

  /** `sortMapping`: explicit SQL sort expressions (BugzillaQuery.php:235-239) */
  function SortMappingOf(name: string): Option<string>
  {
    match name
    case "deadline" => Some("COALESCE(deadline, '2100-01-01')")
    case "milestone" => Some("COALESCE(NULLIF(milestone,'---'),'XXXXX')")
    case "id" => Some("bugs.bug_id")
    case _ => None
  }

  /** `valueTitle`: the comma-separated result columns whose values make up a cell's title (BugzillaQuery.php:256-261) */
  function ValueTitleOf(name: string): Option<string>
  {
    match name
    case "alias" => Some("id,alias")
    case "blocks" => Some("blocks,blocksalias")
    case "depends" => Some("depends,dependsalias")
    case "id" => Some("id,alias")
    case _ => None
  }

  /** `BugzillaQuery::$buglistServerRelativeUri` (BugzillaQuery.php:272) */
  const BuglistUri: string := "/buglist.cgi?"
}
