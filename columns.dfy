/**
 * Which columns a report shows (BSQLQuery.php:1004-1191). The `columns`
 * parameter either lists them outright or, when it starts with `+` or `-`,
 * edits the default list; filtering and sorting register columns for implicit
 * addition or removal, which apply to the default list and to an edited one,
 * but never to an outright list. Columns may carry a heading as `name:title`,
 * and custom Bugzilla fields among them are collected for the SELECT list
 * (BugzillaQuery.php:1037-1058).
 */
module Columns {
  import opened Php
  import Validation

  // ---------------------------------------------------------------------------
  // Name-keyed arrays used as ordered sets

  /** `$keys[$c] = $c`: a new key goes last, an existing key keeps its place. */
  function AddKey(keys: seq<string>, c: string): seq<string> {
    if c in keys then keys else keys + [c]
  }

  /** `unset($keys[$c])` */
  function RemoveKey(keys: seq<string>, c: string): seq<string> {
    Without(keys, [c])
  }

  /** Unsetting a key drops that key and keeps the others, still each once. */
  lemma RemoveKeyMembers(keys: seq<string>, c: string)
    ensures forall x :: x in RemoveKey(keys, c) <==> x in keys && x != c
    ensures NoDuplicates(keys) ==> NoDuplicates(RemoveKey(keys, c))
  {
    WithoutMembers(keys, [c]);
    WithoutNoDuplicates(keys, [c]);
  }

  lemma {:induction false} WithoutNoDuplicates(s: seq<string>, drop: seq<string>)
    ensures NoDuplicates(s) ==> NoDuplicates(Without(s, drop))
    decreases |s|
  {
    if s != [] && NoDuplicates(s) {
      var init := s[..|s| - 1];
      assert NoDuplicates(init);
      WithoutNoDuplicates(init, drop);
      WithoutMembers(init, drop);
    }
  }

  lemma WithoutSnoc(s: seq<string>, x: string, drop: seq<string>)
    ensures Without(s + [x], drop) == if x in drop then Without(s, drop) else Without(s, drop) + [x]
  {
    assert (s + [x])[..|s|] == s;
  }

  lemma {:induction false} WithoutAppend(a: seq<string>, b: seq<string>, drop: seq<string>)
    ensures Without(a + b, drop) == Without(a, drop) + Without(b, drop)
    decreases |b|
  {
    if b == [] {
      assert a + b == a;
    } else {
      var init, x := b[..|b| - 1], b[|b| - 1];
      assert a + b == (a + init) + [x];
      assert b == init + [x];
      WithoutSnoc(a + init, x, drop);
      WithoutSnoc(init, x, drop);
      WithoutAppend(a, init, drop);
    }
  }

  lemma {:induction false} WithoutWithout(s: seq<string>, a: seq<string>, b: seq<string>)
    ensures Without(Without(s, a), b) == Without(s, a + b)
    decreases |s|
  {
    if s != [] {
      var init, x := s[..|s| - 1], s[|s| - 1];
      assert s == init + [x];
      WithoutWithout(init, a, b);
      WithoutSnoc(init, x, a);
      WithoutSnoc(init, x, a + b);
      WithoutSnoc(Without(init, a), x, b);
    }
  }

  lemma {:induction false} WithoutNothing(s: seq<string>, drop: seq<string>)
    requires forall x :: x in s ==> x !in drop
    ensures Without(s, drop) == s
    decreases |s|
  {
    if s != [] {
      WithoutNothing(s[..|s| - 1], drop);
    }
  }

  /** The keys of a name-keyed array filled from a list: each name once, at its first place. */
  function Dedup(s: seq<string>): seq<string> {
    if s == [] then []
    else
      var d := Dedup(s[..|s| - 1]);
      if s[|s| - 1] in d then d else d + [s[|s| - 1]]
  }

  /** Each name of the list once, and no other. */
  lemma {:induction false} DedupMembers(s: seq<string>)
    ensures NoDuplicates(Dedup(s))
    ensures forall x :: x in Dedup(s) <==> x in s
    ensures |Dedup(s)| <= |s|
    decreases |s|
  {
    if s != [] {
      var init := s[..|s| - 1];
      DedupMembers(init);
      assert s == init + [s[|s| - 1]];
    }
  }

  /** A list without repeats is its own de-duplication. */
  lemma {:induction false} DedupNoOp(s: seq<string>)
    requires NoDuplicates(s)
    ensures Dedup(s) == s
    decreases |s|
  {
    if s != [] {
      var init := s[..|s| - 1];
      assert NoDuplicates(init);
      DedupNoOp(init);
      assert s == init + [s[|s| - 1]];
    }
  }

  /** Names of the first list keep their places; the second contributes only names new to the first. */
  lemma {:induction false} DedupAppend(a: seq<string>, b: seq<string>)
    ensures Dedup(a + b) == Dedup(a) + Without(Dedup(b), a)
    decreases |b|
  {
    if b == [] {
      assert a + b == a;
    } else {
      var init, x := b[..|b| - 1], b[|b| - 1];
      assert (a + b)[..|a + b| - 1] == a + init;
      assert (a + b)[|a + b| - 1] == x;
      DedupAppend(a, init);
      DedupMembers(a + init);
      DedupMembers(init);
      WithoutSnoc(Dedup(init), x, a);
    }
  }

  // ---------------------------------------------------------------------------
  // applyImplicitColumns

  /**
   * `applyImplicitColumns`: the listed columns and then the implicitly added
   * ones, each once, minus every implicitly removed one.
   */
  function ApplyImplicit(columns: seq<string>, added: seq<string>, removed: seq<string>): seq<string> {
    Without(Dedup(columns + added), removed)
  }

  /** Each listed or implicitly added column once, unless implicitly removed. */
  lemma ApplyImplicitMembers(columns: seq<string>, added: seq<string>, removed: seq<string>)
    ensures NoDuplicates(ApplyImplicit(columns, added, removed))
    ensures forall x :: x in ApplyImplicit(columns, added, removed) <==> (x in columns || x in added) && x !in removed
  {
    var d := Dedup(columns + added);
    DedupMembers(columns + added);
    WithoutMembers(d, removed);
    WithoutNoDuplicates(d, removed);
  }

  /** The order is the columns' own order, then the order of addition. */
  lemma ApplyImplicitOrder(columns: seq<string>, added: seq<string>, removed: seq<string>)
    ensures ApplyImplicit(columns, added, removed)
      == Without(Dedup(columns), removed) + Without(Dedup(added), columns + removed)
  {
    DedupAppend(columns, added);
    WithoutAppend(Dedup(columns), Without(Dedup(added), columns), removed);
    WithoutWithout(Dedup(added), columns, removed);
  }

  // ---------------------------------------------------------------------------
  // Column entries

  /** `preg_match('/^([+-])(.*)$/', $v)`: the operator (`true` for `+`) and the rest. */
  function SignedMatch(v: string): (r: Option<(bool, string)>)
    ensures r.Some? ==> |v| > 0 && (v[0] == '+' || v[0] == '-') && r.value.0 == (v[0] == '+')
    ensures r.Some? ==> r.value.1 == v[1..] || (Validation.EndsInNewline(v) && r.value.1 == v[1..|v| - 1])
    ensures |v| > 0 && (v[0] == '+' || v[0] == '-') && '\n' !in v ==> r == Some((v[0] == '+', v[1..]))
    ensures !(|v| > 0 && (v[0] == '+' || v[0] == '-')) ==> r.None?
  {
    if |v| > 0 && (v[0] == '+' || v[0] == '-') then
      assert '\n' !in v ==> Validation.Accepts(Validation.AnyLine, v[1..]);
      match Validation.Match(Validation.AnyLine, v[1..])
      case Some(rest) => Some((v[0] == '+', rest))
      case None => None
    else None
  }

  /**
   * `getColumnNameAndRegisterTitle`: `name:title` names the column `name`
   * and gives it the heading `title` (anything after a second colon is
   * dropped); an entry without a colon is the column itself.
   */
  function NameAndTitle(entry: string): (r: (string, Option<string>))
    ensures ':' !in r.0 && StartsWith(entry, r.0)
    ensures r.1.None? <==> ':' !in entry
    ensures r.1.None? ==> r.0 == entry
    ensures r.1.Some? ==> entry[|r.0|] == ':' && ':' !in r.1.value && StartsWith(entry[|r.0| + 1..], r.1.value)
  {
    var parts := Split(entry, ':');
    SplitHead(entry, ':');
    if |parts| > 1 then
      SplitHead(entry[|parts[0]| + 1..], ':');
      (parts[0], Some(parts[1]))
    else (entry, None)
  }

  /** Registering the heading of an entry in `columnName`. */
  function RegisterTitle(titles: map<string, string>, entry: string): (r: map<string, string>)
    ensures NameAndTitle(entry).1.None? ==> r == titles
    ensures NameAndTitle(entry).1.Some? ==> r.Keys == titles.Keys + {NameAndTitle(entry).0}
  {
    var (name, title) := NameAndTitle(entry);
    if title.Some? then titles[name := title.value] else titles
  }

  // ---------------------------------------------------------------------------
  // Custom fields

  /**
   * What `isCustomField` consults: whether `implicitcustom` is `'true'`, the
   * custom prefix and its cached length (unset before rendering starts, when
   * `substr` then keeps the whole name), and the `customfields` list.
   */
  datatype CustomRule = CustomRule(implicitCustom: bool, prefix: string, prefixLength: Option<nat>, supported: seq<string>)

  /** `substr($column, 0, $this->customPrefixLength)` */
  function LeadingPart(rule: CustomRule, column: string): string {
    match rule.prefixLength
    case None => column
    case Some(n) => Prefix(column, n)
  }

  /** The decimal text of an array index as PHP normalises a string key: no sign, no leading zero. */
  predicate IsIndexKey(s: string) {
    IsDigits(s) && (s == "0" || s[0] != '0')
  }

  /**
   * `isCustomField` as written: the prefix is compared loosely, and
   * `array_key_exists` on the exploded `customfields` list asks whether the
   * column is one of its indexes.
   */
  predicate IsCustomFieldAsWritten(rule: CustomRule, titled: set<string>, column: string) {
    if rule.implicitCustom then column !in titled
    else LooseEquals(LeadingPart(rule, column), rule.prefix) || (IsIndexKey(column) && DigitsValue(column) < |rule.supported|)
  }

  /**
   * `isCustomField` as intended: under `implicitcustom` a column without a
   * heading is custom; otherwise one that carries the prefix or is listed in
   * `customfields`.
   */
  predicate IsCustomField(rule: CustomRule, titled: set<string>, column: string) {
    if rule.implicitCustom then column !in titled
    else LeadingPart(rule, column) == rule.prefix || column in rule.supported
  }

  /** A listed custom field is custom. */
  lemma ListedIsCustom(rule: CustomRule, titled: set<string>, column: string)
    requires !rule.implicitCustom && column in rule.supported
    ensures IsCustomField(rule, titled, column)
  {
  }

  /** Once the prefix length is cached, a column that starts with the prefix is custom. */
  lemma PrefixedIsCustom(rule: CustomRule, titled: set<string>, column: string)
    requires !rule.implicitCustom && rule.prefixLength == Some(|rule.prefix|)
    requires StartsWith(column, rule.prefix)
    ensures IsCustomField(rule, titled, column) && IsCustomFieldAsWritten(rule, titled, column)
  {
  }

  /** Under `implicitcustom` the two readings agree: custom exactly when the column has no heading. */
  lemma ImplicitCustomAgrees(rule: CustomRule, titled: set<string>, column: string)
    requires rule.implicitCustom
    ensures IsCustomFieldAsWritten(rule, titled, column) <==> IsCustomField(rule, titled, column)
    ensures IsCustomField(rule, titled, column) <==> column !in titled
  {
  }

  /**
   * The index lookup misses a listed field and accepts a number instead:
   * with `customfields=bug_color`, `bug_color` is not custom but `0` is.
   */
  lemma IndexLookupMissesNames()
    ensures var rule := CustomRule(false, "cf_", Some(3), ["bug_color"]);
      !IsCustomFieldAsWritten(rule, {}, "bug_color") && IsCustomField(rule, {}, "bug_color")
      && IsCustomFieldAsWritten(rule, {}, "0") && !IsCustomField(rule, {}, "0")
  {
    var rule := CustomRule(false, "cf_", Some(3), ["bug_color"]);
    assert LeadingPart(rule, "bug_color") == "bug";
    assert !IsDigits("bug_color") by { assert !IsDigit("bug_color"[0]); }
    assert IsIndexKey("0");
    assert DigitsValue("0") == 0;
  }

  /**
   * The prefix is compared as PHP 8 compares two numeric strings: with
   * `customprefix=01`, the column `1` is custom.
   */
  lemma NumericPrefixMatchesLoosely()
    ensures var rule := CustomRule(false, "01", Some(2), []);
      IsCustomFieldAsWritten(rule, {}, "1") && !IsCustomField(rule, {}, "1")
  {
    var rule := CustomRule(false, "01", Some(2), []);
    assert LeadingPart(rule, "1") == "1";
    LooseNumbers();
  }

  // ---------------------------------------------------------------------------
  // The column edit (`columns=+a,-b`)

  /** The first position of `x` in `s`, if any. */
  function FirstIndex(s: seq<string>, x: string): (r: Option<nat>)
    ensures r.None? <==> x !in s
    ensures r.Some? ==> r.value < |s| && s[r.value] == x && x !in s[..r.value]
  {
    if s == [] then None
    else if s[0] == x then Some(0)
    else match FirstIndex(s[1..], x)
      case None => None
      case Some(i) =>
        assert s[..i + 1] == [s[0]] + s[1..][..i];
        Some(i + 1)
  }

  /** `unset($list[$i])` followed by `array_values`. */
  function RemoveAt(s: seq<string>, i: nat): (r: seq<string>)
    requires i < |s|
    ensures |r| == |s| - 1
  {
    s[..i] + s[i + 1..]
  }

  lemma RemoveFirstOnly(s: seq<string>, x: string)
    requires x in s
    requires forall i, j :: 0 <= i < j < |s| && s[i] == x ==> s[j] != x
    ensures x !in RemoveAt(s, FirstIndex(s, x).value)
  {
    var k := FirstIndex(s, x).value;
    var r := RemoveAt(s, k);
    forall j | 0 <= j < |r|
      ensures r[j] != x
    {
      if j >= k {
        assert r[j] == s[j + 1];
      }
    }
  }

  /**
   * What an edit works on: the base (default) list, the columns it appends,
   * the implicit addition and removal lists, the headings (`columnName`), the
   * required custom fields and the warnings raised.
   */
  datatype Edit = Edit(
    base: seq<string>,
    appended: seq<string>,
    added: seq<string>,
    removed: seq<string>,
    titles: map<string, string>,
    custom: seq<string>,
    warnings: seq<string>)

  /** The operator of one entry (its own, else the leading one) and the entry without it. */
  function EntryOperation(entry: string, leadingAdd: bool): (r: (bool, string)) {
    match SignedMatch(entry)
    case Some(m) => m
    case None => (leadingAdd, entry)
  }

  /** One entry of the edit (BSQLQuery.php:1042-1101). */
  function EditStep(e: Edit, entry: string, leadingAdd: bool, rule: CustomRule): (r: Edit)
    ensures r.warnings == e.warnings || (|r.warnings| == |e.warnings| + 1 && r.warnings[..|e.warnings|] == e.warnings)
    ensures |r.appended| <= |e.appended| + 1
  {
    var (add, rest) := EntryOperation(entry, leadingAdd);
    var name := NameAndTitle(rest).0;
    var titles := RegisterTitle(e.titles, rest);
    if add then
      var custom := if IsCustomFieldAsWritten(rule, titles.Keys, name) then e.custom + [name] else e.custom;
      Edit(e.base, e.appended + [name], e.added, RemoveKey(e.removed, name), titles, custom, e.warnings)
    else
      match FirstIndex(e.base, name)
      case Some(i) => e.(base := RemoveAt(e.base, i), added := RemoveKey(e.added, name), titles := titles)
      case None =>
        assert (e.warnings + ["Can't remove column [" + name + "] it doesn't exist"])[..|e.warnings|] == e.warnings;
        e.(titles := titles, warnings := e.warnings + ["Can't remove column [" + name + "] it doesn't exist"])
  }

  /** The entries of the edit, in order. */
  function EditAll(e: Edit, entries: seq<string>, leadingAdd: bool, rule: CustomRule): Edit {
    if entries == [] then e
    else EditStep(EditAll(e, entries[..|entries| - 1], leadingAdd, rule), entries[|entries| - 1], leadingAdd, rule)
  }

  /** The edited list: the implicit rules on what is left of the base, then the appended columns, each once. */
  function EditedColumns(e: Edit): seq<string> {
    Dedup(ApplyImplicit(e.base, e.added, e.removed) + e.appended)
  }

  /** Every appended column is shown once; any other shown column comes from the base or the implicit additions and was not implicitly removed. */
  lemma EditedColumnsMembers(e: Edit)
    ensures NoDuplicates(EditedColumns(e))
    ensures forall x :: x in e.appended ==> x in EditedColumns(e)
    ensures forall x :: x in EditedColumns(e) ==> x in e.appended || x in e.base || x in e.added
    ensures forall x :: x in EditedColumns(e) && x !in e.appended ==> x !in e.removed
  {
    ApplyImplicitMembers(e.base, e.added, e.removed);
    DedupMembers(ApplyImplicit(e.base, e.added, e.removed) + e.appended);
  }

  /** An entry with its own operator ignores the leading one. */
  lemma OwnOperatorWins(e: Edit, column: string, add: bool, rule: CustomRule)
    requires '\n' !in column
    ensures var entry := (if add then "+" else "-") + column;
      EditStep(e, entry, true, rule) == EditStep(e, entry, false, rule)
  {
    var entry := (if add then "+" else "-") + column;
    assert '\n' !in entry;
    assert SignedMatch(entry) == Some((add, column));
  }

  /** An added column ends up in the list, whatever the implicit rules say. */
  lemma AddedIsShown(e: Edit, column: string, rule: CustomRule)
    requires ':' !in column && '\n' !in column
    ensures column in EditedColumns(EditStep(e, "+" + column, true, rule))
    ensures column !in EditStep(e, "+" + column, true, rule).removed
  {
    var entry := "+" + column;
    assert SignedMatch(entry) == Some((true, column));
    EditedColumnsMembers(EditStep(e, entry, true, rule));
    RemoveKeyMembers(e.removed, column);
  }

  /** Removing a column the base list does not hold changes nothing but the warnings, by one. */
  lemma RemovingAbsentOnlyWarns(e: Edit, column: string, rule: CustomRule)
    requires ':' !in column && '\n' !in column && column !in e.base
    ensures var r := EditStep(e, "-" + column, true, rule);
      r.(warnings := e.warnings) == e && |r.warnings| == |e.warnings| + 1
  {
    var entry := "-" + column;
    assert SignedMatch(entry) == Some((false, column));
  }

  /** Removing a column the base list holds once takes it out of the base and out of the implicit additions. */
  lemma RemovingPresentDrops(e: Edit, column: string, rule: CustomRule)
    requires ':' !in column && '\n' !in column && NoDuplicates(e.base) && column in e.base
    ensures var r := EditStep(e, "-" + column, true, rule);
      column !in r.base && column !in r.added && r.warnings == e.warnings && r.appended == e.appended
  {
    var entry := "-" + column;
    assert SignedMatch(entry) == Some((false, column));
    RemoveFirstOnly(e.base, column);
    RemoveKeyMembers(e.added, column);
  }

  /** The headings and the custom fields of the outright list (BSQLQuery.php:1118-1130). */
  function ListAll(titles: map<string, string>, custom: seq<string>, entries: seq<string>, rule: CustomRule)
    : (seq<string>, map<string, string>, seq<string>)
  {
    if entries == [] then ([], titles, custom)
    else
      var (columns, t, c) := ListAll(titles, custom, entries[..|entries| - 1], rule);
      var entry := entries[|entries| - 1];
      var name := NameAndTitle(entry).0;
      var t' := RegisterTitle(t, entry);
      (columns + [name], t', if IsCustomFieldAsWritten(rule, t'.Keys, name) then c + [name] else c)
  }

  /** The outright list is the entries' names, in order. */
  lemma {:induction false} ListAllNames(titles: map<string, string>, custom: seq<string>, entries: seq<string>, rule: CustomRule)
    ensures var r := ListAll(titles, custom, entries, rule);
      |r.0| == |entries| && forall i :: 0 <= i < |entries| ==> r.0[i] == NameAndTitle(entries[i]).0
    decreases |entries|
  {
    if entries != [] {
      ListAllNames(titles, custom, entries[..|entries| - 1], rule);
    }
  }
}
