/**
 * Sorting a report (BSQLQuery.php:54-65, 859-997): the sort, order, group
 * and group order parameters resolve explicit value, then implicit value,
 * then default; the sort list is prefixed by the group, and each sort column
 * is mapped to the SQL expression the ORDER BY clause uses.
 */
module Sorting {
  import opened Php
  import opened Diagnostics
  import Schema

  /**
   * The resolution `getSort`, `getOrder`, `getGroup` and `getGroupOrder`
   * share: the explicit value if truthy, else the implicit value if truthy,
   * else the fallback.
   */
  function Resolve(explicit: Option<string>, implicit: Option<string>, fallback: Option<string>): (r: Option<string>)
    ensures Truthy(explicit) ==> r == explicit
    ensures !Truthy(explicit) && Truthy(implicit) ==> r == implicit
    ensures !Truthy(explicit) && !Truthy(implicit) ==> r == fallback
  {
    if Truthy(explicit) then explicit
    else if Truthy(implicit) then implicit
    else fallback
  }

  /** A resolved value is falsy only when every tier before the fallback was. */
  lemma ResolvedTruthy(explicit: Option<string>, implicit: Option<string>, fallback: Option<string>)
    ensures Truthy(Resolve(explicit, implicit, fallback)) <==> Truthy(explicit) || Truthy(implicit) || Truthy(fallback)
  {
  }

  /** `getOrder`/`getGroupOrder`: `'DESC'` exactly for the literal `desc`, `'ASC'` for anything else. */
  function Direction(order: Option<string>): (r: string)
    ensures r == "DESC" || r == "ASC"
    ensures r == "DESC" <==> order == Some("desc")
  {
    if order == Some("desc") then "DESC" else "ASC"
  }

  /** `getSort` after resolution: a set group goes first, with its direction. */
  function SortWithGroup(sort: string, group: string, groupDirection: string): (r: string)
    ensures !TruthyStr(group) ==> r == sort
    ensures TruthyStr(group) ==>
      (StartsWith(r, group + " " + groupDirection + ",") && r[|group + " " + groupDirection + ","|..] == sort)
  {
    if TruthyStr(group) then group + " " + groupDirection + "," + sort else sort
  }

  /** `getSortMapping`: the explicit sort mapping, else the SQL column, else the name itself. */
  function SortMapping(column: string): (r: string)
    ensures Schema.SortMappingOf(column).Some? ==> r == Schema.SortMappingOf(column).value
    ensures Schema.SortMappingOf(column).None? && Schema.SqlColumnOf(column).Some? ==> r == Schema.SqlColumnOf(column).value
    ensures Schema.SortMappingOf(column).None? && Schema.SqlColumnOf(column).None? ==> r == column
  {
    match Schema.SortMappingOf(column)
    case Some(m) => m
    case None => Schema.SqlColumnOf(column).GetOr(column)
  }

  /** The name a sort term sorts on: its first space-separated word. */
  function TermColumn(term: string): string {
    Split(term, ' ')[0]
  }

  /** One term of `getMappedSort`: the mapped column and, for a two-word term, its direction. */
  function MappedTerm(term: string): (r: Logged<string>)
    ensures |r.warnings| <= 1
    ensures StartsWith(r.value, SortMapping(TermColumn(term)))
  {
    var elements := Split(term, ' ');
    var mapped := SortMapping(elements[0]);
    if |elements| == 2 then
      var direction := ToUpper(elements[1]);
      if direction == "DESC" then Logged(mapped + " DESC", [])
      else if direction == "ASC" then Logged(mapped + " ASC", [])
      else Logged(mapped, ["Sort argument not recognised: " + elements[1]])
    else Logged(mapped, [])
  }

  /** A bare column sorts on its mapping, silently. */
  lemma BareColumn(column: string)
    requires ' ' !in column
    ensures MappedTerm(column) == Logged(SortMapping(column), [])
  {
  }

  /** A direction word of either case becomes `ASC` or `DESC`; any other word is dropped with one warning. */
  lemma ColumnWithDirection(column: string, word: string)
    requires ' ' !in column && ' ' !in word
    ensures var r := MappedTerm(column + " " + word);
      (ToUpper(word) == "DESC" ==> r == Logged(SortMapping(column) + " DESC", []))
      && (ToUpper(word) == "ASC" ==> r == Logged(SortMapping(column) + " ASC", []))
      && (ToUpper(word) != "DESC" && ToUpper(word) != "ASC" ==>
            r == Logged(SortMapping(column), ["Sort argument not recognised: " + word]))
  {
    var term := column + " " + word;
    assert term == column + [' '] + word;
    SplitAt(column, word, ' ');
  }

  /** A term of three or more words sorts on its first word only, silently. */
  lemma ExtraWordsIgnored(term: string)
    requires |Split(term, ' ')| > 2
    ensures MappedTerm(term) == Logged(SortMapping(TermColumn(term)), [])
  {
  }

  /** The terms of a sort list, mapped one by one, warnings in order. */
  function MappedTerms(terms: seq<string>): (r: Logged<seq<string>>)
    ensures |r.value| == |terms|
  {
    if terms == [] then Logged([], [])
    else
      var init := MappedTerms(terms[..|terms| - 1]);
      var last := MappedTerm(terms[|terms| - 1]);
      Logged(init.value + [last.value], init.warnings + last.warnings)
  }

  lemma {:induction false} MappedTermsAt(terms: seq<string>, i: int)
    requires 0 <= i < |terms|
    ensures MappedTerms(terms).value[i] == MappedTerm(terms[i]).value
    decreases |terms|
  {
    if i < |terms| - 1 {
      MappedTermsAt(terms[..|terms| - 1], i);
    }
  }

  /** `getMappedSort`: every comma-separated term mapped, rejoined with commas. */
  function MappedSort(sort: string): Logged<string> {
    var terms := MappedTerms(Split(sort, ','));
    Logged(Join(terms.value, ","), terms.warnings)
  }

  /** A list of bare columns sorts on their mappings, in order, without warnings. */
  lemma {:induction false} BareColumnsTerms(columns: seq<string>)
    requires forall i :: 0 <= i < |columns| ==> ' ' !in columns[i]
    ensures MappedTerms(columns).warnings == []
    ensures forall i :: 0 <= i < |columns| ==> MappedTerms(columns).value[i] == SortMapping(columns[i])
    decreases |columns|
  {
    if columns != [] {
      BareColumnsTerms(columns[..|columns| - 1]);
      forall i | 0 <= i < |columns|
        ensures MappedTerms(columns).value[i] == SortMapping(columns[i])
      {
        MappedTermsAt(columns, i);
      }
    }
  }

  lemma BareColumns(columns: seq<string>)
    requires |columns| > 0
    requires forall i :: 0 <= i < |columns| ==> ' ' !in columns[i] && ',' !in columns[i]
    ensures MappedSort(Join(columns, ",")).warnings == []
    ensures MappedSort(Join(columns, ",")).value == Join(MappedTerms(columns).value, ",")
  {
    SplitJoin(columns, ',');
    BareColumnsTerms(columns);
  }

  /** The names `preSQLGenerate` registers for implicit addition: the column of every sort term. */
  function SortColumns(sort: string): (r: seq<string>)
    ensures |r| == |Split(sort, ',')|
    ensures forall i :: 0 <= i < |r| ==> r[i] == TermColumn(Split(sort, ',')[i])
  {
    var terms := Split(sort, ',');
    seq(|terms|, i requires 0 <= i < |terms| => TermColumn(terms[i]))
  }

  /** `getMappedSort` as the source runs it: push each mapped term, then join. */
  method GetMappedSort(sort: string) returns (joined: string, warnings: seq<string>)
    ensures Logged(joined, warnings) == MappedSort(sort)
  {
    var terms := Split(sort, ',');
    var mappedSort: seq<string> := [];
    warnings := [];
    for i := 0 to |terms|
      invariant Logged(mappedSort, warnings) == MappedTerms(terms[..i])
    {
      assert terms[..i + 1][..i] == terms[..i];
      var mapped := MappedTerm(terms[i]);
      mappedSort := mappedSort + [mapped.value];
      warnings := warnings + mapped.warnings;
    }
    assert terms[..|terms|] == terms;
    joined := Join(mappedSort, ",");
  }
}
