/**
 * The Bugzilla search URL that mirrors a report's filters: each filtered
 * field adds `field`/`type`/`value` triples to a `buglist.cgi` query
 * (BugzillaQuery.php:948-1005). Triples are numbered `0-<count>-<group>`:
 * under AND each triple opens a new count, under OR the triples share one
 * count and number their groups.
 */
module SearchUrl {
  import opened Php

  /** `'0-' . $this->bzFieldCount . '-' . $bzFieldGroupCount` */
  function FieldId(count: nat, group: nat): string {
    "0-" + NatToString(count) + "-" + NatToString(group)
  }

  /** One `&field…=name&type…=(not)equals&value…=v` triple. */
  function Triple(id: string, name: string, negate: bool, value: string): string {
    "&field" + id + "=" + name
    + "&type" + id + "=" + (if negate then "notequals" else "equals")
    + "&value" + id + "=" + value
  }

  /** `str_replace(' ', '%20', $value)` */
  function SafeValue(value: string): (r: string)
    ensures ' ' !in r
  {
    ReplaceChar(value, ' ', "%20")
  }

  /** A value the URL cannot express: any, not-null or null (`^[\*+-]`). */
  predicate Unsupported(value: string) {
    |value| > 0 && (value[0] == '*' || value[0] == '+' || value[0] == '-')
  }

  /** Whether the terms are ANDed and negated: a `!(` or a `!` anywhere. */
  predicate Conjunctive(safe: string) {
    Contains(safe, "!(") || '!' in safe
  }

  /** The comma list: `!(...)` loses its first two and last characters, a `!` form its first. */
  function ListOf(safe: string): string {
    if Contains(safe, "!(") then DropTwoAndLast(safe)
    else if '!' in safe then Drop(safe, 1)
    else safe
  }

  /** The id of term `k` when the call starts at `count`. */
  function TermId(count: nat, conjunctive: bool, k: nat): string {
    if conjunctive then FieldId(count + k, 0) else FieldId(count, k)
  }

  /** The triples of the terms, in order. */
  function Triples(values: seq<string>, name: string, conjunctive: bool, count: nat): string {
    if values == [] then ""
    else
      var k := |values| - 1;
      Triples(values[..k], name, conjunctive, count) + Triple(TermId(count, conjunctive, k), name, conjunctive, values[k])
  }

  /**
   * `getBZQuery`: the query fragment for one filtered field, and the
   * field counter after it.
   */
  function BzQuery(value: string, name: string, count: nat): (r: (string, nat))
    ensures Unsupported(value) ==> r == ("", count)
    ensures !Unsupported(value) ==>
      var safe := SafeValue(value);
      var values := Split(ListOf(safe), ',');
      r.0 == Triples(values, name, Conjunctive(safe), count)
      && r.1 == (if Conjunctive(safe) then count + |values| else count + 1)
  {
    if Unsupported(value) then ("", count)
    else
      var safe := SafeValue(value);
      var conjunctive := Conjunctive(safe);
      var values := Split(ListOf(safe), ',');
      (Triples(values, name, conjunctive, count), if conjunctive then count + |values| else count + 1)
  }

  /** The counter never decreases, and every supported value moves it on. */
  lemma CounterAdvances(value: string, name: string, count: nat)
    ensures BzQuery(value, name, count).1 >= count
    ensures !Unsupported(value) ==> BzQuery(value, name, count).1 > count
  {
  }

  /** The terms are negated exactly when the value holds a `!`. */
  lemma NegatedIffBang(value: string)
    requires !Unsupported(value)
    ensures Conjunctive(SafeValue(value)) <==> '!' in value
  {
    var safe := SafeValue(value);
    if Contains(safe, "!(") {
      FindContains(safe, "!(");
      var i := Find(safe, "!(").value;
      assert safe[i] == '!';
    }
    BangSurvives(value);
  }

  /** Replacing spaces neither adds nor removes a `!`. */
  lemma {:induction false} BangSurvives(value: string)
    ensures '!' in SafeValue(value) <==> '!' in value
    decreases |value|
  {
    if value != [] {
      BangSurvives(value[1..]);
      assert value == [value[0]] + value[1..];
      assert SafeValue(value) == (if value[0] == ' ' then "%20" else [value[0]]) + SafeValue(value[1..]);
    }
  }

  // ---------------------------------------------------------------------------
  // No spaces

  lemma {:induction false} SplitKeeps(s: string, c: char, d: char)
    requires d !in s
    ensures forall i :: 0 <= i < |Split(s, c)| ==> d !in Split(s, c)[i]
    decreases |s|
  {
    match IndexOf(s, c)
    case None =>
    case Some(i) =>
      assert d !in s[..i];
      assert d !in s[i + 1..];
      SplitKeeps(s[i + 1..], c, d);
  }

  lemma FieldIdNoSpace(count: nat, group: nat)
    ensures ' ' !in FieldId(count, group)
  {
    var a, b := NatToString(count), NatToString(group);
    assert forall i :: 0 <= i < |a| ==> a[i] != ' ';
    assert forall i :: 0 <= i < |b| ==> b[i] != ' ';
  }

  lemma {:induction false} TriplesNoSpace(values: seq<string>, name: string, conjunctive: bool, count: nat)
    requires ' ' !in name
    requires forall i :: 0 <= i < |values| ==> ' ' !in values[i]
    ensures ' ' !in Triples(values, name, conjunctive, count)
    decreases |values|
  {
    if values != [] {
      var k := |values| - 1;
      TriplesNoSpace(values[..k], name, conjunctive, count);
      FieldIdNoSpace(if conjunctive then count + k else count, if conjunctive then 0 else k);
    }
  }

  /** With a space-free field name the URL fragment holds no space: spaces became `%20`. */
  lemma NoSpaces(value: string, name: string, count: nat)
    requires ' ' !in name
    ensures ' ' !in BzQuery(value, name, count).0
  {
    if !Unsupported(value) {
      var safe := SafeValue(value);
      var list := ListOf(safe);
      assert ' ' !in list by {
        if Contains(safe, "!(") && |safe| >= 3 {
          assert forall i :: 0 <= i < |list| ==> list[i] == safe[i + 2];
        } else if !Contains(safe, "!(") && '!' in safe {
          assert forall i :: 0 <= i < |list| ==> list[i] == safe[i + 1];
        }
      }
      SplitKeeps(list, ',', ' ');
      TriplesNoSpace(Split(list, ','), name, Conjunctive(safe), count);
    }
  }

  // ---------------------------------------------------------------------------
  // Field ids are distinct

  lemma NatToStringInjective(a: nat, b: nat)
    requires NatToString(a) == NatToString(b)
    ensures a == b
  {
    DigitsOfNat(a);
    DigitsOfNat(b);
  }

  lemma DigitsNoDash(n: nat)
    ensures '-' !in NatToString(n)
  {
    var s := NatToString(n);
    assert forall i :: 0 <= i < |s| ==> s[i] != '-';
  }

  /** A separator that occurs in neither left part fixes where the parts meet. */
  lemma SeparatedParts(a1: string, b1: string, a2: string, b2: string, sep: char)
    requires sep !in a1 && sep !in a2
    requires a1 + [sep] + b1 == a2 + [sep] + b2
    ensures a1 == a2 && b1 == b2
  {
    var s := a1 + [sep] + b1;
    assert s == a1 + ([sep] + b1) == a2 + ([sep] + b2);
    IndexOfAfter(a1, [sep] + b1, sep);
    IndexOfAfter(a2, [sep] + b2, sep);
    assert a1 == s[..|a1|];
    assert a2 == s[..|a2|];
    assert b1 == s[|a1| + 1..];
    assert b2 == s[|a2| + 1..];
  }

  /** Distinct counters or groups give distinct field ids. */
  lemma FieldIdInjective(c1: nat, g1: nat, c2: nat, g2: nat)
    requires FieldId(c1, g1) == FieldId(c2, g2)
    ensures c1 == c2 && g1 == g2
  {
    var a1, b1 := NatToString(c1), NatToString(g1);
    var a2, b2 := NatToString(c2), NatToString(g2);
    DigitsNoDash(c1);
    DigitsNoDash(c2);
    assert FieldId(c1, g1) == "0-" + (a1 + ['-'] + b1);
    assert FieldId(c2, g2) == "0-" + (a2 + ['-'] + b2);
    assert a1 + ['-'] + b1 == FieldId(c1, g1)[2..];
    assert a2 + ['-'] + b2 == FieldId(c2, g2)[2..];
    SeparatedParts(a1, b1, a2, b2, '-');
    NatToStringInjective(c1, c2);
    NatToStringInjective(g1, g2);
  }

  /** Within one call every term gets its own id. */
  lemma TermIdsDistinct(count: nat, conjunctive: bool, j: nat, k: nat)
    requires j != k
    ensures TermId(count, conjunctive, j) != TermId(count, conjunctive, k)
  {
    if TermId(count, conjunctive, j) == TermId(count, conjunctive, k) {
      if conjunctive {
        FieldIdInjective(count + j, 0, count + k, 0);
      } else {
        FieldIdInjective(count, j, count, k);
      }
    }
  }

  /** Ids used by one call all lie below the counter it leaves for the next call. */
  lemma TermIdsBelowNext(value: string, name: string, count: nat, k: nat)
    requires !Unsupported(value)
    requires k < |Split(ListOf(SafeValue(value)), ',')|
    ensures var conj := Conjunctive(SafeValue(value));
      (if conj then count + k else count) < BzQuery(value, name, count).1
  {
  }

  // ---------------------------------------------------------------------------
  // The loop

  lemma TriplesStep(values: seq<string>, name: string, conjunctive: bool, count: nat, i: nat)
    requires i < |values|
    ensures Triples(values[..i + 1], name, conjunctive, count)
      == Triples(values[..i], name, conjunctive, count) + Triple(TermId(count, conjunctive, i), name, conjunctive, values[i])
  {
    assert values[..i + 1][..i] == values[..i];
  }

  /** The loop of `getBZQuery`: one triple per term, moving the counter under AND and the group under OR. */
  method AppendTriples(values: seq<string>, name: string, negate: bool, count: nat) returns (query: string, next: nat)
    ensures query == Triples(values, name, negate, count)
    ensures next == if negate then count + |values| else count
  {
    query := "";
    var groupCount: nat := 0;
    next := count;
    for i := 0 to |values|
      invariant query == Triples(values[..i], name, negate, count)
      invariant negate ==> next == count + i && groupCount == 0
      invariant !negate ==> next == count && groupCount == i
    {
      var fieldName := FieldId(next, groupCount);
      assert fieldName == TermId(count, negate, i);
      TriplesStep(values, name, negate, count, i);
      query := query + Triple(fieldName, name, negate, values[i]);
      if negate {
        next := next + 1;
      } else {
        groupCount := groupCount + 1;
      }
    }
    assert values[..|values|] == values;
  }

  /** `getBZQuery` as the source runs it, threading the field counter. */
  method BuildBzQuery(value: string, name: string, count: nat) returns (query: string, next: nat)
    ensures (query, next) == BzQuery(value, name, count)
  {
    if Unsupported(value) {
      return "", count;
    }
    var safeValue := SafeValue(value);
    var negate := Conjunctive(safeValue);
    var values := Split(ListOf(safeValue), ',');
    query, next := AppendTriples(values, name, negate, count);
    if !negate {
      next := next + 1;
    }
  }
}
