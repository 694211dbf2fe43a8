/**
 * The filter-expression compiler: a parameter value such as `!CLOSED`,
 * `P1,P2`, `!(A,B)`, `<5`, `%foo%`, `+`, `*:+2w` becomes a fragment of an SQL
 * WHERE clause (BSQLQuery.php:669-814, BugzillaQuery.php:887-939).
 */
module Filters {
  import opened Php
  import opened Diagnostics
  import opened Validation

  // ---------------------------------------------------------------------------
  // One term: getMatchExpression

  /** The comparison a term asks for. */
  datatype Comparator = Equal | NotEqual | Like | NotLike | Less | Greater

  /** The comparison that holds exactly when the given one does not (ranges flip direction). */
  function Opposite(c: Comparator): Comparator {
    match c
    case Equal => NotEqual
    case NotEqual => Equal
    case Like => NotLike
    case NotLike => Like
    case Less => Greater
    case Greater => Less
  }

  predicate IsControlChar(c: char) {
    c == '!' || c == '<' || c == '>'
  }

  /** The characters of `[\*+-]`. */
  predicate IsSpecialChar(c: char) {
    c == '*' || c == '+' || c == '-'
  }

  /** `preg_match("/^[\*+-]/")`. */
  predicate StartsSpecial(s: string) {
    |s| > 0 && IsSpecialChar(s[0])
  }

  /** `preg_match("/^([\+-])/")`. */
  predicate StartsSigned(s: string) {
    |s| > 0 && (s[0] == '+' || s[0] == '-')
  }

  /** The control character: the first character of the trimmed term, when it is `!`, `<` or `>`. */
  function ControlOf(term: string): (r: Option<char>)
    ensures r.Some? ==> IsControlChar(r.value)
  {
    var t := Trim(term);
    if |t| > 0 && IsControlChar(t[0]) then Some(t[0]) else None
  }

  /** The part of a term that becomes the SQL literal: trimmed, without its control character. */
  function LiteralOf(term: string): string {
    var t := Trim(term);
    if ControlOf(term).Some? then t[1..] else t
  }

  /**
   * The comparison of a term under an incoming negation: `!` flips the
   * negation; a `%` anywhere in the raw term makes it a pattern match;
   * otherwise `<`/`>` make a range and the rest an equality.
   */
  function ComparatorOf(term: string, negate: bool): Comparator {
    var control := ControlOf(term);
    var localNegate := if control == Some('!') then !negate else negate;
    if '%' in term then (if localNegate then NotLike else Like)
    else if control == Some('<') then (if localNegate then Greater else Less)
    else if control == Some('>') then (if localNegate then Less else Greater)
    else if localNegate then NotEqual else Equal
  }

  /** The operator as the source spells it, up to the opening quote. */
  function OperatorText(control: Option<char>, c: Comparator): (r: string)
    ensures |r| > 0 && r[|r| - 1] == '\'' && '\'' !in r[..|r| - 1]
  {
    match c
    case Like => " like '"
    case NotLike => " not like '"
    case Equal => "='"
    case NotEqual => "<>'"
    case Less => if control == Some('<') then " <'" else " < '"
    case Greater => " > '"
  }

  /** The number of occurrences of `c` in `s`. */
  function CountOf(s: string, c: char): nat {
    if s == [] then 0 else CountOf(s[..|s| - 1], c) + (if s[|s| - 1] == c then 1 else 0)
  }

  lemma {:induction false} CountOfAppend(a: string, b: string, c: char)
    ensures CountOf(a + b, c) == CountOf(a, c) + CountOf(b, c)
    decreases |b|
  {
    if b == [] {
      assert a + b == a;
    } else {
      assert (a + b)[..|a + b| - 1] == a + b[..|b| - 1];
      CountOfAppend(a, b[..|b| - 1], c);
    }
  }

  lemma {:induction false} CountOfAbsent(s: string, c: char)
    requires c !in s
    ensures CountOf(s, c) == 0
    decreases |s|
  {
    if s != [] {
      assert c !in s[..|s| - 1];
      CountOfAbsent(s[..|s| - 1], c);
    }
  }

  /** The SQL a term compiles to: column, operator, quoted decoded literal. */
  function MatchText(term: string, name: string, negate: bool): string {
    name + OperatorText(ControlOf(term), ComparatorOf(term, negate)) + SafeSqlDecode(LiteralOf(term)).value + "'"
  }

  /**
   * `getMatchExpression`: one comparison on column `name`. Its literal is
   * quoted and cannot close its own quotes: with a quote-free column name
   * the fragment holds exactly two quote characters, the last at the end.
   */
  function MatchExpression(term: string, name: string, negate: bool): (r: Logged<string>)
    ensures r.value == MatchText(term, name, negate)
    ensures StartsWith(r.value, name) && r.value[|r.value| - 1] == '\''
    ensures '\'' !in name ==> CountOf(r.value, '\'') == 2
    ensures r.warnings == SafeSqlDecode(LiteralOf(term)).warnings && |r.warnings| <= 1
  {
    var op := OperatorText(ControlOf(term), ComparatorOf(term, negate));
    var literal := SafeSqlDecode(LiteralOf(term));
    var text := name + op + literal.value + "'";
    QuotesOfComparison(name, op, literal.value);
    assert text[..|name|] == name;
    Logged(text, literal.warnings)
  }

  /** A quote-free name and literal around an operator text make exactly two quotes. */
  lemma QuotesOfComparison(name: string, op: string, literal: string)
    requires |op| > 0 && op[|op| - 1] == '\'' && '\'' !in op[..|op| - 1]
    requires '\'' !in literal
    ensures '\'' !in name ==> CountOf(name + op + literal + "'", '\'') == 2
  {
    if '\'' !in name {
      CountOfAbsent(name, '\'');
      CountOfAbsent(literal, '\'');
      assert op == op[..|op| - 1] + "'";
      CountOfAbsent(op[..|op| - 1], '\'');
      CountOfAppend(op[..|op| - 1], "'", '\'');
      CountOfAppend(name, op, '\'');
      CountOfAppend(name + op, literal, '\'');
      CountOfAppend(name + op + literal, "'", '\'');
    }
  }

  /** The incoming negation always yields the opposite comparison: `!` is an exclusive or, ranges invert. */
  lemma NegationIsOpposite(term: string, negate: bool)
    ensures ComparatorOf(term, !negate) == Opposite(ComparatorOf(term, negate))
  {
  }

  /** The comparison of a term read on its own, without an incoming negation. */
  lemma PlainComparator(term: string)
    ensures ComparatorOf(term, false) ==
      if '%' in term then (if ControlOf(term) == Some('!') then NotLike else Like)
      else if ControlOf(term) == Some('<') then Less
      else if ControlOf(term) == Some('>') then Greater
      else if ControlOf(term) == Some('!') then NotEqual else Equal
  {
  }

  /** A pattern match happens exactly when the raw, untrimmed, undecoded term holds a `%`. */
  lemma LikeIffPercent(term: string, negate: bool)
    ensures var c := ComparatorOf(term, negate); c == Like || c == NotLike <==> '%' in term
  {
  }

  // ---------------------------------------------------------------------------
  // getWhereClauseSpecial

  /**
   * `getWhereClauseSpecial`: `+` is "not null", `-` is "null", `*` is no
   * condition; anything else warns and adds no condition (BSQLQuery.php:801-814).
   */
  function WhereClauseSpecial(filter: string, name: string): (r: Logged<string>)
    ensures filter == "+" ==> r == Logged(" and " + name + " IS NOT NULL", [])
    ensures filter == "-" ==> r == Logged(" and " + name + " IS NULL", [])
    ensures filter !in {"+", "-"} ==> r.value == ""
    ensures r.warnings == [] <==> filter in {"+", "-", "*"}
  {
    if filter == "+" then Logged(" and " + name + " IS NOT NULL", [])
    else if filter == "-" then Logged(" and " + name + " IS NULL", [])
    else if filter == "*" then Logged("", [])
    else Logged("", ["Special match not recognised " + name + "=" + filter])
  }

  // ---------------------------------------------------------------------------
  // getWhereClause

  /** `preg_match("/^[\*+-]$/")`: one of the three characters, possibly followed by a final line feed. */
  predicate IsSpecialPattern(filter: string) {
    (|filter| == 1 && IsSpecialChar(filter[0])) || (|filter| == 2 && IsSpecialChar(filter[0]) && filter[1] == '\n')
  }

  /** The warnings compiling one term raises. */
  function TermWarnings(term: string): seq<string> {
    SafeSqlDecode(LiteralOf(term)).warnings
  }

  /** The compiled terms of a list, with their warnings in order. */
  function Terms(parts: seq<string>, name: string, negate: bool): (r: Logged<seq<string>>)
    ensures |r.value| == |parts|
  {
    if parts == [] then Logged([], [])
    else
      var init := Terms(parts[..|parts| - 1], name, negate);
      Logged(init.value + [MatchText(parts[|parts| - 1], name, negate)],
             init.warnings + TermWarnings(parts[|parts| - 1]))
  }

  /** Term `i` of a list compiles from piece `i` alone. */
  lemma {:induction false} TermsAt(parts: seq<string>, name: string, negate: bool, i: int)
    requires 0 <= i < |parts|
    ensures Terms(parts, name, negate).value[i] == MatchText(parts[i], name, negate)
    decreases |parts|
  {
    if i < |parts| - 1 {
      var init := parts[..|parts| - 1];
      TermsAt(init, name, negate, i);
      assert init[i] == parts[i];
    }
  }

  /** Whether a list is the negated form `!(a,b,...)`: a `!(` anywhere in it. */
  predicate IsNegatedList(filter: string) {
    Contains(filter, "!(")
  }

  /** The list `getWhereClause` explodes: the whole value, or `!(...)` without its first two and last characters. */
  function ListBody(filter: string): string {
    if IsNegatedList(filter) then DropTwoAndLast(filter) else filter
  }

  function ListOperator(negated: bool): string {
    if negated then " AND " else " OR "
  }

  /**
   * `getWhereClause`: a special value, a parenthesised list of comparisons
   * (joined by OR, or by AND with every term negated under `!(`), or one
   * comparison (BSQLQuery.php:669-706).
   */
  function WhereClause(filter: string, name: string): (r: Logged<string>)
    ensures IsSpecialPattern(filter) ==> r == WhereClauseSpecial(filter, name)
    ensures !IsSpecialPattern(filter) && ',' in filter ==>
      var terms := Terms(Split(ListBody(filter), ','), name, IsNegatedList(filter));
      r == Logged(" and (" + Join(terms.value, ListOperator(IsNegatedList(filter))) + ") ", terms.warnings)
    ensures !IsSpecialPattern(filter) && ',' !in filter ==>
      r == Logged(" and " + MatchText(filter, name, false), SafeSqlDecode(LiteralOf(filter)).warnings)
  {
    if IsSpecialPattern(filter) then WhereClauseSpecial(filter, name)
    else if ',' in filter then
      var negated := IsNegatedList(filter);
      var terms := Terms(Split(ListBody(filter), ','), name, negated);
      Logged(" and (" + Join(terms.value, ListOperator(negated)) + ") ", terms.warnings)
    else
      var single := MatchExpression(filter, name, false);
      Logged(" and " + single.value, single.warnings)
  }

  /** The three special values, exactly as written. */
  lemma WhereClauseSpecials(name: string)
    ensures WhereClause("+", name) == Logged(" and " + name + " IS NOT NULL", [])
    ensures WhereClause("-", name) == Logged(" and " + name + " IS NULL", [])
    ensures WhereClause("*", name) == Logged("", [])
  {
  }

  /** A character that, when absent, makes a value a plain literal equality. */
  predicate PlainChar(c: char) {
    IsWordChar(c) || c == '@' || c == '.' || c == '/' || c == ' '
  }

  /** What a plain value lacks: no operator, pattern or list character, and nothing unsafe. */
  lemma PlainChars(value: string)
    requires forall i :: 0 <= i < |value| ==> PlainChar(value[i])
    ensures '%' !in value && '+' !in value && ',' !in value && AllSafe(value)
  {
    assert forall i :: 0 <= i < |value| ==> value[i] != '%' && value[i] != '+' && value[i] != ',';
  }

  /** A plain value is its own literal, compared for equality without warning. */
  lemma PlainTerm(value: string)
    requires |value| > 0 && value[0] != ' ' && value[|value| - 1] != ' '
    requires forall i :: 0 <= i < |value| ==> PlainChar(value[i])
    ensures Trim(value) == value && ControlOf(value) == None && LiteralOf(value) == value
    ensures ComparatorOf(value, false) == Equal
    ensures SafeSqlDecode(LiteralOf(value)) == Logged(value, [])
  {
    PlainTrimmed(value);
    PlainUncontrolled(value);
    PlainChars(value);
    SafePlainValue(value);
  }

  lemma PlainTrimmed(value: string)
    requires |value| > 0 && value[0] != ' ' && value[|value| - 1] != ' '
    requires forall i :: 0 <= i < |value| ==> PlainChar(value[i])
    ensures Trim(value) == value
  {
    TrimNoOp(value);
  }

  lemma PlainUncontrolled(value: string)
    requires Trim(value) == value && |value| > 0 && PlainChar(value[0])
    ensures ControlOf(value) == None
  {
  }

  /**
   * A plain value (word characters, `@`, `.`, `/`, inner spaces) compiles to
   * a single equality on itself, with no warning.
   */
  lemma PlainValueClause(value: string, name: string)
    requires |value| > 0 && value[0] != ' ' && value[|value| - 1] != ' '
    requires forall i :: 0 <= i < |value| ==> PlainChar(value[i])
    ensures WhereClause(value, name) == Logged(" and " + name + "='" + value + "'", [])
  {
    PlainTerm(value);
    assert ',' !in value && !IsSpecialPattern(value);
    var text := MatchText(value, name, false);
    assert text == name + "='" + value + "'";
    assert " and " + text == " and " + name + "='" + value + "'";
  }

  /** Under `!(...)` every term is the opposite of what it would say on its own. */
  lemma NegatedListTerms(filter: string, name: string, i: int)
    requires !IsSpecialPattern(filter) && ',' in filter && IsNegatedList(filter)
    requires 0 <= i < |Split(ListBody(filter), ',')|
    ensures var term := Split(ListBody(filter), ',')[i];
      ComparatorOf(term, true) == Opposite(ComparatorOf(term, false))
  {
    NegationIsOpposite(Split(ListBody(filter), ',')[i], false);
  }

  /** Compiling one more piece appends its term and its warnings. */
  lemma TermsSnoc(values: seq<string>, i: int, name: string, negate: bool)
    requires 0 <= i < |values|
    ensures Terms(values[..i + 1], name, negate) ==
      Logged(Terms(values[..i], name, negate).value + [MatchText(values[i], name, negate)],
             Terms(values[..i], name, negate).warnings + TermWarnings(values[i]))
  {
    assert values[..i + 1][..i] == values[..i];
  }

  /** `getWhereClause` as the source runs it: one pass over the terms, accumulating the clause. */
  method GetWhereClause(filter: string, name: string) returns (where: string, warnings: seq<string>)
    ensures Logged(where, warnings) == WhereClause(filter, name)
  {
    if IsSpecialPattern(filter) {
      var special := WhereClauseSpecial(filter, name);
      return special.value, special.warnings;
    } else if ',' in filter {
      var negate := IsNegatedList(filter);
      where, warnings := ListClause(Split(ListBody(filter), ','), name, negate);
    } else {
      var single := MatchExpression(filter, name, false);
      where := " and " + single.value;
      warnings := single.warnings;
    }
  }

  /** The list branch of `getWhereClause`: terms joined by the operator inside parentheses. */
  method ListClause(values: seq<string>, name: string, negate: bool) returns (where: string, warnings: seq<string>)
    ensures where == " and (" + Join(Terms(values, name, negate).value, ListOperator(negate)) + ") "
    ensures warnings == Terms(values, name, negate).warnings
  {
    var operator := ListOperator(negate);
    var clause := "";
    warnings := [];
    var first := true;
    for i := 0 to |values|
      invariant first <==> i == 0
      invariant clause == Join(Terms(values[..i], name, negate).value, operator)
      invariant warnings == Terms(values[..i], name, negate).warnings
    {
      ghost var done := Terms(values[..i], name, negate).value;
      var term := MatchExpression(values[i], name, negate);
      TermsSnoc(values, i, name, negate);
      JoinSnoc(done, term.value, operator);
      if first {
        first := false;
      } else {
        clause := clause + operator;
      }
      clause := clause + term.value;
      warnings := warnings + term.warnings;
    }
    assert values[..|values|] == values;
    where := " and (" + clause + ") ";
  }

  // ---------------------------------------------------------------------------
  // getIntWhereClause

  /**
   * `getIntWhereClause`: only `+` ("positive") is understood; every other
   * value warns once and adds nothing, including `*` and `-`, for which the
   * source falls off its switch and returns null (BSQLQuery.php:716-728).
   */
  function IntWhereClause(filter: string, name: string): (r: Logged<string>)
    ensures filter == "+" ==> r == Logged(" and " + name + " > 0", [])
    ensures filter != "+" ==> r == Logged("", ["Int match not recognised " + name + "=" + filter])
  {
    if StartsSpecial(filter) && filter == "+" then Logged(" and " + name + " > 0", [])
    else Logged("", ["Int match not recognised " + name + "=" + filter])
  }

  // ---------------------------------------------------------------------------
  // getAbsoluteDate

  /** The longest prefix of decimal digits (`[0-9]*`). */
  function DigitPrefix(s: string): (r: string)
    ensures StartsWith(s, r)
    ensures forall i :: 0 <= i < |r| ==> IsDigit(r[i])
    ensures |r| == |s| || !IsDigit(s[|r|])
  {
    if s != [] && IsDigit(s[0]) then [s[0]] + DigitPrefix(s[1..]) else []
  }

  /** What `.*` captures: everything up to the first line feed. */
  function UpToNewline(s: string): (r: string)
    ensures StartsWith(s, r) && '\n' !in r
  {
    match IndexOf(s, '\n')
    case None => s
    case Some(i) => s[..i]
  }

  const SecondsPerDay: int := 86400
  const SecondsPerWeek: int := 604800
  const SecondsPerMonth: int := 2592000

  /**
   * The offset in seconds a relative date `[+-][0-9]*(d|w|m)` asks for, or
   * `None` when the date is absolute. An unknown unit means no offset.
   */
  function DateOffset(date: string): (r: Option<int>)
    ensures r.Some? <==> StartsSigned(date)
  {
    if StartsSigned(date) then
      var delta := UnsignedOffset(date[1..]);
      Some(if date[0] == '+' then delta else -delta)
    else None
  }

  /** The distance after the sign: digits, then a unit letter up to any line feed. */
  function UnsignedOffset(rest: string): int {
    var digits := DigitPrefix(rest);
    var unit := UpToNewline(rest[|digits|..]);
    var count := DigitsValue(digits);
    if unit == "d" then SecondsPerDay * count
    else if unit == "w" then SecondsPerWeek * count
    else if unit == "m" then SecondsPerMonth * count
    else 0
  }

  /**
   * A sign and a unit with no digits multiply the unit by the empty string,
   * which PHP 7 reads as 0: `+d` is today.
   */
  lemma UnitWithoutCount()
    ensures DateOffset("+d") == Some(0) && DateOffset("-w") == Some(0)
  {
    assert DigitPrefix("d") == [] && DigitPrefix("w") == [];
  }

  /**
   * `getAbsoluteDate`: a relative date is rendered as the calendar day
   * `now` plus its offset; anything else is kept as written. `ymd` is the
   * `date('Y-m-d', ·)` rendering of a Unix time (BSQLQuery.php:767-791).
   */
  function AbsoluteDate(date: string, now: int, ymd: int -> string): (r: string)
    ensures DateOffset(date).Some? ==> r == ymd(now + DateOffset(date).value)
    ensures DateOffset(date).None? ==> r == date
  {
    match DateOffset(date)
    case Some(offset) => ymd(now + offset)
    case None => date
  }

  /** Digits followed by a unit letter read back as that many units. */
  lemma DigitsThenUnit(n: nat, unit: char)
    requires !IsDigit(unit) && unit != '\n'
    ensures DigitPrefix(NatToString(n) + [unit]) == NatToString(n)
    ensures (NatToString(n) + [unit])[|NatToString(n)|..] == [unit]
  {
    var s := NatToString(n) + [unit];
    DigitPrefixOf(NatToString(n), [unit]);
  }

  lemma {:induction false} DigitPrefixOf(digits: string, rest: string)
    requires forall i :: 0 <= i < |digits| ==> IsDigit(digits[i])
    requires rest == [] || !IsDigit(rest[0])
    ensures DigitPrefix(digits + rest) == digits
    decreases |digits|
  {
    if digits != [] {
      assert (digits + rest)[1..] == digits[1..] + rest;
      DigitPrefixOf(digits[1..], rest);
    } else {
      assert digits + rest == rest;
    }
  }

  /** `+Nd`, `+Nw`, `+Nm` move `N` days, weeks or 30-day months ahead; `-` moves back as far. */
  lemma RelativeOffset(sign: char, n: nat, unit: char)
    requires (sign == '+' || sign == '-') && (unit == 'd' || unit == 'w' || unit == 'm')
    ensures DateOffset([sign] + NatToString(n) + [unit]) ==
      Some(if sign == '+' then UnitSeconds(unit) * n else -(UnitSeconds(unit) * n))
  {
    var digits := NatToString(n);
    var date := [sign] + digits + [unit];
    assert date[1..] == digits + [unit];
    DigitsThenUnit(n, unit);
    assert UpToNewline([unit]) == [unit];
    DigitsOfNat(n);
  }

  function UnitSeconds(unit: char): int {
    if unit == 'd' then SecondsPerDay else if unit == 'w' then SecondsPerWeek else SecondsPerMonth
  }

  /** The two signs move the same distance in opposite directions. */
  lemma OffsetSigns(rest: string)
    ensures DateOffset("+" + rest).Some? && DateOffset("-" + rest).Some?
    ensures DateOffset("-" + rest).value == -DateOffset("+" + rest).value
  {
    var plus, minus := "+" + rest, "-" + rest;
    assert plus[1..] == rest && minus[1..] == rest;
  }

  // ---------------------------------------------------------------------------
  // getDateWhereClause

  /** ` and name OP'date'`: one bound on a date column. */
  function DateBound(name: string, op: string, date: string): string {
    " and " + name + " " + op + "'" + date + "'"
  }

  /** `explode(':', $filter)[0]` and `[1]` for a filter that holds a colon. */
  function RangeStart(filter: string): string
    requires ':' in filter
  {
    Split(filter, ':')[0]
  }

  function RangeEnd(filter: string): string
    requires ':' in filter
  {
    var i := IndexOf(filter, ':').value;
    Split(filter[i + 1..], ':')[0]
  }

  /** `explode` really yields the two pieces around the first colon. */
  lemma RangePieces(filter: string)
    requires ':' in filter
    ensures |Split(filter, ':')| >= 2
    ensures Split(filter, ':')[0] == RangeStart(filter) && Split(filter, ':')[1] == RangeEnd(filter)
  {
  }

  /** `^[+](.+)` and `^[-](.+)`: a sign followed by at least one character that is not a line feed. */
  predicate SignedDate(filter: string, sign: char) {
    |filter| >= 2 && filter[0] == sign && filter[1] != '\n'
  }

  /**
   * `getDateWhereClause`: a range `A:B` bounds both ends, with `*` for an
   * open end; `+X` is an upper and `-X` a lower bound; other values starting
   * with `*`, `+` or `-` are special; anything else warns and adds nothing
   * (BSQLQuery.php:738-761).
   */
  function DateWhereClause(filter: string, name: string, now: int, ymd: int -> string): (r: Logged<string>)
    ensures ':' in filter && RangeStart(filter) == "*" ==>
      r == Logged(DateBound(name, "<=", AbsoluteDate(RangeEnd(filter), now, ymd)), [])
    ensures ':' in filter && RangeStart(filter) != "*" && RangeEnd(filter) == "*" ==>
      r == Logged(DateBound(name, ">=", AbsoluteDate(RangeStart(filter), now, ymd)), [])
    ensures ':' in filter && RangeStart(filter) != "*" && RangeEnd(filter) != "*" ==>
      r == Logged(DateBound(name, ">=", AbsoluteDate(RangeStart(filter), now, ymd))
                  + DateBound(name, "<=", AbsoluteDate(RangeEnd(filter), now, ymd)), [])
    ensures ':' !in filter && SignedDate(filter, '+') ==>
      r == Logged(DateBound(name, "<=", AbsoluteDate(filter, now, ymd)), [])
    ensures ':' !in filter && SignedDate(filter, '-') ==>
      r == Logged(DateBound(name, ">=", AbsoluteDate(filter, now, ymd)), [])
    ensures ':' !in filter && !SignedDate(filter, '+') && !SignedDate(filter, '-') && StartsSpecial(filter) ==>
      r == WhereClauseSpecial(filter, name)
    ensures ':' !in filter && !StartsSpecial(filter) ==>
      r == Logged("", ["Date match not recognised " + name + "=" + filter])
  {
    if ':' in filter then
      var start := RangeStart(filter);
      var end := RangeEnd(filter);
      if start == "*" then Logged(DateBound(name, "<=", AbsoluteDate(end, now, ymd)), [])
      else if end == "*" then Logged(DateBound(name, ">=", AbsoluteDate(start, now, ymd)), [])
      else Logged(DateBound(name, ">=", AbsoluteDate(start, now, ymd)) + DateBound(name, "<=", AbsoluteDate(end, now, ymd)), [])
    else if SignedDate(filter, '+') then Logged(DateBound(name, "<=", AbsoluteDate(filter, now, ymd)), [])
    else if SignedDate(filter, '-') then Logged(DateBound(name, ">=", AbsoluteDate(filter, now, ymd)), [])
    else if StartsSpecial(filter) then WhereClauseSpecial(filter, name)
    else Logged("", ["Date match not recognised " + name + "=" + filter])
  }

  /** A fixed range of calendar days compiles to both bounds on the days as written. */
  lemma AbsoluteRange(from: string, to: string, name: string, now: int, ymd: int -> string)
    requires ':' !in from && ':' !in to && from != "*" && to != "*"
    requires !StartsSigned(from) && !StartsSigned(to)
    ensures DateWhereClause(from + ":" + to, name, now, ymd) ==
      Logged(DateBound(name, ">=", from) + DateBound(name, "<=", to), [])
  {
    var filter := from + ":" + to;
    assert filter[..|from|] == from && filter[|from|] == ':';
    SplitAt(from, to, ':');
    IndexOfAfter(from, [':'] + to, ':');
    assert filter == from + ([':'] + to);
    assert filter[|from| + 1..] == to;
  }
}
