/**
 * The few PHP string primitives the compiler is built from (explode, implode,
 * trim, strpos, substr, str_replace, strtoupper, urldecode) and PHP's notion of
 * a "truthy" string, over Dafny strings. PHP strings are byte strings; here a
 * character stands for one byte.
 */
module Php {

  datatype Option<+T> = None | Some(value: T) {
    function GetOr(default: T): T {
      match this
      case Some(v) => v
      case None => default
    }
  }

  /** A string in a boolean context: `''` and `'0'` are false, every other string is true. */
  predicate TruthyStr(s: string) {
    s != "" && s != "0"
  }

  /** A string-or-null in a boolean context: null is false. */
  predicate Truthy(v: Option<string>) {
    v.Some? && TruthyStr(v.value)
  }

  /** A string-or-null in a string context: null becomes `''`. */
  function OrEmpty(v: Option<string>): string {
    v.GetOr("")
  }

  /** The PCRE class `\w` without locale or Unicode mode. */
  predicate IsWordChar(c: char) {
    ('a' <= c <= 'z') || ('A' <= c <= 'Z') || ('0' <= c <= '9') || c == '_'
  }

  /** The PCRE class `\s`: space, tab, line feed, vertical tab, form feed, carriage return. */
  predicate IsRegexSpace(c: char) {
    c == ' ' || c == '\t' || c == '\n' || c == '\U{B}' || c == '\U{C}' || c == '\r'
  }

  /** The characters `trim()` strips by default: space, tab, LF, CR, NUL, vertical tab. */
  predicate IsTrimChar(c: char) {
    c == ' ' || c == '\t' || c == '\n' || c == '\r' || c == '\0' || c == '\U{B}'
  }

  predicate IsDigit(c: char) {
    '0' <= c <= '9'
  }

  /** The first position at or after `i` that `trim` keeps from the left. */
  function KeptFrom(s: string, i: nat): (k: nat)
    requires i <= |s|
    ensures i <= k <= |s| && (k == |s| || !IsTrimChar(s[k]))
    decreases |s| - i
  {
    if i < |s| && IsTrimChar(s[i]) then KeptFrom(s, i + 1) else i
  }

  /** The end, at or before `j`, of what `trim` keeps from the right. */
  function KeptUntil(s: string, j: nat): (k: nat)
    requires j <= |s|
    ensures k <= j && (k == 0 || !IsTrimChar(s[k - 1]))
  {
    if j > 0 && IsTrimChar(s[j - 1]) then KeptUntil(s, j - 1) else j
  }

  /** `trim($s)`: strip trim characters from both ends. */
  function Trim(s: string): (r: string)
    ensures r == [] || (!IsTrimChar(r[0]) && !IsTrimChar(r[|r| - 1]))
    ensures |r| <= |s|
  {
    var from := KeptFrom(s, 0);
    var until := KeptUntil(s, |s|);
    if from < until then s[from..until] else []
  }

  /** A character absent from the input is absent from the trimmed string. */
  lemma TrimKeeps(s: string, c: char)
    requires c !in s
    ensures c !in Trim(s)
  {
    var from := KeptFrom(s, 0);
    var until := KeptUntil(s, |s|);
    if from < until {
      var r := s[from..until];
      assert forall i :: 0 <= i < |r| ==> r[i] == s[from + i];
    }
  }

  /** A string with nothing to strip at either end is its own trim. */
  lemma TrimNoOp(s: string)
    requires s == [] || (!IsTrimChar(s[0]) && !IsTrimChar(s[|s| - 1]))
    ensures Trim(s) == s
  {
    if s != [] {
      assert KeptFrom(s, 0) == 0;
      assert KeptUntil(s, |s|) == |s|;
    }
  }

  /** Trimming twice is trimming once. */
  lemma TrimIdempotent(s: string)
    ensures Trim(Trim(s)) == Trim(s)
  {
    TrimNoOp(Trim(s));
  }

  /** Index of the first occurrence of `c`, if any (`strpos` with a one-character needle). */
  function IndexOf(s: string, c: char): (r: Option<nat>)
    ensures r.None? <==> c !in s
    ensures r.Some? ==> r.value < |s| && s[r.value] == c && c !in s[..r.value]
  {
    if s == [] then None
    else if s[0] == c then Some(0)
    else match IndexOf(s[1..], c)
      case None => None
      case Some(i) =>
        assert s[..i + 1] == [s[0]] + s[1..][..i];
        Some(i + 1)
  }

  /** Whether `sub` occurs in `s` starting at position `i`. */
  predicate OccursAt(s: string, sub: string, i: nat) {
    i + |sub| <= |s| && s[i..i + |sub|] == sub
  }

  /** `strpos($s, $sub) !== false` */
  predicate Contains(s: string, sub: string) {
    exists i: nat | i <= |s| :: OccursAt(s, sub, i)
  }

  /** `strpos($s, $sub)` for a non-empty needle: the first position at which it occurs. */
  function Find(s: string, sub: string, from: nat := 0): (r: Option<nat>)
    requires |sub| > 0 && from <= |s|
    ensures r.Some? ==> from <= r.value && OccursAt(s, sub, r.value)
    ensures r.Some? ==> forall j: nat :: from <= j < r.value ==> !OccursAt(s, sub, j)
    ensures r.None? ==> forall j: nat :: from <= j ==> !OccursAt(s, sub, j)
    decreases |s| - from
  {
    if from + |sub| > |s| then None
    else if s[from..from + |sub|] == sub then Some(from)
    else Find(s, sub, from + 1)
  }

  lemma FindContains(s: string, sub: string)
    requires |sub| > 0
    ensures Find(s, sub).Some? <==> Contains(s, sub)
  {
    if Find(s, sub).Some? {
      assert OccursAt(s, sub, Find(s, sub).value);
    }
  }

  lemma CharOccursAt(s: string, c: char)
    ensures Contains(s, [c]) <==> c in s
  {
    if c in s {
      var i :| 0 <= i < |s| && s[i] == c;
      assert OccursAt(s, [c], i);
    }
    if Contains(s, [c]) {
      var i: nat :| i <= |s| && OccursAt(s, [c], i);
      assert s[i..i + 1][0] == s[i];
    }
  }

  predicate StartsWith(s: string, prefix: string) {
    |prefix| <= |s| && s[..|prefix|] == prefix
  }

  /** `$s` begins with a character of `chars` (the regex `/^[...]/`). */
  predicate StartsWithOneOf(s: string, chars: string) {
    |s| > 0 && s[0] in chars
  }

  /** `substr($s, 0, $n)` for `$n >= 0`. */
  function Prefix(s: string, n: nat): (r: string)
    ensures |r| == if n <= |s| then n else |s|
    ensures r == s[..|r|]
  {
    if n <= |s| then s[..n] else s
  }

  /** `substr($s, $n)` for `$n >= 0`; PHP 8 yields `''` when `$n` is past the end. */
  function Drop(s: string, n: nat): (r: string)
    ensures |r| == if n <= |s| then |s| - n else 0
  {
    if n <= |s| then s[n..] else ""
  }

  /** `substr($s, 2, -1)`: drop the first two characters and the last one. */
  function DropTwoAndLast(s: string): (r: string)
    ensures |s| >= 3 ==> r == s[2..|s| - 1]
    ensures |s| < 3 ==> r == ""
  {
    if |s| >= 3 then s[2..|s| - 1] else ""
  }

  /** `explode($c, $s)` with a one-character separator. */
  function Split(s: string, c: char): (r: seq<string>)
    ensures |r| >= 1
    decreases |s|
  {
    match IndexOf(s, c)
    case None => [s]
    case Some(i) => [s[..i]] + Split(s[i + 1..], c)
  }

  /** No piece of `explode` holds the separator. */
  lemma {:induction false} SplitPieces(s: string, c: char)
    ensures forall i :: 0 <= i < |Split(s, c)| ==> c !in Split(s, c)[i]
    decreases |s|
  {
    match IndexOf(s, c)
    case None =>
    case Some(i) => SplitPieces(s[i + 1..], c);
  }

  /** The first piece of `explode` is what precedes the first separator. */
  lemma SplitHead(s: string, c: char)
    ensures StartsWith(s, Split(s, c)[0])
    ensures |Split(s, c)| > 1 <==> c in s
    ensures c in s ==> s[|Split(s, c)[0]|] == c && Split(s, c)[1..] == Split(s[|Split(s, c)[0]| + 1..], c)
  {
  }

  /** `implode($sep, $parts)`, built left to right the way the source's loops build it. */
  function Join(parts: seq<string>, sep: string): string
  {
    if |parts| == 0 then ""
    else if |parts| == 1 then parts[0]
    else Join(parts[..|parts| - 1], sep) + sep + parts[|parts| - 1]
  }

  lemma {:induction false} JoinCons(x: string, parts: seq<string>, sep: string)
    requires |parts| >= 1
    ensures Join([x] + parts, sep) == x + sep + Join(parts, sep)
    decreases |parts|
  {
    var xs := [x] + parts;
    var n := |parts|;
    if n == 1 {
      assert xs[..1] == [x];
    } else {
      var init := parts[..n - 1];
      assert xs[..|xs| - 1] == [x] + init;
      assert xs[|xs| - 1] == parts[n - 1];
      JoinCons(x, init, sep);
      calc {
        Join(xs, sep);
        Join([x] + init, sep) + sep + parts[n - 1];
        (x + sep + Join(init, sep)) + sep + parts[n - 1];
        x + sep + (Join(init, sep) + sep + parts[n - 1]);
        x + sep + Join(parts, sep);
      }
    }
  }

  /** Exploding and re-joining with the same separator gives the input back. */
  lemma {:induction false} JoinSplit(s: string, c: char)
    ensures Join(Split(s, c), [c]) == s
    decreases |s|
  {
    match IndexOf(s, c)
    case None =>
    case Some(i) =>
      JoinSplit(s[i + 1..], c);
      JoinCons(s[..i], Split(s[i + 1..], c), [c]);
      assert s == s[..i] + [c] + s[i + 1..];
  }

  /** Joining pieces that do not contain the separator and exploding again gives the pieces back. */
  lemma {:induction false} SplitJoin(parts: seq<string>, c: char)
    requires |parts| >= 1
    requires forall i :: 0 <= i < |parts| ==> c !in parts[i]
    ensures Split(Join(parts, [c]), c) == parts
    decreases |parts|
  {
    if |parts| == 1 {
      assert IndexOf(parts[0], c).None?;
    } else {
      var rest := parts[1..];
      assert parts == [parts[0]] + rest;
      JoinCons(parts[0], rest, [c]);
      assert c !in parts[0];
      SplitAt(parts[0], Join(rest, [c]), c);
      SplitJoin(rest, c);
    }
  }

  lemma IndexOfAfter(x: string, y: string, c: char)
    requires c !in x && |y| > 0 && y[0] == c
    ensures IndexOf(x + y, c) == Some(|x|)
    decreases |x|
  {
    if x == [] {
      assert x + y == y;
    } else {
      assert (x + y)[1..] == x[1..] + y;
      assert (x + y)[0] == x[0];
      IndexOfAfter(x[1..], y, c);
    }
  }

  /** A string of the form `x + sep + y` where `x` holds no separator explodes into `x` and the pieces of `y`. */
  lemma SplitAt(x: string, y: string, c: char)
    requires c !in x
    ensures Split(x + [c] + y, c) == [x] + Split(y, c)
  {
    var s := x + [c] + y;
    IndexOfAfter(x, [c] + y, c);
    assert s == x + ([c] + y);
    assert s[..|x|] == x;
    assert s[|x| + 1..] == y;
  }

  /** `str_replace($c, $with, $s)` for a one-character needle. */
  function ReplaceChar(s: string, c: char, with: string): (r: string)
    ensures c !in with ==> c !in r
    ensures c !in s ==> r == s
  {
    if s == [] then []
    else (if s[0] == c then with else [s[0]]) + ReplaceChar(s[1..], c, with)
  }

  lemma ReplaceCharKeeps(s: string, c: char, with: string, d: char)
    requires d !in s && d !in with
    ensures d !in ReplaceChar(s, c, with)
  {
    if s != [] {
      ReplaceCharKeeps(s[1..], c, with, d);
    }
  }

  function UpperChar(c: char): char {
    if 'a' <= c <= 'z' then (c as int - 32) as char else c
  }

  /** `strtoupper`: ASCII letters only. */
  function ToUpper(s: string): (r: string)
    ensures |r| == |s| && forall i :: 0 <= i < |s| ==> r[i] == UpperChar(s[i])
  {
    if s == [] then [] else [UpperChar(s[0])] + ToUpper(s[1..])
  }

  predicate IsHexDigit(c: char) {
    ('0' <= c <= '9') || ('a' <= c <= 'f') || ('A' <= c <= 'F')
  }

  function HexValue(c: char): (r: nat)
    requires IsHexDigit(c)
    ensures r < 16
  {
    if '0' <= c <= '9' then c as int - '0' as int
    else if 'a' <= c <= 'f' then c as int - 'a' as int + 10
    else c as int - 'A' as int + 10
  }

  /** `urldecode`: `+` becomes a space, `%XX` with two hex digits becomes that byte, anything else stays. */
  function UrlDecode(s: string): string
    decreases |s|
  {
    if s == [] then []
    else if s[0] == '+' then [' '] + UrlDecode(s[1..])
    else if s[0] == '%' && |s| >= 3 && IsHexDigit(s[1]) && IsHexDigit(s[2]) then
      [(HexValue(s[1]) * 16 + HexValue(s[2])) as char] + UrlDecode(s[3..])
    else [s[0]] + UrlDecode(s[1..])
  }

  /** Decimal rendering of a natural number, as PHP interpolates an integer. */
  function NatToString(n: nat): (r: string)
    ensures |r| > 0 && forall i :: 0 <= i < |r| ==> IsDigit(r[i])
  {
    if n < 10 then [('0' as int + n) as char]
    else NatToString(n / 10) + [('0' as int + n % 10) as char]
  }

  /** Decimal rendering of an integer (PHP's `%d`). */
  function IntToString(i: int): string {
    if i < 0 then "-" + NatToString(-i) else NatToString(i)
  }

  /** The value of a string of decimal digits. */
  function DigitsValue(s: string): nat
    requires forall i :: 0 <= i < |s| ==> IsDigit(s[i])
  {
    if s == [] then 0
    else
      assert IsDigit(s[|s| - 1]);
      DigitsValue(s[..|s| - 1]) * 10 + (s[|s| - 1] as int - '0' as int)
  }

  /** Decimal digits round-trip through their value. */
  lemma {:induction false} DigitsOfNat(n: nat)
    ensures DigitsValue(NatToString(n)) == n
  {
    if n >= 10 {
      var s := NatToString(n);
      assert s[..|s| - 1] == NatToString(n / 10);
      DigitsOfNat(n / 10);
    }
  }

  /** Keep the elements of `s` that are not in `drop`, in order. */
  function Without(s: seq<string>, drop: seq<string>): seq<string> {
    if s == [] then []
    else if s[|s| - 1] in drop then Without(s[..|s| - 1], drop)
    else Without(s[..|s| - 1], drop) + [s[|s| - 1]]
  }

  /** What is left is what was there and not dropped. */
  lemma {:induction false} WithoutMembers(s: seq<string>, drop: seq<string>)
    ensures |Without(s, drop)| <= |s|
    ensures forall x :: x in Without(s, drop) <==> x in s && x !in drop
    decreases |s|
  {
    if s != [] {
      var init := s[..|s| - 1];
      WithoutMembers(init, drop);
      assert s == init + [s[|s| - 1]];
    }
  }

  /** `s` holds no element twice. */
  predicate NoDuplicates(s: seq<string>) {
    forall i, j :: 0 <= i < j < |s| ==> s[i] != s[j]
  }

  /** `explode($sep, $s)` with a separator of several characters. */
  function Explode(s: string, sep: string): (r: seq<string>)
    requires |sep| > 0
    ensures |r| >= 1
    ensures !Contains(s, sep) ==> r == [s]
    ensures Contains(s, sep) ==> |r| >= 2
    decreases |s|
  {
    FindContains(s, sep);
    match Find(s, sep)
    case None => [s]
    case Some(i) => [s[..i]] + Explode(s[i + |sep|..], sep)
  }

  // ---------------------------------------------------------------------------
  // Loose comparison with numbers

  /** A non-empty run of decimal digits. */
  predicate IsDigits(s: string) {
    |s| > 0 && forall i :: 0 <= i < |s| ==> IsDigit(s[i])
  }

  function Pow10(e: nat): (r: nat)
    ensures r >= 1
  {
    if e == 0 then 1 else 10 * Pow10(e - 1)
  }

  /** The first `e` or `E`, if any. */
  function ExponentMark(s: string): (r: Option<nat>)
    ensures r.Some? ==> r.value < |s| && (s[r.value] == 'e' || s[r.value] == 'E')
    ensures r.None? ==> forall i :: 0 <= i < |s| ==> s[i] != 'e' && s[i] != 'E'
    decreases |s|
  {
    if s == [] then None
    else if s[0] == 'e' || s[0] == 'E' then Some(0)
    else match ExponentMark(s[1..])
      case None => None
      case Some(i) => Some(i + 1)
  }

  /**
   * The value of a numeric string made of word characters, as PHP 8's loose
   * comparison reads it: digits, optionally followed by `e` or `E` and an
   * exponent of digits. Any other word string is not numeric.
   */
  function WordNumeric(s: string): (r: Option<nat>)
    ensures IsDigits(s) ==> r == Some(DigitsValue(s))
  {
    if IsDigits(s) then Some(DigitsValue(s))
    else match ExponentMark(s)
      case None => None
      case Some(k) =>
        if IsDigits(s[..k]) && IsDigits(s[k + 1..]) then Some(DigitsValue(s[..k]) * Pow10(DigitsValue(s[k + 1..])))
        else None
  }

  /** `strcmp($a, $b) > 0`: byte-wise lexicographic order. */
  predicate StrGreater(a: string, b: string)
    decreases |a|
  {
    if a == [] then false
    else if b == [] then true
    else if a[0] != b[0] then a[0] > b[0]
    else StrGreater(a[1..], b[1..])
  }

  /**
   * `$s > $n` for a string and an integer in PHP 8: a numeric string is
   * compared by value, any other string with the integer's decimal text.
   */
  predicate LooseGreater(s: string, n: nat) {
    match WordNumeric(s)
    case Some(v) => v > n
    case None => StrGreater(s, NatToString(n))
  }

  /** `$s == '1'` in PHP 8: both numeric compares values, otherwise the strings. */
  predicate LooselyOne(s: string) {
    WordNumeric(s) == Some(1) || s == "1"
  }

  /** `$a == $b` for two strings in PHP 8: two numeric strings compare by value, any others as strings. */
  predicate LooseEquals(a: string, b: string) {
    if WordNumeric(a).Some? && WordNumeric(b).Some? then WordNumeric(a) == WordNumeric(b) else a == b
  }

  /** Equal strings are loosely equal, and loose equality is symmetric. */
  lemma LooseEqualsEquivalence(a: string, b: string)
    ensures LooseEquals(a, a)
    ensures LooseEquals(a, b) <==> LooseEquals(b, a)
  {
  }

  /** Two spellings of one number are loosely equal; a number and a word are not. */
  lemma LooseNumbers()
    ensures LooseEquals("1", "01") && LooseEquals("100", "1e2") && !LooseEquals("1", "1a")
  {
    assert IsDigits("1") && IsDigits("01") && IsDigits("100");
    assert DigitsValue("01") == DigitsValue("0") * 10 + 1;
    assert DigitsValue("100") == DigitsValue("10") * 10;
    assert DigitsValue("10") == DigitsValue("1") * 10;
    assert !IsDigits("1e2") by { assert !IsDigit("1e2"[1]); }
    assert "1e2"[1..] == "e2" && ExponentMark("e2") == Some(0);
    assert "1e2"[..1] == "1" && "1e2"[2..] == "2";
    assert Pow10(2) == 100;
    assert !IsDigits("1a") by { assert !IsDigit("1a"[1]); }
    assert "1a"[1..] == "a" && "a"[1..] == [];
    assert ExponentMark("a") == None;
  }
}
