/** The string operations the modelled code takes from QString: ASCII case
    folding, substring search, whitespace trimming, `section` fields,
    splitting, and decimal conversion in both directions. */
module Text {
  import opened Common

  predicate IsDigit(c: char) { '0' <= c <= '9' }

  /** The characters QString::trimmed() strips. */
  predicate IsSpace(c: char) {
    c == ' ' || c == '\t' || c == '\n' || c == '\r' || c == '\U{B}' || c == '\U{C}'
  }

  function ToUpperChar(c: char): char {
    if 'a' <= c <= 'z' then (c as int - 32) as char else c
  }

  function ToUpper(s: string): string {
    seq(|s|, i requires 0 <= i < |s| => ToUpperChar(s[i]))
  }

  /** QString::compare(a, b, Qt::CaseInsensitive) == 0, on ASCII letters. */
  predicate EqualsIgnoreCase(a: string, b: string) {
    ToUpper(a) == ToUpper(b)
  }

  predicate StartsWith(s: string, prefix: string) {
    |prefix| <= |s| && s[..|prefix|] == prefix
  }

  predicate EndsWith(s: string, suffix: string) {
    |suffix| <= |s| && s[|s| - |suffix|..] == suffix
  }

  /** `p` occurs in `s` starting at index `j`. */
  predicate OccursAt(s: string, p: string, j: int) {
    0 <= j && j + |p| <= |s| && s[j..j + |p|] == p
  }

  /** Position of the first occurrence of `p` in `s`. */
  function IndexOf(s: string, p: string): (r: Option<nat>)
    ensures r.Some? ==> OccursAt(s, p, r.value)
    ensures r.Some? ==> forall j :: 0 <= j < r.value ==> !OccursAt(s, p, j)
    ensures r.None? ==> forall j :: !OccursAt(s, p, j)
    decreases |s|
  {
    if |s| < |p| then None
    else if s[..|p|] == p then Some(0)
    else
      var rest := IndexOf(s[1..], p);
      assert forall j :: OccursAt(s, p, j) && j >= 1 ==> OccursAt(s[1..], p, j - 1) by {
        forall j | OccursAt(s, p, j) && j >= 1 ensures OccursAt(s[1..], p, j - 1) {
          assert s[1..][j - 1..j - 1 + |p|] == s[j..j + |p|];
        }
      }
      match rest
      case None => None
      case Some(k) =>
        assert s[1..][k..k + |p|] == s[k + 1..k + 1 + |p|];
        Some(k + 1)
  }

  predicate Contains(s: string, p: string) {
    IndexOf(s, p).Some?
  }

  /** A witness occurrence of `p` in `s` makes `Contains` true. */
  lemma ContainsAt(s: string, p: string, i: nat)
    requires OccursAt(s, p, i)
    ensures Contains(s, p)
  {
  }

  /** Index of the first `c` in `s`. */
  function CharIndex(s: string, c: char): (r: Option<nat>)
    ensures r.Some? ==> r.value < |s| && s[r.value] == c && c !in s[..r.value]
    ensures r.None? <==> c !in s
  {
    if s == [] then None
    else if s[0] == c then Some(0)
    else
      assert s == [s[0]] + s[1..];
      match CharIndex(s[1..], c)
      case None => None
      case Some(k) =>
        assert s[..k + 1] == [s[0]] + s[1..][..k];
        Some(k + 1)
  }

  /** Index of the last `c` in `s`. */
  function LastCharIndex(s: string, c: char): (r: Option<nat>)
    ensures r.Some? ==> r.value < |s| && s[r.value] == c && c !in s[r.value + 1..]
    ensures r.None? <==> c !in s
  {
    if s == [] then None
    else if s[|s| - 1] == c then Some(|s| - 1)
    else
      assert s == s[..|s| - 1] + [s[|s| - 1]];
      match LastCharIndex(s[..|s| - 1], c)
      case None => None
      case Some(k) =>
        assert s[k + 1..] == s[..|s| - 1][k + 1..] + [s[|s| - 1]];
        Some(k)
  }

  lemma CharIndexAt(a: string, c: char, b: string)
    requires c !in a
    ensures CharIndex(a + [c] + b, c) == Some(|a|)
  {
    var s := a + [c] + b;
    assert s[|a|] == c;
    assert s[..|a|] == a;
  }

  lemma LastCharIndexAt(a: string, c: char, b: string)
    requires c !in b
    ensures LastCharIndex(a + [c] + b, c) == Some(|a|)
  {
    var s := a + [c] + b;
    assert s[|a|] == c;
    assert s[|a| + 1..] == b;
  }

  /** The text before the first `c` (all of `s` when there is none). */
  function BeforeFirst(s: string, c: char): string {
    match CharIndex(s, c) case None => s case Some(k) => s[..k]
  }

  /** The text after the first `c` ("" when there is none). */
  function AfterFirst(s: string, c: char): string {
    match CharIndex(s, c) case None => "" case Some(k) => s[k + 1..]
  }

  /** The text from the first `c` on, `c` included ("" when there is none). */
  function FromFirst(s: string, c: char): string {
    match CharIndex(s, c) case None => "" case Some(k) => s[k..]
  }

  /** The text before the last `c` ("" when there is none). */
  function BeforeLast(s: string, c: char): string {
    match LastCharIndex(s, c) case None => "" case Some(k) => s[..k]
  }

  /** The text after the last `c` (all of `s` when there is none). */
  function AfterLast(s: string, c: char): string {
    match LastCharIndex(s, c) case None => s case Some(k) => s[k + 1..]
  }

  lemma SplitFirst(a: string, c: char, b: string)
    requires c !in a
    ensures BeforeFirst(a + [c] + b, c) == a
    ensures AfterFirst(a + [c] + b, c) == b
    ensures FromFirst(a + [c] + b, c) == [c] + b
  {
    CharIndexAt(a, c, b);
    var s := a + [c] + b;
    assert s[..|a|] == a && s[|a| + 1..] == b && s[|a|..] == [c] + b;
  }

  lemma SplitNone(s: string, c: char)
    requires c !in s
    ensures BeforeFirst(s, c) == s && AfterFirst(s, c) == "" && FromFirst(s, c) == ""
    ensures BeforeLast(s, c) == "" && AfterLast(s, c) == s
  {
  }

  lemma SplitLast(a: string, c: char, b: string)
    requires c !in b
    ensures BeforeLast(a + [c] + b, c) == a
    ensures AfterLast(a + [c] + b, c) == b
  {
    LastCharIndexAt(a, c, b);
    var s := a + [c] + b;
    assert s[..|a|] == a && s[|a| + 1..] == b;
  }

  /** QString::replace(before, after) for a non-empty `before`: every
      occurrence, scanning left to right without overlaps. */
  function ReplaceAll(s: string, before: string, after: string): string
    requires |before| > 0
    decreases |s|
  {
    if |s| < |before| then s
    else if s[..|before|] == before then after + ReplaceAll(s[|before|..], before, after)
    else [s[0]] + ReplaceAll(s[1..], before, after)
  }

  /** A pattern that starts with `c` cannot occur in a string free of `c`. */
  lemma {:induction false} ReplaceAllAbsent(s: string, before: string, after: string)
    requires |before| > 0 && before[0] !in s
    ensures ReplaceAll(s, before, after) == s
  {
    if |s| >= |before| {
      assert s[..|before|][0] == s[0];
      assert s == [s[0]] + s[1..];
      ReplaceAllAbsent(s[1..], before, after);
    }
  }

  /** No occurrence can start inside a prefix free of the pattern's first
      character, so replace() passes such a prefix through. */
  lemma {:induction false} ReplaceAllSkip(prefix: string, s: string, before: string, after: string)
    requires |before| > 0 && before[0] !in prefix
    ensures ReplaceAll(prefix + s, before, after) == prefix + ReplaceAll(s, before, after)
  {
    if prefix != [] {
      var x := prefix + s;
      assert x[0] == prefix[0];
      assert x[1..] == prefix[1..] + s;
      ReplaceAllSkip(prefix[1..], s, before, after);
      assert prefix == [prefix[0]] + prefix[1..];
      if |x| >= |before| {
        assert x[..|before|][0] == x[0];
        assert x[..|before|] != before;
        assert ReplaceAll(x, before, after) == [x[0]] + ReplaceAll(x[1..], before, after);
      } else {
        assert |s| < |before|;
      }
    } else {
      assert prefix + s == s;
    }
  }

  lemma ToUpperKeepsNonLetter(s: string, c: char)
    requires !('a' <= c <= 'z') && !('A' <= c <= 'Z')
    ensures c in ToUpper(s) <==> c in s
  {
    if c in ToUpper(s) {
      var i :| 0 <= i < |s| && ToUpper(s)[i] == c;
      assert s[i] == c;
    }
    if c in s {
      var i :| 0 <= i < |s| && s[i] == c;
      assert ToUpper(s)[i] == c;
    }
  }

  lemma ToUpperIdempotent(s: string)
    ensures ToUpper(ToUpper(s)) == ToUpper(s)
  {
  }

  lemma ToUpperAppend(a: string, b: string)
    ensures ToUpper(a + b) == ToUpper(a) + ToUpper(b)
  {
  }

  function CountChar(s: string, c: char): (n: nat)
    ensures n == multiset(s)[c]
  {
    if s == [] then 0
    else
      assert s == [s[0]] + s[1..];
      (if s[0] == c then 1 else 0) + CountChar(s[1..], c)
  }

  function TrimStart(s: string): string {
    if s != [] && IsSpace(s[0]) then TrimStart(s[1..]) else s
  }

  function TrimEnd(s: string): string {
    if s != [] && IsSpace(s[|s| - 1]) then TrimEnd(s[..|s| - 1]) else s
  }

  /** QString::trimmed(): no leading or trailing white space. */
  function Trimmed(s: string): string {
    TrimEnd(TrimStart(s))
  }

  /** QString::section(sep, n, n) for a non-empty separator: the n-th field
      of `s` split at `sep`, or "" when there are fewer fields. */
  function Section(s: string, sep: string, n: nat): string
    requires |sep| > 0
    decreases n
  {
    match IndexOf(s, sep)
    case None => if n == 0 then s else ""
    case Some(k) => if n == 0 then s[..k] else Section(s[k + |sep|..], sep, n - 1)
  }

  /** QString::split(c) keeping empty parts. */
  function Split(s: string, c: char): (r: seq<string>)
    ensures |r| >= 1
    decreases |s|
  {
    match IndexOf(s, [c])
    case None => [s]
    case Some(k) => [s[..k]] + Split(s[k + 1..], c)
  }

  /** QString::split(c, QString::SkipEmptyParts). */
  function SplitSkipEmpty(s: string, c: char): seq<string> {
    Filter(Split(s, c), (part: string) => part != "")
  }

  function DigitChar(d: nat): char
    requires d < 10
  {
    ('0' as int + d) as char
  }

  function DigitValue(c: char): nat
    requires IsDigit(c)
  {
    c as int - '0' as int
  }

  predicate AllDigits(s: string) {
    forall i :: 0 <= i < |s| ==> IsDigit(s[i])
  }

  /** The decimal rendering QString::arg / QString::number give a natural. */
  function NatToString(n: nat): (r: string)
    ensures |r| > 0 && AllDigits(r)
  {
    if n < 10 then [DigitChar(n)] else NatToString(n / 10) + [DigitChar(n % 10)]
  }

  function IntToString(i: int): string {
    if i < 0 then "-" + NatToString(-i) else NatToString(i)
  }

  /** Value of a string of decimal digits. */
  function DigitsValue(s: string): nat
    requires AllDigits(s)
  {
    if s == [] then 0 else DigitsValue(s[..|s| - 1]) * 10 + DigitValue(s[|s| - 1])
  }

  /** Optional sign followed by at least one decimal digit, with no range
      limit; the range checks of toInt/toLongLong are applied on top. */
  function ParseInteger(s: string): (r: Option<int>)
    ensures r.Some? ==> |s| > 0
  {
    if |s| > 1 && s[0] == '-' && AllDigits(s[1..]) then Some(-(DigitsValue(s[1..]) as int))
    else if |s| > 1 && s[0] == '+' && AllDigits(s[1..]) then Some(DigitsValue(s[1..]))
    else if |s| > 0 && AllDigits(s) then Some(DigitsValue(s))
    else None
  }

  const INT32_MIN: int := -0x8000_0000
  const INT32_MAX: int := 0x7FFF_FFFF
  const INT64_MIN: int := -0x8000_0000_0000_0000
  const INT64_MAX: int := 0x7FFF_FFFF_FFFF_FFFF

  /** QString::toInt(&ok): the value when `ok`, None otherwise. */
  function ToInt32(s: string): (r: Option<int>)
    ensures r.Some? ==> INT32_MIN <= r.value <= INT32_MAX
  {
    match ParseInteger(s)
    case Some(v) => if INT32_MIN <= v <= INT32_MAX then Some(v) else None
    case None => None
  }

  /** QString::toInt() without `ok`: 0 when the conversion fails. */
  function ToIntOrZero(s: string): int {
    match ToInt32(s)
    case Some(v) => v
    case None => 0
  }

  /** QString::toLongLong(&ok). */
  function ToInt64(s: string): (r: Option<int>)
    ensures r.Some? ==> INT64_MIN <= r.value <= INT64_MAX
  {
    match ParseInteger(s)
    case Some(v) => if INT64_MIN <= v <= INT64_MAX then Some(v) else None
    case None => None
  }

  lemma {:induction false} DigitsValueOfNatToString(n: nat)
    ensures DigitsValue(NatToString(n)) == n
  {
    if n >= 10 {
      var s := NatToString(n);
      assert s[..|s| - 1] == NatToString(n / 10);
      DigitsValueOfNatToString(n / 10);
    }
  }

  /** Reading back what IntToString wrote gives the same integer. */
  lemma ParseIntToString(i: int)
    ensures ParseInteger(IntToString(i)) == Some(i)
  {
    if i < 0 {
      var s := IntToString(i);
      assert s[1..] == NatToString(-i);
      DigitsValueOfNatToString(-i);
    } else {
      DigitsValueOfNatToString(i);
    }
  }

  /** Within the 32-bit range the rendering round-trips through toInt. */
  lemma ToInt32OfIntToString(i: int)
    requires INT32_MIN <= i <= INT32_MAX
    ensures ToInt32(IntToString(i)) == Some(i)
    ensures ToIntOrZero(IntToString(i)) == i
  {
    ParseIntToString(i);
  }

  // ---------------------------------------------------------------------
  // Ordering by character codes

  /** `a` sorts no later than `b`. */
  predicate Precedes(a: string, b: string)
    decreases |a|
  {
    a == [] || (b != [] && (a[0] < b[0] || (a[0] == b[0] && Precedes(a[1..], b[1..]))))
  }

  lemma {:induction false} PrecedesTotal(a: string, b: string)
    ensures Precedes(a, b) || Precedes(b, a)
    decreases |a|
  {
    if a != [] && b != [] && a[0] == b[0] {
      PrecedesTotal(a[1..], b[1..]);
    }
  }
}
