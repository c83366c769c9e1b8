/** Character and string helpers shared by the model: decimal printing and
    parsing with the behaviour of `std::to_string` and `std::stoi`, ASCII case
    mapping as DuckDB's `StringUtil::Upper`/`std::tolower` perform it, and the
    substring search of `std::string::find`. */
module Text {
  import opened Wrappers

  const INT32_MIN: int := -0x8000_0000
  const INT32_MAX: int := 0x7FFF_FFFF

  predicate IsDigit(c: char) { '0' <= c <= '9' }

  predicate AllDigits(s: string) { forall i :: 0 <= i < |s| ==> IsDigit(s[i]) }

  /** The characters `isspace` accepts in the C locale. */
  predicate IsSpace(c: char) {
    c == ' ' || c == '\t' || c == '\n' || c == '\r' || c == '\U{000B}' || c == '\U{000C}'
  }

  function DigitChar(d: nat): (c: char)
    requires d < 10
    ensures IsDigit(c)
  {
    ['0', '1', '2', '3', '4', '5', '6', '7', '8', '9'][d]
  }

  function DigitValue(c: char): (d: nat)
    requires IsDigit(c)
    ensures d < 10
  {
    (c as int) - ('0' as int)
  }

  lemma DigitRoundTrip(d: nat)
    requires d < 10
    ensures DigitValue(DigitChar(d)) == d
  {
  }

  /** Decimal rendering of a natural number, most significant digit first. */
  function NatToString(n: nat): (s: string)
    ensures |s| > 0 && AllDigits(s)
    decreases n
  {
    if n < 10 then [DigitChar(n)] else NatToString(n / 10) + [DigitChar(n % 10)]
  }

  /** `std::to_string` of an integer. */
  function IntToString(x: int): (s: string)
    ensures |s| > 0
    ensures x >= 0 <==> s[0] != '-'
  {
    if x < 0 then "-" + NatToString(-x) else NatToString(x)
  }

  /** The value of a run of decimal digits read left to right. */
  function DigitsValue(s: string): (v: nat)
    requires AllDigits(s)
    decreases |s|
  {
    if |s| == 0 then 0 else DigitsValue(s[..|s| - 1]) * 10 + DigitValue(s[|s| - 1])
  }

  lemma {:induction false} DigitsValueOfNatToString(n: nat)
    ensures DigitsValue(NatToString(n)) == n
    decreases n
  {
    var s := NatToString(n);
    if n < 10 {
      DigitRoundTrip(n);
    } else {
      DigitsValueOfNatToString(n / 10);
      assert s[..|s| - 1] == NatToString(n / 10);
      DigitRoundTrip(n % 10);
    }
  }

  /** Decimal rendering is injective: distinct numbers print differently. */
  lemma NatToStringInjective(a: nat, b: nat)
    ensures NatToString(a) == NatToString(b) ==> a == b
  {
    DigitsValueOfNatToString(a);
    DigitsValueOfNatToString(b);
  }

  /** Number of leading characters of `s` satisfying `isspace`. */
  function LeadingSpace(s: string): (k: nat)
    ensures k <= |s|
    ensures forall i :: 0 <= i < k ==> IsSpace(s[i])
    ensures k < |s| ==> !IsSpace(s[k])
  {
    if |s| == 0 || !IsSpace(s[0]) then 0 else 1 + LeadingSpace(s[1..])
  }

  /** Length of the longest prefix of `s` made of decimal digits. */
  function DigitPrefix(s: string): (k: nat)
    ensures k <= |s| && AllDigits(s[..k])
    ensures k < |s| ==> !IsDigit(s[k])
  {
    if |s| == 0 || !IsDigit(s[0]) then 0
    else
      var k := 1 + DigitPrefix(s[1..]);
      assert s[..k] == [s[0]] + s[1..][..k - 1];
      k
  }

  lemma DigitPrefixOfDigits(s: string)
    requires AllDigits(s)
    ensures DigitPrefix(s) == |s|
  {
    if |s| > 0 {
      DigitPrefixOfDigits(s[1..]);
    }
  }

  /** `std::stoi`: optional leading white space, an optional sign, then the
      longest run of decimal digits; anything after the digits is ignored.
      No digit at all, or a value outside the 32-bit range, throws (`None`). */
  function Stoi(s: string): (r: Option<int>)
    ensures r.Some? ==> INT32_MIN <= r.value <= INT32_MAX
  {
    var rest := s[LeadingSpace(s)..];
    var negative := |rest| > 0 && rest[0] == '-';
    var unsigned := if |rest| > 0 && (rest[0] == '-' || rest[0] == '+') then rest[1..] else rest;
    var k := DigitPrefix(unsigned);
    if k == 0 then None
    else
      var magnitude: int := DigitsValue(unsigned[..k]);
      var v := if negative then -magnitude else magnitude;
      if INT32_MIN <= v <= INT32_MAX then Some(v) else None
  }

  /** Parsing back what `std::to_string` printed gives the number back. */
  lemma StoiOfIntToString(x: int)
    requires INT32_MIN <= x <= INT32_MAX
    ensures Stoi(IntToString(x)) == Some(x)
  {
    var s := IntToString(x);
    var m: nat := if x < 0 then -x else x;
    var digits := NatToString(m);
    DigitPrefixOfDigits(digits);
    DigitsValueOfNatToString(m);
    assert digits[..|digits|] == digits;
    assert LeadingSpace(s) == 0 by {
      if x >= 0 { assert IsDigit(s[0]); }
    }
    assert s[LeadingSpace(s)..] == s;
    if x < 0 {
      assert s[1..] == digits;
    } else {
      assert IsDigit(s[0]);
    }
  }

  /** `static_cast<int>` of a 64-bit JSON integer: two's-complement
      wrap-around into the 32-bit range. */
  function Wrap32(v: int): (w: int)
    ensures INT32_MIN <= w <= INT32_MAX
    ensures INT32_MIN <= v <= INT32_MAX ==> w == v
  {
    (v - INT32_MIN) % 0x1_0000_0000 + INT32_MIN
  }

  function UpperChar(c: char): (u: char)
    ensures !('a' <= u <= 'z')
  {
    if 'a' <= c <= 'z' then (c as int - 32) as char else c
  }

  function LowerChar(c: char): (l: char)
    ensures !('A' <= l <= 'Z')
  {
    if 'A' <= c <= 'Z' then (c as int + 32) as char else c
  }

  /** ASCII upper-casing, character by character. */
  function Upper(s: string): (u: string)
    ensures |u| == |s|
    ensures forall i :: 0 <= i < |s| ==> u[i] == UpperChar(s[i])
  {
    seq(|s|, i requires 0 <= i < |s| => UpperChar(s[i]))
  }

  /** ASCII lower-casing, character by character. */
  function Lower(s: string): (l: string)
    ensures |l| == |s|
    ensures forall i :: 0 <= i < |s| ==> l[i] == LowerChar(s[i])
  {
    seq(|s|, i requires 0 <= i < |s| => LowerChar(s[i]))
  }

  /** `t` occurs in `s` starting at position `i`. */
  predicate OccursAt(s: string, t: string, i: int) {
    0 <= i && i + |t| <= |s| && MatchesFrom(s, t, i, 0)
  }

  /** The characters of `t` from the `j`th on sit in `s` from `i + j` on;
      compared one at a time, as `compare` does. */
  predicate MatchesFrom(s: string, t: string, i: nat, j: nat)
    requires i + |t| <= |s|
    decreases |t| - j
  {
    j >= |t| || (s[i + j] == t[j] && MatchesFrom(s, t, i, j + 1))
  }

  /** `OccursAt` is the match of every character of `t`. */
  lemma OccursAtPointwise(s: string, t: string, i: int)
    ensures OccursAt(s, t, i) <==> 0 <= i && i + |t| <= |s| && forall j :: 0 <= j < |t| ==> s[i + j] == t[j]
  {
    if 0 <= i && i + |t| <= |s| {
      MatchesFromPointwise(s, t, i, 0);
    }
  }

  lemma {:induction false} MatchesFromPointwise(s: string, t: string, i: nat, j: nat)
    requires i + |t| <= |s|
    ensures MatchesFrom(s, t, i, j) <==> forall m :: j <= m < |t| ==> s[i + m] == t[m]
    decreases |t| - j
  {
    if j < |t| {
      MatchesFromPointwise(s, t, i, j + 1);
    }
  }

  /** `s.find(t, from)`: the first position at or after `from` where `t`
      occurs, or `None` for `npos`. */
  function Find(s: string, t: string, from: nat): (r: Option<nat>)
    ensures r.Some? ==> from <= r.value && r.value + |t| <= |s|
    decreases |s| - from
  {
    if from + |t| > |s| then None
    else if OccursAt(s, t, from) then Some(from)
    else Find(s, t, from + 1)
  }

  /** `Find` answers the first occurrence at or after `from`, and `None`
      exactly when there is none. */
  lemma {:induction false} FindIsFirst(s: string, t: string, from: nat)
    ensures var r := Find(s, t, from);
      (r.Some? ==> OccursAt(s, t, r.value) && forall j :: from <= j < r.value ==> !OccursAt(s, t, j)) &&
      (r.None? ==> forall j :: from <= j ==> !OccursAt(s, t, j))
    decreases |s| - from
  {
    if from + |t| <= |s| && !OccursAt(s, t, from) {
      FindIsFirst(s, t, from + 1);
    }
  }

  /** Concatenation of `parts` with `sep` between consecutive parts. */
  function Join(parts: seq<string>, sep: string): (r: string)
    ensures |parts| == 0 ==> r == ""
    ensures |parts| == 1 ==> r == parts[0]
    decreases |parts|
  {
    if |parts| == 0 then ""
    else if |parts| == 1 then parts[0]
    else parts[0] + sep + Join(parts[1..], sep)
  }

  /** Appending one more part puts one separator before it. */
  lemma {:induction false} JoinSnoc(parts: seq<string>, x: string, sep: string)
    requires |parts| > 0
    ensures Join(parts + [x], sep) == Join(parts, sep) + sep + x
    decreases |parts|
  {
    if |parts| > 1 {
      assert (parts + [x])[1..] == parts[1..] + [x];
      JoinSnoc(parts[1..], x, sep);
    } else {
      assert parts + [x] == [parts[0], x];
    }
  }

  function Repeat(c: char, n: nat): (r: string)
    ensures |r| == n && forall i :: 0 <= i < n ==> r[i] == c
  {
    seq(n, _ => c)
  }

  /** `a < b` on `std::string`: lexicographic by character code, a proper
      prefix first. Character codes order as the bytes of their UTF-8
      encoding do, so this is also the order of the encoded strings. */
  predicate Below(a: string, b: string)
    decreases |a|
  {
    |b| > 0 && (|a| == 0 || a[0] < b[0] || (a[0] == b[0] && Below(a[1..], b[1..])))
  }

  /** `Below` never holds both ways, */
  lemma {:induction false} BelowAsymmetric(a: string, b: string)
    ensures !(Below(a, b) && Below(b, a))
    decreases |a|
  {
    if |a| > 0 && |b| > 0 && a[0] == b[0] {
      BelowAsymmetric(a[1..], b[1..]);
    }
  }

  /** it is transitive, */
  lemma {:induction false} BelowTransitive(a: string, b: string, c: string)
    requires Below(a, b) && Below(b, c)
    ensures Below(a, c)
    decreases |a|
  {
    if |a| > 0 && a[0] == b[0] && b[0] == c[0] {
      BelowTransitive(a[1..], b[1..], c[1..]);
    }
  }

  /** and it orders any two different strings. */
  lemma {:induction false} BelowTotal(a: string, b: string)
    requires a != b
    ensures Below(a, b) || Below(b, a)
    decreases |a|
  {
    if |a| > 0 && |b| > 0 && a[0] == b[0] {
      assert a == [a[0]] + a[1..] && b == [b[0]] + b[1..];
      BelowTotal(a[1..], b[1..]);
    }
  }
}
