/** The JavaScript string operations the app relies on: `trim`, the regular
    expression classes `\s` and `\D`, `toLowerCase`/`toUpperCase`,
    `includes`, `substring` and `Number.prototype.toString(36)`.
    Strings are sequences of Unicode scalar values; case mapping is ASCII only. */
module JsString {

  /** The code points ECMAScript calls WhiteSpace or LineTerminator: what `\s`
      matches and what `String.prototype.trim` strips. */
  predicate IsSpace(c: char) {
    var n := c as int;
    (9 <= n <= 13) || n == 0x20 || n == 0xA0 || n == 0x1680 || (0x2000 <= n <= 0x200A)
    || n == 0x2028 || n == 0x2029 || n == 0x202F || n == 0x205F || n == 0x3000 || n == 0xFEFF
  }

  predicate AllSpace(s: string) {
    forall k :: 0 <= k < |s| ==> IsSpace(s[k])
  }

  /** `s.trimEnd()`: the prefix left before the trailing white space. */
  function TrimEnd(s: string): (r: string)
    ensures |r| <= |s| && r == s[..|r|]
    ensures AllSpace(s[|r|..])
    ensures r != [] ==> !IsSpace(r[|r| - 1])
  {
    if |s| > 0 && IsSpace(s[|s| - 1]) then TrimEnd(s[..|s| - 1]) else s
  }

  /** The length of the white space `s.trimStart()` drops. */
  function LeadingSpace(s: string): (i: nat)
    ensures i <= |s| && AllSpace(s[..i])
    ensures i < |s| ==> !IsSpace(s[i])
  {
    if |s| > 0 && IsSpace(s[0]) then
      var j := LeadingSpace(s[1..]);
      assert forall k :: 1 <= k < j + 1 ==> s[k] == s[1..][k - 1];
      j + 1
    else 0
  }

  /** `s.trim()`: neither starts nor ends with white space, and is empty
      exactly when `s` is all white space. `TrimIsTrimStartThenEnd` states
      which string it is. */
  function Trim(s: string): (r: string)
    ensures |r| <= |s|
    ensures r != [] ==> !IsSpace(r[0]) && !IsSpace(r[|r| - 1])
    ensures r == [] <==> AllSpace(s)
  {
    if |s| > 0 && IsSpace(s[0]) then
      assert forall k :: 1 <= k < |s| ==> s[k] == s[1..][k - 1];
      Trim(s[1..])
    else
      TrimEnd(s)
  }

  /** `s.trim()` is `s.trimStart().trimEnd()`: the leading white space is
      dropped and what follows is trimmed at the end. */
  lemma {:induction false} TrimIsTrimStartThenEnd(s: string)
    ensures Trim(s) == TrimEnd(s[LeadingSpace(s)..])
  {
    if |s| > 0 && IsSpace(s[0]) {
      TrimIsTrimStartThenEnd(s[1..]);
      assert s[1..][LeadingSpace(s[1..])..] == s[LeadingSpace(s)..];
    } else {
      assert s[0..] == s;
    }
  }

  /** A JavaScript string is falsy exactly when it is empty, so `!s.trim()`
      tests for a blank string. */
  predicate Blank(s: string) {
    Trim(s) == []
  }

  /** Trimming twice is trimming once. */
  lemma TrimIdempotent(s: string)
    ensures Trim(Trim(s)) == Trim(s)
  {
  }

  /** `\d`: the ASCII digits only. */
  predicate IsDigit(c: char) {
    '0' <= c <= '9'
  }

  /** `s.replace(/\D/g, '')`: the digits of `s`, in order. */
  function Digits(s: string): (r: string)
    ensures |r| <= |s|
    ensures forall c :: c in r <==> c in s && IsDigit(c)
    ensures forall c :: multiset(r)[c] == if IsDigit(c) then multiset(s)[c] else 0
  {
    if s == [] then []
    else
      assert s == [s[0]] + s[1..];
      (if IsDigit(s[0]) then [s[0]] else []) + Digits(s[1..])
  }

  function LowerChar(c: char): char {
    if 'A' <= c <= 'Z' then (c as int + 32) as char else c
  }

  function UpperChar(c: char): char {
    if 'a' <= c <= 'z' then (c as int - 32) as char else c
  }

  /** `s.toLowerCase()`, ASCII letters only. */
  function ToLower(s: string): (r: string)
    ensures |r| == |s|
  {
    seq(|s|, k requires 0 <= k < |s| => LowerChar(s[k]))
  }

  /** `s.toUpperCase()`, ASCII letters only. */
  function ToUpper(s: string): (r: string)
    ensures |r| == |s|
  {
    seq(|s|, k requires 0 <= k < |s| => UpperChar(s[k]))
  }

  lemma ToUpperAppend(a: string, b: string)
    ensures ToUpper(a + b) == ToUpper(a) + ToUpper(b)
  {
  }

  /** `s.includes(t)`. */
  predicate Includes(s: string, t: string) {
    exists i | 0 <= i <= |s| :: OccursAt(s, t, i)
  }

  predicate OccursAt(s: string, t: string, i: int) {
    0 <= i && i + |t| <= |s| && s[i..i + |t|] == t
  }

  lemma IncludesEmpty(s: string)
    ensures Includes(s, [])
  {
    assert OccursAt(s, [], 0);
  }

  /** `s.substring(a, b)`: both ends clamped to the string, swapped when out of order. */
  function Substring(s: string, a: int, b: int): (r: string)
    ensures |r| <= |s|
    ensures |r| <= if a <= b then b - a else a - b
    ensures 0 <= a <= b <= |s| ==> r == s[a..b]
  {
    var i := if a < 0 then 0 else if a > |s| then |s| else a;
    var j := if b < 0 then 0 else if b > |s| then |s| else b;
    if i <= j then s[i..j] else s[j..i]
  }

  /** The digit characters `Number.prototype.toString(36)` uses. */
  function Base36Digit(d: nat): (c: char)
    requires d < 36
  {
    if d < 10 then ('0' as int + d) as char else ('a' as int + d - 10) as char
  }

  /** `n.toString(36)` for a non-negative integer `n`: most significant digit first. */
  function Base36(n: nat): (r: string)
    ensures r != []
    ensures forall k :: 0 <= k < |r| ==> IsDigit(r[k]) || 'a' <= r[k] <= 'z'
    ensures n == 0 ==> r == "0"
    ensures n > 0 ==> r[0] != '0'
    decreases n
  {
    if n < 36 then [Base36Digit(n)] else Base36(n / 36) + [Base36Digit(n % 36)]
  }

  /** Base-36 text as `toString(36).toUpperCase()` writes it: non-empty,
      digits and capital letters only, and no leading zero unless it is "0". */
  predicate UpperBase36Text(t: string) {
    t != [] && (|t| == 1 || t[0] != '0')
    && forall k :: 0 <= k < |t| ==> IsDigit(t[k]) || 'A' <= t[k] <= 'Z'
  }

  /** Upper-casing base-36 text leaves digits and capital letters, and keeps
      the first digit non-zero. */
  lemma UpperBase36(n: nat)
    ensures UpperBase36Text(ToUpper(Base36(n)))
  {
  }

  /** The value of one base-36 digit in either case, as `parseInt(c, 36)` reads it. */
  function DigitValue(c: char): nat {
    if IsDigit(c) then c as int - '0' as int
    else if 'a' <= c <= 'z' then c as int - 'a' as int + 10
    else if 'A' <= c <= 'Z' then c as int - 'A' as int + 10
    else 0
  }

  /** `parseInt(s, 36)` on a string of base-36 digits. */
  function ParseBase36(s: string): nat {
    if s == [] then 0 else ParseBase36(s[..|s| - 1]) * 36 + DigitValue(s[|s| - 1])
  }

  /** The upper-cased base-36 rendering of `n` reads back as `n`. */
  lemma {:induction false} ParseBase36Upper(n: nat)
    ensures ParseBase36(ToUpper(Base36(n))) == n
    decreases n
  {
    if n >= 36 {
      var hi := Base36(n / 36);
      var d := [Base36Digit(n % 36)];
      ToUpperAppend(hi, d);
      var u := ToUpper(hi) + ToUpper(d);
      assert u[..|u| - 1] == ToUpper(hi);
      ParseBase36Upper(n / 36);
    }
  }
}
