/** The JavaScript string operations the loaders and routes rely on, with
    their ECMAScript meaning: `trim`, `split` on one character, `startsWith`,
    `endsWith`, `indexOf`, `replace` of a string pattern and `parseInt`. */
module Strings {
  import opened Lists

  /** WhiteSpace and LineTerminator code points of ECMAScript, the set that
      `String.prototype.trim` and `parseInt` skip. */
  predicate IsJsWhitespace(c: char) {
    var n := c as int;
    n == 0x09 || n == 0x0A || n == 0x0B || n == 0x0C || n == 0x0D || n == 0x20
    || n == 0xA0 || n == 0x1680 || (0x2000 <= n <= 0x200A) || n == 0x2028
    || n == 0x2029 || n == 0x202F || n == 0x205F || n == 0x3000 || n == 0xFEFF
  }

  predicate AllWhitespace(s: string) {
    forall k :: 0 <= k < |s| ==> IsJsWhitespace(s[k])
  }

  /** `String.prototype.trimStart`. */
  function TrimStart(s: string): (r: string)
    ensures |r| <= |s| && r == s[|s| - |r|..]
    ensures r != [] ==> !IsJsWhitespace(r[0])
    ensures AllWhitespace(s[..|s| - |r|])
  {
    if s != [] && IsJsWhitespace(s[0]) then TrimStart(s[1..]) else s
  }

  /** `String.prototype.trimEnd`. */
  function TrimEnd(s: string): (r: string)
    ensures |r| <= |s| && r == s[..|r|]
    ensures r != [] ==> !IsJsWhitespace(r[|r| - 1])
    ensures AllWhitespace(s[|r|..])
  {
    if s != [] && IsJsWhitespace(s[|s| - 1]) then TrimEnd(s[..|s| - 1]) else s
  }

  /** `String.prototype.trim`: the text between the leading and trailing whitespace. */
  function Trim(s: string): string {
    TrimEnd(TrimStart(s))
  }

  /** A line is blank for `line.trim()` exactly when it is all whitespace. */
  lemma TrimEmptyIffBlank(s: string)
    ensures Trim(s) == [] <==> AllWhitespace(s)
  {
    var t := TrimStart(s);
    if Trim(s) == [] {
      // `TrimEnd` left nothing of `t`, so `t` is all whitespace, which
      // `TrimStart` leaves only when it is empty.
      assert AllWhitespace(t[0..]);
      assert t == [];
      assert s[..|s| - |t|] == s;
    }
  }

  /** `String.prototype.split` with a one-character separator: the pieces between
      the separators, always at least one (the empty text splits into `[""]`). */
  function Split(s: string, sep: char): (r: seq<string>)
    ensures |r| >= 1
    ensures forall k :: 0 <= k < |r| ==> sep !in r[k]
  {
    if s == [] then [""]
    else
      var rest := Split(s[1..], sep);
      if s[0] == sep then [""] + rest else [[s[0]] + rest[0]] + rest[1..]
  }

  /** `Array.prototype.join`, the inverse of `Split`. */
  function Join(parts: seq<string>, sep: char): string
    requires |parts| >= 1
  {
    if |parts| == 1 then parts[0] else parts[0] + [sep] + Join(parts[1..], sep)
  }

  /** Splitting loses nothing: joining the pieces gives the text back. */
  lemma {:induction false} JoinSplit(s: string, sep: char)
    ensures Join(Split(s, sep), sep) == s
  {
    if s != [] {
      var rest := Split(s[1..], sep);
      JoinSplit(s[1..], sep);
      if s[0] != sep {
        var r := Split(s, sep);
        assert r[1..] == rest[1..];
        if |rest| == 1 {
          assert Join(r, sep) == [s[0]] + rest[0];
        } else {
          assert Join(r, sep) == [s[0]] + rest[0] + [sep] + Join(rest[1..], sep);
          assert Join(rest, sep) == rest[0] + [sep] + Join(rest[1..], sep);
        }
        assert s == [s[0]] + s[1..];
      } else {
        assert s == [sep] + s[1..];
      }
    }
  }

  /** Joining pieces that do not contain the separator and splitting again gives
      the same pieces back. */
  lemma {:induction false} SplitJoin(parts: seq<string>, sep: char)
    requires |parts| >= 1
    requires forall k :: 0 <= k < |parts| ==> sep !in parts[k]
    ensures Split(Join(parts, sep), sep) == parts
    decreases |parts|, |parts[0]|
  {
    var p := parts[0];
    if p == [] {
      if |parts| > 1 {
        SplitJoin(parts[1..], sep);
        assert Join(parts, sep) == [sep] + Join(parts[1..], sep);
        assert parts == [""] + parts[1..];
      }
    } else {
      var parts' := [p[1..]] + parts[1..];
      assert sep !in p[1..] by {
        forall k | 0 <= k < |p[1..]| ensures p[1..][k] != sep { assert p[1..][k] == p[k + 1]; }
      }
      SplitJoin(parts', sep);
      var j := Join(parts, sep);
      if |parts| == 1 {
        assert j == p && j[1..] == p[1..];
        assert Join(parts', sep) == p[1..];
      } else {
        assert parts'[1..] == parts[1..];
        assert j == p + [sep] + Join(parts[1..], sep);
        assert j[1..] == p[1..] + [sep] + Join(parts[1..], sep);
        assert Join(parts', sep) == j[1..];
      }
      assert j[0] == p[0] && j[0] != sep;
      var rest := Split(j[1..], sep);
      assert rest == parts';
      assert [p[0]] + p[1..] == p;
    }
  }

  /** The first and last characters of a join of non-empty pieces. */
  lemma {:induction false} JoinEnds(parts: seq<string>, sep: char)
    requires |parts| >= 1 && forall k :: 0 <= k < |parts| ==> parts[k] != []
    ensures Join(parts, sep) != []
    ensures Join(parts, sep)[0] == parts[0][0]
    ensures Join(parts, sep)[|Join(parts, sep)| - 1] == parts[|parts| - 1][|parts[|parts| - 1]| - 1]
    decreases |parts|
  {
    if |parts| > 1 {
      JoinEnds(parts[1..], sep);
    }
  }

  /** `String.prototype.startsWith`. */
  predicate StartsWith(s: string, prefix: string) {
    |prefix| <= |s| && s[..|prefix|] == prefix
  }

  /** `String.prototype.endsWith`. */
  predicate EndsWith(s: string, suffix: string) {
    |suffix| <= |s| && s[|s| - |suffix|..] == suffix
  }

  /** Whether `pat` occurs in `s` starting at index `j`. */
  predicate OccursAt(s: string, pat: string, j: int) {
    0 <= j && j + |pat| <= |s| && s[j..j + |pat|] == pat
  }

  /** `String.prototype.indexOf`: the first index at which `pat` occurs. */
  function IndexOf(s: string, pat: string): (r: Option<nat>)
    ensures r.Some? ==> OccursAt(s, pat, r.value)
    ensures r.Some? ==> forall j :: 0 <= j < r.value ==> !OccursAt(s, pat, j)
    ensures r.None? ==> forall j :: 0 <= j <= |s| ==> !OccursAt(s, pat, j)
  {
    IndexOfFrom(s, pat, 0)
  }

  function IndexOfFrom(s: string, pat: string, from: nat): (r: Option<nat>)
    requires from <= |s|
    ensures r.Some? ==> from <= r.value && OccursAt(s, pat, r.value)
    ensures r.Some? ==> forall j :: from <= j < r.value ==> !OccursAt(s, pat, j)
    ensures r.None? ==> forall j :: from <= j <= |s| ==> !OccursAt(s, pat, j)
    decreases |s| - from
  {
    if OccursAt(s, pat, from) then Some(from)
    else if from == |s| then None
    else IndexOfFrom(s, pat, from + 1)
  }

  /** `String.prototype.replace` with a string pattern and a replacement free of
      `$` patterns: only the first occurrence is replaced. */
  function ReplaceFirst(s: string, pat: string, rep: string): string {
    match IndexOf(s, pat)
    case None => s
    case Some(k) => s[..k] + rep + s[k + |pat|..]
  }

  // ---- parseInt ----

  /** The value of a digit character in bases up to 36; 36 for a non-digit. */
  function DigitValue(c: char): (v: nat)
    ensures v <= 36
  {
    if '0' <= c <= '9' then (c as int - '0' as int)
    else if 'a' <= c <= 'z' then (c as int - 'a' as int) + 10
    else if 'A' <= c <= 'Z' then (c as int - 'A' as int) + 10
    else 36
  }

  /** The longest prefix of `s` made of digits of the given radix. */
  function DigitPrefix(s: string, radix: nat): (r: string)
    ensures |r| <= |s| && r == s[..|r|]
    ensures forall k :: 0 <= k < |r| ==> DigitValue(r[k]) < radix
    ensures |r| < |s| ==> DigitValue(s[|r|]) >= radix
  {
    if s != [] && DigitValue(s[0]) < radix then [s[0]] + DigitPrefix(s[1..], radix) else []
  }

  /** The number a digit string denotes in the given radix. */
  function DigitsValue(ds: string, radix: nat): nat {
    if ds == [] then 0
    else DigitsValue(ds[..|ds| - 1], radix) * radix + DigitValue(ds[|ds| - 1])
  }

  /** The magnitude `parseInt` reads after the sign: a `0x`/`0X` prefix selects
      base 16, otherwise base 10, and the longest run of digits that follows is
      the value; no digit at all is NaN (`None`). */
  function ParseMagnitude(u: string): Option<nat> {
    var hex := |u| >= 2 && u[0] == '0' && (u[1] == 'x' || u[1] == 'X');
    var radix := if hex then 16 else 10;
    var digits := DigitPrefix(if hex then u[2..] else u, radix);
    if digits == [] then None else Some(DigitsValue(digits, radix))
  }

  /** `parseInt(s)` without a radix, with `None` for NaN: leading whitespace is
      skipped and one sign character is read before the magnitude. */
  function ParseInt(s: string): Option<int> {
    var t := TrimStart(s);
    var negative := |t| > 0 && t[0] == '-';
    var magnitude := ParseMagnitude(if |t| > 0 && (t[0] == '-' || t[0] == '+') then t[1..] else t);
    match magnitude
    case None => None
    case Some(v) => if negative then Some(-(v as int)) else Some(v)
  }

  /** The decimal numeral of a natural number, as `String(n)` writes it. */
  function DecimalString(n: nat): (r: string)
    ensures |r| >= 1
    ensures forall k :: 0 <= k < |r| ==> '0' <= r[k] <= '9'
    ensures r[0] == '0' ==> n == 0
  {
    if n < 10 then [('0' as int + n) as char]
    else DecimalString(n / 10) + [('0' as int + n % 10) as char]
  }

  /** The numeral denotes the number it was written for. */
  lemma {:induction false} DecimalValue(n: nat)
    ensures DigitsValue(DecimalString(n), 10) == n
  {
    var r := DecimalString(n);
    if n >= 10 {
      DecimalValue(n / 10);
      assert r[..|r| - 1] == DecimalString(n / 10);
      assert DigitValue(r[|r| - 1]) == n % 10;
      assert DigitsValue(r, 10) == (n / 10) * 10 + n % 10;
    }
  }

  lemma {:induction false} AllDigitsPrefix(s: string)
    requires forall k :: 0 <= k < |s| ==> '0' <= s[k] <= '9'
    ensures DigitPrefix(s, 10) == s
  {
    if s != [] {
      AllDigitsPrefix(s[1..]);
    }
  }

  /** `parseInt` reads back what `String(n)` writes, for either sign. */
  lemma ParseIntDecimal(n: nat)
    ensures ParseInt(DecimalString(n)) == Some(n)
  {
    var d := DecimalString(n);
    NumeralTrimStart(d);
    assert !(d[0] == '-' || d[0] == '+');
    ParseMagnitudeDecimal(n);
  }

  /** A numeral has no leading whitespace to skip. */
  lemma NumeralTrimStart(d: string)
    requires |d| >= 1 && '0' <= d[0] <= '9'
    ensures TrimStart(d) == d
  {
    assert !IsJsWhitespace(d[0]);
  }

  lemma ParseIntNegativeDecimal(n: nat)
    ensures ParseInt("-" + DecimalString(n)) == Some(-(n as int))
  {
    var d := DecimalString(n);
    var t := "-" + d;
    assert !IsJsWhitespace(t[0]);
    assert TrimStart(t) == t;
    assert t[1..] == d;
    ParseMagnitudeDecimal(n);
  }

  lemma ParseMagnitudeDecimal(n: nat)
    ensures ParseMagnitude(DecimalString(n)) == Some(n)
  {
    var d := DecimalString(n);
    DecimalValue(n);
    AllDigitsPrefix(d);
    assert !(|d| >= 2 && d[0] == '0');
  }
}
