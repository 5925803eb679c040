/**
 * The .NET string operations the catalog relies on: `Char.IsWhiteSpace`, `Trim`,
 * `Split(char)`, `string.Join`, ASCII case folding, `int.ToString()` and the
 * `int.Parse` / `int.TryParse` grammar of `NumberStyles.Integer`.
 */
module Strings {
  import opened Sequences

  /** `Char.IsWhiteSpace`: the Unicode space separators, U+2028, U+2029, U+0009..U+000D and U+0085. */
  predicate IsWhiteSpace(c: char) {
    c == ' ' || ('\t' <= c <= '\r') || c == '\U{0085}' || c == '\U{00A0}' || c == '\U{1680}'
    || ('\U{2000}' <= c <= '\U{200A}') || c == '\U{2028}' || c == '\U{2029}'
    || c == '\U{202F}' || c == '\U{205F}' || c == '\U{3000}'
  }

  /** The white space that `NumberStyles.AllowLeadingWhite`/`AllowTrailingWhite` skip. */
  predicate IsNumberWhite(c: char) {
    c == ' ' || ('\t' <= c <= '\r')
  }

  /** `string.IsNullOrWhiteSpace` for a non-null string. */
  predicate IsBlank(s: string) {
    forall i :: 0 <= i < |s| ==> IsWhiteSpace(s[i])
  }

  /** Drops the leading characters satisfying `white`. */
  function TrimStartBy(s: string, white: char -> bool): (r: string)
    ensures |r| <= |s| && r == s[|s| - |r|..]
    ensures forall k :: 0 <= k < |s| - |r| ==> white(s[k])
    ensures r != [] ==> !white(r[0])
  {
    if s != [] && white(s[0]) then TrimStartBy(s[1..], white) else s
  }

  /** Drops the trailing characters satisfying `white`. */
  function TrimEndBy(s: string, white: char -> bool): (r: string)
    ensures |r| <= |s| && r == s[..|r|]
    ensures forall k :: |r| <= k < |s| ==> white(s[k])
    ensures r != [] ==> !white(r[|r| - 1])
  {
    if s != [] && white(s[|s| - 1]) then TrimEndBy(s[..|s| - 1], white) else s
  }

  /** `s` is `r` at offset `i`, with white space before and after it. */
  ghost predicate WhiteAround(s: string, r: string, i: int, white: char -> bool) {
    0 <= i <= |s| - |r| && s[i..i + |r|] == r
    && (forall k :: 0 <= k < i ==> white(s[k]))
    && (forall k :: i + |r| <= k < |s| ==> white(s[k]))
  }

  /** `s` is `r` surrounded by white space on both sides. */
  ghost predicate WhiteMargins(s: string, r: string, white: char -> bool) {
    exists i :: WhiteAround(s, r, i, white)
  }

  lemma TrimAround(s: string, t: string, r: string, white: char -> bool)
    requires |t| <= |s| && t == s[|s| - |t|..]
    requires forall k :: 0 <= k < |s| - |t| ==> white(s[k])
    requires |r| <= |t| && r == t[..|r|]
    requires forall k :: |r| <= k < |t| ==> white(t[k])
    ensures WhiteAround(s, r, |s| - |t|, white)
  {
    var i := |s| - |t|;
    assert s[i..i + |r|] == r;
    forall k | i + |r| <= k < |s| ensures white(s[k]) {
      assert s[k] == t[k - i];
    }
  }

  /** `String.Trim()`: the longest infix without white space at either end. */
  function Trim(s: string): (r: string)
    ensures WhiteMargins(s, r, IsWhiteSpace)
    ensures r != [] ==> !IsWhiteSpace(r[0]) && !IsWhiteSpace(r[|r| - 1])
  {
    var t := TrimStartBy(s, IsWhiteSpace);
    var r := TrimEndBy(t, IsWhiteSpace);
    TrimAround(s, t, r, IsWhiteSpace);
    r
  }

  lemma TrimIdempotent(s: string)
    ensures Trim(Trim(s)) == Trim(s)
  {
    var r := Trim(s);
    assert TrimStartBy(r, IsWhiteSpace) == r;
    assert TrimEndBy(r, IsWhiteSpace) == r;
  }

  /** A string already without surrounding white space is its own trim. */
  lemma TrimNone(s: string)
    requires s == [] || (!IsWhiteSpace(s[0]) && !IsWhiteSpace(s[|s| - 1]))
    ensures Trim(s) == s
  {
    assert TrimStartBy(s, IsWhiteSpace) == s;
    assert TrimEndBy(s, IsWhiteSpace) == s;
  }

  /** Trimming ignores one more leading white-space character. */
  lemma TrimLeadingWhite(c: char, s: string)
    requires IsWhiteSpace(c)
    ensures Trim([c] + s) == Trim(s)
  {
    TrimStartByCons(c, s, IsWhiteSpace);
  }

  /** A leading character that `white` accepts is dropped first. */
  lemma TrimStartByCons(c: char, s: string, white: char -> bool)
    requires white(c)
    ensures TrimStartBy([c] + s, white) == TrimStartBy(s, white)
  {
    assert ([c] + s)[1..] == s;
  }

  /** `String.Split(sep)`: every piece between separators, empty pieces kept. */
  function Split(s: string, sep: char): (r: seq<string>)
    ensures |r| == Count(s, sep) + 1
    ensures forall i :: 0 <= i < |r| ==> sep !in r[i]
  {
    if s == [] then [""]
    else
      var rest := Split(s[1..], sep);
      if s[0] == sep then [""] + rest else [[s[0]] + rest[0]] + rest[1..]
  }

  /** `string.Join(sep, parts)`. */
  function Join(parts: seq<string>, sep: string): string {
    if |parts| == 0 then ""
    else if |parts| == 1 then parts[0]
    else parts[0] + sep + Join(parts[1..], sep)
  }

  /** Joining the pieces of a split with the separator gives back the string. */
  lemma {:induction false} JoinSplit(s: string, sep: char)
    ensures Join(Split(s, sep), [sep]) == s
  {
    if s != [] {
      var rest := Split(s[1..], sep);
      JoinSplit(s[1..], sep);
      assert s == [s[0]] + s[1..];
      if s[0] == sep {
        var r := [""] + rest;
        assert r[1..] == rest;
        assert Join(r, [sep]) == r[0] + [sep] + Join(rest, [sep]);
      } else {
        JoinPrefixFirst([s[0]], rest, [sep]);
      }
    }
  }

  /** A join holds a character only if a piece or the separator does. */
  lemma {:induction false} JoinAvoids(parts: seq<string>, sep: string, c: char)
    requires c !in sep
    requires forall i :: 0 <= i < |parts| ==> c !in parts[i]
    ensures c !in Join(parts, sep)
  {
    if |parts| > 1 {
      JoinAvoids(parts[1..], sep, c);
    }
  }

  /** Prefixing the first piece prefixes the join. */
  /** A join ends with its last part: nothing follows the last part. */
  lemma {:induction false} JoinEndsWithLast(parts: seq<string>, sep: string)
    requires |parts| >= 1
    ensures var j, last := Join(parts, sep), parts[|parts| - 1];
      |last| <= |j| && j[|j| - |last|..] == last
  {
    if |parts| > 1 {
      var rest := parts[1..];
      JoinEndsWithLast(rest, sep);
      assert rest[|rest| - 1] == parts[|parts| - 1];
      var j, tail := Join(parts, sep), Join(rest, sep);
      assert j == (parts[0] + sep) + tail;
      assert j[|j| - |tail|..] == tail;
    }
  }

  lemma JoinPrefixFirst(p: string, parts: seq<string>, sep: string)
    requires |parts| >= 1
    ensures Join([p + parts[0]] + parts[1..], sep) == p + Join(parts, sep)
  {
    var q := [p + parts[0]] + parts[1..];
    assert q[1..] == parts[1..];
  }

  lemma {:induction false} SplitPrefix(a: string, b: string, sep: char)
    requires sep !in a
    ensures Split(a + [sep] + b, sep) == [a] + Split(b, sep)
  {
    if a == [] {
      assert ([sep] + b)[1..] == b;
    } else {
      assert (a + [sep] + b)[0] == a[0];
      assert (a + [sep] + b)[1..] == a[1..] + [sep] + b;
      SplitPrefix(a[1..], b, sep);
      assert [a[0]] + a[1..] == a;
    }
  }

  lemma {:induction false} SplitNoSeparator(a: string, sep: char)
    requires sep !in a
    ensures Split(a, sep) == [a]
  {
    if a != [] {
      SplitNoSeparator(a[1..], sep);
      assert [a[0]] + a[1..] == a;
    }
  }

  /** Splitting a join of separator-free pieces gives back the pieces. */
  lemma {:induction false} SplitJoin(parts: seq<string>, sep: char)
    requires |parts| >= 1
    requires forall i :: 0 <= i < |parts| ==> sep !in parts[i]
    ensures Split(Join(parts, [sep]), sep) == parts
  {
    if |parts| == 1 {
      SplitNoSeparator(parts[0], sep);
    } else {
      SplitJoin(parts[1..], sep);
      SplitPrefix(parts[0], Join(parts[1..], [sep]), sep);
      assert parts == [parts[0]] + parts[1..];
    }
  }

  /** ASCII case folding, which is all the genre names need. */
  function LowerChar(c: char): char {
    if 'A' <= c <= 'Z' then (c as int + 32) as char else c
  }

  function Lower(s: string): (r: string)
    ensures |r| == |s|
  {
    seq(|s|, i requires 0 <= i < |s| => LowerChar(s[i]))
  }

  predicate IsDigit(c: char) {
    '0' <= c <= '9'
  }

  predicate AllDigits(s: string) {
    forall i :: 0 <= i < |s| ==> IsDigit(s[i])
  }

  function DigitChar(d: int): (c: char)
    requires 0 <= d < 10
    ensures IsDigit(c)
  {
    (48 + d) as char
  }

  /** Value of a string of decimal digits, most significant first. */
  function DigitsValue(ds: string): nat
    requires AllDigits(ds)
  {
    if ds == [] then 0 else DigitsValue(ds[..|ds| - 1]) * 10 + (ds[|ds| - 1] as int - 48)
  }

  /** Decimal digits of `n` without leading zeros. */
  function NatToString(n: nat): (r: string)
    ensures |r| >= 1 && AllDigits(r)
    decreases n
  {
    if n < 10 then [DigitChar(n)] else NatToString(n / 10) + [DigitChar(n % 10)]
  }

  lemma {:induction false} NatToStringValue(n: nat)
    ensures DigitsValue(NatToString(n)) == n
    decreases n
  {
    if n >= 10 {
      NatToStringValue(n / 10);
      var r := NatToString(n);
      assert r[..|r| - 1] == NatToString(n / 10);
    }
  }

  /** `int.ToString()` in the invariant culture. */
  function IntToString(n: int): (r: string)
    ensures |r| >= 1 && (r[0] == '-' || IsDigit(r[0])) && IsDigit(r[|r| - 1])
    ensures r[0] == '-' <==> n < 0
    ensures forall i :: 0 < i < |r| ==> IsDigit(r[i])
  {
    if n < 0 then "-" + NatToString(-n) else NatToString(n)
  }

  /** Distinct natural numbers have distinct digits. */
  lemma NatToStringInjective(m: nat, n: nat)
    requires NatToString(m) == NatToString(n)
    ensures m == n
  {
    NatToStringValue(m);
    NatToStringValue(n);
  }

  /** Distinct numbers print differently, so comparing printed ratings compares ratings. */
  lemma IntToStringInjective(a: int, b: int)
    ensures IntToString(a) == IntToString(b) <==> a == b
  {
    if IntToString(a) == IntToString(b) {
      var t := IntToString(a);
      assert (a < 0) == (b < 0);
      if a < 0 {
        assert NatToString(-a) == t[1..] == NatToString(-b);
        NatToStringInjective(-a, -b);
      } else {
        NatToStringInjective(a, b);
      }
    }
  }

  const Int32Min: int := -0x8000_0000
  const Int32Max: int := 0x7fff_ffff

  /** What `int.Parse` does with a string: a value, `FormatException` or `OverflowException`. */
  datatype IntParse = Parsed(value: int) | BadFormat | Overflow

  /** Drops the leading white space `NumberStyles.AllowLeadingWhite` allows. */
  function TrimLeadingNumberWhite(s: string): string {
    if s != [] && IsNumberWhite(s[0]) then TrimLeadingNumberWhite(s[1..]) else s
  }

  /** Drops the trailing white space `NumberStyles.AllowTrailingWhite` allows. */
  function TrimTrailingNumberWhite(s: string): string {
    if s != [] && IsNumberWhite(s[|s| - 1]) then TrimTrailingNumberWhite(s[..|s| - 1]) else s
  }

  /** Strips the white space `NumberStyles.AllowLeadingWhite | AllowTrailingWhite` allow. */
  function TrimNumberWhite(s: string): string {
    TrimTrailingNumberWhite(TrimLeadingNumberWhite(s))
  }

  lemma {:induction false} TrimLeadingNumberWhiteIsTrimStart(s: string)
    ensures TrimLeadingNumberWhite(s) == TrimStartBy(s, IsNumberWhite)
  {
    if s != [] && IsNumberWhite(s[0]) {
      TrimLeadingNumberWhiteIsTrimStart(s[1..]);
    }
  }

  lemma {:induction false} TrimTrailingNumberWhiteIsTrimEnd(s: string)
    ensures TrimTrailingNumberWhite(s) == TrimEndBy(s, IsNumberWhite)
  {
    if s != [] && IsNumberWhite(s[|s| - 1]) {
      TrimTrailingNumberWhiteIsTrimEnd(s[..|s| - 1]);
    }
  }

  /** The number white space trim removes white space at both ends and only there. */
  lemma TrimNumberWhiteMargins(s: string)
    ensures WhiteMargins(s, TrimNumberWhite(s), IsNumberWhite)
    ensures var r := TrimNumberWhite(s); r != [] ==> !IsNumberWhite(r[0]) && !IsNumberWhite(r[|r| - 1])
  {
    var t := TrimStartBy(s, IsNumberWhite);
    TrimLeadingNumberWhiteIsTrimStart(s);
    TrimTrailingNumberWhiteIsTrimEnd(t);
    TrimAround(s, t, TrimEndBy(t, IsNumberWhite), IsNumberWhite);
  }

  /** An optional `+` or `-` and then one or more ASCII digits; the value must fit in 32 bits. */
  function ParseSignedDigits(t: string): (r: IntParse)
    ensures r.Parsed? ==> Int32Min <= r.value <= Int32Max
  {
    var signed := |t| > 0 && (t[0] == '-' || t[0] == '+');
    var digits := if signed then t[1..] else t;
    if |digits| == 0 || !AllDigits(digits) then BadFormat
    else
      InRange(if signed && t[0] == '-' then 0 - DigitsValue(digits) else DigitsValue(digits))
  }

  /**
   * `int.Parse`/`int.TryParse` with `NumberStyles.Integer`: optional white space, an optional
   * `+` or `-`, one or more ASCII digits, optional white space; the value must fit in 32 bits.
   */
  function ParseInteger(s: string): (r: IntParse)
    ensures r.Parsed? ==> Int32Min <= r.value <= Int32Max
  {
    ParseSignedDigits(TrimNumberWhite(s))
  }

  lemma TrimNumberWhiteNone(s: string)
    requires s == [] || (!IsNumberWhite(s[0]) && !IsNumberWhite(s[|s| - 1]))
    ensures TrimNumberWhite(s) == s
  {
  }

  /** The value a sign and digits denote, checked against the 32-bit range. */
  function InRange(v: int): IntParse {
    if Int32Min <= v <= Int32Max then Parsed(v) else Overflow
  }

  lemma ParseUnsignedDigits(ds: string)
    requires |ds| >= 1 && AllDigits(ds)
    ensures ParseSignedDigits(ds) == InRange(DigitsValue(ds))
  {
    assert IsDigit(ds[0]);
  }

  lemma ParseNegativeDigits(ds: string)
    requires |ds| >= 1 && AllDigits(ds)
    ensures ParseSignedDigits("-" + ds) == InRange(0 - DigitsValue(ds))
  {
    assert ("-" + ds)[1..] == ds;
  }

  /** Parsing a printed number gives it back, or overflows exactly outside 32 bits. */
  lemma ParseIntegerOfIntToString(n: int)
    ensures ParseInteger(IntToString(n)) == InRange(n)
  {
    var s := IntToString(n);
    TrimNumberWhiteNone(s);
    if n < 0 {
      NatToStringValue(-n);
      ParseNegativeDigits(NatToString(-n));
    } else {
      NatToStringValue(n);
      ParseUnsignedDigits(NatToString(n));
    }
  }

  /** Leading number white space does not change what is parsed. */
  lemma ParseIntegerSkipsLeadingWhite(c: char, s: string)
    requires IsNumberWhite(c)
    ensures ParseInteger([c] + s) == ParseInteger(s)
  {
    assert ([c] + s)[1..] == s;
  }

  /** A string holding no digit never parses. */
  lemma ParseIntegerNeedsDigit(s: string)
    requires forall k :: 0 <= k < |s| ==> !IsDigit(s[k])
    ensures !ParseInteger(s).Parsed?
  {
    var t := TrimNumberWhite(s);
    TrimNumberWhiteMargins(s);
    var i :| WhiteAround(s, t, i, IsNumberWhite);
    if |t| > 0 {
      assert t[0] == s[i];
      if |t| > 1 { assert t[1] == s[i + 1]; }
    }
  }
}
