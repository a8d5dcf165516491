/** The pieces of .NET base-library behaviour that the subtitle pipeline and
    the music entities depend on: nullable values, thrown exceptions, 64-bit
    `long` arithmetic, ordinal case-insensitive comparison, `String.Replace`,
    `String.TrimStart`, `Path.GetExtension`, `Path.Combine` and invariant
    decimal formatting of integers. Paths follow the .NET Framework on
    Windows: `\` is the separator, `/` the alternative one and `:` the volume
    separator. Case folding is modelled for ASCII letters only. */
module DotNet {

  /** A value that may be C#'s `null`. */
  datatype Option<+T> = None | Some(value: T) {
    /** The value, or `default` for `null` (C#'s `??`). */
    function GetOr(default: T): T {
      match this
      case Some(v) => v
      case None => default
    }
  }

  /** The exceptions the modelled code throws or lets escape. */
  datatype Exception =
    | ArgumentNullException(paramName: string)
    | ArgumentException(message: string)
    | ArgumentOutOfRangeException(paramName: string)
    | NullReferenceException
    | ApplicationException(message: string)
    | ProcessStartException

  /** Either a returned value or a thrown exception. */
  datatype Result<+T> = Ok(value: T) | Throws(error: Exception)

  function Min(a: int, b: int): int { if a <= b then a else b }
  function Max(a: int, b: int): int { if a >= b then a else b }

  // ------------------------------------------------------------------
  // 64-bit integers (C# `long`, unchecked)

  const MinInt64: int := -0x8000_0000_0000_0000
  const MaxInt64: int := 0x7FFF_FFFF_FFFF_FFFF
  const TwoTo64: int := 0x1_0000_0000_0000_0000

  type Int64 = x: int | MinInt64 <= x <= MaxInt64

  /** `a - b` on `long`: the mathematical difference, wrapped into range. */
  function Sub64(a: Int64, b: Int64): (r: Int64)
    ensures MinInt64 <= a - b <= MaxInt64 ==> r == a - b
    ensures r == a - b || r == a - b - TwoTo64 || r == a - b + TwoTo64
  {
    var d := a - b;
    if d > MaxInt64 then d - TwoTo64 else if d < MinInt64 then d + TwoTo64 else d
  }

  /** `a + b` on `long`: the mathematical sum, wrapped into range. */
  function Add64(a: Int64, b: Int64): (r: Int64)
    ensures MinInt64 <= a + b <= MaxInt64 ==> r == a + b
    ensures r == a + b || r == a + b - TwoTo64 || r == a + b + TwoTo64
  {
    var d := a + b;
    if d > MaxInt64 then d - TwoTo64 else if d < MinInt64 then d + TwoTo64 else d
  }

  /** Two's-complement subtraction is undone by addition, even when it wraps. */
  lemma SubThenAdd64(a: Int64, b: Int64)
    ensures Add64(Sub64(a, b), b) == a
  {
  }

  // ------------------------------------------------------------------
  // Characters and blank strings

  /** `Char.ToUpperInvariant` on ASCII letters; other characters are kept. */
  function UpperChar(c: char): char {
    if 'a' <= c <= 'z' then (c as int - 32) as char else c
  }

  /** `Char.ToLower` on ASCII letters; other characters are kept. */
  function LowerChar(c: char): char {
    if 'A' <= c <= 'Z' then (c as int + 32) as char else c
  }

  /** `String.ToLower()`, character by character. */
  function ToLower(s: string): (r: string)
    ensures |r| == |s|
    ensures forall i :: 0 <= i < |s| ==> r[i] == LowerChar(s[i])
  {
    seq(|s|, i requires 0 <= i < |s| => LowerChar(s[i]))
  }

  /** `String.Equals(a, b, StringComparison.OrdinalIgnoreCase)` on non-null strings. */
  predicate EqualsIgnoreCase(a: string, b: string) {
    |a| == |b| && forall i :: 0 <= i < |a| ==> UpperChar(a[i]) == UpperChar(b[i])
  }

  /** The same comparison when the left operand may be `null`: `null` equals no literal. */
  predicate NullableEqualsIgnoreCase(a: Option<string>, b: string) {
    a.Some? && EqualsIgnoreCase(a.value, b)
  }

  /** Folding to upper case and folding to lower case identify the same characters. */
  lemma FoldingAgrees(x: char, y: char)
    ensures UpperChar(x) == UpperChar(y) <==> LowerChar(x) == LowerChar(y)
  {
  }

  /** Ignoring case is the same as comparing lower-cased copies. */
  lemma EqualsIgnoreCaseIffLower(a: string, b: string)
    ensures EqualsIgnoreCase(a, b) <==> ToLower(a) == ToLower(b)
  {
    if ToLower(a) == ToLower(b) {
      forall i | 0 <= i < |a|
        ensures UpperChar(a[i]) == UpperChar(b[i])
      {
        assert ToLower(a)[i] == ToLower(b)[i];
        FoldingAgrees(a[i], b[i]);
      }
    }
    if EqualsIgnoreCase(a, b) {
      forall i | 0 <= i < |a|
        ensures ToLower(a)[i] == ToLower(b)[i]
      {
        FoldingAgrees(a[i], b[i]);
      }
    }
  }

  /** Ignoring case is an equivalence: the registries rely on it to treat
      every spelling of a name alike. */
  lemma EqualsIgnoreCaseTransitive(a: string, b: string, c: string)
    requires EqualsIgnoreCase(a, b) && EqualsIgnoreCase(b, c)
    ensures EqualsIgnoreCase(a, c) && EqualsIgnoreCase(c, a)
  {
  }

  /** `Char.IsWhiteSpace`: the Unicode space separators, line and paragraph
      separators, and the control characters U+0009..U+000D, U+0085. */
  predicate IsWhiteSpace(c: char) {
    c as int in {0x09, 0x0A, 0x0B, 0x0C, 0x0D, 0x20, 0x85, 0xA0, 0x1680,
                 0x2000, 0x2001, 0x2002, 0x2003, 0x2004, 0x2005, 0x2006,
                 0x2007, 0x2008, 0x2009, 0x200A, 0x2028, 0x2029, 0x202F,
                 0x205F, 0x3000}
  }

  /** Every character is white space (vacuously true of ""). */
  predicate IsBlank(s: string) {
    forall i :: 0 <= i < |s| ==> IsWhiteSpace(s[i])
  }

  /** `String.IsNullOrEmpty`. */
  predicate IsNullOrEmpty(s: Option<string>) {
    s.None? || s.value == ""
  }

  /** `String.IsNullOrWhiteSpace`. */
  predicate IsNullOrWhiteSpace(s: Option<string>) {
    s.None? || IsBlank(s.value)
  }

  // ------------------------------------------------------------------
  // Trimming and paths

  /** `s.TrimStart(c)`: every leading `c` removed. */
  function TrimStart(s: string, c: char): (r: string)
    ensures |r| <= |s| && r == s[|s| - |r|..]
    ensures forall i :: 0 <= i < |s| - |r| ==> s[i] == c
    ensures r == [] || r[0] != c
  {
    if |s| > 0 && s[0] == c then TrimStart(s[1..], c) else s
  }

  const DirectorySeparator: char := '\\'
  const AltDirectorySeparator: char := '/'
  const VolumeSeparator: char := ':'

  predicate IsSeparator(c: char) {
    c == DirectorySeparator || c == AltDirectorySeparator || c == VolumeSeparator
  }

  /** `path[i]` is the dot that starts `path`'s extension: at least one
      character follows it, and no dot or separator comes after it. */
  predicate ExtensionAt(path: string, i: int) {
    && 0 <= i < |path| - 1
    && path[i] == '.'
    && forall j :: i < j < |path| ==> path[j] != '.' && !IsSeparator(path[j])
  }

  /** The backward scan of `Path.GetExtension` over `path[..n]`, when
      `path[n..]` holds neither a dot nor a separator. */
  function ExtensionScan(path: string, n: nat): (r: string)
    requires n <= |path|
    requires forall j :: n <= j < |path| ==> path[j] != '.' && !IsSeparator(path[j])
    ensures r != "" ==> |r| <= |path| && r == path[|path| - |r|..] && ExtensionAt(path, |path| - |r|)
    ensures r == "" ==> forall i :: 0 <= i < n ==> !ExtensionAt(path, i)
    decreases n
  {
    if n == 0 then ""
    else if path[n - 1] == '.' then (if n != |path| then path[n - 1..] else "")
    else if IsSeparator(path[n - 1]) then ""
    else ExtensionScan(path, n - 1)
  }

  /** `Path.GetExtension` on a non-null path: the text from the last dot of
      the last path segment, dot included, or "" when there is none or the
      dot ends the path. */
  function GetExtension(path: string): (r: string)
    ensures r != "" ==> r[0] == '.' && 2 <= |r| <= |path| && r == path[|path| - |r|..]
    ensures r != "" ==> forall j :: 0 < j < |r| ==> r[j] != '.' && !IsSeparator(r[j])
    ensures r != "" <==> exists i :: ExtensionAt(path, i)
  {
    var r := ExtensionScan(path, |path|);
    assert r != "" ==> ExtensionAt(path, |path| - |r|);
    r
  }

  /** A single leading `c`: `TrimStart` drops just that one, and putting
      it back restores the string. */
  lemma TrimStartOne(s: string, c: char)
    requires |s| >= 2 && s[0] == c && s[1] != c
    ensures TrimStart(s, c) == s[1..] && [c] + s[1..] == s
  {
    assert s[1..][0] == s[1];
  }

  /** `Path.IsPathRooted`. */
  predicate IsRooted(p: string) {
    (|p| >= 1 && (p[0] == DirectorySeparator || p[0] == AltDirectorySeparator))
    || (|p| >= 2 && p[1] == VolumeSeparator)
  }

  /** `Path.Combine(a, b)`: a rooted or empty operand wins, and a separator
      is inserted unless `a` already ends with one. */
  function Combine(a: string, b: string): string {
    if |b| == 0 then a
    else if |a| == 0 then b
    else if IsRooted(b) then b
    else if IsSeparator(a[|a| - 1]) then a + b
    else a + [DirectorySeparator] + b
  }

  // ------------------------------------------------------------------
  // Invariant-culture decimal formatting

  function DigitChar(d: int): char
    requires 0 <= d < 10
  {
    "0123456789"[d]
  }

  function DigitValue(c: char): int {
    if '0' <= c <= '9' then c as int - '0' as int else 0
  }

  predicate IsDigit(c: char) {
    '0' <= c <= '9'
  }

  /** The decimal digits of `n`, most significant first, no leading zero. */
  function NatToString(n: nat): (r: string)
    ensures |r| > 0
    ensures forall i :: 0 <= i < |r| ==> IsDigit(r[i])
    decreases n
  {
    if n < 10 then [DigitChar(n)] else NatToString(n / 10) + [DigitChar(n % 10)]
  }

  /** `n.ToString(CultureInfo.InvariantCulture)`: a minus sign, then digits. */
  function IntToString(n: int): (r: string)
    ensures |r| > 0
    ensures forall i :: 0 <= i < |r| ==> IsDigit(r[i]) || r[i] == '-'
  {
    if n < 0 then "-" + NatToString(-n) else NatToString(n)
  }

  /** Reads a string of decimal digits back. */
  function ParseNat(s: string): nat
    decreases |s|
  {
    if |s| == 0 then 0 else ParseNat(s[..|s| - 1]) * 10 + DigitValue(s[|s| - 1])
  }

  /** Reads back what `IntToString` writes. */
  function ParseInt(s: string): int {
    var magnitude: int := if |s| > 0 && s[0] == '-' then ParseNat(s[1..]) else ParseNat(s);
    if |s| > 0 && s[0] == '-' then -magnitude else magnitude
  }

  lemma {:induction false} NatToStringRoundTrip(n: nat)
    ensures ParseNat(NatToString(n)) == n
    decreases n
  {
    if n >= 10 {
      var s := NatToString(n);
      assert s[..|s| - 1] == NatToString(n / 10);
      assert DigitValue(s[|s| - 1]) == n % 10;
      NatToStringRoundTrip(n / 10);
    } else {
      assert DigitValue(DigitChar(n)) == n;
    }
  }

  /** Decimal formatting is undone by parsing, so it loses nothing. */
  lemma IntToStringRoundTrip(n: int)
    ensures ParseInt(IntToString(n)) == n
  {
    if n < 0 {
      assert IntToString(n)[1..] == NatToString(-n);
      NatToStringRoundTrip(-n);
    } else {
      NatToStringRoundTrip(n);
    }
  }

  /** Distinct integers are written differently. */
  lemma IntToStringInjective(a: int, b: int)
    requires IntToString(a) == IntToString(b)
    ensures a == b
  {
    IntToStringRoundTrip(a);
    IntToStringRoundTrip(b);
  }

  // ------------------------------------------------------------------
  // String.Replace

  /** `t` occurs in `s` at index `i`. */
  predicate OccursAt(s: string, t: string, i: int) {
    0 <= i && i + |t| <= |s| && s[i..i + |t|] == t
  }

  predicate Contains(s: string, t: string) {
    exists i | 0 <= i <= |s| - |t| :: OccursAt(s, t, i)
  }

  /** `s.Replace(oldValue, newValue)`: occurrences of `oldValue` are replaced left to right,
      each scan resuming after the text it replaced. */
  function Replace(s: string, oldValue: string, newValue: string): string
    requires |oldValue| > 0
    decreases |s|
  {
    if |s| < |oldValue| then s
    else if s[..|oldValue|] == oldValue then newValue + Replace(s[|oldValue|..], oldValue, newValue)
    else [s[0]] + Replace(s[1..], oldValue, newValue)
  }

  /** When `oldValue` and `newValue` differ at some position both have, `Replace`
      changes `s` exactly when `oldValue` occurs in it. */
  lemma {:induction false} ReplaceChangesIffContains(s: string, oldValue: string, newValue: string, k: nat)
    requires |oldValue| > 0 && k < |oldValue| && k < |newValue| && oldValue[k] != newValue[k]
    ensures Replace(s, oldValue, newValue) != s <==> Contains(s, oldValue)
    decreases |s|
  {
    if |s| < |oldValue| {
      assert !Contains(s, oldValue);
    } else if s[..|oldValue|] == oldValue {
      assert OccursAt(s, oldValue, 0);
      var r := Replace(s, oldValue, newValue);
      assert r[k] == newValue[k];
      assert s[k] == oldValue[k];
    } else {
      var tail := s[1..];
      ReplaceChangesIffContains(tail, oldValue, newValue, k);
      if Contains(s, oldValue) {
        var i :| 0 <= i <= |s| - |oldValue| && OccursAt(s, oldValue, i);
        assert i != 0;
        assert tail[i - 1..i - 1 + |oldValue|] == s[i..i + |oldValue|];
        assert OccursAt(tail, oldValue, i - 1);
      }
      if Contains(tail, oldValue) {
        var i :| 0 <= i <= |tail| - |oldValue| && OccursAt(tail, oldValue, i);
        assert s[i + 1..i + 1 + |oldValue|] == tail[i..i + |oldValue|];
        assert OccursAt(s, oldValue, i + 1);
      }
      assert Replace(s, oldValue, newValue) == [s[0]] + Replace(tail, oldValue, newValue);
      assert s == [s[0]] + tail;
    }
  }
}
