/**
 * The few Python string operations the two scripts rely on, with the
 * semantics of CPython 3: `str.strip()`, `str.lower()`, the substring test
 * `sub in s` (which Dart's `String.contains` shares), `str.replace` of one
 * character, `str(int)` and `int(str)`.
 */
module PyText {
  import opened Wrappers

  /**
   * `c.isspace()`: the characters `str.strip()` discards. `int()` discards
   * these too, except the four separators U+001C to U+001F (see `IsSeparator`).
   */
  predicate IsSpace(c: char) {
    if c <= ' ' then ('\t' <= c <= '\r') || ('\U{1C}' <= c <= '\U{1F}') || c == ' '
    else if c < '\U{85}' then false
    else (c == '\U{85}' || c == '\U{A0}' || c == '\U{1680}'
          || ('\U{2000}' <= c <= '\U{200A}') || c == '\U{2028}' || c == '\U{2029}'
          || c == '\U{202F}' || c == '\U{205F}' || c == '\U{3000}')
  }

  predicate IsDigit(c: char) {
    '0' <= c <= '9'
  }

  /** Drops the leading white space. */
  function TrimStart(s: string): (r: string)
    ensures |r| <= |s| && r == s[|s| - |r|..]
    ensures forall k | 0 <= k < |s| - |r| :: IsSpace(s[k])
    ensures r != [] ==> !IsSpace(r[0])
  {
    if s != [] && IsSpace(s[0]) then TrimStart(s[1..]) else s
  }

  /** Drops the trailing white space. */
  function TrimEnd(s: string): (r: string)
    ensures |r| <= |s| && r == s[..|r|]
    ensures forall k | |r| <= k < |s| :: IsSpace(s[k])
    ensures r != [] ==> !IsSpace(r[|r| - 1])
  {
    if s != [] && IsSpace(s[|s| - 1]) then TrimEnd(s[..|s| - 1]) else s
  }

  /** Everything of `s` before `i` and from `j` on is white space. */
  predicate SpaceOutside(s: string, i: int, j: int) {
    && 0 <= i <= j <= |s|
    && (forall k | 0 <= k < i :: IsSpace(s[k]))
    && (forall k | j <= k < |s| :: IsSpace(s[k]))
  }

  /** `s.strip()`: the slice of `s` left when the white space at both ends is cut off. */
  function Strip(s: string): (r: string)
    ensures exists i, j {:trigger SpaceOutside(s, i, j)} :: SpaceOutside(s, i, j) && r == s[i..j]
    ensures r != [] ==> !IsSpace(r[0]) && !IsSpace(r[|r| - 1])
  {
    var t := TrimStart(s);
    var r := TrimEnd(t);
    var i := |s| - |t|;
    assert r == t[..|r|] == s[i..i + |r|];
    forall k | i + |r| <= k < |s| ensures IsSpace(s[k]) {
      assert s[k] == t[k - i];
    }
    assert SpaceOutside(s, i, i + |r|);
    r
  }

  /** Stripping leaves nothing exactly when the string is all white space. */
  lemma StripEmptyIff(s: string)
    ensures Strip(s) == [] <==> forall k | 0 <= k < |s| :: IsSpace(s[k])
  {
    var t := TrimStart(s);
    if t != [] {
      assert !IsSpace(s[|s| - |t|]);
    }
  }

  /** A white-space character in front does not change the strip. */
  lemma StripLeadingSpace(c: char, s: string)
    requires IsSpace(c)
    ensures Strip([c] + s) == Strip(s)
  {
    assert ([c] + s)[1..] == s;
  }

  /** A string that neither starts nor ends with white space is its own strip. */
  lemma StripUnchanged(s: string)
    requires s != [] ==> !IsSpace(s[0]) && !IsSpace(s[|s| - 1])
    ensures Strip(s) == s
  {
  }

  /** `c.lower()` for ASCII and the Latin-1 capitals (A-Z, À-Þ without ×). */
  function LowerChar(c: char): (r: char)
  {
    if 'A' <= c <= 'Z' || ('\U{C0}' <= c <= '\U{DE}' && c != '\U{D7}') then (c as int + 32) as char else c
  }

  /** `s.lower()`, character by character. */
  function Lower(s: string): (r: string)
    ensures |r| == |s|
    ensures forall k | 0 <= k < |s| :: r[k] == LowerChar(s[k])
  {
    seq(|s|, k requires 0 <= k < |s| => LowerChar(s[k]))
  }

  /** Lower-casing twice is lower-casing once. */
  lemma LowerIdempotent(s: string)
    ensures Lower(Lower(s)) == Lower(s)
  {
    forall k | 0 <= k < |s| ensures Lower(Lower(s))[k] == Lower(s)[k] {
      var c := s[k];
      assert LowerChar(LowerChar(c)) == LowerChar(c);
    }
  }

  predicate StartsWith(s: string, p: string) {
    |p| <= |s| && s[..|p|] == p
  }

  /** `sub in s` in Python and `s.contains(sub)` in Dart: `sub` occurs in `s` as a slice. */
  predicate Contains(s: string, sub: string)
    decreases |s|
  {
    StartsWith(s, sub) || (s != [] && Contains(s[1..], sub))
  }

  /** `sub` sits in `s` at offset `i`. */
  predicate OccursAt(s: string, sub: string, i: int) {
    0 <= i <= |s| - |sub| && s[i..i + |sub|] == sub
  }

  /** `Contains` holds exactly when `sub` sits at some offset of `s`. */
  lemma {:induction false} ContainsIff(s: string, sub: string)
    ensures Contains(s, sub) <==> exists i :: OccursAt(s, sub, i)
    decreases |s|
  {
    if StartsWith(s, sub) {
      assert OccursAt(s, sub, 0);
    } else if s == [] {
      assert forall i :: !OccursAt(s, sub, i);
    } else {
      ContainsIff(s[1..], sub);
      if exists i :: OccursAt(s, sub, i) {
        var i :| OccursAt(s, sub, i);
        assert i != 0;
        assert s[1..][i - 1..i - 1 + |sub|] == s[i..i + |sub|];
        assert OccursAt(s[1..], sub, i - 1);
      }
      if Contains(s[1..], sub) {
        var j :| OccursAt(s[1..], sub, j);
        assert s[j + 1..j + 1 + |sub|] == s[1..][j..j + |sub|];
        assert OccursAt(s, sub, j + 1);
      }
    }
  }

  /** A non-empty string whose first character does not occur in `s` is not contained in `s`. */
  lemma {:induction false} NotContainsWithoutFirstChar(s: string, sub: string)
    requires sub != []
    requires forall k | 0 <= k < |s| :: s[k] != sub[0]
    ensures !Contains(s, sub)
    decreases |s|
  {
    if s != [] {
      assert |sub| <= |s| ==> s[..|sub|][0] == s[0];
      assert !StartsWith(s, sub);
      NotContainsWithoutFirstChar(s[1..], sub);
    }
  }

  /** `s.replace(from, to)` for single characters. */
  function ReplaceChar(s: string, from: char, to: char): (r: string)
    ensures |r| == |s|
    ensures forall k | 0 <= k < |s| :: r[k] == (if s[k] == from then to else s[k])
  {
    seq(|s|, k requires 0 <= k < |s| => if s[k] == from then to else s[k])
  }

  function DigitChar(d: nat): (c: char)
    requires d < 10
    ensures IsDigit(c)
  {
    ('0' as int + d) as char
  }

  /** The decimal digits of `n`, most significant first, with no leading zero. */
  function NatToString(n: nat): (r: string)
    ensures r != [] && forall k | 0 <= k < |r| :: IsDigit(r[k])
    ensures |r| > 1 ==> r[0] != '0'
    decreases n
  {
    if n < 10 then [DigitChar(n)] else NatToString(n / 10) + [DigitChar(n % 10)]
  }

  /** `str(n)` for a Python int: optional minus sign, then the decimal digits. */
  function IntToString(n: int): (r: string)
    ensures r != []
    ensures forall k | 0 <= k < |r| :: IsDigit(r[k]) || (k == 0 && r[k] == '-' && n < 0)
    ensures '.' !in r
  {
    if n < 0 then "-" + NatToString(-n) else NatToString(n)
  }

  /**
   * U+001C to U+001F are white space to `isspace()`, but `int()`, which
   * passes ASCII text through unchanged and then skips only tab, line feed,
   * vertical tab, form feed, carriage return and space, does not skip them.
   */
  predicate IsSeparator(c: char) {
    '\U{1C}' <= c <= '\U{1F}'
  }

  predicate HasSeparator(s: string) {
    exists k | 0 <= k < |s| :: IsSeparator(s[k])
  }

  /** Digits with single underscores between them, as `int()` accepts after the sign. */
  predicate ValidDigits(s: string) {
    && s != []
    && IsDigit(s[0]) && IsDigit(s[|s| - 1])
    && (forall k | 0 <= k < |s| :: IsDigit(s[k]) || s[k] == '_')
    && (forall k | 0 <= k < |s| - 1 :: !(s[k] == '_' && s[k + 1] == '_'))
  }

  /** The value of a digit string, underscores ignored. */
  function DigitsValue(s: string): nat
  {
    if s == [] then 0
    else if IsDigit(s[|s| - 1]) then DigitsValue(s[..|s| - 1]) * 10 + (s[|s| - 1] as int - '0' as int)
    else DigitsValue(s[..|s| - 1])
  }

  /**
   * The texts `int()` can accept once the white space is cut: non-empty, a
   * sign only in front, otherwise digits and underscores, never two
   * underscores in a row, and a digit first after the sign and last.
   */
  predicate IntShape(t: string) {
    && t != []
    && (forall k | 0 <= k < |t| :: IsDigit(t[k]) || t[k] == '_' || (k == 0 && t[k] in "+-"))
    && (forall k | 0 <= k < |t| - 1 :: !(t[k] == '_' && t[k + 1] == '_'))
    && IsDigit(t[|t| - 1])
    && IsDigit(t[if t[0] in "+-" then 1 else 0])
  }

  lemma UnsignedShape(t: string)
    requires ValidDigits(t)
    ensures IntShape(t)
  {
  }

  lemma SignedShape(t: string)
    requires t != [] && t[0] in "+-" && ValidDigits(t[1..])
    ensures IntShape(t)
  {
    assert forall k | 1 <= k < |t| :: t[k] == t[1..][k - 1];
  }

  /**
   * `int(s)` for a Python `str`: white space around, an optional sign, and
   * ASCII digits grouped by single underscores; anything else raises
   * `ValueError`, which is `None` here. The white space `int()` skips is that
   * of `Strip` without the separators; as a number holds no separator, a
   * separator anywhere in `s` makes `int()` fail.
   */
  function ParseInt(s: string): (r: Option<int>)
    ensures Strip(s) == [] ==> r.None?
    ensures r.Some? ==> !HasSeparator(s) && IntShape(Strip(s))
    ensures r.Some? && r.value < 0 ==> Strip(s)[0] == '-'
  {
    var t := Strip(s);
    if HasSeparator(s) then None
    else if t != [] && (t[0] == '-' || t[0] == '+') then
      if ValidDigits(t[1..]) then
        SignedShape(t);
        var v: int := DigitsValue(t[1..]);
        Some(if t[0] == '-' then -v else v)
      else None
    else if ValidDigits(t) then
      UnsignedShape(t);
      Some(DigitsValue(t))
    else None
  }

  lemma {:induction false} NatToStringDigits(n: nat)
    ensures ValidDigits(NatToString(n)) && DigitsValue(NatToString(n)) == n
    decreases n
  {
    if n >= 10 {
      NatToStringDigits(n / 10);
      var p := NatToString(n / 10);
      var r := p + [DigitChar(n % 10)];
      assert r[..|r| - 1] == p;
    }
  }

  /** An unsigned digit string parses to its value. */
  lemma ParseUnsigned(d: string)
    requires ValidDigits(d)
    ensures ParseInt(d) == Some(DigitsValue(d))
  {
    assert !HasSeparator(d);
    assert !IsSpace(d[0]) && !IsSpace(d[|d| - 1]);
    StripUnchanged(d);
    assert d[0] != '-' && d[0] != '+';
  }

  /** A minus sign before a digit string parses to the negated value. */
  lemma ParseNegative(d: string, n: int)
    requires ValidDigits(d) && n == -(DigitsValue(d) as int)
    ensures ParseInt("-" + d) == Some(n)
  {
    var t := "-" + d;
    assert t[0] == '-' && t[|t| - 1] == d[|d| - 1];
    StripUnchanged(t);
    assert Strip(t) == t;
    assert t[1..] == d;
    assert !HasSeparator(t) by {
      forall k | 0 <= k < |t| ensures !IsSeparator(t[k]) {
        if k > 0 {
          assert t[k] == d[k - 1];
        }
      }
    }
  }

  /** Both directions of `int()`'s grammar: a sign at most, then digits grouped by single underscores, and no separator. */
  lemma ParseIntIff(s: string)
    ensures ParseInt(s).Some? <==>
      && !HasSeparator(s)
      && (|| ValidDigits(Strip(s))
          || (Strip(s) != [] && Strip(s)[0] in "+-" && ValidDigits(Strip(s)[1..])))
  {
  }

  /** A character that is neither a digit, an underscore nor a leading sign makes `int()` fail. */
  lemma ParseIntRefusesChar(s: string, k: int)
    requires 0 <= k < |Strip(s)|
    requires !IsDigit(Strip(s)[k]) && Strip(s)[k] != '_' && !(k == 0 && Strip(s)[k] in "+-")
    ensures ParseInt(s).None?
  {
  }

  /** Two underscores in a row make `int()` fail. */
  lemma ParseIntRefusesDoubled(s: string, k: int)
    requires 0 <= k < |Strip(s)| - 1 && Strip(s)[k] == '_' && Strip(s)[k + 1] == '_'
    ensures ParseInt(s).None?
  {
  }

  /** `int()` refuses the text of a whole float, such as `5.0`, for every value. */
  lemma ParseIntRefusesFloatText(n: nat)
    ensures ParseInt(NatToString(n) + ".0").None?
  {
    var d := NatToString(n);
    var t := d + ".0";
    assert t[0] == d[0] && t[|t| - 1] == '0' && t[|d|] == '.';
    StripUnchanged(t);
    ParseIntRefusesChar(t, |d|);
  }

  /** `int()` refuses the separator U+001C, which `str.strip()` would cut. */
  lemma ParseIntRefusesSeparator()
    ensures ParseInt("\U{1C}5").None?
  {
    assert IsSeparator("\U{1C}5"[0]);
  }

  /** White space around an unsigned number is ignored, as long as it holds no separator. */
  lemma ParseSpaced(s: string, d: string)
    requires Strip(s) == d && ValidDigits(d) && !HasSeparator(s)
    ensures ParseInt(s) == Some(DigitsValue(d))
  {
    assert d[0] != '-' && d[0] != '+';
  }

  lemma RoundTripNegative(n: int)
    requires n < 0
    ensures ParseInt(IntToString(n)) == Some(n)
  {
    var d := NatToString(-n);
    NatToStringDigits(-n);
    ParseNegative(d, n);
    assert IntToString(n) == "-" + d;
  }

  lemma RoundTripNonNegative(n: int)
    requires n >= 0
    ensures ParseInt(IntToString(n)) == Some(n)
  {
    var d := NatToString(n);
    NatToStringDigits(n);
    ParseUnsigned(d);
    assert IntToString(n) == d;
  }

  /** `int(str(n)) == n`: the rendering of a part number reads back as the same number. */
  lemma IntToStringRoundTrip(n: int)
    ensures ParseInt(IntToString(n)) == Some(n)
  {
    if n < 0 {
      RoundTripNegative(n);
    } else {
      RoundTripNonNegative(n);
    }
  }

  /** Two numbers with the same rendering are equal. */
  lemma IntToStringInjective(a: int, b: int)
    requires IntToString(a) == IntToString(b)
    ensures a == b
  {
    IntToStringRoundTrip(a);
    IntToStringRoundTrip(b);
  }
}
