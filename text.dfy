/** The Python string operations that `main` applies to the value of
    `CUDA_VISIBLE_DEVICES`: `str.split(',')`, `str.strip()`, `str.isnumeric()`
    and `int(...)`, on strings modelled as sequences of code points. */
module Text {
  import opened Wrappers

  // ---------------------------------------------------------------------------
  // str.split(sep)
  // ---------------------------------------------------------------------------

  /** `s.split(sep)` for a one-character separator: the pieces between
      consecutive separators, in order; an empty string gives one empty piece
      and adjacent separators give empty pieces. */
  function Split(s: string, sep: char): (parts: seq<string>)
    ensures |parts| >= 1
    ensures forall i :: 0 <= i < |parts| ==> sep !in parts[i]
  {
    if s == [] then [[]]
    else
      var rest := Split(s[1..], sep);
      if s[0] == sep then [[]] + rest else [[s[0]] + rest[0]] + rest[1..]
  }

  /** `sep.join(parts)`, the inverse of Split. */
  function Join(parts: seq<string>, sep: char): string
    requires |parts| >= 1
  {
    if |parts| == 1 then parts[0] else parts[0] + [sep] + Join(parts[1..], sep)
  }

  /** Joining the pieces back together gives the original string. */
  lemma {:induction false} JoinSplit(s: string, sep: char)
    ensures Join(Split(s, sep), sep) == s
  {
    if s != [] {
      var rest := Split(s[1..], sep);
      JoinSplit(s[1..], sep);
      if s[0] == sep {
        assert Split(s, sep) == [[]] + rest;
        assert Join(Split(s, sep), sep) == [] + [sep] + Join(rest, sep);
      } else if |rest| == 1 {
        assert Split(s, sep) == [[s[0]] + rest[0]];
      } else {
        var parts := Split(s, sep);
        assert parts == [[s[0]] + rest[0]] + rest[1..];
        assert parts[1..] == rest[1..];
        calc {
          Join(parts, sep);
          ([s[0]] + rest[0]) + [sep] + Join(rest[1..], sep);
          [s[0]] + (rest[0] + [sep] + Join(rest[1..], sep));
          [s[0]] + Join(rest, sep);
          [s[0]] + s[1..];
        }
      }
    }
  }

  /** A string without the separator is a single piece. */
  lemma {:induction false} SplitWithoutSeparator(s: string, sep: char)
    requires sep !in s
    ensures Split(s, sep) == [s]
  {
    if s != [] {
      SplitWithoutSeparator(s[1..], sep);
      assert [s[0]] + s[1..] == s;
    }
  }

  /** A separator after a separator-free prefix ends the first piece. */
  lemma {:induction false} SplitAtSeparator(a: string, b: string, sep: char)
    requires sep !in a
    ensures Split(a + [sep] + b, sep) == [a] + Split(b, sep)
  {
    if a == [] {
      assert [] + [sep] + b == [sep] + b;
      assert ([sep] + b)[1..] == b;
    } else {
      SplitAtSeparator(a[1..], b, sep);
      assert (a + [sep] + b)[1..] == a[1..] + [sep] + b;
      assert [a[0]] + a[1..] == a;
    }
  }

  /** Splitting joined separator-free pieces gives the pieces back. */
  lemma {:induction false} SplitJoin(parts: seq<string>, sep: char)
    requires |parts| >= 1
    requires forall i :: 0 <= i < |parts| ==> sep !in parts[i]
    ensures Split(Join(parts, sep), sep) == parts
  {
    if |parts| == 1 {
      SplitWithoutSeparator(parts[0], sep);
    } else {
      SplitJoin(parts[1..], sep);
      SplitAtSeparator(parts[0], Join(parts[1..], sep), sep);
      assert [parts[0]] + parts[1..] == parts;
    }
  }

  // ---------------------------------------------------------------------------
  // str.strip()
  // ---------------------------------------------------------------------------

  /** The code points for which Python's `str.isspace()` holds, which are the
      ones `str.strip()` removes when called without an argument. */
  predicate IsSpace(c: char): (b: bool)
    ensures b ==> !IsNumericChar(c) && c != ','
  {
    c == ' ' || ('\t' <= c <= '\r') || ('\U{1C}' <= c <= '\U{1F}') ||
    c == '\U{85}' || c == '\U{A0}' || c == '\U{1680}' || ('\U{2000}' <= c <= '\U{200A}') ||
    c == '\U{2028}' || c == '\U{2029}' || c == '\U{202F}' || c == '\U{205F}' || c == '\U{3000}'
  }

  predicate AllSpace(s: string) {
    forall i :: 0 <= i < |s| ==> IsSpace(s[i])
  }

  /** `s.lstrip()`: the longest suffix of `s` that does not start with whitespace. */
  function StripLeft(s: string): (r: string)
    ensures |r| <= |s| && r == s[|s| - |r|..]
    ensures forall k :: 0 <= k < |s| - |r| ==> IsSpace(s[k])
    ensures r == [] || !IsSpace(r[0])
  {
    if s != [] && IsSpace(s[0]) then StripLeft(s[1..]) else s
  }

  /** `s.rstrip()`: the longest prefix of `s` that does not end with whitespace. */
  function StripRight(s: string): (r: string)
    ensures |r| <= |s| && r == s[..|r|]
    ensures forall k :: |r| <= k < |s| ==> IsSpace(s[k])
    ensures r == [] || !IsSpace(r[|r| - 1])
  {
    if s != [] && IsSpace(s[|s| - 1]) then StripRight(s[..|s| - 1]) else s
  }

  /** Neither end of `s` is whitespace. */
  predicate Trimmed(s: string) {
    s == [] || (!IsSpace(s[0]) && !IsSpace(s[|s| - 1]))
  }

  /** `s.strip()`: `s` without its leading and trailing whitespace. */
  function Strip(s: string): (r: string)
    ensures |r| <= |s|
    ensures Trimmed(r)
  {
    StripRight(StripLeft(s))
  }

  /** Stripping only removes characters: one that is absent before is absent
      after. */
  lemma StripKeepsOut(s: string, c: char)
    requires c !in s
    ensures c !in Strip(s)
  {
    var l := StripLeft(s);
    assert c !in l by {
      assert l == s[|s| - |l|..];
    }
    assert Strip(s) == l[..|Strip(s)|];
  }

  /** lstrip removes exactly the leading whitespace in front of a part that
      does not start with whitespace. */
  lemma {:induction false} StripLeftPadded(lead: string, rest: string)
    requires AllSpace(lead)
    requires rest == [] || !IsSpace(rest[0])
    ensures StripLeft(lead + rest) == rest
  {
    if lead != [] {
      assert (lead + rest)[1..] == lead[1..] + rest;
      StripLeftPadded(lead[1..], rest);
    }
  }

  /** rstrip removes exactly the trailing whitespace behind a part that does
      not end with whitespace. */
  lemma {:induction false} StripRightPadded(rest: string, trail: string)
    requires AllSpace(trail)
    requires rest == [] || !IsSpace(rest[|rest| - 1])
    ensures StripRight(rest + trail) == rest
  {
    if trail != [] {
      var s := rest + trail;
      assert s[|s| - 1] == trail[|trail| - 1];
      assert s[..|s| - 1] == rest + trail[..|trail| - 1];
      StripRightPadded(rest, trail[..|trail| - 1]);
    } else {
      assert rest + trail == rest;
    }
  }

  /** Stripping is exact: whatever whitespace surrounds a core that has no
      whitespace at either end, Strip returns that core (an all-whitespace
      string strips to the empty string). */
  lemma StripPadded(lead: string, core: string, trail: string)
    requires AllSpace(lead) && AllSpace(trail)
    requires Trimmed(core)
    ensures Strip(lead + core + trail) == core
  {
    if core == [] {
      assert lead + core + trail == (lead + trail) + [];
      assert AllSpace(lead + trail) by {
        forall i | 0 <= i < |lead + trail| ensures IsSpace((lead + trail)[i]) {
          if i >= |lead| { assert (lead + trail)[i] == trail[i - |lead|]; }
        }
      }
      StripLeftPadded(lead + trail, []);
    } else {
      assert lead + core + trail == lead + (core + trail);
      StripLeftPadded(lead, core + trail);
      StripRightPadded(core, trail);
    }
  }

  /** A string without whitespace at either end is left as it is. */
  lemma StripUnpadded(s: string)
    requires Trimmed(s)
    ensures Strip(s) == s
  {
    StripPadded([], s, []);
    assert [] + s + [] == s;
  }

  // ---------------------------------------------------------------------------
  // str.isnumeric() and int()
  // ---------------------------------------------------------------------------

  /** The decimal digits that `int()` accepts. */
  predicate IsDecimalChar(c: char) {
    '0' <= c <= '9'
  }

  /** Code points with a Unicode numeric value that are not decimal digits:
      superscript one, two and three and the vulgar fractions one quarter,
      one half and three quarters. `str.isnumeric()` accepts them and `int()`
      rejects them with ValueError. */
  predicate IsNonDecimalNumericChar(c: char) {
    c == '\U{B2}' || c == '\U{B3}' || c == '\U{B9}' || c == '\U{BC}' || c == '\U{BD}' || c == '\U{BE}'
  }

  predicate IsNumericChar(c: char) {
    IsDecimalChar(c) || IsNonDecimalNumericChar(c)
  }

  /** `s.isnumeric()`: non-empty and every code point numeric. */
  predicate IsNumeric(s: string): (b: bool)
    ensures IsDecimal(s) ==> b
    ensures b ==> |s| > 0 && !IsSpace(s[0]) && !IsSpace(s[|s| - 1])
  {
    |s| > 0 && forall i :: 0 <= i < |s| ==> IsNumericChar(s[i])
  }

  predicate IsDecimal(s: string) {
    |s| > 0 && forall i :: 0 <= i < |s| ==> IsDecimalChar(s[i])
  }

  function DigitValue(c: char): (d: nat)
    requires IsDecimalChar(c)
    ensures d < 10
  {
    (c as int - '0' as int) as nat
  }

  function DigitChar(d: nat): (c: char)
    requires d < 10
    ensures IsDecimalChar(c) && DigitValue(c) == d
  {
    ('0' as int + d) as char
  }

  /** The number a string of decimal digits denotes (leading zeros allowed). */
  function DecimalValue(s: string): nat
    requires forall i :: 0 <= i < |s| ==> IsDecimalChar(s[i])
  {
    if s == [] then 0 else 10 * DecimalValue(s[..|s| - 1]) + DigitValue(s[|s| - 1])
  }

  /** `str(n)` for a natural number: its shortest decimal spelling. */
  function DecimalString(n: nat): (s: string)
    ensures IsDecimal(s)
    ensures |s| > 1 ==> s[0] != '0'
  {
    if n < 10 then [DigitChar(n)] else DecimalString(n / 10) + [DigitChar(n % 10)]
  }

  /** The default of `sys.get_int_max_str_digits()`: the most decimal digits
      `int()` converts, and `str()` produces, before raising ValueError.
      A limit of 0 means no limit, as on interpreters that predate it. */
  const DefaultMaxStrDigits: nat := 4300

  predicate WithinDigitLimit(digits: nat, maxStrDigits: nat) {
    maxStrDigits == 0 || digits <= maxStrDigits
  }

  /** `int(s)` for a string that passed `isnumeric()`, and for any other
      string without a sign, whitespace or underscore, under the interpreter's
      digit limit: the decimal value, or None where Python raises ValueError
      (a character that is not a decimal digit, or too many digits). */
  function ParseInt(s: string, maxStrDigits: nat): (r: Option<nat>)
    ensures r.Some? <==> IsDecimal(s) && WithinDigitLimit(|s|, maxStrDigits)
  {
    if IsDecimal(s) && WithinDigitLimit(|s|, maxStrDigits) then Some(DecimalValue(s)) else None
  }

  /** The decimal spelling of `n` denotes `n`. */
  lemma {:induction false} DecimalValueOfDecimalString(n: nat)
    ensures DecimalValue(DecimalString(n)) == n
  {
    var s := DecimalString(n);
    if n >= 10 {
      DecimalValueOfDecimalString(n / 10);
      assert s[..|s| - 1] == DecimalString(n / 10);
      assert DigitValue(s[|s| - 1]) == n % 10;
    }
  }

  /** `int(str(n)) == n` whenever `str(n)` is within the digit limit (beyond
      it, `str(n)` itself raises ValueError). */
  lemma ParseIntDecimalString(n: nat, maxStrDigits: nat)
    requires WithinDigitLimit(|DecimalString(n)|, maxStrDigits)
    ensures ParseInt(DecimalString(n), maxStrDigits) == Some(n)
  {
    DecimalValueOfDecimalString(n);
  }

  /** A numeric string is rejected by `int()` exactly when it holds a numeric
      code point that is not a decimal digit or has more digits than the
      limit allows. */
  lemma NumericParseFails(s: string, maxStrDigits: nat)
    requires IsNumeric(s)
    ensures ParseInt(s, maxStrDigits).None? <==>
      (exists i :: 0 <= i < |s| && IsNonDecimalNumericChar(s[i])) || !WithinDigitLimit(|s|, maxStrDigits)
  {
  }
}
