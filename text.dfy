/**
 * The string primitives the booking engine relies on: ASCII character
 * classes, `trim`, `toLowerCase`, `parseInt` on digit runs, `toString` of
 * a non-negative integer, the zero-padding helper `toTwo`, substring
 * search (`includes`, `startsWith`) and JavaScript's `<` on strings.
 * Only ASCII is modelled: `\s` is the six ASCII white-space characters and
 * lower-casing touches `A`..`Z` only.
 */
module Text {

  predicate IsDigit(c: char) { '0' <= c <= '9' }

  predicate IsSpace(c: char) {
    c == ' ' || c == '\t' || c == '\n' || c == '\r' || c == '\U{000B}' || c == '\U{000C}'
  }

  predicate IsUpper(c: char) { 'A' <= c <= 'Z' }

  predicate IsLetter(c: char) { IsUpper(c) || 'a' <= c <= 'z' }

  /** The characters of `\w`: letters, digits and the underscore. */
  predicate IsWordChar(c: char) { IsLetter(c) || IsDigit(c) || c == '_' }

  predicate AllDigits(s: string) { forall i :: 0 <= i < |s| ==> IsDigit(s[i]) }

  predicate HasNoUpper(s: string) { forall i :: 0 <= i < |s| ==> !IsUpper(s[i]) }

  function LowerChar(c: char): (r: char)
    ensures !IsUpper(r)
    ensures IsSpace(r) <==> IsSpace(c)
    ensures IsDigit(r) <==> IsDigit(c)
    ensures !IsUpper(c) ==> r == c
  {
    if IsUpper(c) then (c as int + 32) as char else c
  }

  /** `toLowerCase` restricted to ASCII. */
  function Lower(s: string): (r: string)
    ensures |r| == |s|
    ensures forall i :: 0 <= i < |s| ==> r[i] == LowerChar(s[i])
    ensures HasNoUpper(r)
  {
    seq(|s|, i requires 0 <= i < |s| => LowerChar(s[i]))
  }

  function TrimStart(s: string): string {
    if |s| > 0 && IsSpace(s[0]) then TrimStart(s[1..]) else s
  }

  function TrimEnd(s: string): string {
    if |s| > 0 && IsSpace(s[|s| - 1]) then TrimEnd(s[..|s| - 1]) else s
  }

  /** Trimming the start leaves a suffix of `s` that does not start with white space. */
  lemma {:induction false} TrimStartIsSuffix(s: string)
    ensures var r := TrimStart(s);
            |r| <= |s| && r == s[|s| - |r|..] && (r == [] || !IsSpace(r[0]))
  {
    if |s| > 0 && IsSpace(s[0]) {
      TrimStartIsSuffix(s[1..]);
    }
  }

  /** What trimming the start drops is white space. */
  lemma {:induction false} TrimStartDropsSpaces(s: string)
    ensures |TrimStart(s)| <= |s|
    ensures forall i :: 0 <= i < |s| - |TrimStart(s)| ==> IsSpace(s[i])
  {
    if |s| > 0 && IsSpace(s[0]) {
      TrimStartDropsSpaces(s[1..]);
      forall i | 1 <= i < |s| - |TrimStart(s)| ensures IsSpace(s[i]) {
        assert s[i] == s[1..][i - 1];
      }
    }
  }

  /** Trimming the end leaves a prefix of `s` that does not end with white space. */
  lemma {:induction false} TrimEndIsPrefix(s: string)
    ensures var r := TrimEnd(s);
            |r| <= |s| && r == s[..|r|] && (r == [] || !IsSpace(r[|r| - 1]))
  {
    if |s| > 0 && IsSpace(s[|s| - 1]) {
      TrimEndIsPrefix(s[..|s| - 1]);
    }
  }

  /** What trimming the end drops is white space. */
  lemma {:induction false} TrimEndDropsSpaces(s: string)
    ensures |TrimEnd(s)| <= |s|
    ensures forall i :: |TrimEnd(s)| <= i < |s| ==> IsSpace(s[i])
  {
    if |s| > 0 && IsSpace(s[|s| - 1]) {
      TrimEndDropsSpaces(s[..|s| - 1]);
      forall i | |TrimEnd(s)| <= i < |s| - 1 ensures IsSpace(s[i]) {
        assert s[i] == s[..|s| - 1][i];
      }
    }
  }

  /** `trim`: white space removed from both ends. */
  function Trim(s: string): string {
    TrimEnd(TrimStart(s))
  }

  /**
   * The trimmed text is the run of `s` that starts after the leading white
   * space; everything before and after that run is white space.
   */
  lemma TrimChars(s: string)
    ensures var a := |s| - |TrimStart(s)|;
            && 0 <= a && a + |Trim(s)| <= |s|
            && (forall i :: 0 <= i < |Trim(s)| ==> Trim(s)[i] == s[a + i])
            && (forall i :: 0 <= i < a ==> IsSpace(s[i]))
            && (forall i :: a + |Trim(s)| <= i < |s| ==> IsSpace(s[i]))
  {
    var t := TrimStart(s);
    var a := |s| - |t|;
    var r := Trim(s);
    TrimStartIsSuffix(s);
    TrimEndIsPrefix(t);
    TrimStartDropsSpaces(s);
    TrimEndDropsSpaces(t);
    assert t == s[a..];
    assert r == t[..|r|];
    forall i | 0 <= i < |r| ensures r[i] == s[a + i] {
      assert r[i] == t[i];
    }
    forall i | a + |r| <= i < |s| ensures IsSpace(s[i]) {
      assert s[i] == t[i - a];
    }
  }

  predicate IsTrimmed(s: string) { s == [] || (!IsSpace(s[0]) && !IsSpace(s[|s| - 1])) }

  /** `trim` leaves no white space at either end. */
  lemma TrimIsTrimmed(s: string)
    ensures IsTrimmed(Trim(s))
  {
    var t := TrimStart(s);
    var r := Trim(s);
    TrimStartIsSuffix(s);
    TrimEndIsPrefix(t);
    if r != [] {
      assert r[0] == t[0];
    }
  }

  lemma TrimOfTrimmed(s: string)
    requires IsTrimmed(s)
    ensures Trim(s) == s
  {
  }

  /** Lower-casing never creates or removes white space, so it commutes with trimming. */
  lemma {:induction false} LowerKeepsTrimmed(s: string)
    requires IsTrimmed(s)
    ensures IsTrimmed(Lower(s))
  {
  }

  lemma LowerOfLower(s: string)
    requires HasNoUpper(s)
    ensures Lower(s) == s
  {
  }

  /** Text already trimmed and lower-case is left as it is by `trim().toLowerCase()`. */
  lemma CleanIsFixed(s: string)
    requires IsTrimmed(s) && HasNoUpper(s)
    ensures Lower(Trim(s)) == s
  {
    TrimOfTrimmed(s);
    LowerOfLower(s);
  }

  lemma NoUpperConcat(a: string, b: string)
    requires HasNoUpper(a) && HasNoUpper(b)
    ensures HasNoUpper(a + b)
  {
    forall i | 0 <= i < |a + b| ensures !IsUpper((a + b)[i]) {
      if i >= |a| {
        assert (a + b)[i] == b[i - |a|];
      }
    }
  }

  /** Length of the run of digits at the front of `s`. */
  function DigitRun(s: string): (n: nat)
    ensures n <= |s|
    ensures AllDigits(s[..n])
    ensures n < |s| ==> !IsDigit(s[n])
  {
    if |s| > 0 && IsDigit(s[0]) then 1 + DigitRun(s[1..]) else 0
  }

  /** Length of the run of white space at the front of `s`. */
  function SpaceRun(s: string): (n: nat)
    ensures n <= |s|
    ensures forall i :: 0 <= i < n ==> IsSpace(s[i])
    ensures n < |s| ==> !IsSpace(s[n])
  {
    if |s| > 0 && IsSpace(s[0]) then 1 + SpaceRun(s[1..]) else 0
  }

  /** Length of the run of `\w` characters at the front of `s`. */
  function WordRun(s: string): (n: nat)
    ensures n <= |s|
    ensures forall i :: 0 <= i < n ==> IsWordChar(s[i])
    ensures n < |s| ==> !IsWordChar(s[n])
  {
    if |s| > 0 && IsWordChar(s[0]) then 1 + WordRun(s[1..]) else 0
  }

  lemma {:induction false} DigitRunOfDigits(p: string, rest: string)
    requires AllDigits(p)
    requires rest == [] || !IsDigit(rest[0])
    ensures DigitRun(p + rest) == |p|
  {
    if p != [] {
      assert (p + rest)[1..] == p[1..] + rest;
      DigitRunOfDigits(p[1..], rest);
    } else {
      assert p + rest == rest;
    }
  }

  predicate AllSpaces(s: string) { forall i :: 0 <= i < |s| ==> IsSpace(s[i]) }

  lemma {:induction false} SpaceRunOfSpaces(p: string, rest: string)
    requires AllSpaces(p)
    requires rest == [] || !IsSpace(rest[0])
    ensures SpaceRun(p + rest) == |p|
  {
    if p != [] {
      assert (p + rest)[1..] == p[1..] + rest;
      SpaceRunOfSpaces(p[1..], rest);
    } else {
      assert p + rest == rest;
    }
  }

  lemma {:induction false} WordRunOfWord(p: string, rest: string)
    requires forall i :: 0 <= i < |p| ==> IsWordChar(p[i])
    requires rest == [] || !IsWordChar(rest[0])
    ensures WordRun(p + rest) == |p|
  {
    if p != [] {
      assert (p + rest)[1..] == p[1..] + rest;
      WordRunOfWord(p[1..], rest);
    } else {
      assert p + rest == rest;
    }
  }

  function DigitValue(c: char): (d: nat)
    requires IsDigit(c)
    ensures d < 10
  {
    c as int - '0' as int
  }

  function DigitChar(d: nat): (c: char)
    requires d < 10
    ensures IsDigit(c) && DigitValue(c) == d
  {
    ('0' as int + d) as char
  }

  /** `parseInt(s, 10)` of a string made only of digits. */
  function DigitsValue(s: string): nat
    requires AllDigits(s)
  {
    if |s| == 0 then 0 else DigitsValue(s[..|s| - 1]) * 10 + DigitValue(s[|s| - 1])
  }

  lemma DigitsValueOfTwo(s: string)
    requires |s| == 2 && AllDigits(s)
    ensures DigitsValue(s) == 10 * DigitValue(s[0]) + DigitValue(s[1])
  {
    var head := s[..1];
    assert head[..0] == [] && head[0] == s[0];
    assert DigitsValue(head) == DigitValue(s[0]);
  }

  /** Decimal text of a non-negative integer (`n.toString()`). */
  function Decimal(n: nat): (r: string)
    ensures |r| >= 1
  {
    if n < 10 then [DigitChar(n)] else Decimal(n / 10) + [DigitChar(n % 10)]
  }

  /** `toString` and `parseInt` are inverse on non-negative integers. */
  lemma {:induction false} DecimalRoundTrip(n: nat)
    ensures AllDigits(Decimal(n))
    ensures DigitsValue(Decimal(n)) == n
    ensures n < 10 <==> |Decimal(n)| == 1
    ensures |Decimal(n)| <= 2 <==> n < 100
  {
    if n >= 10 {
      DecimalRoundTrip(n / 10);
      var d := Decimal(n);
      assert d[..|d| - 1] == Decimal(n / 10);
    }
  }

  /** `toTwo`: the decimal text padded on the left with `0` to two characters. */
  function ToTwo(n: nat): (r: string)
    ensures |r| >= 2
  {
    var d := Decimal(n);
    if |d| < 2 then ['0'] + d else d
  }

  /** For the values the engine formats (below 100), `toTwo` yields exactly two digits that read back as `n`. */
  lemma ToTwoReadsBack(n: nat)
    requires n < 100
    ensures |ToTwo(n)| == 2 && AllDigits(ToTwo(n))
    ensures DigitsValue(ToTwo(n)) == n
  {
    DecimalRoundTrip(n);
    var t := ToTwo(n);
    DigitsValueOfTwo(t);
    if n >= 10 {
      DigitsValueOfTwo(Decimal(n));
    }
  }

  /** Conversely, any two-digit text is the padded form of its own value. */
  lemma ToTwoOfDigits(s: string)
    requires |s| == 2 && AllDigits(s)
    ensures ToTwo(DigitsValue(s)) == s
  {
    DigitsValueOfTwo(s);
    var n := DigitsValue(s);
    ToTwoReadsBack(n);
    DigitsValueOfTwo(ToTwo(n));
  }

  predicate StartsWith(s: string, p: string) { |p| <= |s| && s[..|p|] == p }

  /** `s.includes(t)`. */
  predicate Contains(s: string, t: string)
    decreases |s|
  {
    StartsWith(s, t) || (|s| > 0 && Contains(s[1..], t))
  }

  /** A text never contains a longer one. */
  lemma {:induction false} ShorterNeverContains(s: string, t: string)
    requires |s| < |t|
    ensures !Contains(s, t)
    decreases |s|
  {
    if |s| > 0 {
      ShorterNeverContains(s[1..], t);
    }
  }

  /** JavaScript's `a < b` on strings: lexicographic order on characters. */
  predicate Less(a: string, b: string)
    decreases |a|
  {
    if |a| == 0 then |b| > 0
    else if |b| == 0 then false
    else a[0] < b[0] || (a[0] == b[0] && Less(a[1..], b[1..]))
  }

  /** String order is a strict total order. */
  lemma {:induction false} LessIsStrictTotal(a: string, b: string)
    decreases |a|
    ensures !Less(a, a)
    ensures !(Less(a, b) && Less(b, a))
    ensures a != b ==> Less(a, b) || Less(b, a)
  {
    if |a| > 0 {
      LessIsStrictTotal(a[1..], a[1..]);
      if |b| > 0 {
        LessIsStrictTotal(a[1..], b[1..]);
        if a[0] == b[0] && a != b {
          assert a == [a[0]] + a[1..] && b == [b[0]] + b[1..];
        }
      }
    }
  }

  /** JavaScript's `a <= b` on strings. */
  predicate LessEq(a: string, b: string) { a == b || Less(a, b) }
}
