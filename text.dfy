/**
 * The few Python string operations the core relies on, on strings as
 * sequences of code points: `str.strip()`, `str.split(sep)` with an explicit
 * one-character separator, `str.replace(c, '')` and `int(str)`.
 */
module Text {
  import opened Wrappers

  /** Python's `str.isspace()` for one code point. */
  predicate IsSpace(c: char) {
    var n := c as int;
    n == 0x20 || 0x09 <= n <= 0x0D || 0x1C <= n <= 0x1F || n == 0x85 || n == 0xA0
    || n == 0x1680 || 0x2000 <= n <= 0x200A || n == 0x2028 || n == 0x2029
    || n == 0x202F || n == 0x205F || n == 0x3000
  }

  predicate AllSpace(s: string) {
    forall i :: 0 <= i < |s| ==> IsSpace(s[i])
  }

  /** No leading and no trailing white space: what `strip()` leaves unchanged. */
  predicate IsTrimmed(s: string) {
    s == [] || (!IsSpace(s[0]) && !IsSpace(s[|s| - 1]))
  }

  /** Number of leading white-space characters of `s`. */
  function LeadingSpace(s: string): (k: nat)
    ensures k <= |s|
    ensures forall i :: 0 <= i < k ==> IsSpace(s[i])
    ensures k < |s| ==> !IsSpace(s[k])
  {
    if s != [] && IsSpace(s[0]) then 1 + LeadingSpace(s[1..]) else 0
  }

  /** Length of `s` without its trailing white space. */
  function TrailingStart(s: string): (k: nat)
    ensures k <= |s|
    ensures forall i :: k <= i < |s| ==> IsSpace(s[i])
    ensures k > 0 ==> !IsSpace(s[k - 1])
  {
    if s != [] && IsSpace(s[|s| - 1]) then TrailingStart(s[..|s| - 1]) else |s|
  }

  /**
   * `s.strip()`: the longest slice of `s` that starts and ends with a
   * character that is not white space, or "" when `s` is all white space.
   */
  function Strip(s: string): (r: string)
    ensures IsTrimmed(r)
    ensures |r| <= |s|
    ensures r == [] <==> AllSpace(s)
  {
    var i := LeadingSpace(s);
    if i == |s| then []
    else
      var j := TrailingStart(s);
      assert i < j;
      s[i..j]
  }

  /** `strip()` cuts a white-space prefix and a white-space suffix off the text and keeps what lies between. */
  lemma StripSlice(s: string)
    ensures exists i, j :: 0 <= i <= j <= |s| && Strip(s) == s[i..j] && AllSpace(s[..i]) && AllSpace(s[j..])
  {
    var i := LeadingSpace(s);
    if i == |s| {
      assert Strip(s) == s[i..i] && AllSpace(s[..i]) && AllSpace(s[i..]);
    } else {
      var j := TrailingStart(s);
      assert Strip(s) == s[i..j] && AllSpace(s[..i]) && AllSpace(s[j..]);
    }
  }

  lemma StripTrimmed(s: string)
    requires IsTrimmed(s)
    ensures Strip(s) == s
  {
    if s != [] {
      assert LeadingSpace(s) == 0;
      assert TrailingStart(s) == |s|;
    }
  }

  /** Number of occurrences of `c` in `s`. */
  function Count(s: string, c: char): nat {
    if s == [] then 0 else (if s[0] == c then 1 else 0) + Count(s[1..], c)
  }

  /** Python's `sep.join(parts)` for a one-character separator. */
  function Join(parts: seq<string>, sep: char): string {
    if |parts| == 0 then []
    else if |parts| == 1 then parts[0]
    else parts[0] + [sep] + Join(parts[1..], sep)
  }

  /**
   * Python's `s.split(sep)` with an explicit separator: always at least one
   * piece and none containing the separator; `JoinSplit` shows that joining
   * the pieces gives back `s`.
   */
  function Split(s: string, sep: char): (r: seq<string>)
    ensures |r| >= 1
    ensures forall k :: 0 <= k < |r| ==> sep !in r[k]
  {
    if s == [] then [[]]
    else
      var rest := Split(s[1..], sep);
      if s[0] == sep then
        [[]] + rest
      else
        var r := [[s[0]] + rest[0]] + rest[1..];
        assert forall k :: 1 <= k < |r| ==> r[k] == rest[k];
        r
  }

  /** The pieces of `s`, joined again with the separator, give back `s`; there is one more piece than separators. */
  lemma {:induction false} JoinSplit(s: string, sep: char)
    ensures Join(Split(s, sep), sep) == s
    ensures |Split(s, sep)| == Count(s, sep) + 1
  {
    if s != [] {
      JoinSplit(s[1..], sep);
      var rest := Split(s[1..], sep);
      assert s == [s[0]] + s[1..];
      if s[0] == sep {
        assert ([[]] + rest)[1..] == rest;
      } else {
        var r := [[s[0]] + rest[0]] + rest[1..];
        if |rest| > 1 {
          assert r[1..] == rest[1..];
          assert Join(rest, sep) == rest[0] + [sep] + Join(rest[1..], sep);
        }
      }
    }
  }

  lemma JoinThree(a: string, b: string, c: string, sep: char)
    ensures Join([a, b, c], sep) == a + [sep] + b + [sep] + c
  {
    assert [a, b, c][1..] == [b, c];
    assert [b, c][1..] == [c];
    assert Join([b, c], sep) == b + [sep] + c;
    assert Join([a, b, c], sep) == a + [sep] + (b + [sep] + c);
  }

  lemma SplitWithoutSeparator(s: string, sep: char)
    requires sep !in s
    ensures Split(s, sep) == [s]
  {
    CountAbsent(s, sep);
    JoinSplit(s, sep);
  }

  lemma {:induction false} CountAbsent(s: string, c: char)
    requires c !in s
    ensures Count(s, c) == 0
  {
    if s != [] {
      CountAbsent(s[1..], c);
    }
  }

  /** Splitting distributes over a separator: the pieces of `a`, then those of `b`. */
  lemma {:induction false} SplitAppend(a: string, sep: char, b: string)
    ensures Split(a + [sep] + b, sep) == Split(a, sep) + Split(b, sep)
  {
    var s := a + [sep] + b;
    if a == [] {
      assert s[1..] == b;
    } else {
      assert s[1..] == a[1..] + [sep] + b;
      SplitAppend(a[1..], sep, b);
    }
  }

  /** Splitting undoes joining pieces that hold no separator. */
  lemma {:induction false} SplitJoin(parts: seq<string>, sep: char)
    requires |parts| >= 1
    requires forall k :: 0 <= k < |parts| ==> sep !in parts[k]
    ensures Split(Join(parts, sep), sep) == parts
  {
    if |parts| == 1 {
      SplitWithoutSeparator(parts[0], sep);
    } else {
      var rest := Join(parts[1..], sep);
      assert Join(parts, sep) == parts[0] + [sep] + rest;
      SplitJoin(parts[1..], sep);
      SplitAppend(parts[0], sep, rest);
      SplitWithoutSeparator(parts[0], sep);
      assert [parts[0]] + parts[1..] == parts;
    }
  }

  /** The pieces concatenated with nothing between them: Python's `''.join(parts)`. */
  function Concat(parts: seq<string>): string {
    if parts == [] then [] else parts[0] + Concat(parts[1..])
  }

  /**
   * Python's `s.replace(c, '')`: every `c` removed, everything else kept in
   * order, which is `''.join(s.split(c))`.
   */
  function RemoveAll(s: string, c: char): (r: string)
    ensures c !in r
    ensures |r| == |s| - Count(s, c)
    ensures forall x :: x in r ==> x in s
    ensures c !in s ==> r == s
  {
    if s == [] then []
    else
      var rest := RemoveAll(s[1..], c);
      if s[0] == c then rest
      else
        assert forall x :: x in [s[0]] + rest ==> x in s by {
          forall x | x in [s[0]] + rest ensures x in s {
            if x != s[0] { assert x in s[1..]; }
          }
        }
        [s[0]] + rest
  }

  /** Removing every `c` is joining the pieces of `split(c)` with nothing between them. */
  lemma {:induction false} RemoveAllJoinsPieces(s: string, c: char)
    ensures RemoveAll(s, c) == Concat(Split(s, c))
  {
    if s != [] {
      RemoveAllJoinsPieces(s[1..], c);
      var pieces := Split(s[1..], c);
      assert Concat(pieces) == pieces[0] + Concat(pieces[1..]);
      if s[0] == c {
        assert Split(s, c)[1..] == pieces;
      } else {
        assert Split(s, c)[1..] == pieces[1..];
      }
    }
  }

  // ---------------------------------------------------------------------
  // int(text)
  // ---------------------------------------------------------------------

  predicate IsDigit(c: char) { '0' <= c <= '9' }

  function DigitValue(c: char): nat
    requires IsDigit(c)
  {
    (c as int) - ('0' as int)
  }

  /**
   * The digit part Python's `int()` accepts in base 10 (ASCII digits only):
   * digits, with single underscores allowed between two digits.
   */
  predicate IsDigitRun(b: string) {
    && |b| > 0
    && IsDigit(b[0]) && IsDigit(b[|b| - 1])
    && (forall i :: 0 <= i < |b| ==> IsDigit(b[i]) || b[i] == '_')
    && NoDoubleUnderscore(b)
  }

  /** No two adjacent underscores. */
  predicate NoDoubleUnderscore(b: string) {
    |b| < 2 || ((b[0] != '_' || b[1] != '_') && NoDoubleUnderscore(b[1..]))
  }

  lemma {:induction false} DigitsHaveNoDoubleUnderscore(ds: string)
    requires forall i :: 0 <= i < |ds| ==> IsDigit(ds[i])
    ensures NoDoubleUnderscore(ds)
  {
    if |ds| >= 2 {
      assert IsDigit(ds[0]);
      DigitsHaveNoDoubleUnderscore(ds[1..]);
    }
  }

  /** The value of a string of decimal digits, most significant first. */
  function DigitsValue(ds: string): nat
    requires forall i :: 0 <= i < |ds| ==> IsDigit(ds[i])
  {
    if ds == [] then 0 else 10 * DigitsValue(ds[..|ds| - 1]) + DigitValue(ds[|ds| - 1])
  }

  /**
   * Python's `int(text)`: surrounding white space is ignored, then an
   * optional sign, then a digit run; anything else raises, modelled as None.
   */
  function ParseInt(text: string): Option<int> {
    ParseSigned(Strip(text))
  }

  /** An optional sign followed by a digit run, nothing else. */
  function ParseSigned(t: string): Option<int> {
    if t == [] then None
    else
      var body := if t[0] == '-' || t[0] == '+' then t[1..] else t;
      match ParseDigitRun(body)
      case None => None
      case Some(v) => Some(if t[0] == '-' then -v else v)
  }

  function ParseDigitRun(body: string): Option<int> {
    if !IsDigitRun(body) then None
    else
      var digits := RemoveAll(body, '_');
      assert forall i :: 0 <= i < |digits| ==> IsDigit(digits[i]) by {
        forall i | 0 <= i < |digits| ensures IsDigit(digits[i]) {
          assert digits[i] in body;
        }
      }
      Some(DigitsValue(digits))
  }

  /** Decimal digits of a natural number, most significant first, no leading zeros. */
  function ShowNat(n: nat): (r: string)
    ensures |r| >= 1
    ensures forall i :: 0 <= i < |r| ==> IsDigit(r[i])
  {
    if n < 10 then [('0' as int + n) as char]
    else ShowNat(n / 10) + [('0' as int + n % 10) as char]
  }

  /** What `str(n)` prints for an integer. */
  function ShowInt(n: int): string {
    if n < 0 then ['-'] + ShowNat(-n) else ShowNat(n)
  }

  lemma {:induction false} ShowNatValue(n: nat)
    ensures DigitsValue(ShowNat(n)) == n
  {
    var r := ShowNat(n);
    if n >= 10 {
      ShowNatValue(n / 10);
      assert r[..|r| - 1] == ShowNat(n / 10);
    }
  }

  lemma NoUnderscoreInDigits(ds: string)
    requires forall i :: 0 <= i < |ds| ==> IsDigit(ds[i])
    ensures RemoveAll(ds, '_') == ds
  {
    assert '_' !in ds by {
      forall i | 0 <= i < |ds| ensures ds[i] != '_' { assert IsDigit(ds[i]); }
    }
  }

  /** `int()` of a plain digit string, as `str()` prints a natural number. */
  lemma ParseDigits(ds: string)
    requires |ds| >= 1 && forall i :: 0 <= i < |ds| ==> IsDigit(ds[i])
    ensures IsDigitRun(ds) && RemoveAll(ds, '_') == ds
    ensures ParseDigitRun(ds) == Some(DigitsValue(ds))
  {
    NoUnderscoreInDigits(ds);
    DigitsHaveNoDoubleUnderscore(ds);
  }

  lemma ParsePlainDigits(ds: string)
    requires |ds| >= 1 && forall i :: 0 <= i < |ds| ==> IsDigit(ds[i])
    ensures ParseInt(ds) == Some(DigitsValue(ds))
  {
    assert IsTrimmed(ds) by { assert IsDigit(ds[0]) && IsDigit(ds[|ds| - 1]); }
    StripTrimmed(ds);
    UnsignedBody(ds);
    ParseDigits(ds);
  }

  lemma UnsignedBody(t: string)
    requires |t| >= 1 && IsDigit(t[0])
    ensures ParseSigned(t) == ParseDigitRun(t)
  {
  }

  lemma ParseNegatedDigits(ds: string)
    requires |ds| >= 1 && forall i :: 0 <= i < |ds| ==> IsDigit(ds[i])
    ensures ParseInt(['-'] + ds) == Some(0 - DigitsValue(ds))
  {
    StripSigned(ds);
    SignedDigits(ds);
  }

  /** The sign applies to the value of the digits. */
  lemma SignedDigits(ds: string)
    requires |ds| >= 1 && forall i :: 0 <= i < |ds| ==> IsDigit(ds[i])
    ensures ParseSigned(['-'] + ds) == Some(0 - DigitsValue(ds))
  {
    assert (['-'] + ds)[1..] == ds;
    DigitRunValue(ds);
  }

  lemma DigitRunValue(ds: string)
    requires |ds| >= 1 && forall i :: 0 <= i < |ds| ==> IsDigit(ds[i])
    ensures ParseDigitRun(ds) == Some(DigitsValue(ds))
  {
    ParseDigits(ds);
  }


  lemma StripSigned(ds: string)
    requires |ds| >= 1 && forall i :: 0 <= i < |ds| ==> IsDigit(ds[i])
    ensures Strip(['-'] + ds) == ['-'] + ds
  {
    var s := ['-'] + ds;
    assert s[|s| - 1] == ds[|ds| - 1];
    assert IsDigit(ds[|ds| - 1]);
    StripTrimmed(s);
  }

  /** `int(str(n)) == n`: printing an integer and parsing it back is the identity. */
  lemma ParseShowInt(n: int)
    ensures ParseInt(ShowInt(n)) == Some(n)
  {
    if n < 0 {
      var ds := ShowNat(-n);
      ShowNatValue(-n);
      assert DigitsValue(ds) == -n;
      ParseNegatedDigits(ds);
      assert ShowInt(n) == ['-'] + ds;
    } else {
      ShowNatValue(n);
      ParsePlainDigits(ShowNat(n));
    }
  }
}
