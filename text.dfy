/**
 * The JavaScript string operations the report code relies on, over `seq<char>`:
 * `\d` and `\s` classes, `trim`, `startsWith`, `includes`, the two `replace`
 * forms used on year and month labels, integer-to-text conversion, `String(n)`
 * for numbers, and `parseFloat`.
 */
module Text {
  import opened Wrappers

  /** `\d` in a JavaScript regular expression: an ASCII decimal digit. */
  predicate IsDigit(c: char) { '0' <= c <= '9' }

  predicate AllDigits(s: string) { forall i :: 0 <= i < |s| ==> IsDigit(s[i]) }

  function DigitValue(c: char): (d: nat)
    requires IsDigit(c)
    ensures d < 10
  {
    c as int - '0' as int
  }

  function DigitChar(d: nat): (c: char)
    requires d < 10
    ensures IsDigit(c) && DigitValue(c) == d
  {
    ('0' as int + d) as char
  }

  /** JavaScript white space and line terminators: what `\s` matches and what `trim()` removes. */
  predicate IsSpace(c: char) {
    var k := c as int;
    k == 0x09 || k == 0x0A || k == 0x0B || k == 0x0C || k == 0x0D || k == 0x20 || k == 0xA0 ||
    k == 0x1680 || (0x2000 <= k <= 0x200A) || k == 0x2028 || k == 0x2029 || k == 0x202F ||
    k == 0x205F || k == 0x3000 || k == 0xFEFF
  }

  /** Leading white space removed. */
  function TrimStart(s: string): (r: string)
    ensures |r| <= |s|
    decreases |s|
  {
    if |s| > 0 && IsSpace(s[0]) then TrimStart(s[1..]) else s
  }

  /** `TrimStart` removes a prefix of white space and stops at the first other character. */
  lemma {:induction false} TrimStartSpec(s: string)
    ensures var r := TrimStart(s);
      r == s[|s| - |r|..] &&
      (forall i :: 0 <= i < |s| - |r| ==> IsSpace(s[i])) &&
      (r == [] || !IsSpace(r[0]))
    decreases |s|
  {
    if |s| > 0 && IsSpace(s[0]) {
      TrimStartSpec(s[1..]);
    }
  }

  /** Trailing white space removed. */
  function TrimEnd(s: string): (r: string)
    ensures |r| <= |s|
    decreases |s|
  {
    if |s| > 0 && IsSpace(s[|s| - 1]) then TrimEnd(s[..|s| - 1]) else s
  }

  /** `TrimEnd` removes a suffix of white space and stops at the last other character. */
  lemma {:induction false} TrimEndSpec(s: string)
    ensures var r := TrimEnd(s);
      r == s[..|r|] &&
      (forall i :: |r| <= i < |s| ==> IsSpace(s[i])) &&
      (r == [] || !IsSpace(r[|r| - 1]))
    decreases |s|
  {
    if |s| > 0 && IsSpace(s[|s| - 1]) {
      TrimEndSpec(s[..|s| - 1]);
    }
  }

  /** `String.prototype.trim`. */
  function Trim(s: string): (r: string)
    ensures |r| <= |s|
  {
    var t := TrimStart(s);
    if t == [] then [] else TrimEnd(t)
  }

  /**
   * `trim` removes white space from both ends and nothing else: the result is empty exactly
   * when the text is all white space, neither of its ends is white space, and a text
   * without white space at either end comes back unchanged.
   */
  lemma TrimSpec(s: string)
    ensures var r := Trim(s);
      (r == [] || (!IsSpace(r[0]) && !IsSpace(r[|r| - 1]))) &&
      (r == [] <==> forall i :: 0 <= i < |s| ==> IsSpace(s[i])) &&
      ((|s| == 0 || (!IsSpace(s[0]) && !IsSpace(s[|s| - 1]))) ==> r == s)
  {
    TrimStartSpec(s);
    var t := TrimStart(s);
    if t != [] {
      assert t[0] == s[|s| - |t|];
      TrimEndSpec(t);
      var r := TrimEnd(t);
      if r != [] {
        assert r[0] == t[0];
      }
      if |s| > 0 && !IsSpace(s[0]) && !IsSpace(s[|s| - 1]) {
        assert t == s;
      }
    }
  }

  predicate StartsWith(s: string, prefix: string) {
    |prefix| <= |s| && s[..|prefix|] == prefix
  }

  /** `s.includes(t)`. */
  predicate Contains(s: string, t: string)
    decreases |s|
  {
    StartsWith(s, t) || (|s| > 0 && Contains(s[1..], t))
  }

  /** `s.slice(k)` for `k >= 0`: empty when `s` is shorter than `k`. */
  function Drop(s: string, k: nat): (r: string)
    ensures |r| == if |s| <= k then 0 else |s| - k
    ensures k <= |s| ==> s == s[..k] + r
  {
    if |s| <= k then [] else s[k..]
  }

  /** `s.replace(/[年\s]/g, '')`: every year marker and every white-space character removed. */
  function RemoveYearMarks(s: string): (r: string)
    ensures |r| <= |s|
    ensures forall i :: 0 <= i < |r| ==> r[i] != '年' && !IsSpace(r[i])
    ensures forall c :: c in r ==> c in s
    ensures (forall i :: 0 <= i < |s| ==> s[i] != '年' && !IsSpace(s[i])) ==> r == s
    decreases |s|
  {
    if s == [] then []
    else
      var rest := RemoveYearMarks(s[1..]);
      if s[0] == '年' || IsSpace(s[0]) then rest else [s[0]] + rest
  }

  /** The position of the first `c` in `s`. */
  function FirstIndex(s: string, c: char): (k: nat)
    requires c in s
    ensures k < |s| && s[k] == c && c !in s[..k]
    decreases |s|
  {
    if s[0] == c then 0
    else
      var k := FirstIndex(s[1..], c) + 1;
      assert s[..k] == [s[0]] + s[1..][..k - 1];
      k
  }

  /** `s.replace(c, '')` with a one-character pattern: only the first occurrence is removed. */
  function RemoveFirst(s: string, c: char): (r: string)
    ensures c !in s ==> r == s
    ensures c in s ==> r == s[..FirstIndex(s, c)] + s[FirstIndex(s, c) + 1..]
  {
    if c in s then s[..FirstIndex(s, c)] + s[FirstIndex(s, c) + 1..] else s
  }

  /** The number a string of decimal digits denotes (`parseInt` on such a string). */
  function DigitsValue(s: string): nat
    requires AllDigits(s)
    decreases |s|
  {
    if s == [] then 0 else DigitsValue(s[..|s| - 1]) * 10 + DigitValue(s[|s| - 1])
  }

  /** Decimal text of a natural number, without leading zeros. */
  function NatToString(n: nat): (s: string)
    ensures |s| >= 1 && AllDigits(s)
    ensures s[0] == '0' ==> n == 0
    decreases n
  {
    if n < 10 then [DigitChar(n)] else NatToString(n / 10) + [DigitChar(n % 10)]
  }

  /** Reading the decimal text of `n` back gives `n`. */
  lemma {:induction false} NatToStringValue(n: nat)
    ensures DigitsValue(NatToString(n)) == n
    decreases n
  {
    if n >= 10 {
      var t := NatToString(n / 10);
      var s := t + [DigitChar(n % 10)];
      assert s[..|s| - 1] == t;
      NatToStringValue(n / 10);
    }
  }

  /** Decimal text of an integer, as template literals print it. */
  function IntToString(i: int): (s: string)
    ensures |s| >= 1
    ensures i >= 0 ==> AllDigits(s)
    ensures i < 0 ==> s[0] == '-' && AllDigits(s[1..])
  {
    if i < 0 then "-" + NatToString(-i) else NatToString(i)
  }

  /** Reading the digits of the decimal text of `i` back gives `|i|`. */
  lemma IntToStringValue(i: int)
    ensures i >= 0 ==> DigitsValue(IntToString(i)) == i
    ensures i < 0 ==> DigitsValue(IntToString(i)[1..]) == -i
  {
    if i < 0 {
      NatToStringValue(-i);
      assert IntToString(i)[1..] == NatToString(-i);
    } else {
      NatToStringValue(i);
    }
  }

  lemma NatToStringInjective(a: nat, b: nat)
    requires NatToString(a) == NatToString(b)
    ensures a == b
  {
    NatToStringValue(a);
    NatToStringValue(b);
  }

  /** The decimal text of an integer holds only digits and a minus sign. */
  lemma IntToStringChars(i: int)
    ensures forall k :: 0 <= k < |IntToString(i)| ==> IsDigit(IntToString(i)[k]) || IntToString(i)[k] == '-'
  {
    var s := IntToString(i);
    if i < 0 {
      forall k | 1 <= k < |s|
        ensures IsDigit(s[k])
      {
        assert s[k] == s[1..][k - 1];
      }
    }
  }

  lemma IntToStringInjective(a: int, b: int)
    requires IntToString(a) == IntToString(b)
    ensures a == b
  {
    var s := IntToString(a);
    IntToStringValue(a);
    IntToStringValue(b);
    if a < 0 && b < 0 {
      assert DigitsValue(s[1..]) == -a && DigitsValue(s[1..]) == -b;
    }
  }

  /** The first marker in `a + [c] + r` is the one after `a` when `a` holds none. */
  lemma FirstMark(a: string, c: char, r: string)
    requires c !in a
    ensures c in a + [c] + r && FirstIndex(a + [c] + r, c) == |a|
  {
    var s := a + [c] + r;
    assert s[|a|] == c;
    assert s[..|a|] == a;
  }

  /** Text split at the first occurrence of a marker that neither prefix contains. */
  lemma SplitAtMark(a1: string, r1: string, a2: string, r2: string, c: char)
    requires c !in a1 && c !in a2
    requires a1 + [c] + r1 == a2 + [c] + r2
    ensures a1 == a2 && r1 == r2
  {
    var s := a1 + [c] + r1;
    FirstMark(a1, c, r1);
    FirstMark(a2, c, r2);
    assert a1 == s[..|a1|] && a2 == (a2 + [c] + r2)[..|a2|];
    assert r1 == s[|a1| + 1..] && r2 == (a2 + [c] + r2)[|a2| + 1..];
  }

  /** At most `k` decimal digits of a fraction in [0, 1), stopping once nothing is left. */
  function FractionDigits(f: real, k: nat): (s: string)
    requires 0.0 <= f < 1.0
    ensures AllDigits(s) && |s| <= k
    ensures f == 0.0 ==> s == []
    decreases k
  {
    if f == 0.0 || k == 0 then []
    else
      var d := (f * 10.0).Floor;
      [DigitChar(d)] + FractionDigits(f * 10.0 - d as real, k - 1)
  }

  /** Text made of digits, a minus sign and a decimal point only. */
  predicate IsNumeral(s: string) {
    forall i :: 0 <= i < |s| ==> IsDigit(s[i]) || s[i] == '-' || s[i] == '.'
  }

  function UnsignedText(x: real): (s: string)
    requires x >= 0.0
    ensures |s| >= 1
  {
    var whole := x.Floor;
    var frac := x - whole as real;
    NatToString(whole) + (if frac == 0.0 then "" else "." + FractionDigits(frac, 16))
  }

  /** `String(x)` for a number: sign, integer digits and up to sixteen fraction digits. */
  function NumberText(x: real): (s: string)
    ensures |s| >= 1
  {
    if x < 0.0 then "-" + UnsignedText(-x) else UnsignedText(x)
  }

  lemma NumeralConcat(a: string, b: string)
    requires IsNumeral(a) && IsNumeral(b)
    ensures IsNumeral(a + b)
  {
    assert forall i :: |a| <= i < |a + b| ==> (a + b)[i] == b[i - |a|];
  }

  lemma UnsignedTextIsNumeral(x: real)
    requires x >= 0.0
    ensures IsNumeral(UnsignedText(x))
  {
    var whole := x.Floor;
    var frac := x - whole as real;
    if frac != 0.0 {
      NumeralConcat(".", FractionDigits(frac, 16));
      NumeralConcat(NatToString(whole), "." + FractionDigits(frac, 16));
    }
  }

  /** The text of a number holds only digits, a minus sign and a decimal point. */
  lemma NumberTextIsNumeral(x: real)
    ensures IsNumeral(NumberText(x))
  {
    if x < 0.0 {
      UnsignedTextIsNumeral(-x);
      NumeralConcat("-", UnsignedText(-x));
    } else {
      UnsignedTextIsNumeral(x);
    }
  }

  /** The longest prefix of `s` made of digits. */
  function DigitRun(s: string): (r: string)
    ensures AllDigits(r) && |r| <= |s|
    decreases |s|
  {
    if s != [] && IsDigit(s[0]) then [s[0]] + DigitRun(s[1..]) else []
  }

  /** `DigitRun` is a prefix of `s` and stops at the end or at a character that is not a digit. */
  lemma {:induction false} DigitRunSpec(s: string)
    ensures var r := DigitRun(s); StartsWith(s, r) && (|r| == |s| || !IsDigit(s[|r|]))
    decreases |s|
  {
    if s != [] && IsDigit(s[0]) {
      DigitRunSpec(s[1..]);
      var r := DigitRun(s);
      assert r == [s[0]] + DigitRun(s[1..]);
      assert s == [s[0]] + s[1..];
    }
  }

  /** The value of the digits after a decimal point. */
  function FractionValue(ds: string): (v: real)
    requires AllDigits(ds)
    ensures 0.0 <= v <= 1.0
    decreases |ds|
  {
    if ds == [] then 0.0 else (DigitValue(ds[0]) as real + FractionValue(ds[1..])) / 10.0
  }

  /** The value of the decimal `whole.frac`. */
  function DecimalValue(whole: string, frac: string): real
    requires AllDigits(whole) && AllDigits(frac)
  {
    DigitsValue(whole) as real + FractionValue(frac)
  }

  /** The digits after a leading decimal point of `after`, if it starts with one. */
  function FractionRun(after: string): (r: string)
    ensures AllDigits(r)
    ensures r != [] ==> |after| > 1 && after[0] == '.' && r[0] == after[1]
  {
    if |after| > 0 && after[0] == '.' then DigitRun(after[1..]) else []
  }

  /** The number at the start of `u` (no sign): digits, then optionally a point and digits. */
  function UnsignedValue(u: string): (r: Option<real>)
  {
    var whole := DigitRun(u);
    var frac := FractionRun(u[|whole|..]);
    if whole == [] && frac == [] then None else Some(DecimalValue(whole, frac))
  }

  /** An unsigned number is read exactly when `u` starts with a digit or with a point and a digit. */
  lemma UnsignedValueDefined(u: string)
    ensures UnsignedValue(u).Some? <==> (|u| > 0 && IsDigit(u[0])) || (|u| > 1 && u[0] == '.' && IsDigit(u[1]))
  {
    var whole := DigitRun(u);
    DigitRunSpec(u);
    if whole != [] {
      assert whole[0] == u[0];
    }
  }

  /**
   * `parseFloat`: leading white space skipped, then an optional sign and the longest
   * prefix that reads as a decimal number. `None` stands for NaN.
   */
  function ParseFloat(s: string): Option<real> {
    var t := TrimStart(s);
    if |t| > 0 && t[0] == '-' then
      match UnsignedValue(t[1..])
      case Some(v) => Some(-v)
      case None => None
    else if |t| > 0 && t[0] == '+' then UnsignedValue(t[1..])
    else UnsignedValue(t)
  }

  /** `parseFloat(s) || 0`: NaN reads as zero. */
  function ParseOrZero(s: string): real {
    ParseFloat(s).GetOr(0.0)
  }

  lemma {:induction false} DigitRunOfDigits(s: string, rest: string)
    requires AllDigits(s)
    requires rest == [] || !IsDigit(rest[0])
    ensures DigitRun(s + rest) == s
    decreases |s|
  {
    if s != [] {
      assert (s + rest)[1..] == s[1..] + rest;
      DigitRunOfDigits(s[1..], rest);
    }
  }

  /** A string of digits parses to the number it denotes. */
  lemma ParseInteger(s: string)
    requires |s| > 0 && AllDigits(s)
    ensures ParseFloat(s) == Some(DigitsValue(s) as real)
  {
    assert TrimStart(s) == s;
    assert s + [] == s;
    DigitRunOfDigits(s, []);
    assert FractionRun(s[|s|..]) == [];
    assert UnsignedValue(s) == Some(DecimalValue(s, []));
    assert DecimalValue(s, []) == DigitsValue(s) as real;
  }

  lemma UnsignedDecimal(whole: string, frac: string)
    requires |whole| > 0 && AllDigits(whole) && AllDigits(frac)
    ensures UnsignedValue(whole + ("." + frac)) == Some(DecimalValue(whole, frac))
  {
    var tail := "." + frac;
    var s := whole + tail;
    DigitRunOfDigits(whole, tail);
    assert s[|whole|..] == tail;
    assert tail[1..] == frac + [];
    DigitRunOfDigits(frac, []);
    assert FractionRun(tail) == frac;
  }

  /** A decimal such as `28.7` parses to its value. */
  lemma ParseDecimal(whole: string, frac: string)
    requires |whole| > 0 && AllDigits(whole) && AllDigits(frac)
    ensures ParseFloat(whole + "." + frac) == Some(DecimalValue(whole, frac))
  {
    var s := whole + ("." + frac);
    assert whole + "." + frac == s;
    assert s[0] == whole[0];
    assert TrimStart(s) == s;
    UnsignedDecimal(whole, frac);
  }

  /** Pieces joined back with `sep` between them. */
  function Join(parts: seq<string>, sep: char): string
    decreases |parts|
  {
    if parts == [] then ""
    else if |parts| == 1 then parts[0]
    else parts[0] + [sep] + Join(parts[1..], sep)
  }

  /** `s.split(sep)` for a one-character separator. */
  function Split(s: string, sep: char): (parts: seq<string>)
    ensures |parts| >= 1
    ensures forall i :: 0 <= i < |parts| ==> sep !in parts[i]
    decreases |s|
  {
    if sep !in s then [s]
    else
      var k := FirstIndex(s, sep);
      [s[..k]] + Split(s[k + 1..], sep)
  }

  /** Splitting and joining again gives back the text; there is one piece more than separators. */
  lemma {:induction false} SplitJoin(s: string, sep: char)
    ensures Join(Split(s, sep), sep) == s
    ensures |Split(s, sep)| == multiset(s)[sep] + 1
    decreases |s|
  {
    if sep in s {
      var k := FirstIndex(s, sep);
      SplitJoin(s[k + 1..], sep);
      var parts := Split(s, sep);
      assert parts[1..] == Split(s[k + 1..], sep);
      assert s == s[..k] + [sep] + s[k + 1..];
      assert multiset(s) == multiset(s[..k]) + multiset([sep]) + multiset(s[k + 1..]);
      assert multiset(s[..k])[sep] == 0;
    } else {
      assert multiset(s)[sep] == 0;
    }
  }
}
