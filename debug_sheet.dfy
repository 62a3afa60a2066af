/**
 * The helpers of the sheet dump script `debug-sheet.mjs`: Excel column letters for a column
 * number, and its cell reading, which marks a bare formula instead of dropping it.
 */
module DebugSheet {
  import opened Sheet
  import DriveService

  predicate IsUpper(c: char) { 'A' <= c <= 'Z' }

  /** Excel column letters in bijective base 26: 1 is A, 26 is Z, 27 is AA. */
  function ColLetters(n: int): (s: string)
    ensures n <= 0 <==> s == []
    ensures forall k :: 0 <= k < |s| ==> IsUpper(s[k])
    decreases if n > 0 then n else 0
  {
    if n <= 0 then []
    else ColLetters((n - 1) / 26) + [(65 + (n - 1) % 26) as char]
  }

  /** The column number written by a string of capital letters. */
  function ColNumber(s: string): (n: nat)
    requires forall k :: 0 <= k < |s| ==> IsUpper(s[k])
    ensures n == 0 <==> s == []
    decreases |s|
  {
    if s == [] then 0
    else
      var prefix := s[..|s| - 1];
      assert forall k :: 0 <= k < |prefix| ==> prefix[k] == s[k];
      assert IsUpper(s[|s| - 1]);
      26 * ColNumber(prefix) + (s[|s| - 1] as int - 64)
  }

  /** `colName`: the loop peels off the last letter until nothing is left. */
  method ColName(n: int) returns (s: string)
    ensures s == ColLetters(n)
  {
    s := [];
    var k := n;
    while k > 0
      invariant ColLetters(n) == ColLetters(k) + s
      decreases k
    {
      var r := (k - 1) % 26;
      s := [(65 + r) as char] + s;
      k := (k - 1) / 26;
    }
  }

  /** Reading the letters of a column number gives the number back. */
  lemma {:induction false} ColNumberOfLetters(n: nat)
    ensures ColNumber(ColLetters(n)) == n
    decreases n
  {
    if n > 0 {
      var q := (n - 1) / 26;
      var s := ColLetters(n);
      assert s[..|s| - 1] == ColLetters(q);
      ColNumberOfLetters(q);
    }
  }

  /** Every string of capital letters is the name of exactly the column it denotes. */
  lemma {:induction false} LettersOfColNumber(s: string)
    requires forall k :: 0 <= k < |s| ==> IsUpper(s[k])
    ensures ColLetters(ColNumber(s)) == s
    decreases |s|
  {
    if s != [] {
      var prefix := s[..|s| - 1];
      var p := ColNumber(prefix);
      var d := s[|s| - 1] as int - 64;
      var n := 26 * p + d;
      assert n - 1 == 26 * p + (d - 1) && 0 <= d - 1 < 26;
      assert (n - 1) / 26 == p && (n - 1) % 26 == d - 1;
      LettersOfColNumber(prefix);
      assert s == prefix + [s[|s| - 1]];
    }
  }

  /** Different columns from 1 on get different names. */
  lemma ColLettersInjective(a: nat, b: nat)
    requires ColLetters(a) == ColLetters(b)
    ensures a == b
  {
    ColNumberOfLetters(a);
    ColNumberOfLetters(b);
  }

  /** The last letter comes from `(n - 1) % 26`, the rest names `(n - 1) / 26`. */
  lemma ColLettersLast(n: int)
    requires n >= 1
    ensures var s := ColLetters(n);
      s[|s| - 1] == (65 + (n - 1) % 26) as char && s[..|s| - 1] == ColLetters((n - 1) / 26)
  {
    var s := ColLetters(n);
    assert s[..|s| - 1] == ColLetters((n - 1) / 26);
  }

  lemma ColLettersExamples()
    ensures ColLetters(1) == "A"
    ensures ColLetters(26) == "Z"
    ensures ColLetters(27) == "AA"
  {
    assert ColLetters(1) == ColLetters(0) + ['A'];
    assert ColLetters(27) == ColLetters(1) + ['A'];
  }

  /**
   * `cellValue` of the dump script: like the service's cell reading, except that an object
   * with neither a result nor a text shows as `(formula)`.
   */
  function DebugCellValue(v: RawValue): (c: Cell)
    ensures v.RawObject? && v.result.None? && v.text.None? ==> c == Str("(formula)")
    ensures !(v.RawObject? && v.result.None? && v.text.None?) ==> c == DriveService.CellVal(v)
  {
    match v
    case RawNull => Empty
    case RawNumber(x) => NumberCell(x)
    case RawString(s) => Str(s)
    case RawObject(result, text, _) =>
      if result.Some? then ScalarCell(result.value)
      else if text.Some? then Str(text.value)
      else Str("(formula)")
  }
}
