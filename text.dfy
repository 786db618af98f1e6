/**
 * The JavaScript string built-ins the core relies on: `trim` (as used in
 * blank tests), `toLowerCase` (restricted to ASCII letters), `includes`
 * and `parseInt` with no radix argument.
 */
module Text {

  import opened Types

  /** ECMAScript WhiteSpace and LineTerminator code points, the ones `trim` removes. */
  predicate IsSpace(c: char)
  {
    c == '\t' || c == '\n' || c == '\U{B}' || c == '\U{C}' || c == '\r' || c == ' ' ||
    c == '\U{A0}' || c == '\U{1680}' || ('\U{2000}' <= c <= '\U{200A}') ||
    c == '\U{2028}' || c == '\U{2029}' || c == '\U{202F}' || c == '\U{205F}' ||
    c == '\U{3000}' || c == '\U{FEFF}'
  }

  /** `s.trimStart()`: drops the leading whitespace and nothing else. */
  function TrimStart(s: string): (r: string)
    ensures |r| <= |s| && r == s[|s| - |r|..]
    ensures forall i :: 0 <= i < |s| - |r| ==> IsSpace(s[i])
    ensures r == [] || !IsSpace(r[0])
  {
    if s != [] && IsSpace(s[0]) then TrimStart(s[1..]) else s
  }

  /** `!s.trim()`: the trimmed string is empty, exactly when every character is whitespace. */
  predicate IsBlank(s: string)
    ensures IsBlank(s) <==> forall i :: 0 <= i < |s| ==> IsSpace(s[i])
  {
    var r := TrimStart(s);
    if r != [] then
      assert r[0] == s[|s| - |r|];
      false
    else true
  }

  function LowerChar(c: char): char
  {
    if 'A' <= c <= 'Z' then (c as int + 32) as char else c
  }

  /**
   * `s.toLowerCase()` on ASCII letters: same length, no capital left, each
   * capital replaced by its small letter and every other character kept.
   */
  function Lower(s: string): (r: string)
    ensures |r| == |s|
    ensures forall i :: 0 <= i < |r| ==> !('A' <= r[i] <= 'Z')
    ensures forall i :: 0 <= i < |s| && !('A' <= s[i] <= 'Z') ==> r[i] == s[i]
    ensures forall i :: 0 <= i < |s| && 'A' <= s[i] <= 'Z' ==> r[i] as int == s[i] as int + 32
  {
    seq(|s|, i requires 0 <= i < |s| => LowerChar(s[i]))
  }

  /** Lowercasing twice is lowercasing once. */
  lemma LowerIdempotent(s: string)
    ensures Lower(Lower(s)) == Lower(s)
  {
  }

  /** `needle` occurs in `hay` at position `k`. */
  predicate OccursAt(hay: string, needle: string, k: int)
  {
    0 <= k && k + |needle| <= |hay| && hay[k..k + |needle|] == needle
  }

  /** `hay.includes(needle)`: needle occurs as a contiguous block of hay. */
  predicate Includes(hay: string, needle: string)
    ensures Includes(hay, needle) <==> exists k :: OccursAt(hay, needle, k)
    decreases |hay|
  {
    if needle <= hay then
      assert OccursAt(hay, needle, 0);
      true
    else if hay == [] then
      false
    else
      OccurrenceInTail(hay, needle);
      Includes(hay[1..], needle)
  }

  /** When `needle` is no prefix of `hay`, an occurrence is one in the tail, one place earlier. */
  lemma OccurrenceInTail(hay: string, needle: string)
    requires hay != [] && !(needle <= hay)
    ensures (exists k :: OccursAt(hay, needle, k)) <==> (exists k :: OccursAt(hay[1..], needle, k))
  {
    if exists k :: OccursAt(hay, needle, k) {
      var k :| OccursAt(hay, needle, k);
      assert hay[1..][k - 1..k - 1 + |needle|] == hay[k..k + |needle|];
      assert OccursAt(hay[1..], needle, k - 1);
    }
    if exists k :: OccursAt(hay[1..], needle, k) {
      var k :| OccursAt(hay[1..], needle, k);
      assert hay[1..][k..k + |needle|] == hay[k + 1..k + 1 + |needle|];
      assert OccursAt(hay, needle, k + 1);
    }
  }

  /** The value of a digit character in bases up to 16; 16 for anything else. */
  function DigitOf(c: char): nat
  {
    if '0' <= c <= '9' then c as nat - '0' as nat
    else if 'a' <= c <= 'f' then c as nat - 'a' as nat + 10
    else if 'A' <= c <= 'F' then c as nat - 'A' as nat + 10
    else 16
  }

  predicate IsDigitIn(c: char, radix: nat)
  {
    DigitOf(c) < radix
  }

  /** The longest prefix of `s` made of digits of `radix`. */
  function LeadingDigits(s: string, radix: nat): (r: string)
    ensures r <= s
    ensures forall i :: 0 <= i < |r| ==> IsDigitIn(r[i], radix)
    ensures |r| == |s| || !IsDigitIn(s[|r|], radix)
  {
    if s != [] && IsDigitIn(s[0], radix) then [s[0]] + LeadingDigits(s[1..], radix) else []
  }

  /** The number a digit string denotes, most significant digit first. */
  function ValueOf(digits: string, radix: nat): nat
  {
    if digits == [] then 0
    else ValueOf(digits[..|digits| - 1], radix) * radix + DigitOf(digits[|digits| - 1])
  }

  /**
   * `parseInt(s)` with no radix: skip leading whitespace, read an optional
   * sign, switch to base 16 after a `0x`/`0X` prefix, then read the longest
   * run of digits. None stands for NaN (no digit at all): a blank string, or
   * one whose first visible character is neither a sign nor a digit. Only a
   * minus sign yields a negative number.
   */
  function ParseInt(s: string): (r: Option<int>)
    ensures TrimStart(s) == [] ==> r.None?
    ensures (TrimStart(s) != [] && !IsDigitIn(TrimStart(s)[0], 10) &&
             TrimStart(s)[0] != '-' && TrimStart(s)[0] != '+') ==> r.None?
    ensures r.Some? && r.value < 0 ==> TrimStart(s)[0] == '-'
  {
    var t := TrimStart(s);
    var negative := t != [] && t[0] == '-';
    var unsigned := if t != [] && (t[0] == '-' || t[0] == '+') then t[1..] else t;
    var hex := |unsigned| >= 2 && unsigned[0] == '0' && (unsigned[1] == 'x' || unsigned[1] == 'X');
    var radix := if hex then 16 else 10;
    var digits := LeadingDigits(if hex then unsigned[2..] else unsigned, radix);
    var magnitude: int := ValueOf(digits, radix);
    if digits == [] then None else Option<int>.Some(if negative then -magnitude else magnitude)
  }

  function DigitChar(d: nat): char
    requires d < 10
  {
    ('0' as int + d) as char
  }

  /** `String(n)` for a natural number: its decimal digits. */
  function DecimalString(n: nat): string
  {
    if n < 10 then [DigitChar(n)] else DecimalString(n / 10) + [DigitChar(n % 10)]
  }

  lemma {:induction false} DecimalStringDigits(n: nat)
    ensures |DecimalString(n)| > 0
    ensures forall i :: 0 <= i < |DecimalString(n)| ==> '0' <= DecimalString(n)[i] <= '9'
    ensures ValueOf(DecimalString(n), 10) == n
  {
    var ds := DecimalString(n);
    if n < 10 {
      assert ds[..|ds| - 1] == [];
    } else {
      DecimalStringDigits(n / 10);
      assert ds[..|ds| - 1] == DecimalString(n / 10);
    }
  }

  lemma {:induction false} LeadingDigitsOfDigits(s: string)
    requires forall i :: 0 <= i < |s| ==> '0' <= s[i] <= '9'
    ensures LeadingDigits(s, 10) == s
  {
    if s != [] {
      LeadingDigitsOfDigits(s[1..]);
      assert [s[0]] + s[1..] == s;
    }
  }

  /** A non-empty string of decimal digits is read as the number those digits denote. */
  lemma ParseIntOfDigits(ds: string)
    requires ds != [] && forall i :: 0 <= i < |ds| ==> '0' <= ds[i] <= '9'
    ensures ParseInt(ds) == Some(ValueOf(ds, 10))
  {
    assert !IsSpace(ds[0]);
    assert TrimStart(ds) == ds;
    assert ds[0] != '-' && ds[0] != '+';
    var hex := |ds| >= 2 && ds[0] == '0' && (ds[1] == 'x' || ds[1] == 'X');
    assert !hex by {
      if |ds| >= 2 {
        assert '0' <= ds[1] <= '9';
      }
    }
    LeadingDigitsOfDigits(ds);
  }

  /** `parseInt` reads back what `String` writes for every natural number. */
  lemma ParseIntOfDecimal(n: nat)
    ensures ParseInt(DecimalString(n)) == Some(n)
  {
    DecimalStringDigits(n);
    ParseIntOfDigits(DecimalString(n));
  }

  /** A run of zeros, however long, denotes zero. */
  lemma {:induction false} ValueOfZeros(ds: string, radix: nat)
    requires forall i :: 0 <= i < |ds| ==> ds[i] == '0'
    ensures ValueOf(ds, radix) == 0
  {
    if ds != [] {
      ValueOfZeros(ds[..|ds| - 1], radix);
    }
  }
}
