/** String helpers shared by the frontend and the backend model:
    lower-casing (ASCII only), substring search as JavaScript's
    `String.prototype.includes` performs it, and decimal rendering of a
    status code as a template literal performs it. */
module Text {

  predicate IsUpper(c: char) { 'A' <= c <= 'Z' }

  /** Lower-cases one character; characters outside `A`..`Z` are kept. */
  function LowerChar(c: char): (r: char)
    ensures !IsUpper(r)
    ensures r == c || (IsUpper(c) && r as int == c as int + 32)
  {
    if IsUpper(c) then (c as int + 32) as char else c
  }

  /** Lower-cases a whole string, character by character. */
  function Lower(s: string): (r: string)
    ensures |r| == |s|
    ensures forall i :: 0 <= i < |s| ==> r[i] == LowerChar(s[i])
  {
    seq(|s|, i requires 0 <= i < |s| => LowerChar(s[i]))
  }

  /** `needle` occurs in `hay` starting at offset `i`. */
  predicate OccursAt(hay: string, needle: string, i: int)
  {
    0 <= i && i + |needle| <= |hay| && hay[i..i + |needle|] == needle
  }

  /** `hay.includes(needle)`: some offset carries the needle. */
  predicate Contains(hay: string, needle: string)
  {
    exists i :: 0 <= i <= |hay| - |needle| && OccursAt(hay, needle, i)
  }

  function DigitChar(d: nat): (c: char)
    requires d < 10
    ensures '0' <= c <= '9'
  {
    ('0' as int + d) as char
  }

  function DigitValue(c: char): (d: nat)
    requires '0' <= c <= '9'
    ensures d < 10 && DigitChar(d) == c
  {
    c as int - '0' as int
  }

  /** Decimal digits of `n` with no leading zero, as `${n}` writes a
      non-negative integer. */
  function Decimal(n: nat): (r: string)
    ensures 1 <= |r|
    ensures forall i :: 0 <= i < |r| ==> '0' <= r[i] <= '9'
    ensures r[0] != '0' || r == "0"
  {
    if n < 10 then [DigitChar(n)] else Decimal(n / 10) + [DigitChar(n % 10)]
  }

  /** Reads back a string of decimal digits. */
  function ParseDecimal(s: string): nat
    requires forall i :: 0 <= i < |s| ==> '0' <= s[i] <= '9'
  {
    if s == [] then 0 else ParseDecimal(s[..|s| - 1]) * 10 + DigitValue(s[|s| - 1])
  }

  /** Reading one more digit multiplies by ten and adds it. */
  lemma ParseDecimalSnoc(p: string, d: char)
    requires forall i :: 0 <= i < |p| ==> '0' <= p[i] <= '9'
    requires '0' <= d <= '9'
    ensures ParseDecimal(p + [d]) == ParseDecimal(p) * 10 + DigitValue(d)
  {
    assert (p + [d])[..|p + [d]| - 1] == p;
  }

  /** A number is its last decimal digit plus ten times the rest. */
  lemma Reassemble(n: nat, hi: nat, lo: nat)
    requires hi == n / 10 && lo == n % 10
    ensures hi * 10 + lo == n
  {
  }

  /** Rendering a number in decimal loses nothing. */
  lemma {:induction false} DecimalRoundTrip(n: nat)
    ensures ParseDecimal(Decimal(n)) == n
  {
    if n < 10 {
      ParseDecimalSnoc([], DigitChar(n));
      assert [] + [DigitChar(n)] == Decimal(n);
    } else {
      DecimalRoundTrip(n / 10);
      var p, d := Decimal(n / 10), DigitChar(n % 10);
      assert Decimal(n) == p + [d];
      ParseDecimalSnoc(p, d);
      Reassemble(n, ParseDecimal(p), DigitValue(d));
    }
  }
}
