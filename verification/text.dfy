/**
 * Character and number formatting shared by the two "m:ss" time labels
 * (`format_time` in the player controls and `FormatDuration` on a thumbnail)
 * and by the case-insensitive matching of categories and file extensions.
 */
module Text {
  import opened Wrappers
  import opened Sequences

  // ---------------------------------------------------------------------
  // Letter case (ASCII letters; every other character is its own case)

  function LowerChar(c: char): char {
    if 'A' <= c <= 'Z' then (c as int + 32) as char else c
  }

  function UpperChar(c: char): char {
    if 'a' <= c <= 'z' then (c as int - 32) as char else c
  }

  /** `str.lower()` / `string.ToLower()` restricted to ASCII letters. */
  function ToLower(s: string): string {
    seq(|s|, i requires 0 <= i < |s| => LowerChar(s[i]))
  }

  predicate IsLowerWord(key: string) {
    forall i :: 0 <= i < |key| ==> 'a' <= key[i] <= 'z'
  }

  /** `s` spells `key` letter by letter, each letter in either case. */
  predicate SpellsIgnoringCase(s: string, key: string) {
    |s| == |key| && forall i :: 0 <= i < |s| ==> s[i] == key[i] || s[i] == UpperChar(key[i])
  }

  /** Lower-casing `s` yields the lower-case word `key` exactly when `s` spells
      `key` in any mixture of upper and lower case. */
  lemma ToLowerMatchesKey(s: string, key: string)
    requires IsLowerWord(key)
    ensures ToLower(s) == key <==> SpellsIgnoringCase(s, key)
  {
    if ToLower(s) == key {
      forall i | 0 <= i < |s|
        ensures s[i] == key[i] || s[i] == UpperChar(key[i])
      {
        assert LowerChar(s[i]) == key[i];
      }
    }
    if SpellsIgnoringCase(s, key) {
      forall i | 0 <= i < |s|
        ensures ToLower(s)[i] == key[i]
      {
        assert LowerChar(s[i]) == key[i];
      }
    }
  }

  // ---------------------------------------------------------------------
  // Decimal numerals

  predicate IsDigit(c: char) {
    '0' <= c <= '9'
  }

  predicate AllDigits(s: string) {
    forall i :: 0 <= i < |s| ==> IsDigit(s[i])
  }

  function DigitChar(d: nat): char
    requires d < 10
  {
    ('0' as int + d) as char
  }

  /** The decimal numeral of `n`, without leading zeros (`str(n)` / `n.ToString()`). */
  function NatToDecimal(n: nat): string {
    if n < 10 then [DigitChar(n)] else NatToDecimal(n / 10) + [DigitChar(n % 10)]
  }

  /** The decimal numeral of `i`, with a leading '-' when negative. */
  function IntToDecimal(i: int): string {
    if i < 0 then "-" + NatToDecimal(-i) else NatToDecimal(i)
  }

  /** `n` printed with at least two digits (Python's `:02d`, C#'s `:D2`). */
  function Pad2(n: nat): string {
    if n < 10 then "0" + NatToDecimal(n) else NatToDecimal(n)
  }

  /** The "minutes:seconds" label both time displays produce. */
  function ClockLabel(minutes: int, seconds: nat): string {
    IntToDecimal(minutes) + ":" + Pad2(seconds)
  }

  // ---------------------------------------------------------------------
  // Reading a label back

  function DigitsValue(s: string): nat
    requires AllDigits(s)
  {
    if s == [] then 0
    else DigitsValue(s[..|s| - 1]) * 10 + (s[|s| - 1] as int - '0' as int)
  }

  function ParseInt(s: string): Option<int> {
    if |s| >= 2 && s[0] == '-' && AllDigits(s[1..]) then Some(0 - DigitsValue(s[1..]))
    else if |s| >= 1 && AllDigits(s) then Some(DigitsValue(s))
    else None
  }

  /** Reads "m:ss": an integer, a colon, then exactly two digits. */
  function ParseClock(s: string): Option<(int, nat)> {
    var colon := IndexOf(s, ':');
    if colon == |s| then None
    else match ParseInt(s[..colon])
      case None => None
      case Some(m) =>
        if |s| - colon == 3 && AllDigits(s[colon + 1..]) then Some((m, DigitsValue(s[colon + 1..])))
        else None
  }

  lemma {:induction false} NatToDecimalReads(n: nat)
    ensures |NatToDecimal(n)| >= 1
    ensures AllDigits(NatToDecimal(n))
    ensures DigitsValue(NatToDecimal(n)) == n
  {
    var s := NatToDecimal(n);
    if n >= 10 {
      NatToDecimalReads(n / 10);
      assert s[..|s| - 1] == NatToDecimal(n / 10);
    }
  }

  lemma IntToDecimalReads(i: int)
    ensures ParseInt(IntToDecimal(i)) == Some(i)
    ensures ':' !in IntToDecimal(i)
  {
    var digits := NatToDecimal(if i < 0 then -i else i);
    NatToDecimalReads(if i < 0 then -i else i);
    if i < 0 {
      assert IntToDecimal(i)[1..] == digits;
    } else {
      assert IntToDecimal(i)[0] == digits[0];
    }
  }

  lemma Pad2Reads(n: nat)
    requires n < 100
    ensures |Pad2(n)| == 2
    ensures AllDigits(Pad2(n))
    ensures DigitsValue(Pad2(n)) == n
  {
    NatToDecimalReads(n);
    if n < 10 {
      assert Pad2(n)[..1] == "0";
    } else {
      NatToDecimalReads(n / 10);
    }
  }

  /** Every label with seconds below 100 reads back as the minutes and seconds
      it was made from; in particular the seconds field is exactly two digits. */
  lemma ClockLabelRoundTrip(minutes: int, seconds: nat)
    requires seconds < 100
    ensures ParseClock(ClockLabel(minutes, seconds)) == Some((minutes, seconds))
  {
    var m := IntToDecimal(minutes);
    var shown := ClockLabel(minutes, seconds);
    IntToDecimalReads(minutes);
    Pad2Reads(seconds);
    assert shown == m + [':'] + Pad2(seconds);
    assert shown[|m|] == ':';
    assert shown[..|m|] == m;
    var colon := IndexOf(shown, ':');
    assert colon == |m|;
    assert shown[..colon] == m;
    assert shown[colon + 1..] == Pad2(seconds);
  }
}
