/** The string formatting that notification messages need: decimal
    rendering of integers and of cent amounts, and `str.upper()` on the
    ASCII status names. */
module Text {

  function DigitChar(d: nat): (c: char)
    requires d < 10
    ensures '0' <= c <= '9' && c as int - '0' as int == d
  {
    ('0' as int + d) as char
  }

  predicate AllDigits(s: string)
  {
    forall i :: 0 <= i < |s| ==> '0' <= s[i] <= '9'
  }

  /** `str(n)` for a non-negative integer. */
  function NatToString(n: nat): (s: string)
    ensures |s| >= 1 && AllDigits(s)
  {
    if n < 10 then [DigitChar(n)] else NatToString(n / 10) + [DigitChar(n % 10)]
  }

  /** `str(i)` for any integer. */
  function IntToString(i: int): (s: string)
    ensures |s| >= 1
  {
    if i < 0 then "-" + NatToString(-i) else NatToString(i)
  }

  /** The number a string of decimal digits denotes (`int(s)`). */
  function DigitsValue(s: string): nat
    requires AllDigits(s)
  {
    if s == [] then 0
    else DigitsValue(s[..|s| - 1]) * 10 + (s[|s| - 1] as int - '0' as int)
  }

  /** Rendering loses nothing: the digits read back as the number. */
  lemma {:induction false} NatToStringRoundTrip(n: nat)
    ensures DigitsValue(NatToString(n)) == n
  {
    if n >= 10 {
      var s := NatToString(n);
      assert s[..|s| - 1] == NatToString(n / 10);
      NatToStringRoundTrip(n / 10);
    }
  }

  /** Two digits, with a leading zero below ten. */
  function TwoDigits(n: nat): (s: string)
    requires n < 100
    ensures |s| == 2 && AllDigits(s)
  {
    [DigitChar(n / 10), DigitChar(n % 10)]
  }

  /** `str(d)` of a `Decimal` with two places, given in cents: `23500` is `"235.00"`. */
  function CentsToString(c: int): (s: string)
    ensures |s| >= 4 && s[|s| - 3] == '.'
    ensures c < 0 <==> s[0] == '-'
  {
    var m := if c < 0 then -c else c;
    (if c < 0 then "-" else "") + NatToString(m / 100) + "." + TwoDigits(m % 100)
  }

  /** The rendering reads back: the digits before the point give the whole
      units, the two after it the cents, and a leading `-` the sign. */
  lemma CentsToStringRoundTrip(c: int)
    ensures var s := CentsToString(c);
            var whole := s[(if c < 0 then 1 else 0)..|s| - 3];
            var cents := s[|s| - 2..];
            && AllDigits(whole) && |whole| >= 1 && AllDigits(cents)
            && (if c < 0 then -1 else 1) * (DigitsValue(whole) * 100 + DigitsValue(cents)) == c
  {
    var m := if c < 0 then -c else c;
    var sign := if c < 0 then "-" else "";
    var w := NatToString(m / 100);
    var f := TwoDigits(m % 100);
    var s := CentsToString(c);
    assert s == sign + w + "." + f;
    assert s[|sign|..|s| - 3] == w;
    assert s[|s| - 2..] == f;
    NatToStringRoundTrip(m / 100);
    var n := m % 100;
    assert f[..1] == [f[0]] && f[..1][..0] == [];
    assert DigitsValue(f[..1]) == n / 10;
    assert DigitsValue(f) == n / 10 * 10 + n % 10;
  }

  function UpperChar(c: char): char
  {
    if 'a' <= c <= 'z' then (c as int - 32) as char else c
  }

  /** `str.upper()` restricted to ASCII, which is all that status values contain. */
  function Upper(s: string): (r: string)
    ensures |r| == |s|
    ensures forall i :: 0 <= i < |s| ==> r[i] == UpperChar(s[i])
  {
    seq(|s|, i requires 0 <= i < |s| => UpperChar(s[i]))
  }
}
