/** The signing timestamp: a `datetime` as integer fields, rendered by
    `strftime("%Y%m%dT%H%M%SZ")` and read back by a parser of that format. */
module Dates {
  import opened Wrappers

  datatype DateTime = DateTime(year: int, month: int, day: int, hour: int, minute: int, second: int)

  predicate LeapYear(y: int) {
    y % 4 == 0 && (y % 100 != 0 || y % 400 == 0)
  }

  function DaysInMonth(y: int, m: int): int {
    if m == 2 then (if LeapYear(y) then 29 else 28)
    else if m == 4 || m == 6 || m == 9 || m == 11 then 30
    else 31
  }

  /** The fields a Python `datetime` can hold. */
  predicate Valid(d: DateTime) {
    1 <= d.year <= 9999 && 1 <= d.month <= 12 && 1 <= d.day <= DaysInMonth(d.year, d.month) &&
    0 <= d.hour < 24 && 0 <= d.minute < 60 && 0 <= d.second < 60
  }

  function Pow10(w: nat): nat {
    if w == 0 then 1 else 10 * Pow10(w - 1)
  }

  predicate Digit(c: char) {
    '0' <= c <= '9'
  }

  /** `n` zero-padded to `w` decimal digits. */
  function Digits(n: nat, w: nat): (s: string)
    requires n < Pow10(w)
    ensures |s| == w
    ensures forall i :: 0 <= i < w ==> Digit(s[i])
  {
    if w == 0 then ""
    else
      var init := Digits(n / 10, w - 1);
      var s := init + [('0' as int + n % 10) as char];
      assert forall i :: 0 <= i < w - 1 ==> s[i] == init[i];
      s
  }

  /** The value of a string of decimal digits, `None` if it holds another character. */
  function Number(s: string): Option<nat> {
    if s == [] then Some(0)
    else match Number(s[..|s| - 1])
      case Some(v) =>
        if Digit(s[|s| - 1]) then Some(10 * v + (s[|s| - 1] as int - '0' as int)) else None
      case None => None
  }

  lemma {:induction false} NumberDigits(n: nat, w: nat)
    requires n < Pow10(w)
    ensures Number(Digits(n, w)) == Some(n)
  {
    if w > 0 {
      NumberDigits(n / 10, w - 1);
      var s := Digits(n, w);
      assert s[..w - 1] == Digits(n / 10, w - 1);
    }
  }

  lemma {:induction false} DigitsNumber(s: string)
    requires Number(s).Some?
    ensures Number(s).value < Pow10(|s|)
    ensures Digits(Number(s).value, |s|) == s
  {
    if s != [] {
      var init := s[..|s| - 1];
      DigitsNumber(init);
      var v := Number(init).value;
      var n := Number(s).value;
      assert n / 10 == v && n % 10 == s[|s| - 1] as int - '0' as int;
      assert init + [s[|s| - 1]] == s;
    }
  }

  /** `date.strftime("%Y%m%dT%H%M%SZ")`. */
  function XDate(d: DateTime): (s: string)
    requires Valid(d)
    ensures |s| == 16 && s[8] == 'T' && s[15] == 'Z'
    ensures s[..8] == Digits(d.year, 4) + Digits(d.month, 2) + Digits(d.day, 2)
    ensures forall i :: 0 <= i < |s| && i != 8 && i != 15 ==> Digit(s[i])
  {
    Digits(d.year, 4) + Digits(d.month, 2) + Digits(d.day, 2) + "T" +
    Digits(d.hour, 2) + Digits(d.minute, 2) + Digits(d.second, 2) + "Z"
  }

  /** Reads a `YYYYMMDDTHHMMSSZ` timestamp; `None` unless it names a valid datetime. */
  function ParseXDate(s: string): Option<DateTime> {
    if |s| != 16 || s[8] != 'T' || s[15] != 'Z' then None
    else match (Number(s[0..4]), Number(s[4..6]), Number(s[6..8]),
                Number(s[9..11]), Number(s[11..13]), Number(s[13..15]))
      case (Some(y), Some(mo), Some(dd), Some(h), Some(mi), Some(se)) =>
        var d := DateTime(y, mo, dd, h, mi, se);
        if Valid(d) then Some(d) else None
      case _ => None
  }

  /** The rendering is read back exactly. */
  lemma ParseXDateInverse(d: DateTime)
    requires Valid(d)
    ensures ParseXDate(XDate(d)) == Some(d)
  {
    var s := XDate(d);
    assert s[0..4] == Digits(d.year, 4);
    assert s[4..6] == Digits(d.month, 2);
    assert s[6..8] == Digits(d.day, 2);
    assert s[9..11] == Digits(d.hour, 2);
    assert s[11..13] == Digits(d.minute, 2);
    assert s[13..15] == Digits(d.second, 2);
    NumberDigits(d.year, 4);
    NumberDigits(d.month, 2);
    NumberDigits(d.day, 2);
    NumberDigits(d.hour, 2);
    NumberDigits(d.minute, 2);
    NumberDigits(d.second, 2);
  }

  /** Every well-formed timestamp is the rendering of the datetime it names. */
  lemma XDateInverse(s: string)
    requires ParseXDate(s).Some?
    ensures Valid(ParseXDate(s).value) && XDate(ParseXDate(s).value) == s
  {
    DigitsNumber(s[0..4]);
    DigitsNumber(s[4..6]);
    DigitsNumber(s[6..8]);
    DigitsNumber(s[9..11]);
    DigitsNumber(s[11..13]);
    DigitsNumber(s[13..15]);
    assert s == s[0..4] + s[4..6] + s[6..8] + [s[8]] + s[9..11] + s[11..13] + s[13..15] + [s[15]];
  }
}
