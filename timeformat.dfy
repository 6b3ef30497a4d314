/**
 * The timer display: `formatTime` renders a number of seconds as `MM:SS`,
 * with the minutes and the seconds each left-padded with zeros to width 2.
 * `ParseTime` reads such a display back, and `FormatTimeRoundTrip` proves that
 * it recovers every non-negative number of seconds from its display (a left
 * inverse: `ParseTime` also accepts extra leading zeros that `formatTime`
 * never writes).
 */
module TimeFormat {

  datatype Option<T> = None | Some(value: T)

  predicate IsDigit(c: char) {
    '0' <= c <= '9'
  }

  predicate IsDigits(s: string) {
    forall i :: 0 <= i < |s| ==> IsDigit(s[i])
  }

  function DigitValue(c: char): (d: nat)
    requires IsDigit(c)
    ensures d < 10
  {
    c as int - '0' as int
  }

  function DigitChar(d: nat): (c: char)
    requires d < 10
    ensures IsDigit(c) && DigitValue(c) == d
  {
    (d + '0' as int) as char
  }

  /** The number a string of decimal digits denotes; the empty string denotes 0. */
  function ValueOf(s: string): (n: nat)
    requires IsDigits(s)
    decreases |s|
  {
    if s == [] then 0 else 10 * ValueOf(s[..|s| - 1]) + DigitValue(s[|s| - 1])
  }

  /**
   * `String(n)` for a non-negative integer: its shortest decimal spelling.
   * It reads back as `n`, starts with '0' only for 0 itself, and has one
   * digit below 10 and at most two below 100.
   */
  function Decimal(n: nat): (r: string)
    ensures 1 <= |r| && IsDigits(r) && ValueOf(r) == n
    ensures r[0] == '0' ==> n == 0
    ensures |r| == 1 <==> n < 10
    ensures |r| <= 2 <==> n < 100
  {
    if n < 10 then
      [DigitChar(n)]
    else
      var r := Decimal(n / 10) + [DigitChar(n % 10)];
      assert r[..|r| - 1] == Decimal(n / 10);
      r
  }

  function Repeat(c: char, k: nat): (r: string)
    ensures |r| == k && forall i :: 0 <= i < k ==> r[i] == c
  {
    if k == 0 then [] else Repeat(c, k - 1) + [c]
  }

  /**
   * `s.padStart(width, fill)` for a one-character fill: `s` itself when it is
   * already `width` long or longer, otherwise `s` behind as many copies of
   * `fill` as make it exactly `width` long.
   */
  function PadStart(s: string, width: nat, fill: char): (r: string)
    ensures |r| == if |s| >= width then |s| else width
    ensures r[|r| - |s|..] == s
    ensures forall i :: 0 <= i < |r| - |s| ==> r[i] == fill
  {
    if |s| >= width then s else Repeat(fill, width - |s|) + s
  }

  /** `formatTime(sec)` for `sec >= 0`: at least five characters, the third from last a ':'. */
  function FormatTime(sec: nat): (r: string)
    ensures |r| >= 5 && r[|r| - 3] == ':'
  {
    var m := PadStart(Decimal(sec / 60), 2, '0');
    var s := PadStart(Decimal(sec % 60), 2, '0');
    assert |s| == 2;
    m + ":" + s
  }

  /** Reads an `M...M:SS` display back into seconds; `None` when it is not one. */
  function ParseTime(r: string): (t: Option<nat>) {
    if |r| >= 5 && r[|r| - 3] == ':' && IsDigits(r[..|r| - 3]) && IsDigits(r[|r| - 2..])
       && ValueOf(r[|r| - 2..]) < 60
    then Some(60 * ValueOf(r[..|r| - 3]) + ValueOf(r[|r| - 2..]))
    else None
  }

  lemma {:induction false} ValueOfZeros(k: nat)
    ensures IsDigits(Repeat('0', k)) && ValueOf(Repeat('0', k)) == 0
  {
    if k > 0 {
      var z := Repeat('0', k);
      ValueOfZeros(k - 1);
      assert z[..k - 1] == Repeat('0', k - 1);
      assert ValueOf(z) == 10 * ValueOf(z[..k - 1]) + DigitValue(z[k - 1]);
    }
  }

  /** Leading zeros do not change the value of a string of digits. */
  lemma {:induction false} ValueOfZeroPadded(k: nat, s: string)
    requires IsDigits(s)
    ensures IsDigits(Repeat('0', k) + s)
    ensures ValueOf(Repeat('0', k) + s) == ValueOf(s)
    decreases |s|
  {
    var z := Repeat('0', k);
    ValueOfZeros(k);
    if s == [] {
      assert z + s == z;
    } else {
      var t := z + s;
      var init := s[..|s| - 1];
      ValueOfZeroPadded(k, init);
      assert t[..|t| - 1] == z + init;
      assert t[|t| - 1] == s[|s| - 1];
    }
  }

  /**
   * A number padded to width 2 with '0': at least two digits, the padding
   * only where the number itself has fewer, and the same value.
   */
  lemma PaddedDecimal(n: nat)
    ensures var p := PadStart(Decimal(n), 2, '0');
      |p| >= 2 && IsDigits(p) && ValueOf(p) == n
      && (|p| == 2 <==> n < 100)
      && (|p| > 2 ==> p[0] != '0')
  {
    var d := Decimal(n);
    if |d| < 2 {
      ValueOfZeroPadded(2 - |d|, d);
    }
  }

  /**
   * `r` is a display of `mins` minutes and `secs` seconds: a minutes field
   * (everything before the last three characters) that spells `mins` in at
   * least two digits, with a leading zero only as padding, then ':', then a
   * seconds field of exactly two digits that spells `secs`.
   */
  predicate Shows(r: string, mins: nat, secs: nat) {
    |r| >= 5 && r[|r| - 3] == ':'
    && IsDigits(r[..|r| - 3]) && ValueOf(r[..|r| - 3]) == mins
    && (|r| > 5 ==> r[0] != '0')
    && IsDigits(r[|r| - 2..]) && ValueOf(r[|r| - 2..]) == secs
  }

  lemma Joined(m: string, s: string, mins: nat, secs: nat)
    requires |m| >= 2 && IsDigits(m) && ValueOf(m) == mins && (|m| > 2 ==> m[0] != '0')
    requires |s| == 2 && IsDigits(s) && ValueOf(s) == secs
    ensures Shows(m + ":" + s, mins, secs)
    ensures |m + ":" + s| == |m| + 3
  {
    var r := m + ":" + s;
    assert r[..|r| - 3] == m;
    assert r[|r| - 2..] == s;
    assert r[0] == m[0];
  }

  lemma MinutesBelow100(sec: nat)
    ensures sec % 60 < 60 && 60 * (sec / 60) + sec % 60 == sec
    ensures sec / 60 < 100 <==> sec < 6000
  {
  }

  /**
   * The display of `sec` shows `sec / 60` minutes and `sec % 60` seconds,
   * and is five characters long exactly when `sec` is below 6000.
   */
  lemma FormatTimeFields(sec: nat)
    ensures Shows(FormatTime(sec), sec / 60, sec % 60)
    ensures |FormatTime(sec)| == 5 <==> sec < 6000
  {
    var m := PadStart(Decimal(sec / 60), 2, '0');
    var s := PadStart(Decimal(sec % 60), 2, '0');
    MinutesBelow100(sec);
    PaddedDecimal(sec / 60);
    PaddedDecimal(sec % 60);
    Joined(m, s, sec / 60, sec % 60);
  }

  /** Reading a display back gives the seconds it was made from. */
  lemma FormatTimeRoundTrip(sec: nat)
    ensures ParseTime(FormatTime(sec)) == Some(sec)
  {
    FormatTimeFields(sec);
    ParseShownTime(FormatTime(sec), sec);
  }

  lemma ParseShownTime(r: string, sec: nat)
    requires Shows(r, sec / 60, sec % 60)
    ensures ParseTime(r) == Some(sec)
  {
    MinutesBelow100(sec);
    ParseShows(r, sec / 60, sec % 60);
  }

  /** `ParseTime` reads any display of a valid time back as its number of seconds. */
  lemma ParseShows(r: string, mins: nat, secs: nat)
    requires Shows(r, mins, secs) && secs < 60
    ensures ParseTime(r) == Some(60 * mins + secs)
  {
  }

  /** Different numbers of seconds never show the same display. */
  lemma FormatTimeInjective(a: nat, b: nat)
    requires FormatTime(a) == FormatTime(b)
    ensures a == b
  {
    FormatTimeRoundTrip(a);
    FormatTimeRoundTrip(b);
  }
}
