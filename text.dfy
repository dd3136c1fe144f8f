/** Decimal rendering of whole numbers, as JavaScript's `toString()` and
    `padStart(width, '0')` produce it, together with a parser that inverts it. */
module Text {

  import opened Common

  predicate IsDigit(c: char) { '0' <= c <= '9' }

  predicate AllDigits(s: string) { forall i :: 0 <= i < |s| ==> IsDigit(s[i]) }

  function DigitChar(d: nat): (c: char)
    requires d < 10
    ensures IsDigit(c)
  {
    (48 + d) as char
  }

  function DigitValue(c: char): (d: nat)
    requires IsDigit(c)
    ensures d < 10 && DigitChar(d) == c
  {
    (c as int - 48) as nat
  }

  /** `n.toString()`: the shortest decimal numeral of n. */
  function Digits(n: nat): (s: string)
    ensures 1 <= |s| && AllDigits(s)
    ensures (s[0] == '0') == (n == 0)
    ensures (|s| == 1) == (n < 10)
    decreases n
  {
    if n < 10 then [DigitChar(n)] else Digits(n / 10) + [DigitChar(n % 10)]
  }

  /** The value of a numeral, leading zeros allowed. */
  function ParseNat(s: string): nat
    requires AllDigits(s)
  {
    if s == [] then 0 else 10 * ParseNat(s[..|s| - 1]) + DigitValue(s[|s| - 1])
  }

  lemma {:induction false} ParseDigits(n: nat)
    ensures ParseNat(Digits(n)) == n
    decreases n
  {
    if n >= 10 {
      var s := Digits(n);
      assert s[..|s| - 1] == Digits(n / 10);
      ParseDigits(n / 10);
    }
  }

  /** Below 100 a number has at most two digits. */
  lemma TwoDigitsAtMost(n: nat)
    requires n < 100
    ensures |Digits(n)| <= 2
  {
    if n >= 10 {
      assert |Digits(n / 10)| == 1;
    }
  }

  /** A run of k zero characters. */
  function Zeros(k: nat): (z: string)
    ensures |z| == k && forall i :: 0 <= i < k ==> z[i] == '0'
  {
    if k == 0 then [] else Zeros(k - 1) + ['0']
  }

  /** `s.padStart(width, '0')`: zeros in front of s up to the given width. */
  function ZeroPad(s: string, width: nat): (r: string)
    ensures |r| == Max(|s|, width)
    ensures r[|r| - |s|..] == s
    ensures forall i :: 0 <= i < |r| - |s| ==> r[i] == '0'
  {
    if |s| >= width then s else Zeros(width - |s|) + s
  }

  /** Leading zeros do not change the value of a numeral. */
  lemma {:induction false} ParseLeadingZeros(k: nat, s: string)
    requires AllDigits(s)
    ensures AllDigits(Zeros(k) + s) && ParseNat(Zeros(k) + s) == ParseNat(s)
    decreases |s|
  {
    var t := Zeros(k) + s;
    if s == [] {
      assert t == Zeros(k);
      ZerosParse(k);
    } else {
      assert t[..|t| - 1] == Zeros(k) + s[..|s| - 1];
      ParseLeadingZeros(k, s[..|s| - 1]);
    }
  }

  lemma {:induction false} ZerosParse(k: nat)
    ensures AllDigits(Zeros(k)) && ParseNat(Zeros(k)) == 0
  {
    if k > 0 {
      assert Zeros(k)[..k - 1] == Zeros(k - 1);
      ZerosParse(k - 1);
    }
  }

  /** A zero-padded numeral still denotes its number. */
  lemma ParseZeroPad(s: string, width: nat)
    requires AllDigits(s)
    ensures AllDigits(ZeroPad(s, width)) && ParseNat(ZeroPad(s, width)) == ParseNat(s)
  {
    if |s| < width {
      ParseLeadingZeros(width - |s|, s);
    }
  }

  /** A zero-padded numeral of n is all digits, reads back as n and is at least as wide as asked. */
  lemma PaddedNumeral(n: nat, width: nat)
    ensures var field := ZeroPad(Digits(n), width);
      AllDigits(field) && ParseNat(field) == n && |field| == Max(|Digits(n)|, width)
  {
    ParseDigits(n);
    ParseZeroPad(Digits(n), width);
  }

  /** The position of the first occurrence of c in s. */
  function IndexOf(s: string, c: char): (r: Option<nat>)
    ensures r.Some? ==> r.value < |s| && s[r.value] == c && c !in s[..r.value]
    ensures r.None? ==> c !in s
  {
    if s == [] then None
    else if s[0] == c then Some(0)
    else match IndexOf(s[1..], c)
      case None => None
      case Some(i) => assert s[..i + 1] == [s[0]] + s[1..][..i]; Some(i + 1)
  }

  lemma IndexOfJoin(a: string, c: char, b: string)
    requires c !in a
    ensures IndexOf(a + [c] + b, c) == Some(|a|)
  {
    var s := a + [c] + b;
    assert s[|a|] == c && s[..|a|] == a;
    assert forall i :: 0 <= i < |a| ==> s[i] == a[i];
  }

  /** Reads a clock reading `M:SS` (any number of minute digits, exactly two second digits
      below 60) back into seconds; `None` for anything else. */
  function ParseClock(s: string): Option<nat>
  {
    match IndexOf(s, ':')
    case None => None
    case Some(i) => ClockFields(s[..i], s[i + 1..])
  }

  /** The seconds denoted by the minutes and seconds fields around the colon, if both are
      valid. */
  function ClockFields(mins: string, secs: string): Option<nat>
  {
    if 1 <= |mins| && AllDigits(mins) && |secs| == 2 && AllDigits(secs) && ParseNat(secs) < 60
    then Some(60 * ParseNat(mins) + ParseNat(secs))
    else None
  }

  lemma NoColonInDigits(s: string)
    requires AllDigits(s)
    ensures ':' !in s
  {
    forall i | 0 <= i < |s| ensures s[i] != ':' {
      assert IsDigit(s[i]);
    }
  }

  /** A clock text built from two numerals of known value reads back as their seconds. */
  lemma ParseClockFields(text: string, mins: string, secs: string, m: nat, sec: nat)
    requires text == mins + ":" + secs
    requires 1 <= |mins| && AllDigits(mins) && ParseNat(mins) == m
    requires |secs| == 2 && AllDigits(secs) && ParseNat(secs) == sec && sec < 60
    ensures ParseClock(text) == Some(60 * m + sec)
    ensures IndexOf(text, ':') == Some(|mins|)
  {
    ParseClockJoin(mins, secs);
    NoColonInDigits(mins);
    IndexOfJoin(mins, ':', secs);
  }

  /** Reading back `minutes + ":" + seconds` gives the seconds it was built from. */
  lemma ParseClockJoin(mins: string, secs: string)
    requires 1 <= |mins| && AllDigits(mins)
    requires |secs| == 2 && AllDigits(secs) && ParseNat(secs) < 60
    ensures ParseClock(mins + ":" + secs) == Some(60 * ParseNat(mins) + ParseNat(secs))
  {
    NoColonInDigits(mins);
    IndexOfJoin(mins, ':', secs);
    JoinSlices(mins, ':', secs);
    ParseClockSplit(mins + ":" + secs, mins, secs);
  }

  /** A text whose first colon separates the fields `mins` and `secs` reads as those fields. */
  lemma ParseClockSplit(s: string, mins: string, secs: string)
    requires IndexOf(s, ':') == Some(|mins|) && s[..|mins|] == mins && s[|mins| + 1..] == secs
    ensures ParseClock(s) == ClockFields(mins, secs)
  {
  }

  /** The two sides of a separator can be sliced back out of the joined text. */
  lemma JoinSlices(a: string, c: char, b: string)
    ensures (a + [c] + b)[..|a|] == a && (a + [c] + b)[|a| + 1..] == b
  {
    var s := a + [c] + b;
    assert s[..|a|] == a;
    assert s[|a| + 1..] == b;
  }
}
