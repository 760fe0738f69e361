/**
 * The duration parser of src/utils/parseTimeToMs.ts: a string `<digits><unit>` with unit one of
 * s, m, h, d, w becomes a number of milliseconds; anything else is rejected with
 * "Invalid time format: <input>".
 */
module Duration {

  predicate IsDigit(c: char) { '0' <= c <= '9' }

  /** Every character is an ASCII decimal digit (the class `\d` of a regular expression without the `u` flag). */
  predicate AllDigits(s: string) {
    forall i :: 0 <= i < |s| ==> IsDigit(s[i])
  }

  predicate IsUnit(c: char) {
    c == 's' || c == 'm' || c == 'h' || c == 'd' || c == 'w'
  }

  /** The multiplier table: milliseconds per unit. */
  function Multiplier(u: char): (ms: nat)
    requires IsUnit(u)
    ensures ms > 0
  {
    match u
    case 's' => 1000
    case 'm' => 60 * 1000
    case 'h' => 60 * 60 * 1000
    case 'd' => 24 * 60 * 60 * 1000
    case 'w' => 7 * 24 * 60 * 60 * 1000
  }

  function DigitValue(c: char): (v: nat)
    requires IsDigit(c)
    ensures v < 10
  {
    (c as int - '0' as int) as nat
  }

  function DigitChar(v: nat): (c: char)
    requires v < 10
    ensures IsDigit(c) && DigitValue(c) == v
  {
    ('0' as int + v) as char
  }

  /** `parseInt(s, 10)` on a string of decimal digits, read left to right. */
  function DigitsValue(s: string): nat
    requires AllDigits(s)
  {
    if s == [] then 0 else DigitsValue(s[..|s| - 1]) * 10 + DigitValue(s[|s| - 1])
  }

  /** The decimal representation of `n` without leading zeros (JavaScript `n.toString()`). */
  function NatToString(n: nat): (s: string)
    ensures |s| > 0 && AllDigits(s)
  {
    if n < 10 then [DigitChar(n)] else NatToString(n / 10) + [DigitChar(n % 10)]
  }

  datatype Parsed = Millis(ms: nat) | InvalidFormat(message: string)

  /** The regular expression `^(\d+)([smhdw])$`. */
  predicate Matches(s: string) {
    |s| >= 2 && AllDigits(s[..|s| - 1]) && IsUnit(s[|s| - 1])
  }

  /** parseTimeToMs: the matched digits times the unit's multiplier, or the thrown error's message. */
  function ParseTimeToMs(s: string): (r: Parsed)
    ensures r.InvalidFormat? ==> r.message == "Invalid time format: " + s
  {
    if Matches(s) then Millis(DigitsValue(s[..|s| - 1]) * Multiplier(s[|s| - 1]))
    else InvalidFormat("Invalid time format: " + s)
  }

  lemma {:induction false} DigitsOfNatToString(n: nat)
    ensures DigitsValue(NatToString(n)) == n
  {
    if n >= 10 {
      DigitsOfNatToString(n / 10);
      var s := NatToString(n);
      assert s[..|s| - 1] == NatToString(n / 10);
    }
  }

  /** Round trip: the decimal text of any natural followed by a unit parses to that natural times the unit. */
  lemma ParseRoundTrip(n: nat, u: char)
    requires IsUnit(u)
    ensures ParseTimeToMs(NatToString(n) + [u]) == Millis(n * Multiplier(u))
  {
    var s := NatToString(n) + [u];
    assert s[..|s| - 1] == NatToString(n);
    DigitsOfNatToString(n);
  }

  function Zeros(k: nat): (z: string)
    ensures |z| == k && AllDigits(z)
    ensures forall i :: 0 <= i < k ==> z[i] == '0'
  {
    if k == 0 then [] else Zeros(k - 1) + ['0']
  }

  lemma {:induction false} LeadingZerosIgnored(k: nat, d: string)
    requires AllDigits(d)
    ensures AllDigits(Zeros(k) + d)
    ensures DigitsValue(Zeros(k) + d) == DigitsValue(d)
  {
    if d == [] {
      assert Zeros(k) + d == Zeros(k);
      ZerosValue(k);
    } else {
      var p := d[..|d| - 1];
      LeadingZerosIgnored(k, p);
      assert (Zeros(k) + d)[..|Zeros(k) + d| - 1] == Zeros(k) + p;
    }
  }

  lemma {:induction false} ZerosValue(k: nat)
    ensures DigitsValue(Zeros(k)) == 0
  {
    if k > 0 {
      ZerosValue(k - 1);
      assert Zeros(k)[..k - 1] == Zeros(k - 1);
    }
  }

  /** Leading zeros are accepted and do not change the value ("007s" is 7000). */
  lemma ParseWithLeadingZeros(k: nat, n: nat, u: char)
    requires IsUnit(u)
    ensures ParseTimeToMs(Zeros(k) + NatToString(n) + [u]) == Millis(n * Multiplier(u))
  {
    var d := Zeros(k) + NatToString(n);
    var s := d + [u];
    assert s[..|s| - 1] == d;
    LeadingZerosIgnored(k, NatToString(n));
    DigitsOfNatToString(n);
  }

  lemma LeadingZerosExample()
    ensures ParseTimeToMs("007s") == Millis(7000)
  {
    assert "007s" == Zeros(2) + NatToString(7) + ['s'];
    ParseWithLeadingZeros(2, 7, 's');
  }

  /** A digit string has value zero exactly when every digit is '0'. */
  lemma {:induction false} DigitsValueZero(d: string)
    requires AllDigits(d)
    ensures DigitsValue(d) == 0 <==> forall i :: 0 <= i < |d| ==> d[i] == '0'
  {
    if d != [] {
      var p := d[..|d| - 1];
      DigitsValueZero(p);
      if DigitsValue(d) == 0 {
        assert DigitsValue(p) == 0 && d[|d| - 1] == '0';
        forall i | 0 <= i < |d| ensures d[i] == '0' {
          if i < |d| - 1 { assert d[i] == p[i]; }
        }
      } else if DigitsValue(p) != 0 {
        var i :| 0 <= i < |p| && p[i] != '0';
        assert d[i] == p[i];
      } else {
        assert d[|d| - 1] != '0';
      }
    }
  }

  /** An accepted string yields zero exactly when its digits are all zeros. */
  lemma ParseZero(s: string)
    requires ParseTimeToMs(s).Millis?
    ensures ParseTimeToMs(s).ms == 0 <==> forall i :: 0 <= i < |s| - 1 ==> s[i] == '0'
  {
    var d := s[..|s| - 1];
    DigitsValueZero(d);
    assert forall i :: 0 <= i < |s| - 1 ==> s[i] == d[i];
  }

  /** For a fixed unit the result grows with the number. */
  lemma ParseMonotone(n: nat, m: nat, u: char)
    requires IsUnit(u) && n <= m
    ensures ParseTimeToMs(NatToString(n) + [u]).ms <= ParseTimeToMs(NatToString(m) + [u]).ms
  {
    ParseRoundTrip(n, u);
    ParseRoundTrip(m, u);
    MulMonotone(n, m, Multiplier(u));
  }

  lemma MulMonotone(a: nat, b: nat, c: nat)
    requires a <= b
    ensures a * c <= b * c
  {
  }

  /** The units relate exactly: 1w = 7d, 1d = 24h, 1h = 60m, 1m = 60s. */
  lemma UnitRatios()
    ensures ParseTimeToMs("1w").ms == 7 * ParseTimeToMs("1d").ms
    ensures ParseTimeToMs("1d").ms == 24 * ParseTimeToMs("1h").ms
    ensures ParseTimeToMs("1h").ms == 60 * ParseTimeToMs("1m").ms
    ensures ParseTimeToMs("1m").ms == 60 * ParseTimeToMs("1s").ms
  {
    ParseRoundTrip(1, 'w');
    ParseRoundTrip(1, 'd');
    ParseRoundTrip(1, 'h');
    ParseRoundTrip(1, 'm');
    ParseRoundTrip(1, 's');
  }

  /** Strings outside the pattern are rejected: a two-letter unit, a space, an upper-case unit, no digits, nothing. */
  lemma Rejections()
    ensures ParseTimeToMs("1ms") == InvalidFormat("Invalid time format: 1ms")
    ensures ParseTimeToMs("1 h") == InvalidFormat("Invalid time format: 1 h")
    ensures ParseTimeToMs("1H") == InvalidFormat("Invalid time format: 1H")
    ensures ParseTimeToMs("h") == InvalidFormat("Invalid time format: h")
    ensures ParseTimeToMs("") == InvalidFormat("Invalid time format: ")
  {
    assert !IsDigit("1ms"[1]);
    assert !IsDigit("1 h"[1]);
  }

  /**
   * Conversely, every accepted string is leading zeros, the decimal text of a natural, and a
   * unit, and its value is that natural times the unit.
   */
  lemma ParseAccepted(s: string)
    requires ParseTimeToMs(s).Millis?
    ensures exists k: nat, n: nat, u: char :: IsUnit(u) && s == Zeros(k) + NatToString(n) + [u]
                                     && ParseTimeToMs(s).ms == n * Multiplier(u)
  {
    var d := s[..|s| - 1];
    var u := s[|s| - 1];
    var k, rest := SplitZeros(d);
    var n := DigitsValue(d);
    if rest == [] {
      assert d == Zeros(k - 1) + "0";
      LeadingZerosIgnored(k - 1, "0");
      assert NatToString(0) == "0";
      assert s == Zeros(k - 1) + NatToString(0) + [u];
      assert n == 0;
    } else {
      CanonicalDigits(rest);
      LeadingZerosIgnored(k, rest);
      assert s == Zeros(k) + NatToString(DigitsValue(rest)) + [u];
    }
  }

  /** A non-empty digit string splits into its leading zeros and a rest that is empty or starts with a non-zero digit. */
  lemma {:induction false} SplitZeros(d: string) returns (k: nat, rest: string)
    requires |d| > 0 && AllDigits(d)
    ensures d == Zeros(k) + rest && AllDigits(rest)
    ensures rest == [] ==> k > 0
    ensures rest != [] ==> rest[0] != '0'
  {
    if d[0] != '0' {
      k, rest := 0, d;
    } else if |d| == 1 {
      k, rest := 1, [];
      assert d == Zeros(1);
    } else {
      var k', rest' := SplitZeros(d[1..]);
      k, rest := k' + 1, rest';
      ZerosCons(k');
      assert d == [d[0]] + d[1..];
    }
  }

  lemma {:induction false} ZerosCons(k: nat)
    ensures Zeros(k + 1) == ['0'] + Zeros(k)
  {
    if k > 0 {
      ZerosCons(k - 1);
    }
  }

  /** A digit string without a leading zero is the decimal text of its value. */
  lemma {:induction false} CanonicalDigits(r: string)
    requires |r| > 0 && AllDigits(r) && r[0] != '0'
    ensures NatToString(DigitsValue(r)) == r
  {
    if |r| > 1 {
      var p := r[..|r| - 1];
      CanonicalDigits(p);
      DigitsValueZero(p);
      assert p[0] != '0';
      var v := DigitsValue(r);
      assert v / 10 == DigitsValue(p) && v % 10 == DigitValue(r[|r| - 1]);
      assert DigitChar(DigitValue(r[|r| - 1])) == r[|r| - 1];
      assert r == p + [r[|r| - 1]];
    } else {
      assert DigitChar(DigitValue(r[0])) == r[0];
    }
  }
}
