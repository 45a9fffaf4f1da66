/**
 * The string handling the application relies on: decimal rendering of
 * integers (`str(n)`, `"{:03}".format(n)`), `int()` on a run of digits,
 * prefix tests (`startswith`, `__startswith` lookups, `^[67]` regexes) and
 * splitting a line on a separator character.
 */
module Text {

  import opened Common

  predicate IsDigit(c: char) {
    '0' <= c <= '9'
  }

  predicate AllDigits(s: string) {
    forall i :: 0 <= i < |s| ==> IsDigit(s[i])
  }

  function DigitChar(d: int): (c: char)
    requires 0 <= d < 10
    ensures IsDigit(c)
  {
    (('0' as int) + d) as char
  }

  function DigitValue(c: char): int
    requires IsDigit(c)
  {
    (c as int) - ('0' as int)
  }

  /** `str(n)` for n >= 0: decimal digits without leading zeros. */
  function NatToString(n: nat): (s: string)
    ensures |s| >= 1 && AllDigits(s)
    ensures |s| == 1 <==> n < 10
  {
    if n < 10 then [DigitChar(n)] else NatToString(n / 10) + [DigitChar(n % 10)]
  }

  /** `str(i)` for any integer. */
  function IntToString(i: int): string {
    if i < 0 then "-" + NatToString(-i) else NatToString(i)
  }

  /** Value of a run of decimal digits (leading zeros allowed). */
  function DigitsValue(s: string): nat
    requires AllDigits(s)
  {
    if s == [] then 0 else DigitsValue(s[..|s| - 1]) * 10 + DigitValue(s[|s| - 1])
  }

  /** `int(s)` on a string of ASCII digits; None where Python raises ValueError. */
  function ParseNat(s: string): (r: Option<nat>)
    ensures r.Some? <==> s != [] && AllDigits(s)
  {
    if s != [] && AllDigits(s) then Some(DigitsValue(s)) else None
  }

  /** Parsing undoes rendering. */
  lemma {:induction false} ParseNatToString(n: nat)
    ensures ParseNat(NatToString(n)) == Some(n)
  {
    var s := NatToString(n);
    if n >= 10 {
      ParseNatToString(n / 10);
      assert s[..|s| - 1] == NatToString(n / 10);
      assert DigitValue(DigitChar(n % 10)) == n % 10;
    } else {
      assert s == [DigitChar(n)];
      assert s[..0] == [];
      assert DigitsValue(s) == DigitsValue(s[..0]) * 10 + DigitValue(s[0]);
      assert DigitValue(DigitChar(n)) == n;
    }
  }

  /** Left-pad with '0' up to width w. */
  function ZeroPad(s: string, w: nat): (r: string)
    ensures |r| == if |s| < w then w else |s|
    ensures r[|r| - |s|..] == s
    ensures forall i :: 0 <= i < |r| - |s| ==> r[i] == '0'
  {
    if |s| < w then seq(w - |s|, _ => '0') + s else s
  }

  /** `"{:03}".format(n)`: width 3, zero fill placed after the sign. */
  function Format03(n: int): string {
    if n < 0 then "-" + ZeroPad(NatToString(-n), 2) else ZeroPad(NatToString(n), 3)
  }

  lemma {:induction false} DigitsValueLeadingZeros(z: string, s: string)
    requires AllDigits(s) && forall i :: 0 <= i < |z| ==> z[i] == '0'
    ensures AllDigits(z + s) && DigitsValue(z + s) == DigitsValue(s)
    decreases |s|
  {
    if s == [] {
      assert z + s == z;
      ZerosValue(z);
    } else {
      var s' := s[..|s| - 1];
      assert (z + s)[..|z + s| - 1] == z + s';
      DigitsValueLeadingZeros(z, s');
      assert s[..|s| - 1] == s';
    }
  }

  lemma {:induction false} ZerosValue(z: string)
    requires forall i :: 0 <= i < |z| ==> z[i] == '0'
    ensures AllDigits(z) && DigitsValue(z) == 0
  {
    if z != [] {
      ZerosValue(z[..|z| - 1]);
    }
  }

  /** Zero padding does not change the value that `int()` reads back. */
  lemma ZeroPadValue(s: string, w: nat)
    requires s != [] && AllDigits(s)
    ensures ParseNat(ZeroPad(s, w)) == ParseNat(s)
  {
    var r := ZeroPad(s, w);
    var z := r[..|r| - |s|];
    assert r == z + s;
    DigitsValueLeadingZeros(z, s);
    assert r != [] && AllDigits(r);
  }

  /** A non-negative order renders as at least three digits that read back as the order. */
  lemma Format03RoundTrip(n: nat)
    ensures |Format03(n)| >= 3 && ParseNat(Format03(n)) == Some(n)
  {
    ParseNatToString(n);
    ZeroPadValue(NatToString(n), 3);
  }

  predicate StartsWith(s: string, prefix: string) {
    |prefix| <= |s| && s[..|prefix|] == prefix
  }

  /** The account classes in an `^[...]` regex or a `startswith` test on the first character. */
  predicate FirstCharIn(s: string, chars: set<char>) {
    |s| > 0 && s[0] in chars
  }

  /** `s.split(sep)` (also what `csv.reader` does on a line without quotes). */
  function Split(s: string, sep: char): (parts: seq<string>)
    ensures |parts| >= 1
    ensures forall i :: 0 <= i < |parts| ==> sep !in parts[i]
  {
    if s == [] then [""]
    else
      var parts := Split(s[..|s| - 1], sep);
      var c := s[|s| - 1];
      if c == sep then parts + [""]
      else parts[..|parts| - 1] + [parts[|parts| - 1] + [c]]
  }

  /** `sep.join(parts)` */
  function Join(parts: seq<string>, sep: char): string
    requires |parts| >= 1
  {
    if |parts| == 1 then parts[0] else Join(parts[..|parts| - 1], sep) + [sep] + parts[|parts| - 1]
  }

  /** Splitting loses nothing: joining the fields back gives the line. */
  lemma {:induction false} JoinSplit(s: string, sep: char)
    ensures Join(Split(s, sep), sep) == s
  {
    if s != [] {
      var init := s[..|s| - 1];
      var c := s[|s| - 1];
      JoinSplit(init, sep);
      assert s == init + [c];
      if c != sep {
        SplitSnocChar(init, c, sep);
        JoinSnocChar(Split(init, sep), c, sep);
      } else {
        SplitSnocSep(init, sep);
        JoinSnocSep(Split(init, sep), sep);
      }
    }
  }

  /** Joining fields free of the separator and splitting again gives the fields back. */
  lemma {:induction false} SplitJoin(parts: seq<string>, sep: char)
    requires |parts| >= 1
    requires forall i :: 0 <= i < |parts| ==> sep !in parts[i]
    ensures Split(Join(parts, sep), sep) == parts
    decreases |parts|, |parts[|parts| - 1]|, 1
  {
    var n := |parts|;
    if parts[n - 1] == [] {
      if n > 1 {
        SplitJoinEmptyLast(parts, sep);
      }
    } else {
      SplitJoinLastChar(parts, sep);
    }
  }

  /** The step of `SplitJoin` for an empty last field: it comes from a trailing separator. */
  lemma {:induction false} SplitJoinEmptyLast(parts: seq<string>, sep: char)
    requires |parts| >= 2 && parts[|parts| - 1] == []
    requires forall i :: 0 <= i < |parts| ==> sep !in parts[i]
    ensures Split(Join(parts, sep), sep) == parts
    decreases |parts|, 0, 0
  {
    var init := parts[..|parts| - 1];
    SplitJoin(init, sep);
    assert Join(parts, sep) == Join(init, sep) + [sep];
    SplitSnocSep(Join(init, sep), sep);
    assert parts == init + [""];
  }

  /** The step of `SplitJoin` for a non-empty last field: its last character comes last in the line. */
  lemma {:induction false} SplitJoinLastChar(parts: seq<string>, sep: char)
    requires |parts| >= 1 && parts[|parts| - 1] != []
    requires forall i :: 0 <= i < |parts| ==> sep !in parts[i]
    ensures Split(Join(parts, sep), sep) == parts
    decreases |parts|, |parts[|parts| - 1]|, 0
  {
    var n := |parts|;
    var last := parts[n - 1];
    var c := last[|last| - 1];
    var shorter := parts[..n - 1] + [last[..|last| - 1]];
    assert forall i :: 0 <= i < |shorter| ==> sep !in shorter[i] by {
      assert forall c :: c in last[..|last| - 1] ==> c in last;
    }
    assert c != sep by { assert c in last; }
    var extended := shorter[..n - 1] + [shorter[n - 1] + [c]];
    assert extended == parts by {
      assert shorter[n - 1] + [c] == last;
      assert shorter[..n - 1] == parts[..n - 1];
    }
    calc {
      Split(Join(parts, sep), sep);
      Split(Join(extended, sep), sep);
      { JoinSnocChar(shorter, c, sep); }
      Split(Join(shorter, sep) + [c], sep);
      { SplitSnocChar(Join(shorter, sep), c, sep); SplitJoin(shorter, sep); }
      extended;
    }
  }

  /** A separator at the end of the line opens an empty last field. */
  lemma SplitSnocSep(s: string, sep: char)
    ensures Split(s + [sep], sep) == Split(s, sep) + [""]
  {
    assert (s + [sep])[..|s|] == s;
  }

  /** Any other character at the end of the line extends the last field. */
  lemma SplitSnocChar(s: string, c: char, sep: char)
    requires c != sep
    ensures var p := Split(s, sep); Split(s + [c], sep) == p[..|p| - 1] + [p[|p| - 1] + [c]]
  {
    assert (s + [c])[..|s|] == s;
  }

  /** Extending the last field extends the joined line. */
  lemma JoinSnocChar(parts: seq<string>, c: char, sep: char)
    requires |parts| >= 1
    ensures var n := |parts|; Join(parts[..n - 1] + [parts[n - 1] + [c]], sep) == Join(parts, sep) + [c]
  {
    var n := |parts|;
    var parts' := parts[..n - 1] + [parts[n - 1] + [c]];
    if n > 1 {
      assert parts'[..n - 1] == parts[..n - 1];
    }
  }

  /** An empty last field adds a trailing separator to the joined line. */
  lemma JoinSnocSep(parts: seq<string>, sep: char)
    requires |parts| >= 1
    ensures Join(parts + [""], sep) == Join(parts, sep) + [sep]
  {
    assert (parts + [""])[..|parts|] == parts;
  }

  /** The ASCII characters `str.strip()` removes (Python also strips other Unicode spaces). */
  predicate IsSpace(c: char) {
    c == ' ' || c == '\t' || c == '\n' || c == '\r' || c == '\U{B}' || c == '\U{C}'
  }

  /** `s.strip()` */
  function Strip(s: string): (r: string)
    ensures |r| <= |s|
    ensures r != [] ==> !IsSpace(r[0]) && !IsSpace(r[|r| - 1])
    ensures (forall i :: 0 <= i < |s| ==> !IsSpace(s[i])) ==> r == s
    decreases |s|
  {
    if s != [] && IsSpace(s[0]) then Strip(s[1..])
    else if s != [] && IsSpace(s[|s| - 1]) then Strip(s[..|s| - 1])
    else s
  }

  /**
   * `int(s)`: surrounding spaces, an optional sign and decimal digits; None where
   * Python raises ValueError. Digit grouping with `_` is not modelled.
   */
  function ParseInt(s: string): (r: Option<int>)
    ensures s != [] && AllDigits(s) ==> r == Some(DigitsValue(s))
    ensures s == [] ==> r.None?
  {
    var t := Strip(s);
    if t != [] && (t[0] == '+' || t[0] == '-') then
      match ParseNat(t[1..])
      case None => None
      case Some(v) => Some(if t[0] == '-' then -(v as int) else v as int)
    else
      match ParseNat(t)
      case None => None
      case Some(v) => Some(v as int)
  }

  /** `s[lo:hi]` for 0 <= lo <= hi: Python clamps the bounds to the string. */
  function Slice(s: string, lo: nat, hi: nat): (r: string)
    requires lo <= hi
    ensures |r| == (if hi <= |s| then hi - lo else if lo <= |s| then |s| - lo else 0)
    ensures hi <= |s| ==> r == s[lo..hi]
  {
    if hi <= |s| then s[lo..hi] else if lo <= |s| then s[lo..] else []
  }

  /** At most two characters read back as a number below 100. */
  lemma ParseIntTwoChars(s: string)
    requires |s| <= 2
    ensures ParseInt(s).Some? ==> ParseInt(s).value <= 99
  {
    var t := Strip(s);
    if t != [] && (t[0] == '+' || t[0] == '-') {
      if ParseNat(t[1..]).Some? {
        TwoDigitsBelow100(t[1..]);
      }
    } else if ParseNat(t).Some? {
      TwoDigitsBelow100(t);
    }
  }

  lemma TwoDigitsBelow100(s: string)
    requires |s| <= 2 && AllDigits(s)
    ensures DigitsValue(s) <= 99
  {
    if |s| == 2 {
      assert DigitsValue(s) == DigitsValue(s[..1]) * 10 + DigitValue(s[1]);
      assert s[..1][..0] == [];
    } else if |s| == 1 {
      assert s[..0] == [];
    }
  }

  // ---------------------------------------------------------------------------
  // Decimal literals

  function Pow10(k: nat): (r: nat)
    ensures r >= 1
  {
    if k == 0 then 1 else 10 * Pow10(k - 1)
  }

  /** The parts of a plain decimal literal: its sign, the digits before the point and those after it. */
  datatype DecimalText = DecimalText(negative: bool, whole: string, fraction: string)

  /**
   * `decimal.Decimal(s)` on the plain forms: surrounding spaces, an optional sign,
   * then digits with at most one point and at least one digit; None where it
   * raises.
   */
  function ReadDecimal(s: string): (r: Option<DecimalText>)
    ensures r.Some? ==> AllDigits(r.value.whole) && AllDigits(r.value.fraction)
    ensures r.Some? ==> r.value.whole + r.value.fraction != []
    ensures r.Some? ==> '.' !in r.value.whole && '.' !in r.value.fraction
  {
    var t := Strip(s);
    var signed := t != [] && (t[0] == '+' || t[0] == '-');
    ReadParts(signed && t[0] == '-', Split(if signed then t[1..] else t, '.'))
  }

  /** The fields of an unsigned literal split on its point: one or two runs of digits, not both empty. */
  function ReadParts(negative: bool, parts: seq<string>): (r: Option<DecimalText>)
    requires |parts| >= 1 && forall i :: 0 <= i < |parts| ==> '.' !in parts[i]
    ensures r.Some? ==> AllDigits(r.value.whole) && AllDigits(r.value.fraction)
    ensures r.Some? ==> r.value.whole + r.value.fraction != []
    ensures r.Some? ==> '.' !in r.value.whole && '.' !in r.value.fraction
  {
    if |parts| > 2 then None
    else
      var whole := parts[0];
      var fraction := if |parts| == 2 then parts[1] else "";
      if AllDigits(whole) && AllDigits(fraction) && whole + fraction != [] then
        Some(DecimalText(negative, whole, fraction))
      else None
  }

  /** n / d rounded to the nearest integer, a tie going to the even one (the decimal module's default). */
  function RoundHalfEven(n: nat, d: nat): nat
    requires d >= 1
  {
    var q := n / d;
    var rem := n % d;
    if 2 * rem < d then q
    else if 2 * rem > d then q + 1
    else if q % 2 == 0 then q else q + 1
  }

  /** The rounded quotient is within half of d of the exact one, and even on a tie. */
  lemma RoundHalfEvenNearest(n: nat, d: nat)
    requires d >= 1
    ensures var q := RoundHalfEven(n, d);
      && 2 * n <= 2 * (q * d) + d && 2 * (q * d) <= 2 * n + d
      && ((2 * n == 2 * (q * d) + d || 2 * (q * d) == 2 * n + d) ==> q % 2 == 0)
  {
    var q, rem := n / d, n % d;
    var qd := q * d;
    assert n == qd + rem && rem < d;
    assert (q + 1) * d == qd + d;
  }

  /** The value of a decimal literal in hundredths, rounded half-even (`quantize(Decimal('0.01'))`). */
  function Hundredths(d: DecimalText): int
    requires AllDigits(d.whole) && AllDigits(d.fraction)
  {
    var n := DigitsValue(d.whole + d.fraction);
    var k := |d.fraction|;
    var m := if k <= 2 then n * Pow10(2 - k) else RoundHalfEven(n, Pow10(k - 2));
    if d.negative then -m else m
  }

  /** Digits written one after the other: the first run is shifted left by the length of the second. */
  lemma {:induction false} DigitsValueConcat(a: string, b: string)
    requires AllDigits(a) && AllDigits(b)
    ensures AllDigits(a + b) && DigitsValue(a + b) == DigitsValue(a) * Pow10(|b|) + DigitsValue(b)
  {
    if b == [] {
      assert a + b == a;
    } else {
      var b' := b[..|b| - 1];
      assert (a + b)[..|a + b| - 1] == a + b';
      DigitsValueConcat(a, b');
      var va, p, vb, d := DigitsValue(a), Pow10(|b'|), DigitsValue(b'), DigitValue(b[|b| - 1]);
      assert AllDigits(a + b) by {
        forall i | 0 <= i < |a + b| ensures IsDigit((a + b)[i]) {
          if i >= |a| { assert (a + b)[i] == b[i - |a|]; }
        }
      }
      assert DigitsValue(a + b) == DigitsValue(a + b') * 10 + d;
      assert Pow10(|b|) == 10 * p && DigitsValue(b) == vb * 10 + d;
      ShiftStep(va, p, vb, d);
    }
  }

  /** The arithmetic of appending one digit. */
  lemma ShiftStep(va: int, p: int, vb: int, d: int)
    ensures (va * p + vb) * 10 + d == va * (10 * p) + (vb * 10 + d)
  {
  }
}
