/**
 * `MetricModule._parse_score`: strip the LM's reply, take the leftmost match of
 * the regular expression `-?\d+\.\d+|-?\d+`, convert it with `float`, and
 * reject anything outside [0, 1].  Every failure is a `ValueError` in the
 * source; here the two causes are kept apart.  Numbers are exact decimals
 * (binary floating-point rounding is not modelled).
 */
module ScoreParser {
  import opened Wrappers
  import opened Text

  datatype ParseError = NoNumber | OutOfRange(score: real)

  predicate AllDigits(t: string) {
    forall k :: 0 <= k < |t| ==> IsDigit(t[k])
  }

  /** `t` matches `\d+` as a whole. */
  predicate IsDigits(t: string) {
    |t| > 0 && AllDigits(t)
  }

  /** `t` matches `\d+\.\d+|\d+` as a whole. */
  predicate IsUnsigned(t: string) {
    IsDigits(t) || exists p :: 0 < p < |t| && t[p] == '.' && IsDigits(t[..p]) && IsDigits(t[p + 1..])
  }

  /** `t` matches `-?\d+\.\d+|-?\d+` as a whole: a number literal of the regular expression. */
  predicate IsNumberText(t: string) {
    IsUnsigned(t) || (|t| > 0 && t[0] == '-' && IsUnsigned(t[1..]))
  }

  /** The end of the run of digits that starts at `i` (greedy `\d*`). */
  function DigitRun(s: string, i: nat): (j: nat)
    requires i <= |s|
    ensures i <= j <= |s|
    ensures forall k :: i <= k < j ==> IsDigit(s[k])
    ensures j == |s| || !IsDigit(s[j])
    decreases |s| - i
  {
    if i < |s| && IsDigit(s[i]) then DigitRun(s, i + 1) else i
  }

  /**
   * What the regular expression matches when the engine tries position `i`:
   * the first alternative (`-?\d+\.\d+`, greedy) if it succeeds, else the
   * second (`-?\d+`); the end of the match, or None.
   */
  function MatchAt(s: string, i: nat): (r: Option<nat>)
    requires i <= |s|
    ensures r.Some? ==> i < r.value <= |s|
  {
    var d := if i < |s| && s[i] == '-' then i + 1 else i;
    var e := DigitRun(s, d);
    if e == d then None
    else if e + 1 < |s| && s[e] == '.' && IsDigit(s[e + 1]) then Some(DigitRun(s, e + 1))
    else Some(e)
  }

  /** `re.search`: the leftmost position at or after `i` where the expression matches, and the match's end. */
  function Search(s: string, i: nat): (r: Option<(nat, nat)>)
    requires i <= |s|
    ensures r.Some? ==> i <= r.value.0 < r.value.1 <= |s| && MatchAt(s, r.value.0) == Some(r.value.1)
    ensures r.Some? ==> forall p :: i <= p < r.value.0 ==> MatchAt(s, p).None?
    ensures r.None? ==> forall p :: i <= p <= |s| ==> MatchAt(s, p).None?
    decreases |s| - i
  {
    if i == |s| then None
    else match MatchAt(s, i)
      case Some(j) => Some((i, j))
      case None => Search(s, i + 1)
  }

  function DigitValue(c: char): nat {
    if IsDigit(c) then c as int - '0' as int else 0
  }

  /** The value of a string of decimal digits. */
  function DigitsValue(ds: string): nat {
    if ds == [] then 0 else DigitsValue(ds[..|ds| - 1]) * 10 + DigitValue(ds[|ds| - 1])
  }

  function Pow10(n: nat): (r: nat)
    ensures r > 0
  {
    if n == 0 then 1 else 10 * Pow10(n - 1)
  }

  /** The value of the digits after a decimal point. */
  function FractionValue(f: string): (r: real)
    ensures 0.0 <= r < 1.0
  {
    DigitsBelowPow10(f);
    DivBelowOne(DigitsValue(f), Pow10(|f|));
    DigitsValue(f) as real / Pow10(|f|) as real
  }

  lemma DivBelowOne(a: nat, b: nat)
    requires a < b
    ensures 0.0 <= a as real / b as real < 1.0
  {
  }

  /** `float(t)` for a number literal `t`, exactly: sign, whole part, and the fraction after the point. */
  function NumberValue(t: string): real {
    var negative := |t| > 0 && t[0] == '-';
    var u := if negative then t[1..] else t;
    var p := DigitRun(u, 0);
    var fraction := if p < |u| then u[p + 1..] else [];
    var magnitude := DigitsValue(u[..p]) as real + FractionValue(fraction);
    if negative then -magnitude else magnitude
  }

  /** `_parse_score(response)`. */
  function ParseScore(response: string): (r: Result<real, ParseError>)
    ensures r.Success? ==> 0.0 <= r.value <= 1.0
    ensures r.Failure? && r.error.OutOfRange? ==> r.error.score < 0.0 || r.error.score > 1.0
  {
    ScoreIn(Strip(response))
  }

  /** The part of `_parse_score` after `strip`: search, convert, range check. */
  function ScoreIn(cleaned: string): (r: Result<real, ParseError>)
    ensures r.Success? ==> 0.0 <= r.value <= 1.0
    ensures r.Failure? && r.error.OutOfRange? ==> r.error.score < 0.0 || r.error.score > 1.0
  {
    match Search(cleaned, 0)
    case None => Failure(NoNumber)
    case Some((b, e)) =>
      var score := NumberValue(cleaned[b..e]);
      if score < 0.0 || score > 1.0 then Failure(OutOfRange(score)) else Success(score)
  }

  // ---------------------------------------------------------------------------
  // The match is the longest number literal at its position

  lemma DigitRunCovers(s: string, d: nat, k: nat)
    requires d <= k <= |s|
    requires forall m :: d <= m < k ==> IsDigit(s[m])
    ensures k <= DigitRun(s, d)
  {
  }

  lemma DigitRunStops(s: string, d: nat, k: nat)
    requires d <= k < |s| && !IsDigit(s[k])
    ensures DigitRun(s, d) <= k
  {
  }

  /** An unsigned literal starts with a digit (so never with `-`). */
  lemma UnsignedStartsWithDigit(t: string)
    requires IsUnsigned(t)
    ensures |t| > 0 && IsDigit(t[0])
  {
    if !IsDigits(t) {
      var p := PointOf(t);
      assert t[..p][0] == t[0];
    }
  }

  /** A run of digits, read as a slice, matches `\d+`. */
  lemma RunIsDigits(s: string, a: nat, b: nat)
    requires a < b <= |s| && forall m :: a <= m < b ==> IsDigit(s[m])
    ensures IsDigits(s[a..b])
  {
    assert forall k :: 0 <= k < b - a ==> s[a..b][k] == s[a + k];
  }

  /** The unsigned part of a match, from its first digit, matches `\d+\.\d+|\d+`. */
  lemma MatchedUnsigned(s: string, d: nat)
    requires d <= |s| && DigitRun(s, d) > d
    ensures var e := DigitRun(s, d);
            var j := if e + 1 < |s| && s[e] == '.' && IsDigit(s[e + 1]) then DigitRun(s, e + 1) else e;
            IsUnsigned(s[d..j])
  {
    var e := DigitRun(s, d);
    RunIsDigits(s, d, e);
    if e + 1 < |s| && s[e] == '.' && IsDigit(s[e + 1]) {
      var j := DigitRun(s, e + 1);
      RunIsDigits(s, e + 1, j);
      var u := s[d..j];
      var p := e - d;
      assert u[..p] == s[d..e];
      assert u[p + 1..] == s[e + 1..j];
      assert u[p] == '.';
    }
  }

  /** What MatchAt returns is a number literal. */
  lemma MatchAtIsNumber(s: string, i: nat)
    requires i <= |s| && MatchAt(s, i).Some?
    ensures IsNumberText(s[i..MatchAt(s, i).value])
  {
    var j := MatchAt(s, i).value;
    var d := if i < |s| && s[i] == '-' then i + 1 else i;
    MatchedUnsigned(s, d);
    if d == i + 1 {
      assert s[i..j][1..] == s[d..j];
    }
  }

  lemma SliceDigits(s: string, a: nat, b: nat)
    requires a <= b <= |s| && AllDigits(s[a..b])
    ensures forall m :: a <= m < b ==> IsDigit(s[m])
  {
    forall m | a <= m < b ensures IsDigit(s[m]) {
      assert s[a..b][m - a] == s[m];
    }
  }

  /** The decimal case of UnsignedWithinMatch: the point sits right after the digit run. */
  lemma DecimalWithinMatch(s: string, d: nat, j: nat, p: nat)
    requires d < d + p < j <= |s|
    requires s[d + p] == '.' && IsDigits(s[d..d + p]) && IsDigits(s[d + p + 1..j])
    ensures var e := DigitRun(s, d);
            e == d + p && e + 1 < |s| && IsDigit(s[e + 1]) && j <= DigitRun(s, e + 1)
  {
    SliceDigits(s, d, d + p);
    SliceDigits(s, d + p + 1, j);
    DigitRunCovers(s, d, d + p);
    DigitRunStops(s, d, d + p);
    DigitRunCovers(s, d + p + 1, j);
  }

  /** The integer case of UnsignedWithinMatch: the digit run reaches at least the literal's end. */
  lemma DigitsWithinMatch(s: string, d: nat, j: nat)
    requires d < j <= |s| && IsDigits(s[d..j])
    ensures DigitRun(s, d) >= j
  {
    SliceDigits(s, d, j);
    DigitRunCovers(s, d, j);
  }

  /** From the first digit of an unsigned literal, the match runs at least to the literal's end. */
  lemma UnsignedWithinMatch(s: string, d: nat, j: nat)
    requires d < j <= |s| && IsUnsigned(s[d..j])
    ensures var e := DigitRun(s, d);
            e > d &&
            if e + 1 < |s| && s[e] == '.' && IsDigit(s[e + 1]) then j <= DigitRun(s, e + 1) else j <= e
  {
    var u := s[d..j];
    var e := DigitRun(s, d);
    if IsDigits(u) {
      DigitsWithinMatch(s, d, j);
      if e + 1 < |s| {
        assert e + 1 <= DigitRun(s, e + 1);
      }
    } else {
      var p := PointOf(u);
      assert u[..p] == s[d..d + p] && u[p + 1..] == s[d + p + 1..j];
      DecimalWithinMatch(s, d, j, p);
    }
  }

  /** Where the point of a decimal literal sits. */
  lemma PointOf(u: string) returns (p: nat)
    requires IsUnsigned(u) && !IsDigits(u)
    ensures 0 < p < |u| && u[p] == '.' && IsDigits(u[..p]) && IsDigits(u[p + 1..])
  {
    p :| 0 < p < |u| && u[p] == '.' && IsDigits(u[..p]) && IsDigits(u[p + 1..]);
  }

  /** No number literal at position `i` is longer than what MatchAt returns. */
  lemma MatchAtIsLongest(s: string, i: nat, j: nat)
    requires i < j <= |s| && IsNumberText(s[i..j])
    ensures MatchAt(s, i).Some? && j <= MatchAt(s, i).value
  {
    var t := s[i..j];
    if s[i] == '-' {
      if IsUnsigned(t) {
        UnsignedStartsWithDigit(t);
      }
      assert t[1..] == s[i + 1..j];
      UnsignedWithinMatch(s, i + 1, j);
    } else {
      UnsignedWithinMatch(s, i, j);
    }
  }

  /** A position holds a match exactly when a digit starts there, possibly after a `-`. */
  lemma MatchAtSomeIff(s: string, i: nat)
    requires i <= |s|
    ensures MatchAt(s, i).Some? <==>
              (i < |s| && IsDigit(s[i])) || (i + 1 < |s| && s[i] == '-' && IsDigit(s[i + 1]))
  {
  }

  // ---------------------------------------------------------------------------
  // Properties of _parse_score

  /** `strip` keeps every character that is not whitespace, in place. */
  lemma StripKeeps(s: string, k: nat)
    requires k < |s| && !IsSpace(s[k])
    ensures var a := |s| - |TrimStart(s)|;
            a <= k < a + |Strip(s)| && Strip(s)[k - a] == s[k]
  {
    var u := TrimStart(s);
    var a := |s| - |u|;
    assert a <= k && u == s[a..];
    assert u[k - a] == s[k];
    var v := TrimEnd(u);
    assert k - a < |v| && v == u[..|v|];
    assert Strip(s) == v;
  }

  /** Every character `strip` keeps comes from the input. */
  lemma StripFrom(s: string, k: nat)
    requires k < |Strip(s)|
    ensures var a := |s| - |TrimStart(s)|;
            a + k < |s| && Strip(s)[k] == s[a + k]
  {
    var u := TrimStart(s);
    assert Strip(s)[k] == u[k];
  }

  lemma StripKeepsDigits(s: string)
    ensures (forall k :: 0 <= k < |s| ==> !IsDigit(s[k])) <==>
            (forall k :: 0 <= k < |Strip(s)| ==> !IsDigit(Strip(s)[k]))
  {
    forall k | 0 <= k < |Strip(s)| ensures Strip(s)[k] in s {
      StripFrom(s, k);
    }
    forall k | 0 <= k < |s| && IsDigit(s[k]) ensures s[k] in Strip(s) {
      StripKeeps(s, k);
    }
  }

  lemma NoMatchIffNoDigit(c: string)
    ensures Search(c, 0).None? <==> forall k :: 0 <= k < |c| ==> !IsDigit(c[k])
  {
    if exists k :: 0 <= k < |c| && IsDigit(c[k]) {
      var k :| 0 <= k < |c| && IsDigit(c[k]);
      MatchAtSomeIff(c, k);
    } else {
      forall p | 0 <= p <= |c| ensures MatchAt(c, p).None? {
        MatchAtSomeIff(c, p);
      }
    }
  }

  /**
   * `_parse_score` reports "no number" exactly when the reply holds no digit
   * at all; any digit produces a number, which is then accepted or rejected
   * by its range.
   */
  lemma NoNumberIffNoDigit(response: string)
    ensures ParseScore(response) == Failure(NoNumber) <==>
            forall k :: 0 <= k < |response| ==> !IsDigit(response[k])
  {
    StripKeepsDigits(response);
    NoMatchIffNoDigit(Strip(response));
  }

  lemma NumberTextBounds(t: string)
    requires IsNumberText(t)
    ensures |t| > 0 && (IsDigit(t[0]) || t[0] == '-') && IsDigit(t[|t| - 1])
  {
    var u := if IsUnsigned(t) then t else t[1..];
    if IsUnsigned(t) {
      UnsignedStartsWithDigit(t);
    }
    assert u[|u| - 1] == t[|t| - 1];
    if !IsDigits(u) {
      var p := PointOf(u);
      assert u[p + 1..][|u| - p - 2] == u[|u| - 1];
    }
  }

  lemma StripNumberText(t: string)
    requires IsNumberText(t)
    ensures Strip(t) == t
  {
    NumberTextBounds(t);
    assert !IsSpace(t[0]) && !IsSpace(t[|t| - 1]);
    assert TrimStart(t) == t;
    assert TrimEnd(t) == t;
  }

  /**
   * A reply that is exactly one number literal is read as that number: the
   * score itself when it lies in [0, 1], an out-of-range error otherwise.
   */
  lemma ParseLiteral(t: string)
    requires IsNumberText(t)
    ensures ParseScore(t) == (var v := NumberValue(t);
                              if v < 0.0 || v > 1.0 then Failure(OutOfRange(v)) else Success(v))
  {
    StripNumberText(t);
    MatchAtIsLongest(t, 0, |t|);
    assert Search(t, 0) == Some((0, |t|));
    assert t[0..|t|] == t;
    assert ParseScore(t) == ScoreIn(t);
  }

  /** The fraction digits after the point are worth less than one. */
  lemma {:induction false} DigitsBelowPow10(ds: string)
    ensures DigitsValue(ds) < Pow10(|ds|)
  {
    if ds != [] {
      DigitsBelowPow10(ds[..|ds| - 1]);
    }
  }

  /** `float(t)` for a literal `t` with its point at `p`: the whole part plus the fraction. */
  lemma DecimalValue(t: string, p: nat)
    requires 0 < p < |t| - 1 && t[p] == '.' && IsDigits(t[..p]) && IsDigits(t[p + 1..])
    ensures IsNumberText(t)
    ensures NumberValue(t) == DigitsValue(t[..p]) as real + FractionValue(t[p + 1..])
  {
    assert IsUnsigned(t);
    assert t[0] == t[..p][0];
    SliceDigits(t, 0, p);
    DigitRunCovers(t, 0, p);
    DigitRunStops(t, 0, p);
  }

  /** A decimal reply `w.f` is accepted exactly when its value lies in [0, 1]. */
  lemma ParseDecimal(w: string, f: string)
    requires IsDigits(w) && IsDigits(f)
    ensures var v := DigitsValue(w) as real + FractionValue(f);
            ParseScore(w + "." + f) == if v > 1.0 then Failure(OutOfRange(v)) else Success(v)
  {
    var t := w + "." + f;
    assert t[..|w|] == w && t[|w| + 1..] == f;
    DecimalValue(t, |w|);
    ParseLiteral(t);
  }

  lemma ZeroDigit()
    ensures IsDigits("0") && DigitsValue("0") == 0
  {
    assert "0"[..0] == [];
  }

  /** `0.d…d` is always accepted, with the value of its fraction digits. */
  lemma ParseZeroPoint(f: string)
    requires IsDigits(f)
    ensures ParseScore("0." + f) == Success(FractionValue(f))
  {
    var t := "0." + f;
    assert t[..1] == "0" && t[1] == '.' && t[2..] == f;
    ZeroDigit();
    DecimalValue(t, 1);
    ParseLiteral(t);
  }

  lemma NegatedValue(u: string)
    requires IsUnsigned(u)
    ensures NumberValue("-" + u) == -NumberValue(u)
  {
    assert ("-" + u)[1..] == u;
    UnsignedStartsWithDigit(u);
  }

  /** A negative reply is rejected, not clamped to 0, unless its value is zero. */
  lemma NegativeRejected(u: string)
    requires IsUnsigned(u) && NumberValue(u) != 0.0
    ensures ParseScore("-" + u) == Failure(OutOfRange(-NumberValue(u)))
  {
    var t := "-" + u;
    assert t[1..] == u;
    assert IsNumberText(t);
    NegatedValue(u);
    ParseLiteral(t);
  }
}
