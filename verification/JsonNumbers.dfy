/** JSON numbers (section 6 of RFC 8259): how much of a text the standard library's scanner takes for one. */
module JsonNumbers {

  predicate Digit(c: char) {
    '0' <= c <= '9'
  }

  predicate NumberChar(c: char) {
    Digit(c) || c == '+' || c == '-' || c == '.' || c == 'e' || c == 'E'
  }

  /** Length of the run of digits at the front. */
  function DigitRun(s: string): (k: nat)
    ensures k <= |s| && (forall i :: 0 <= i < k ==> Digit(s[i])) && (k < |s| ==> !Digit(s[k]))
  {
    if s == "" || !Digit(s[0]) then 0 else 1 + DigitRun(s[1..])
  }

  function SignRun(s: string): (k: nat)
    ensures k <= 1 && k <= |s|
  {
    if s != "" && s[0] == '-' then 1 else 0
  }

  /** Length of the whole part at the front: no leading zeros; none is 0. */
  function WholeRun(s: string): (k: nat)
    ensures k <= |s| && (k > 0 ==> SignRun(s) < k)
  {
    var sign := SignRun(s);
    if sign < |s| && s[sign] == '0' then sign + 1
    else if DigitRun(s[sign..]) == 0 then 0
    else sign + DigitRun(s[sign..])
  }

  function FractionRun(s: string): (k: nat)
    ensures k <= |s|
  {
    if s == "" || s[0] != '.' || DigitRun(s[1..]) == 0 then 0 else 1 + DigitRun(s[1..])
  }

  function ExponentRun(s: string): (k: nat)
    ensures k <= |s|
  {
    if s == "" || (s[0] != 'e' && s[0] != 'E') then 0
    else
      var mark := if |s| > 1 && (s[1] == '+' || s[1] == '-') then 2 else 1;
      if DigitRun(s[mark..]) == 0 then 0 else mark + DigitRun(s[mark..])
  }

  /** Length of the fraction and exponent at the front. */
  function TailRun(s: string): (k: nat)
    ensures k <= |s|
  {
    FractionRun(s) + ExponentRun(s[FractionRun(s)..])
  }

  /** Length of the number at the front; a point or an exponent without digits is not part of it. */
  function NumberRun(s: string): (k: nat)
    ensures k <= |s| && WholeRun(s) <= k
  {
    if WholeRun(s) == 0 then 0 else WholeRun(s) + TailRun(s[WholeRun(s)..])
  }

  predicate IsNumberText(s: string) {
    s != "" && NumberRun(s) == |s|
  }

  /** Text of a finite float: a number with a fraction or an exponent. */
  predicate IsFloatText(s: string) {
    IsNumberText(s) && WholeRun(s) < |s|
  }

  lemma {:induction false} AllDigits(s: string)
    requires forall i :: 0 <= i < |s| ==> Digit(s[i])
    ensures DigitRun(s) == |s|
  {
    if s != "" {
      AllDigits(s[1..]);
    }
  }

  // ----- A number before something else --------------------------------------------------------

  predicate Delimited(rest: string) {
    rest == "" || !NumberChar(rest[0])
  }

  lemma {:induction false} DigitRunOn(s: string, rest: string)
    requires rest == "" || !Digit(rest[0])
    ensures DigitRun(s + rest) == DigitRun(s)
  {
    if s == "" {
      assert s + rest == rest;
    } else {
      assert (s + rest)[1..] == s[1..] + rest;
      DigitRunOn(s[1..], rest);
    }
  }

  lemma WholeRunOn(s: string, rest: string)
    requires Delimited(rest)
    ensures WholeRun(s + rest) == WholeRun(s)
  {
    var sign := SignRun(s);
    assert SignRun(s + rest) == sign;
    assert (s + rest)[sign..] == s[sign..] + rest;
    DigitRunOn(s[sign..], rest);
  }

  lemma FractionRunOn(s: string, rest: string)
    requires Delimited(rest)
    ensures FractionRun(s + rest) == FractionRun(s)
  {
    if s == "" {
      assert s + rest == rest;
    } else {
      assert (s + rest)[1..] == s[1..] + rest;
      DigitRunOn(s[1..], rest);
    }
  }

  lemma ExponentRunOn(s: string, rest: string)
    requires Delimited(rest)
    ensures ExponentRun(s + rest) == ExponentRun(s)
  {
    if s == "" {
      assert s + rest == rest;
    } else if s[0] == 'e' || s[0] == 'E' {
      var mark := if |s| > 1 && (s[1] == '+' || s[1] == '-') then 2 else 1;
      assert mark == if |s + rest| > 1 && ((s + rest)[1] == '+' || (s + rest)[1] == '-') then 2 else 1;
      assert (s + rest)[mark..] == s[mark..] + rest;
      DigitRunOn(s[mark..], rest);
    }
  }

  lemma TailRunOn(s: string, rest: string)
    requires Delimited(rest)
    ensures TailRun(s + rest) == TailRun(s)
  {
    var k := FractionRun(s);
    FractionRunOn(s, rest);
    assert (s + rest)[k..] == s[k..] + rest;
    ExponentRunOn(s[k..], rest);
  }

  lemma NumberRunOn(s: string, rest: string)
    requires IsNumberText(s) && Delimited(rest)
    ensures NumberRun(s + rest) == |s| && (s + rest)[..|s|] == s && (s + rest)[|s|..] == rest
  {
    var k := WholeRun(s);
    WholeRunOn(s, rest);
    assert (s + rest)[k..] == s[k..] + rest;
    TailRunOn(s[k..], rest);
  }

  lemma NumberStarts(s: string)
    requires IsNumberText(s)
    ensures s[0] == '-' || Digit(s[0])
    ensures s[0] == '-' ==> |s| > 1 && Digit(s[1])
  {
  }

  // ----- A number cut off from what follows ---------------------------------------------------

  lemma {:induction false} DigitRunIs(s: string, k: nat)
    requires k <= |s| && (forall i :: 0 <= i < k ==> Digit(s[i])) && (k < |s| ==> !Digit(s[k]))
    ensures DigitRun(s) == k
  {
    if k > 0 {
      DigitRunIs(s[1..], k - 1);
    }
  }

  /** A run does not depend on what comes after it. */
  lemma DigitRunCut(s: string, k: nat)
    requires DigitRun(s) <= k <= |s|
    ensures DigitRun(s[..k]) == DigitRun(s)
  {
    DigitRunIs(s[..k], DigitRun(s));
  }

  lemma WholeRunCut(s: string, k: nat)
    requires 0 < WholeRun(s) <= k <= |s|
    ensures WholeRun(s[..k]) == WholeRun(s)
  {
    var sign := SignRun(s);
    assert SignRun(s[..k]) == sign && s[..k][sign..] == s[sign..][..k - sign];
    if s[sign] != '0' {
      DigitRunCut(s[sign..], k - sign);
    }
  }

  lemma FractionRunCut(s: string, k: nat)
    requires FractionRun(s) <= k <= |s| && (FractionRun(s) == 0 ==> k == 0 || s[0] != '.')
    ensures FractionRun(s[..k]) == FractionRun(s)
  {
    if FractionRun(s) > 0 {
      assert s[..k][1..] == s[1..][..k - 1];
      DigitRunCut(s[1..], k - 1);
    }
  }

  lemma ExponentRunCut(s: string)
    ensures ExponentRun(s[..ExponentRun(s)]) == ExponentRun(s)
  {
    var k := ExponentRun(s);
    if k > 0 {
      var mark := if |s| > 1 && (s[1] == '+' || s[1] == '-') then 2 else 1;
      assert mark < k && s[..k][mark..] == s[mark..][..k - mark];
      DigitRunCut(s[mark..], k - mark);
    }
  }

  /** An exponent does not begin with a point. */
  lemma ExponentMark(s: string, fraction: nat)
    requires fraction == FractionRun(s)
    ensures fraction == 0 ==> ExponentRun(s[fraction..]) == 0 || s[0] != '.'
  {
    assert s[0..] == s;
  }

  lemma CutDrop(s: string, k: nat, m: nat)
    requires m <= k <= |s|
    ensures s[..k][m..] == s[m..][..k - m]
  {
  }

  lemma TailRunCut(s: string)
    ensures TailRun(s[..TailRun(s)]) == TailRun(s)
  {
    var k, fraction := TailRun(s), FractionRun(s);
    ExponentMark(s, fraction);
    FractionRunCut(s, k);
    CutDrop(s, k, fraction);
    ExponentRunCut(s[fraction..]);
  }

  lemma NumberRunCut(s: string)
    requires NumberRun(s) > 0
    ensures IsNumberText(s[..NumberRun(s)])
  {
    var k, whole := NumberRun(s), WholeRun(s);
    WholeRunCut(s, k);
    CutDrop(s, k, whole);
    TailRunCut(s[whole..]);
  }

  // ----- The grammar ----------------------------------------------------------------------

  predicate Digits(s: string) {
    s != "" && forall i :: 0 <= i < |s| ==> Digit(s[i])
  }

  predicate IsWhole(whole: string) {
    Digits(whole) && (whole[0] == '0' ==> |whole| == 1)
  }

  predicate IsFraction(fraction: string) {
    fraction == "" || (fraction[0] == '.' && Digits(fraction[1..]))
  }

  predicate IsExponent(exponent: string) {
    exponent == ""
    || ((exponent[0] == 'e' || exponent[0] == 'E')
        && (Digits(exponent[1..]) || (|exponent| > 1 && (exponent[1] == '+' || exponent[1] == '-') && Digits(exponent[2..]))))
  }

  predicate NumberOf(s: string, sign: string, whole: string, fraction: string, exponent: string) {
    && s == sign + (whole + (fraction + exponent))
    && (sign == "" || sign == "-") && IsWhole(whole) && IsFraction(fraction) && IsExponent(exponent)
  }

  lemma WholeIs(s: string, sign: string, whole: string, rest: string)
    requires s == sign + (whole + rest) && (sign == "" || sign == "-") && IsWhole(whole)
    requires rest == "" || !Digit(rest[0])
    ensures WholeRun(s) == |sign| + |whole| && s[|sign| + |whole|..] == rest
  {
    var digits := whole + rest;
    assert s[|sign|..] == digits && SignRun(s) == |sign|;
    DigitRunIs(digits, |whole|);
  }

  lemma FractionIs(fraction: string, rest: string)
    requires IsFraction(fraction) && (rest == "" || (!Digit(rest[0]) && rest[0] != '.'))
    ensures FractionRun(fraction + rest) == |fraction| && (fraction + rest)[|fraction|..] == rest
  {
    if fraction == "" {
      assert fraction + rest == rest;
    } else {
      assert (fraction + rest)[1..] == fraction[1..] + rest;
      DigitRunIs(fraction[1..] + rest, |fraction| - 1);
    }
  }

  lemma ExponentIs(exponent: string)
    requires IsExponent(exponent)
    ensures ExponentRun(exponent) == |exponent|
  {
    if exponent != "" && Digits(exponent[1..]) {
      assert Digit(exponent[1..][0]);
      DigitRunIs(exponent[1..], |exponent| - 1);
    } else if exponent != "" {
      DigitRunIs(exponent[2..], |exponent| - 2);
    }
  }

  lemma TailIs(fraction: string, exponent: string)
    requires IsFraction(fraction) && IsExponent(exponent)
    ensures TailRun(fraction + exponent) == |fraction| + |exponent|
    ensures fraction + exponent == "" || !Digit((fraction + exponent)[0])
  {
    FractionIs(fraction, exponent);
    ExponentIs(exponent);
  }

  lemma WholeThenTail(s: string, whole: nat)
    requires whole == WholeRun(s) > 0 && whole + TailRun(s[whole..]) == |s|
    ensures IsNumberText(s) && (IsFloatText(s) <==> whole < |s|)
  {
  }

  lemma PartsAreNumber(s: string, sign: string, whole: string, fraction: string, exponent: string)
    requires NumberOf(s, sign, whole, fraction, exponent)
    ensures IsNumberText(s) && (IsFloatText(s) <==> fraction + exponent != "")
  {
    var tail := fraction + exponent;
    TailIs(fraction, exponent);
    WholeIs(s, sign, whole, tail);
    WholeThenTail(s, |sign| + |whole|);
  }

  lemma WholeParts(s: string) returns (sign: string, whole: string)
    requires WholeRun(s) > 0
    ensures s == sign + (whole + s[WholeRun(s)..]) && (sign == "" || sign == "-") && IsWhole(whole)
  {
    var k := SignRun(s);
    sign, whole := s[..k], s[k..WholeRun(s)];
    assert forall i :: 0 <= i < |whole| ==> whole[i] == s[k..][i];
  }

  lemma FractionParts(s: string)
    ensures IsFraction(s[..FractionRun(s)])
  {
    var k := FractionRun(s);
    if k > 0 {
      assert s[..k][1..] == s[1..][..k - 1];
    }
  }

  lemma ExponentParts(s: string)
    ensures IsExponent(s[..ExponentRun(s)])
  {
    var k := ExponentRun(s);
    if k > 0 {
      var mark := if |s| > 1 && (s[1] == '+' || s[1] == '-') then 2 else 1;
      assert s[..k][mark..] == s[mark..][..k - mark];
    }
  }

  lemma TailParts(rest: string) returns (fraction: string, exponent: string)
    requires TailRun(rest) == |rest|
    ensures rest == fraction + exponent && IsFraction(fraction) && IsExponent(exponent)
  {
    fraction, exponent := rest[..FractionRun(rest)], rest[FractionRun(rest)..];
    FractionParts(rest);
    ExponentParts(exponent);
    assert exponent[..|exponent|] == exponent;
  }

  lemma NumberParts(s: string) returns (sign: string, whole: string, fraction: string, exponent: string)
    requires IsNumberText(s)
    ensures NumberOf(s, sign, whole, fraction, exponent)
  {
    sign, whole := WholeParts(s);
    fraction, exponent := TailParts(s[WholeRun(s)..]);
  }

  /** The scanner's numbers are those of section 6 of RFC 8259: an optional minus, a whole part without leading
      zeros, and possibly a fraction and an exponent. */
  lemma NumberGrammar(s: string)
    ensures IsNumberText(s) <==> exists sign, whole, fraction, exponent :: NumberOf(s, sign, whole, fraction, exponent)
  {
    if IsNumberText(s) {
      var sign, whole, fraction, exponent := NumberParts(s);
    }
    if sign, whole, fraction, exponent :| NumberOf(s, sign, whole, fraction, exponent) {
      PartsAreNumber(s, sign, whole, fraction, exponent);
    }
  }
}
