/** Compact JSON text (RFC 8259), as the standard library prints it with non-ASCII characters kept and no spaces. */
module Json {
  import opened Kernel
  import opened Text
  import opened JsonNumbers

  /** A JSON value. Object members are kept in the order they are printed in;
      a float is kept as the text the language prints it as. */
  datatype Member = Member(name: string, value: Json)

  datatype Json =
    | Null
    | Bool(flag: bool)
    | Int(n: int)
    | Float(text: string)
    | Str(s: string)
    | Arr(items: seq<Json>)
    | Obj(members: seq<Member>)

  predicate WellFormed(j: Json)
    decreases j, 0
  {
    match j
    case Float(text) => IsFloatText(text)
    case Arr(items) => forall i :: 0 <= i < |items| ==> WellFormed(items[i])
    case Obj(members) => forall i :: 0 <= i < |members| ==> WellFormed(members[i].value)
    case _ => true
  }

  // ----- Integers -----------------------------------------------------------------

  function NatText(n: nat): (s: string)
    ensures |s| > 0 && IsDecimal(s)
  {
    if n < 10 then [DigitChar(n)] else NatText(n / 10) + [DigitChar(n % 10)]
  }

  function IntText(n: int): (s: string)
    ensures |s| > 0 && ('0' <= s[0] <= '9' || s[0] == '-')
    ensures forall i :: 0 <= i < |s| ==> '0' <= s[i] <= '9' || s[i] == '-'
  {
    if n < 0 then "-" + NatText(-n) else NatText(n)
  }

  lemma {:induction false} NatRoundTrip(n: nat)
    ensures FixedValue(10, NatText(n)) == Some(n)
  {
    if n < 10 {
      DigitRoundTrip(n);
      assert FixedValue(10, "" + [DigitChar(n)]) == Some(n) by {
        FixedValueSnoc(10, "", DigitChar(n));
      }
      assert "" + [DigitChar(n)] == NatText(n);
    } else {
      NatRoundTrip(n / 10);
      DigitRoundTrip(n % 10);
      FixedValueSnoc(10, NatText(n / 10), DigitChar(n % 10));
    }
  }

  lemma IntInjective(m: int, n: int)
    requires IntText(m) == IntText(n)
    ensures m == n
  {
    NatStarts(if m < 0 then -m else m);
    NatStarts(if n < 0 then -n else n);
    assert m < 0 ==> IntText(m)[1..] == NatText(-m);
    assert n < 0 ==> IntText(n)[1..] == NatText(-n);
    NatRoundTrip(if m < 0 then -m else m);
    NatRoundTrip(if n < 0 then -n else n);
  }

  /** No leading zeros. */
  lemma {:induction false} NatStarts(n: nat)
    ensures Digit(NatText(n)[0]) && (NatText(n)[0] == '0' <==> n == 0)
  {
    if n >= 10 {
      NatStarts(n / 10);
    } else {
      assert DIGITS[n] == '0' + n as char;
    }
  }

  /** An integer's text is a number without fraction and exponent. */
  lemma IntIsWhole(n: int)
    ensures WholeRun(IntText(n)) == NumberRun(IntText(n)) == |IntText(n)| && !IsFloatText(IntText(n))
  {
    var digits := NatText(if n < 0 then -n else n);
    NatStarts(if n < 0 then -n else n);
    AllDigits(digits);
    assert IntText(n)[SignRun(IntText(n))..] == digits;
    if n == 0 {
      assert digits == NatText(0) == [DigitChar(0)];
    }
  }

  // ----- Strings ------------------------------------------------------------------

  function EscapeChar(c: char): (s: string)
    ensures |s| > 0
  {
    if c == '\"' then "\\\""
    else if c == '\\' then "\\\\"
    else if c == '\n' then "\\n"
    else if c == '\r' then "\\r"
    else if c == '\t' then "\\t"
    else if c == '\U{8}' then "\\b"
    else if c == '\U{c}' then "\\f"
    else if c < ' ' then "\\u" + FixedText(16, 4, c as nat)
    else [c]
  }

  function Escape(s: string): string {
    if s == "" then "" else EscapeChar(s[0]) + Escape(s[1..])
  }

  // ----- Values --------------------------------------------------------------------

  function Print(j: Json): string
    decreases j, 0
  {
    match j
    case Null => "null"
    case Bool(flag) => if flag then "true" else "false"
    case Int(n) => IntText(n)
    case Float(text) => text
    case Str(s) => "\"" + (Escape(s) + "\"")
    case Arr(items) => "[" + (PrintItems(items) + "]")
    case Obj(members) => "{" + (PrintMembers(members) + "}")
  }

  function PrintItems(items: seq<Json>): string
    decreases items, 1
  {
    if items == [] then ""
    else Print(items[0]) + (if |items| == 1 then "" else "," + PrintItems(items[1..]))
  }

  function PrintMembers(members: seq<Member>): string
    decreases members, 1
  {
    if members == [] then ""
    else PrintMember(members[0], if |members| == 1 then "" else "," + PrintMembers(members[1..]))
  }

  /** One member, then `more`. */
  function PrintMember(m: Member, more: string): string
    decreases m, 0
  {
    "\"" + (Escape(m.name) + ("\"" + (":" + (Print(m.value) + more))))
  }
}
