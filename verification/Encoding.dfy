/** UTF-8 (RFC 3629) and URL-safe base64 without padding (section 5 of RFC 4648), each with the reader the
    standard library uses. */
module Encoding {
  import opened Kernel

  type Byte = n: int | 0 <= n < 256 witness 0

  // ----- UTF-8 -----------------------------------------------------------------------------------------

  function Utf8Char(c: char): (bytes: seq<Byte>)
    ensures |bytes| > 0
  {
    var n := c as int;
    if n < 0x80 then [n]
    else if n < 0x800 then [0xC0 + n / 64, 0x80 + n % 64]
    else if n < 0x10000 then [0xE0 + n / 4096, 0x80 + n / 64 % 64, 0x80 + n % 64]
    else [0xF0 + n / 262144, 0x80 + n / 4096 % 64, 0x80 + n / 64 % 64, 0x80 + n % 64]
  }

  function Utf8(s: string): (bytes: seq<Byte>) {
    if s == "" then [] else Utf8Char(s[0]) + Utf8(s[1..])
  }

  predicate Continues(b: Byte) {
    0x80 <= b < 0xC0
  }

  predicate Scalar(n: int) {
    0 <= n < 0xD800 || 0xE000 <= n < 0x110000
  }

  function Joined(high: int, b: Byte): int {
    high * 64 + (b as int - 0x80)
  }

  /** How many bytes the character at the front takes, and its code point; none when it is malformed. */
  function FirstChar(bytes: seq<Byte>): (r: Option<(nat, char)>)
    ensures r.Some? ==> 1 <= r.value.0 <= |bytes|
  {
    if bytes == [] then None
    else if bytes[0] < 0x80 then Some((1, bytes[0] as char))
    else if bytes[0] < 0xC2 || bytes[0] >= 0xF5 || |bytes| < 2 || !Continues(bytes[1]) then None
    else if bytes[0] < 0xE0 then CharOf(2, 0x80, Joined(bytes[0] as int - 0xC0, bytes[1]))
    else if |bytes| < 3 || !Continues(bytes[2]) then None
    else if bytes[0] < 0xF0 then CharOf(3, 0x800, Joined(Joined(bytes[0] as int - 0xE0, bytes[1]), bytes[2]))
    else if |bytes| < 4 || !Continues(bytes[3]) then None
    else CharOf(4, 0x10000, Joined(Joined(Joined(bytes[0] as int - 0xF0, bytes[1]), bytes[2]), bytes[3]))
  }

  /** A code point that needs as many bytes as it was written with. */
  function CharOf(size: nat, least: int, n: int): (r: Option<(nat, char)>)
    ensures r.Some? ==> r.value.0 == size
  {
    if n >= least && Scalar(n) then Some((size, n as char)) else None
  }

  function ReadUtf8(bytes: seq<Byte>): (r: Option<string>) {
    if bytes == [] then Some("")
    else
      match FirstChar(bytes)
      case None => None
      case Some((size, c)) =>
        match ReadUtf8(bytes[size..])
        case None => None
        case Some(rest) => Some([c] + rest)
  }

  lemma SplitSixBits(n: int)
    requires n >= 0
    ensures n / 64 * 64 + n % 64 == n && 0 <= n % 64 < 64
    ensures n / 4096 == n / 64 / 64 && n / 262144 == n / 4096 / 64
  {
  }

  lemma TwoBytes(n: int, rest: seq<Byte>)
    requires 0x80 <= n < 0x800
    ensures FirstChar([0xC0 + n / 64, 0x80 + n % 64] + rest) == Some((2, n as char))
  {
    SplitSixBits(n);
    var bytes := [0xC0 + n / 64, 0x80 + n % 64] + rest;
    assert Joined(bytes[0] as int - 0xC0, bytes[1]) == n;
  }

  lemma ThreeBytes(n: int, rest: seq<Byte>)
    requires 0x800 <= n < 0x10000 && Scalar(n)
    ensures FirstChar([0xE0 + n / 4096, 0x80 + n / 64 % 64, 0x80 + n % 64] + rest) == Some((3, n as char))
  {
    SplitSixBits(n);
    SplitSixBits(n / 64);
    var bytes := [0xE0 + n / 4096, 0x80 + n / 64 % 64, 0x80 + n % 64] + rest;
    assert Joined(bytes[0] as int - 0xE0, bytes[1]) == n / 64;
    assert Joined(n / 64, bytes[2]) == n;
  }

  lemma FourBytes(n: int, rest: seq<Byte>)
    requires 0x10000 <= n < 0x110000
    ensures FirstChar([0xF0 + n / 262144, 0x80 + n / 4096 % 64, 0x80 + n / 64 % 64, 0x80 + n % 64] + rest) == Some((4, n as char))
  {
    SplitSixBits(n);
    SplitSixBits(n / 64);
    SplitSixBits(n / 4096);
    var bytes := [0xF0 + n / 262144, 0x80 + n / 4096 % 64, 0x80 + n / 64 % 64, 0x80 + n % 64] + rest;
    assert Joined(bytes[0] as int - 0xF0, bytes[1]) == n / 4096;
    assert Joined(n / 4096, bytes[2]) == n / 64;
    assert Joined(n / 64, bytes[3]) == n;
  }

  lemma FirstCharRoundTrip(c: char, rest: seq<Byte>)
    ensures FirstChar(Utf8Char(c) + rest) == Some((|Utf8Char(c)|, c))
  {
    var n := c as int;
    if 0x80 <= n < 0x800 {
      TwoBytes(n, rest);
    } else if 0x800 <= n < 0x10000 {
      ThreeBytes(n, rest);
    } else if n >= 0x10000 {
      FourBytes(n, rest);
    }
  }

  lemma {:induction false} Utf8RoundTrip(s: string)
    ensures ReadUtf8(Utf8(s)) == Some(s)
  {
    if s != "" {
      FirstCharRoundTrip(s[0], Utf8(s[1..]));
      Utf8RoundTrip(s[1..]);
      assert Utf8(s)[|Utf8Char(s[0])|..] == Utf8(s[1..]);
      assert [s[0]] + s[1..] == s;
    }
  }

  // ----- Base64 ----------------------------------------------------------------------------------------

  function SextetChar(v: nat): (c: char)
    requires v < 64
    ensures c != '='
  {
    if v < 26 then 'A' + v as char
    else if v < 52 then 'a' + (v - 26) as char
    else if v < 62 then '0' + (v - 52) as char
    else if v == 62 then '-' else '_'
  }

  /** Both alphabets are read: only `-` and `_` are translated, `+` and `/` already mean the same. */
  function Sextet(c: char): (r: Option<nat>)
    ensures r.Some? ==> r.value < 64 && c != '='
  {
    if 'A' <= c <= 'Z' then Some((c - 'A') as nat)
    else if 'a' <= c <= 'z' then Some((c - 'a') as nat + 26)
    else if '0' <= c <= '9' then Some((c - '0') as nat + 52)
    else if c == '-' || c == '+' then Some(62)
    else if c == '_' || c == '/' then Some(63)
    else None
  }

  lemma SextetRoundTrip(v: nat)
    requires v < 64
    ensures Sextet(SextetChar(v)) == Some(v)
  {
  }

  type SixBits = v: int | 0 <= v < 64 witness 0

  /** Three bytes as four groups of six bits. */
  function First(b0: Byte): SixBits { b0 / 4 }

  function Second(b0: Byte, b1: Byte): SixBits { b0 % 4 * 16 + b1 / 16 }

  function Third(b1: Byte, b2: Byte): SixBits { b1 % 16 * 4 + b2 / 64 }

  function Fourth(b2: Byte): SixBits { b2 % 64 }

  lemma Regroups(b0: Byte, b1: Byte, b2: Byte)
    ensures First(b0) * 4 + Second(b0, b1) / 16 == b0
    ensures Second(b0, b1) % 16 * 16 + Third(b1, b2) / 4 == b1
    ensures Third(b1, b2) % 4 * 64 + Fourth(b2) == b2
  {
    assert Second(b0, b1) / 16 == b0 % 4 && Second(b0, b1) % 16 == b1 / 16;
    assert Third(b1, b2) / 4 == b1 % 16 && Third(b1, b2) % 4 == b2 / 64;
  }

  function Pair(v0: SixBits, v1: SixBits): string {
    [SextetChar(v0), SextetChar(v1)]
  }

  function Base64(bytes: seq<Byte>): (s: string) {
    if bytes == [] then ""
    else if |bytes| == 1 then Pair(First(bytes[0]), Second(bytes[0], 0)) + "=="
    else if |bytes| == 2 then Pair(First(bytes[0]), Second(bytes[0], bytes[1])) + ([SextetChar(Third(bytes[1], 0))] + "=")
    else
      Pair(First(bytes[0]), Second(bytes[0], bytes[1]))
        + (Pair(Third(bytes[1], bytes[2]), Fourth(bytes[2])) + Base64(bytes[3..]))
  }

  /** The reader's loop: characters outside the alphabet are skipped, padding ends the input once it completes a
      group of four; `quad` counts the characters of the open group, `left` the bits not yet output. */
  function ReadFrom(s: string, quad: nat, left: nat, pads: nat): (r: Option<seq<Byte>>)
    requires quad < 4 && left < 64 && (quad == 2 ==> left < 16) && (quad == 3 ==> left < 4)
  {
    if s == "" then if quad == 0 then Some([]) else None
    else if s[0] == '=' then
      if quad >= 2 && quad + pads + 1 >= 4 then Some([])
      else ReadFrom(s[1..], quad, left, if quad >= 2 then pads + 1 else pads)
    else
      match Sextet(s[0])
      case None => ReadFrom(s[1..], quad, left, pads)
      case Some(v) =>
        if quad == 0 then ReadFrom(s[1..], 1, v, 0)
        else if quad == 1 then Output(left * 4 + v / 16, ReadFrom(s[1..], 2, v % 16, 0))
        else if quad == 2 then Output(left * 16 + v / 4, ReadFrom(s[1..], 3, v % 4, 0))
        else Output(left * 64 + v, ReadFrom(s[1..], 0, 0, 0))
  }

  function Output(b: Byte, rest: Option<seq<Byte>>): Option<seq<Byte>> {
    if rest.None? then None else Some([b] + rest.value)
  }

  function ReadBase64(s: string): (r: Option<seq<Byte>>) {
    if exists i :: 0 <= i < |s| && s[i] as int >= 0x80 then None else ReadFrom(s, 0, 0, 0)
  }

  function StripPadding(s: string): (r: string)
    ensures r <= s
  {
    if s != "" && s[|s| - 1] == '=' then StripPadding(s[..|s| - 1]) else s
  }

  /** As many padding characters as the length lacks to a multiple of four. */
  function Padding(n: nat): (s: string)
    ensures (n + |s|) % 4 == 0 && |s| < 4 && forall i :: 0 <= i < |s| ==> s[i] == '='
  {
    seq((-(n as int)) % 4, _ => '=')
  }

  ghost predicate Padded(s: string) {
    |s| % 4 == 0 && StripPadding(s) + Padding(|StripPadding(s)|) == s && '=' !in StripPadding(s)
  }

  lemma PaddedGroup(data: string, padding: string)
    requires (|data| == 2 && padding == "==") || (|data| == 3 && padding == "=")
    requires '=' !in data
    ensures Padded(data + padding)
  {
    StripAfter(data, padding);
    StripsAll(|padding|);
    assert data + "" == data;
    assert Padding(|data|) == padding;
  }

  lemma PaddedAfter(group: string, rest: string)
    requires |group| == 4 && '=' !in group && Padded(rest)
    ensures Padded(group + rest)
  {
    StripAfter(group, rest);
    var stripped := StripPadding(rest);
    assert Padding(|group + stripped|) == Padding(|stripped|);
    assert group + stripped + Padding(|stripped|) == group + (stripped + Padding(|stripped|));
  }

  lemma PairIsData(v0: SixBits, v1: SixBits)
    ensures '=' !in Pair(v0, v1) && |Pair(v0, v1)| == 2
  {
  }

  lemma PaddedTwo(v0: SixBits, v1: SixBits, v2: SixBits)
    ensures Padded(Pair(v0, v1) + ([SextetChar(v2)] + "="))
  {
    PairIsData(v0, v1);
    PaddedGroup(Pair(v0, v1) + [SextetChar(v2)], "=");
    assert Pair(v0, v1) + [SextetChar(v2)] + "=" == Pair(v0, v1) + ([SextetChar(v2)] + "=");
  }

  lemma PaddedFour(v0: SixBits, v1: SixBits, v2: SixBits, v3: SixBits, rest: string)
    requires Padded(rest)
    ensures Padded(Pair(v0, v1) + (Pair(v2, v3) + rest))
  {
    PairIsData(v0, v1);
    PairIsData(v2, v3);
    PaddedAfter(Pair(v0, v1) + Pair(v2, v3), rest);
    assert Pair(v0, v1) + Pair(v2, v3) + rest == Pair(v0, v1) + (Pair(v2, v3) + rest);
  }

  /** Stripping takes off exactly the padding. */
  lemma {:induction false} Strips(bytes: seq<Byte>)
    ensures Padded(Base64(bytes))
  {
    if |bytes| == 1 {
      PairIsData(First(bytes[0]), Second(bytes[0], 0));
      PaddedGroup(Pair(First(bytes[0]), Second(bytes[0], 0)), "==");
    } else if |bytes| == 2 {
      PaddedTwo(First(bytes[0]), Second(bytes[0], bytes[1]), Third(bytes[1], 0));
    } else if |bytes| > 2 {
      Strips(bytes[3..]);
      PaddedFour(First(bytes[0]), Second(bytes[0], bytes[1]), Third(bytes[1], bytes[2]), Fourth(bytes[2]), Base64(bytes[3..]));
    }
  }

  lemma StripsAll(n: nat)
    requires n == 1 || n == 2
    ensures StripPadding(if n == 1 then "=" else "==") == ""
  {
    assert "=="[..1] == "=" && "="[..0] == "";
  }

  lemma {:induction false} StripAfter(a: string, b: string)
    requires a != "" && a[|a| - 1] != '='
    ensures StripPadding(a + b) == a + StripPadding(b)
  {
    if b == "" {
      assert a + b == a;
    } else if b[|b| - 1] == '=' {
      assert (a + b)[..|a + b| - 1] == a + b[..|b| - 1];
      StripAfter(a, b[..|b| - 1]);
    }
  }

  lemma ReadPair(v0: SixBits, v1: SixBits, rest: string)
    ensures ReadFrom(Pair(v0, v1) + rest, 0, 0, 0) == Output(v0 * 4 + v1 / 16, ReadFrom(rest, 2, v1 % 16, 0))
  {
    SextetRoundTrip(v0);
    SextetRoundTrip(v1);
    var s := Pair(v0, v1) + rest;
    assert s[1..] == [SextetChar(v1)] + rest && s[1..][1..] == rest;
  }

  lemma ReadThird(left: nat, v: SixBits, rest: string)
    requires left < 16
    ensures ReadFrom([SextetChar(v)] + rest, 2, left, 0) == Output(left * 16 + v / 4, ReadFrom(rest, 3, v % 4, 0))
  {
    SextetRoundTrip(v);
    assert ([SextetChar(v)] + rest)[1..] == rest;
  }

  lemma ReadFourth(left: nat, v: SixBits, rest: string)
    requires left < 4
    ensures ReadFrom([SextetChar(v)] + rest, 3, left, 0) == Output(left * 64 + v, ReadFrom(rest, 0, 0, 0))
  {
    SextetRoundTrip(v);
    assert ([SextetChar(v)] + rest)[1..] == rest;
  }

  lemma ReadPadding(left: nat)
    ensures left < 16 ==> ReadFrom("==", 2, left, 0) == Some([])
    ensures left < 4 ==> ReadFrom("=", 3, left, 0) == Some([])
  {
    assert "=="[1..] == "=";
    if left < 16 {
      assert ReadFrom("=", 2, left, 1) == Some([]);
    }
  }

  lemma ReadOne(b: Byte)
    ensures ReadFrom(Pair(First(b), Second(b, 0)) + "==", 0, 0, 0) == Some([b])
  {
    Regroups(b, 0, 0);
    ReadPair(First(b), Second(b, 0), "==");
    ReadPadding(Second(b, 0) % 16);
    assert [b] + [] == [b];
  }

  lemma ReadTwo(b0: Byte, b1: Byte)
    ensures ReadFrom(Pair(First(b0), Second(b0, b1)) + ([SextetChar(Third(b1, 0))] + "="), 0, 0, 0) == Some([b0, b1])
  {
    Regroups(b0, b1, 0);
    ReadPair(First(b0), Second(b0, b1), [SextetChar(Third(b1, 0))] + "=");
    ReadThird(Second(b0, b1) % 16, Third(b1, 0), "=");
    ReadPadding(Third(b1, 0) % 4);
    assert [b1] + [] == [b1] && [b0] + [b1] == [b0, b1];
  }

  lemma ReadFour(v0: SixBits, v1: SixBits, v2: SixBits, v3: SixBits, more: string)
    ensures ReadFrom(Pair(v0, v1) + (Pair(v2, v3) + more), 0, 0, 0) ==
            Output(v0 * 4 + v1 / 16, Output(v1 % 16 * 16 + v2 / 4, Output(v2 % 4 * 64 + v3, ReadFrom(more, 0, 0, 0))))
  {
    assert Pair(v2, v3) + more == [SextetChar(v2)] + ([SextetChar(v3)] + more);
    ReadPair(v0, v1, Pair(v2, v3) + more);
    ReadThird(v1 % 16, v2, [SextetChar(v3)] + more);
    ReadFourth(v2 % 4, v3, more);
  }

  lemma ReadGroup(b0: Byte, b1: Byte, b2: Byte, more: string)
    ensures ReadFrom(Pair(First(b0), Second(b0, b1)) + (Pair(Third(b1, b2), Fourth(b2)) + more), 0, 0, 0) ==
            Output(b0, Output(b1, Output(b2, ReadFrom(more, 0, 0, 0))))
  {
    Regroups(b0, b1, b2);
    ReadFour(First(b0), Second(b0, b1), Third(b1, b2), Fourth(b2), more);
  }

  lemma {:induction false} ReadsBack(bytes: seq<Byte>)
    ensures ReadFrom(Base64(bytes), 0, 0, 0) == Some(bytes)
  {
    if |bytes| == 1 {
      ReadOne(bytes[0]);
      assert bytes == [bytes[0]];
    } else if |bytes| == 2 {
      ReadTwo(bytes[0], bytes[1]);
      assert bytes == [bytes[0], bytes[1]];
    } else if |bytes| > 2 {
      ReadGroup(bytes[0], bytes[1], bytes[2], Base64(bytes[3..]));
      ReadsBack(bytes[3..]);
      assert bytes == [bytes[0]] + ([bytes[1]] + ([bytes[2]] + bytes[3..]));
    }
  }

  lemma {:induction false} Base64IsAscii(bytes: seq<Byte>)
    ensures forall i :: 0 <= i < |Base64(bytes)| ==> (Base64(bytes)[i] as int) < 0x80
  {
    if |bytes| > 2 {
      Base64IsAscii(bytes[3..]);
    }
  }

  /** Text written as UTF-8, base64 and stripped of its padding reads back, padding restored from the length. */
  lemma StrippedRoundTrip(text: string)
    ensures var s := StripPadding(Base64(Utf8(text)));
            && ReadBase64(s + Padding(|s|)) == Some(Utf8(text))
            && ReadUtf8(Utf8(text)) == Some(text)
            && '=' !in s
  {
    Strips(Utf8(text));
    Base64IsAscii(Utf8(text));
    ReadsBack(Utf8(text));
    Utf8RoundTrip(text);
  }
}
