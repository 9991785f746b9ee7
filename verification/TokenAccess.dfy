/** The lexical detector for token access inside an expression body: identifiers, property accesses by dot or by
    static bracket, and which of them are allowed on a token's context. */
module TokenAccess {
  import opened Kernel
  import opened ExpressionScanner

  const DOT: Byte := 46
  const OPEN_BRACKET: Byte := 91
  const CLOSE_BRACKET: Byte := 93

  predicate Space(b: int) {
    b in {9, 10, 11, 12, 13, 32}
  }

  predicate IdentifierStart(b: int) {
    65 <= b <= 90 || 97 <= b <= 122 || b == 95
  }

  predicate IdentifierPart(b: int) {
    IdentifierStart(b) || 48 <= b <= 57
  }

  /** The byte at a position; none past the end. */
  function At(s: Bytes, i: nat): int {
    if i < |s| then s[i] else -1
  }

  function Lower(b: Byte): Byte {
    if 65 <= b <= 90 then b + 32 else b
  }

  function Downcase(s: Bytes): (r: Bytes)
    ensures |r| == |s| && forall i :: 0 <= i < |s| ==> r[i] == Lower(s[i])
  {
    seq(|s|, i requires 0 <= i < |s| => Lower(s[i]))
  }

  function SkipSpace(s: Bytes, i: nat): (j: nat)
    ensures i <= j && !Space(At(s, j)) && (j == i || j <= |s|)
    ensures forall k :: i <= k < j ==> Space(At(s, k))
    decreases |s| - i
  {
    if Space(At(s, i)) then SkipSpace(s, i + 1) else i
  }

  function IdentifierEnd(s: Bytes, i: nat): (j: nat)
    requires i <= |s|
    ensures i <= j <= |s| && !IdentifierPart(At(s, j))
    ensures forall k :: i <= k < j ==> IdentifierPart(At(s, k))
    decreases |s| - i
  {
    if IdentifierPart(At(s, i)) then IdentifierEnd(s, i + 1) else i
  }

  /** After a single-quoted string, from inside it. */
  function QuotedEnd(s: Bytes, i: nat): (j: nat)
    ensures i <= j && (i <= |s| ==> j <= |s|)
    decreases |s| - i
  {
    if i >= |s| then i
    else if s[i] == QUOTE && At(s, i + 1) == QUOTE then QuotedEnd(s, i + 2)
    else if s[i] == QUOTE then i + 1
    else QuotedEnd(s, i + 1)
  }

  /** The property name after an opening quote, and where its closing quote ends. */
  function PropertyFrom(s: Bytes, i: nat, quote: Byte): (r: Option<(Bytes, nat)>)
    ensures r.Some? ==> i < r.value.1 <= |s|
    decreases |s| - i
  {
    if i >= |s| then None
    else if quote == QUOTE && s[i] == QUOTE && At(s, i + 1) == QUOTE then Prefixed(QUOTE, PropertyFrom(s, i + 2, quote))
    else if s[i] == quote then Some(([], i + 1))
    else Prefixed(s[i], PropertyFrom(s, i + 1, quote))
  }

  function Prefixed(b: Byte, rest: Option<(Bytes, nat)>): Option<(Bytes, nat)> {
    if rest.None? then None else Some(([b] + rest.value.0, rest.value.1))
  }

  datatype Bracket = Dynamic(end: nat) | Static(property: Bytes, end: nat)

  /** A bracket's content, from after the bracket: a quoted name and nothing else, or dynamic. */
  function BracketProperty(s: Bytes, i: nat): (r: Bracket)
    requires i <= |s|
    ensures r.Static? ==> i < r.end <= |s|
  {
    var start := SkipSpace(s, i);
    if At(s, start) != DOUBLE_QUOTE && At(s, start) != QUOTE then Dynamic(start)
    else
      match PropertyFrom(s, start + 1, s[start])
      case None => Dynamic(|s|)
      case Some((property, end)) =>
        var after := SkipSpace(s, end);
        if At(s, after) != CLOSE_BRACKET then Dynamic(after) else Static(Downcase(property), after + 1)
  }

  /** The token property of a context, when the identifier names one. */
  function TokenProperty(identifier: Bytes): Option<Bytes> {
    if identifier == GITHUB then Some(TOKEN) else if identifier == SECRETS then Some(GITHUB_TOKEN) else None
  }

  // "github", "token", "secrets", "github_token"
  const GITHUB: Bytes := [103, 105, 116, 104, 117, 98]
  const TOKEN: Bytes := [116, 111, 107, 101, 110]
  const SECRETS: Bytes := [115, 101, 99, 114, 101, 116, 115]
  const GITHUB_TOKEN: Bytes := GITHUB + [95] + TOKEN

  /** The last byte before a position that is not a space is a dot. */
  predicate AfterDot(s: Bytes, i: nat)
    requires i <= |s|
  {
    i > 0 && (s[i - 1] == DOT || (Space(s[i - 1]) && AfterDot(s, i - 1)))
  }

  datatype Step = Flag | Go(next: nat)

  /** What follows a context whose token property is `token`. */
  function Access(s: Bytes, i: nat, token: Bytes): (r: Step)
    requires i <= |s|
    ensures r.Go? ==> i < r.next <= |s|
  {
    var accessor := SkipSpace(s, i);
    if At(s, accessor) == DOT then
      var start := SkipSpace(s, accessor + 1);
      if !IdentifierStart(At(s, start)) then Flag
      else
        var end := IdentifierEnd(s, start + 1);
        if Downcase(s[start..end]) == token then Flag else Go(end)
    else if At(s, accessor) == OPEN_BRACKET then
      match BracketProperty(s, accessor + 1)
      case Dynamic(_) => Flag
      case Static(property, end) => if property == token then Flag else Go(end)
    else Flag
  }

  function StepFrom(s: Bytes, i: nat): (r: Step)
    requires i < |s|
    ensures r.Go? ==> i < r.next <= |s|
  {
    if s[i] == QUOTE then Go(QuotedEnd(s, i + 1))
    else if !IdentifierStart(s[i]) then Go(i + 1)
    else
      var end := IdentifierEnd(s, i + 1);
      match TokenProperty(Downcase(s[i..end]))
      case None => Go(end)
      case Some(token) => if AfterDot(s, i) then Go(end) else Access(s, end, token)
  }

  predicate TokenAccessFrom(s: Bytes, i: nat)
    decreases |s| - i
  {
    i < |s| && match StepFrom(s, i) case Flag => true case Go(next) => TokenAccessFrom(s, next)
  }

  // ----- The scanners -------------------------------------------------------------------------------------

  method SkipExpressionSpace(source: Bytes, start: nat) returns (index: nat)
    ensures index == SkipSpace(source, start)
  {
    index := start;
    while Space(At(source, index))
      invariant SkipSpace(source, start) == SkipSpace(source, index)
      decreases |source| - index
    {
      index := index + 1;
    }
  }

  method ReadIdentifier(source: Bytes, index: nat) returns (identifier: Option<Bytes>, finish: nat)
    ensures if IdentifierStart(At(source, index)) then
              finish == IdentifierEnd(source, index + 1) && identifier == Some(Downcase(source[index..finish]))
            else identifier == None && finish == index
  {
    if !IdentifierStart(At(source, index)) {
      return None, index;
    }
    finish := index + 1;
    while IdentifierPart(At(source, finish))
      invariant index < finish <= |source| && IdentifierEnd(source, index + 1) == IdentifierEnd(source, finish)
      decreases |source| - finish
    {
      finish := finish + 1;
    }
    identifier := Some(Downcase(source[index..finish]));
  }

  method SkipSingleQuotedString(source: Bytes, start: nat) returns (index: nat)
    requires start < |source|
    ensures index == QuotedEnd(source, start + 1) && StringEnds(source, start + 1, index)
  {
    QuotedEndIs(source, start + 1, QuotedEnd(source, start + 1));
    index := start + 1;
    while index < |source|
      invariant index <= |source| && QuotedEnd(source, start + 1) == QuotedEnd(source, index)
    {
      if source[index] == QUOTE && At(source, index + 1) == QUOTE {
        index := index + 2;
      } else if source[index] == QUOTE {
        return index + 1;
      } else {
        index := index + 1;
      }
    }
  }

  ghost function Continued(done: Bytes, rest: Option<(Bytes, nat)>): Option<(Bytes, nat)> {
    if rest.None? then None else Some((done + rest.value.0, rest.value.1))
  }

  lemma ContinuedStart(rest: Option<(Bytes, nat)>)
    ensures Continued([], rest) == rest
  {
    if rest.Some? {
      assert [] + rest.value.0 == rest.value.0;
    }
  }

  lemma ContinuedPrefixed(done: Bytes, b: Byte, rest: Option<(Bytes, nat)>)
    ensures Continued(done, Prefixed(b, rest)) == Continued(done + [b], rest)
  {
    if rest.Some? {
      assert done + ([b] + rest.value.0) == done + [b] + rest.value.0;
    }
  }

  /** Reads a property name up to its closing quote, if there is one. */
  method ReadProperty(source: Bytes, first: nat, quote: Byte) returns (closed: bool, property: Bytes, index: nat)
    requires first <= |source|
    ensures PropertyFrom(source, first, quote) == if closed then Some((property, index)) else None
    ensures !closed ==> index == |source|
  {
    property, index := [], first;
    ContinuedStart(PropertyFrom(source, first, quote));
    while index < |source|
      invariant first <= index <= |source|
      invariant PropertyFrom(source, first, quote) == Continued(property, PropertyFrom(source, index, quote))
    {
      var byte := source[index];
      if quote == QUOTE && byte == QUOTE && At(source, index + 1) == QUOTE {
        ContinuedPrefixed(property, QUOTE, PropertyFrom(source, index + 2, quote));
        property := property + [QUOTE];
        index := index + 2;
      } else if byte == quote {
        assert property + [] == property;
        return true, property, index + 1;
      } else {
        ContinuedPrefixed(property, byte, PropertyFrom(source, index + 1, quote));
        property := property + [byte];
        index := index + 1;
      }
    }
    closed := false;
  }

  method StaticBracketProperty(source: Bytes, start: nat) returns (r: Bracket)
    requires start <= |source|
    ensures r == BracketProperty(source, start)
  {
    var index := SkipExpressionSpace(source, start);
    var quote := At(source, index);
    if quote != DOUBLE_QUOTE && quote != QUOTE {
      return Dynamic(index);
    }
    var closed, property;
    closed, property, index := ReadProperty(source, index + 1, quote);
    if !closed {
      return Dynamic(index);
    }
    index := SkipExpressionSpace(source, index);
    if At(source, index) != CLOSE_BRACKET {
      return Dynamic(index);
    }
    r := Static(Downcase(property), index + 1);
  }

  /** Looks back over spaces for a dot. */
  method PrecededByDot(source: Bytes, start: nat) returns (dotted: bool)
    requires start <= |source|
    ensures dotted == AfterDot(source, start)
  {
    var preceding := start - 1;
    while preceding >= 0 && Space(source[preceding])
      invariant -1 <= preceding < |source| && AfterDot(source, start) == AfterDot(source, preceding + 1)
    {
      preceding := preceding - 1;
    }
    dotted := preceding >= 0 && source[preceding] == DOT;
  }

  /** The access after a context: `Flag` where the detector answers, otherwise where it goes on. */
  method AccessAfter(source: Bytes, index: nat, token: Bytes) returns (r: Step)
    requires index <= |source|
    ensures r == Access(source, index, token)
  {
    var accessor := SkipExpressionSpace(source, index);
    if At(source, accessor) == DOT {
      var propertyStart := SkipExpressionSpace(source, accessor + 1);
      var property, propertyEnd := ReadIdentifier(source, propertyStart);
      if property.None? || property.value == token {
        return Flag;
      }
      r := Go(propertyEnd);
    } else if At(source, accessor) == OPEN_BRACKET {
      var bracket := StaticBracketProperty(source, accessor + 1);
      if bracket.Dynamic? || bracket.property == token {
        return Flag;
      }
      r := Go(bracket.end);
    } else {
      r := Flag;
    }
  }

  method TokenAccessInExpression(source: Bytes) returns (found: bool)
    ensures found == TokenAccessFrom(source, 0)
  {
    var index := 0;
    while index < |source|
      invariant index <= |source| && TokenAccessFrom(source, 0) == TokenAccessFrom(source, index)
      decreases |source| - index
    {
      if source[index] == QUOTE {
        index := SkipSingleQuotedString(source, index);
        continue;
      }
      var identifier, finish := ReadIdentifier(source, index);
      if identifier.None? {
        index := index + 1;
        continue;
      }
      var tokenProperty := TokenProperty(identifier.value);
      if tokenProperty.None? {
        index := finish;
        continue;
      }
      var dotted := PrecededByDot(source, index);
      if dotted {
        index := finish;
        continue;
      }
      var access := AccessAfter(source, finish, tokenProperty.value);
      if access.Flag? {
        return true;
      }
      index := access.next;
    }
    found := false;
  }

  // ----- Bracket properties -------------------------------------------------------------------------------

  /** A name with its single quotes doubled. */
  function Doubled(name: Bytes): Bytes {
    if name == [] then [] else (if name[0] == QUOTE then [QUOTE, QUOTE] else [name[0]]) + Doubled(name[1..])
  }

  /** A name as it is written between quotes of one kind. */
  function Spelled(name: Bytes, quote: Byte): Bytes {
    if quote == QUOTE then Doubled(name) else name
  }

  predicate Spellable(name: Bytes, quote: Byte) {
    quote == QUOTE || (quote == DOUBLE_QUOTE && DOUBLE_QUOTE !in name)
  }

  predicate Spaces(s: Bytes) {
    forall i :: 0 <= i < |s| ==> Space(s[i])
  }

  /** `text` stands in `s` at position `i`. */
  predicate StandsAt(s: Bytes, i: nat, text: Bytes) {
    i + |text| <= |s| && forall k :: 0 <= k < |text| ==> s[i + k] == text[k]
  }

  lemma StandsTogether(s: Bytes, i: nat, a: Bytes, b: Bytes)
    ensures StandsAt(s, i, a + b) <==> StandsAt(s, i, a) && StandsAt(s, i + |a|, b)
  {
    if StandsAt(s, i, a + b) {
      forall k | 0 <= k < |a| ensures s[i + k] == a[k] {
        assert s[i + k] == (a + b)[k];
      }
      forall k | 0 <= k < |b| ensures s[i + |a| + k] == b[k] {
        assert s[i + (|a| + k)] == (a + b)[|a| + k];
      }
    }
    if StandsAt(s, i, a) && StandsAt(s, i + |a|, b) {
      forall k | 0 <= k < |a + b| ensures s[i + k] == (a + b)[k] {
        if k >= |a| {
          assert s[i + |a| + (k - |a|)] == b[k - |a|];
        }
      }
    }
  }

  lemma FirstStands(s: Bytes, i: nat, text: Bytes)
    requires StandsAt(s, i, text) && text != []
    ensures i < |s| && s[i] == text[0]
  {
  }

  lemma OneStands(s: Bytes, i: nat)
    requires i < |s|
    ensures StandsAt(s, i, [s[i]])
  {
  }

  lemma SpacesSkipped(s: Bytes, i: nat, spaces: Bytes)
    requires StandsAt(s, i, spaces) && Spaces(spaces) && !Space(At(s, i + |spaces|))
    ensures SkipSpace(s, i) == i + |spaces|
  {
    forall k | i <= k < i + |spaces| ensures Space(At(s, k)) {
      assert s[k] == spaces[k - i];
    }
  }

  lemma SkippedIsSpaces(s: Bytes, i: nat)
    requires i <= |s|
    ensures SkipSpace(s, i) <= |s| && Spaces(s[i..SkipSpace(s, i)])
  {
    forall k | 0 <= k < SkipSpace(s, i) - i ensures Space(s[i..SkipSpace(s, i)][k]) {
      assert Space(At(s, i + k));
    }
  }

  lemma {:induction false} PropertyReads(s: Bytes, i: nat, name: Bytes, quote: Byte)
    requires Spellable(name, quote) && StandsAt(s, i, Spelled(name, quote) + [quote])
    requires quote == QUOTE ==> At(s, i + |Spelled(name, quote)| + 1) != QUOTE
    ensures PropertyFrom(s, i, quote) == Some((name, i + |Spelled(name, quote)| + 1))
    decreases |name|
  {
    var text := Spelled(name, quote) + [quote];
    assert s[i] == text[0];
    if name != [] {
      assert name == [name[0]] + name[1..];
      if quote == QUOTE && name[0] == QUOTE {
        assert s[i + 1] == text[1];
        assert text == [QUOTE, QUOTE] + (Spelled(name[1..], quote) + [quote]);
        StandsTogether(s, i, [QUOTE, QUOTE], Spelled(name[1..], quote) + [quote]);
        PropertyReads(s, i + 2, name[1..], quote);
      } else {
        assert text == [name[0]] + (Spelled(name[1..], quote) + [quote]);
        StandsTogether(s, i, [name[0]], Spelled(name[1..], quote) + [quote]);
        PropertyReads(s, i + 1, name[1..], quote);
      }
    }
  }

  lemma {:induction false} PropertySpelled(s: Bytes, i: nat, quote: Byte)
    requires PropertyFrom(s, i, quote).Some? && (quote == QUOTE || quote == DOUBLE_QUOTE)
    ensures var (name, end) := PropertyFrom(s, i, quote).value;
            && Spellable(name, quote) && StandsAt(s, i, Spelled(name, quote) + [quote])
            && end == i + |Spelled(name, quote)| + 1
            && (quote == QUOTE ==> At(s, end) != QUOTE)
    decreases |s| - i
  {
    var (name, end) := PropertyFrom(s, i, quote).value;
    if quote == QUOTE && s[i] == QUOTE && At(s, i + 1) == QUOTE {
      PropertySpelled(s, i + 2, quote);
      assert name[1..] == PropertyFrom(s, i + 2, quote).value.0;
      StandsTogether(s, i, [QUOTE, QUOTE], Spelled(name[1..], quote) + [quote]);
      assert Spelled(name, quote) + [quote] == [QUOTE, QUOTE] + (Spelled(name[1..], quote) + [quote]);
      OneStands(s, i);
      OneStands(s, i + 1);
      assert StandsAt(s, i, [QUOTE, QUOTE]);
    } else if s[i] == quote {
      assert Spelled(name, quote) + [quote] == [quote];
      OneStands(s, i);
    } else {
      PropertySpelled(s, i + 1, quote);
      assert name[1..] == PropertyFrom(s, i + 1, quote).value.0 && name == [name[0]] + name[1..];
      StandsTogether(s, i, [name[0]], Spelled(name[1..], quote) + [quote]);
      assert Spelled(name, quote) + [quote] == [name[0]] + (Spelled(name[1..], quote) + [quote]);
      OneStands(s, i);
    }
  }

  // ----- Single-quoted strings ------------------------------------------------------------------------------

  /** A string whose inside begins at `i` ends at `j`: after its closing quote, the first that is not half of a
      doubled one, or at the end of the expression when there is none. */
  ghost predicate StringEnds(s: Bytes, i: nat, j: nat) {
    exists name :: StringIs(s, i, name, j)
  }

  predicate StringIs(s: Bytes, i: nat, name: Bytes, j: nat) {
    || (StandsAt(s, i, Doubled(name) + [QUOTE]) && j == i + |Doubled(name)| + 1 && At(s, j) != QUOTE)
    || (StandsAt(s, i, Doubled(name)) && j == i + |Doubled(name)| == |s|)
  }

  lemma DoubledMore(b: Byte, name: Bytes)
    ensures Doubled([b] + name) == (if b == QUOTE then [QUOTE, QUOTE] else [b]) + Doubled(name)
  {
    assert ([b] + name)[1..] == name;
  }

  lemma StringGrows(s: Bytes, i: nat, b: Byte, name: Bytes, j: nat)
    requires StandsAt(s, i, if b == QUOTE then [QUOTE, QUOTE] else [b])
    requires StringIs(s, i + if b == QUOTE then 2 else 1, name, j)
    ensures StringIs(s, i, [b] + name, j)
  {
    var first := if b == QUOTE then [QUOTE, QUOTE] else [b];
    DoubledMore(b, name);
    StandsTogether(s, i, first, Doubled(name));
    StandsTogether(s, i, first, Doubled(name) + [QUOTE]);
    assert first + (Doubled(name) + [QUOTE]) == (first + Doubled(name)) + [QUOTE];
  }

  /** Where the scan leaves a string is where it ends. */
  lemma {:induction false} QuotedEndEnds(s: Bytes, i: nat) returns (name: Bytes)
    requires i <= |s|
    ensures StringIs(s, i, name, QuotedEnd(s, i))
    decreases |s| - i
  {
    if i == |s| {
      name := [];
    } else if s[i] == QUOTE && At(s, i + 1) == QUOTE {
      name := QuotedEndEnds(s, i + 2);
      StringGrows(s, i, QUOTE, name, QuotedEnd(s, i));
      name := [QUOTE] + name;
    } else if s[i] == QUOTE {
      name := [];
      assert Doubled([]) + [QUOTE] == [QUOTE];
    } else {
      name := QuotedEndEnds(s, i + 1);
      StringGrows(s, i, s[i], name, QuotedEnd(s, i));
      name := [s[i]] + name;
    }
  }

  lemma StringShrinks(s: Bytes, i: nat, b: Byte, name: Bytes, j: nat)
    requires StringIs(s, i, [b] + name, j)
    ensures StandsAt(s, i, if b == QUOTE then [QUOTE, QUOTE] else [b])
    ensures StringIs(s, i + if b == QUOTE then 2 else 1, name, j)
  {
    var first, rest := if b == QUOTE then [QUOTE, QUOTE] else [b], Doubled(name);
    DoubledMore(b, name);
    StandsTogether(s, i, first, rest);
    StandsTogether(s, i, first, rest + [QUOTE]);
    assert first + (rest + [QUOTE]) == (first + rest) + [QUOTE];
  }

  lemma {:induction false} StringIsQuoted(s: Bytes, i: nat, name: Bytes, j: nat)
    requires i <= |s| && StringIs(s, i, name, j)
    ensures QuotedEnd(s, i) == j
    decreases |name|
  {
    if name == [] {
      assert Doubled([]) + [QUOTE] == [QUOTE];
      assert StandsAt(s, i, [QUOTE]) ==> s[i] == [QUOTE][0];
    } else {
      assert name == [name[0]] + name[1..];
      StringShrinks(s, i, name[0], name[1..], j);
      var first := if name[0] == QUOTE then [QUOTE, QUOTE] else [name[0]];
      assert s[i] == first[0];
      assert name[0] == QUOTE ==> s[i + 1] == first[1];
      StringIsQuoted(s, i + |first|, name[1..], j);
    }
  }

  lemma QuotedEndIs(s: Bytes, i: nat, j: nat)
    requires i <= |s|
    ensures QuotedEnd(s, i) == j <==> StringEnds(s, i, j)
  {
    var name := QuotedEndEnds(s, i);
    if name :| StringIs(s, i, name, j) {
      StringIsQuoted(s, i, name, j);
    }
  }

  /** The content of a static bracket: spaces, a quoted name, spaces, the closing bracket. */
  function BracketText(before: Bytes, name: Bytes, quote: Byte, after: Bytes): Bytes {
    before + ([quote] + ((Spelled(name, quote) + [quote]) + (after + [CLOSE_BRACKET])))
  }

  lemma BracketParts(s: Bytes, i: nat, before: Bytes, name: Bytes, quote: Byte, after: Bytes)
    ensures StandsAt(s, i, BracketText(before, name, quote, after)) <==>
            && StandsAt(s, i, before) && StandsAt(s, i + |before|, [quote])
            && StandsAt(s, i + |before| + 1, Spelled(name, quote) + [quote])
            && StandsAt(s, NameEnd(i, before, name, quote), after)
            && StandsAt(s, NameEnd(i, before, name, quote) + |after|, [CLOSE_BRACKET])
  {
    var p, q := i + |before|, NameEnd(i, before, name, quote);
    StandsTogether(s, i, before, [quote] + ((Spelled(name, quote) + [quote]) + (after + [CLOSE_BRACKET])));
    StandsTogether(s, p, [quote], (Spelled(name, quote) + [quote]) + (after + [CLOSE_BRACKET]));
    StandsTogether(s, p + 1, Spelled(name, quote) + [quote], after + [CLOSE_BRACKET]);
    StandsTogether(s, q, after, [CLOSE_BRACKET]);
  }

  function NameEnd(i: nat, before: Bytes, name: Bytes, quote: Byte): nat {
    i + |before| + 1 + (|Spelled(name, quote)| + 1)
  }

  lemma AfterName(s: Bytes, q: nat, after: Bytes)
    requires StandsAt(s, q, after) && StandsAt(s, q + |after|, [CLOSE_BRACKET]) && Spaces(after)
    ensures SkipSpace(s, q) == q + |after| && At(s, q + |after|) == CLOSE_BRACKET && At(s, q) != QUOTE
  {
    FirstStands(s, q + |after|, [CLOSE_BRACKET]);
    if after != [] {
      FirstStands(s, q, after);
      assert Space(after[0]);
    }
    SpacesSkipped(s, q, after);
  }

  lemma QuoteFound(s: Bytes, i: nat, before: Bytes, quote: Byte)
    requires StandsAt(s, i, before) && Spaces(before) && StandsAt(s, i + |before|, [quote])
    requires quote == QUOTE || quote == DOUBLE_QUOTE
    ensures SkipSpace(s, i) == i + |before| && At(s, i + |before|) == quote
  {
    FirstStands(s, i + |before|, [quote]);
    SpacesSkipped(s, i, before);
  }

  lemma BracketIs(s: Bytes, i: nat, start: nat, name: Bytes, end: nat, after: nat)
    requires i <= start < |s| && SkipSpace(s, i) == start && s[start] in {QUOTE, DOUBLE_QUOTE}
    requires PropertyFrom(s, start + 1, s[start]) == Some((name, end)) && SkipSpace(s, end) == after
    requires At(s, after) == CLOSE_BRACKET
    ensures BracketProperty(s, i) == Static(Downcase(name), after + 1)
  {
  }

  lemma PartsRecover(s: Bytes, i: nat, before: Bytes, name: Bytes, quote: Byte, after: Bytes)
    requires Spaces(before) && Spaces(after) && Spellable(name, quote)
    requires StandsAt(s, i, before) && StandsAt(s, i + |before|, [quote])
    requires StandsAt(s, i + |before| + 1, Spelled(name, quote) + [quote])
    requires StandsAt(s, NameEnd(i, before, name, quote), after)
    requires StandsAt(s, NameEnd(i, before, name, quote) + |after|, [CLOSE_BRACKET])
    ensures i <= |s| && BracketProperty(s, i) == Static(Downcase(name), NameEnd(i, before, name, quote) + |after| + 1)
  {
    var end := NameEnd(i, before, name, quote);
    QuoteFound(s, i, before, quote);
    AfterName(s, end, after);
    PropertyReads(s, i + |before| + 1, name, quote);
    BracketIs(s, i, i + |before|, name, end, end + |after|);
  }

  /** A quoted name comes back in lower case: any name between single quotes with its quotes doubled, and any
      name without double quotes between those. */
  lemma BracketRecovers(s: Bytes, i: nat, before: Bytes, name: Bytes, quote: Byte, after: Bytes)
    requires Spaces(before) && Spaces(after) && Spellable(name, quote)
    requires StandsAt(s, i, BracketText(before, name, quote, after))
    ensures i <= |s| && BracketProperty(s, i) == Static(Downcase(name), i + |BracketText(before, name, quote, after)|)
  {
    BracketParts(s, i, before, name, quote, after);
    PartsRecover(s, i, before, name, quote, after);
    TextLength(i, before, name, quote, after);
  }

  lemma TextLength(i: nat, before: Bytes, name: Bytes, quote: Byte, after: Bytes)
    ensures i + |BracketText(before, name, quote, after)| == NameEnd(i, before, name, quote) + |after| + 1
  {
  }

  /** And nothing else is static. */
  lemma StaticIsBracketText(s: Bytes, i: nat) returns (before: Bytes, name: Bytes, quote: Byte, after: Bytes)
    requires i <= |s| && BracketProperty(s, i).Static?
    ensures Spaces(before) && Spaces(after) && Spellable(name, quote)
    ensures StandsAt(s, i, BracketText(before, name, quote, after))
    ensures BracketProperty(s, i) == Static(Downcase(name), i + |BracketText(before, name, quote, after)|)
  {
    var start := SkipSpace(s, i);
    SkippedIsSpaces(s, i);
    before, quote := s[i..start], s[start];
    PropertySpelled(s, start + 1, quote);
    name := PropertyFrom(s, start + 1, quote).value.0;
    var end := PropertyFrom(s, start + 1, quote).value.1;
    SkippedIsSpaces(s, end);
    after := s[end..SkipSpace(s, end)];
    OneStands(s, start);
    OneStands(s, SkipSpace(s, end));
    BracketParts(s, i, before, name, quote, after);
    BracketRecovers(s, i, before, name, quote, after);
  }

  // ----- Accesses -----------------------------------------------------------------------------------------

  /** A static access: a dot and an identifier, or a bracket around a quoted name. */
  datatype StaticAccess =
    | Dotted(before: Bytes, between: Bytes, name: Bytes)
    | Bracketed(before: Bytes, opening: Bytes, name: Bytes, quote: Byte, closing: Bytes)

  predicate IsIdentifier(name: Bytes) {
    name != [] && IdentifierStart(name[0]) && forall i :: 0 <= i < |name| ==> IdentifierPart(name[i])
  }

  predicate WellSpelled(a: StaticAccess) {
    match a
    case Dotted(before, between, name) => Spaces(before) && Spaces(between) && IsIdentifier(name)
    case Bracketed(before, opening, name, quote, closing) =>
      Spaces(before) && Spaces(opening) && Spaces(closing) && Spellable(name, quote)
  }

  function AccessText(a: StaticAccess): Bytes {
    match a
    case Dotted(before, between, name) => before + ([DOT] + (between + name))
    case Bracketed(before, opening, name, quote, closing) => before + ([OPEN_BRACKET] + BracketText(opening, name, quote, closing))
  }

  /** The access stands there, and an identifier's next byte is not part of it. */
  predicate AccessAt(s: Bytes, i: nat, a: StaticAccess) {
    WellSpelled(a) && StandsAt(s, i, AccessText(a)) && (a.Dotted? ==> !IdentifierPart(At(s, i + |AccessText(a)|)))
  }

  lemma IdentifierRead(s: Bytes, i: nat, name: Bytes)
    requires StandsAt(s, i, name) && IsIdentifier(name) && !IdentifierPart(At(s, i + |name|))
    ensures IdentifierStart(At(s, i)) && IdentifierEnd(s, i + 1) == i + |name|
  {
    assert s[i] == name[0];
    forall k | i <= k < i + |name| ensures IdentifierPart(At(s, k)) {
      assert s[k] == name[k - i];
    }
  }

  lemma DotParts(s: Bytes, i: nat, before: Bytes, between: Bytes, name: Bytes)
    ensures StandsAt(s, i, before + ([DOT] + (between + name))) <==>
            && StandsAt(s, i, before) && StandsAt(s, i + |before|, [DOT]) && StandsAt(s, i + |before| + 1, between)
            && StandsAt(s, i + |before| + 1 + |between|, name)
  {
    StandsTogether(s, i, before, [DOT] + (between + name));
    StandsTogether(s, i + |before|, [DOT], between + name);
    StandsTogether(s, i + |before| + 1, between, name);
  }

  lemma OpeningParts(s: Bytes, i: nat, before: Bytes, content: Bytes)
    ensures StandsAt(s, i, before + ([OPEN_BRACKET] + content)) <==>
            StandsAt(s, i, before) && StandsAt(s, i + |before|, [OPEN_BRACKET]) && StandsAt(s, i + |before| + 1, content)
  {
    StandsTogether(s, i, before, [OPEN_BRACKET] + content);
    StandsTogether(s, i + |before|, [OPEN_BRACKET], content);
  }

  lemma AccessorFound(s: Bytes, i: nat, before: Bytes, accessor: Byte)
    requires StandsAt(s, i, before) && Spaces(before) && StandsAt(s, i + |before|, [accessor]) && !Space(accessor)
    ensures SkipSpace(s, i) == i + |before| && At(s, i + |before|) == accessor
  {
    FirstStands(s, i + |before|, [accessor]);
    SpacesSkipped(s, i, before);
  }

  lemma DotAccess(s: Bytes, i: nat, accessor: nat, start: nat, end: nat, token: Bytes)
    requires i <= |s| && SkipSpace(s, i) == accessor && At(s, accessor) == DOT
    requires SkipSpace(s, accessor + 1) == start && IdentifierStart(At(s, start)) && IdentifierEnd(s, start + 1) == end
    ensures Access(s, i, token) == if Downcase(s[start..end]) == token then Flag else Go(end)
  {
  }

  lemma StandingSlice(s: Bytes, i: nat, text: Bytes)
    requires StandsAt(s, i, text)
    ensures s[i..i + |text|] == text
  {
  }

  lemma DottedRead(s: Bytes, i: nat, a: StaticAccess, token: Bytes)
    requires i <= |s| && AccessAt(s, i, a) && a.Dotted?
    ensures Access(s, i, token) == if Downcase(a.name) == token then Flag else Go(i + |AccessText(a)|)
  {
    var accessor, start := i + |a.before|, i + |a.before| + 1 + |a.between|;
    DotParts(s, i, a.before, a.between, a.name);
    DotLength(a.before, a.between, a.name);
    AccessorFound(s, i, a.before, DOT);
    IdentifierRead(s, start, a.name);
    SpacesSkipped(s, accessor + 1, a.between);
    StandingSlice(s, start, a.name);
    DotAccess(s, i, accessor, start, start + |a.name|, token);
  }

  lemma DotLength(before: Bytes, between: Bytes, name: Bytes)
    ensures |before + ([DOT] + (between + name))| == |before| + 1 + |between| + |name|
  {
  }

  lemma BracketAccess(s: Bytes, i: nat, accessor: nat, name: Bytes, end: nat, token: Bytes)
    requires i <= |s| && SkipSpace(s, i) == accessor && At(s, accessor) == OPEN_BRACKET
    requires BracketProperty(s, accessor + 1) == Static(name, end)
    ensures Access(s, i, token) == if name == token then Flag else Go(end)
  {
  }

  lemma OpenedRead(s: Bytes, i: nat, before: Bytes, content: Bytes, name: Bytes, token: Bytes)
    requires i <= |s| && Spaces(before) && StandsAt(s, i, before + ([OPEN_BRACKET] + content))
    requires i + |before| < |s| && BracketProperty(s, i + |before| + 1) == Static(name, i + |before| + 1 + |content|)
    ensures Access(s, i, token) == if name == token then Flag else Go(i + |before + ([OPEN_BRACKET] + content)|)
  {
    OpeningParts(s, i, before, content);
    AccessorFound(s, i, before, OPEN_BRACKET);
    BracketAccess(s, i, i + |before|, name, i + |before| + 1 + |content|, token);
  }

  lemma BracketedParts(s: Bytes, i: nat, a: StaticAccess, content: Bytes)
    requires AccessAt(s, i, a) && a.Bracketed? && content == BracketText(a.opening, a.name, a.quote, a.closing)
    ensures StandsAt(s, i, a.before + ([OPEN_BRACKET] + content)) && i + |a.before| < |s|
    ensures StandsAt(s, i + |a.before| + 1, content)
    ensures |AccessText(a)| == |a.before + ([OPEN_BRACKET] + content)|
  {
    OpeningParts(s, i, a.before, content);
  }

  lemma BracketedRead(s: Bytes, i: nat, a: StaticAccess, token: Bytes)
    requires i <= |s| && AccessAt(s, i, a) && a.Bracketed?
    ensures Access(s, i, token) == if Downcase(a.name) == token then Flag else Go(i + |AccessText(a)|)
  {
    var content := BracketText(a.opening, a.name, a.quote, a.closing);
    BracketedParts(s, i, a, content);
    BracketRecovers(s, i + |a.before| + 1, a.opening, a.name, a.quote, a.closing);
    OpenedRead(s, i, a.before, content, Downcase(a.name), token);
  }

  /** A static access is read as what it spells: refused when it names the token, passed otherwise. */
  lemma StaticAccessRead(s: Bytes, i: nat, a: StaticAccess, token: Bytes)
    requires i <= |s| && AccessAt(s, i, a)
    ensures Access(s, i, token) == if Downcase(a.name) == token then Flag else Go(i + |AccessText(a)|)
  {
    if a.Dotted? {
      DottedRead(s, i, a, token);
    } else {
      BracketedRead(s, i, a, token);
    }
  }

  lemma IdentifierStands(s: Bytes, start: nat)
    requires start < |s| && IdentifierStart(s[start])
    ensures var end := IdentifierEnd(s, start + 1);
            IsIdentifier(s[start..end]) && StandsAt(s, start, s[start..end]) && start + |s[start..end]| == end
  {
    var end := IdentifierEnd(s, start + 1);
    forall k | 0 <= k < end - start ensures IdentifierPart(s[start..end][k]) {
      assert IdentifierPart(At(s, start + k));
    }
  }

  lemma SliceStands(s: Bytes, i: nat, j: nat)
    requires i <= j <= |s|
    ensures StandsAt(s, i, s[i..j]) && |s[i..j]| == j - i
  {
  }

  lemma DotStands(s: Bytes, i: nat, accessor: nat, start: nat, end: nat)
    requires i <= accessor < start < end <= |s| && s[accessor] == DOT && !IdentifierPart(At(s, end))
    requires Spaces(s[i..accessor]) && Spaces(s[accessor + 1..start]) && IsIdentifier(s[start..end])
    ensures AccessAt(s, i, Dotted(s[i..accessor], s[accessor + 1..start], s[start..end]))
  {
    var before, between, name := s[i..accessor], s[accessor + 1..start], s[start..end];
    SliceStands(s, i, accessor);
    SliceStands(s, accessor + 1, start);
    SliceStands(s, start, end);
    OneStands(s, accessor);
    DotParts(s, i, before, between, name);
    assert i + |before + ([DOT] + (between + name))| == end;
  }

  lemma PassedDot(s: Bytes, i: nat, token: Bytes) returns (a: StaticAccess)
    requires i <= |s| && Access(s, i, token).Go? && At(s, SkipSpace(s, i)) == DOT
    ensures AccessAt(s, i, a) && Downcase(a.name) != token
  {
    var accessor := SkipSpace(s, i);
    var start := SkipSpace(s, accessor + 1);
    var end := IdentifierEnd(s, start + 1);
    SkippedIsSpaces(s, i);
    SkippedIsSpaces(s, accessor + 1);
    IdentifierStands(s, start);
    DotStands(s, i, accessor, start, end);
    a := Dotted(s[i..accessor], s[accessor + 1..start], s[start..end]);
  }

  lemma BracketStands(s: Bytes, i: nat, accessor: nat, before: Bytes, a: StaticAccess)
    requires a.Bracketed? && a.before == before && WellSpelled(a)
    requires i <= accessor < |s| && s[accessor] == OPEN_BRACKET && StandsAt(s, i, before) && i + |before| == accessor
    requires StandsAt(s, accessor + 1, BracketText(a.opening, a.name, a.quote, a.closing))
    ensures AccessAt(s, i, a)
  {
    OneStands(s, accessor);
    OpeningParts(s, i, before, BracketText(a.opening, a.name, a.quote, a.closing));
  }

  lemma PassedBracket(s: Bytes, i: nat, token: Bytes) returns (a: StaticAccess)
    requires i <= |s| && Access(s, i, token).Go? && At(s, SkipSpace(s, i)) != DOT
    ensures AccessAt(s, i, a) && Downcase(a.name) != token
  {
    var accessor := SkipSpace(s, i);
    SkippedIsSpaces(s, i);
    var opening, name, quote, closing := StaticIsBracketText(s, accessor + 1);
    SliceStands(s, i, accessor);
    a := Bracketed(s[i..accessor], opening, name, quote, closing);
    BracketStands(s, i, accessor, s[i..accessor], a);
  }

  /** Only static accesses that do not name the token are passed. */
  lemma PassedIsStatic(s: Bytes, i: nat, token: Bytes) returns (a: StaticAccess)
    requires i <= |s| && Access(s, i, token).Go?
    ensures AccessAt(s, i, a) && Downcase(a.name) != token && Access(s, i, token) == Go(i + |AccessText(a)|)
  {
    if At(s, SkipSpace(s, i)) == DOT {
      a := PassedDot(s, i, token);
    } else {
      a := PassedBracket(s, i, token);
    }
    StaticAccessRead(s, i, a, token);
  }

  // ----- Verdicts -----------------------------------------------------------------------------------------

  /** The scan from `i` comes to position `j`. */
  predicate Reaches(s: Bytes, i: nat, j: nat)
    decreases |s| - i
  {
    i == j || (i < |s| && StepFrom(s, i).Go? && Reaches(s, StepFrom(s, i).next, j))
  }

  /** A token's context stands at `i`: an identifier, in any case, that names one and is not a property itself. */
  predicate ContextAt(s: Bytes, i: nat, context: Bytes) {
    && i <= |s| && IsIdentifier(context) && StandsAt(s, i, context) && !IdentifierPart(At(s, i + |context|))
    && TokenProperty(Downcase(context)).Some? && !AfterDot(s, i)
  }

  lemma ContextRead(s: Bytes, i: nat, context: Bytes)
    requires ContextAt(s, i, context)
    ensures StepFrom(s, i) == Access(s, i + |context|, TokenProperty(Downcase(context)).value)
  {
    IdentifierRead(s, i, context);
    assert s[i] == context[0];
  }

  lemma {:induction false} ReachedDecides(s: Bytes, i: nat, j: nat)
    requires Reaches(s, i, j) && j <= |s|
    ensures TokenAccessFrom(s, i) == TokenAccessFrom(s, j)
    decreases |s| - i
  {
    if i != j {
      ReachedDecides(s, StepFrom(s, i).next, j);
    }
  }

  /** Every static access at `i`, if there is one, names the token. */
  ghost predicate OnlyToken(s: Bytes, i: nat, token: Bytes) {
    forall a :: AccessAt(s, i, a) ==> Downcase(a.name) == token
  }

  lemma FlagIs(s: Bytes, i: nat, token: Bytes)
    requires i <= |s|
    ensures Access(s, i, token).Flag? <==> OnlyToken(s, i, token)
  {
    if Access(s, i, token).Go? {
      var a := PassedIsStatic(s, i, token);
    } else {
      forall a | AccessAt(s, i, a) ensures Downcase(a.name) == token {
        StaticAccessRead(s, i, a, token);
      }
    }
  }

  /** A context with no static access to another property after it. */
  ghost predicate RefusedAt(s: Bytes, i: nat, context: Bytes) {
    ContextAt(s, i, context) && OnlyToken(s, i + |context|, TokenProperty(Downcase(context)).value)
  }

  lemma FlagShape(s: Bytes, i: nat)
    requires i < |s| && StepFrom(s, i).Flag?
    ensures IdentifierStart(s[i])
    ensures var end := IdentifierEnd(s, i + 1); var token := TokenProperty(Downcase(s[i..end]));
            token.Some? && !AfterDot(s, i) && Access(s, end, token.value).Flag?
  {
  }

  lemma RefusedHere(s: Bytes, i: nat) returns (context: Bytes)
    requires i < |s| && StepFrom(s, i).Flag?
    ensures RefusedAt(s, i, context)
  {
    FlagShape(s, i);
    IdentifierStands(s, i);
    var end := IdentifierEnd(s, i + 1);
    context := s[i..end];
    FlagIs(s, end, TokenProperty(Downcase(context)).value);
  }

  lemma {:induction false} RefusedSomewhere(s: Bytes, i: nat) returns (j: nat, context: Bytes)
    requires TokenAccessFrom(s, i)
    ensures Reaches(s, i, j) && RefusedAt(s, j, context)
    decreases |s| - i
  {
    if StepFrom(s, i).Go? {
      j, context := RefusedSomewhere(s, StepFrom(s, i).next);
    } else {
      j := i;
      context := RefusedHere(s, i);
    }
  }

  lemma RefusedFlags(s: Bytes, i: nat, context: Bytes)
    requires RefusedAt(s, i, context)
    ensures TokenAccessFrom(s, i)
  {
    FlagIs(s, i + |context|, TokenProperty(Downcase(context)).value);
    ContextFlags(s, i, context, i + |context|, TokenProperty(Downcase(context)).value);
  }

  lemma ContextFlags(s: Bytes, i: nat, context: Bytes, end: nat, token: Bytes)
    requires ContextAt(s, i, context) && end == i + |context| && token == TokenProperty(Downcase(context)).value
    requires Access(s, end, token).Flag?
    ensures TokenAccessFrom(s, i)
  {
    FirstStands(s, i, context);
    ContextRead(s, i, context);
    FlagFrom(s, i);
  }

  lemma FlagFrom(s: Bytes, i: nat)
    requires i < |s| && StepFrom(s, i).Flag?
    ensures TokenAccessFrom(s, i)
  {
  }

  lemma RefusedDecides(s: Bytes, i: nat, context: Bytes)
    requires Reaches(s, 0, i) && RefusedAt(s, i, context)
    ensures TokenAccessFrom(s, 0)
  {
    ReachedDecides(s, 0, i);
    RefusedFlags(s, i, context);
  }

  /** An expression is refused exactly when the scan comes to a token's context that no static access to another
      property follows - however names are cased, spaced or quoted. */
  lemma VerdictIs(s: Bytes)
    ensures TokenAccessFrom(s, 0) <==> exists i: nat, context :: Reaches(s, 0, i) && RefusedAt(s, i, context)
  {
    if TokenAccessFrom(s, 0) {
      var i, context := RefusedSomewhere(s, 0);
    }
    if i: nat, context :| Reaches(s, 0, i) && RefusedAt(s, i, context) {
      RefusedDecides(s, i, context);
    }
  }

  // ----- Whole values -------------------------------------------------------------------------------------

  predicate Reference(value: Bytes) {
    exists b :: b in Bodies(value, 0) && TokenAccessFrom(b, 0)
  }

  method GithubTokenReference(value: Bytes) returns (found: bool)
    ensures found == Reference(value)
  {
    var bodies := ActionsExpressionBodies(value);
    for i := 0 to |bodies|
      invariant forall j :: 0 <= j < i ==> !TokenAccessFrom(bodies[j], 0)
    {
      var access := TokenAccessInExpression(bodies[i]);
      if access {
        assert bodies[i] in bodies;
        return true;
      }
    }
    found := false;
  }

  /** A value that embeds expressions between texts refers to a token exactly when one of the expressions does. */
  lemma EmbeddedReference(texts: seq<Bytes>, bodies: seq<Bytes>)
    requires Embeddable(texts, bodies)
    ensures Reference(Embed(texts, bodies)) <==> exists i :: 0 <= i < |bodies| && TokenAccessFrom(bodies[i], 0)
  {
    EmbedRoundTrip(texts, bodies);
    if i :| 0 <= i < |bodies| && TokenAccessFrom(bodies[i], 0) {
      assert bodies[i] in bodies;
    }
  }
}
