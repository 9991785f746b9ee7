/** Expressions as sequences of lexemes, and the detector's verdict stated on them - and, for expressions without
    double quotes, on quote parity alone. */
module TokenLexemes {
  import opened Kernel
  import opened ExpressionScanner
  import opened TokenAccess

  // ----- Lexemes ------------------------------------------------------------------------------------------

  /** A single-quoted string from `i` to `j`. */
  ghost predicate LiteralAt(s: Bytes, i: nat, j: nat) {
    i < |s| && s[i] == QUOTE && StringEnds(s, i + 1, j)
  }

  /** A whole identifier stands at `i`. */
  predicate NameAt(s: Bytes, i: nat, name: Bytes) {
    i <= |s| && IsIdentifier(name) && StandsAt(s, i, name) && !IdentifierPart(At(s, i + |name|))
  }

  /** A whole identifier that is no token's context, or a property itself. */
  ghost predicate WordAt(s: Bytes, i: nat, j: nat) {
    exists name :: NameAt(s, i, name) && j == i + |name| && (TokenProperty(Downcase(name)).None? || AfterDot(s, i))
  }

  /** A token's context with a static access to another property. */
  ghost predicate PassedAt(s: Bytes, i: nat, j: nat) {
    exists context :: ContextAt(s, i, context) && OtherProperty(s, i + |context|, TokenProperty(Downcase(context)).value, j)
  }

  /** A static access to a property other than the token. */
  ghost predicate OtherProperty(s: Bytes, i: nat, token: Bytes, j: nat) {
    exists a :: AccessAt(s, i, a) && Downcase(a.name) != token && j == i + |AccessText(a)|
  }

  /** Any other byte. */
  predicate OtherAt(s: Bytes, i: nat) {
    i < |s| && s[i] != QUOTE && !IdentifierStart(s[i])
  }

  ghost predicate LexemeAt(s: Bytes, i: nat, j: nat) {
    LiteralAt(s, i, j) || WordAt(s, i, j) || PassedAt(s, i, j) || (OtherAt(s, i) && j == i + 1)
  }

  lemma NameRead(s: Bytes, i: nat, name: Bytes, end: nat)
    requires NameAt(s, i, name) && end == i + |name|
    ensures i < end <= |s| && IdentifierStart(s[i]) && IdentifierEnd(s, i + 1) == end && s[i..end] == name
  {
    IdentifierRead(s, i, name);
    StandingSlice(s, i, name);
  }

  /** What the scan does at an identifier. */
  lemma NameStep(s: Bytes, i: nat, name: Bytes, end: nat)
    requires i < end <= |s| && IdentifierStart(s[i]) && IdentifierEnd(s, i + 1) == end && s[i..end] == name
    ensures StepFrom(s, i) == if TokenProperty(Downcase(name)).None? || AfterDot(s, i) then Go(end)
                              else Access(s, end, TokenProperty(Downcase(name)).value)
  {
  }

  lemma NameFound(s: Bytes, i: nat) returns (name: Bytes)
    requires i < |s| && IdentifierStart(s[i])
    ensures NameAt(s, i, name)
  {
    IdentifierStands(s, i);
    name := s[i..IdentifierEnd(s, i + 1)];
  }

  /** An identifier's extent is fixed. */
  lemma OneName(s: Bytes, i: nat, a: Bytes, b: Bytes)
    requires NameAt(s, i, a) && NameAt(s, i, b)
    ensures a == b
  {
    NameRead(s, i, a, i + |a|);
    NameRead(s, i, b, i + |b|);
  }

  lemma PropertyIsStep(s: Bytes, i: nat, token: Bytes, j: nat)
    requires i <= |s|
    ensures Access(s, i, token) == Go(j) <==> OtherProperty(s, i, token, j)
  {
    if Access(s, i, token) == Go(j) {
      var a := PassedIsStatic(s, i, token);
    }
    if a :| AccessAt(s, i, a) && Downcase(a.name) != token && j == i + |AccessText(a)| {
      StaticAccessRead(s, i, a, token);
    }
  }

  lemma NameIsStep(s: Bytes, i: nat, j: nat)
    requires i < |s| && IdentifierStart(s[i])
    ensures StepFrom(s, i) == Go(j) <==> WordAt(s, i, j) || PassedAt(s, i, j)
  {
    var name := NameFound(s, i);
    NameRead(s, i, name, i + |name|);
    NameStep(s, i, name, i + |name|);
    var token := TokenProperty(Downcase(name));
    if token.Some? && !AfterDot(s, i) {
      PropertyIsStep(s, i + |name|, token.value, j);
    }
    WordIs(s, i, j, name);
    PassedIs(s, i, j, name);
  }

  lemma WordIs(s: Bytes, i: nat, j: nat, name: Bytes)
    requires NameAt(s, i, name)
    ensures WordAt(s, i, j) <==> j == i + |name| && (TokenProperty(Downcase(name)).None? || AfterDot(s, i))
  {
    if other :| NameAt(s, i, other) && j == i + |other| && (TokenProperty(Downcase(other)).None? || AfterDot(s, i)) {
      OneName(s, i, name, other);
    }
  }

  lemma PassedIs(s: Bytes, i: nat, j: nat, name: Bytes)
    requires NameAt(s, i, name)
    ensures PassedAt(s, i, j) <==>
            && TokenProperty(Downcase(name)).Some? && !AfterDot(s, i)
            && OtherProperty(s, i + |name|, TokenProperty(Downcase(name)).value, j)
  {
    if context :| ContextAt(s, i, context) && OtherProperty(s, i + |context|, TokenProperty(Downcase(context)).value, j) {
      OneName(s, i, name, context);
    }
    if TokenProperty(Downcase(name)).Some? && !AfterDot(s, i) {
      assert ContextAt(s, i, name);
    }
  }

  /** The scan goes from `i` to `j` in one step exactly when a lexeme stands between them. */
  lemma StepIsLexeme(s: Bytes, i: nat, j: nat)
    requires i < |s|
    ensures StepFrom(s, i) == Go(j) <==> LexemeAt(s, i, j)
  {
    if s[i] == QUOTE {
      QuotedEndIs(s, i + 1, j);
      NoName(s, i, j);
    } else if IdentifierStart(s[i]) {
      NameIsStep(s, i, j);
    } else {
      NoName(s, i, j);
    }
  }

  lemma NoName(s: Bytes, i: nat, j: nat)
    requires i < |s| && !IdentifierStart(s[i])
    ensures !WordAt(s, i, j) && !PassedAt(s, i, j)
  {
    forall name | NameAt(s, i, name) ensures false {
      FirstStands(s, i, name);
    }
    forall context | ContextAt(s, i, context) ensures false {
      FirstStands(s, i, context);
    }
  }

  lemma LexemesStart(s: Bytes, i: nat, j: nat)
    requires LexemeAt(s, i, j)
    ensures i < |s|
  {
    if WordAt(s, i, j) {
      var name :| NameAt(s, i, name);
      FirstStands(s, i, name);
    } else if PassedAt(s, i, j) {
      var context :| ContextAt(s, i, context);
      FirstStands(s, i, context);
    }
  }

  /** Cutting an expression into lexemes, from one position to another. */
  ghost predicate Cuts(s: Bytes, cuts: seq<nat>, from_: nat, to: nat) {
    && cuts != [] && cuts[0] == from_ && cuts[|cuts| - 1] == to
    && forall k :: 0 < k < |cuts| ==> LexemeAt(s, cuts[k - 1], cuts[k])
  }

  lemma {:induction false} ReachedCuts(s: Bytes, i: nat, j: nat) returns (cuts: seq<nat>)
    requires Reaches(s, i, j)
    ensures Cuts(s, cuts, i, j)
    decreases |s| - i
  {
    if i == j {
      cuts := [i];
    } else {
      var next := StepFrom(s, i).next;
      StepIsLexeme(s, i, next);
      var rest := ReachedCuts(s, next, j);
      cuts := [i] + rest;
      forall k | 0 < k < |cuts| ensures LexemeAt(s, cuts[k - 1], cuts[k]) {
        assert cuts[k] == rest[k - 1] && (k > 1 ==> cuts[k - 1] == rest[k - 2]);
      }
    }
  }

  lemma {:induction false} CutsReach(s: Bytes, cuts: seq<nat>, i: nat, j: nat)
    requires Cuts(s, cuts, i, j)
    ensures Reaches(s, i, j)
    decreases |cuts|
  {
    if |cuts| > 1 {
      var rest := cuts[1..];
      assert LexemeAt(s, cuts[0], cuts[1]);
      LexemesStart(s, cuts[0], cuts[1]);
      StepIsLexeme(s, cuts[0], cuts[1]);
      forall k | 0 < k < |rest| ensures LexemeAt(s, rest[k - 1], rest[k]) {
        assert LexemeAt(s, cuts[k + 1 - 1], cuts[k + 1]);
      }
      CutsReach(s, rest, cuts[1], j);
    }
  }

  /** The expression up to `i` is a sequence of lexemes. */
  ghost predicate Lexed(s: Bytes, i: nat) {
    exists cuts :: Cuts(s, cuts, 0, i)
  }

  lemma ReachedIsLexed(s: Bytes, i: nat)
    ensures Reaches(s, 0, i) <==> Lexed(s, i)
  {
    if Reaches(s, 0, i) {
      var cuts := ReachedCuts(s, 0, i);
    }
    if cuts :| Cuts(s, cuts, 0, i) {
      CutsReach(s, cuts, 0, i);
    }
  }

  /** An expression is refused exactly when lexemes lead up to a token's context that no static access to another
      property follows - however names are cased, spaced or quoted. */
  lemma RefusedIsLexical(s: Bytes)
    ensures TokenAccessFrom(s, 0) <==> exists i: nat, context :: Lexed(s, i) && RefusedAt(s, i, context)
  {
    VerdictIs(s);
    if i: nat, context :| Reaches(s, 0, i) && RefusedAt(s, i, context) {
      ReachedIsLexed(s, i);
    }
    if i: nat, context :| Lexed(s, i) && RefusedAt(s, i, context) {
      ReachedIsLexed(s, i);
    }
  }
  // ----- Counting quotes ----------------------------------------------------------------------------------

  lemma {:induction false} QuotesStand(s: Bytes, i: nat, text: Bytes, k: nat)
    requires StandsAt(s, i, text) && k <= |text|
    ensures Quotes(s, i + k) == Quotes(s, i) + Quotes(text, k)
  {
    if k > 0 {
      QuotesStand(s, i, text, k - 1);
      assert s[i + (k - 1)] == text[k - 1];
    }
  }

  lemma {:induction false} NoQuotes(text: Bytes, k: nat)
    requires k <= |text| && forall i :: 0 <= i < k ==> text[i] != QUOTE
    ensures Quotes(text, k) == 0
  {
    if k > 0 {
      NoQuotes(text, k - 1);
    }
  }

  /** Inside a spelled name, every byte but a quote stands after an even number of quotes; so does the end. */
  lemma {:induction false} DoubledParity(name: Bytes, k: nat)
    requires k <= |Doubled(name)| && (k < |Doubled(name)| ==> Doubled(name)[k] != QUOTE)
    ensures Quotes(Doubled(name), k) % 2 == 0
    decreases |name|
  {
    if name != [] {
      var first, rest := if name[0] == QUOTE then [QUOTE, QUOTE] else [name[0]], Doubled(name[1..]);
      if k < |first| {
        assert Doubled(name)[..|first|] == first;
        assert k == 0;
      } else {
        assert k < |first + rest| ==> (first + rest)[k] == rest[k - |first|];
        DoubledParity(name[1..], k - |first|);
        ParityAfter(first, rest, k - |first|);
      }
    }
  }

  lemma ParityAfter(first: Bytes, rest: Bytes, k: nat)
    requires (first == [QUOTE, QUOTE] || (|first| == 1 && first[0] != QUOTE)) && k <= |rest|
    ensures Quotes(first + rest, |first| + k) % 2 == Quotes(rest, k) % 2
  {
    var text := first + rest;
    StandsInside(first, rest);
    QuotesStand(text, |first|, rest, k);
    QuotesOfPrefix(first, rest, |first|);
    assert Quotes(first, |first|) % 2 == 0 by {
      assert Quotes(first, 1) == if first[0] == QUOTE then 1 else 0;
    }
  }

  lemma StandsInside(a: Bytes, b: Bytes)
    ensures StandsAt(a + b, |a|, b)
  {
  }

  lemma SameParity(a: nat, b: nat, c: nat)
    requires c == a + b && b % 2 == 0
    ensures c % 2 == a % 2
  {
  }

  /** What a string at an even position hides: every byte in it but its quotes is at an odd one. */
  lemma StringHides(s: Bytes, i: nat, name: Bytes, k: nat)
    requires StandsAt(s, i, Doubled(name)) && k < |Doubled(name)| && s[i + k] != QUOTE
    ensures Quotes(s, i + k) % 2 == Quotes(s, i) % 2
  {
    DoubledParity(name, k);
    QuotesStand(s, i, Doubled(name), k);
    SameParity(Quotes(s, i), Quotes(Doubled(name), k), Quotes(s, i + k));
  }

  lemma StringCounts(s: Bytes, i: nat, name: Bytes)
    requires StandsAt(s, i, Doubled(name))
    ensures Quotes(s, i + |Doubled(name)|) % 2 == Quotes(s, i) % 2
  {
    DoubledParity(name, |Doubled(name)|);
    QuotesStand(s, i, Doubled(name), |Doubled(name)|);
  }

  /** No quote stands from `i` up to `j`. */
  predicate QuoteFree(s: Bytes, i: nat, j: nat)
    requires i <= j <= |s|
  {
    forall k :: i <= k < j ==> s[k] != QUOTE
  }

  lemma {:induction false} FreeCounts(s: Bytes, i: nat, j: nat)
    requires i <= j <= |s| && QuoteFree(s, i, j)
    ensures Quotes(s, j) == Quotes(s, i)
    decreases j
  {
    if i < j {
      FreeCounts(s, i, j - 1);
    }
  }

  // ----- Visible positions --------------------------------------------------------------------------------

  /** The byte at `i` goes on an identifier begun before it. */
  ghost predicate InIdentifier(s: Bytes, i: nat) {
    exists p: nat :: p < i <= |s| && IdentifierStart(s[p]) && Runs(s, p, i)
  }

  predicate Runs(s: Bytes, p: nat, i: nat) {
    forall k :: p <= k <= i ==> IdentifierPart(At(s, k))
  }

  /** An identifier begins at `i`, outside single-quoted strings. */
  ghost predicate Visible(s: Bytes, i: nat) {
    i < |s| && IdentifierStart(s[i]) && Outside(s, i) && !InIdentifier(s, i)
  }

  /** Where a scan may stand: outside strings and identifiers, or at the end. */
  ghost predicate Clear(s: Bytes, i: nat) {
    i <= |s| && (i == |s| || Outside(s, i)) && !InIdentifier(s, i)
  }

  /** Every visible start of an identifier from `i` to before `j` is one of a property. */
  ghost predicate Skips(s: Bytes, i: nat, j: nat) {
    forall k :: i < k < j && Visible(s, k) ==> AfterDot(s, k)
  }

  /** No identifier visibly begins from `i` up to `j`. */
  ghost predicate Hidden(s: Bytes, i: nat, j: nat) {
    forall k :: i <= k < j ==> !Visible(s, k)
  }

  lemma OutOfIdentifiers(s: Bytes, j: nat)
    requires j <= |s| && (!IdentifierPart(At(s, j)) || (j > 0 && !IdentifierPart(s[j - 1])))
    ensures !InIdentifier(s, j)
  {
    if p: nat :| p < j <= |s| && IdentifierStart(s[p]) && Runs(s, p, j) {
      assert IdentifierPart(At(s, j)) && IdentifierPart(At(s, j - 1));
    }
  }

  lemma QuotedHides(s: Bytes, i: nat, name: Bytes)
    requires i < |s| && s[i] == QUOTE && Outside(s, i) && StandsAt(s, i + 1, Doubled(name))
    ensures Hidden(s, i, i + 1 + |Doubled(name)|) && !Outside(s, i + 1 + |Doubled(name)|)
  {
    assert Quotes(s, i + 1) == Quotes(s, i) + 1;
    StringCounts(s, i + 1, name);
    forall k | i < k < i + 1 + |Doubled(name)| ensures !Visible(s, k) {
      if s[k] != QUOTE {
        StringHides(s, i + 1, name, k - i - 1);
      }
    }
  }

  lemma ClosedHides(s: Bytes, i: nat, name: Bytes, j: nat)
    requires i < |s| && s[i] == QUOTE && Outside(s, i) && StandsAt(s, i + 1, Doubled(name) + [QUOTE])
    requires j == i + 1 + |Doubled(name)| + 1
    ensures Hidden(s, i, j) && Clear(s, j) && Outside(s, j)
  {
    StandsTogether(s, i + 1, Doubled(name), [QUOTE]);
    FirstStands(s, j - 1, [QUOTE]);
    QuotedHides(s, i, name);
    assert Quotes(s, j) == Quotes(s, j - 1) + 1;
    OutOfIdentifiers(s, j);
  }

  lemma StringSkips(s: Bytes, i: nat)
    requires i < |s| && s[i] == QUOTE && Outside(s, i)
    ensures Hidden(s, i, QuotedEnd(s, i + 1)) && Clear(s, QuotedEnd(s, i + 1))
  {
    var j := QuotedEnd(s, i + 1);
    var name := QuotedEndEnds(s, i + 1);
    if StandsAt(s, i + 1, Doubled(name) + [QUOTE]) && j == i + 1 + |Doubled(name)| + 1 {
      ClosedHides(s, i, name, j);
    } else {
      QuotedHides(s, i, name);
      OutOfIdentifiers(s, j);
    }
  }

  /** An identifier hides what is inside it and leaves the parity alone. */
  lemma IdentifierSkips(s: Bytes, i: nat, name: Bytes, j: nat)
    requires NameAt(s, i, name) && j == i + |name|
    ensures i < j <= |s| && Hidden(s, i + 1, j) && !InIdentifier(s, j) && Quotes(s, j) == Quotes(s, i)
  {
    NoQuotes(name, |name|);
    QuotesStand(s, i, name, |name|);
    OutOfIdentifiers(s, j);
    assert s[i] == name[0];
    forall k | i < k < j ensures InIdentifier(s, k) {
      forall m | i <= m <= k ensures IdentifierPart(At(s, m)) {
        assert s[m] == name[m - i];
      }
      assert Runs(s, i, k);
    }
  }

  lemma OtherSkips(s: Bytes, i: nat)
    requires OtherAt(s, i) && Clear(s, i)
    ensures Clear(s, i + 1)
  {
    if p: nat :| p < i + 1 <= |s| && IdentifierStart(s[p]) && Runs(s, p, i + 1) {
      assert Runs(s, p, i);
    }
  }

  /** Spaces and single marks hide themselves. */
  lemma PlainSkips(s: Bytes, i: nat, text: Bytes)
    requires StandsAt(s, i, text) && forall k :: 0 <= k < |text| ==> !IdentifierPart(text[k]) && text[k] != QUOTE
    ensures Hidden(s, i, i + |text|) && Quotes(s, i + |text|) == Quotes(s, i)
    ensures text != [] ==> !InIdentifier(s, i + |text|)
  {
    NoQuotes(text, |text|);
    QuotesStand(s, i, text, |text|);
    forall k | i <= k < i + |text| ensures !IdentifierPart(s[k]) {
      assert s[k] == text[k - i];
    }
    if text != [] {
      OutOfIdentifiers(s, i + |text|);
    }
  }

  lemma {:induction false} DotBehind(s: Bytes, i: nat, j: nat)
    requires i < j <= |s| && s[i] == DOT && forall k :: i < k < j ==> Space(s[k])
    ensures AfterDot(s, j)
    decreases j
  {
    if i + 1 < j {
      DotBehind(s, i, j - 1);
    }
  }

  lemma DottedSkips(s: Bytes, i: nat, a: StaticAccess, j: nat)
    requires a.Dotted? && AccessAt(s, i, a) && i <= |s| && j == i + |AccessText(a)|
    ensures j <= |s| && Skips(s, i, j) && !Visible(s, i) && !InIdentifier(s, j) && Quotes(s, j) == Quotes(s, i)
  {
    DotParts(s, i, a.before, a.between, a.name);
    DotLength(a.before, a.between, a.name);
    DotSkips(s, i, i + |a.before|, i + |a.before| + 1 + |a.between|, a);
  }

  lemma DotSkips(s: Bytes, i: nat, dot: nat, start: nat, a: StaticAccess)
    requires a.Dotted? && WellSpelled(a) && i <= dot < start <= |s|
    requires StandsAt(s, i, a.before) && dot == i + |a.before| && StandsAt(s, dot, [DOT])
    requires StandsAt(s, dot + 1, a.between) && start == dot + 1 + |a.between| && NameAt(s, start, a.name)
    ensures var j := start + |a.name|;
            j <= |s| && Skips(s, i, j) && !Visible(s, i) && !InIdentifier(s, j) && Quotes(s, j) == Quotes(s, i)
  {
    PlainSkips(s, i, a.before);
    PlainSkips(s, dot, [DOT]);
    PlainSkips(s, dot + 1, a.between);
    IdentifierSkips(s, start, a.name, start + |a.name|);
    FirstStands(s, dot, [DOT]);
    forall k | dot < k < start ensures Space(s[k]) {
      assert s[k] == a.between[k - (dot + 1)];
    }
    DotBehind(s, dot, start);
  }

  lemma BracketedSkips(s: Bytes, i: nat, a: StaticAccess, j: nat)
    requires a.Bracketed? && AccessAt(s, i, a) && i <= |s| && Outside(s, i) && DOUBLE_QUOTE !in s && j == i + |AccessText(a)|
    ensures i < j <= |s| && Hidden(s, i, j) && !InIdentifier(s, j) && Outside(s, j)
  {
    var content := BracketText(a.opening, a.name, a.quote, a.closing);
    BracketedParts(s, i, a, content);
    OpeningParts(s, i, a.before, content);
    var open := i + |a.before|;
    BracketParts(s, open + 1, a.opening, a.name, a.quote, a.closing);
    TextLength(open + 1, a.opening, a.name, a.quote, a.closing);
    BracketHides(s, i, open, a);
  }

  lemma BracketHides(s: Bytes, i: nat, open: nat, a: StaticAccess)
    requires a.Bracketed? && WellSpelled(a) && i <= |s| && Outside(s, i) && DOUBLE_QUOTE !in s
    requires StandsAt(s, i, a.before) && open == i + |a.before| && StandsAt(s, open, [OPEN_BRACKET])
    requires StandsAt(s, open + 1, a.opening) && StandsAt(s, open + 1 + |a.opening|, [a.quote])
    requires StandsAt(s, open + 1 + |a.opening| + 1, Spelled(a.name, a.quote) + [a.quote])
    requires StandsAt(s, NameEnd(open + 1, a.opening, a.name, a.quote), a.closing)
    requires StandsAt(s, NameEnd(open + 1, a.opening, a.name, a.quote) + |a.closing|, [CLOSE_BRACKET])
    ensures var j := NameEnd(open + 1, a.opening, a.name, a.quote) + |a.closing| + 1;
            Hidden(s, i, j) && !InIdentifier(s, j) && Outside(s, j)
  {
    var quote, end := open + 1 + |a.opening|, NameEnd(open + 1, a.opening, a.name, a.quote);
    FirstStands(s, quote, [a.quote]);
    assert a.quote == QUOTE;
    PlainSkips(s, i, a.before);
    PlainSkips(s, open, [OPEN_BRACKET]);
    PlainSkips(s, open + 1, a.opening);
    ClosedHides(s, quote, a.name, end);
    PlainSkips(s, end, a.closing);
    PlainSkips(s, end + |a.closing|, [CLOSE_BRACKET]);
  }

  lemma AccessSkips(s: Bytes, i: nat, a: StaticAccess, j: nat)
    requires AccessAt(s, i, a) && i <= |s| && Outside(s, i) && DOUBLE_QUOTE !in s && j == i + |AccessText(a)|
    ensures Skips(s, i, j) && !Visible(s, i) && Clear(s, j)
  {
    if a.Dotted? {
      DottedSkips(s, i, a, j);
    } else {
      BracketedSkips(s, i, a, j);
    }
  }

  lemma SkipsOn(s: Bytes, i: nat, m: nat, j: nat)
    requires Hidden(s, i + 1, m) && !Visible(s, m) && Skips(s, m, j)
    ensures Skips(s, i, j)
  {
  }

  lemma NameSkips(s: Bytes, i: nat, name: Bytes, m: nat, a: StaticAccess, j: nat)
    requires NameAt(s, i, name) && m == i + |name| && AccessAt(s, m, a) && j == m + |AccessText(a)|
    requires Outside(s, i) && DOUBLE_QUOTE !in s
    ensures Skips(s, i, j) && Clear(s, j)
  {
    IdentifierSkips(s, i, name, m);
    AccessSkips(s, m, a, j);
    SkipsOn(s, i, m, j);
  }

  lemma IdentifierStepSkips(s: Bytes, i: nat)
    requires i < |s| && IdentifierStart(s[i]) && StepFrom(s, i).Go? && Outside(s, i) && DOUBLE_QUOTE !in s
    ensures Skips(s, i, StepFrom(s, i).next) && Clear(s, StepFrom(s, i).next)
  {
    var name := NameFound(s, i);
    var m := i + |name|;
    NameRead(s, i, name, m);
    NameStep(s, i, name, m);
    if TokenProperty(Downcase(name)).None? || AfterDot(s, i) {
      IdentifierSkips(s, i, name, m);
    } else {
      var a := PassedIsStatic(s, m, TokenProperty(Downcase(name)).value);
      NameSkips(s, i, name, m, a, StepFrom(s, i).next);
    }
  }

  /** A step of the scan keeps clear of strings and identifiers, and skips no visible context. */
  lemma StepSkips(s: Bytes, i: nat)
    requires i < |s| && Clear(s, i) && StepFrom(s, i).Go? && DOUBLE_QUOTE !in s
    ensures Skips(s, i, StepFrom(s, i).next) && Clear(s, StepFrom(s, i).next)
  {
    if s[i] == QUOTE {
      StringSkips(s, i);
    } else if IdentifierStart(s[i]) {
      IdentifierStepSkips(s, i);
    } else {
      OtherSkips(s, i);
    }
  }

  // ----- The verdict by parity ----------------------------------------------------------------------------

  lemma {:induction false} ReachedIsClear(s: Bytes, i: nat, j: nat)
    requires Reaches(s, i, j) && Clear(s, i) && DOUBLE_QUOTE !in s
    ensures Clear(s, j)
    decreases |s| - i
  {
    if i != j {
      var next := StepFrom(s, i).next;
      StepSkips(s, i);
      ReachedIsClear(s, next, j);
    }
  }

  /** The scan comes to every visible identifier that is no property, unless it refuses the expression before. */
  lemma {:induction false} VisibleReached(s: Bytes, i: nat, k: nat)
    requires Clear(s, i) && i <= k && Visible(s, k) && !AfterDot(s, k) && DOUBLE_QUOTE !in s
    ensures Reaches(s, i, k) || TokenAccessFrom(s, i)
    decreases |s| - i
  {
    if i < k && StepFrom(s, i).Go? {
      var next := StepFrom(s, i).next;
      StepSkips(s, i);
      VisibleReached(s, next, k);
    }
  }

  /** An expression without double quotes is refused exactly when a token's context, written outside single-quoted
      strings and not in the middle of an identifier, has no static access to another property after it. */
  lemma RefusedByParity(s: Bytes)
    requires DOUBLE_QUOTE !in s
    ensures TokenAccessFrom(s, 0) <==> exists i: nat, context :: Visible(s, i) && RefusedAt(s, i, context)
  {
    VerdictIs(s);
    if i: nat, context :| Reaches(s, 0, i) && RefusedAt(s, i, context) {
      ReachedIsClear(s, 0, i);
      FirstStands(s, i, context);
      assert Visible(s, i);
    }
    if i: nat, context :| Visible(s, i) && RefusedAt(s, i, context) {
      VisibleReached(s, 0, i);
      if Reaches(s, 0, i) {
        RefusedDecides(s, i, context);
      }
    }
  }
}
