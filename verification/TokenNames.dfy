/** The detector's verdict in the names it is about, spelled out as characters, and the values those names are
    meant for. */
module TokenNames {
  import opened Kernel
  import opened Text
  import opened ExpressionScanner
  import opened TokenAccess
  import L = TokenLexemes

  // ----- Characters ---------------------------------------------------------------------------------------

  /** The bytes spell a lower-case text, in any mixture of cases. */
  predicate AnyCase(b: Bytes, text: string) {
    && |b| == |text|
    && forall i :: 0 <= i < |text| ==> b[i] == text[i] as int || ('a' <= text[i] <= 'z' && b[i] == text[i] as int - 32)
  }

  /** A context and the property of it that is a token. */
  predicate NamesToken(context: Bytes, property: Bytes) {
    (AnyCase(context, "github") && AnyCase(property, "token")) || (AnyCase(context, "secrets") && AnyCase(property, "github_token"))
  }

  predicate NamesContext(identifier: Bytes) {
    AnyCase(identifier, "github") || AnyCase(identifier, "secrets")
  }

  predicate LowerCase(text: string) {
    forall i :: 0 <= i < |text| ==> 'a' <= text[i] <= 'z' || text[i] == '_'
  }

  /** The classes of bytes and the marks of the grammar, as characters. */
  lemma Characters(b: Byte)
    ensures Space(b) <==> b in CodePoints(" \t\n\r\U{b}\U{c}")
    ensures IdentifierStart(b) <==> 'A' as int <= b <= 'Z' as int || 'a' as int <= b <= 'z' as int || b == '_' as int
    ensures IdentifierPart(b) <==> IdentifierStart(b) || '0' as int <= b <= '9' as int
    ensures [DOT, OPEN_BRACKET, CLOSE_BRACKET, QUOTE, DOUBLE_QUOTE] == CodePoints(".[]'\"")
    ensures OPENER == CodePoints("${{") && CLOSER == CodePoints("}}")
  {
    var spaces := CodePoints(" \t\n\r\U{b}\U{c}");
    assert spaces[0] == 32 && spaces[1] == 9 && spaces[2] == 10 && spaces[3] == 13 && spaces[4] == 11 && spaces[5] == 12;
  }

  lemma LowerIs(b: Bytes, text: string)
    requires LowerCase(text)
    ensures Downcase(b) == CodePoints(text) <==> AnyCase(b, text)
  {
    if AnyCase(b, text) {
      forall i | 0 <= i < |b| ensures Downcase(b)[i] == CodePoints(text)[i] {
      }
    }
    if Downcase(b) == CodePoints(text) {
      forall i | 0 <= i < |text|
        ensures b[i] == text[i] as int || ('a' <= text[i] <= 'z' && b[i] == text[i] as int - 32)
      {
        assert Downcase(b)[i] == CodePoints(text)[i];
      }
    }
  }

  lemma Names()
    ensures GITHUB == CodePoints("github") && TOKEN == CodePoints("token")
    ensures SECRETS == CodePoints("secrets") && GITHUB_TOKEN == CodePoints("github_token")
  {
    assert GITHUB_TOKEN == [103, 105, 116, 104, 117, 98, 95, 116, 111, 107, 101, 110];
  }

  /** An identifier has a token property exactly when it spells one of the two contexts, and then a property is that one
      exactly when the two names go together. */
  lemma PropertyNames(identifier: Bytes, property: Bytes)
    ensures var token := TokenProperty(Downcase(identifier));
            && (token.Some? <==> NamesContext(identifier))
            && (token.Some? ==> (Downcase(property) == token.value <==> NamesToken(identifier, property)))
  {
    Names();
    LowerIs(identifier, "github");
    LowerIs(identifier, "secrets");
    LowerIs(property, "token");
    LowerIs(property, "github_token");
  }

  /** After spaces, if any, a dot stands before `i`. */
  predicate DotBefore(s: Bytes, i: nat)
    requires i <= |s|
  {
    exists k :: 0 <= k < i && s[k] == '.' as int && forall m :: k < m < i ==> Space(s[m])
  }

  lemma {:induction false} AfterDotIs(s: Bytes, i: nat)
    requires i <= |s|
    ensures AfterDot(s, i) <==> DotBefore(s, i)
    decreases i
  {
    if i > 0 {
      AfterDotIs(s, i - 1);
      if DotBefore(s, i - 1) && Space(s[i - 1]) {
        var k :| 0 <= k < i - 1 && s[k] == '.' as int && forall m :: k < m < i - 1 ==> Space(s[m]);
        assert forall m :: k < m < i ==> Space(s[m]);
      }
      if DotBefore(s, i) && s[i - 1] != DOT {
        var k :| 0 <= k < i && s[k] == '.' as int && forall m :: k < m < i ==> Space(s[m]);
        assert forall m :: k < m < i - 1 ==> Space(s[m]);
      }
    }
  }

  // ----- One identifier -----------------------------------------------------------------------------------

  ghost predicate AccessFollows(s: Bytes, i: nat) {
    exists a :: AccessAt(s, i, a)
  }

  /** What the scan does at a whole identifier: it goes on after one that is a property or spells neither context;
      after a context it goes on behind a static access to anything but its token, and refuses everything else. */
  lemma IdentifierDecides(s: Bytes, i: nat, name: Bytes) returns (step: Step)
    requires L.NameAt(s, i, name)
    ensures i < |s| && step == StepFrom(s, i)
    ensures !NamesContext(name) || DotBefore(s, i) ==> step == Go(i + |name|)
    ensures NamesContext(name) && !DotBefore(s, i) ==>
              && (forall a :: AccessAt(s, i + |name|, a) ==>
                    step == if NamesToken(name, a.name) then Flag else Go(i + |name| + |AccessText(a)|))
              && (!AccessFollows(s, i + |name|) ==> step == Flag)
  {
    step := NamedStep(s, i, name, i + |name|);
    NamedDecides(s, i, name, i + |name|, step);
  }

  lemma NamedStep(s: Bytes, i: nat, name: Bytes, end: nat) returns (step: Step)
    requires L.NameAt(s, i, name) && end == i + |name|
    ensures i < end <= |s| && step == StepFrom(s, i)
    ensures var token := TokenProperty(Downcase(name));
            step == if token.None? || AfterDot(s, i) then Go(end) else Access(s, end, token.value)
  {
    L.NameRead(s, i, name, end);
    L.NameStep(s, i, name, end);
    step := StepFrom(s, i);
  }

  lemma NamedDecides(s: Bytes, i: nat, name: Bytes, end: nat, step: Step)
    requires i <= end <= |s|
    requires var token := TokenProperty(Downcase(name));
             step == if token.None? || AfterDot(s, i) then Go(end) else Access(s, end, token.value)
    ensures !NamesContext(name) || DotBefore(s, i) ==> step == Go(end)
    ensures NamesContext(name) && !DotBefore(s, i) ==>
              && (forall a :: AccessAt(s, end, a) ==> step == if NamesToken(name, a.name) then Flag else Go(end + |AccessText(a)|))
              && (!AccessFollows(s, end) ==> step == Flag)
  {
    AfterDotIs(s, i);
    PropertyNames(name, []);
    if NamesContext(name) && !DotBefore(s, i) {
      AccessDecides(s, end, name, TokenProperty(Downcase(name)).value, step);
    }
  }

  lemma AccessDecides(s: Bytes, end: nat, name: Bytes, token: Bytes, step: Step)
    requires end <= |s| && TokenProperty(Downcase(name)) == Some(token) && step == Access(s, end, token)
    ensures forall a :: AccessAt(s, end, a) ==> step == if NamesToken(name, a.name) then Flag else Go(end + |AccessText(a)|)
    ensures !AccessFollows(s, end) ==> step == Flag
  {
    forall a | AccessAt(s, end, a)
      ensures step == if NamesToken(name, a.name) then Flag else Go(end + |AccessText(a)|)
    {
      OneDecides(s, end, name, token, a);
    }
    if step.Go? {
      var a := PassedIsStatic(s, end, token);
      assert AccessFollows(s, end);
    }
  }

  lemma OneDecides(s: Bytes, end: nat, name: Bytes, token: Bytes, a: StaticAccess)
    requires end <= |s| && TokenProperty(Downcase(name)) == Some(token) && AccessAt(s, end, a)
    ensures Access(s, end, token) == if NamesToken(name, a.name) then Flag else Go(end + |AccessText(a)|)
  {
    PropertyNames(name, a.name);
    StaticAccessRead(s, end, a, token);
  }

  // ----- The verdict --------------------------------------------------------------------------------------

  /** One of the two contexts, whole and not a property itself, that no static access to another property than its
      token follows. */
  ghost predicate Refused(s: Bytes, i: nat, context: Bytes) {
    && L.NameAt(s, i, context) && NamesContext(context) && !DotBefore(s, i)
    && forall a :: AccessAt(s, i + |context|, a) ==> NamesToken(context, a.name)
  }

  lemma RefusedIs(s: Bytes, i: nat, context: Bytes)
    ensures RefusedAt(s, i, context) <==> Refused(s, i, context)
  {
    PropertyNames(context, []);
    if L.NameAt(s, i, context) && NamesContext(context) {
      AfterDotIs(s, i);
      forall a | AccessAt(s, i + |context|, a)
        ensures Downcase(a.name) == TokenProperty(Downcase(context)).value <==> NamesToken(context, a.name)
      {
        PropertyNames(context, a.name);
      }
    }
  }

  /** An expression is refused exactly when lexemes lead up to such a context; without double quotes, exactly when one is
      written outside single-quoted strings and not in the middle of an identifier. */
  lemma RefusedByName(s: Bytes)
    ensures TokenAccessFrom(s, 0) <==> exists i: nat, context :: L.Lexed(s, i) && Refused(s, i, context)
    ensures DOUBLE_QUOTE !in s ==>
              (TokenAccessFrom(s, 0) <==> exists i: nat, context :: L.Visible(s, i) && Refused(s, i, context))
  {
    L.RefusedIsLexical(s);
    forall i: nat, context ensures RefusedAt(s, i, context) <==> Refused(s, i, context) {
      RefusedIs(s, i, context);
    }
    if DOUBLE_QUOTE !in s {
      L.RefusedByParity(s);
    }
  }

  // ----- Expressions of one access --------------------------------------------------------------------------

  /** An expression that is one static access of one context, with spaces around it. */
  function OneAccess(before: Bytes, context: Bytes, a: StaticAccess, after: Bytes): Bytes {
    before + (context + (AccessText(a) + after))
  }

  lemma {:induction false} SpacesReach(s: Bytes, i: nat, j: nat)
    requires i <= j <= |s| && forall k :: i <= k < j ==> Space(s[k])
    ensures TokenAccessFrom(s, i) == TokenAccessFrom(s, j)
    decreases j - i
  {
    if i < j {
      assert StepFrom(s, i) == Go(i + 1);
      SpacesReach(s, i + 1, j);
    }
  }

  lemma AccessStarts(a: StaticAccess)
    requires WellSpelled(a)
    ensures AccessText(a) != [] && !IdentifierPart(AccessText(a)[0])
  {
    if a.before != [] {
      assert Space(a.before[0]);
    }
  }

  lemma Layout(s: Bytes, before: Bytes, context: Bytes, text: Bytes, after: Bytes)
    requires s == before + (context + (text + after))
    ensures StandsAt(s, 0, before) && StandsAt(s, |before|, context) && StandsAt(s, |before| + |context|, text)
    ensures StandsAt(s, |before| + |context| + |text|, after) && |s| == |before| + |context| + |text| + |after|
  {
    assert forall k :: 0 <= k < |s| ==> s[0 + k] == s[k];
    assert StandsAt(s, 0, s);
    StandsTogether(s, 0, before, context + (text + after));
    StandsTogether(s, |before|, context, text + after);
    StandsTogether(s, |before| + |context|, text, after);
  }

  lemma Standing(s: Bytes, i: nat, text: Bytes)
    requires StandsAt(s, i, text) && Spaces(text)
    ensures forall k :: i <= k < i + |text| ==> Space(s[k])
  {
    forall k | i <= k < i + |text| ensures Space(s[k]) {
      assert s[i + (k - i)] == text[k - i];
    }
  }

  /** It is refused exactly when it names the token of the context, however it is spelled. */
  lemma OneAccessDecides(before: Bytes, context: Bytes, a: StaticAccess, after: Bytes)
    requires Spaces(before) && Spaces(after) && WellSpelled(a) && IsIdentifier(context) && NamesContext(context)
    ensures TokenAccessFrom(OneAccess(before, context, a, after), 0) <==> NamesToken(context, a.name)
  {
    var s := OneAccess(before, context, a, after);
    var j := |before| + |context|;
    Layout(s, before, context, AccessText(a), after);
    Standing(s, 0, before);
    Standing(s, j + |AccessText(a)|, after);
    OneAccessFrom(s, |before|, context, a, j + |AccessText(a)|);
    SpacesReach(s, 0, |before|);
  }

  lemma OneAccessFrom(s: Bytes, i: nat, context: Bytes, a: StaticAccess, end: nat)
    requires IsIdentifier(context) && WellSpelled(a) && end == i + |context| + |AccessText(a)| <= |s| && NamesContext(context)
    requires StandsAt(s, i, context) && StandsAt(s, i + |context|, AccessText(a))
    requires (forall k :: 0 <= k < i ==> Space(s[k])) && forall k :: end <= k < |s| ==> Space(s[k])
    ensures TokenAccessFrom(s, i) <==> NamesToken(context, a.name)
  {
    AccessPlaced(s, i, context, a, end);
    var step := IdentifierDecides(s, i, context);
    assert step == if NamesToken(context, a.name) then Flag else Go(end);
    StepOn(s, i, step);
    SpacesReach(s, end, |s|);
  }

  lemma StepOn(s: Bytes, i: nat, step: Step)
    requires i < |s| && step == StepFrom(s, i)
    ensures TokenAccessFrom(s, i) <==> step.Flag? || TokenAccessFrom(s, step.next)
    ensures !TokenAccessFrom(s, |s|)
  {
  }

  lemma AccessPlaced(s: Bytes, i: nat, context: Bytes, a: StaticAccess, end: nat)
    requires IsIdentifier(context) && WellSpelled(a) && end == i + |context| + |AccessText(a)| <= |s|
    requires StandsAt(s, i, context) && StandsAt(s, i + |context|, AccessText(a))
    requires (forall k :: 0 <= k < i ==> Space(s[k])) && forall k :: end <= k < |s| ==> Space(s[k])
    ensures L.NameAt(s, i, context) && AccessAt(s, i + |context|, a) && !DotBefore(s, i)
  {
    AccessStarts(a);
    FirstStands(s, i + |context|, AccessText(a));
    assert At(s, end) == -1 || Space(s[end]);
  }

  /** A value of one such expression between the opening and closing marks refers to a token exactly then. */
  lemma OneReference(before: Bytes, context: Bytes, a: StaticAccess, after: Bytes, value: Bytes)
    requires Spaces(before) && Spaces(after) && WellSpelled(a) && IsIdentifier(context) && NamesContext(context)
    requires Enclosable(OneAccess(before, context, a, after))
    requires value == CodePoints("${{") + (OneAccess(before, context, a, after) + CodePoints("}}"))
    ensures Reference(value) <==> NamesToken(context, a.name)
  {
    var body := OneAccess(before, context, a, after);
    assert OPENER == CodePoints("${{") && CLOSER == CodePoints("}}");
    assert EmbedFrom([[], []], [body], 1) == [];
    assert Embed([[], []], [body]) == [] + (OPENER + (body + (CLOSER + [])));
    assert Embed([[], []], [body]) == value;
    EmbeddedReference([[], []], [body]);
    OneAccessDecides(before, context, a, after);
  }

  // ----- The values the check is about ----------------------------------------------------------------------

  lemma {:induction false} NoQuotesCount(b: Bytes, k: nat)
    requires k <= |b| && forall i :: 0 <= i < k ==> b[i] != QUOTE
    ensures Quotes(b, k) == 0
  {
    if k > 0 {
      NoQuotesCount(b, k - 1);
    }
  }

  lemma Joined(a: string, b: string)
    ensures CodePoints(a + b) == CodePoints(a) + CodePoints(b)
  {
  }

  lemma JoinedThrice(a: string, b: string, c: string)
    ensures CodePoints(a + (b + c)) == CodePoints(a) + (CodePoints(b) + CodePoints(c))
  {
    Joined(a, b + c);
    Joined(b, c);
  }

  predicate NameText(text: string) {
    && text != "" && !('0' <= text[0] <= '9')
    && forall i :: 0 <= i < |text| ==> 'a' <= text[i] <= 'z' || 'A' <= text[i] <= 'Z' || '0' <= text[i] <= '9' || text[i] == '_'
  }

  /** An expression's text: an access between spaces, and the value around it. */
  function Inner(context: string, access: string): string {
    " " + (context + (access + " "))
  }

  function Value(context: string, access: string): string {
    "${{" + (Inner(context, access) + "}}")
  }

  lemma AccessReference(context: string, access: string, a: StaticAccess)
    requires NameText(context) && NamesContext(CodePoints(context)) && WellSpelled(a) && AccessText(a) == CodePoints(access)
    requires Enclosable(CodePoints(Inner(context, access)))
    ensures Reference(CodePoints(Value(context, access))) <==> NamesToken(CodePoints(context), a.name)
  {
    var space := CodePoints(" ");
    assert Spaces(space) by {
      assert space == [32];
    }
    Joined(" ", context + (access + " "));
    JoinedThrice(context, access, " ");
    assert OneAccess(space, CodePoints(context), a, space) == CodePoints(Inner(context, access));
    JoinedThrice("${{", Inner(context, access), "}}");
    NameIsIdentifier(context);
    OneReference(space, CodePoints(context), a, space, CodePoints(Value(context, access)));
  }

  lemma NameIsIdentifier(text: string)
    requires NameText(text)
    ensures IsIdentifier(CodePoints(text)) && QUOTE !in CodePoints(text)
  {
  }

  /** A context and a name behind a dot. */
  lemma DottedReference(context: string, property: string)
    requires NameText(context) && NameText(property) && NamesContext(CodePoints(context))
    ensures Reference(CodePoints(Value(context, "." + property))) <==> NamesToken(CodePoints(context), CodePoints(property))
  {
    var a := Dotted([], [], CodePoints(property));
    NameIsIdentifier(property);
    Joined(".", property);
    assert CodePoints(".") == [DOT];
    assert AccessText(a) == [] + ([DOT] + ([] + CodePoints(property))) == CodePoints("." + property);
    assert forall i :: 0 <= i < |"." + property| ==> ("." + property)[i] == '.' || (i > 0 && ("." + property)[i] == property[i - 1]);
    InnerPlain(context, "." + property);
    AccessReference(context, "." + property, a);
  }

  lemma InnerPlain(context: string, access: string)
    requires NameText(context) && forall i :: 0 <= i < |access| ==> access[i] != '}' && access[i] != '\''
    ensures Enclosable(CodePoints(Inner(context, access)))
  {
    var inner := Inner(context, access);
    forall i | 0 <= i < |inner| ensures inner[i] != '}' && inner[i] != '\'' {
      if 1 <= i < 1 + |context| {
        assert inner[i] == context[i - 1];
      } else if 1 + |context| <= i < |inner| - 1 {
        assert inner[i] == access[i - 1 - |context|];
      }
    }
    BracelessEncloses(inner);
  }

  /** Text without braces and single quotes can stand in an expression. */
  lemma BracelessEncloses(text: string)
    requires forall i :: 0 <= i < |text| ==> text[i] != '}' && text[i] != '\''
    ensures Enclosable(CodePoints(text))
  {
    NoQuotesCount(CodePoints(text), |text|);
  }

  /** A context and a name between single quotes in brackets. */
  lemma BracketedReference(context: string, property: string)
    requires NameText(context) && NameText(property) && NamesContext(CodePoints(context))
    ensures Reference(CodePoints(Value(context, "['" + (property + "']")))) <==> NamesToken(CodePoints(context), CodePoints(property))
  {
    var name := CodePoints(property);
    var a := Bracketed([], [], name, QUOTE, []);
    NameIsIdentifier(property);
    BracketedText(a, name);
    JoinedThrice("['", property, "']");
    BracketMarks();
    InnerQuoted(context, property);
    AccessReference(context, "['" + (property + "']"), a);
  }

  lemma BracketMarks()
    ensures CodePoints("['") == [OPEN_BRACKET, QUOTE] && CodePoints("']") == [QUOTE, CLOSE_BRACKET]
  {
  }

  lemma BracketedText(a: StaticAccess, name: Bytes)
    requires a == Bracketed([], [], name, QUOTE, []) && QUOTE !in name
    ensures AccessText(a) == [OPEN_BRACKET, QUOTE] + (name + [QUOTE, CLOSE_BRACKET])
  {
    PlainDoubled(name);
    assert AccessText(a) == [] + ([OPEN_BRACKET] + ([] + ([QUOTE] + ((name + [QUOTE]) + ([] + [CLOSE_BRACKET])))));
  }

  lemma InnerQuoted(context: string, property: string)
    requires NameText(context) && NameText(property)
    ensures Enclosable(CodePoints(Inner(context, "['" + (property + "']"))))
  {
    var inner := Inner(context, "['" + (property + "']"));
    var first := |context| + 2;
    var second := first + |property| + 1;
    forall i | 0 <= i < |inner| ensures inner[i] != '}' && (inner[i] == '\'' <==> i == first || i == second) {
      if 1 <= i < first - 1 {
        assert inner[i] == context[i - 1];
      } else if first < i < second {
        assert inner[i] == property[i - first - 1];
      }
    }
    TwoQuotesEnclose(inner, first, second);
  }

  lemma {:induction false} PlainDoubled(name: Bytes)
    requires QUOTE !in name
    ensures Doubled(name) == name
  {
    if name != [] {
      PlainDoubled(name[1..]);
      assert name == [name[0]] + name[1..];
    }
  }

  /** So can text with two single quotes and no brace. */
  lemma TwoQuotesEnclose(text: string, i: nat, j: nat)
    requires i < j < |text| && text[i] == text[j] == '\''
    requires forall k :: 0 <= k < |text| ==> text[k] != '}' && (text[k] == '\'' ==> k == i || k == j)
    ensures Enclosable(CodePoints(text))
  {
    var b := CodePoints(text);
    NoQuotesCount(b, i);
    QuotesStay(b, i + 1, j);
    QuotesStay(b, j + 1, |b|);
  }

  lemma {:induction false} QuotesStay(b: Bytes, i: nat, k: nat)
    requires i <= k <= |b| && forall m :: i <= m < k ==> b[m] != QUOTE
    ensures Quotes(b, k) == Quotes(b, i)
    decreases k
  {
    if i < k {
      QuotesStay(b, i, k - 1);
    }
  }

  lemma Found(context: string, property: string, access: string, text: string)
    requires NameText(context) && NameText(property) && NamesContext(CodePoints(context))
    requires access == "." + property || access == "['" + (property + "']")
    requires Value(context, access) == text
    ensures Reference(CodePoints(text)) <==> NamesToken(CodePoints(context), CodePoints(property))
  {
    if access == "." + property {
      DottedReference(context, property);
    } else {
      BracketedReference(context, property);
    }
  }

  lemma SecretsTokenNames(context: string, property: string)
    requires context == "secrets" && property == "GITHUB_TOKEN"
    ensures NameText(context) && NameText(property) && NamesContext(CodePoints(context))
    ensures NamesToken(CodePoints(context), CodePoints(property))
  {
  }

  lemma SecretsTokenText(context: string, access: string, text: string)
    requires context == "secrets" && access == ".GITHUB_TOKEN" && text == "${{ secrets.GITHUB_TOKEN }}"
    ensures access == "." + "GITHUB_TOKEN" && Value(context, access) == text
  {
  }

  lemma BracketedTokenNames(context: string, property: string)
    requires context == "secrets" && property == "github_token"
    ensures NameText(context) && NameText(property) && NamesContext(CodePoints(context))
    ensures NamesToken(CodePoints(context), CodePoints(property))
  {
  }

  lemma BracketedTokenText(context: string, access: string, text: string)
    requires context == "secrets" && access == "['github_token']" && text == "${{ secrets['github_token'] }}"
    ensures access == "['" + ("github_token" + "']") && Value(context, access) == text
  {
  }

  lemma OtherSecretNames(context: string, property: string)
    requires context == "secrets" && property == "NPM_TOKEN"
    ensures NameText(context) && NameText(property) && NamesContext(CodePoints(context))
    ensures !NamesToken(CodePoints(context), CodePoints(property))
  {
  }

  lemma OtherSecretText(context: string, access: string, text: string)
    requires context == "secrets" && access == ".NPM_TOKEN" && text == "${{ secrets.NPM_TOKEN }}"
    ensures access == "." + "NPM_TOKEN" && Value(context, access) == text
  {
  }

  /** The repository's token is found. */
  lemma SecretsTokenFound()
    ensures Reference(CodePoints("${{ secrets.GITHUB_TOKEN }}"))
  {
    SecretsTokenNames("secrets", "GITHUB_TOKEN");
    SecretsTokenText("secrets", ".GITHUB_TOKEN", "${{ secrets.GITHUB_TOKEN }}");
    Found("secrets", "GITHUB_TOKEN", ".GITHUB_TOKEN", "${{ secrets.GITHUB_TOKEN }}");
  }

  lemma GithubTokenFound()
    ensures Reference(CodePoints("${{ github.token }}"))
  {
    Found("github", "token", ".token", "${{ github.token }}");
  }

  lemma BracketedTokenFound()
    ensures Reference(CodePoints("${{ secrets['github_token'] }}"))
  {
    BracketedTokenNames("secrets", "github_token");
    BracketedTokenText("secrets", "['github_token']", "${{ secrets['github_token'] }}");
    Found("secrets", "github_token", "['github_token']", "${{ secrets['github_token'] }}");
  }

  /** Another secret and another property are not. */
  lemma OtherSecretPasses()
    ensures !Reference(CodePoints("${{ secrets.NPM_TOKEN }}"))
  {
    OtherSecretNames("secrets", "NPM_TOKEN");
    OtherSecretText("secrets", ".NPM_TOKEN", "${{ secrets.NPM_TOKEN }}");
    Found("secrets", "NPM_TOKEN", ".NPM_TOKEN", "${{ secrets.NPM_TOKEN }}");
  }

  lemma OtherPropertyPasses()
    ensures !Reference(CodePoints("${{ github['sha'] }}"))
  {
    Found("github", "sha", "['sha']", "${{ github['sha'] }}");
  }
}
