/** Finding `${{ ... }}` expression bodies in a workflow value: a scanner that knows single-quoted strings. */
module ExpressionScanner {
  import opened Kernel

  /** Bytes are numbers; nothing here depends on their range. */
  type Byte = int
  type Bytes = seq<Byte>

  const DOUBLE_QUOTE: Byte := 34
  const DOLLAR: Byte := 36
  const QUOTE: Byte := 39
  const OPEN_BRACE: Byte := 123
  const CLOSE_BRACE: Byte := 125
  const OPENER: Bytes := [DOLLAR, OPEN_BRACE, OPEN_BRACE]
  const CLOSER: Bytes := [CLOSE_BRACE, CLOSE_BRACE]

  predicate OpensAt(s: Bytes, i: nat) {
    i + 3 <= |s| && s[i] == DOLLAR && s[i + 1] == OPEN_BRACE && s[i + 2] == OPEN_BRACE
  }

  predicate ClosesAt(s: Bytes, i: nat) {
    i + 2 <= |s| && s[i] == CLOSE_BRACE && s[i + 1] == CLOSE_BRACE
  }

  function FindOpening(s: Bytes, from_: nat): (r: Option<nat>)
    ensures r.Some? ==> from_ <= r.value && r.value + 3 <= |s|
    decreases |s| - from_
  {
    if from_ + 3 > |s| then None else if OpensAt(s, from_) then Some(from_) else FindOpening(s, from_ + 1)
  }

  /** Where the expression ends: the scan from `i` on, inside a string or not. */
  function FindClosing(s: Bytes, i: nat, inString: bool): (r: Option<nat>)
    ensures r.Some? ==> i <= r.value && r.value + 2 <= |s|
    decreases |s| - i
  {
    if i + 1 >= |s| then None
    else if !inString && ClosesAt(s, i) then Some(i)
    else
      var doubled := inString && s[i] == QUOTE && s[i + 1] == QUOTE;
      FindClosing(s, if doubled then i + 2 else i + 1, if s[i] == QUOTE && !doubled then !inString else inString)
  }

  function Bodies(s: Bytes, from_: nat): (r: seq<Bytes>)
    decreases |s| - from_
  {
    match FindOpening(s, from_)
    case None => []
    case Some(opening) =>
      match FindClosing(s, opening + 3, false)
      case None => []
      case Some(closing) => [s[opening + 3..closing]] + Bodies(s, closing + 2)
  }

  /** Scans one body for its end. */
  method ScanBody(source: Bytes, bodyStart: nat) returns (closing: Option<nat>)
    ensures closing == FindClosing(source, bodyStart, false)
  {
    var index, inString := bodyStart, false;
    while index < |source| - 1
      invariant bodyStart <= index
      invariant FindClosing(source, bodyStart, false) == FindClosing(source, index, inString)
    {
      var byte := source[index];
      if inString {
        if byte == QUOTE && source[index + 1] == QUOTE {
          index := index + 2;
        } else if byte == QUOTE {
          inString := false;
          index := index + 1;
        } else {
          index := index + 1;
        }
      } else if byte == QUOTE {
        inString := true;
        index := index + 1;
      } else if byte == CLOSE_BRACE && source[index + 1] == CLOSE_BRACE {
        return Some(index);
      } else {
        index := index + 1;
      }
    }
    closing := None;
  }

  lemma BodiesGoOn(s: Bytes, bodies: seq<Bytes>, from_: nat)
    requires FindOpening(s, from_).Some? && FindClosing(s, FindOpening(s, from_).value + 3, false).Some?
    ensures var start := FindOpening(s, from_).value + 3;
            var closing := FindClosing(s, start, false).value;
            bodies + Bodies(s, from_) == bodies + [s[start..closing]] + Bodies(s, closing + 2)
  {
  }

  method ActionsExpressionBodies(source: Bytes) returns (bodies: seq<Bytes>)
    ensures bodies == Bodies(source, 0)
  {
    bodies := [];
    var searchFrom := 0;
    var opening := FindOpening(source, searchFrom);
    while opening.Some?
      invariant opening == FindOpening(source, searchFrom) && bodies + Bodies(source, searchFrom) == Bodies(source, 0)
      decreases |source| - searchFrom
    {
      var bodyStart := opening.value + 3;
      var closing := ScanBody(source, bodyStart);
      if closing.None? {
        break;
      }
      BodiesGoOn(source, bodies, searchFrom);
      bodies := bodies + [source[bodyStart..closing.value]];
      searchFrom := closing.value + 2;
      opening := FindOpening(source, searchFrom);
    }
  }

  // ----- Which bodies come back ---------------------------------------------------------------------------

  /** Quote characters among the first `k` bytes. */
  function Quotes(b: Bytes, k: nat): nat
    requires k <= |b|
  {
    if k == 0 then 0 else Quotes(b, k - 1) + if b[k - 1] == QUOTE then 1 else 0
  }

  /** Position `k` is outside single-quoted strings; a doubled quote inside one leaves and enters it again. */
  predicate Outside(b: Bytes, k: nat)
    requires k <= |b|
  {
    Quotes(b, k) % 2 == 0
  }

  /** Balanced quotes, no `}}` outside quotes, no `}` at the end. */
  ghost predicate Enclosable(b: Bytes) {
    && Outside(b, |b|)
    && (forall i :: 0 <= i < |b| && ClosesAt(b, i) ==> !Outside(b, i))
    && (b != [] ==> b[|b| - 1] != CLOSE_BRACE)
  }

  ghost predicate OpenerFree(text: Bytes) {
    forall i :: 0 <= i < |text| ==> !OpensAt(text, i)
  }

  /** A value from text number `k` on: texts with an expression between each two. */
  function EmbedFrom(texts: seq<Bytes>, bodies: seq<Bytes>, k: nat): Bytes
    requires k <= |bodies| && |texts| == |bodies| + 1
    decreases |bodies| - k
  {
    if k == |bodies| then texts[k]
    else texts[k] + (OPENER + (bodies[k] + (CLOSER + EmbedFrom(texts, bodies, k + 1))))
  }

  function Embed(texts: seq<Bytes>, bodies: seq<Bytes>): Bytes
    requires |texts| == |bodies| + 1
  {
    EmbedFrom(texts, bodies, 0)
  }

  lemma {:induction false} QuotesOfPrefix(b: Bytes, more: Bytes, k: nat)
    requires k <= |b|
    ensures Quotes(b + more, k) == Quotes(b, k)
  {
    if k > 0 {
      QuotesOfPrefix(b, more, k - 1);
    }
  }

  lemma NextParity(b: Bytes, k: nat)
    requires k < |b|
    ensures Outside(b, k + 1) <==> Outside(b, k) == (b[k] != QUOTE)
  {
  }

  /** Scanning an enclosable body reaches its end. */
  lemma {:induction false} ClosesAfter(s: Bytes, start: nat, b: Bytes, k: nat)
    requires Enclosable(b) && k <= |b| && start + |b| + 2 <= |s|
    requires s[start..start + |b|] == b && ClosesAt(s, start + |b|)
    ensures FindClosing(s, start + k, !Outside(b, k)) == Some(start + |b|)
    decreases |b| - k
  {
    if k < |b| {
      assert s[start + k] == b[k];
      assert k + 1 < |b| ==> s[start + k + 1] == b[k + 1];
      if !Outside(b, k) && k + 1 < |b| && b[k] == QUOTE && b[k + 1] == QUOTE {
        ClosesAfter(s, start, b, k + 2);
        NextParity(b, k);
        NextParity(b, k + 1);
      } else {
        ClosesAfter(s, start, b, k + 1);
        NextParity(b, k);
        assert ClosesAt(s, start + k) && k + 1 < |b| ==> ClosesAt(b, k);
      }
    }
  }

  /** The first opener, or none. */
  lemma {:induction false} OpeningIs(s: Bytes, from_: nat, p: nat)
    requires from_ <= p && forall j :: from_ <= j < p ==> !OpensAt(s, j)
    ensures OpensAt(s, p) ==> FindOpening(s, from_) == Some(p)
    ensures p + 3 > |s| ==> FindOpening(s, from_) == None
    decreases p - from_
  {
    if from_ < p {
      OpeningIs(s, from_ + 1, p);
    }
  }

  /** Texts without an opener are skipped; one cannot straddle the text and the opener after it. */
  lemma OpenerFound(s: Bytes, start: nat, text: Bytes)
    requires OpenerFree(text) && start + |text| <= |s| && s[start..start + |text|] == text && OpensAt(s, start + |text|)
    ensures FindOpening(s, start) == Some(start + |text|)
  {
    forall j | start <= j < start + |text| ensures !OpensAt(s, j) {
      var i := j - start;
      assert !OpensAt(text, i);
      assert s[j] == text[i];
      assert i + 1 < |text| ==> s[j + 1] == text[i + 1];
      assert i + 2 < |text| ==> s[j + 2] == text[i + 2];
    }
    OpeningIs(s, start, start + |text|);
  }

  lemma NoneFound(s: Bytes, start: nat)
    requires start <= |s| && OpenerFree(s[start..])
    ensures FindOpening(s, start) == None
  {
    forall j | start <= j < |s| ensures !OpensAt(s, j) {
      assert !OpensAt(s[start..], j - start);
      assert j + 3 <= |s| ==> s[start..][j - start..][..3] == s[j..][..3];
      if j + 3 <= |s| {
        assert s[j] == s[start..][j - start] && s[j + 1] == s[start..][j + 1 - start] && s[j + 2] == s[start..][j + 2 - start];
      }
    }
    OpeningIs(s, start, |s|);
  }

  lemma OneBody(s: Bytes, start: nat, text: Bytes, body: Bytes)
    requires OpenerFree(text) && Enclosable(body) && start + |text| + |body| + 5 <= |s|
    requires s[start..start + |text|] == text && OpensAt(s, start + |text|)
    requires s[start + |text| + 3..start + |text| + 3 + |body|] == body && ClosesAt(s, start + |text| + 3 + |body|)
    ensures Bodies(s, start) == [body] + Bodies(s, start + |text| + |body| + 5)
  {
    OpenerFound(s, start, text);
    ClosesAfter(s, start + |text| + 3, body, 0);
  }

  lemma Layout(text: Bytes, body: Bytes, rest: Bytes, t: Bytes)
    requires t == text + (OPENER + (body + (CLOSER + rest)))
    ensures |t| == |text| + 3 + |body| + 2 + |rest| && t[..|text|] == text && OpensAt(t, |text|)
    ensures t[|text| + 3..|text| + 3 + |body|] == body && ClosesAt(t, |text| + 3 + |body|)
    ensures t[|text| + |body| + 5..] == rest
  {
    var p := |text|;
    assert t[p..] == OPENER + (body + (CLOSER + rest));
    assert t[p] == OPENER[0] && t[p + 1] == OPENER[1] && t[p + 2] == OPENER[2];
    assert t[p + 3..] == body + (CLOSER + rest);
    assert t[p + 3 + |body|..] == CLOSER + rest;
    assert t[p + 3 + |body|] == CLOSER[0] && t[p + 4 + |body|] == CLOSER[1];
  }

  lemma Shifted(s: Bytes, start: nat, text: Bytes, body: Bytes)
    requires start <= |s| && |s[start..]| >= |text| + |body| + 5
    requires s[start..][..|text|] == text && OpensAt(s[start..], |text|)
    requires s[start..][|text| + 3..|text| + 3 + |body|] == body && ClosesAt(s[start..], |text| + 3 + |body|)
    ensures s[start..start + |text|] == text && OpensAt(s, start + |text|)
    ensures s[start + |text| + 3..start + |text| + 3 + |body|] == body && ClosesAt(s, start + |text| + 3 + |body|)
    ensures s[start..][|text| + |body| + 5..] == s[start + |text| + |body| + 5..]
  {
  }

  lemma FirstBody(s: Bytes, start: nat, text: Bytes, body: Bytes, rest: Bytes)
    requires OpenerFree(text) && Enclosable(body) && start <= |s|
    requires s[start..] == text + (OPENER + (body + (CLOSER + rest)))
    ensures start + |text| + |body| + 5 <= |s| && s[start + |text| + |body| + 5..] == rest
    ensures Bodies(s, start) == [body] + Bodies(s, start + |text| + |body| + 5)
  {
    Layout(text, body, rest, s[start..]);
    Shifted(s, start, text, body);
    OneBody(s, start, text, body);
  }

  /** Texts without openers, and an enclosable body between each two. */
  ghost predicate Embeddable(texts: seq<Bytes>, bodies: seq<Bytes>) {
    && |texts| == |bodies| + 1
    && (forall i :: 0 <= i < |texts| ==> OpenerFree(texts[i]))
    && forall i :: 0 <= i < |bodies| ==> Enclosable(bodies[i])
  }

  lemma ScanLast(s: Bytes, start: nat, texts: seq<Bytes>, bodies: seq<Bytes>)
    requires Embeddable(texts, bodies) && start <= |s| && s[start..] == texts[|bodies|]
    ensures Bodies(s, start) == []
  {
    assert OpenerFree(texts[|bodies|]);
    NoneFound(s, start);
  }

  lemma ScanOne(s: Bytes, start: nat, next: nat, texts: seq<Bytes>, bodies: seq<Bytes>, k: nat)
    requires Embeddable(texts, bodies) && k < |bodies| && start <= |s| && s[start..] == EmbedFrom(texts, bodies, k)
    requires next == start + |texts[k]| + |bodies[k]| + 5
    ensures next <= |s| && s[next..] == EmbedFrom(texts, bodies, k + 1)
    ensures Bodies(s, start) == [bodies[k]] + Bodies(s, next)
  {
    assert OpenerFree(texts[k]) && Enclosable(bodies[k]);
    FirstBody(s, start, texts[k], bodies[k], EmbedFrom(texts, bodies, k + 1));
  }

  /** From index `from_` on, the bodies are `found`. */
  ghost predicate Continues(bodies: seq<Bytes>, from_: nat, found: seq<Bytes>) {
    from_ + |found| == |bodies| && forall i :: 0 <= i < |found| ==> found[i] == bodies[from_ + i]
  }

  lemma ContinuesWith(bodies: seq<Bytes>, k: nat, all: seq<Bytes>, rest: seq<Bytes>)
    requires k < |bodies| && Continues(bodies, k + 1, rest) && all == [bodies[k]] + rest
    ensures Continues(bodies, k, all)
  {
  }

  lemma ScanStep(s: Bytes, start: nat, next: nat, bodies: seq<Bytes>, k: nat)
    requires k < |bodies| && Bodies(s, start) == [bodies[k]] + Bodies(s, next)
    requires Continues(bodies, k + 1, Bodies(s, next))
    ensures Continues(bodies, k, Bodies(s, start))
  {
    ContinuesWith(bodies, k, Bodies(s, start), Bodies(s, next));
  }

  lemma {:induction false} ScanFrom(s: Bytes, start: nat, texts: seq<Bytes>, bodies: seq<Bytes>, k: nat)
    requires Embeddable(texts, bodies) && k <= |bodies| && start <= |s| && s[start..] == EmbedFrom(texts, bodies, k)
    ensures Continues(bodies, k, Bodies(s, start))
    decreases |bodies| - k
  {
    if k == |bodies| {
      ScanLast(s, start, texts, bodies);
    } else {
      var next := start + |texts[k]| + |bodies[k]| + 5;
      ScanOne(s, start, next, texts, bodies, k);
      ScanFrom(s, next, texts, bodies, k + 1);
      ScanStep(s, start, next, bodies, k);
    }
  }

  /** Embedding enclosable bodies between opener-free texts and scanning the value returns exactly those bodies. */
  lemma EmbedRoundTrip(texts: seq<Bytes>, bodies: seq<Bytes>)
    requires Embeddable(texts, bodies)
    ensures Bodies(Embed(texts, bodies), 0) == bodies
  {
    var s := Embed(texts, bodies);
    assert s[0..] == s;
    ScanFrom(s, 0, texts, bodies, 0);
  }

  /** What the scan passes over is enclosable. */
  lemma {:induction false} ClosingEncloses(s: Bytes, start: nat, k: nat)
    requires start + k <= |s| && FindClosing(s, start + k, !Outside(s[start..], k)).Some?
    requires forall i :: 0 <= i < k && ClosesAt(s[start..], i) ==> !Outside(s[start..], i)
    ensures Enclosable(s[start..FindClosing(s, start + k, !Outside(s[start..], k)).value])
    decreases |s| - start - k
  {
    var t, i := s[start..], start + k;
    assert t[k] == s[i] && t[k + 1] == s[i + 1];
    assert Quotes(t, k + 1) == Quotes(t, k) + if t[k] == QUOTE then 1 else 0;
    if !Outside(t, k) && s[i] == QUOTE && s[i + 1] == QUOTE {
      assert Quotes(t, k + 2) == Quotes(t, k) + 2;
      ClosingEncloses(s, start, k + 2);
    } else if Outside(t, k) && s[i] != QUOTE && ClosesAt(s, i) {
      PrefixEnclosable(t, k);
      assert s[start..i] == t[..k];
    } else {
      assert ClosesAt(t, k) ==> ClosesAt(s, i);
      ClosingEncloses(s, start, k + 1);
    }
  }

  lemma PrefixEnclosable(t: Bytes, k: nat)
    requires k <= |t| && ClosesAt(t, k) && Outside(t, k)
    requires forall i :: 0 <= i < k && ClosesAt(t, i) ==> !Outside(t, i)
    ensures Enclosable(t[..k])
  {
    var b := t[..k];
    forall i | 0 <= i <= k ensures Quotes(b, i) == Quotes(t, i) {
      QuotesOfPrefix(b, t[k..], i);
      assert b + t[k..] == t;
    }
    forall i | 0 <= i < |b| && ClosesAt(b, i) ensures !Outside(b, i) {
      assert ClosesAt(t, i);
    }
    if k > 0 {
      assert Quotes(t, k) == Quotes(t, k - 1) + if t[k - 1] == QUOTE then 1 else 0;
      assert ClosesAt(t, k - 1) <==> t[k - 1] == CLOSE_BRACE;
    }
  }

  lemma {:induction false} BodiesEnclosable(s: Bytes, from_: nat)
    ensures forall b :: b in Bodies(s, from_) ==> Enclosable(b)
    decreases |s| - from_
  {
    var opening := FindOpening(s, from_);
    if opening.Some? && FindClosing(s, opening.value + 3, false).Some? {
      ClosingEncloses(s, opening.value + 3, 0);
      BodiesEnclosable(s, FindClosing(s, opening.value + 3, false).value + 2);
    }
  }

  /** The condition is exact: a single embedded body comes back if and only if it is enclosable. */
  lemma RecoveredExactly(text: Bytes, body: Bytes, rest: Bytes)
    requires OpenerFree(text) && OpenerFree(rest)
    ensures Bodies(Embed([text, rest], [body]), 0) == [body] <==> Enclosable(body)
  {
    var s := Embed([text, rest], [body]);
    if Enclosable(body) {
      EmbedRoundTrip([text, rest], [body]);
    } else {
      BodiesEnclosable(s, 0);
      assert body in [body];
    }
  }

  /** The body `}` is one that does not come back: three closing braces end an empty body after the first two. */
  lemma BraceIsLost()
    ensures Bodies(Embed([[], []], [[CLOSE_BRACE]]), 0) == [[]]
  {
    var s := Embed([[], []], [[CLOSE_BRACE]]);
    assert s == EmbedFrom([[], []], [[CLOSE_BRACE]], 0) == OPENER + ([CLOSE_BRACE] + (CLOSER + EmbedFrom([[], []], [[CLOSE_BRACE]], 1)));
    assert EmbedFrom([[], []], [[CLOSE_BRACE]], 1) == [];
    assert s == [DOLLAR, OPEN_BRACE, OPEN_BRACE, CLOSE_BRACE, CLOSE_BRACE, CLOSE_BRACE];
    assert OpensAt(s, 0) && ClosesAt(s, 3);
    assert FindOpening(s, 0) == Some(0) && FindClosing(s, 3, false) == Some(3) && FindOpening(s, 5) == None;
    assert s[3..3] == [];
  }
}
