/**
 What redaction hides, said without the matcher: an assignment is a shape of characters at
 positions of the text, and the rule hides the values of the shapes a scan from the left meets.
 */
module Shapes {
  import opened Common
  import opened Safety
  import opened Urls

  /** A keyword from `p` to `q`, a separator at `i`, and a value from `j` to `e`. */
  datatype Span = Span(p: nat, q: nat, i: nat, j: nat, e: nat)

  ghost predicate Spells(t: Rule, u: string, p: nat, q: nat, k: string)
    requires p <= q <= |u|
  {
    q - p == |k| && forall x | 0 <= x < |k| :: t.same(u[p + x], k[x])
  }

  ghost predicate SpellsKeyword(t: Rule, u: string, p: nat, q: nat)
    requires p <= q <= |u|
  {
    exists k :: k in t.keywords && Spells(t, u, p, q, k)
  }

  /** Word boundaries at `p` and at `q`; `prev` is the character before the text. */
  predicate Bounded(t: Rule, prev: Option<char>, u: string, p: nat, q: nat)
    requires p < q <= |u|
  {
    && (if p == 0 then prev.Some? && t.word(prev.value) else t.word(u[p - 1])) != t.word(u[p])
    && t.word(u[q - 1]) != (q < |u| && t.word(u[q]))
  }

  /** A character a value may hold. */
  predicate Holdable(t: Rule, c: char) {
    !t.space(c) && c != ',' && c != ';' && c != '"' && c != '\''
  }

  ghost predicate AllSpace(t: Rule, u: string, from: nat, to: nat)
    requires to <= |u|
  {
    forall x | from <= x < to :: t.space(u[x])
  }

  ghost predicate IsValue(t: Rule, u: string, j: nat, e: nat)
    requires e <= |u|
  {
    j < e && (forall x | j <= x < e :: Holdable(t, u[x])) && (e < |u| ==> !Holdable(t, u[e]))
  }

  /**
   An assignment in the text: one of the keywords between word boundaries, spaces, a colon or
   an equals sign, spaces, and all of a non-empty run of characters that a value may hold.
   */
  ghost predicate IsAssignment(t: Rule, prev: Option<char>, u: string, a: Span) {
    && a.p < a.q <= a.i < a.j < a.e <= |u|
    && SpellsKeyword(t, u, a.p, a.q) && Bounded(t, prev, u, a.p, a.q)
    && AllSpace(t, u, a.q, a.i) && (u[a.i] == ':' || u[a.i] == '=') && AllSpace(t, u, a.i + 1, a.j)
    && IsValue(t, u, a.j, a.e)
  }

  /** What the results below need: the keywords fold as Python folds them, and their letters are no spaces. */
  ghost predicate Engine(t: Rule) {
    Regular(t) && Folds(t) && LettersNoSpace(t) && !t.space('=')
  }

  ghost predicate LettersNoSpace(t: Rule) {
    forall c, k, i | k in t.keywords && 0 <= i < |k| && t.same(c, k[i]) :: !t.space(c)
  }

  lemma {:induction false} PythonIsEngine(word: char -> bool)
    ensures Engine(Python(word))
  {
    PythonIsRegular(word);
    PythonLetters(word);
    hide Regular, LettersNoSpace;
  }

  lemma {:induction false} PythonLetters(word: char -> bool)
    ensures LettersNoSpace(Python(word))
  {
    hide KEYWORDS;
    forall c, k, i | k in KEYWORDS && 0 <= i < |k| && PythonSame(c, k[i]) ensures !UnicodeSpace(c) {
      KeywordNoSpace(k, i);
    }
  }

  lemma {:induction false} KeywordNoSpace(k: string, i: nat)
    requires k in KEYWORDS && i < |k|
    ensures 'a' <= k[i] <= 'z' || k[i] == '_' || k[i] == '-'
  {
  }

  // ------------------------------------------- the matcher finds the shapes

  /** A header at the head of a text is an assignment there. */
  lemma {:induction false} HeaderIsShape(t: Rule, prev: Option<char>, u: string, k: string, j: nat) returns (a: Span)
    requires k in t.keywords && Header(t, prev, u, k) == Some(j)
    ensures IsAssignment(t, prev, u, a) && a.p == 0 && a.j == j && a.e == ValueEnd(t, u, j)
  {
    var i := Spaces(t, u, |k|);
    a := Span(0, |k|, i, j, ValueEnd(t, u, j));
    assert Spells(t, u, a.p, a.q, k);
  }

  lemma {:induction false} HeaderFrom(t: Rule, prev: Option<char>, u: string, k: string, i: nat, j: nat)
    requires KeywordAt(t, u, k) && k != "" && Boundary(t, prev, At(u, 0)) && Boundary(t, At(u, |k| - 1), At(u, |k|))
    requires SpacesTo(t, u, |k|, i) && i < |u| && u[i] in {':', '='} && SpacesTo(t, u, i + 1, j) && j < |u| && ValueChar(t, u[j])
    ensures Header(t, prev, u, k) == Some(j)
  {
    hide KeywordAt, Boundary, ValueChar;
    SpacesUnique(t, u, |k|, i);
    SpacesUnique(t, u, i + 1, j);
  }

  lemma {:induction false} ShapeKeyword(t: Rule, prev: Option<char>, u: string, a: Span) returns (k: string)
    requires IsAssignment(t, prev, u, a) && a.p == 0
    ensures k in t.keywords && KeywordAt(t, u, k) && |k| == a.q
    ensures Boundary(t, prev, At(u, 0)) && Boundary(t, At(u, a.q - 1), At(u, a.q))
  {
    k :| k in t.keywords && Spells(t, u, a.p, a.q, k);
  }

  lemma {:induction false} ShapeRuns(t: Rule, prev: Option<char>, u: string, a: Span)
    requires IsAssignment(t, prev, u, a) && !t.space(':') && !t.space('=')
    ensures SpacesTo(t, u, a.q, a.i) && SpacesTo(t, u, a.i + 1, a.j) && ValueTo(t, u, a.j, a.e) && ValueChar(t, u[a.j])
  {
    hide SpellsKeyword, Bounded;
  }

  /** And every assignment there is found. */
  lemma {:induction false} ShapeIsHeader(t: Rule, prev: Option<char>, u: string, a: Span) returns (k: string)
    requires Engine(t) && IsAssignment(t, prev, u, a) && a.p == 0
    ensures k in t.keywords && Header(t, prev, u, k) == Some(a.j) && ValueEnd(t, u, a.j) == a.e
  {
    SeparatorNoSpace(t);
    hide Engine, Header, SpellsKeyword, Bounded, AllSpace, IsValue, KeywordAt, Boundary, ValueChar, SpacesTo, ValueTo;
    k := ShapeKeyword(t, prev, u, a);
    ShapeRuns(t, prev, u, a);
    HeaderFrom(t, prev, u, k, a.i, a.j);
    ValueEndUnique(t, u, a.j, a.e);
  }

  lemma {:induction false} SeparatorNoSpace(t: Rule)
    requires Engine(t)
    ensures !t.space(':') && !t.space('=')
  {
  }

  /** The head of a text holds an assignment exactly when the rule matches there, and it is the one the rule takes. */
  lemma {:induction false} HeadFound(t: Rule, prev: Option<char>, u: string) returns (a: Span)
    requires Engine(t)
    ensures var start := FirstHeader(t, prev, u, t.keywords);
      && (start.Some? ==> IsAssignment(t, prev, u, a) && a.p == 0 && a.j == start.value && a.e == ValueEnd(t, u, start.value))
      && (start.None? ==> forall b: Span | b.p == 0 :: !IsAssignment(t, prev, u, b))
  {
    hide Header, IsAssignment, Engine;
    var k := HeaderOf(t, prev, u, t.keywords);
    var start := FirstHeader(t, prev, u, t.keywords);
    a := Span(0, 0, 0, 0, 0);
    if start.Some? {
      a := HeaderIsShape(t, prev, u, k, start.value);
    } else {
      forall b: Span | b.p == 0 && IsAssignment(t, prev, u, b) ensures false {
        var l := ShapeIsHeader(t, prev, u, b);
      }
    }
  }

  /** Two assignments that start together have the same value. */
  lemma {:induction false} HeadUnique(t: Rule, prev: Option<char>, u: string, a: Span, b: Span)
    requires Engine(t) && IsAssignment(t, prev, u, a) && IsAssignment(t, prev, u, b) && a.p == b.p == 0
    ensures a.j == b.j && a.e == b.e
  {
    hide IsAssignment;
    var k := ShapeIsHeader(t, prev, u, a);
    var l := ShapeIsHeader(t, prev, u, b);
    assert KeywordAt(t, u, k) && KeywordAt(t, u, l);
  }

  // ------------------------------------------- shapes in the rest of a text

  function Later(a: Span, n: nat): Span {
    Span(a.p + n, a.q + n, a.i + n, a.j + n, a.e + n)
  }

  lemma {:induction false} RestAt(u: string, n: nat)
    requires n <= |u|
    ensures forall x | 0 <= x < |u| - n :: u[n..][x] == u[x + n]
  {
  }

  /** An assignment in the rest of a text is one in the text. */
  lemma {:induction false} InRest(t: Rule, prev: Option<char>, u: string, n: nat, a: Span)
    requires 0 < n <= |u|
    ensures IsAssignment(t, prev, u, Later(a, n)) <==> IsAssignment(t, Some(u[n - 1]), u[n..], a)
  {
    if a.p < a.q <= a.i < a.j < a.e <= |u| - n {
      KeywordInRest(t, u, n, a.p, a.q);
      BoundedInRest(t, prev, u, n, a.p, a.q);
      SpaceInRest(t, u, n, a.q, a.i);
      SpaceInRest(t, u, n, a.i + 1, a.j);
      ValueInRest(t, u, n, a.j, a.e);
      hide SpellsKeyword, Bounded, AllSpace, IsValue;
      assert u[n..][a.i] == u[a.i + n];
    }
  }

  lemma {:induction false} KeywordInRest(t: Rule, u: string, n: nat, p: nat, q: nat)
    requires n <= |u| && p <= q <= |u| - n
    ensures SpellsKeyword(t, u, p + n, q + n) <==> SpellsKeyword(t, u[n..], p, q)
  {
    RestAt(u, n);
    forall k ensures Spells(t, u, p + n, q + n, k) <==> Spells(t, u[n..], p, q, k) {
      if q - p == |k| {
        forall x | 0 <= x < |k| ensures t.same(u[p + n + x], k[x]) <==> t.same(u[n..][p + x], k[x]) {
        }
      }
    }
  }

  lemma {:induction false} BoundedInRest(t: Rule, prev: Option<char>, u: string, n: nat, p: nat, q: nat)
    requires 0 < n <= |u| && p < q <= |u| - n
    ensures Bounded(t, prev, u, p + n, q + n) <==> Bounded(t, Some(u[n - 1]), u[n..], p, q)
  {
    RestAt(u, n);
  }

  lemma {:induction false} SpaceInRest(t: Rule, u: string, n: nat, from: nat, to: nat)
    requires n <= |u| && to <= |u| - n
    ensures AllSpace(t, u, from + n, to + n) <==> AllSpace(t, u[n..], from, to)
  {
    forall x | from <= x < to ensures u[n..][x] == u[x + n] {
    }
    if AllSpace(t, u[n..], from, to) {
      forall y | from + n <= y < to + n ensures t.space(u[y]) {
        assert t.space(u[n..][y - n]);
      }
    }
    if AllSpace(t, u, from + n, to + n) {
      forall x | from <= x < to ensures t.space(u[n..][x]) {
        assert t.space(u[x + n]);
      }
    }
  }

  lemma {:induction false} ValueInRest(t: Rule, u: string, n: nat, j: nat, e: nat)
    requires n <= |u| && e <= |u| - n
    ensures IsValue(t, u, j + n, e + n) <==> IsValue(t, u[n..], j, e)
  {
    RestAt(u, n);
    if IsValue(t, u[n..], j, e) {
      forall y | j + n <= y < e + n ensures Holdable(t, u[y]) {
        assert Holdable(t, u[n..][y - n]);
      }
    }
    if IsValue(t, u, j + n, e + n) {
      forall x | j <= x < e ensures Holdable(t, u[n..][x]) {
        assert Holdable(t, u[x + n]);
      }
    }
  }

  function Earlier(a: Span, n: nat): Span
    requires n <= a.p && n <= a.q && n <= a.i && n <= a.j && n <= a.e
  {
    Span(a.p - n, a.q - n, a.i - n, a.j - n, a.e - n)
  }

  /** And one that starts no earlier than the rest is one in the rest. */
  lemma {:induction false} ToRest(t: Rule, prev: Option<char>, u: string, n: nat, a: Span)
    requires 0 < n <= |u| && n <= a.p && IsAssignment(t, prev, u, a)
    ensures n <= a.q && n <= a.i && n <= a.j && n <= a.e && IsAssignment(t, Some(u[n - 1]), u[n..], Earlier(a, n))
  {
    InRest(t, prev, u, n, Earlier(a, n));
    assert Later(Earlier(a, n), n) == a;
  }

  // ------------------------------------------------ what the rule makes of a text

  /**
   A scan from the left: the first span is an assignment that no other starts before, and the
   others are those of the text after it; at the end there is none left.
   */
  ghost predicate Scans(t: Rule, prev: Option<char>, u: string, spans: seq<Span>)
    decreases |spans|
  {
    if spans == [] then forall a :: !IsAssignment(t, prev, u, a)
    else
      var a := spans[0];
      && IsAssignment(t, prev, u, a) && (forall b | IsAssignment(t, prev, u, b) :: a.p <= b.p)
      && Scans(t, Some(u[a.e - 1]), u[a.e..], spans[1..])
  }

  /** The text with the value of every span hidden, and every other character kept. */
  function Hide(u: string, spans: seq<Span>): string
    decreases |spans|
  {
    if spans == [] then u
    else if spans[0].j <= spans[0].e <= |u| then u[..spans[0].j] + REDACTED + Hide(u[spans[0].e..], spans[1..])
    else u
  }

  /** The assignment rule hides just the values that a scan from the left meets. */
  lemma {:induction false} RuleHides(t: Rule, prev: Option<char>, u: string) returns (spans: seq<Span>)
    requires Engine(t)
    ensures Scans(t, prev, u, spans) && Substitute(t, prev, u) == Hide(u, spans)
    decreases |u|
  {
    hide Engine, FirstHeader, IsAssignment, Scans, Hide, ValueEnd;
    if u == "" {
      spans := [];
      NoneInEmpty(t, prev);
      EmptyScan(t, prev, u);
    } else {
      var a := HeadFound(t, prev, u);
      match FirstHeader(t, prev, u, t.keywords)
      case None =>
        var rest := RuleHides(t, Some(u[0]), u[1..]);
        spans := MoreSpans(t, prev, u, rest);
      case Some(start) =>
        SpanFits(t, prev, u, a);
        var rest := RuleHides(t, Some(u[a.e - 1]), u[a.e..]);
        spans := [a] + rest;
        OneMoreSpan(t, prev, u, a, rest);
        HideFirst(u, a, rest);
    }
  }

  lemma {:induction false} NoneInEmpty(t: Rule, prev: Option<char>)
    ensures forall a :: !IsAssignment(t, prev, "", a)
  {
  }

  lemma {:induction false} EmptyScan(t: Rule, prev: Option<char>, u: string)
    requires forall a :: !IsAssignment(t, prev, u, a)
    ensures Scans(t, prev, u, []) && Hide(u, []) == u
  {
  }

  lemma {:induction false} OneMoreSpan(t: Rule, prev: Option<char>, u: string, a: Span, rest: seq<Span>)
    requires IsAssignment(t, prev, u, a) && a.p == 0 && Scans(t, Some(u[a.e - 1]), u[a.e..], rest)
    ensures Scans(t, prev, u, [a] + rest)
  {
    SpanFits(t, prev, u, a);
    hide IsAssignment;
    assert ([a] + rest)[1..] == rest;
  }

  /** The spans of the tail of a text, one character on. */
  function Moved(rest: seq<Span>): seq<Span> {
    if rest == [] then [] else [Later(rest[0], 1)] + rest[1..]
  }

  /** With none at its head, a text has the spans of its tail. */
  lemma {:induction false} MoreSpans(t: Rule, prev: Option<char>, u: string, rest: seq<Span>) returns (spans: seq<Span>)
    requires u != "" && (forall b: Span | b.p == 0 :: !IsAssignment(t, prev, u, b)) && Scans(t, Some(u[0]), u[1..], rest)
    ensures Scans(t, prev, u, spans) && Hide(u, spans) == [u[0]] + Hide(u[1..], rest)
  {
    hide IsAssignment, Scans, Hide;
    spans := Moved(rest);
    MovedScans(t, prev, u, rest);
    MovedHides(t, prev, u, rest);
  }

  lemma {:induction false} MovedScans(t: Rule, prev: Option<char>, u: string, rest: seq<Span>)
    requires u != "" && (forall b: Span | b.p == 0 :: !IsAssignment(t, prev, u, b)) && Scans(t, Some(u[0]), u[1..], rest)
    ensures Scans(t, prev, u, Moved(rest))
  {
    hide IsAssignment;
    forall b: Span | IsAssignment(t, prev, u, b)
      ensures b.p > 0 && b.q > 0 && b.i > 0 && b.j > 0 && b.e > 0 && IsAssignment(t, Some(u[0]), u[1..], Earlier(b, 1))
    {
      assert b.p > 0;
      ToRest(t, prev, u, 1, b);
    }
    if rest != [] {
      var a := rest[0];
      InRest(t, prev, u, 1, a);
      SpanFits(t, Some(u[0]), u[1..], a);
      TailAfter(u, a);
      assert Moved(rest)[1..] == rest[1..];
    }
  }

  lemma {:induction false} MovedHides(t: Rule, prev: Option<char>, u: string, rest: seq<Span>)
    requires u != "" && Scans(t, Some(u[0]), u[1..], rest)
    ensures Hide(u, Moved(rest)) == [u[0]] + Hide(u[1..], rest)
  {
    hide IsAssignment, Hide;
    if rest == [] {
      assert u == [u[0]] + u[1..] && Hide(u, []) == u && Hide(u[1..], []) == u[1..] by {
        NothingHidden(u);
        NothingHidden(u[1..]);
      }
    } else {
      SpanFits(t, Some(u[0]), u[1..], rest[0]);
      hide Scans;
      HideMoved(u, rest[0], rest[1..]);
      assert rest == [rest[0]] + rest[1..];
    }
  }

  lemma {:induction false} NothingHidden(u: string)
    ensures Hide(u, []) == u
  {
  }

  lemma {:induction false} HideFirst(u: string, a: Span, rest: seq<Span>)
    requires a.j <= a.e <= |u|
    ensures Hide(u, [a] + rest) == u[..a.j] + REDACTED + Hide(u[a.e..], rest)
  {
    assert ([a] + rest)[1..] == rest;
  }

  lemma {:induction false} HideMoved(u: string, a: Span, rest: seq<Span>)
    requires u != "" && 0 < a.j < a.e <= |u| - 1
    ensures Hide(u, [Later(a, 1)] + rest) == [u[0]] + Hide(u[1..], [a] + rest)
  {
    hide Hide;
    HideFirst(u, Later(a, 1), rest);
    HideFirst(u[1..], a, rest);
    TailAfter(u, a);
    Joins(u[0], u[1..][..a.j], Hide(u[1..][a.e..], rest));
  }

  lemma {:induction false} Joins(c: char, x: string, y: string)
    ensures [c] + (x + REDACTED + y) == ([c] + x) + REDACTED + y
  {
  }

  lemma {:induction false} SpanFits(t: Rule, prev: Option<char>, u: string, a: Span)
    requires IsAssignment(t, prev, u, a)
    ensures a.p < a.q < a.j < a.e <= |u| && SpellsKeyword(t, u, a.p, a.q)
  {
  }

  lemma {:induction false} TailAfter(u: string, a: Span)
    requires u != "" && 0 < a.j < a.e <= |u| - 1
    ensures u[a.e + 1..] == u[1..][a.e..] && u[a.e] == u[1..][a.e - 1] && u[..a.j + 1] == [u[0]] + u[1..][..a.j]
  {
  }

  // -------------------------------------------------- nothing is left shown

  /** Every assignment of the text has its value hidden. */
  ghost predicate AllHidden(t: Rule, prev: Option<char>, u: string) {
    forall a | IsAssignment(t, prev, u, a) :: HiddenAt(u, a.j, a.e)
  }

  /** Inside a keyword, past its first character, no other keyword begins. */
  lemma {:induction false} InnerLetters(k: string, l: string, o: nat)
    requires k in KEYWORDS && l in KEYWORDS && 0 < o < |k|
    ensures |l| >= 2 && (k[o] == l[0] ==> (o + 1 < |k| && k[o + 1] != l[1]) || (o + 1 == |k| && l[1] == 'o'))
  {
    KeywordLetters(l);
    KeywordInner(k, o);
  }

  /** The two-letter beginnings of keywords occur in keywords only at the beginning; one ends in the first letter of another. */
  lemma {:induction false} KeywordInner(k: string, o: nat)
    requires k in KEYWORDS && 0 < o < |k|
    ensures o + 1 < |k| ==> !(k[o] == 'p' && k[o + 1] == 'a') && !(k[o] == 's' && k[o + 1] == 'e')
                            && !(k[o] == 't' && k[o + 1] == 'o') && !(k[o] == 'a' && k[o + 1] == 'p')
    ensures o + 1 == |k| ==> k[o] !in {'p', 's', 'a'}
  {
    KeywordLetters(k);
  }

  lemma {:induction false} SameChar(t: Rule, c: char, a: char, b: char)
    requires Folds(t) && t.same(c, a) && t.same(c, b)
    requires ('a' <= a <= 'z' || a in {'_', '-'}) && ('a' <= b <= 'z' || b in {'_', '-'})
    ensures a == b
  {
    assert PythonSame(c, a) && PythonSame(c, b);
  }

  /** So no keyword starts within another that a space or separator follows. */
  lemma {:induction false} KeywordsDoNotOverlap(t: Rule, u: string, q: nat, p: nat, r: nat)
    requires Engine(t) && 0 < p < q < |u| && p < r <= |u| && SpellsKeyword(t, u, 0, q)
    requires t.space(u[q]) || u[q] == ':' || u[q] == '='
    ensures !SpellsKeyword(t, u, p, r)
  {
    var k :| k in t.keywords && Spells(t, u, 0, q, k);
    if SpellsKeyword(t, u, p, r) {
      var l :| l in t.keywords && Spells(t, u, p, r, l);
      KeywordLetters(l);
      SpelledTwo(t, u, p, r, l);
      TwoLetters(t, u, q, p, k, l);
    }
  }

  lemma {:induction false} SpelledTwo(t: Rule, u: string, p: nat, q: nat, k: string)
    requires p <= q <= |u| && Spells(t, u, p, q, k) && |k| >= 2
    ensures p + 1 < |u| && t.same(u[p], k[0]) && t.same(u[p + 1], k[1])
  {
    assert t.same(u[p + 0], k[0]);
  }

  lemma {:induction false} TwoLetters(t: Rule, u: string, q: nat, p: nat, k: string, l: string)
    requires Engine(t) && 0 < p < q < |u| && Spells(t, u, 0, q, k) && k in t.keywords && l in t.keywords
    requires t.space(u[q]) || u[q] == ':' || u[q] == '='
    ensures |l| >= 2 && (t.same(u[p], l[0]) ==> !t.same(u[p + 1], l[1]))
  {
    InnerLetters(k, l, p);
    KeywordNoSpace(k, p);
    KeywordNoSpace(l, 0);
    KeywordNoSpace(l, 1);
    assert t.same(u[0 + p], k[p]);
    if t.same(u[p], l[0]) {
      SameChar(t, u[p], k[p], l[0]);
      if p + 1 < q {
        KeywordNoSpace(k, p + 1);
        assert t.same(u[0 + (p + 1)], k[p + 1]);
        if t.same(u[p + 1], l[1]) {
          SameChar(t, u[p + 1], k[p + 1], l[1]);
        }
      }
    }
  }

  /** After a redacted assignment at the head, the next one starts where its value ends or later. */
  lemma {:induction false} NextStartsAfter(t: Rule, prev: Option<char>, u: string, a: Span, b: Span)
    requires Engine(t) && IsAssignment(t, prev, u, a) && a.p == 0 && HiddenAt(u, a.j, a.e) && IsAssignment(t, prev, u, b) && b.p > 0
    ensures b.p >= a.e
  {
    SeparatorBetween(t, prev, u, a);
    SpanFits(t, prev, u, b);
    hide Engine, IsAssignment;
    if b.p < a.q {
      KeywordsDoNotOverlap(t, u, a.q, b.p, b.q);
    } else if b.p < a.j {
      StartIsNoSeparator(t, u, b.p, b.q);
    } else if b.p < a.e {
      StartIsNotHidden(t, u, a.j, a.e, b.p, b.q);
    }
  }

  lemma {:induction false} SeparatorBetween(t: Rule, prev: Option<char>, u: string, a: Span)
    requires IsAssignment(t, prev, u, a)
    ensures a.p < a.q < a.j < a.e <= |u| && SpellsKeyword(t, u, a.p, a.q)
    ensures forall x | a.q <= x < a.j :: t.space(u[x]) || u[x] == ':' || u[x] == '='
  {
    hide SpellsKeyword, Bounded, IsValue;
  }

  lemma {:induction false} StartIsNoSeparator(t: Rule, u: string, p: nat, q: nat)
    requires Engine(t) && p < q <= |u| && SpellsKeyword(t, u, p, q)
    ensures !t.space(u[p]) && u[p] != ':' && u[p] != '=' && u[p] != ']'
  {
    var k :| k in t.keywords && Spells(t, u, p, q, k);
    assert t.same(u[p + 0], k[0]);
  }

  lemma {:induction false} StartIsNotHidden(t: Rule, u: string, j: nat, e: nat, p: nat, q: nat)
    requires Engine(t) && j <= p < e <= |u| && p < q <= |u| && u[j..e] == REDACTED
    ensures !SpellsKeyword(t, u, p, q)
  {
    if SpellsKeyword(t, u, p, q) {
      StartIsNoSeparator(t, u, p, q);
      var k :| k in t.keywords && Spells(t, u, p, q, k);
      KeywordLetters(k);
      SpelledTwo(t, u, p, q, k);
      MarkExcludes(t, u, j, e, p, k);
    }
  }

  lemma {:induction false} MarkExcludes(t: Rule, u: string, j: nat, e: nat, p: nat, k: string)
    requires Engine(t) && j <= p < e <= |u| && u[j..e] == REDACTED && u[p] != ']' && k in t.keywords
    ensures |k| >= 2 && (t.same(u[p], k[0]) ==> p + 1 < |u| && !t.same(u[p + 1], k[1]))
  {
    assert forall x | j <= x < e :: u[x] == REDACTED[x - j];
    assert NotHere(t, k, p - j);
    assert MARK[p - j] == u[p] && p + 1 < e && MARK[p + 1 - j] == u[p + 1];
  }

  /** The assignment the rule takes at the head. */
  lemma {:induction false} HeadSpan(t: Rule, prev: Option<char>, u: string, j: nat) returns (a: Span)
    requires Engine(t) && FirstHeader(t, prev, u, t.keywords) == Some(j)
    ensures IsAssignment(t, prev, u, a) && a.p == 0 && a.j == j && a.e == ValueEnd(t, u, j) && j < a.e <= |u|
  {
    hide Engine, FirstHeader, IsAssignment;
    a := HeadFound(t, prev, u);
    SpanFits(t, prev, u, a);
  }

  lemma {:induction false} NotAtHead(t: Rule, prev: Option<char>, u: string, b: Span)
    requires Engine(t) && FirstHeader(t, prev, u, t.keywords).None? && IsAssignment(t, prev, u, b)
    ensures b.p > 0
  {
    hide Engine, FirstHeader, IsAssignment;
    var a := HeadFound(t, prev, u);
  }

  lemma {:induction false} ExposedHead(t: Rule, prev: Option<char>, u: string, start: Option<nat>)
    requires u != "" && start == FirstHeader(t, prev, u, t.keywords)
    ensures match start
      case None => Exposed(t, prev, u) == Exposed(t, Some(u[0]), u[1..])
      case Some(j) =>
        var e := ValueEnd(t, u, j);
        && j < e <= |u| && Exposed(t, prev, u) == (!HiddenAt(u, j, e) || Exposed(t, Some(u[e - 1]), u[e..]))
  {
    hide FirstHeader;
  }

  /** A text that the scan finds nothing shown in has every assignment hidden, also those a scan might have passed over. */
  lemma {:induction false} NothingShown(t: Rule, prev: Option<char>, u: string, b: Span)
    requires Engine(t) && !Exposed(t, prev, u) && IsAssignment(t, prev, u, b)
    ensures HiddenAt(u, b.j, b.e)
    decreases |u|
  {
    hide Engine, FirstHeader, IsAssignment, SpellsKeyword, ValueEnd, Exposed, HiddenAt;
    SpanFits(t, prev, u, b);
    var start := FirstHeader(t, prev, u, t.keywords);
    ExposedHead(t, prev, u, start);
    if start.None? {
      NotAtHead(t, prev, u, b);
      ToRest(t, prev, u, 1, b);
      NothingShown(t, Some(u[0]), u[1..], Earlier(b, 1));
      HiddenInRest(u, 1, b.j, b.e);
    } else {
      var a := HeadSpan(t, prev, u, start.value);
      if b.p == 0 {
        HeadUnique(t, prev, u, a, b);
      } else {
        NextStartsAfter(t, prev, u, a, b);
        ToRest(t, prev, u, a.e, b);
        NothingShown(t, Some(u[a.e - 1]), u[a.e..], Earlier(b, a.e));
        HiddenInRest(u, a.e, b.j, b.e);
      }
    }
  }

  /** An assignment whose value is shown. */
  ghost predicate Shows(t: Rule, prev: Option<char>, u: string, b: Span) {
    IsAssignment(t, prev, u, b) && !HiddenAt(u, b.j, b.e)
  }

  lemma {:induction false} ShownLater(t: Rule, prev: Option<char>, u: string, n: nat, b: Span) returns (later: Span)
    requires 0 < n <= |u| && Shows(t, Some(u[n - 1]), u[n..], b)
    ensures Shows(t, prev, u, later)
  {
    hide SpellsKeyword, Bounded, AllSpace, IsValue;
    later := Later(b, n);
    InRest(t, prev, u, n, b);
    HiddenInRest(u, n, b.j + n, b.e + n);
  }

  /** A text that the scan finds something shown in has an assignment whose value is shown. */
  lemma {:induction false} SomethingShown(t: Rule, prev: Option<char>, u: string) returns (b: Span)
    requires Engine(t) && Exposed(t, prev, u)
    ensures Shows(t, prev, u, b)
    decreases |u|
  {
    hide Engine, FirstHeader, IsAssignment, ValueEnd, Exposed, Shows, HiddenAt;
    var start := FirstHeader(t, prev, u, t.keywords);
    NothingExposed(t, prev);
    ExposedHead(t, prev, u, start);
    if start.None? {
      var c := SomethingShown(t, Some(u[0]), u[1..]);
      b := ShownLater(t, prev, u, 1, c);
    } else {
      var a := HeadSpan(t, prev, u, start.value);
      if !HiddenAt(u, a.j, a.e) {
        b := ShownHere(t, prev, u, a);
      } else {
        var c := SomethingShown(t, Some(u[a.e - 1]), u[a.e..]);
        b := ShownLater(t, prev, u, a.e, c);
      }
    }
  }

  lemma {:induction false} NothingExposed(t: Rule, prev: Option<char>)
    ensures !Exposed(t, prev, "")
  {
  }

  lemma {:induction false} ShownHere(t: Rule, prev: Option<char>, u: string, a: Span) returns (b: Span)
    requires IsAssignment(t, prev, u, a) && !HiddenAt(u, a.j, a.e)
    ensures Shows(t, prev, u, b)
  {
    b := a;
  }

  // -------------------------------------------------------------- theorems

  /** A text is left alone exactly when every assignment in it is hidden; in particular when it has none. */
  lemma {:induction false} UnchangedIffAllHidden(t: Rule, u: string)
    requires Engine(t)
    ensures RedactAssignments(t, u) == u <==> AllHidden(t, None, u)
  {
    UnchangedIffHidden(t, None, u);
    hide Engine, SpellsKeyword, Bounded, AllSpace, IsValue, Exposed, Substitute;
    if Exposed(t, None, u) {
      var b := SomethingShown(t, None, u);
    } else {
      forall b | IsAssignment(t, None, u, b) ensures HiddenAt(u, b.j, b.e) {
        NothingShown(t, None, u, b);
      }
    }
  }

  /**
   What Python's engine makes of any text, whatever counts as a word character: the values of
   the assignments a scan from the left meets are hidden, all else is kept, and in the result
   every assignment there is has its value hidden.
   */
  lemma {:induction false} AssignmentsHidden(word: char -> bool, u: string) returns (spans: seq<Span>)
    ensures var t := Python(word);
      && Scans(t, None, u, spans) && RedactAssignments(t, u) == Hide(u, spans)
      && AllHidden(t, None, RedactAssignments(t, u))
      && (RedactAssignments(t, u) == u <==> AllHidden(t, None, u))
  {
    var t := Python(word);
    PythonIsEngine(word);
    spans := RuleHides(t, None, u);
    AssignmentsIdempotent(t, u);
    UnchangedIffAllHidden(t, RedactAssignments(t, u));
    UnchangedIffAllHidden(t, u);
  }
}
