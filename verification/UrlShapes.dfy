/** What the URL rule hides, said without the matcher: the passwords of the URLs a scan from the left meets. */
module UrlShapes {
  import opened Common
  import opened Safety
  import opened Urls

  /** A scheme from `p` to `n`, a user up to a colon at `s - 1`, and a password from `s` to a sign at `e`. */
  datatype Span = Span(p: nat, n: nat, s: nat, e: nat)

  predicate SchemeChar(t: Rule, c: char) {
    t.letter(c) || '0' <= c <= '9' || c == '+' || c == '.' || c == '-'
  }

  predicate UserChar(t: Rule, c: char) {
    !t.space(c) && c != ':' && c != '/' && c != '@'
  }

  predicate SecretChar(t: Rule, c: char) {
    !t.space(c) && c != '/' && c != '@'
  }

  /** `scheme://user:password@`, with a letter at the head of the scheme and no part empty. */
  ghost predicate IsUrlIn(t: Rule, u: string, a: Span) {
    && a.p < a.n && a.n + 4 < a.s < a.e < |u|
    && t.letter(u[a.p]) && (forall x | a.p <= x < a.n :: SchemeChar(t, u[x]))
    && u[a.n] == ':' && u[a.n + 1] == '/' && u[a.n + 2] == '/'
    && (forall x | a.n + 3 <= x < a.s - 1 :: UserChar(t, u[x])) && u[a.s - 1] == ':'
    && (forall x | a.s <= x < a.e :: SecretChar(t, u[x])) && u[a.e] == '@'
  }

  // ------------------------------------------- the matcher finds the shapes

  lemma {:induction false} MatchIsShape(t: Rule, u: string) returns (a: Span)
    requires Regular(t) && UrlAt(t, u).Some?
    ensures IsUrlIn(t, u, a) && a.p == 0 && UrlAt(t, u) == Some((a.s, a.e))
  {
    var n := UrlShape(t, u);
    var (s, e) := UrlAt(t, u).value;
    a := Span(0, n, s, e);
    assert SchemeChar(t, u[0]);
    assert forall x | 1 <= x < n :: Member(t, Scheme, u[x]);
    assert forall x | n + 3 <= x < s - 1 :: Member(t, User, u[x]);
    assert forall x | s <= x < e :: Member(t, Secret, u[x]);
  }

  lemma {:induction false} ShapeIsMatch(t: Rule, u: string, a: Span)
    requires Regular(t) && IsUrlIn(t, u, a) && a.p == 0
    ensures UrlAt(t, u) == Some((a.s, a.e))
  {
    assert IsUrl(t, u, a.n, a.s, a.e);
    UrlIs(t, u, a.n, a.s, a.e);
  }

  function Later(a: Span, k: nat): Span {
    Span(a.p + k, a.n + k, a.s + k, a.e + k)
  }

  function Earlier(a: Span, k: nat): Span
    requires k <= a.p && k <= a.n && k <= a.s && k <= a.e
  {
    Span(a.p - k, a.n - k, a.s - k, a.e - k)
  }

  /** A URL in the rest of a text is one in the text, and the other way round. */
  lemma {:induction false} InRest(t: Rule, u: string, k: nat, a: Span)
    requires k <= |u|
    ensures IsUrlIn(t, u, Later(a, k)) <==> IsUrlIn(t, u[k..], a)
  {
    var w := u[k..];
    assert forall x | 0 <= x < |w| :: w[x] == u[x + k];
    if IsUrlIn(t, u, Later(a, k)) {
      forall x | a.p <= x < a.n ensures SchemeChar(t, w[x]) {
        assert SchemeChar(t, u[x + k]);
      }
      forall x | a.n + 3 <= x < a.s - 1 ensures UserChar(t, w[x]) {
        assert UserChar(t, u[x + k]);
      }
      forall x | a.s <= x < a.e ensures SecretChar(t, w[x]) {
        assert SecretChar(t, u[x + k]);
      }
    }
    if IsUrlIn(t, w, a) {
      forall y | a.p + k <= y < a.n + k ensures SchemeChar(t, u[y]) {
        assert SchemeChar(t, w[y - k]);
      }
      forall y | a.n + k + 3 <= y < a.s + k - 1 ensures UserChar(t, u[y]) {
        assert UserChar(t, w[y - k]);
      }
      forall y | a.s + k <= y < a.e + k ensures SecretChar(t, u[y]) {
        assert SecretChar(t, w[y - k]);
      }
    }
  }

  lemma {:induction false} ToRest(t: Rule, u: string, k: nat, a: Span)
    requires k <= |u| && k <= a.p && IsUrlIn(t, u, a)
    ensures k <= a.n && k <= a.s && k <= a.e && IsUrlIn(t, u[k..], Earlier(a, k))
  {
    InRest(t, u, k, Earlier(a, k));
    assert Later(Earlier(a, k), k) == a;
  }

  lemma {:induction false} SpanFits(t: Rule, u: string, a: Span)
    requires IsUrlIn(t, u, a)
    ensures a.p < a.n < a.s < a.e < |u|
  {
  }

  // ------------------------------------------------ what the rule makes of a text

  /** A scan from the left: the first URL, then those of the text after its sign, and in the end none. */
  ghost predicate Scans(t: Rule, u: string, spans: seq<Span>)
    decreases |spans|
  {
    if spans == [] then forall a :: !IsUrlIn(t, u, a)
    else
      var a := spans[0];
      && IsUrlIn(t, u, a) && (forall b | IsUrlIn(t, u, b) :: a.p <= b.p)
      && Scans(t, u[a.e + 1..], spans[1..])
  }

  /** The text with the password of every span hidden, and every other character kept. */
  function Hide(u: string, spans: seq<Span>): string
    decreases |spans|
  {
    if spans == [] then u
    else if spans[0].s <= spans[0].e < |u| then u[..spans[0].s] + MARK + Hide(u[spans[0].e + 1..], spans[1..])
    else u
  }

  lemma {:induction false} RuleHides(t: Rule, u: string) returns (spans: seq<Span>)
    requires Regular(t)
    ensures Scans(t, u, spans) && RedactUrls(t, u) == Hide(u, spans)
    decreases |u|
  {
    hide Regular, UrlAt, IsUrlIn, Scans, Hide;
    if u == "" {
      spans := [];
      EmptyScan(t);
    } else if UrlAt(t, u).None? {
      var rest := RuleHides(t, u[1..]);
      spans := MoreSpans(t, u, rest);
    } else {
      var a := MatchIsShape(t, u);
      var rest := RuleHides(t, u[a.e + 1..]);
      spans := [a] + rest;
      SpanFits(t, u, a);
      OneMoreSpan(t, u, a, rest);
      HideFirst(u, a, rest);
    }
  }

  lemma {:induction false} EmptyScan(t: Rule)
    ensures Scans(t, "", []) && Hide("", []) == ""
  {
  }

  lemma {:induction false} OneMoreSpan(t: Rule, u: string, a: Span, rest: seq<Span>)
    requires IsUrlIn(t, u, a) && a.p == 0 && Scans(t, u[a.e + 1..], rest)
    ensures Scans(t, u, [a] + rest)
  {
    SpanFits(t, u, a);
    hide IsUrlIn;
    assert ([a] + rest)[1..] == rest;
  }

  /** The spans of the tail of a text, one character on. */
  function Moved(rest: seq<Span>): seq<Span> {
    if rest == [] then [] else [Later(rest[0], 1)] + rest[1..]
  }

  /** With none at its head, a text has the spans of its tail. */
  lemma {:induction false} MoreSpans(t: Rule, u: string, rest: seq<Span>) returns (spans: seq<Span>)
    requires u != "" && Regular(t) && UrlAt(t, u).None? && Scans(t, u[1..], rest)
    ensures Scans(t, u, spans) && Hide(u, spans) == [u[0]] + Hide(u[1..], rest)
  {
    hide Regular, UrlAt, IsUrlIn, Scans, Hide;
    spans := Moved(rest);
    MovedScans(t, u, rest);
    MovedHides(t, u, rest);
  }

  lemma {:induction false} MovedScans(t: Rule, u: string, rest: seq<Span>)
    requires u != "" && Regular(t) && UrlAt(t, u).None? && Scans(t, u[1..], rest)
    ensures Scans(t, u, Moved(rest))
  {
    hide Regular, UrlAt, IsUrlIn;
    forall b: Span | IsUrlIn(t, u, b)
      ensures b.p > 0 && b.n > 0 && b.s > 0 && b.e > 0 && IsUrlIn(t, u[1..], Earlier(b, 1))
    {
      NotAtHead(t, u, b);
      ToRest(t, u, 1, b);
    }
    if rest != [] {
      var a := rest[0];
      InRest(t, u, 1, a);
      SpanFits(t, u[1..], a);
      TailAfter(u, a);
      assert Moved(rest)[1..] == rest[1..];
    }
  }

  lemma {:induction false} MovedHides(t: Rule, u: string, rest: seq<Span>)
    requires u != "" && Scans(t, u[1..], rest)
    ensures Hide(u, Moved(rest)) == [u[0]] + Hide(u[1..], rest)
  {
    hide IsUrlIn, Hide;
    if rest == [] {
      assert u == [u[0]] + u[1..] && Hide(u, []) == u && Hide(u[1..], []) == u[1..] by {
        NothingHidden(u);
        NothingHidden(u[1..]);
      }
    } else {
      SpanFits(t, u[1..], rest[0]);
      hide Scans;
      HideMoved(u, rest[0], rest[1..]);
      assert rest == [rest[0]] + rest[1..];
    }
  }

  lemma {:induction false} NothingHidden(u: string)
    ensures Hide(u, []) == u
  {
  }

  lemma {:induction false} HideFirst(u: string, a: Span, rest: seq<Span>)
    requires a.s <= a.e < |u|
    ensures Hide(u, [a] + rest) == u[..a.s] + MARK + Hide(u[a.e + 1..], rest)
  {
    assert ([a] + rest)[1..] == rest;
  }

  lemma {:induction false} HideMoved(u: string, a: Span, rest: seq<Span>)
    requires u != "" && 0 < a.s < a.e < |u| - 1
    ensures Hide(u, [Later(a, 1)] + rest) == [u[0]] + Hide(u[1..], [a] + rest)
  {
    hide Hide;
    HideFirst(u, Later(a, 1), rest);
    HideFirst(u[1..], a, rest);
    TailAfter(u, a);
    Joins(u[0], u[1..][..a.s], Hide(u[1..][a.e + 1..], rest));
  }

  lemma {:induction false} Joins(c: char, x: string, y: string)
    ensures [c] + (x + MARK + y) == ([c] + x) + MARK + y
  {
  }

  lemma {:induction false} TailAfter(u: string, a: Span)
    requires u != "" && 0 < a.s < a.e < |u| - 1
    ensures u[a.e + 2..] == u[1..][a.e + 1..] && u[..a.s + 1] == [u[0]] + u[1..][..a.s]
  {
  }

  // -------------------------------------------------- nothing is left shown

  /** Every URL of the text has its password hidden. */
  ghost predicate AllHidden(t: Rule, u: string) {
    forall a | IsUrlIn(t, u, a) :: HiddenAt(u, a.s, a.e)
  }

  /** A password the scan meets is shown. */
  predicate Exposes(t: Rule, u: string)
    decreases |u|
  {
    u != "" &&
    match UrlAt(t, u)
    case None => Exposes(t, u[1..])
    case Some((s, e)) => !HiddenAt(u, s, e) || Exposes(t, u[e + 1..])
  }

  lemma {:induction false} UnchangedIffNoneExposed(t: Rule, u: string)
    requires Regular(t)
    ensures RedactUrls(t, u) == u <==> !Exposes(t, u)
    decreases |u|
  {
    hide Regular, UrlAt;
    if u != "" {
      if UrlAt(t, u).None? {
        UnchangedIffNoneExposed(t, u[1..]);
        assert u == [u[0]] + u[1..];
        assert RedactUrls(t, u)[1..] == RedactUrls(t, u[1..]);
      } else {
        var a := MatchIsShape(t, u);
        UnchangedIffNoneExposed(t, u[a.e + 1..]);
        SamePieces(t, u, a, RedactUrls(t, u[a.e + 1..]));
      }
    }
  }

  lemma {:induction false} SamePieces(t: Rule, u: string, a: Span, rest: string)
    requires IsUrlIn(t, u, a)
    ensures u[..a.s] + MARK + rest == u <==> HiddenAt(u, a.s, a.e) && rest == u[a.e + 1..]
  {
    var v := u[..a.s] + MARK + rest;
    if v == u {
      assert v[a.s + |REDACTED|] == '@';
      assert a.e <= a.s + |REDACTED|;
      assert forall x | a.s <= x < a.s + |REDACTED| :: v[x] == REDACTED[x - a.s];
      assert a.e == a.s + |REDACTED|;
      assert v[a.s..a.e] == REDACTED && v[a.e + 1..] == rest;
    }
    if u[a.s..a.e] == REDACTED {
      assert u == u[..a.s] + u[a.s..a.e] + "@" + u[a.e + 1..];
    }
  }

  /** Where the one colon that a slash follows is, in a URL at the head with its password hidden. */
  lemma {:induction false} NextStarts(t: Rule, u: string, a: Span, b: Span)
    requires Regular(t) && IsUrlIn(t, u, a) && a.p == 0 && HiddenAt(u, a.s, a.e) && IsUrlIn(t, u, b) && b.p <= a.e
    ensures b.s == a.s && b.e == a.e
  {
    assert forall x | a.s <= x < a.e :: u[x] == REDACTED[x - a.s];
    assert !SchemeChar(t, ']') && !SchemeChar(t, '/') && !SchemeChar(t, ':') && !SchemeChar(t, '@');
    assert u[a.e - 1] == ']';
    StartsInScheme(t, u, a, b);
    SameUser(t, u, a, b);
  }

  lemma {:induction false} StartsInScheme(t: Rule, u: string, a: Span, b: Span)
    requires IsUrlIn(t, u, a) && a.p == 0 && IsUrlIn(t, u, b) && b.p <= a.e
    requires !SchemeChar(t, ']') && !SchemeChar(t, '/') && !SchemeChar(t, ':') && !SchemeChar(t, '@') && !t.letter(':') && !t.letter('/') && !t.letter('@') && !t.letter(']')
    requires u[a.e - 1] == ']' && forall x | a.s <= x < a.e :: u[x] != ':'
    ensures b.n == a.n
  {
    assert forall x | a.p <= x < a.n :: SchemeChar(t, u[x]) && u[x] != ':';
    assert forall x | b.p <= x < b.n :: SchemeChar(t, u[x]) && u[x] != ':' && u[x] != ']';
    assert forall x | a.n + 3 <= x < a.s - 1 :: u[x] != ':';
    assert u[a.s] != '/';
  }

  lemma {:induction false} SameUser(t: Rule, u: string, a: Span, b: Span)
    requires IsUrlIn(t, u, a) && IsUrlIn(t, u, b) && b.n == a.n
    ensures b.s == a.s && b.e == a.e
  {
    assert forall x | a.n + 3 <= x < a.s - 1 :: u[x] != ':';
    assert forall x | b.n + 3 <= x < b.s - 1 :: u[x] != ':';
    assert forall x | a.s <= x < a.e :: u[x] != '@';
    assert forall x | b.s <= x < b.e :: u[x] != '@';
  }

  /** What a URL at the head says about any other in the text. */
  lemma {:induction false} HeadSpan(t: Rule, u: string, b: Span) returns (k: nat)
    requires Regular(t) && !Exposes(t, u) && IsUrlIn(t, u, b)
    ensures HiddenAt(u, b.s, b.e) || (0 < k <= |u| && k <= b.p && !Exposes(t, u[k..]))
  {
    SpanFits(t, u, b);
    hide Regular, IsUrlIn, UrlAt, Exposes, HiddenAt;
    if UrlAt(t, u).None? {
      ExposesTail(t, u);
      NotAtHead(t, u, b);
      k := 1;
    } else {
      k := MatchSpan(t, u, b);
    }
  }

  lemma {:induction false} MatchSpan(t: Rule, u: string, b: Span) returns (k: nat)
    requires Regular(t) && !Exposes(t, u) && IsUrlIn(t, u, b) && UrlAt(t, u).Some?
    ensures HiddenAt(u, b.s, b.e) || (0 < k <= |u| && k <= b.p && !Exposes(t, u[k..]))
  {
    hide Regular, IsUrlIn, UrlAt, Exposes, HiddenAt;
    var a := MatchIsShape(t, u);
    SpanFits(t, u, a);
    ExposesAfter(t, u, a.s, a.e);
    k := a.e + 1;
    if b.p <= a.e {
      NextStarts(t, u, a, b);
    }
  }

  lemma {:induction false} NothingShown(t: Rule, u: string, b: Span)
    requires Regular(t) && !Exposes(t, u) && IsUrlIn(t, u, b)
    ensures HiddenAt(u, b.s, b.e)
    decreases |u|
  {
    hide Regular, IsUrlIn, Exposes, HiddenAt;
    var k := HeadSpan(t, u, b);
    if !HiddenAt(u, b.s, b.e) {
      SpanFits(t, u, b);
      ToRest(t, u, k, b);
      NothingShown(t, u[k..], Earlier(b, k));
      HiddenInRest(u, k, b.s, b.e);
    }
  }

  lemma {:induction false} NotAtHead(t: Rule, u: string, b: Span)
    requires Regular(t) && UrlAt(t, u).None? && IsUrlIn(t, u, b)
    ensures b.p > 0
  {
    hide Regular, IsUrlIn, UrlAt;
    if b.p == 0 {
      ShapeIsMatch(t, u, b);
    }
  }

  lemma {:induction false} ExposesTail(t: Rule, u: string)
    requires u != "" && UrlAt(t, u).None?
    ensures Exposes(t, u) == Exposes(t, u[1..])
  {
    hide UrlAt;
  }

  lemma {:induction false} ExposesAfter(t: Rule, u: string, s: nat, e: nat)
    requires s < e < |u| && UrlAt(t, u) == Some((s, e))
    ensures Exposes(t, u) == (!HiddenAt(u, s, e) || Exposes(t, u[e + 1..]))
  {
    hide UrlAt;
  }

  /** A URL whose password is shown. */
  ghost predicate Shows(t: Rule, u: string, b: Span) {
    IsUrlIn(t, u, b) && !HiddenAt(u, b.s, b.e)
  }

  /** Shown here, or in the rest after the head. */
  lemma {:induction false} ShownStep(t: Rule, u: string) returns (k: nat, b: Span)
    requires Regular(t) && Exposes(t, u)
    ensures Shows(t, u, b) || (0 < k <= |u| && Exposes(t, u[k..]))
  {
    assert u != "";
    hide Regular, IsUrlIn, UrlAt, Shows, Exposes, HiddenAt;
    k, b := 1, Span(0, 0, 0, 0);
    if UrlAt(t, u).None? {
      ExposesTail(t, u);
    } else {
      b := MatchIsShape(t, u);
      SpanFits(t, u, b);
      ExposesAfter(t, u, b.s, b.e);
      k := b.e + 1;
      if !HiddenAt(u, b.s, b.e) {
        b := ShownHere(t, u, b);
      }
    }
  }

  lemma {:induction false} SomethingShown(t: Rule, u: string) returns (b: Span)
    requires Regular(t) && Exposes(t, u)
    ensures Shows(t, u, b)
    decreases |u|
  {
    hide Regular, Shows, Exposes;
    var k, here := ShownStep(t, u);
    b := here;
    if !Shows(t, u, here) {
      var c := SomethingShown(t, u[k..]);
      b := ShownLater(t, u, k, c);
    }
  }

  lemma {:induction false} ShownHere(t: Rule, u: string, a: Span) returns (b: Span)
    requires IsUrlIn(t, u, a) && !HiddenAt(u, a.s, a.e)
    ensures Shows(t, u, b)
  {
    b := a;
  }

  lemma {:induction false} ShownLater(t: Rule, u: string, k: nat, b: Span) returns (later: Span)
    requires k <= |u| && Shows(t, u[k..], b)
    ensures Shows(t, u, later)
  {
    later := Later(b, k);
    InRest(t, u, k, b);
    SpanFits(t, u[k..], b);
    HiddenInRest(u, k, b.s + k, b.e + k);
  }

  // -------------------------------------------------------------- theorems

  /** A text is left alone exactly when every URL in it has its password hidden; in particular when it has none. */
  lemma {:induction false} UnchangedIffAllHidden(t: Rule, u: string)
    requires Regular(t)
    ensures RedactUrls(t, u) == u <==> AllHidden(t, u)
  {
    UnchangedIffNoneExposed(t, u);
    hide Regular, IsUrlIn, Exposes, RedactUrls;
    if Exposes(t, u) {
      var b := SomethingShown(t, u);
    } else {
      forall b | IsUrlIn(t, u, b) ensures HiddenAt(u, b.s, b.e) {
        NothingShown(t, u, b);
      }
    }
  }

  /**
   What Python's engine makes of any text: the passwords of the URLs a scan from the left meets
   are hidden, all else is kept, and in the result every URL there is has its password hidden.
   */
  lemma {:induction false} PasswordsHidden(word: char -> bool, u: string) returns (spans: seq<Span>)
    ensures var t := Python(word);
      && Scans(t, u, spans) && RedactUrls(t, u) == Hide(u, spans)
      && AllHidden(t, RedactUrls(t, u))
      && (RedactUrls(t, u) == u <==> AllHidden(t, u))
  {
    var t := Python(word);
    PythonIsRegular(word);
    spans := RuleHides(t, u);
    UrlsIdempotent(t, u);
    UnchangedIffAllHidden(t, RedactUrls(t, u));
    UnchangedIffAllHidden(t, u);
  }
}
