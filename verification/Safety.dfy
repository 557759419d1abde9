/** The keyword-assignment redaction rule as left-to-right substitution, and its lifting over nested values. */
module Safety {
  import opened Common

  /** The rule: its keywords, and the character classes of the regular expression engine. */
  datatype Rule = Rule(keywords: seq<string>, space: char -> bool, word: char -> bool, same: (char, char) -> bool,
                       letter: char -> bool)
  {
    /** What any sensible engine says about the few characters the rule and its replacement name. */
    ghost predicate Sane() {
      && (forall c | c in REDACTED :: !space(c))
      && (forall c, k, i | k in keywords && 0 <= i < |k| && same(c, k[i]) :: c != '[')
      && (forall c, k | k in keywords && k != "" && same(c, k[0]) :: !space(c) && c !in {',', ';', '"', '\''})
    }
  }

  const REDACTED := "[REDACTED]"

  /** The stretch of the text from `i` to `j` is hidden. */
  predicate HiddenAt(u: string, i: nat, j: nat) {
    i <= j <= |u| && u[i..j] == "[REDACTED]"
  }

  lemma {:induction false} HiddenInRest(u: string, n: nat, i: nat, j: nat)
    requires n <= i <= j && n <= |u|
    ensures HiddenAt(u[n..], i - n, j - n) <==> HiddenAt(u, i, j)
  {
    if j <= |u| {
      SliceOfRest(u, n, i, j);
    }
  }

  /** The alternatives of the first group, in the order in which they are tried. */
  const KEYWORDS: seq<string> := ["password", "passwd", "secret", "token", "api_key", "api-key", "apikey"]

  /** They are just the texts the group of the pattern matches, the separator of "api key" being optional. */
  lemma {:induction false} KeywordsAre(k: string)
    ensures k in KEYWORDS <==>
      || k == "password" || k == "passwd" || k == "secret" || k == "token"
      || k == "api" + "_" + "key" || k == "api" + "-" + "key" || k == "api" + "key"
  {
    assert "api" + "_" + "key" == "api_key" && "api" + "-" + "key" == "api-key" && "api" + "key" == "apikey";
  }

  predicate ValueChar(t: Rule, c: char) {
    !t.space(c) && c !in {',', ';', '"', '\''}
  }

  // ------------------------------------------------------------- matching

  predicate KeywordAt(t: Rule, u: string, k: string) {
    |k| <= |u| && forall i | 0 <= i < |k| :: t.same(u[i], k[i])
  }

  /** The end of the run of spaces from `i`. */
  function Spaces(t: Rule, u: string, i: nat): (e: nat)
    requires i <= |u|
    ensures SpacesTo(t, u, i, e)
    decreases |u| - i
  {
    if i < |u| && t.space(u[i]) then Spaces(t, u, i + 1) else i
  }

  predicate SpacesTo(t: Rule, u: string, i: nat, e: nat) {
    && i <= e <= |u| && (forall x | i <= x < e :: t.space(u[x])) && (e < |u| ==> !t.space(u[e]))
  }

  lemma {:induction false} SpacesUnique(t: Rule, u: string, i: nat, e: nat)
    requires SpacesTo(t, u, i, e)
    ensures Spaces(t, u, i) == e
  {
  }

  /** The end of the run of value characters from `i`. */
  function ValueEnd(t: Rule, u: string, i: nat): (e: nat)
    requires i <= |u|
    ensures ValueTo(t, u, i, e)
    decreases |u| - i
  {
    if i < |u| && ValueChar(t, u[i]) then ValueEnd(t, u, i + 1) else i
  }

  predicate ValueTo(t: Rule, u: string, i: nat, e: nat) {
    && i <= e <= |u| && (forall x | i <= x < e :: ValueChar(t, u[x])) && (e < |u| ==> !ValueChar(t, u[e]))
  }

  lemma {:induction false} ValueEndUnique(t: Rule, u: string, i: nat, e: nat)
    requires ValueTo(t, u, i, e)
    ensures ValueEnd(t, u, i) == e
  {
  }

  /** `\b` between two characters, either of which may be missing. */
  predicate Boundary(t: Rule, a: Option<char>, b: Option<char>) {
    (a.Some? && t.word(a.value)) != (b.Some? && t.word(b.value))
  }

  function At(u: string, i: nat): Option<char> {
    if i < |u| then Some(u[i]) else None
  }

  /** A keyword and a separator with its spaces, whatever follows: where a value would start. */
  function BareHeader(t: Rule, prev: Option<char>, u: string, k: string): (start: Option<nat>)
    ensures start.Some? ==> |k| < start.value <= |u|
  {
    if !KeywordAt(t, u, k) || !Boundary(t, prev, At(u, 0)) || k == "" || !Boundary(t, At(u, |k| - 1), At(u, |k|)) then None
    else
      var i := Spaces(t, u, |k|);
      if i == |u| || u[i] !in {':', '='} then None else Some(Spaces(t, u, i + 1))
  }

  /** And the start of a value. */
  function Header(t: Rule, prev: Option<char>, u: string, k: string): (start: Option<nat>)
    ensures start.Some? ==> |k| < start.value < |u| && ValueChar(t, u[start.value])
  {
    var start := BareHeader(t, prev, u, k);
    if start.Some? && start.value < |u| && ValueChar(t, u[start.value]) then start else None
  }

  /** The first alternative that matches at the head of `u`, when `prev` precedes it. */
  function FirstHeader(t: Rule, prev: Option<char>, u: string, ks: seq<string>): (start: Option<nat>)
    ensures start.Some? ==> start.value < |u| && ValueChar(t, u[start.value])
  {
    if ks == [] then None
    else if Header(t, prev, u, ks[0]).Some? then Header(t, prev, u, ks[0])
    else FirstHeader(t, prev, u, ks[1..])
  }

  lemma {:induction false} HeaderOf(t: Rule, prev: Option<char>, u: string, ks: seq<string>) returns (k: string)
    ensures FirstHeader(t, prev, u, ks).Some? ==> k in ks && Header(t, prev, u, k) == FirstHeader(t, prev, u, ks)
    ensures FirstHeader(t, prev, u, ks).None? ==> forall l | l in ks :: Header(t, prev, u, l).None?
  {
    hide Header;
    if ks == [] {
      k := "";
    } else if Header(t, prev, u, ks[0]).Some? {
      k := ks[0];
    } else {
      k := HeaderOf(t, prev, u, ks[1..]);
    }
  }

  /** The substitution, left to right; `prev` is the character before `u`. */
  function Substitute(t: Rule, prev: Option<char>, u: string): string
    decreases |u|
  {
    if u == "" then ""
    else
      match FirstHeader(t, prev, u, t.keywords)
      case None => [u[0]] + Substitute(t, Some(u[0]), u[1..])
      case Some(start) =>
        var end := ValueEnd(t, u, start);
        u[..start] + REDACTED + Substitute(t, Some(u[end - 1]), u[end..])
  }

  function RedactAssignments(t: Rule, text: string): string {
    Substitute(t, None, text)
  }

  // ---------------------------------------------------------- idempotence

  /** `v` is `u` up to the place, if any, where the first value of `u` was replaced. */
  ghost predicate Agrees(t: Rule, u: string, v: string) {
    u == v || exists a :: ReplacedAt(t, u, v, a)
  }

  ghost predicate ReplacedAt(t: Rule, u: string, v: string, a: nat) {
    a < |u| && a < |v| && u[..a] == v[..a] && v[a] == '[' && ValueChar(t, u[a])
  }

  lemma {:induction false} SubstituteAgrees(t: Rule, prev: Option<char>, u: string)
    ensures Agrees(t, u, Substitute(t, prev, u))
    decreases |u|
  {
    var v := Substitute(t, prev, u);
    if u != "" {
      match FirstHeader(t, prev, u, t.keywords)
      case None =>
        SubstituteAgrees(t, Some(u[0]), u[1..]);
        var rest := Substitute(t, Some(u[0]), u[1..]);
        assert u == [u[0]] + u[1..] && v == [u[0]] + rest;
        if u[1..] != rest {
          var a: nat :| ReplacedAt(t, u[1..], rest, a);
          assert u[..a + 1] == [u[0]] + u[1..][..a] && v[..a + 1] == [u[0]] + rest[..a];
          assert ReplacedAt(t, u, v, a + 1);
        }
      case Some(start) =>
        assert v[..start] == u[..start] && v[start] == REDACTED[0];
        assert ReplacedAt(t, u, v, start);
    }
  }

  /** A header found after the substitution was there before it. */
  lemma {:induction false} HeaderWasThere(t: Rule, prev: Option<char>, u: string, v: string, k: string)
    requires t.Sane() && k in t.keywords && Agrees(t, u, v) && Header(t, prev, v, k).Some?
    ensures Header(t, prev, u, k) == Header(t, prev, v, k)
  {
    if u != v {
      var a: nat :| ReplacedAt(t, u, v, a);
      var n, j := |k|, Header(t, prev, v, k).value;
      var i := Spaces(t, v, n);
      BeforeBracket(t, u, v, a, n, i, j, k);
      SpacesUnique(t, u, n, i);
      SpacesUnique(t, u, i + 1, j);
    }
  }

  /** Neither keyword, nor space, nor separator is a bracket, so the header ends before the replaced value. */
  lemma {:induction false} BeforeBracket(t: Rule, u: string, v: string, a: nat, n: nat, i: nat, j: nat, k: string)
    requires t.Sane() && k in t.keywords && ReplacedAt(t, u, v, a) && KeywordAt(t, v, k) && n == |k| && n > 0
    requires n <= i < j < |v| && SpacesTo(t, v, n, i) && v[i] in {':', '='} && SpacesTo(t, v, i + 1, j) && ValueChar(t, v[j])
    ensures j <= a && j < |u| && (forall x | 0 <= x < j :: u[x] == v[x]) && ValueChar(t, u[j])
    ensures KeywordAt(t, u, k) && SpacesTo(t, u, n, i) && SpacesTo(t, u, i + 1, j)
  {
    assert !t.space('[') by {
      assert REDACTED[0] == '[' && REDACTED[0] in REDACTED;
    }
    assert a >= n;
    assert a >= j;
    forall x | 0 <= x < a ensures u[x] == v[x] {
      assert u[..a][x] == v[..a][x];
    }
  }

  lemma {:induction false} HeaderStillThere(t: Rule, prev: Option<char>, u: string, v: string, k: string, start: nat)
    requires t.Sane() && Header(t, prev, u, k) == Some(start)
    requires start < |v| && v[start] == '[' && u[..start] == v[..start]
    ensures Header(t, prev, v, k) == Some(start)
  {
    assert !t.space('[') by {
      assert REDACTED[0] == '[' && REDACTED[0] in REDACTED;
    }
    forall x | 0 <= x < start ensures u[x] == v[x] {
      assert u[..start][x] == v[..start][x];
    }
    var i := Spaces(t, u, |k|);
    SpacesUnique(t, v, |k|, i);
    SpacesUnique(t, v, i + 1, start);
  }

  ghost predicate Among(ks: seq<string>, keywords: seq<string>) {
    forall k | k in ks :: k in keywords
  }

  lemma {:induction false} NoneStaysNone(t: Rule, prev: Option<char>, u: string, v: string, ks: seq<string>)
    requires t.Sane() && Among(ks, t.keywords) && Agrees(t, u, v) && FirstHeader(t, prev, u, ks).None?
    ensures FirstHeader(t, prev, v, ks).None?
  {
    hide Header, Agrees;
    if ks != [] {
      assert ks[0] in ks;
      if Header(t, prev, v, ks[0]).Some? {
        HeaderWasThere(t, prev, u, v, ks[0]);
      }
      NoneStaysNone(t, prev, u, v, ks[1..]);
    }
  }

  lemma {:induction false} FirstStays(t: Rule, prev: Option<char>, u: string, v: string, ks: seq<string>, start: nat)
    requires t.Sane() && Among(ks, t.keywords) && FirstHeader(t, prev, u, ks) == Some(start)
    requires start < |v| && v[start] == '[' && u[..start] == v[..start]
    ensures FirstHeader(t, prev, v, ks) == Some(start)
  {
    hide Header, Agrees;
    if ks != [] {
      assert ks[0] in ks;
      if Header(t, prev, u, ks[0]).Some? {
        HeaderStillThere(t, prev, u, v, ks[0], start);
      } else {
        if Header(t, prev, v, ks[0]).Some? {
          AgreesAt(t, u, v, start);
          HeaderWasThere(t, prev, u, v, ks[0]);
        }
        FirstStays(t, prev, u, v, ks[1..], start);
      }
    }
  }

  lemma {:induction false} AgreesAt(t: Rule, u: string, v: string, a: nat)
    requires ReplacedAt(t, u, v, a)
    ensures Agrees(t, u, v)
  {
  }

  predicate Ends(t: Rule, w: string) {
    w == "" || !ValueChar(t, w[0])
  }

  lemma {:induction false} NotAStart(t: Rule, w: string, k: string)
    requires t.Sane() && k in t.keywords && k != "" && w != "" && Ends(t, w)
    ensures !t.same(w[0], k[0])
  {
    assert t.same(w[0], k[0]) ==> ValueChar(t, w[0]);
  }

  /** What follows a value starts with no keyword. */
  lemma {:induction false} NoHeaderAfterValue(t: Rule, prev: Option<char>, w: string, ks: seq<string>)
    requires t.Sane() && Among(ks, t.keywords) && Ends(t, w)
    ensures FirstHeader(t, prev, w, ks).None?
  {
    if ks != [] {
      assert ks[0] in ks;
      if w != "" && ks[0] != "" {
        NotAStart(t, w, ks[0]);
      }
      NoHeaderAfterValue(t, prev, w, ks[1..]);
    }
  }

  /** After a value, the character before no longer matters. */
  lemma {:induction false} AfterValue(t: Rule, a: Option<char>, b: Option<char>, w: string)
    requires t.Sane() && Ends(t, w)
    ensures Substitute(t, a, w) == Substitute(t, b, w) && Ends(t, Substitute(t, a, w))
  {
    NoHeaderAfterValue(t, a, w, t.keywords);
    NoHeaderAfterValue(t, b, w, t.keywords);
  }

  lemma {:induction false} ReplacementEnds(t: Rule, before: string, rest: string)
    requires t.Sane() && Ends(t, rest)
    ensures ValueEnd(t, before + REDACTED + rest, |before|) == |before| + |REDACTED|
  {
    var v := before + REDACTED + rest;
    forall x | |before| <= x < |before| + |REDACTED| ensures ValueChar(t, v[x]) {
      assert v[x] == REDACTED[x - |before|];
      assert REDACTED[x - |before|] in REDACTED;
    }
    ValueEndUnique(t, v, |before|, |before| + |REDACTED|);
  }

  /** The substitution applied to a text that starts with a replaced assignment. */
  lemma {:induction false} SubstituteReplaced(t: Rule, prev: Option<char>, u: string, start: nat, rest: string)
    requires t.Sane() && FirstHeader(t, prev, u, t.keywords) == Some(start) && Ends(t, rest)
    ensures Substitute(t, prev, u[..start] + REDACTED + rest) == u[..start] + REDACTED + Substitute(t, Some(']'), rest)
  {
    hide FirstHeader;
    var v := u[..start] + REDACTED + rest;
    assert v[start] == REDACTED[0] && v[..start] == u[..start];
    FirstStays(t, prev, u, v, t.keywords, start);
    ReplacementEnds(t, u[..start], rest);
    var end := start + |REDACTED|;
    assert v[end..] == rest && v[end - 1] == REDACTED[|REDACTED| - 1];
  }

  /** Redacting a redacted text changes nothing, for every text. */
  lemma {:induction false} SubstituteIdempotent(t: Rule, prev: Option<char>, u: string)
    requires t.Sane()
    ensures Substitute(t, prev, Substitute(t, prev, u)) == Substitute(t, prev, u)
    decreases |u|
  {
    hide FirstHeader, Header, Agrees;
    if u != "" {
      var v := Substitute(t, prev, u);
      match FirstHeader(t, prev, u, t.keywords)
      case None =>
        SubstituteAgrees(t, prev, u);
        NoneStaysNone(t, prev, u, v, t.keywords);
        assert v[1..] == Substitute(t, Some(u[0]), u[1..]);
        SubstituteIdempotent(t, Some(u[0]), u[1..]);
      case Some(start) =>
        var end := ValueEnd(t, u, start);
        var rest := Substitute(t, Some(u[end - 1]), u[end..]);
        AfterValue(t, Some(u[end - 1]), Some(']'), u[end..]);
        SubstituteReplaced(t, prev, u, start, rest);
        SubstituteIdempotent(t, Some(']'), u[end..]);
    }
  }

  lemma {:induction false} AssignmentsIdempotent(t: Rule, text: string)
    requires t.Sane()
    ensures RedactAssignments(t, RedactAssignments(t, text)) == RedactAssignments(t, text)
  {
    SubstituteIdempotent(t, None, text);
  }

  /** Some assignment the left-to-right scan finds still shows its value. */
  predicate Exposed(t: Rule, prev: Option<char>, u: string)
    decreases |u|
  {
    u != "" &&
    match FirstHeader(t, prev, u, t.keywords)
    case None => Exposed(t, Some(u[0]), u[1..])
    case Some(start) =>
      var end := ValueEnd(t, u, start);
      u[start..end] != REDACTED || Exposed(t, Some(u[end - 1]), u[end..])
  }

  /** The read-back comparison sees exactly the texts that still show a value. */
  lemma {:induction false} UnchangedIffHidden(t: Rule, prev: Option<char>, u: string)
    requires t.Sane()
    ensures Substitute(t, prev, u) == u <==> !Exposed(t, prev, u)
    decreases |u|
  {
    hide FirstHeader, Header;
    if u != "" {
      var v := Substitute(t, prev, u);
      match FirstHeader(t, prev, u, t.keywords)
      case None =>
        UnchangedIffHidden(t, Some(u[0]), u[1..]);
        assert u == [u[0]] + u[1..];
        assert v[1..] == Substitute(t, Some(u[0]), u[1..]);
      case Some(start) =>
        var end := ValueEnd(t, u, start);
        AfterValue(t, Some(u[end - 1]), Some(']'), u[end..]);
        UnchangedIffHidden(t, Some(u[end - 1]), u[end..]);
        SamePieces(t, u, start, end, Substitute(t, Some(u[end - 1]), u[end..]));
    }
  }

  lemma {:induction false} SamePieces(t: Rule, u: string, start: nat, end: nat, rest: string)
    requires t.Sane() && start < end <= |u| && end == ValueEnd(t, u, start) && Ends(t, rest)
    ensures u[..start] + REDACTED + rest == u <==> u[start..end] == REDACTED && rest == u[end..]
  {
    var v := u[..start] + REDACTED + rest;
    if v == u {
      ReplacementEnds(t, u[..start], rest);
      assert v[start..end] == REDACTED && v[end..] == rest;
    } else {
      assert u == u[..start] + u[start..end] + u[end..];
    }
  }

  // -------------------------------------------------------- nested values

  /** A JSON-like value; `Scalar` is anything that is not a string or a container. */
  datatype Value = Text(text: string) | Scalar(name: string) | List(items: seq<Value>) | Tuple(items: seq<Value>)
                 | Dict(keys: seq<string>, items: seq<Value>)

  /** `redact_value` */
  function RedactValue(redact: string -> string, v: Value): Value {
    match v
    case Text(text) => Text(redact(text))
    case Scalar(_) => v
    case List(items) => List(seq(|items|, i requires 0 <= i < |items| => RedactValue(redact, items[i])))
    case Tuple(items) => Tuple(seq(|items|, i requires 0 <= i < |items| => RedactValue(redact, items[i])))
    case Dict(keys, items) => Dict(keys, seq(|items|, i requires 0 <= i < |items| => RedactValue(redact, items[i])))
  }

  /** The same containers, keys and scalars, and every text redacted. */
  predicate SameShape(redact: string -> string, v: Value, w: Value) {
    match v
    case Text(text) => w == Text(redact(text))
    case Scalar(_) => w == v
    case List(items) => w.List? && |w.items| == |items| && forall i | 0 <= i < |items| :: SameShape(redact, items[i], w.items[i])
    case Tuple(items) => w.Tuple? && |w.items| == |items| && forall i | 0 <= i < |items| :: SameShape(redact, items[i], w.items[i])
    case Dict(keys, items) =>
      w.Dict? && w.keys == keys && |w.items| == |items| && forall i | 0 <= i < |items| :: SameShape(redact, items[i], w.items[i])
  }

  lemma {:induction false} ShapeKept(redact: string -> string, v: Value)
    ensures SameShape(redact, v, RedactValue(redact, v))
  {
    if !v.Text? && !v.Scalar? {
      forall i | 0 <= i < |v.items| ensures SameShape(redact, v.items[i], RedactValue(redact, v.items[i])) {
        ShapeKept(redact, v.items[i]);
      }
    }
  }

  lemma {:induction false} ValueIdempotent(redact: string -> string, v: Value)
    requires forall text :: redact(redact(text)) == redact(text)
    ensures RedactValue(redact, RedactValue(redact, v)) == RedactValue(redact, v)
  {
    if !v.Text? && !v.Scalar? {
      var once := RedactValue(redact, v);
      forall i | 0 <= i < |v.items| ensures RedactValue(redact, once.items[i]) == once.items[i] {
        ValueIdempotent(redact, v.items[i]);
      }
      assert RedactValue(redact, once).items == once.items;
    }
  }

  /** Lifting the assignment rule over any nested value keeps its shape and is idempotent. */
  lemma {:induction false} AssignmentsInValues(t: Rule, v: Value)
    requires t.Sane()
    ensures var redact := (text: string) => RedactAssignments(t, text);
      SameShape(redact, v, RedactValue(redact, v)) && RedactValue(redact, RedactValue(redact, v)) == RedactValue(redact, v)
  {
    var redact := (text: string) => RedactAssignments(t, text);
    ShapeKept(redact, v);
    forall text ensures redact(redact(text)) == redact(text) {
      AssignmentsIdempotent(t, text);
    }
    ValueIdempotent(redact, v);
  }

  // --------------------------------------------------------- two engines

  function Lower(c: char): char {
    if 'A' <= c <= 'Z' then (c as int + 32) as char else c
  }

  predicate AsciiLetter(c: char) {
    'a' <= Lower(c) <= 'z'
  }

  /** The engine restricted to ASCII texts. */
  const ASCII := Rule(KEYWORDS,
                      c => c in {' ', '\t', '\n', '\r', '\U{0B}', '\U{0C}'},
                      c => AsciiLetter(c) || '0' <= c <= '9' || c == '_',
                      (c, k) => Lower(c) == k,
                      AsciiLetter)

  /** What the ignore-case flag adds to the ASCII letter `k`. */
  predicate ExtraCase(c: char, k: char) {
    (k == 's' && c == '\U{017F}') || (k == 'k' && c == '\U{212A}') || (k == 'i' && c in {'\U{0130}', '\U{0131}'})
  }

  /** The white space of Unicode strings. */
  predicate UnicodeSpace(c: char) {
    || '\t' <= c <= '\r' || '\U{1C}' <= c <= ' ' || c in {'\U{85}', '\U{A0}', '\U{1680}', '\U{202F}', '\U{205F}', '\U{3000}'}
    || '\U{2000}' <= c <= '\U{200A}' || c in {'\U{2028}', '\U{2029}'}
  }

  predicate PythonSame(c: char, k: char) {
    Lower(c) == k || ExtraCase(c, k)
  }

  predicate PythonLetter(c: char) {
    AsciiLetter(c) || c in {'\U{017F}', '\U{212A}', '\U{0130}', '\U{0131}'}
  }

  /** Python's `re` on Unicode strings with ignore-case set, for any class of word characters. */
  function Python(word: char -> bool): Rule {
    Rule(KEYWORDS, UnicodeSpace, word, PythonSame, PythonLetter)
  }

  /**
   Ignore-case matching: a character matches an ASCII letter when it is that letter, its
   capital, or one of the four others that fold to it; a letter of the URL rule is a character
   that matches some letter; and white space is what Unicode calls so.
   */
  lemma {:induction false} PythonTells(word: char -> bool, c: char, k: char)
    requires 'a' <= k <= 'z' || k == '_' || k == '-'
    ensures var n, m := c as int, k as int;
      && (Python(word).same(c, k) <==> n == m || (m >= 97 && n == m - 32) || (n, m) in {(383, 115), (8490, 107), (304, 105), (305, 105)})
      && (Python(word).letter(c) <==> 97 <= n <= 122 || 65 <= n <= 90 || n in {304, 305, 383, 8490})
      && (Python(word).space(c) <==> 9 <= n <= 13 || 28 <= n <= 32 || 8192 <= n <= 8202 || n in {133, 160, 5760, 8232, 8233, 8239, 8287, 12288})
  {
  }

  lemma {:induction false} AsciiIsSane()
    ensures ASCII.Sane()
  {
    forall c, k, i | k in KEYWORDS && 0 <= i < |k| && ASCII.same(c, k[i]) ensures c != '[' {
      assert '[' !in k;
    }
    forall c, k | k in KEYWORDS && k != "" && ASCII.same(c, k[0]) ensures !ASCII.space(c) && c !in {',', ';', '"', '\''} {
      assert k[0] in {'p', 's', 't', 'a'};
    }
  }

  lemma {:induction false} PythonIsSane(word: char -> bool)
    ensures Python(word).Sane()
  {
    var t := Python(word);
    forall c, k, i | k in KEYWORDS && 0 <= i < |k| && t.same(c, k[i]) ensures c != '[' {
      assert '[' !in k;
    }
    forall c, k | k in KEYWORDS && k != "" && t.same(c, k[0]) ensures !t.space(c) && c !in {',', ';', '"', '\''} {
      assert k[0] in {'p', 's', 't', 'a'};
    }
  }
}
