/**
 The URL rule of `redact_text`: what an engine must say about its characters, the
 substitution one character at a time, and that a second substitution changes nothing.
 */
module Urls {
  import opened Common
  import opened Safety

  datatype Class = Scheme | User | Secret

  /** The character classes of the URL rule. */
  predicate Member(t: Rule, class_: Class, c: char) {
    match class_
    case Scheme => t.letter(c) || '0' <= c <= '9' || c in {'+', '.', '-'}
    case User => !t.space(c) && c !in {':', '/', '@'}
    case Secret => !t.space(c) && c !in {'/', '@'}
  }

  /** The end of a run of characters of one class. */
  function RunEnd(t: Rule, class_: Class, u: string, i: nat): (e: nat)
    requires i <= |u|
    ensures RunTo(t, class_, u, i, e)
    decreases |u| - i
  {
    if i < |u| && Member(t, class_, u[i]) then RunEnd(t, class_, u, i + 1) else i
  }

  predicate RunTo(t: Rule, class_: Class, u: string, i: nat, e: nat) {
    && i <= e <= |u| && (forall x | i <= x < e :: Member(t, class_, u[x])) && (e < |u| ==> !Member(t, class_, u[e]))
  }

  lemma {:induction false} RunEndUnique(t: Rule, class_: Class, u: string, i: nat, e: nat)
    requires RunTo(t, class_, u, i, e)
    ensures RunEnd(t, class_, u, i) == e
  {
  }

  /** The URL rule at the head of `u`: where the password starts and ends. */
  function UrlAt(t: Rule, u: string): (found: Option<(nat, nat)>)
    ensures found.Some? ==> 0 < found.value.0 < found.value.1 < |u|
  {
    if u == "" || !t.letter(u[0]) then None
    else
      var n := RunEnd(t, Scheme, u, 1);
      if n + 3 > |u| || u[n] != ':' || u[n + 1] != '/' || u[n + 2] != '/' then None
      else
        var b := RunEnd(t, User, u, n + 3);
        if b == n + 3 || b == |u| || u[b] != ':' then None
        else
          var d := RunEnd(t, Secret, u, b + 1);
          if d == b + 1 || d == |u| || u[d] != '@' then None else Some((b + 1, d))
  }

  /** What takes the place of a password, up to the sign after it. */
  const MARK := REDACTED + "@"

  function RedactUrls(t: Rule, u: string): string
    decreases |u|
  {
    if u == "" then ""
    else
      match UrlAt(t, u)
      case None => [u[0]] + RedactUrls(t, u[1..])
      case Some((start, end)) => u[..start] + MARK + RedactUrls(t, u[end + 1..])
  }

  /** What the two rules together need of the engine, beyond what the assignment rule needs. */
  ghost predicate Regular(t: Rule) {
    && t.Sane() && AtLeastTwo(t) && KeywordsPlain(t) && PunctuationPlain(t) && NoneInMark(t)
    && (forall u, k, l | k in t.keywords && l in t.keywords && KeywordAt(t, u, k) && KeywordAt(t, u, l) :: k == l)
  }

  ghost predicate AtLeastTwo(t: Rule) {
    forall k | k in t.keywords :: |k| >= 2
  }

  ghost predicate KeywordsPlain(t: Rule) {
    forall c, k, i | k in t.keywords && 0 <= i < |k| && t.same(c, k[i]) :: c !in {':', '=', '@', ']'}
  }

  ghost predicate PunctuationPlain(t: Rule) {
    && !t.space(':') && !t.space('/') && !t.space('@')
    && !t.letter(':') && !t.letter('/') && !t.letter('@') && !t.letter('[') && !t.letter(']')
  }

  /** No keyword starts within a mark. */
  ghost predicate NoneInMark(t: Rule) {
    forall k, q | k in t.keywords && 0 <= q < |MARK| :: NotHere(t, k, q)
  }

  predicate NotHere(t: Rule, k: string, q: nat)
    requires q < |MARK|
  {
    |k| >= 2 && (!t.same(MARK[q], k[0]) || (q + 1 < |MARK| && !t.same(MARK[q + 1], k[1])))
  }

  lemma {:induction false} AsciiIsRegular()
    ensures Regular(ASCII)
  {
    AsciiIsSane();
    KeywordsApart(ASCII);
    PlainKeywords(ASCII);
    NothingInMark(ASCII);
  }

  lemma {:induction false} PythonIsRegular(word: char -> bool)
    ensures Regular(Python(word))
  {
    PythonIsSane(word);
    KeywordsApart(Python(word));
    PlainKeywords(Python(word));
    NothingInMark(Python(word));
  }

  /** Up to case, and the extra cases of ignore-case, the keywords are themselves. */
  ghost predicate Folds(t: Rule) {
    t.keywords == KEYWORDS && forall c, k: char | t.same(c, k) :: PythonSame(c, k)
  }

  lemma {:induction false} KeywordsApart(t: Rule)
    requires Folds(t)
    ensures forall u, k, l | k in t.keywords && l in t.keywords && KeywordAt(t, u, k) && KeywordAt(t, u, l) :: k == l
  {
    forall u, k, l | k in t.keywords && l in t.keywords && KeywordAt(t, u, k) && KeywordAt(t, u, l) ensures k == l {
      SameStart(t, u, k, l);
    }
  }

  lemma {:induction false} KeywordLetters(k: string)
    requires k in KEYWORDS
    ensures |k| >= 5 && k[0] in {'p', 's', 't', 'a'}
    ensures k[0] == 'p' ==> |k| >= 6 && k == if k[5] == 'o' then "password" else "passwd"
    ensures k[0] == 's' ==> k == "secret"
    ensures k[0] == 't' ==> k == "token"
    ensures k[0] == 'a' ==> k == if k[3] == '_' then "api_key" else if k[3] == '-' then "api-key" else "apikey"
  {
  }

  lemma {:induction false} KeywordCharacters(k: string)
    requires k in KEYWORDS
    ensures ':' !in k && '=' !in k && '@' !in k && ']' !in k
  {
  }

  lemma {:induction false} SameStart(t: Rule, u: string, k: string, l: string)
    requires Folds(t) && k in KEYWORDS && l in KEYWORDS && KeywordAt(t, u, k) && KeywordAt(t, u, l)
    ensures k == l
  {
    KeywordLetters(k);
    KeywordLetters(l);
    SameLetter(t, u, k, l, 0);
    SameLetter(t, u, k, l, 3);
    if k[0] == 'p' {
      SameLetter(t, u, k, l, 5);
    }
  }

  lemma {:induction false} SameLetter(t: Rule, u: string, k: string, l: string, i: nat)
    requires Folds(t) && KeywordAt(t, u, k) && KeywordAt(t, u, l) && i < |k| && i < |l|
    ensures k[i] == l[i] || !('a' <= k[i] <= 'z' || k[i] in {'_', '-'}) || !('a' <= l[i] <= 'z' || l[i] in {'_', '-'})
  {
    assert PythonSame(u[i], k[i]) && PythonSame(u[i], l[i]);
  }

  lemma {:induction false} PlainKeywords(t: Rule)
    requires Folds(t)
    ensures AtLeastTwo(t) && KeywordsPlain(t)
  {
    forall k | k in t.keywords ensures |k| >= 2 {
      KeywordLetters(k);
    }
    forall c, k, i | k in t.keywords && 0 <= i < |k| && t.same(c, k[i]) ensures c !in {':', '=', '@', ']'} {
      KeywordCharacters(k);
      assert k[i] in k && PythonSame(c, k[i]);
    }
  }

  lemma {:induction false} NothingInMark(t: Rule)
    requires Folds(t)
    ensures NoneInMark(t)
  {
    forall k, q | k in t.keywords && 0 <= q < |MARK| ensures NotHere(t, k, q) {
      KeywordLetters(k);
      if t.same(MARK[q], k[0]) {
        assert PythonSame(MARK[q], k[0]);
        assert q in {4, 6};
        assert t.same(MARK[q + 1], k[1]) ==> PythonSame(MARK[q + 1], k[1]);
      }
    }
  }

  /** The shape of a match of the URL rule. */
  lemma {:induction false} UrlShape(t: Rule, u: string) returns (n: nat)
    requires UrlAt(t, u).Some?
    ensures var (s, e) := UrlAt(t, u).value;
      && 0 < n && n + 4 < s && IsUrl(t, u, n, s, e)
  {
    n := RunEnd(t, Scheme, u, 1);
  }

  predicate IsUrl(t: Rule, u: string, n: nat, s: nat, e: nat) {
    && 0 < n && n + 4 < s < e < |u| && t.letter(u[0]) && RunTo(t, Scheme, u, 1, n) && u[n] == ':' && u[n + 1] == u[n + 2] == '/'
    && RunTo(t, User, u, n + 3, s - 1) && u[s - 1] == ':' && RunTo(t, Secret, u, s, e) && u[e] == '@'
  }

  lemma {:induction false} UrlIs(t: Rule, u: string, n: nat, s: nat, e: nat)
    requires IsUrl(t, u, n, s, e)
    ensures UrlAt(t, u) == Some((s, e))
  {
    RunEndUnique(t, Scheme, u, 1, n);
    RunEndUnique(t, User, u, n + 3, s - 1);
    RunEndUnique(t, Secret, u, s, e);
  }

  // ------------------------------------------- the URL rule, step by step

  /** Where the scan stands: in no match, or in one whose password is `s` to `e` from here. */
  type Standing = Option<(nat, nat)>

  function Look(t: Rule, w: string, st: Standing): Standing {
    if st.Some? then st else UrlAt(t, w)
  }

  predicate InUrl(t: Rule, w: string, st: Standing) {
    st.Some? ==>
      var (s, e) := st.value;
      s < e < |w| && w[e] == '@' && (s > 0 ==> w[s - 1] == ':') && forall x | s <= x < e :: Member(t, Secret, w[x])
  }

  /** The substitution one character at a time. */
  function UrlsFrom(t: Rule, w: string, st: Standing): string
    requires InUrl(t, w, st)
    decreases |w|
  {
    if w == "" then ""
    else
      LookIsIn(t, w, st);
      match Look(t, w, st)
      case None => [w[0]] + UrlsFrom(t, w[1..], None)
      case Some((s, e)) =>
        if s == 0 then MARK + UrlsFrom(t, w[e + 1..], None)
        else [w[0]] + UrlsFrom(t, w[1..], Some((s - 1, e - 1)))
  }

  lemma {:induction false} LookIsIn(t: Rule, w: string, st: Standing)
    requires InUrl(t, w, st)
    ensures InUrl(t, w, Look(t, w, st))
    ensures w != "" && Look(t, w, st).Some? && Look(t, w, st).value.0 > 0 ==>
              InUrl(t, w[1..], Some((Look(t, w, st).value.0 - 1, Look(t, w, st).value.1 - 1)))
  {
    if st.None? && UrlAt(t, w).Some? {
      var n := UrlShape(t, w);
    }
  }

  lemma {:induction false} InsideUrl(t: Rule, w: string, s: nat, e: nat)
    requires InUrl(t, w, Some((s, e)))
    ensures UrlsFrom(t, w, Some((s, e))) == w[..s] + MARK + UrlsFrom(t, w[e + 1..], None)
    decreases s
  {
    if s > 0 {
      LookIsIn(t, w, Some((s, e)));
      InsideUrl(t, w[1..], s - 1, e - 1);
      hide InUrl;
      OneIn(w, s, e, UrlsFrom(t, w[e + 1..], None));
    }
  }

  lemma {:induction false} OneIn(w: string, s: nat, e: nat, rest: string)
    requires 0 < s < e < |w|
    ensures w[1..][e..] == w[e + 1..]
    ensures [w[0]] + (w[1..][..s - 1] + MARK + rest) == w[..s] + MARK + rest
  {
    assert w[..s] == [w[0]] + w[1..][..s - 1];
  }

  lemma {:induction false} UrlsFromIs(t: Rule, w: string)
    ensures UrlsFrom(t, w, None) == RedactUrls(t, w)
    decreases |w|
  {
    if w != "" {
      match UrlAt(t, w)
      case None => UrlsFromIs(t, w[1..]);
      case Some((s, e)) =>
        LookIsIn(t, w, None);
        assert UrlsFrom(t, w, None) == UrlsFrom(t, w, Some((s, e)));
        InsideUrl(t, w, s, e);
        UrlsFromIs(t, w[e + 1..]);
    }
  }

  /** The next password the scan replaces. */
  function NextUrl(t: Rule, w: string, st: Standing): Standing
    requires InUrl(t, w, st)
    decreases |w|
  {
    if w == "" then None
    else
      match Look(t, w, st)
      case Some(found) => Some(found)
      case None =>
        match NextUrl(t, w[1..], None)
        case None => None
        case Some((s, e)) => Some((s + 1, e + 1))
  }

  ghost predicate EarlierColon(w: string, a: nat) {
    exists n :: 0 <= n < a - 1 && n < |w| && w[n] == ':'
  }

  ghost predicate UpToNext(t: Rule, w: string, st: Standing, next: Standing)
    requires InUrl(t, w, st)
  {
    match next
    case None => UrlsFrom(t, w, st) == w
    case Some((a, d)) =>
      && InUrl(t, w, next) && UrlsFrom(t, w, st) == w[..a] + MARK + UrlsFrom(t, w[d + 1..], None)
      && (st.None? ==> a > 0 && EarlierColon(w, a))
  }

  /** The text is kept up to the next password, which a scan in no match meets only after an earlier colon. */
  lemma {:induction false} KeptUpToNext(t: Rule, w: string, st: Standing)
    requires InUrl(t, w, st)
    ensures UpToNext(t, w, st, NextUrl(t, w, st))
    decreases |w|
  {
    if w != "" {
      LookIsIn(t, w, st);
      match Look(t, w, st)
      case Some((a, d)) => KeptInside(t, w, st, a, d);
      case None =>
        KeptUpToNext(t, w[1..], None);
        hide UrlAt, InUrl;
        NextAfterOne(t, w);
    }
  }

  lemma {:induction false} KeptInside(t: Rule, w: string, st: Standing, a: nat, d: nat)
    requires w != "" && InUrl(t, w, st) && Look(t, w, st) == Some((a, d)) && InUrl(t, w, Some((a, d)))
    ensures UpToNext(t, w, st, Some((a, d)))
  {
    assert UrlsFrom(t, w, st) == UrlsFrom(t, w, Some((a, d)));
    InsideUrl(t, w, a, d);
    if st.None? {
      var n := UrlShape(t, w);
      assert w[n] == ':' && n < a - 1;
    }
  }

  lemma {:induction false} NextAfterOne(t: Rule, w: string)
    requires w != "" && UrlAt(t, w).None? && UpToNext(t, w[1..], None, NextUrl(t, w[1..], None))
    ensures UpToNext(t, w, None, NextUrl(t, w, None))
  {
    assert w == [w[0]] + w[1..];
    match NextUrl(t, w[1..], None)
    case None =>
    case Some((a, d)) =>
      hide UrlAt, Look;
      InOneMore(t, w, a, d);
      OneIn(w, a + 1, d + 1, UrlsFrom(t, w[d + 2..], None));
      assert w[1..][d + 1..] == w[d + 2..];
      var n :| 0 <= n < a - 1 && n < |w[1..]| && w[1..][n] == ':';
      assert w[n + 1] == ':';
  }

  lemma {:induction false} InOneMore(t: Rule, w: string, a: nat, d: nat)
    requires w != "" && a > 0 && InUrl(t, w[1..], Some((a, d)))
    ensures InUrl(t, w, Some((a + 1, d + 1)))
  {
    forall x | a + 1 <= x < d + 1 ensures Member(t, Secret, w[x]) {
      assert w[x] == w[1..][x - 1];
    }
  }

  // ------------------------------------------ the URL rule is idempotent

  /** A URL found once a later password was replaced was there before. */
  lemma {:induction false} UrlWasThere(t: Rule, w: string, a: nat, d: nat, rest: string)
    requires Regular(t) && a > 0 && InUrl(t, w, Some((a, d))) && UrlAt(t, w[..a] + MARK + rest).Some?
    ensures UrlAt(t, w).Some?
  {
    var v := w[..a] + MARK + rest;
    var (s, e) := UrlAt(t, v).value;
    var n := UrlShape(t, v);
    assert v[a] == MARK[0] == '[' && v[a - 1] == ':';
    BeforeMark(t, v, a, n, s, e);
    assert forall x | 0 <= x < a :: v[x] == w[x];
    if e < a {
      UrlIs(t, w, n, s, e);
    } else {
      UrlIs(t, w, n, s, d);
    }
  }

  /** A match whose text holds a colon and a bracket somewhere has its password start there or earlier. */
  lemma {:induction false} BeforeMark(t: Rule, v: string, a: nat, n: nat, s: nat, e: nat)
    requires Regular(t) && IsUrl(t, v, n, s, e) && 0 < a < |v| && v[a] == '[' && v[a - 1] == ':'
    ensures n + 3 < a && s <= a && e != a
  {
    assert !Member(t, Scheme, '[') && !Member(t, User, ':');
    assert n < a;
    assert n + 3 <= a - 1;
  }

  lemma {:induction false} MarkedUrl(t: Rule, u: string, rest: string)
    requires Regular(t) && UrlAt(t, u).Some?
    ensures var s := UrlAt(t, u).value.0; UrlAt(t, u[..s] + MARK + rest) == Some((s, s + |REDACTED|))
  {
    var (s, e) := UrlAt(t, u).value;
    var v := u[..s] + MARK + rest;
    var n := UrlShape(t, u);
    forall x | s <= x < s + |REDACTED| ensures Member(t, Secret, v[x]) {
      assert v[x] == REDACTED[x - s] && REDACTED[x - s] in REDACTED;
    }
    assert v[s + |REDACTED|] == '@';
    assert forall x | 0 <= x < s :: v[x] == u[x];
    UrlIs(t, v, n, s, s + |REDACTED|);
  }

  /** Redacting URLs a second time changes nothing, for every text. */
  lemma {:induction false} UrlsIdempotent(t: Rule, u: string)
    requires Regular(t)
    ensures RedactUrls(t, RedactUrls(t, u)) == RedactUrls(t, u)
    decreases |u|
  {
    hide UrlAt, Regular;
    if u != "" {
      var v := RedactUrls(t, u);
      match UrlAt(t, u)
      case None =>
        UrlsIdempotent(t, u[1..]);
        assert v[0] == u[0] && v[1..] == RedactUrls(t, u[1..]);
        NoUrlAppears(t, u);
      case Some((s, e)) =>
        UrlsIdempotent(t, u[e + 1..]);
        MarkedUrl(t, u, RedactUrls(t, u[e + 1..]));
        MarkedAgain(t, u[..s], RedactUrls(t, u[e + 1..]));
    }
  }

  lemma {:induction false} NoUrlAppears(t: Rule, u: string)
    requires Regular(t) && UrlAt(t, u).None?
    ensures UrlAt(t, RedactUrls(t, u)).None?
  {
    UrlsFromIs(t, u);
    KeptUpToNext(t, u, None);
    hide UrlAt, Regular;
    match NextUrl(t, u, None)
    case None =>
    case Some((a, d)) =>
      var rest := UrlsFrom(t, u[d + 1..], None);
      if UrlAt(t, u[..a] + MARK + rest).Some? {
        UrlWasThere(t, u, a, d, rest);
      }
  }

  lemma {:induction false} MarkedAgain(t: Rule, before: string, rest: string)
    requires UrlAt(t, before + MARK + rest) == Some((|before|, |before| + |REDACTED|))
    ensures RedactUrls(t, before + MARK + rest) == before + MARK + RedactUrls(t, rest)
  {
    hide UrlAt;
    var v, s := before + MARK + rest, |before|;
    assert v[..s] == before && v[s + |REDACTED| + 1..] == rest;
  }
}
