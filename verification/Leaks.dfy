/** Concrete texts on which redaction is not idempotent, and is not done field by field. */
module Leaks {
  import opened Common
  import opened Safety
  import opened Urls
  import opened Redaction

  lemma {:induction false} NoUrlWithoutAt(u: string)
    requires '@' !in u
    ensures RedactUrls(ASCII, u) == u
  {
    if u != "" {
      assert UrlAt(ASCII, u).None?;
      NoUrlWithoutAt(u[1..]);
    }
  }

  /** Characters that no keyword starts with. */
  predicate Plain(u: string) {
    forall c | c in u :: Lower(c) !in {'p', 's', 't', 'a'}
  }

  lemma {:induction false} NoKeywordHere(prev: Option<char>, u: string)
    requires u != "" && (forall k | k in KEYWORDS :: !KeywordAt(ASCII, u, k))
    ensures RedactFrom(prev, u) == [u[0]] + RedactFrom(Some(u[0]), u[1..])
  {
    NoFirstHeader(prev, u, KEYWORDS);
  }

  function RedactFrom(prev: Option<char>, u: string): string {
    Substitute(ASCII, prev, u)
  }

  lemma {:induction false} NoFirstHeader(prev: Option<char>, u: string, ks: seq<string>)
    requires forall k | k in ks :: Header(ASCII, prev, u, k).None?
    ensures FirstHeader(ASCII, prev, u, ks).None?
  {
    if ks != [] {
      assert ks[0] in ks;
      NoFirstHeader(prev, u, ks[1..]);
    }
  }

  lemma {:induction false} SkipPlain(prev: Option<char>, u: string, rest: string)
    requires u != "" && Plain(u)
    ensures RedactFrom(prev, u + rest) == u + RedactFrom(Some(u[|u| - 1]), rest)
    decreases |u|
  {
    var all := u + rest;
    assert u[0] in u && all[0] == u[0] && all[1..] == u[1..] + rest;
    hide RedactFrom, KeywordAt;
    StartsNoKeyword(all);
    NoKeywordHere(prev, all);
    if |u| > 1 {
      SkipPlain(Some(u[0]), u[1..], rest);
    } else {
      assert all[1..] == rest;
    }
  }

  lemma {:induction false} StartsNoKeyword(u: string)
    requires u != "" && Lower(u[0]) !in {'p', 's', 't', 'a'}
    ensures forall k | k in KEYWORDS :: !KeywordAt(ASCII, u, k)
  {
    forall k | k in KEYWORDS ensures !KeywordAt(ASCII, u, k) {
      assert k[0] in {'p', 's', 't', 'a'};
    }
  }

  // A text the rules redact once, what they make of it, and what they make of that.

  const LEAKY := "x://token:,abc@"
  const HIDDEN := "x://token:[REDACTED]@"
  const EATEN := "x://token:[REDACTED]"

  lemma {:induction false} OnlyToken(u: string)
    requires u != "" && u[0] == 't'
    ensures forall k | k in KEYWORDS && k != "token" :: !KeywordAt(ASCII, u, k)
  {
    forall k | k in KEYWORDS && k != "token" ensures !KeywordAt(ASCII, u, k) {
      assert k[0] in {'p', 's', 'a'};
    }
  }

  lemma {:induction false} FirstIs(prev: Option<char>, u: string, ks: seq<string>, k: string, start: nat)
    requires k in ks && Header(ASCII, prev, u, k) == Some(start)
    requires forall other | other in ks && other != k :: Header(ASCII, prev, u, other).None?
    ensures FirstHeader(ASCII, prev, u, ks) == Some(start)
  {
    assert ks[0] in ks;
    if ks[0] != k {
      FirstIs(prev, u, ks[1..], k, start);
    }
  }

  lemma {:induction false} NoHeaderHere(prev: Option<char>, u: string)
    requires u != "" && FirstHeader(ASCII, prev, u, KEYWORDS).None?
    ensures RedactFrom(prev, u) == [u[0]] + RedactFrom(Some(u[0]), u[1..])
  {
    hide FirstHeader;
  }

  lemma {:induction false} AbcStartsNoKeyword()
    ensures forall k | k in KEYWORDS :: !KeywordAt(ASCII, "abc@", k)
  {
    forall k | k in KEYWORDS ensures !KeywordAt(ASCII, "abc@", k) {
      assert k[0] in {'p', 's', 't'} || k[1] == 'p';
    }
  }

  lemma {:induction false} TailUntouched(prev: Option<char>)
    ensures RedactFrom(prev, "oken:,abc@") == "oken:,abc@"
  {
    hide RedactFrom, KeywordAt;
    SkipPlain(prev, "oken:,", "abc@");
    assert "oken:,abc@" == "oken:," + "abc@";
    AbcStartsNoKeyword();
    NoKeywordHere(Some(','), "abc@");
    assert "abc@"[1..] == "bc@" == "bc@" + "";
    SkipPlain(Some('a'), "bc@", "");
    NothingLeft(Some('@'));
  }

  lemma {:induction false} NothingLeft(prev: Option<char>)
    ensures RedactFrom(prev, "") == ""
  {
  }

  lemma {:induction false} NoValueAfterColon(u: string)
    requires u == "token:,abc@"
    ensures FirstHeader(ASCII, Some('/'), u, KEYWORDS).None?
  {
    OnlyToken(u);
    SpacesUnique(ASCII, u, 5, 5);
    SpacesUnique(ASCII, u, 6, 6);
    assert Header(ASCII, Some('/'), u, "token").None?;
    hide KeywordAt, Spaces, Boundary;
    forall k | k in KEYWORDS ensures Header(ASCII, Some('/'), u, k).None? {
    }
    NoFirstHeader(Some('/'), u, KEYWORDS);
  }

  /** No value follows the colon, so the assignment rule leaves this text alone. */
  lemma {:induction false} LeakyUntouched()
    ensures RedactAssignments(ASCII, LEAKY) == LEAKY
  {
    hide Substitute, FirstHeader;
    var u := "token:,abc@";
    assert LEAKY == "x://" + u;
    SkipPlain(None, "x://", u);
    NoValueAfterColon(u);
    NoHeaderHere(Some('/'), u);
    assert u[1..] == "oken:,abc@";
    TailUntouched(Some('t'));
  }

  lemma {:induction false} UrlFound(u: string)
    requires u == LEAKY
    ensures UrlAt(ASCII, u) == Some((10, 14)) && u[..10] == "x://token:" && u[15..] == ""
  {
    UrlIs(ASCII, u, 1, 10, 14);
  }

  /** The URL rule puts a value there. */
  lemma {:induction false} LeakyHidden()
    ensures RedactUrls(ASCII, LEAKY) == HIDDEN
  {
    var u := LEAKY;
    UrlFound(u);
    NoUrlWithoutAt("");
    hide UrlAt;
    OneUrl(u, 10, 14);
    assert "x://token:" + MARK + "" == HIDDEN;
  }

  lemma {:induction false} ValueAfterColon(u: string)
    requires u == "token:[REDACTED]@"
    ensures FirstHeader(ASCII, Some('/'), u, KEYWORDS) == Some(6)
  {
    OnlyToken(u);
    SpacesUnique(ASCII, u, 5, 5);
    SpacesUnique(ASCII, u, 6, 6);
    assert Header(ASCII, Some('/'), u, "token") == Some(6);
    hide KeywordAt, Spaces, Boundary, ValueChar;
    forall k | k in KEYWORDS && k != "token" ensures Header(ASCII, Some('/'), u, k).None? {
    }
    FirstIs(Some('/'), u, KEYWORDS, "token", 6);
  }

  lemma {:induction false} WholeValue(u: string)
    requires u == "token:[REDACTED]@"
    ensures ValueEnd(ASCII, u, 6) == 17 == |u|
  {
    ValueEndUnique(ASCII, u, 6, 17);
  }

  lemma {:induction false} LastAssignment(prev: Option<char>, u: string, start: nat)
    requires FirstHeader(ASCII, prev, u, KEYWORDS) == Some(start) && start < |u| && ValueEnd(ASCII, u, start) == |u|
    ensures RedactFrom(prev, u) == u[..start] + REDACTED
  {
    hide FirstHeader;
    var rest := u[|u|..];
    assert rest == "";
    assert RedactFrom(prev, u) == u[..start] + REDACTED + Substitute(ASCII, Some(u[|u| - 1]), rest);
  }

  /** And the assignment rule, coming to it again, takes the separator after it. */
  lemma {:induction false} HiddenEaten()
    ensures RedactAssignments(ASCII, HIDDEN) == EATEN
  {
    hide FirstHeader, ValueEnd, Substitute;
    var u := "token:[REDACTED]@";
    SkipPlain(None, "x://", u);
    AssignmentEaten(u);
    assert HIDDEN == "x://" + u;
    assert "x://" + "token:[REDACTED]" == EATEN;
  }

  lemma {:induction false} AssignmentEaten(u: string)
    requires u == "token:[REDACTED]@"
    ensures RedactFrom(Some('/'), u) == "token:[REDACTED]"
  {
    hide FirstHeader, ValueEnd, Substitute;
    ValueAfterColon(u);
    WholeValue(u);
    LastAssignment(Some('/'), u, 6);
    assert u[..6] + REDACTED == "token:[REDACTED]";
  }

  /**
   The rules in sequence are not idempotent, whatever the other two do elsewhere: redacting
   this text again changes it, so a read-back comparison rejects it although it was redacted.
   */
  lemma {:induction false} SequenceNotIdempotent(pem: string -> string, keys: string -> string)
    requires pem(LEAKY) == LEAKY && pem(EATEN) == EATEN && keys(HIDDEN) == HIDDEN && keys(EATEN) == EATEN
    ensures var rules := [AssignmentRule(ASCII), pem, UrlRule(ASCII), keys];
      && RedactWith(rules, LEAKY) == HIDDEN
      && RedactWith(rules, HIDDEN) == EATEN && |EATEN| != |HIDDEN|
  {
    hide RedactUrls, RedactAssignments, RedactWith;
    EatenKept();
    LeakyUntouched();
    LeakyHidden();
    HiddenEaten();
    InSequence(pem, keys, LEAKY, HIDDEN, EATEN);
  }

  lemma {:induction false} EatenKept()
    ensures RedactUrls(ASCII, EATEN) == EATEN && |EATEN| != |HIDDEN|
  {
    NoUrlWithoutAt(EATEN);
  }

  lemma {:induction false} InSequence(pem: string -> string, keys: string -> string, x: string, y: string, z: string)
    requires pem(x) == x && pem(z) == z && keys(y) == y && keys(z) == z
    requires RedactAssignments(ASCII, x) == x && RedactUrls(ASCII, x) == y && RedactAssignments(ASCII, y) == z && RedactUrls(ASCII, z) == z
    ensures var rules := [AssignmentRule(ASCII), pem, UrlRule(ASCII), keys]; RedactWith(rules, x) == y && RedactWith(rules, y) == z
  {
    hide RedactUrls, RedactAssignments, RedactWith;
    var a := AssignmentRule(ASCII);
    assert a(x) == x && a(y) == z;
    Twice(a, pem, UrlRule(ASCII), keys, x, y, z);
  }

  lemma {:induction false} Twice(a: string -> string, b: string -> string, c: string -> string, d: string -> string,
                                 x: string, y: string, z: string)
    requires a(x) == x && b(x) == x && c(x) == y && d(y) == y && a(y) == z && b(z) == z && c(z) == z && d(z) == z
    ensures RedactWith([a, b, c, d], x) == y && RedactWith([a, b, c, d], y) == z
  {
    FourRules(a, b, c, d, x);
    FourRules(a, b, c, d, y);
  }

  // Two fields no rule touches, and the row a comma makes of them.

  const FIELD := "x://a:b"
  const NEXT_FIELD := "c@d"
  const ROW := "x://a:b,c@d"

  lemma {:induction false} KeywordlessKept(prev: Option<char>, u: string)
    requires forall q, k | 0 <= q < |u| && k in KEYWORDS :: !KeywordHere(u, q, k)
    ensures RedactFrom(prev, u) == u
    decreases |u|
  {
    if u != "" {
      forall k | k in KEYWORDS ensures !KeywordAt(ASCII, u, k) {
        assert !KeywordHere(u, 0, k) && u[0..] == u;
      }
      NoKeywordHere(prev, u);
      forall q, k | 0 <= q < |u| - 1 && k in KEYWORDS ensures !KeywordHere(u[1..], q, k) {
        assert !KeywordHere(u, q + 1, k) && u[1..][q..] == u[q + 1..];
      }
      KeywordlessKept(Some(u[0]), u[1..]);
    }
  }

  predicate KeywordHere(u: string, q: nat, k: string)
    requires q <= |u|
  {
    KeywordAt(ASCII, u[q..], k)
  }

  /** No two characters here start a keyword. */
  predicate Harmless(u: string) {
    forall q | 0 <= q < |u| :: Lower(u[q]) !in {'p', 's', 't'} && (Lower(u[q]) == 'a' ==> q + 1 < |u| && Lower(u[q + 1]) != 'p')
  }

  lemma {:induction false} KeywordStarts(u: string, q: nat, k: string)
    requires q <= |u| && k in KEYWORDS && KeywordHere(u, q, k)
    ensures q + 1 < |u| && Lower(u[q]) in {'p', 's', 't', 'a'} && (Lower(u[q]) == 'a' ==> Lower(u[q + 1]) == 'p')
  {
    KeywordLetters(k);
    var here := u[q..];
    assert ASCII.same(here[0], k[0]) && ASCII.same(here[1], k[1]);
  }

  lemma {:induction false} HarmlessKept(u: string)
    requires Harmless(u)
    ensures RedactAssignments(ASCII, u) == u
  {
    forall q, k | 0 <= q < |u| && k in KEYWORDS ensures !KeywordHere(u, q, k) {
      if KeywordHere(u, q, k) {
        KeywordStarts(u, q, k);
      }
    }
    KeywordlessKept(None, u);
  }

  /**
   Two fields that redaction leaves alone, side by side in one CSV row, are not left alone:
   the URL rule takes the comma for part of a password. So a summary whose every string is
   clean can render to a text that is not.
   */
  lemma {:induction false} CleanOnlyInParts()
    ensures RedactUrls(ASCII, RedactAssignments(ASCII, FIELD)) == FIELD
    ensures RedactUrls(ASCII, RedactAssignments(ASCII, NEXT_FIELD)) == NEXT_FIELD
    ensures RedactUrls(ASCII, RedactAssignments(ASCII, FIELD + "," + NEXT_FIELD)) == "x://a:[REDACTED]@d" != FIELD + "," + NEXT_FIELD
  {
    hide RedactAssignments, RedactUrls, Harmless;
    AllHarmless();
    HarmlessKept(FIELD);
    HarmlessKept(NEXT_FIELD);
    HarmlessKept(ROW);
    FieldsKept();
    RowChanged();
    assert FIELD + "," + NEXT_FIELD == ROW;
  }

  lemma {:induction false} AllHarmless()
    ensures Harmless(FIELD) && Harmless(NEXT_FIELD) && Harmless(ROW)
  {
  }

  lemma {:induction false} FieldsKept()
    ensures RedactUrls(ASCII, FIELD) == FIELD && RedactUrls(ASCII, NEXT_FIELD) == NEXT_FIELD
  {
    NoUrlWithoutAt(FIELD);
    NoUrlWithoutColon(NEXT_FIELD);
  }

  lemma {:induction false} NoUrlWithoutColon(u: string)
    requires ':' !in u
    ensures RedactUrls(ASCII, u) == u
  {
    if u != "" {
      assert UrlAt(ASCII, u).None?;
      NoUrlWithoutColon(u[1..]);
    }
  }

  lemma {:induction false} RowChanged()
    ensures RedactUrls(ASCII, ROW) == "x://a:[REDACTED]@d"
  {
    RowUrl(ROW);
    NoUrlWithoutAt("d");
    hide UrlAt;
    OneUrl(ROW, 6, 9);
    assert "x://a:" + MARK + "d" == "x://a:[REDACTED]@d";
  }

  lemma {:induction false} RowUrl(u: string)
    requires u == ROW
    ensures UrlAt(ASCII, u) == Some((6, 9)) && u[..6] == "x://a:" && u[10..] == "d"
  {
    UrlIs(ASCII, u, 1, 6, 9);
  }

  lemma {:induction false} OneUrl(u: string, s: nat, e: nat)
    requires UrlAt(ASCII, u) == Some((s, e))
    ensures RedactUrls(ASCII, u) == u[..s] + MARK + RedactUrls(ASCII, u[e + 1..])
  {
    hide UrlAt;
  }
}
