/**
 The rules of `redact_text` in sequence: on which texts a second pass finds nothing more to
 do, and what it takes away on the others.
 */
module Redaction {
  import opened Common
  import opened Safety
  import opened Urls

  // --------------------------------------------- headers without a value

  function FirstBare(t: Rule, prev: Option<char>, u: string, ks: seq<string>): (start: Option<nat>)
    ensures start.Some? ==> 0 < start.value <= |u|
  {
    if ks == [] then None
    else if BareHeader(t, prev, u, ks[0]).Some? then BareHeader(t, prev, u, ks[0])
    else FirstBare(t, prev, u, ks[1..])
  }

  /** Where a value would start if an assignment started at the head of `u`. */
  function BareEnd(t: Rule, prev: Option<char>, u: string): (start: Option<nat>)
    ensures start.Some? ==> 0 < start.value <= |u|
  {
    FirstBare(t, prev, u, t.keywords)
  }

  function Started(t: Rule, u: string, start: Option<nat>): Option<nat> {
    if start.Some? && start.value < |u| && ValueChar(t, u[start.value]) then start else None
  }

  lemma {:induction false} BareOf(t: Rule, prev: Option<char>, u: string, ks: seq<string>) returns (k: string)
    ensures FirstBare(t, prev, u, ks).Some? ==> k in ks && BareHeader(t, prev, u, k) == FirstBare(t, prev, u, ks)
    ensures FirstBare(t, prev, u, ks).None? ==> forall l | l in ks :: BareHeader(t, prev, u, l).None?
  {
    hide BareHeader;
    if ks == [] {
      k := "";
    } else if BareHeader(t, prev, u, ks[0]).Some? {
      k := ks[0];
    } else {
      k := BareOf(t, prev, u, ks[1..]);
    }
  }

  /** Since at most one keyword matches, the rule's header is the bare one with a value after it. */
  lemma {:induction false} HeaderIsBare(t: Rule, prev: Option<char>, u: string)
    requires Regular(t)
    ensures FirstHeader(t, prev, u, t.keywords) == Started(t, u, BareEnd(t, prev, u))
  {
    var k := BareOf(t, prev, u, t.keywords);
    var l := HeaderOf(t, prev, u, t.keywords);
    hide FirstBare, FirstHeader, KeywordAt, Spaces, Boundary, ValueChar;
    if FirstHeader(t, prev, u, t.keywords).Some? {
      assert BareHeader(t, prev, u, l).Some?;
      assert k == l;
    }
  }

  /** A keyword, spaces, a separator at `i`, spaces up to `j`. */
  ghost predicate IsBare(t: Rule, u: string, k: string, i: nat, j: nat) {
    && k in t.keywords && |k| >= 2 && KeywordAt(t, u, k) && SpacesTo(t, u, |k|, i)
    && i < |u| && u[i] in {':', '='} && SpacesTo(t, u, i + 1, j)
  }

  lemma {:induction false} BareShape(t: Rule, prev: Option<char>, u: string) returns (k: string, i: nat)
    requires Regular(t) && BareEnd(t, prev, u).Some?
    ensures IsBare(t, u, k, i, BareEnd(t, prev, u).value)
  {
    k := BareOf(t, prev, u, t.keywords);
    hide KeywordAt, Boundary;
    i := Spaces(t, u, |k|);
  }

  /** None of these is in a keyword, nor a space, nor a separator. */
  lemma {:induction false} NotInHeader(t: Rule, prev: Option<char>, u: string, x: nat)
    requires Regular(t) && BareEnd(t, prev, u).Some? && x < BareEnd(t, prev, u).value
    ensures u[x] !in {']', '@'}
  {
    var k, i := BareShape(t, prev, u);
    BracketNoSpace(t);
  }

  lemma {:induction false} BracketNoSpace(t: Rule)
    requires t.Sane()
    ensures !t.space('[') && !t.space(']')
  {
    assert REDACTED[0] == '[' && REDACTED[0] in REDACTED && REDACTED[9] == ']' && REDACTED[9] in REDACTED;
  }

  /** Two texts that agree up to a colon and go on with something else than a space have the same bare headers. */
  lemma {:induction false} BareAgrees(t: Rule, prev: Option<char>, x: string, y: string, a: nat, k: string)
    requires Regular(t) && k in t.keywords && Alike(t, x, y, a) && BareHeader(t, prev, x, k).Some?
    ensures BareHeader(t, prev, y, k) == BareHeader(t, prev, x, k) && BareHeader(t, prev, x, k).value <= a
  {
    var n, j := |k|, BareHeader(t, prev, x, k).value;
    var i := Spaces(t, x, n);
    assert forall q | 0 <= q < n :: t.same(x[q], k[q]) && x[q] != ':';
    assert n < a;
    assert i < a;
    SpacesUnique(t, y, n, i);
    assert j <= a;
    SpacesUnique(t, y, i + 1, j);
  }

  ghost predicate Alike(t: Rule, x: string, y: string, a: nat) {
    && 0 < a < |x| && a < |y| && (forall i | 0 <= i < a :: x[i] == y[i])
    && x[a - 1] == ':' && !t.space(x[a]) && !t.space(y[a])
  }

  lemma {:induction false} BaresAgree(t: Rule, prev: Option<char>, x: string, y: string, a: nat, ks: seq<string>)
    requires Regular(t) && Among(ks, t.keywords) && Alike(t, x, y, a)
    ensures FirstBare(t, prev, x, ks) == FirstBare(t, prev, y, ks)
    ensures FirstBare(t, prev, x, ks).Some? ==> FirstBare(t, prev, x, ks).value <= a
  {
    if ks != [] {
      assert ks[0] in ks;
      if BareHeader(t, prev, x, ks[0]).Some? {
        BareAgrees(t, prev, x, y, a, ks[0]);
      } else if BareHeader(t, prev, y, ks[0]).Some? {
        BareAgrees(t, prev, y, x, a, ks[0]);
      }
      hide BareHeader;
      BaresAgree(t, prev, x, y, a, ks[1..]);
    }
  }

  /** Replacing the next password changes no bare header before it. */
  lemma {:induction false} BaresKept(t: Rule, prev: Option<char>, w: string, a: nat, d: nat, rest: string)
    requires Regular(t) && a > 0 && InUrl(t, w, Some((a, d)))
    ensures BareEnd(t, prev, w[..a] + MARK + rest) == BareEnd(t, prev, w)
    ensures BareEnd(t, prev, w).Some? ==> BareEnd(t, prev, w).value <= a
  {
    var v := w[..a] + MARK + rest;
    BracketNoSpace(t);
    assert v[a] == '[' && Member(t, Secret, w[a]);
    BaresAgree(t, prev, w, v, a, t.keywords);
  }

  // ------------------------------------------------------- collisions

  /**
   What a caller can look for in a text whose assignments are already redacted: somewhere a
   password the URL rule will replace starts exactly where an assignment header ends. The
   scan follows the URL rule over the text.
   */
  predicate Collides(t: Rule, prev: Option<char>, w: string, st: Standing)
    requires InUrl(t, w, st)
    decreases |w|
  {
    w != "" &&
    (LookIsIn(t, w, st);
     match Look(t, w, st)
     case None => Collides(t, Some(w[0]), w[1..], None)
     case Some((s, e)) =>
       if s == 0 then Collides(t, Some('@'), w[e + 1..], None)
       else BareEnd(t, prev, w) == Some(s) || Collides(t, Some(w[0]), w[1..], Some((s - 1, e - 1))))
  }

  function Ats(u: string): nat {
    multiset(u)['@']
  }

  lemma {:induction false} AtsOfConcat(x: string, y: string)
    ensures Ats(x + y) == Ats(x) + Ats(y)
  {
    assert multiset(x + y) == multiset(x) + multiset(y);
  }

  lemma {:induction false} NoAts(u: string)
    requires forall i | 0 <= i < |u| :: u[i] != '@'
    ensures Ats(u) == 0
  {
    assert '@' !in multiset(u);
  }

  lemma {:induction false} MarkAts()
    ensures Ats(REDACTED) == 0 && Ats(MARK) == 1
  {
    NoAts(REDACTED);
    AtsOfConcat(REDACTED, "@");
  }

  lemma {:induction false} HeadAts(c: char, x: string, y: string)
    requires Ats(x) <= Ats(y)
    ensures Ats([c] + x) <= Ats([c] + y) && (Ats(x) == Ats(y) ==> Ats([c] + x) == Ats([c] + y))
  {
    AtsOfConcat([c], x);
    AtsOfConcat([c], y);
  }

  /** Three pieces, the middle one replaced. */
  lemma {:induction false} MiddleAts(before: string, old_: string, new_: string, x: string, y: string)
    requires Ats(new_) <= Ats(old_) && Ats(x) <= Ats(y)
    ensures Ats(before + new_ + x) <= Ats(before + old_ + y)
    ensures Ats(before + new_ + x) - Ats(new_) - Ats(x) == Ats(before + old_ + y) - Ats(old_) - Ats(y)
  {
    AtsOfConcat(before + new_, x);
    AtsOfConcat(before, new_);
    AtsOfConcat(before + old_, y);
    AtsOfConcat(before, old_);
  }

  /** A mark replaces a password and its sign. */
  lemma {:induction false} UrlsKeepAts(t: Rule, u: string)
    ensures Ats(RedactUrls(t, u)) == Ats(u)
    decreases |u|
  {
    hide UrlAt, Ats, InUrl;
    if u != "" {
      match UrlAt(t, u)
      case None =>
        UrlsKeepAts(t, u[1..]);
        HeadAts(u[0], RedactUrls(t, u[1..]), u[1..]);
        assert u == [u[0]] + u[1..];
      case Some((s, e)) =>
        UrlsKeepAts(t, u[e + 1..]);
        PasswordAts(t, u);
        MarkAts();
        MiddleAts(u[..s], u[s..e + 1], MARK, RedactUrls(t, u[e + 1..]), u[e + 1..]);
        assert u == u[..s] + u[s..e + 1] + u[e + 1..];
    }
  }

  lemma {:induction false} PasswordAts(t: Rule, u: string)
    requires UrlAt(t, u).Some?
    ensures var (s, e) := UrlAt(t, u).value; Ats(u[s..e + 1]) == 1
  {
    var n := UrlShape(t, u);
    var (s, e) := UrlAt(t, u).value;
    assert u[s..e + 1] == u[s..e] + "@";
    forall i | 0 <= i < e - s ensures u[s..e][i] != '@' {
      assert Member(t, Secret, u[s + i]);
    }
    NoAts(u[s..e]);
    AtsOfConcat(u[s..e], "@");
  }

  lemma {:induction false} AssignmentsNeverAddAts(t: Rule, prev: Option<char>, u: string)
    ensures Ats(Substitute(t, prev, u)) <= Ats(u)
    decreases |u|
  {
    hide FirstHeader, Ats;
    if u != "" {
      match FirstHeader(t, prev, u, t.keywords)
      case None =>
        AssignmentsNeverAddAts(t, Some(u[0]), u[1..]);
        HeadAts(u[0], Substitute(t, Some(u[0]), u[1..]), u[1..]);
        assert u == [u[0]] + u[1..];
      case Some(start) =>
        var end := ValueEnd(t, u, start);
        AssignmentsNeverAddAts(t, Some(u[end - 1]), u[end..]);
        MarkAts();
        MiddleAts(u[..start], u[start..end], REDACTED, Substitute(t, Some(u[end - 1]), u[end..]), u[end..]);
        assert u == u[..start] + u[start..end] + u[end..];
    }
  }

  // ---------------------------------------- how the two scans go together

  lemma {:induction false} NoKeywordNoHeader(t: Rule, prev: Option<char>, u: string, ks: seq<string>)
    requires forall k | k in ks :: k == "" || !KeywordAt(t, u, k)
    ensures FirstHeader(t, prev, u, ks).None?
  {
    if ks != [] {
      assert ks[0] in ks;
      NoKeywordNoHeader(t, prev, u, ks[1..]);
    }
  }

  lemma {:induction false} OneStep(t: Rule, prev: Option<char>, u: string)
    requires u != "" && FirstHeader(t, prev, u, t.keywords).None?
    ensures Substitute(t, prev, u) == [u[0]] + Substitute(t, Some(u[0]), u[1..])
  {
  }

  /** The assignment scan passes over the rest of a mark. */
  lemma {:induction false} PassMark(t: Rule, prev: Option<char>, rest: string, q: nat)
    requires Regular(t) && q < |MARK|
    ensures Substitute(t, prev, MARK[q..] + rest) == MARK[q..] + Substitute(t, Some('@'), rest)
    decreases |MARK| - q
  {
    hide Regular, FirstHeader, Substitute;
    var u := MARK[q..] + rest;
    NoHeaderInMark(t, prev, rest, q);
    OneStep(t, prev, u);
    assert u[0] == MARK[q] && u[1..] == MARK[q + 1..] + rest;
    assert MARK[q..] == [MARK[q]] + MARK[q + 1..];
    if q + 1 < |MARK| {
      PassMark(t, Some(MARK[q]), rest, q + 1);
    } else {
      assert MARK[q] == '@' && MARK[q + 1..] + rest == rest;
    }
  }

  lemma {:induction false} NoHeaderInMark(t: Rule, prev: Option<char>, rest: string, q: nat)
    requires Regular(t) && q < |MARK|
    ensures FirstHeader(t, prev, MARK[q..] + rest, t.keywords).None?
  {
    var u := MARK[q..] + rest;
    forall k | k in t.keywords ensures !KeywordAt(t, u, k) {
      assert NotHere(t, k, q);
      assert q + 1 < |MARK| ==> u[1] == MARK[q + 1];
    }
    hide Regular;
    NoKeywordNoHeader(t, prev, u, t.keywords);
  }

  /** A redacted assignment at the head of `w`: its header ends at `j`, and it holds no sign. */
  ghost predicate Shown(t: Rule, prev: Option<char>, w: string, j: nat, end: nat) {
    && BareEnd(t, prev, w) == Some(j) && end == j + |REDACTED| <= |w| && w[j..end] == REDACTED && ValueEnd(t, w, j) == end
    && w[end - 1] == ']' && (forall x | 0 <= x < end :: w[x] != '@') && !Exposed(t, Some(']'), w[end..])
  }

  lemma {:induction false} ShownHeader(t: Rule, prev: Option<char>, w: string)
    requires Regular(t) && w != "" && !Exposed(t, prev, w) && FirstHeader(t, prev, w, t.keywords).Some?
    ensures var j := FirstHeader(t, prev, w, t.keywords).value; Shown(t, prev, w, j, j + |REDACTED|)
  {
    var j := FirstHeader(t, prev, w, t.keywords).value;
    HeaderIsBare(t, prev, w);
    var end := ValueEnd(t, w, j);
    assert w[j..end] == REDACTED;
    assert w[end - 1] == w[j..end][|REDACTED| - 1];
    forall x | 0 <= x < end ensures w[x] != '@' {
      if x < j {
        NotInHeader(t, prev, w, x);
      } else {
        assert w[x] == REDACTED[x - j];
      }
    }
  }

  /** Nothing a scan for assignments has redacted reaches past a sign. */
  lemma {:induction false} ScanPast(t: Rule, prev: Option<char>, w: string, d: nat)
    requires Regular(t) && d < |w| && w[d] == '@' && !Exposed(t, prev, w)
    ensures !Exposed(t, Some('@'), w[d + 1..])
    decreases |w|
  {
    hide FirstHeader, BareEnd, ValueEnd, Regular;
    match FirstHeader(t, prev, w, t.keywords)
    case None =>
      if d > 0 {
        ScanPast(t, Some(w[0]), w[1..], d - 1);
        assert w[1..][d..] == w[d + 1..];
      }
    case Some(j) =>
      ShownHeader(t, prev, w);
      var end := j + |REDACTED|;
      assert d >= end;
      ScanPast(t, Some(']'), w[end..], d - end);
      assert w[end..][d - end + 1..] == w[d + 1..];
  }

  /** The one colon a redacted assignment may hold is its separator, and no slash follows it. */
  lemma {:induction false} ColonsInside(t: Rule, w: string, k: string, i: nat, j: nat, end: nat, c: nat)
    requires Regular(t) && IsBare(t, w, k, i, j) && end == j + |REDACTED| <= |w| && w[j..end] == REDACTED
    requires c + 1 < |w| && w[c] == ':' && w[c + 1] == '/'
    ensures c >= end
  {
    assert forall x | 0 <= x < |k| :: t.same(w[x], k[x]) && w[x] != ':';
    forall x | j <= x < end ensures w[x] !in {':', '/'} {
      assert w[x] == REDACTED[x - j];
    }
  }

  /** No URL starts within a redacted assignment. */
  lemma {:induction false} NoUrlInside(t: Rule, prev: Option<char>, w: string, j: nat, end: nat, q: nat)
    requires Regular(t) && Shown(t, prev, w, j, end) && q < end
    ensures UrlAt(t, w[q..]).None?
  {
    assert !Member(t, Scheme, ']') && !t.letter(']') && w[q..][end - 1 - q] == ']';
    if UrlAt(t, w[q..]).Some? {
      var n := UrlShape(t, w[q..]);
      var k, i := BareShape(t, prev, w);
      hide UrlAt, BareEnd, KeywordAt;
      ColonsInside(t, w, k, i, j, end, q + n);
    }
  }

  // ------------------------------------------------------ the second pass

  ghost predicate Quiet(t: Rule, w: string, end: nat)
    requires end <= |w|
  {
    forall q | 0 <= q < end :: UrlAt(t, w[q..]).None?
  }

  function Back(st: Standing, end: nat): Standing
    requires st.Some? ==> end <= st.value.0 <= st.value.1
  {
    if st.None? then None else Some((st.value.0 - end, st.value.1 - end))
  }

  /** Both scans over a stretch that ends in a bracket, with no URL starting in it and no password before its end. */
  lemma {:induction false} Skip(t: Rule, prev: Option<char>, w: string, st: Standing, end: nat)
    requires Regular(t) && InUrl(t, w, st) && end <= |w| && (end > 0 ==> w[end - 1] == ']')
    requires st.None? ==> Quiet(t, w, end)
    requires st.Some? ==> end <= st.value.0
    ensures InUrl(t, w[end..], Back(st, end))
    ensures UrlsFrom(t, w, st) == w[..end] + UrlsFrom(t, w[end..], Back(st, end))
    ensures Collides(t, prev, w, st) == Collides(t, if end == 0 then prev else Some(']'), w[end..], Back(st, end))
    decreases end
  {
    hide UrlsFrom, Collides, UrlAt, BareEnd, Regular, Quiet;
    if end == 0 {
      assert w[end..] == w && w[..end] == "";
      assert Back(st, 0) == st;
    } else {
      SkipOne(t, prev, w, st, end);
      QuietRest(t, w, st, end);
      var st', rest := Back(st, 1), w[1..];
      hide InUrl;
      assert st'.Some? ==> end - 1 <= st'.value.0 <= st'.value.1;
      Skip(t, Some(w[0]), rest, st', end - 1);
      Dropped(w, rest, end);
      assert Back(st', end - 1) == Back(st, end);
      JoinHead(w[0], UrlsFrom(t, rest, st'), rest[..end - 1], UrlsFrom(t, w[end..], Back(st, end)));
    }
  }

  lemma {:induction false} JoinHead(c: char, v: string, before: string, tail: string)
    requires v == before + tail
    ensures [c] + v == [c] + before + tail
  {
  }

  lemma {:induction false} Dropped(w: string, rest: string, end: nat)
    requires 0 < end <= |w| && rest == w[1..]
    ensures rest[end - 1..] == w[end..] && w[..end] == [w[0]] + rest[..end - 1]
    ensures end == 1 ==> w[end - 1] == w[0]
  {
  }

  lemma {:induction false} QuietRest(t: Rule, w: string, st: Standing, end: nat)
    requires 0 < end <= |w| && (st.None? ==> Quiet(t, w, end))
    ensures st.None? ==> Quiet(t, w[1..], end - 1)
    ensures end > 1 && w[end - 1] == ']' ==> w[1..][end - 2] == ']'
  {
    forall q | st.None? && 0 <= q < end - 1 ensures UrlAt(t, w[1..][q..]).None? {
      assert w[1..][q..] == w[q + 1..];
    }
  }

  lemma {:induction false} SkipOne(t: Rule, prev: Option<char>, w: string, st: Standing, end: nat)
    requires Regular(t) && InUrl(t, w, st) && 0 < end <= |w| && w[end - 1] == ']'
    requires st.None? ==> Quiet(t, w, end)
    requires st.Some? ==> end <= st.value.0
    ensures InUrl(t, w[1..], Back(st, 1)) && (st.Some? ==> end < st.value.0)
    ensures UrlsFrom(t, w, st) == [w[0]] + UrlsFrom(t, w[1..], Back(st, 1))
    ensures Collides(t, prev, w, st) == Collides(t, Some(w[0]), w[1..], Back(st, 1))
  {
    hide BareEnd, Regular, UrlAt;
    LookIsIn(t, w, st);
    if st.None? {
      assert w[0..] == w;
      assert UrlAt(t, w[0..]).None?;
    } else if BareEnd(t, prev, w).Some? && end <= BareEnd(t, prev, w).value {
      NotInHeader(t, prev, w, end - 1);
    }
  }

  /** What the assignment rule does to the text the URL rule left. */
  ghost predicate Outcome(t: Rule, prev: Option<char>, v: string, collides: bool) {
    if collides then Ats(Substitute(t, prev, v)) < Ats(v) else Substitute(t, prev, v) == v
  }

  /** The same outcome with something in front that the assignment rule copies. */
  lemma {:induction false} Prefixed(t: Rule, prev: Option<char>, u: string, collides: bool,
                                    before: string, later: Option<char>, v: string, collidesLater: bool)
    requires u == before + v && collides == collidesLater && Outcome(t, later, v, collidesLater)
    requires Substitute(t, prev, u) == before + Substitute(t, later, v)
    ensures Outcome(t, prev, u, collides)
  {
    hide Substitute;
    AtsOfConcat(before, v);
    AtsOfConcat(before, Substitute(t, later, v));
  }

  /** A header that ends at a mark takes the sign with it. */
  lemma {:induction false} EatsSign(t: Rule, prev: Option<char>, before: string, rest: string)
    requires Regular(t) && BareEnd(t, prev, before + MARK + rest) == Some(|before|)
    ensures Outcome(t, prev, before + MARK + rest, true)
  {
    var v, a := before + MARK + rest, |before|;
    MarkValue(t, before, rest);
    HeaderIsBare(t, prev, v);
    hide FirstHeader, BareEnd, Regular, ValueEnd;
    ValueEaten(t, prev, v, a);
  }

  lemma {:induction false} ValueEaten(t: Rule, prev: Option<char>, v: string, a: nat)
    requires FirstHeader(t, prev, v, t.keywords) == Some(a) && a + |MARK| <= ValueEnd(t, v, a) && v[a + |REDACTED|] == '@'
    ensures Outcome(t, prev, v, true)
  {
    hide FirstHeader, Ats;
    var end := ValueEnd(t, v, a);
    var rest := Substitute(t, Some(v[end - 1]), v[end..]);
    assert Substitute(t, prev, v) == v[..a] + REDACTED + rest;
    SignIn(v, a, end);
    AssignmentsNeverAddAts(t, Some(v[end - 1]), v[end..]);
    MarkAts();
    MiddleAts(v[..a], v[a..end], REDACTED, rest, v[end..]);
    assert v == v[..a] + v[a..end] + v[end..];
  }

  lemma {:induction false} MarkValue(t: Rule, before: string, rest: string)
    requires Regular(t)
    ensures var v, a := before + MARK + rest, |before|; ValueChar(t, v[a]) && ValueEnd(t, v, a) >= a + |MARK| && v[a + |REDACTED|] == '@'
  {
    var v, a := before + MARK + rest, |before|;
    forall x | a <= x < a + |MARK| ensures ValueChar(t, v[x]) {
      assert v[x] == MARK[x - a];
      assert x - a < |REDACTED| ==> MARK[x - a] == REDACTED[x - a] && REDACTED[x - a] in REDACTED;
    }
  }

  lemma {:induction false} SignIn(v: string, a: nat, end: nat)
    requires a + |MARK| <= end <= |v| && v[a + |REDACTED|] == '@'
    ensures Ats(v[a..end]) > 0
  {
    assert v[a..end][|REDACTED|] == '@';
    assert '@' in multiset(v[a..end]);
  }

  /** A header spans no two colons. */
  lemma {:induction false} OneColon(t: Rule, prev: Option<char>, w: string, a: nat)
    requires Regular(t) && BareEnd(t, prev, w) == Some(a) && w[a - 1] == ':'
    ensures !EarlierColon(w, a)
  {
    var k, i := BareShape(t, prev, w);
    assert forall x | 0 <= x < |k| :: t.same(w[x], k[x]) && w[x] != ':';
    assert forall n | 0 <= n < a - 1 :: w[n] != ':';
  }

  /** The text `v` is `w` up to the next password, which follows a colon. */
  ghost predicate KeptTo(w: string, v: string, next: Standing) {
    match next
    case None => v == w
    case Some((a, _)) => 0 < a < |w| && a < |v| && w[a - 1] == ':' && forall x | 0 <= x < a :: v[x] == w[x]
  }

  /** The text around the next password, before and after. */
  lemma {:induction false} AroundNext(t: Rule, w: string, st: Standing, a: nat, d: nat) returns (rest: string)
    requires InUrl(t, w, st) && (st.Some? ==> st.value.0 > 0) && NextUrl(t, w, st) == Some((a, d))
    ensures 0 < a < d < |w| && InUrl(t, w, Some((a, d))) && UrlsFrom(t, w, st) == w[..a] + MARK + rest
    ensures w[a - 1] == ':' && (if st.Some? then st == Some((a, d)) else EarlierColon(w, a))
  {
    KeptUpToNext(t, w, st);
    rest := UrlsFrom(t, w[d + 1..], None);
    hide UrlsFrom, UrlAt, EarlierColon;
  }

  lemma {:induction false} NoNext(t: Rule, w: string, st: Standing)
    requires InUrl(t, w, st) && NextUrl(t, w, st).None?
    ensures UrlsFrom(t, w, st) == w
  {
    KeptUpToNext(t, w, st);
  }

  lemma {:induction false} Kept(t: Rule, w: string, st: Standing)
    requires InUrl(t, w, st) && (st.Some? ==> st.value.0 > 0)
    ensures KeptTo(w, UrlsFrom(t, w, st), NextUrl(t, w, st))
  {
    hide UrlsFrom, NextUrl, InUrl, EarlierColon;
    match NextUrl(t, w, st)
    case None =>
      NoNext(t, w, st);
    case Some((a, d)) =>
      var rest := AroundNext(t, w, st, a, d);
      assert |MARK| > 0;
  }

  /** Up to the next password the two texts have the same bare headers, none of which goes beyond it. */
  lemma {:induction false} SameBares(t: Rule, prev: Option<char>, w: string, st: Standing)
    requires Regular(t) && InUrl(t, w, st) && (st.Some? ==> st.value.0 > 0)
    ensures BareEnd(t, prev, UrlsFrom(t, w, st)) == BareEnd(t, prev, w)
    ensures NextUrl(t, w, st).Some? && BareEnd(t, prev, w).Some? ==> BareEnd(t, prev, w).value <= NextUrl(t, w, st).value.0
  {
    hide BareEnd, NextUrl, Regular, UrlsFrom, InUrl, EarlierColon;
    match NextUrl(t, w, st)
    case None =>
      NoNext(t, w, st);
    case Some((a, d)) =>
      var rest := AroundNext(t, w, st, a, d);
      BaresKept(t, prev, w, a, d, rest);
  }

  /** The header at the head of `w` ends where the next password starts. */
  lemma {:induction false} Collision(t: Rule, prev: Option<char>, w: string, st: Standing, a: nat, d: nat)
    requires Regular(t) && InUrl(t, w, st) && (st.Some? ==> st.value.0 > 0)
    requires NextUrl(t, w, st) == Some((a, d)) && BareEnd(t, prev, w) == Some(a)
    ensures Collides(t, prev, w, st) && Outcome(t, prev, UrlsFrom(t, w, st), true)
  {
    hide UrlsFrom, NextUrl, BareEnd, Regular, Outcome, EarlierColon, Collides, InUrl;
    CollisionSeen(t, prev, w, st, a, d);
    SameBares(t, prev, w, st);
    var rest := AroundNext(t, w, st, a, d);
    EatsSign(t, prev, w[..a], rest);
  }

  lemma {:induction false} CollisionSeen(t: Rule, prev: Option<char>, w: string, st: Standing, a: nat, d: nat)
    requires Regular(t) && InUrl(t, w, st) && (st.Some? ==> st.value.0 > 0)
    requires NextUrl(t, w, st) == Some((a, d)) && BareEnd(t, prev, w) == Some(a)
    ensures Collides(t, prev, w, st)
  {
    hide UrlsFrom, NextUrl, BareEnd, Regular, EarlierColon, UrlAt;
    var rest := AroundNext(t, w, st, a, d);
    OneColon(t, prev, w, a);
    LookIsIn(t, w, st);
  }

  /** A redacted assignment at the head of `w` that is over before the next password. */
  lemma {:induction false} AssignmentFirst(t: Rule, prev: Option<char>, w: string, st: Standing, j: nat)
    requires Regular(t) && InUrl(t, w, st) && (st.Some? ==> st.value.0 > 0) && w != "" && !Exposed(t, prev, w)
    requires FirstHeader(t, prev, w, t.keywords) == Some(j) && (NextUrl(t, w, st).Some? ==> NextUrl(t, w, st).value.0 != j)
    ensures var end := j + |REDACTED|;
      && 0 < end <= |w| && !Exposed(t, Some(']'), w[end..])
      && (st.Some? ==> end < st.value.0) && InUrl(t, w[end..], Back(st, end))
      && UrlsFrom(t, w, st) == w[..end] + UrlsFrom(t, w[end..], Back(st, end))
      && Substitute(t, prev, UrlsFrom(t, w, st)) == w[..end] + Substitute(t, Some(']'), UrlsFrom(t, w[end..], Back(st, end)))
      && Collides(t, prev, w, st) == Collides(t, Some(']'), w[end..], Back(st, end))
  {
    ShownHeader(t, prev, w);
    var end, v := j + |REDACTED|, UrlsFrom(t, w, st);
    SameBares(t, prev, w, st);
    Kept(t, w, st);
    NextIsLook(t, w, st);
    hide NextUrl;
    BeyondValue(t, prev, w, v, NextUrl(t, w, st), j, end);
    HeaderIsBare(t, prev, v);
    forall q | st.None? && 0 <= q < end ensures UrlAt(t, w[q..]).None? {
      NoUrlInside(t, prev, w, j, end, q);
    }
    Skip(t, prev, w, st, end);
    hide UrlsFrom, UrlAt, Collides, Regular, BareEnd, FirstHeader, InUrl;
    assert v[end..] == UrlsFrom(t, w[end..], Back(st, end)) && v[..j] + REDACTED == w[..end];
  }

  /** The next password starts after the value and what follows it, so the value is the same in both texts. */
  lemma {:induction false} BeyondValue(t: Rule, prev: Option<char>, w: string, v: string, next: Standing, j: nat, end: nat)
    requires Shown(t, prev, w, j, end) && KeptTo(w, v, next) && (next.Some? ==> next.value.0 > j)
    ensures end <= |v| && v[..end] == w[..end] && ValueChar(t, v[j]) && ValueEnd(t, v, j) == end && v[end - 1] == ']'
    ensures next.Some? ==> end < next.value.0
  {
    hide BareEnd, Exposed;
    match next
    case None =>
    case Some((a, d)) =>
      BeyondColon(w, j, end, a);
      ValueEndUnique(t, v, j, end);
  }

  lemma {:induction false} BeyondColon(w: string, j: nat, end: nat, a: nat)
    requires end == j + |REDACTED| <= |w| && w[j..end] == REDACTED && j < a <= |w| && w[a - 1] == ':'
    ensures end < a
  {
    assert forall x | j <= x < end :: w[x] == REDACTED[x - j];
  }

  /** Neither text has a header at its head. */
  lemma {:induction false} NoneStarts(t: Rule, prev: Option<char>, w: string, st: Standing)
    requires Regular(t) && InUrl(t, w, st) && (st.Some? ==> st.value.0 > 0) && w != "" && !Exposed(t, prev, w)
    requires FirstHeader(t, prev, w, t.keywords).None?
    requires NextUrl(t, w, st).Some? ==> BareEnd(t, prev, w) != Some(NextUrl(t, w, st).value.0)
    ensures FirstHeader(t, prev, UrlsFrom(t, w, st), t.keywords).None? && !Exposed(t, Some(w[0]), w[1..])
  {
    hide BareEnd, Regular, FirstHeader, NextUrl, UrlsFrom, InUrl, KeptTo, Exposed;
    Kept(t, w, st);
    SameBares(t, prev, w, st);
    NoneInBoth(t, prev, w, UrlsFrom(t, w, st), NextUrl(t, w, st));
    StillHidden(t, prev, w);
  }

  lemma {:induction false} StillHidden(t: Rule, prev: Option<char>, w: string)
    requires w != "" && !Exposed(t, prev, w) && FirstHeader(t, prev, w, t.keywords).None?
    ensures !Exposed(t, Some(w[0]), w[1..])
  {
    hide FirstHeader;
  }

  /** The URL scan and the scan for collisions move on by one character. */
  lemma {:induction false} OneOn(t: Rule, prev: Option<char>, w: string, st: Standing)
    requires InUrl(t, w, st) && (st.Some? ==> st.value.0 > 0) && w != ""
    requires NextUrl(t, w, st).Some? ==> BareEnd(t, prev, w) != Some(NextUrl(t, w, st).value.0)
    ensures var st' := Back(Look(t, w, st), 1);
      && InUrl(t, w[1..], st') && UrlsFrom(t, w, st) == [w[0]] + UrlsFrom(t, w[1..], st')
      && Collides(t, prev, w, st) == Collides(t, Some(w[0]), w[1..], st')
  {
    LookIsIn(t, w, st);
    NextIsLook(t, w, st);
    hide BareEnd, NextUrl;
  }

  lemma {:induction false} NoneInBoth(t: Rule, prev: Option<char>, w: string, v: string, next: Standing)
    requires Regular(t) && KeptTo(w, v, next) && BareEnd(t, prev, v) == BareEnd(t, prev, w)
    requires FirstHeader(t, prev, w, t.keywords).None?
    requires next.Some? && BareEnd(t, prev, w).Some? ==> BareEnd(t, prev, w).value < next.value.0
    ensures FirstHeader(t, prev, v, t.keywords).None?
  {
    HeaderIsBare(t, prev, w);
    HeaderIsBare(t, prev, v);
    hide BareEnd, FirstHeader, Regular;
  }

  lemma {:induction false} NextIsLook(t: Rule, w: string, st: Standing)
    requires InUrl(t, w, st) && w != ""
    ensures Look(t, w, st).Some? ==> NextUrl(t, w, st) == Look(t, w, st)
  {
  }

  /** Both scans over a mark. */
  lemma {:induction false} AtMark(t: Rule, prev: Option<char>, w: string, e: nat)
    requires Regular(t) && InUrl(t, w, Some((0, e))) && !Exposed(t, prev, w)
    ensures var v := UrlsFrom(t, w[e + 1..], None);
      && UrlsFrom(t, w, Some((0, e))) == MARK + v && Substitute(t, prev, MARK + v) == MARK + Substitute(t, Some('@'), v)
    ensures Collides(t, prev, w, Some((0, e))) == Collides(t, Some('@'), w[e + 1..], None)
    ensures !Exposed(t, Some('@'), w[e + 1..])
  {
    hide Regular, BareEnd, UrlAt, Substitute;
    ScanPast(t, prev, w, e);
    PassMark(t, prev, UrlsFrom(t, w[e + 1..], None), 0);
    assert MARK[0..] == MARK;
  }

  /**
   Run on the text the URL rule left, the assignment rule changes nothing unless a header and
   a password collided; if one did, it takes the sign after a mark away.
   */
  lemma {:induction false} SecondPass(t: Rule, prev: Option<char>, w: string, st: Standing)
    requires Regular(t) && InUrl(t, w, st) && !Exposed(t, prev, w)
    ensures Outcome(t, prev, UrlsFrom(t, w, st), Collides(t, prev, w, st))
    decreases |w|
  {
    assert st.Some? ==> st.value.1 < |w|;
    hide Regular, InUrl, Outcome, BareEnd, FirstHeader, NextUrl, Exposed, Look, UrlsFrom, Collides, Substitute;
    var v, collides := UrlsFrom(t, w, st), Collides(t, prev, w, st);
    if w == "" {
      NothingToDo(t, prev, w, st);
    } else if st.Some? && st.value.0 == 0 {
      var e := st.value.1;
      assert st == Some((0, e));
      AtMark(t, prev, w, e);
      var rest := w[e + 1..];
      SecondPass(t, Some('@'), rest, None);
      Prefixed(t, prev, v, collides, MARK, Some('@'), UrlsFrom(t, rest, None), Collides(t, Some('@'), rest, None));
    } else if NextUrl(t, w, st).Some? && BareEnd(t, prev, w) == Some(NextUrl(t, w, st).value.0) {
      Collision(t, prev, w, st, NextUrl(t, w, st).value.0, NextUrl(t, w, st).value.1);
    } else if FirstHeader(t, prev, w, t.keywords).None? {
      NoneStarts(t, prev, w, st);
      OneOn(t, prev, w, st);
      OneStep(t, prev, v);
      var rest, st' := w[1..], Back(Look(t, w, st), 1);
      assert v[1..] == UrlsFrom(t, rest, st');
      SecondPass(t, Some(w[0]), rest, st');
      Prefixed(t, prev, v, collides, [w[0]], Some(w[0]), UrlsFrom(t, rest, st'), Collides(t, Some(w[0]), rest, st'));
    } else {
      var j := FirstHeader(t, prev, w, t.keywords).value;
      HeaderIsBare(t, prev, w);
      AssignmentFirst(t, prev, w, st, j);
      var end := j + |REDACTED|;
      var rest, st' := w[end..], Back(st, end);
      SecondPass(t, Some(']'), rest, st');
      Prefixed(t, prev, v, collides, w[..end], Some(']'), UrlsFrom(t, rest, st'), Collides(t, Some(']'), rest, st'));
    }
  }

  lemma {:induction false} NothingToDo(t: Rule, prev: Option<char>, w: string, st: Standing)
    requires w == "" && InUrl(t, w, st)
    ensures Outcome(t, prev, UrlsFrom(t, w, st), Collides(t, prev, w, st))
  {
  }

  // ------------------------------------------------- rules in sequence

  /** The rules applied one after another. */
  function RedactWith(rules: seq<string -> string>, text: string): string {
    if rules == [] then text else rules[|rules| - 1](RedactWith(rules[..|rules| - 1], text))
  }

  /** `redact_text` */
  method RedactText(rules: seq<string -> string>, value: string) returns (redacted: string)
    ensures redacted == RedactWith(rules, value)
  {
    redacted := value;
    for i := 0 to |rules|
      invariant redacted == RedactWith(rules[..i], value)
    {
      assert rules[..i + 1][..i] == rules[..i];
      redacted := rules[i](redacted);
    }
    assert rules[..|rules|] == rules;
  }

  function AssignmentRule(t: Rule): string -> string {
    text => RedactAssignments(t, text)
  }

  function UrlRule(t: Rule): string -> string {
    text => RedactUrls(t, text)
  }

  lemma {:induction false} FourRules(a: string -> string, b: string -> string, c: string -> string, d: string -> string, text: string)
    ensures RedactWith([a, b, c, d], text) == d(c(b(a(text))))
  {
    assert [a, b, c, d][..3] == [a, b, c] && [a, b, c][..2] == [a, b] && [a, b][..1] == [a] && [a][..0] == [];
    assert RedactWith([a], text) == a(text);
    assert RedactWith([a, b], text) == b(a(text));
    assert RedactWith([a, b, c], text) == c(b(a(text)));
  }

  /** The two rules together, run again on their own result. */
  lemma {:induction false} TwoRulesStable(t: Rule, text: string)
    requires Regular(t)
    ensures var w := RedactAssignments(t, text);
      var once := RedactUrls(t, w);
      && (RedactAssignments(t, once) == once <==> !Collides(t, None, w, None))
      && (RedactUrls(t, RedactAssignments(t, once)) == once <==> !Collides(t, None, w, None))
      && (Collides(t, None, w, None) ==> Ats(RedactUrls(t, RedactAssignments(t, once))) < Ats(once))
  {
    var w := RedactAssignments(t, text);
    var once := RedactUrls(t, w);
    AssignmentsIdempotent(t, text);
    UnchangedIffHidden(t, None, w);
    SecondPass(t, None, w, None);
    UrlsFromIs(t, w);
    UrlsIdempotent(t, w);
    hide Collides, Substitute, RedactUrls, Exposed;
    UrlsKeepAts(t, RedactAssignments(t, once));
  }

  /**
   When `redact_text` is idempotent. With the private-key and token rules finding nothing, a
   second pass over a redacted text changes nothing exactly when, in the text whose
   assignments are redacted, no password the URL rule replaces starts where an assignment
   header ends; otherwise it takes at least one sign of a URL away.
   */
  lemma {:induction false} SequenceStableIff(t: Rule, text: string, pem: string -> string, keys: string -> string)
    requires Regular(t) && pem(RedactAssignments(t, text)) == RedactAssignments(t, text)
    requires var once := RedactUrls(t, RedactAssignments(t, text));
      && keys(once) == once && pem(RedactAssignments(t, once)) == RedactAssignments(t, once)
      && keys(RedactUrls(t, RedactAssignments(t, once))) == RedactUrls(t, RedactAssignments(t, once))
    ensures var rules := [AssignmentRule(t), pem, UrlRule(t), keys];
      var once := RedactWith(rules, text);
      && (RedactWith(rules, once) == once <==> !Collides(t, None, RedactAssignments(t, text), None))
      && (Collides(t, None, RedactAssignments(t, text), None) ==> Ats(RedactWith(rules, once)) < Ats(once))
  {
    hide RedactUrls, RedactAssignments, RedactWith, Collides, Ats;
    TwoRulesStable(t, text);
    FourRules(AssignmentRule(t), pem, UrlRule(t), keys, text);
    FourRules(AssignmentRule(t), pem, UrlRule(t), keys, RedactUrls(t, RedactAssignments(t, text)));
  }
}
