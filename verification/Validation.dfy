/** Public input validation: structured identifiers and the temporal window. */
module Validation {

  const MICROSECONDS := 1_000_000

  predicate IsLetter(c: char) {
    'A' <= c <= 'Z'
  }

  predicate IsIdChar(c: char) {
    IsLetter(c) || '0' <= c <= '9'
  }

  /** The hyphen-separated parts of a string; never empty. */
  function Parts(s: string): (parts: seq<string>)
    ensures parts != []
  {
    if s == "" then [""]
    else
      var init := Parts(s[..|s| - 1]);
      if s[|s| - 1] == '-' then init + [""]
      else init[..|init| - 1] + [init[|init| - 1] + [s[|s| - 1]]]
  }

  predicate IsPart(part: string) {
    part != "" && forall c | c in part :: IsIdChar(c)
  }

  /** `^[A-Z][A-Z0-9]*(?:-[A-Z0-9]+){2,7}$`, at most 96 characters. */
  predicate IsIdentifier(s: string) {
    var parts := Parts(s);
    && |s| <= 96
    && 3 <= |parts| <= 8
    && (forall part | part in parts :: IsPart(part))
    && parts[0] != "" && IsLetter(parts[0][0])
  }

  lemma {:induction false} PartsOfPlainSuffix(s: string, suffix: string)
    requires forall c | c in suffix :: c != '-'
    ensures var parts := Parts(s);
            Parts(s + suffix) == parts[..|parts| - 1] + [parts[|parts| - 1] + suffix]
  {
    var parts := Parts(s);
    var last := parts[|parts| - 1];
    if suffix == "" {
      assert s + suffix == s && last + suffix == last;
    } else {
      var n := |suffix| - 1;
      assert suffix[n] in suffix;
      forall c | c in suffix[..n] ensures c != '-' {
        assert c in suffix;
      }
      PartsOfPlainSuffix(s, suffix[..n]);
      assert (s + suffix)[..|s + suffix| - 1] == s + suffix[..n];
      assert last + suffix[..n] + [suffix[n]] == last + suffix;
    }
  }

  /** Every character of a string occurs in one of its parts, or is a hyphen. */
  lemma {:induction false} PartsCover(s: string)
    ensures forall c | c in s && c != '-' :: exists part | part in Parts(s) :: c in part
  {
    if s != "" {
      var n := |s| - 1;
      PartsCover(s[..n]);
      var init, parts := Parts(s[..n]), Parts(s);
      forall c | c in s && c != '-' ensures exists part | part in parts :: c in part {
        if c == s[n] {
          assert c in parts[|parts| - 1];
        } else {
          assert s == s[..n] + [s[n]];
          var part :| part in init && c in part;
          var i :| 0 <= i < |init| && init[i] == part;
          assert c in parts[i];
        }
      }
    }
  }

  function Hyphens(s: string): nat {
    multiset(s)['-']
  }

  /** A hyphen at the head, or right after another. */
  predicate StrayHyphen(s: string, i: nat) {
    i < |s| && s[i] == '-' && (i == 0 || s[i - 1] == '-')
  }

  /** What the grammar accepts, position by position. */
  ghost predicate Structured(s: string) {
    && 0 < |s| <= 96 && 'A' <= s[0] <= 'Z' && s[|s| - 1] != '-' && 2 <= Hyphens(s) <= 7
    && (forall i | 0 <= i < |s| :: 'A' <= s[i] <= 'Z' || '0' <= s[i] <= '9' || s[i] == '-')
    && forall i: nat :: !StrayHyphen(s, i)
  }

  ghost predicate AllIdChars(parts: seq<string>) {
    forall k | 0 <= k < |parts| :: forall c | c in parts[k] :: IsIdChar(c)
  }

  ghost predicate NoneEmpty(parts: seq<string>) {
    forall k | 0 <= k < |parts| :: parts[k] != ""
  }

  // The parts of a string against its characters.

  lemma {:induction false} PartsCounted(s: string)
    ensures |Parts(s)| == Hyphens(s) + 1
  {
    if s != "" {
      PartsCounted(s[..|s| - 1]);
      assert s == s[..|s| - 1] + [s[|s| - 1]];
    }
  }

  lemma {:induction false} PartsSpelled(s: string)
    ensures AllIdChars(Parts(s)) <==> forall i | 0 <= i < |s| :: IsIdChar(s[i]) || s[i] == '-'
  {
    hide IsIdChar, Parts;
    if s == "" {
      NoParts();
    } else {
      var n := |s| - 1;
      PartsSpelled(s[..n]);
      CharactersGrow(s);
      assert s == s[..n] + [s[n]];
    }
  }

  lemma {:induction false} NoParts()
    ensures Parts("") == [""] && AllIdChars([""]) && NoneEmpty([""][..0])
  {
  }

  lemma {:induction false} PartsEnd(s: string)
    ensures Parts(s)[|Parts(s)| - 1] == "" <==> s == "" || s[|s| - 1] == '-'
  {
  }

  lemma {:induction false} PartsBegin(s: string)
    ensures var first := Parts(s)[0];
      if first == "" then s == "" || s[0] == '-' else s != "" && s[0] == first[0] && s[0] != '-'
  {
    if s != "" {
      PartsBegin(s[..|s| - 1]);
    }
  }

  lemma {:induction false} PartsFilled(s: string)
    ensures NoneEmpty(Parts(s)[..|Parts(s)| - 1]) <==> forall i: nat :: !StrayHyphen(s, i)
  {
    hide Parts, NoneEmpty;
    if s == "" {
      NoParts();
    } else {
      PartsFilled(s[..|s| - 1]);
      StraysGrow(s);
      PartsEnd(s[..|s| - 1]);
    }
  }

  lemma {:induction false} CharactersGrow(s: string)
    requires s != ""
    ensures var init, parts := Parts(s[..|s| - 1]), Parts(s);
      AllIdChars(parts) <==> AllIdChars(init) && (s[|s| - 1] == '-' || IsIdChar(s[|s| - 1]))
  {
    var init, parts, c := Parts(s[..|s| - 1]), Parts(s), s[|s| - 1];
    var m := |init| - 1;
    if c == '-' {
      assert forall k | 0 <= k <= m :: parts[k] == init[k];
      if AllIdChars(parts) {
        forall k | 0 <= k <= m ensures forall d | d in init[k] :: IsIdChar(d) {
          assert parts[k] == init[k];
        }
      }
    } else {
      assert parts[m] == init[m] + [c] && forall k | 0 <= k < m :: parts[k] == init[k];
      if AllIdChars(parts) {
        assert c in parts[m];
        forall k | 0 <= k <= m ensures forall d | d in init[k] :: IsIdChar(d) {
          assert forall d | d in init[k] :: d in parts[k];
        }
      }
    }
  }

  lemma {:induction false} StraysGrow(s: string)
    requires s != ""
    ensures var n := |s| - 1;
      (forall i: nat :: !StrayHyphen(s, i)) <==> (forall i: nat :: !StrayHyphen(s[..n], i)) && !StrayHyphen(s, n)
    ensures var init, parts := Parts(s[..|s| - 1]), Parts(s);
      if s[|s| - 1] == '-' then parts[..|parts| - 1] == init else parts[..|parts| - 1] == init[..|init| - 1]
    ensures var init := Parts(s[..|s| - 1]);
      NoneEmpty(init) <==> NoneEmpty(init[..|init| - 1]) && init[|init| - 1] != ""
  {
    var n := |s| - 1;
    forall i: nat | i < n ensures StrayHyphen(s, i) <==> StrayHyphen(s[..n], i) {
    }
    var init := Parts(s[..n]);
    if NoneEmpty(init[..|init| - 1]) {
      forall k | 0 <= k < |init| - 1 ensures init[k] != "" {
        assert init[..|init| - 1][k] == init[k];
      }
    }
  }

  /** The identifiers are just the structured strings. */
  lemma {:induction false} IdentifierIff(s: string)
    ensures IsIdentifier(s) <==> Structured(s)
  {
    PartsCounted(s);
    PartsSpelled(s);
    PartsEnd(s);
    PartsBegin(s);
    PartsFilled(s);
    hide Parts, AllIdChars, NoneEmpty, IsPart, StrayHyphen, Hyphens;
    var parts := Parts(s);
    var m := |parts| - 1;
    assert (forall part | part in parts :: IsPart(part)) <==> AllIdChars(parts) && NoneEmpty(parts) by {
      PartsAre(parts);
    }
    assert NoneEmpty(parts) <==> NoneEmpty(parts[..m]) && parts[m] != "" by {
      LastApart(parts);
    }
  }

  lemma {:induction false} PartsAre(parts: seq<string>)
    ensures (forall part | part in parts :: IsPart(part)) <==> AllIdChars(parts) && NoneEmpty(parts)
  {
    if forall part | part in parts :: IsPart(part) {
      forall k | 0 <= k < |parts| ensures IsPart(parts[k]) {
        assert parts[k] in parts;
      }
    }
  }

  lemma {:induction false} LastApart(parts: seq<string>)
    requires parts != []
    ensures NoneEmpty(parts) <==> NoneEmpty(parts[..|parts| - 1]) && parts[|parts| - 1] != ""
  {
    var m := |parts| - 1;
    if NoneEmpty(parts[..m]) {
      forall k | 0 <= k < m ensures parts[k] != "" {
        assert parts[..m][k] == parts[k];
      }
    }
  }

  /** A valid identifier never holds a line break, so it can be framed by one. */
  lemma IdentifierChars(s: string)
    requires IsIdentifier(s)
    ensures forall c | c in s :: IsIdChar(c) || c == '-'
  {
    PartsCover(s);
  }

  /** Whether two instants (in microseconds) are within a window, and the whole seconds between them. */
  function WithinTemporalWindow(capture: int, observed: int, window: nat): (bool, nat)
  {
    var apart := if observed >= capture then observed - capture else capture - observed;
    var delta := apart / MICROSECONDS;
    (delta <= window, delta)
  }

  /** `apart` microseconds, either way, are at least `seconds` whole seconds and less than one more. */
  ghost predicate SecondsApart(apart: int, seconds: nat) {
    && -(seconds + 1) * 1_000_000 < apart < (seconds + 1) * 1_000_000
    && (apart <= -(seconds as int) * 1_000_000 || seconds * 1_000_000 <= apart)
  }

  /** The second component counts the whole seconds between the instants. */
  lemma DeltaCountsSeconds(capture: int, observed: int, window: nat)
    ensures SecondsApart(observed - capture, WithinTemporalWindow(capture, observed, window).1)
    ensures WithinTemporalWindow(capture, observed, window).0 <==> WithinTemporalWindow(capture, observed, window).1 <= window
  {
    var apart := if observed >= capture then observed - capture else capture - observed;
    assert apart == MICROSECONDS * (apart / MICROSECONDS) + apart % MICROSECONDS;
  }

  /** No other number does. */
  lemma SecondsApartUnique(apart: int, seconds: nat, other: nat)
    requires SecondsApart(apart, seconds) && SecondsApart(apart, other)
    ensures seconds == other
  {
  }

  /** Truncation to whole seconds widens the window by just under one second. */
  lemma WindowIsOneSecondWider(capture: int, observed: int, window: nat)
    ensures WithinTemporalWindow(capture, observed, window).0
       <==> -(window + 1) * MICROSECONDS < observed - capture < (window + 1) * MICROSECONDS
    ensures WithinTemporalWindow(capture, observed, window)
         == WithinTemporalWindow(observed, capture, window)
  {
    var apart := if observed >= capture then observed - capture else capture - observed;
    assert apart / MICROSECONDS <= window <==> apart < (window + 1) * MICROSECONDS;
  }

  /** The documented inclusive window: what lies inside it always matches; the converse fails. */
  lemma WindowBoundary(capture: int, window: nat)
    ensures forall observed: int | -(window as int) * MICROSECONDS <= observed - capture <= window * MICROSECONDS ::
              WithinTemporalWindow(capture, observed, window).0
    ensures WithinTemporalWindow(capture, capture + window * MICROSECONDS + 1, window).0
  {
    forall observed: int | -(window as int) * MICROSECONDS <= observed - capture <= window * MICROSECONDS
      ensures WithinTemporalWindow(capture, observed, window).0
    {
      WindowIsOneSecondWider(capture, observed, window);
    }
    WindowIsOneSecondWider(capture, capture + window * MICROSECONDS + 1, window);
  }
}
