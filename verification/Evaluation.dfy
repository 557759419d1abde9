/** Spatial and temporal correlation of one event against the accepted scenes. */
module Evaluation {
  import opened Common
  import opened Schema
  import opened Validation
  import opened Permutation

  // ------------------------------------------------------ identifiers

  function Upper(c: char): char {
    if 'a' <= c <= 'z' then c - 'a' + 'A' else c
  }

  function Preimage(sceneId: string, eventId: string, algorithm: string): string {
    sceneId + "\n" + eventId + "\n" + algorithm
  }

  /** `hexdigest` stands for the SHA-256 hex digest of the encoded text. */
  function DeterministicId(hexdigest: string -> string, sceneId: string, eventId: string): string
    requires |hexdigest(Preimage(sceneId, eventId, ALGORITHM_VERSION))| >= 24
  {
    "CORR-V1-" + Map(Upper, hexdigest(Preimage(sceneId, eventId, ALGORITHM_VERSION))[..24])
  }

  predicate IsHexDigest(s: string) {
    |s| == 64 && forall c | c in s :: '0' <= c <= '9' || 'a' <= c <= 'f'
  }

  /** Whatever the digest, a generated id is a valid structured identifier. */
  lemma {:induction false} GeneratedIdIsIdentifier(hexdigest: string -> string, sceneId: string, eventId: string)
    requires IsHexDigest(hexdigest(Preimage(sceneId, eventId, ALGORITHM_VERSION)))
    ensures IsIdentifier(DeterministicId(hexdigest, sceneId, eventId))
  {
    var digest := hexdigest(Preimage(sceneId, eventId, ALGORITHM_VERSION));
    forall i | 0 <= i < 24 ensures IsIdChar(Upper(digest[i])) {
      assert digest[i] in digest;
    }
    SuffixedPrefix(Map(Upper, digest[..24]));
  }

  /** What it consists of: the prefix, and the first 24 characters of the digest in capitals. */
  lemma {:induction false} GeneratedIdIs(hexdigest: string -> string, sceneId: string, eventId: string, i: nat)
    requires i < 24 && IsHexDigest(hexdigest(sceneId + "\n" + eventId + "\n" + "correlator-1.0.0"))
    ensures |hexdigest(Preimage(sceneId, eventId, ALGORITHM_VERSION))| >= 24
    ensures var id, c := DeterministicId(hexdigest, sceneId, eventId), hexdigest(sceneId + "\n" + eventId + "\n" + "correlator-1.0.0")[i];
      && |id| == 32 && id[..8] == "CORR-V1-"
      && if 'a' <= c <= 'f' then id[8 + i] == c - 'a' + 'A' else id[8 + i] == c
  {
    var digest := hexdigest(sceneId + "\n" + eventId + "\n" + "correlator-1.0.0");
    assert digest[i] in digest;
  }

  lemma {:induction false} SuffixedPrefix(suffix: string)
    requires |suffix| == 24 && forall i | 0 <= i < |suffix| :: IsIdChar(suffix[i])
    ensures IsIdentifier("CORR-V1-" + suffix)
  {
    PrefixParts();
    PartsOfPlainSuffix("CORR-V1-", suffix);
    assert "" + suffix == suffix;
    assert Parts("CORR-V1-" + suffix) == ["CORR", "V1", suffix];
    assert IsPart("CORR") && IsPart("V1") && IsPart(suffix);
  }

  lemma {:induction false} PartsPlain(s: string)
    requires forall c | c in s :: c != '-'
    ensures Parts(s) == [s]
  {
    PartsOfPlainSuffix("", s);
    assert "" + s == s;
  }

  lemma {:induction false} PartsHyphen(s: string)
    ensures Parts(s + "-") == Parts(s) + [""]
  {
    assert (s + "-")[..|s + "-"| - 1] == s;
  }

  lemma {:induction false} TwoParts(a: string, b: string)
    requires forall c | c in a :: c != '-'
    requires forall c | c in b :: c != '-'
    ensures Parts(a + "-" + b + "-") == [a, b, ""]
  {
    PartsPlain(a);
    var first := a + "-";
    assert Parts(first) == [a, ""] by {
      PartsHyphen(a);
    }
    var second := first + b;
    assert Parts(second) == [a, b] by {
      PartsOfPlainSuffix(first, b);
      assert "" + b == b;
    }
    PartsHyphen(second);
  }

  lemma {:induction false} PrefixParts()
    ensures Parts("CORR-V1-") == ["CORR", "V1", ""]
  {
    TwoParts("CORR", "V1");
    assert "CORR" + "-" + "V1" + "-" == "CORR-V1-";
  }

  /** Where the first line break of `a + "\n" + x` is, when `a` has none. */
  lemma {:induction false} FramedAt(a: string, x: string, k: nat)
    requires '\n' !in a && k <= |a|
    ensures (a + "\n" + x)[k] == '\n' <==> k == |a|
  {
    if k < |a| {
      assert (a + "\n" + x)[k] == a[k] && a[k] in a;
    }
  }

  lemma {:induction false} LineBreakFraming(a: string, b: string, x: string, y: string)
    requires '\n' !in a && '\n' !in b
    requires a + "\n" + x == b + "\n" + y
    ensures a == b && x == y
  {
    if |a| <= |b| {
      FramedAt(a, x, |a|);
      FramedAt(b, y, |a|);
    } else {
      FramedAt(a, x, |b|);
      FramedAt(b, y, |b|);
    }
    assert |a| == |b|;
    assert (a + "\n" + x)[..|a|] == a && (b + "\n" + y)[..|b|] == b;
    assert (a + "\n" + x)[|a| + 1..] == x && (b + "\n" + y)[|b| + 1..] == y;
  }

  /** Over validated identifiers the hashed text determines the pair it was made from. */
  lemma {:induction false} PreimageInjective(s: string, e: string, s': string, e': string)
    requires IsIdentifier(s) && IsIdentifier(e) && IsIdentifier(s') && IsIdentifier(e')
    requires Preimage(s, e, ALGORITHM_VERSION) == Preimage(s', e', ALGORITHM_VERSION)
    ensures s == s' && e == e'
  {
    IdentifierChars(s);
    IdentifierChars(e);
    IdentifierChars(s');
    IdentifierChars(e');
    var tail, tail' := e + "\n" + ALGORITHM_VERSION, e' + "\n" + ALGORITHM_VERSION;
    assert Preimage(s, e, ALGORITHM_VERSION) == s + "\n" + tail;
    assert Preimage(s', e', ALGORITHM_VERSION) == s' + "\n" + tail';
    LineBreakFraming(s, s', tail, tail');
    LineBreakFraming(e, e', ALGORITHM_VERSION, ALGORITHM_VERSION);
  }

  /** Two validated pairs share an id only when their digests share their first 96 bits. */
  lemma {:induction false} SharedIdIsTruncatedCollision(hexdigest: string -> string, s: string, e: string, s': string, e': string)
    requires IsIdentifier(s) && IsIdentifier(e) && IsIdentifier(s') && IsIdentifier(e')
    requires IsHexDigest(hexdigest(Preimage(s, e, ALGORITHM_VERSION)))
    requires IsHexDigest(hexdigest(Preimage(s', e', ALGORITHM_VERSION)))
    requires DeterministicId(hexdigest, s, e) == DeterministicId(hexdigest, s', e')
    ensures
      || (s == s' && e == e')
      || (var p, p' := Preimage(s, e, ALGORITHM_VERSION), Preimage(s', e', ALGORITHM_VERSION);
          p != p' && hexdigest(p)[..24] == hexdigest(p')[..24])
  {
    var p, p' := Preimage(s, e, ALGORITHM_VERSION), Preimage(s', e', ALGORITHM_VERSION);
    if p == p' {
      PreimageInjective(s, e, s', e');
    } else {
      var d, d' := hexdigest(p), hexdigest(p');
      assert DeterministicId(hexdigest, s, e)[8..] == Map(Upper, d[..24]);
      assert DeterministicId(hexdigest, s', e')[8..] == Map(Upper, d'[..24]);
      forall i | 0 <= i < 24 ensures d[i] == d'[i] {
        assert Map(Upper, d[..24])[i] == Upper(d[i]) && Map(Upper, d'[..24])[i] == Upper(d'[i]);
        assert d[i] in d && d'[i] in d';
      }
      assert d[..24] == d'[..24];
    }
  }

  // ------------------------------------------------------- precedence

  function CorrelationStatus(spatialMatch: bool, temporalMatch: bool): Verdict {
    if !spatialMatch then SpatialNonMatch
    else if !temporalMatch then TemporalNonMatch
    else Matched
  }

  function AnalysisStatus(verdicts: seq<Verdict>): Verdict {
    if Matched in verdicts then Matched
    else if TemporalNonMatch in verdicts then TemporalNonMatch
    else if SpatialNonMatch in verdicts then SpatialNonMatch
    else NoScenes
  }

  function Rank(v: Verdict): nat {
    match v
    case NoScenes => 0
    case SpatialNonMatch => 1
    case TemporalNonMatch => 2
    case Matched => 3
  }

  /** The analysis status is the highest-ranking verdict, `NoScenes` standing for none at all. */
  lemma {:induction false} AnalysisStatusIsMaximum(verdicts: seq<Verdict>, status: Verdict)
    ensures status == AnalysisStatus(verdicts)
       <==> && (status in verdicts || status == NoScenes)
            && (forall v | v in verdicts :: Rank(v) <= Rank(status))
  {
    var s := AnalysisStatus(verdicts);
    assert forall v | v in verdicts :: Rank(v) <= Rank(s);
    assert forall a, b :: Rank(a) == Rank(b) ==> a == b;
  }

  // ------------------------------------------------------- evaluation

  /** The correlation row computed for a scene and an event. */
  function CorrelationOf(env: Env, sceneId: string, scene: Scene, eventId: string, event: Event): Correlation
  {
    var spatial := scene.columns.footprint.Some? && Covers(scene.columns.footprint.value, event.location);
    var (temporal, delta) := WithinTemporalWindow(scene.captureTime, event.observedAt, env.window);
    Correlation(sceneId, eventId, spatial, delta, CorrelationStatus(spatial, temporal), ALGORITHM_VERSION, scene.sha256)
  }

  /** The point lies in the box, boundary included. */
  predicate Inside(footprint: Option<Box>, point: Point) {
    && footprint.Some?
    && footprint.value.west <= point.longitude && point.longitude <= footprint.value.east
    && footprint.value.south <= point.latitude && point.latitude <= footprint.value.north
  }

  /** Everything a correlation row says, in terms of the scene row and the event row it is about. */
  ghost predicate Tells(env: Env, sceneId: string, scene: Scene, eventId: string, event: Event, row: Correlation) {
    && row.sceneId == sceneId && row.eventId == eventId
    && row.algorithm == "correlator-1.0.0" && row.sceneSha256 == scene.sha256
    && SecondsApart(event.observedAt - scene.captureTime, row.delta)
    && (row.spatialMatch <==> Inside(scene.columns.footprint, event.location))
    && row.verdict == if !row.spatialMatch then SpatialNonMatch else if row.delta <= env.window then Matched else TemporalNonMatch
  }

  /** The row computed for a pair says just that. */
  lemma {:induction false} RowTells(env: Env, sceneId: string, scene: Scene, eventId: string, event: Event)
    ensures Tells(env, sceneId, scene, eventId, event, CorrelationOf(env, sceneId, scene, eventId, event))
  {
    DeltaCountsSeconds(scene.captureTime, event.observedAt, env.window);
  }

  /** Matched means covered by the footprint, boundary included, and less than a second beyond the window apart. */
  lemma {:induction false} VerdictMeans(env: Env, sceneId: string, scene: Scene, eventId: string, event: Event)
    ensures var verdict := CorrelationOf(env, sceneId, scene, eventId, event).verdict;
      var covered := Inside(scene.columns.footprint, event.location);
      var bound := (env.window + 1) * MICROSECONDS;
      && (verdict == SpatialNonMatch <==> !covered)
      && (verdict == Matched <==> covered && -bound < event.observedAt - scene.captureTime < bound)
      && verdict != NoScenes
  {
    WindowIsOneSecondWider(scene.captureTime, event.observedAt, env.window);
  }

  // The evaluation of one event sees the scenes through two functions of the scene id: the
  // name of the correlation, and the correlation itself.

  function Namer(env: Env, eventId: string): string -> string {
    id => env.correlationId(id, eventId)
  }

  function Judge(env: Env, db: Db, eventId: string): string -> Correlation
    requires eventId in db.events
  {
    id => CorrelationOf(env, id, SceneOrBlank(db, id), eventId, db.events[eventId])
  }

  function SceneOrBlank(db: Db, id: string): Scene {
    if id in db.scenes then db.scenes[id] else Scene("", 0, "", BLANK_COLUMNS, Pending, None)
  }

  function VerdictBy(judge: string -> Correlation): string -> Verdict {
    id => judge(id).verdict
  }

  function MatchedBy(judge: string -> Correlation): string -> bool {
    id => judge(id).verdict == Matched
  }

  /** The rows absent from the table, by id; the first write of a correlation wins. */
  ghost function Inserts(name: string -> string, judge: string -> Correlation, stored: set<string>,
                         rows: seq<string>): map<string, Correlation>
  {
    if rows == [] then map[]
    else
      var n := |rows| - 1;
      Recorded(Inserts(name, judge, stored, rows[..n]), stored, name(rows[n]), judge(rows[n]))
  }

  function Recorded(inserts: map<string, Correlation>, stored: set<string>, id: string, row: Correlation): map<string, Correlation> {
    if id in stored || id in inserts then inserts else inserts[id := row]
  }

  lemma {:induction false} InsertsFrom(name: string -> string, judge: string -> Correlation, stored: set<string>, rows: seq<string>)
    ensures var inserts := Inserts(name, judge, stored, rows);
      && (forall key | key in inserts ::
            key !in stored && exists id :: id in rows && key == name(id) && inserts[key] == judge(id))
      && (forall id | id in rows :: name(id) in stored || name(id) in inserts)
  {
    if rows != [] {
      var n := |rows| - 1;
      InsertsFrom(name, judge, stored, rows[..n]);
      assert rows == rows[..n] + [rows[n]];
      assert rows[n] in rows;
    }
  }

  /** No two scene and event pairs in the tables share a correlation id. */
  ghost predicate IdsApart(env: Env, db: Db) {
    forall s, e, s', e' | s in db.scenes && e in db.events && s' in db.scenes && e' in db.events
        && env.correlationId(s, e) == env.correlationId(s', e') ::
      s == s' && e == e'
  }

  predicate TruncatedCollision(hexdigest: string -> string, p: string, p': string) {
    p != p' && |hexdigest(p)| >= 24 && |hexdigest(p')| >= 24 && hexdigest(p)[..24] == hexdigest(p')[..24]
  }

  ghost predicate Digests(hexdigest: string -> string) {
    forall p {:trigger hexdigest(p)} :: IsHexDigest(hexdigest(p))
  }

  /** The environment names correlations as the code does. */
  ghost predicate NamesBy(env: Env, hexdigest: string -> string)
    requires Digests(hexdigest)
  {
    forall s, e :: env.correlationId(s, e) == DeterministicId(hexdigest, s, e)
  }

  ghost predicate PairsCollide(hexdigest: string -> string, db: Db) {
    exists s, e, s', e' | s in db.scenes && e in db.events && s' in db.scenes && e' in db.events ::
      TruncatedCollision(hexdigest, Preimage(s, e, ALGORITHM_VERSION), Preimage(s', e', ALGORITHM_VERSION))
  }

  ghost predicate Validated(db: Db) {
    (forall s | s in db.scenes :: IsIdentifier(s)) && forall e | e in db.events :: IsIdentifier(e)
  }

  lemma {:induction false} SharedIdCollides(env: Env, hexdigest: string -> string, s: string, e: string, s': string, e': string)
    requires Digests(hexdigest) && NamesBy(env, hexdigest)
    requires IsIdentifier(s) && IsIdentifier(e) && IsIdentifier(s') && IsIdentifier(e')
    requires env.correlationId(s, e) == env.correlationId(s', e') && !(s == s' && e == e')
    ensures TruncatedCollision(hexdigest, Preimage(s, e, ALGORITHM_VERSION), Preimage(s', e', ALGORITHM_VERSION))
  {
    hide IsIdentifier;
    assert IsHexDigest(hexdigest(Preimage(s, e, ALGORITHM_VERSION)));
    assert IsHexDigest(hexdigest(Preimage(s', e', ALGORITHM_VERSION)));
    assert DeterministicId(hexdigest, s, e) == DeterministicId(hexdigest, s', e');
    hide DeterministicId, Preimage;
    SharedIdIsTruncatedCollision(hexdigest, s, e, s', e');
  }

  /** With the ids the code generates, that takes a collision of truncated digests among those pairs. */
  lemma {:induction false} ApartUnlessCollision(env: Env, db: Db, hexdigest: string -> string)
    requires Digests(hexdigest) && NamesBy(env, hexdigest) && Validated(db)
    ensures IdsApart(env, db) || PairsCollide(hexdigest, db)
  {
    hide Digests, NamesBy, IsIdentifier, Preimage, TruncatedCollision;
    if !IdsApart(env, db) {
      var s, e, s', e' :| s in db.scenes && e in db.events && s' in db.scenes && e' in db.events
        && env.correlationId(s, e) == env.correlationId(s', e') && !(s == s' && e == e');
      SharedIdCollides(env, hexdigest, s, e, s', e');
    }
  }

  ghost function AnalysisOf(name: string -> string, judge: string -> Correlation, payloadHash: string,
                            rows: seq<string>): Analysis
  {
    var verdicts := Map(VerdictBy(judge), rows);
    Analysis(AnalysisStatus(verdicts), |rows|, Map(name, Filter(MatchedBy(judge), rows)), verdicts,
             map id | id in rows :: judge(id).sceneSha256, payloadHash)
  }

  /** What one evaluation is about to write. `base` is the analysis row its session read. */
  datatype Writes = Writes(eventId: string, inserts: map<string, Correlation>,
                           base: Option<Analysis>, analysis: Analysis)

  function BaseOf(db: Db, eventId: string): Option<Analysis> {
    if eventId in db.analyses then Some(db.analyses[eventId]) else None
  }

  /** The specification of `evaluate_event` on the rows its query returned. */
  ghost function Evaluate(env: Env, db: Db, eventId: string, rows: seq<string>): Writes
    requires eventId in db.events
  {
    var name, judge := Namer(env, eventId), Judge(env, db, eventId);
    Writes(eventId, Inserts(name, judge, db.correlations.Keys, rows), BaseOf(db, eventId),
           AnalysisOf(name, judge, db.events[eventId].payloadHash, rows))
  }

  /** `rows` is some ordering of the accepted scenes. */
  ghost predicate IsListing(db: Db, rows: seq<string>) {
    && Distinct(rows)
    && forall id :: id in rows <==> id in db.scenes && db.scenes[id].status == Accepted
  }

  /** `evaluate_event`: one pass over the rows, appending and looking up as it goes. */
  method EvaluateEvent(env: Env, db: Db, eventId: string, rows: seq<string>) returns (writes: Option<Writes>)
    requires forall id | id in rows :: id in db.scenes
    ensures writes.Some? <==> eventId in db.events
    ensures writes.Some? ==> writes.value == Evaluate(env, db, eventId, rows)
    ensures writes.Some? ==> InsertsTell(env, db, eventId, rows, writes.value.inserts)
    ensures writes.Some? ==> AnalysisTells(env, db, eventId, rows, writes.value.analysis)
  {
    if eventId !in db.events {
      return None;
    }
    var event := db.events[eventId];
    var verdicts: seq<Verdict>, matched: seq<string> := [], [];
    var digests: map<string, string>, inserts: map<string, Correlation> := map[], map[];
    ghost var name, judge := Namer(env, eventId), Judge(env, db, eventId);
    CollectedNone(name, judge, db.correlations.Keys);
    assert rows[..0] == [];
    for i := 0 to |rows|
      invariant Collected(name, judge, db.correlations.Keys, rows[..i], verdicts, matched, digests, inserts)
    {
      var sceneId := rows[i];
      var scene := db.scenes[sceneId];
      var row := CorrelationOf(env, sceneId, scene, eventId, event);
      var id := env.correlationId(sceneId, eventId);
      JudgeRow(env, db, eventId, sceneId, row, id);
      CollectedStep(name, judge, db.correlations.Keys, rows[..i], sceneId, verdicts, matched, digests, inserts);
      PrefixStep(rows, i);
      // The lookup flushes what the session has added, so it sees its own inserts too.
      if id !in db.correlations && id !in inserts {
        inserts := inserts[id := row];
      }
      verdicts := verdicts + [row.verdict];
      digests := digests[sceneId := scene.sha256];
      if row.verdict == Matched {
        matched := matched + [id];
      }
    }
    assert rows[..|rows|] == rows;
    CollectedAll(env, db, eventId, rows, verdicts, matched, digests, inserts);
    EvaluationInserts(env, db, eventId, rows);
    EvaluationConcludes(env, db, eventId, rows);
    writes := Some(Writes(eventId, inserts, BaseOf(db, eventId),
      Analysis(AnalysisStatus(verdicts), |rows|, matched, verdicts, digests, event.payloadHash)));
  }

  /** A row that may be inserted for some scene of the listing. */
  ghost predicate TellsOf(env: Env, db: Db, eventId: string, rows: seq<string>, key: string, row: Correlation)
    requires eventId in db.events
  {
    && row.sceneId in rows && row.sceneId in db.scenes && key == env.correlationId(row.sceneId, eventId)
    && Tells(env, row.sceneId, db.scenes[row.sceneId], eventId, db.events[eventId], row)
  }

  /** The verdict on one scene of the listing. */
  ghost predicate VerdictTells(env: Env, db: Db, eventId: string, sceneId: string, verdict: Verdict)
    requires eventId in db.events
  {
    sceneId in db.scenes
    && exists row: Correlation :: Tells(env, sceneId, db.scenes[sceneId], eventId, db.events[eventId], row) && row.verdict == verdict
  }

  /** Only absent rows, one under the id of every scene whose id was absent, each true of its scene and event. */
  ghost predicate InsertsTell(env: Env, db: Db, eventId: string, rows: seq<string>, inserts: map<string, Correlation>)
    requires eventId in db.events
  {
    && (forall key | key in inserts :: key !in db.correlations && TellsOf(env, db, eventId, rows, key, inserts[key]))
    && (forall id | id in rows :: env.correlationId(id, eventId) in db.correlations || env.correlationId(id, eventId) in inserts)
  }

  /** The verdict and digest of every scene in turn, and the ids of those that matched. */
  ghost predicate AnalysisTells(env: Env, db: Db, eventId: string, rows: seq<string>, a: Analysis)
    requires eventId in db.events
  {
    && a.evaluated == |a.verdicts| == |rows| && a.payloadHash == db.events[eventId].payloadHash
    && (forall i | 0 <= i < |rows| :: VerdictTells(env, db, eventId, rows[i], a.verdicts[i]))
    && (forall id :: id in a.sceneDigests <==> id in rows)
    && (forall id | id in rows :: id in db.scenes && a.sceneDigests[id] == db.scenes[id].sha256)
    && (forall key :: key in a.matched <==> ListedAsMatch(env, db, eventId, rows, a.verdicts, key))
  }

  ghost predicate ListedAsMatch(env: Env, db: Db, eventId: string, rows: seq<string>, verdicts: seq<Verdict>, key: string)
    requires |verdicts| == |rows|
  {
    exists i :: 0 <= i < |rows| && verdicts[i] == Matched && key == env.correlationId(rows[i], eventId)
  }

  lemma {:induction false} JudgeTells(env: Env, db: Db, eventId: string, id: string)
    requires eventId in db.events && id in db.scenes
    ensures var row := Judge(env, db, eventId)(id);
      && Tells(env, id, db.scenes[id], eventId, db.events[eventId], row)
      && row.sceneId == id && row.sceneSha256 == db.scenes[id].sha256
  {
    RowTells(env, id, db.scenes[id], eventId, db.events[eventId]);
  }

  /** What an evaluation inserts. */
  lemma {:induction false} EvaluationInserts(env: Env, db: Db, eventId: string, rows: seq<string>)
    requires eventId in db.events && forall id | id in rows :: id in db.scenes
    ensures InsertsTell(env, db, eventId, rows, Evaluate(env, db, eventId, rows).inserts)
  {
    hide Tells, AnalysisOf, CorrelationOf;
    var name, judge := Namer(env, eventId), Judge(env, db, eventId);
    var inserts := Evaluate(env, db, eventId, rows).inserts;
    InsertsFrom(name, judge, db.correlations.Keys, rows);
    forall key | key in inserts ensures TellsOf(env, db, eventId, rows, key, inserts[key]) {
      var id :| id in rows && key == name(id) && inserts[key] == judge(id);
      JudgeTells(env, db, eventId, id);
    }
    forall id | id in rows ensures env.correlationId(id, eventId) in db.correlations || env.correlationId(id, eventId) in inserts {
      assert name(id) == env.correlationId(id, eventId);
    }
  }

  /** What an evaluation concludes. */
  lemma {:induction false} EvaluationConcludes(env: Env, db: Db, eventId: string, rows: seq<string>)
    requires eventId in db.events && forall id | id in rows :: id in db.scenes
    ensures AnalysisTells(env, db, eventId, rows, Evaluate(env, db, eventId, rows).analysis)
  {
    VerdictsTell(env, db, eventId, rows);
    MatchedListed(env, db, eventId, rows);
    hide VerdictTells, ListedAsMatch, Tells, Evaluate;
  }

  lemma {:induction false} VerdictsTell(env: Env, db: Db, eventId: string, rows: seq<string>)
    requires eventId in db.events && forall id | id in rows :: id in db.scenes
    ensures var analysis := Evaluate(env, db, eventId, rows).analysis;
      && analysis.evaluated == |analysis.verdicts| == |rows| && analysis.payloadHash == db.events[eventId].payloadHash
      && (forall i | 0 <= i < |rows| :: VerdictTells(env, db, eventId, rows[i], analysis.verdicts[i]))
      && (forall id :: id in analysis.sceneDigests <==> id in rows)
      && (forall id | id in rows :: analysis.sceneDigests[id] == db.scenes[id].sha256)
  {
    hide Tells, CorrelationOf, AnalysisStatus, Inserts;
    var analysis := Evaluate(env, db, eventId, rows).analysis;
    forall i | 0 <= i < |rows| ensures VerdictTells(env, db, eventId, rows[i], analysis.verdicts[i]) {
      assert rows[i] in rows;
      JudgeTells(env, db, eventId, rows[i]);
      assert analysis.verdicts[i] == Judge(env, db, eventId)(rows[i]).verdict;
    }
    forall id | id in rows ensures analysis.sceneDigests[id] == db.scenes[id].sha256 {
      JudgeTells(env, db, eventId, id);
    }
  }

  lemma {:induction false} MatchedListed(env: Env, db: Db, eventId: string, rows: seq<string>)
    requires eventId in db.events
    ensures var analysis := Evaluate(env, db, eventId, rows).analysis;
      |analysis.verdicts| == |rows|
      && forall key :: key in analysis.matched <==> ListedAsMatch(env, db, eventId, rows, analysis.verdicts, key)
  {
    hide CorrelationOf, AnalysisStatus, Inserts;
    var name, judge := Namer(env, eventId), Judge(env, db, eventId);
    var analysis := Evaluate(env, db, eventId, rows).analysis;
    forall key ensures key in analysis.matched <==> ListedAsMatch(env, db, eventId, rows, analysis.verdicts, key) {
      KeptNames(name, MatchedBy(judge), rows, key);
      if i :| 0 <= i < |rows| && MatchedBy(judge)(rows[i]) && key == name(rows[i]) {
        assert analysis.verdicts[i] == Matched && key == env.correlationId(rows[i], eventId);
      }
      if i :| 0 <= i < |rows| && analysis.verdicts[i] == Matched && key == env.correlationId(rows[i], eventId) {
        assert MatchedBy(judge)(rows[i]) && key == name(rows[i]);
      }
    }
  }

  lemma {:induction false} KeptNames(name: string -> string, keep: string -> bool, rows: seq<string>, key: string)
    ensures key in Map(name, Filter(keep, rows)) <==> exists i :: 0 <= i < |rows| && keep(rows[i]) && key == name(rows[i])
  {
    var kept := Filter(keep, rows);
    if k :| 0 <= k < |kept| && Map(name, kept)[k] == key {
      assert kept[k] in kept;
      var i :| 0 <= i < |rows| && rows[i] == kept[k];
      assert keep(rows[i]) && key == name(rows[i]);
    }
    if i :| 0 <= i < |rows| && keep(rows[i]) && key == name(rows[i]) {
      assert rows[i] in kept;
      var k :| 0 <= k < |kept| && kept[k] == rows[i];
      assert Map(name, kept)[k] == key;
    }
  }

  /** The lists and maps of the loop, after the rows in `done`. */
  ghost predicate Collected(name: string -> string, judge: string -> Correlation, stored: set<string>, done: seq<string>,
                            verdicts: seq<Verdict>, matched: seq<string>, digests: map<string, string>,
                            inserts: map<string, Correlation>)
  {
    && verdicts == Map(VerdictBy(judge), done)
    && matched == Map(name, Filter(MatchedBy(judge), done))
    && digests == (map id | id in done :: judge(id).sceneSha256)
    && inserts == Inserts(name, judge, stored, done)
  }

  lemma {:induction false} CollectedNone(name: string -> string, judge: string -> Correlation, stored: set<string>)
    ensures Collected(name, judge, stored, [], [], [], map[], map[])
  {
  }

  lemma {:induction false} JudgeRow(env: Env, db: Db, eventId: string, sceneId: string, row: Correlation, id: string)
    requires eventId in db.events && sceneId in db.scenes && id == env.correlationId(sceneId, eventId)
    requires row == CorrelationOf(env, sceneId, db.scenes[sceneId], eventId, db.events[eventId])
    ensures row == Judge(env, db, eventId)(sceneId) && id == Namer(env, eventId)(sceneId)
    ensures row.sceneSha256 == db.scenes[sceneId].sha256
  {
  }

  lemma {:induction false} CollectedAll(env: Env, db: Db, eventId: string, rows: seq<string>, verdicts: seq<Verdict>,
      matched: seq<string>, digests: map<string, string>, inserts: map<string, Correlation>)
    requires eventId in db.events
    requires Collected(Namer(env, eventId), Judge(env, db, eventId), db.correlations.Keys, rows,
                       verdicts, matched, digests, inserts)
    ensures Writes(eventId, inserts, BaseOf(db, eventId),
              Analysis(AnalysisStatus(verdicts), |rows|, matched, verdicts, digests, db.events[eventId].payloadHash))
         == Evaluate(env, db, eventId, rows)
  {
  }

  lemma {:induction false} MapAppend<A, B>(f: A -> B, xs: seq<A>, x: A)
    ensures Map(f, xs + [x]) == Map(f, xs) + [f(x)]
  {
  }

  lemma {:induction false} CollectedStep(name: string -> string, judge: string -> Correlation, stored: set<string>,
      done: seq<string>, next: string, verdicts: seq<Verdict>, matched: seq<string>, digests: map<string, string>,
      inserts: map<string, Correlation>)
    requires Collected(name, judge, stored, done, verdicts, matched, digests, inserts)
    ensures Collected(name, judge, stored, done + [next], verdicts + [judge(next).verdict],
                      if judge(next).verdict == Matched then matched + [name(next)] else matched,
                      digests[next := judge(next).sceneSha256],
                      Recorded(inserts, stored, name(next), judge(next)))
  {
    MapAppend(VerdictBy(judge), done, next);
    MatchedAppend(name, MatchedBy(judge), done, next);
    DigestsAppend(judge, done, next);
    InsertsAppend(name, judge, stored, done, next);
  }

  lemma {:induction false} MatchedAppend(name: string -> string, keep: string -> bool, done: seq<string>, next: string)
    ensures Map(name, Filter(keep, done + [next]))
         == if keep(next) then Map(name, Filter(keep, done)) + [name(next)] else Map(name, Filter(keep, done))
  {
    FilterAppend(keep, done, next);
    MapAppend(name, Filter(keep, done), next);
    assert Filter(keep, done) + [] == Filter(keep, done);
  }

  lemma {:induction false} DigestsAppend(judge: string -> Correlation, done: seq<string>, next: string)
    ensures (map id | id in done + [next] :: judge(id).sceneSha256)
         == (map id | id in done :: judge(id).sceneSha256)[next := judge(next).sceneSha256]
  {
  }

  lemma {:induction false} InsertsAppend(name: string -> string, judge: string -> Correlation, stored: set<string>,
                                         rows: seq<string>, id: string)
    ensures Inserts(name, judge, stored, rows + [id]) == Recorded(Inserts(name, judge, stored, rows), stored, name(id), judge(id))
  {
    assert (rows + [id])[..|rows|] == rows;
  }

  // ----------------------------------------------------------- commit

  function MergeAnalysis(base: Analysis, written: Analysis, current: Analysis): Analysis {
    Analysis(MergeColumn(base.status, written.status, current.status),
             MergeColumn(base.evaluated, written.evaluated, current.evaluated),
             MergeColumn(base.matched, written.matched, current.matched),
             MergeColumn(base.verdicts, written.verdicts, current.verdicts),
             MergeColumn(base.sceneDigests, written.sceneDigests, current.sceneDigests),
             MergeColumn(base.payloadHash, written.payloadHash, current.payloadHash))
  }

  /** Over an analysis another session changed meanwhile, a column wins only where this session changed it. */
  lemma {:induction false} MergeTells(base: Analysis, written: Analysis, current: Analysis)
    ensures var after := MergeAnalysis(base, written, current);
      && after.status == (if written.status != base.status then written.status else current.status)
      && after.evaluated == (if written.evaluated != base.evaluated then written.evaluated else current.evaluated)
      && after.matched == (if written.matched != base.matched then written.matched else current.matched)
      && after.verdicts == (if written.verdicts != base.verdicts then written.verdicts else current.verdicts)
      && after.sceneDigests == (if written.sceneDigests != base.sceneDigests then written.sceneDigests else current.sceneDigests)
      && after.payloadHash == (if written.payloadHash != base.payloadHash then written.payloadHash else current.payloadHash)
  {
  }

  /** The unique constraint on (scene, event, algorithm). */
  predicate TripleTaken(stored: map<string, Correlation>, row: Correlation) {
    exists id :: id in stored && stored[id].sceneId == row.sceneId
              && stored[id].eventId == row.eventId && stored[id].algorithm == row.algorithm
  }

  predicate Insertable(stored: map<string, Correlation>, inserts: map<string, Correlation>) {
    forall id | id in inserts :: id !in stored && !TripleTaken(stored, inserts[id])
  }

  /** The commit of an evaluation: every write, or, when a key is taken, none. */
  function CommitEvaluation(db: Db, w: Writes): Option<Db> {
    if w.eventId in db.events && Insertable(db.correlations, w.inserts) && (w.base.Some? <==> w.eventId in db.analyses)
    then
      var event := db.events[w.eventId];
      var analysis := if w.base.None? then w.analysis
                      else MergeAnalysis(w.base.value, w.analysis, db.analyses[w.eventId]);
      Some(db.(correlations := db.correlations + w.inserts,
               analyses := db.analyses[w.eventId := analysis],
               events := db.events[w.eventId := event.(status := Processed)]))
    else None
  }

  // ------------------------------------------------------ idempotence

  ghost predicate SameUpToOrder(a: Analysis, b: Analysis) {
    && a.status == b.status && a.evaluated == b.evaluated
    && SameElements(a.matched, b.matched) && SameElements(a.verdicts, b.verdicts)
    && a.sceneDigests == b.sceneDigests && a.payloadHash == b.payloadHash
  }

  lemma {:induction false} SameUpToOrderTransitive(a: Analysis, b: Analysis, c: Analysis)
    requires SameUpToOrder(a, b) && SameUpToOrder(b, c)
    ensures SameUpToOrder(a, c)
  {
  }

  lemma {:induction false} StatusReordered(verdicts: seq<Verdict>, verdicts': seq<Verdict>)
    requires SameElements(verdicts, verdicts')
    ensures AnalysisStatus(verdicts) == AnalysisStatus(verdicts')
  {
    assert forall v :: v in verdicts <==> v in multiset(verdicts);
    assert forall v :: v in verdicts' <==> v in multiset(verdicts');
  }

  /** An analysis depends on the set of rows, not on the order the query returned them in. */
  lemma {:induction false} AnalysisReordered(name: string -> string, judge: string -> Correlation, payloadHash: string,
                                             rows: seq<string>, rows': seq<string>)
    requires SameElements(rows, rows')
    ensures SameUpToOrder(AnalysisOf(name, judge, payloadHash, rows), AnalysisOf(name, judge, payloadHash, rows'))
  {
    MapReordered(VerdictBy(judge), rows, rows');
    StatusReordered(Map(VerdictBy(judge), rows), Map(VerdictBy(judge), rows'));
    FilterReordered(MatchedBy(judge), rows, rows');
    MapReordered(name, Filter(MatchedBy(judge), rows), Filter(MatchedBy(judge), rows'));
    assert |multiset(rows)| == |rows| && |multiset(rows')| == |rows'|;
    assert forall id :: id in rows <==> id in multiset(rows);
    assert forall id :: id in rows' <==> id in multiset(rows');
  }

  /** Analyses read the scenes only through the judge. */
  lemma {:induction false} AnalysisSameJudge(name: string -> string, judge: string -> Correlation,
      judge': string -> Correlation, payloadHash: string, rows: seq<string>)
    requires forall id :: judge(id) == judge'(id)
    ensures AnalysisOf(name, judge, payloadHash, rows) == AnalysisOf(name, judge', payloadHash, rows)
  {
    assert Map(VerdictBy(judge), rows) == Map(VerdictBy(judge'), rows);
    FilterSame(MatchedBy(judge), MatchedBy(judge'), rows);
  }

  lemma FilterSame<A(!new)>(keep: A -> bool, keep': A -> bool, xs: seq<A>)
    requires forall x :: keep(x) == keep'(x)
    ensures Filter(keep, xs) == Filter(keep', xs)
  {
  }

  ghost function Fresh(env: Env, db: Db, eventId: string, rows: seq<string>): Analysis
    requires eventId in db.events
  {
    AnalysisOf(Namer(env, eventId), Judge(env, db, eventId), db.events[eventId].payloadHash, rows)
  }

  /** Two databases that agree on what an evaluation of `eventId` reads, earlier results aside. */
  ghost predicate SameFacts(db: Db, db': Db, eventId: string) {
    && db.scenes == db'.scenes && eventId in db.events && eventId in db'.events
    && db'.events[eventId] == db.events[eventId].(status := db'.events[eventId].status)
  }

  /** An analysis is a function of the accepted scenes and the event, up to list order. */
  lemma {:induction false} FreshReordered(env: Env, db: Db, db': Db, eventId: string, rows: seq<string>, rows': seq<string>)
    requires SameFacts(db, db', eventId) && IsListing(db, rows) && IsListing(db', rows')
    ensures SameUpToOrder(Fresh(env, db, eventId, rows), Fresh(env, db', eventId, rows'))
  {
    var name, judge, judge' := Namer(env, eventId), Judge(env, db, eventId), Judge(env, db', eventId);
    var hash := db.events[eventId].payloadHash;
    forall id ensures judge(id) == judge'(id) {
      JudgeSame(env, db, db', eventId, id);
    }
    ListingsReorder(rows, rows');
    AnalysisReordered(name, judge, hash, rows, rows');
    AnalysisSameJudge(name, judge, judge', hash, rows');
  }

  lemma {:induction false} JudgeSame(env: Env, db: Db, db': Db, eventId: string, id: string)
    requires SameFacts(db, db', eventId)
    ensures Judge(env, db, eventId)(id) == Judge(env, db', eventId)(id)
  {
  }

  /** What a committed evaluation leaves behind. */
  ghost predicate Evaluated(env: Env, db: Db, eventId: string, rows: seq<string>) {
    && IsListing(db, rows)
    && eventId in db.events && db.events[eventId].status == Processed
    && eventId in db.analyses && SameUpToOrder(Fresh(env, db, eventId, rows), db.analyses[eventId])
    && (forall id | id in rows :: Namer(env, eventId)(id) in db.correlations)
  }

  ghost predicate WellNamed(env: Env, stored: map<string, Correlation>) {
    forall id | id in stored :: id == env.correlationId(stored[id].sceneId, stored[id].eventId)
  }

  lemma {:induction false} InsertsFit(env: Env, db: Db, eventId: string, rows: seq<string>)
    requires WellNamed(env, db.correlations) && eventId in db.events
    ensures var inserts := Evaluate(env, db, eventId, rows).inserts;
            && Insertable(db.correlations, inserts) && WellNamed(env, db.correlations + inserts)
            && forall id | id in rows :: Namer(env, eventId)(id) in db.correlations + inserts
  {
    hide AnalysisOf, BaseOf, CorrelationStatus, WithinTemporalWindow, Covers, SceneOrBlank;
    var inserts := Evaluate(env, db, eventId, rows).inserts;
    var name, judge := Namer(env, eventId), Judge(env, db, eventId);
    InsertsFrom(name, judge, db.correlations.Keys, rows);
    forall key | key in inserts
      ensures key !in db.correlations && !TripleTaken(db.correlations, inserts[key])
      ensures key == env.correlationId(inserts[key].sceneId, inserts[key].eventId)
    {
      var id :| id in rows && key == name(id) && inserts[key] == judge(id);
      assert judge(id).sceneId == id && judge(id).eventId == eventId;
    }
  }

  /** A first evaluation, overlapped by no other, always commits. */
  lemma {:induction false} FirstEvaluation(env: Env, db: Db, eventId: string, rows: seq<string>)
    requires WellNamed(env, db.correlations)
    requires eventId in db.events && eventId !in db.analyses && IsListing(db, rows)
    ensures var after := CommitEvaluation(db, Evaluate(env, db, eventId, rows));
            after.Some? && Evaluated(env, after.value, eventId, rows) && WellNamed(env, after.value.correlations)
  {
    InsertsFit(env, db, eventId, rows);
    var after := CommitEvaluation(db, Evaluate(env, db, eventId, rows)).value;
    assert after.analyses[eventId] == Fresh(env, db, eventId, rows);
    FreshReordered(env, after, db, eventId, rows, rows);
  }

  lemma {:induction false} NothingToInsert(env: Env, db: Db, eventId: string, rows: seq<string>, rows': seq<string>)
    requires Evaluated(env, db, eventId, rows) && IsListing(db, rows')
    ensures Evaluate(env, db, eventId, rows').inserts == map[]
  {
    assert forall id | id in rows' :: id in rows;
    var w := Evaluate(env, db, eventId, rows');
    InsertsFrom(Namer(env, eventId), Judge(env, db, eventId), db.correlations.Keys, rows');
    assert forall key | key in w.inserts :: false;
  }

  /** Evaluating again changes nothing but, at most, the order inside the analysis lists. */
  lemma {:induction false} EvaluationIdempotent(env: Env, db: Db, eventId: string, rows: seq<string>, rows': seq<string>)
    requires Evaluated(env, db, eventId, rows) && IsListing(db, rows')
    ensures var after := CommitEvaluation(db, Evaluate(env, db, eventId, rows'));
      && after.Some?
      && after.value == db.(analyses := db.analyses[eventId := Fresh(env, db, eventId, rows')])
      && SameUpToOrder(Fresh(env, db, eventId, rows'), db.analyses[eventId])
      && Evaluated(env, after.value, eventId, rows)
  {
    NothingToInsert(env, db, eventId, rows, rows');
    var renewed, stored := Fresh(env, db, eventId, rows'), db.analyses[eventId];
    FreshReordered(env, db, db, eventId, rows', rows);
    SameUpToOrderTransitive(renewed, Fresh(env, db, eventId, rows), stored);
    CommitWithoutInserts(db, Evaluate(env, db, eventId, rows'));
    var after := db.(analyses := db.analyses[eventId := renewed]);
    FreshReordered(env, after, db, eventId, rows, rows');
  }

  lemma {:induction false} CommitWithoutInserts(db: Db, w: Writes)
    requires w.eventId in db.events && db.events[w.eventId].status == Processed
    requires w.inserts == map[] && w.eventId in db.analyses && w.base == Some(db.analyses[w.eventId])
    ensures CommitEvaluation(db, w) == Some(db.(analyses := db.analyses[w.eventId := w.analysis]))
  {
    assert MergeAnalysis(w.base.value, w.analysis, w.base.value) == w.analysis;
    assert db.correlations + map[] == db.correlations;
    assert db.events == db.events[w.eventId := db.events[w.eventId].(status := Processed)];
  }

  /** `later` is `once` with, at most, the lists of one analysis reordered. */
  ghost predicate SameButAnalysisOrder(env: Env, once: Db, later: Db, eventId: string, rows: seq<string>) {
    && Evaluated(env, once, eventId, rows) && Evaluated(env, later, eventId, rows)
    && SameUpToOrder(later.analyses[eventId], once.analyses[eventId])
    && later == once.(analyses := once.analyses[eventId := later.analyses[eventId]])
  }

  lemma {:induction false} OneMoreEvaluation(env: Env, once: Db, before: Db, eventId: string,
                                             rows: seq<string>, rows': seq<string>)
    requires SameButAnalysisOrder(env, once, before, eventId, rows)
    requires IsListing(once, rows')
    ensures var after := CommitEvaluation(before, Evaluate(env, before, eventId, rows'));
            after.Some? && SameButAnalysisOrder(env, once, after.value, eventId, rows)
  {
    EvaluationIdempotent(env, before, eventId, rows, rows');
    var renewed := Fresh(env, before, eventId, rows');
    SameUpToOrderTransitive(renewed, before.analyses[eventId], once.analyses[eventId]);
    Overwrite(once.analyses, eventId, before.analyses[eventId], renewed);
  }

  /** One evaluation of the event, overlapped by no other, over the scenes in some order. */
  ghost predicate EvaluationStep(env: Env, eventId: string, before: Db, rows: seq<string>, after: Db) {
    && eventId in before.events && IsListing(before, rows)
    && CommitEvaluation(before, Evaluate(env, before, eventId, rows)) == Some(after)
  }

  /** k >= 1 evaluations leave what one leaves, up to the order inside the analysis lists. */
  lemma {:induction false} RepeatedEvaluation(env: Env, eventId: string, states: seq<Db>, listings: seq<seq<string>>, k: nat)
    requires 1 <= k <= |listings| && |states| == |listings| + 1
    requires forall i | 0 <= i < |listings| :: EvaluationStep(env, eventId, states[i], listings[i], states[i + 1])
    requires WellNamed(env, states[0].correlations) && eventId !in states[0].analyses
    ensures SameButAnalysisOrder(env, states[1], states[k], eventId, listings[0])
  {
    assert EvaluationStep(env, eventId, states[0], listings[0], states[1]);
    if k == 1 {
      FirstEvaluation(env, states[0], eventId, listings[0]);
      Overwritten(states[1].analyses, eventId);
    } else {
      RepeatedEvaluation(env, eventId, states, listings, k - 1);
      assert EvaluationStep(env, eventId, states[k - 1], listings[k - 1], states[k]);
      NextEvaluation(env, eventId, states[1], states[k - 1], states[k], listings[0], listings[k - 1]);
    }
  }

  lemma {:induction false} NextEvaluation(env: Env, eventId: string, once: Db, before: Db, after: Db,
                                          first: seq<string>, rows: seq<string>)
    requires EvaluationStep(env, eventId, before, rows, after)
    requires SameButAnalysisOrder(env, once, before, eventId, first)
    ensures SameButAnalysisOrder(env, once, after, eventId, first)
  {
    OneMoreEvaluation(env, once, before, eventId, first, rows);
  }
}
