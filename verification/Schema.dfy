/**
 The catalog database: its rows, its constraints, and every transaction that writes it.

 A transaction is a function from the database to `Some` new database, or to `None` when a
 constraint fails at commit and the session rolls back.
 */
module Schema {
  import opened Common

  newtype byte = x: int | 0 <= x < 256
  type Bytes = seq<byte>

  const ALGORITHM_VERSION := "correlator-1.0.0"

  // ---------------------------------------------------------------- values

  datatype Point = Point(longitude: real, latitude: real)
  datatype Box = Box(west: real, south: real, east: real, north: real)

  /** `ST_Covers` of a box: the boundary is included. */
  predicate Covers(box: Box, point: Point) {
    box.west <= point.longitude <= box.east && box.south <= point.latitude <= box.north
  }

  /** What the uploader says about a scene. Instants are in microseconds. */
  datatype Declared = Declared(sceneId: string, source: string, captureTime: int)

  /** What inspection reads out of a stored raster. */
  datatype Raster = Raster(crs: string, bbox: Box, width: int, height: int,
                           resolution: (real, real), capture: string)

  datatype StacItem = StacItem(id: string, bbox: Box, ring: seq<Point>, datetime: string, source: string,
                               epsg: Option<string>, shape: (int, int), href: string, checksum: string)

  function Ring(box: Box): seq<Point> {
    [Point(box.west, box.south), Point(box.east, box.south), Point(box.east, box.north),
     Point(box.west, box.north), Point(box.west, box.south)]
  }

  function StacItemOf(sceneId: string, source: string, digest: string, raster: Raster): StacItem {
    StacItem(sceneId, raster.bbox, Ring(raster.bbox), raster.capture, source,
             if "EPSG:" <= raster.crs then Some(raster.crs[5..]) else None,
             (raster.height, raster.width),
             "s3://scenes/" + ObjectName(digest), "1220" + digest)
  }

  /** Objects are named by their content digest. */
  function ObjectName(digest: string): string {
    "sha256/" + digest[..Min(2, |digest|)] + "/" + digest + ".tif"
  }

  /** The name of a digest of 64 characters, character by character. */
  lemma {:induction false} ObjectNameIs(digest: string, i: nat)
    requires |digest| == 64 && i < 64
    ensures var name := ObjectName(digest);
      && |name| == 78 && name[..7] == "sha256/" && name[7] == digest[0] && name[8] == digest[1] && name[9] == '/'
      && name[10 + i] == digest[i] && name[74..] == ".tif"
  {
    var name := ObjectName(digest);
    var head := "sha256/" + digest[..2] + "/";
    assert name == head + digest + ".tif" && |head| == 10;
    assert name[..7] == "sha256/";
  }

  /** Different digests name different objects. */
  lemma {:induction false} ObjectNameInjective(a: string, b: string)
    requires |a| >= 2 && |b| >= 2 && ObjectName(a) == ObjectName(b)
    ensures a == b
  {
    var n, m := ObjectName(a), ObjectName(b);
    assert n == ("sha256/" + a[..2] + "/") + a + ".tif";
    assert n[10..|n| - 4] == a;
    assert m == ("sha256/" + b[..2] + "/") + b + ".tif";
    assert m[10..|m| - 4] == b;
  }

  // ------------------------------------------------------------------ rows

  /** The columns the imagery worker fills in; all empty until it does. */
  datatype Columns = Columns(crs: Option<string>, bbox: Option<Box>, footprint: Option<Box>,
                             width: Option<int>, height: Option<int>,
                             resolution: Option<(real, real)>, stacItem: Option<StacItem>)
  {
    predicate Blank() {
      crs.None? && bbox.None? && footprint.None? && width.None? && height.None? && resolution.None? && stacItem.None?
    }

    predicate Complete() {
      crs.Some? && bbox.Some? && footprint.Some? && width.Some? && height.Some? && resolution.Some? && stacItem.Some?
    }
  }

  const BLANK_COLUMNS := Columns(None, None, None, None, None, None, None)

  datatype SceneStatus = Pending | Accepted | Rejected
  datatype Scene = Scene(source: string, captureTime: int, sha256: string, columns: Columns,
                         status: SceneStatus, error: Option<string>)

  datatype EventStatus = Received | Processed
  datatype Event = Event(key: string, payloadHash: string, observedAt: int, location: Point, status: EventStatus)

  /** The two subjects, each with its own durable worker. */
  datatype Lane = Imagery | Telemetry

  /** The message a transaction leaves in the outbox; `detail` is the payload hash or scene digest. */
  datatype Envelope = Envelope(messageId: nat, lane: Lane, aggregateId: string, occurredAt: int, detail: string)

  datatype OutboxRow = OutboxRow(envelope: Envelope, createdAt: int, attempts: nat,
                                 publishedAt: Option<int>, lastError: Option<string>)

  /** Status of a correlation, and, with `NoScenes`, of an analysis; in order of precedence. */
  datatype Verdict = NoScenes | SpatialNonMatch | TemporalNonMatch | Matched

  datatype Correlation = Correlation(sceneId: string, eventId: string, spatialMatch: bool, delta: nat,
                                     verdict: Verdict, algorithm: string, sceneSha256: string)

  datatype Analysis = Analysis(status: Verdict, evaluated: nat, matched: seq<string>, verdicts: seq<Verdict>,
                               sceneDigests: map<string, string>, payloadHash: string)

  datatype Attempt = Attempt(messageId: nat, service: Lane, attempt: nat, passed: bool, error: Option<string>)

  datatype DeadLetter = DeadLetter(messageId: nat, service: Lane, error: string, attempts: nat)

  datatype Db = Db(scenes: map<string, Scene>, events: map<string, Event>, outbox: map<nat, OutboxRow>,
                   correlations: map<string, Correlation>, analyses: map<string, Analysis>,
                   attempts: seq<Attempt>, deadLetters: seq<DeadLetter>)

  const EMPTY_DB := Db(map[], map[], map[], map[], map[], [], [])

  // ---------------------------------------------------------- environment

  /** What the model does not look into: SHA-256, raster inspection, correlation ids, and two settings. */
  datatype Env = Env(hash: Bytes -> string,
                     inspect: (Bytes, Option<Declared>) -> Option<Raster>,
                     correlationId: (string, string) -> string,
                     window: nat, maxAttempts: nat)
  {
    /** SHA-256 taken as collision free. */
    ghost predicate CollisionFree() {
      forall a, b | hash(a) == hash(b) :: a == b
    }
  }

  // --------------------------------------------------------- transactions

  datatype NewEvent = NewEvent(eventId: string, key: string, payloadHash: string, observedAt: int, location: Point)

  predicate KeyTaken(db: Db, key: string) {
    exists id :: id in db.events && db.events[id].key == key
  }

  predicate DigestTaken(db: Db, digest: string) {
    exists id :: id in db.scenes && db.scenes[id].sha256 == digest
  }

  function FreshRow(envelope: Envelope): OutboxRow {
    OutboxRow(envelope, envelope.occurredAt, 0, None, None)
  }

  /** `_persist_event`: the record and its outbox row, or neither. */
  function PersistEvent(db: Db, e: NewEvent, messageId: nat, now: int): Option<Db>
  {
    if e.eventId in db.events || KeyTaken(db, e.key) || messageId in db.outbox then None
    else Some(db.(
      events := db.events[e.eventId := Event(e.key, e.payloadHash, e.observedAt, e.location, Received)],
      outbox := db.outbox[messageId := FreshRow(Envelope(messageId, Telemetry, e.eventId, now, e.payloadHash))]))
  }

  /** `_persist_scene`: the pending scene and its outbox row, or neither. */
  function PersistScene(db: Db, d: Declared, digest: string, messageId: nat, now: int): Option<Db>
  {
    if d.sceneId in db.scenes || DigestTaken(db, digest) || messageId in db.outbox then None
    else Some(db.(
      scenes := db.scenes[d.sceneId := Scene(d.source, d.captureTime, digest, BLANK_COLUMNS, Pending, None)],
      outbox := db.outbox[messageId := FreshRow(Envelope(messageId, Imagery, d.sceneId, now, digest))]))
  }

  /** One new outbox row, pending and untried; every other row as it was. */
  ghost predicate RowAdded(before: map<nat, OutboxRow>, after: map<nat, OutboxRow>, messageId: nat, lane: Lane,
                           aggregateId: string, now: int, detail: string)
  {
    && messageId !in before && after.Keys == before.Keys + {messageId}
    && (forall id | id in before :: after[id] == before[id])
    && var row := after[messageId];
    && row.envelope.messageId == messageId && row.envelope.lane == lane && row.envelope.aggregateId == aggregateId
    && row.envelope.occurredAt == row.createdAt == now && row.envelope.detail == detail
    && row.attempts == 0 && row.publishedAt.None? && row.lastError.None?
  }

  /** What a committed `_persist_event` leaves: the submission's own record, one outbox row, and nothing else new. */
  ghost predicate EventAdded(before: Db, after: Db, e: NewEvent, messageId: nat, now: int) {
    && e.eventId !in before.events && after.events.Keys == before.events.Keys + {e.eventId}
    && (forall id | id in before.events :: after.events[id] == before.events[id] && before.events[id].key != e.key)
    && (var record := after.events[e.eventId];
        && record.key == e.key && record.payloadHash == e.payloadHash && record.status == Received
        && record.observedAt == e.observedAt && record.location == e.location)
    && RowAdded(before.outbox, after.outbox, messageId, Telemetry, e.eventId, now, e.payloadHash)
    && after.scenes == before.scenes && after.correlations == before.correlations && after.analyses == before.analyses
    && after.attempts == before.attempts && after.deadLetters == before.deadLetters
  }

  /** What a committed `_persist_scene` leaves: the declared scene, pending and blank, one outbox row, and nothing else new. */
  ghost predicate SceneAdded(before: Db, after: Db, d: Declared, digest: string, messageId: nat, now: int) {
    && d.sceneId !in before.scenes && after.scenes.Keys == before.scenes.Keys + {d.sceneId}
    && (forall id | id in before.scenes :: after.scenes[id] == before.scenes[id] && before.scenes[id].sha256 != digest)
    && (var row := after.scenes[d.sceneId];
        && row.source == d.source && row.captureTime == d.captureTime && row.sha256 == digest
        && row.status == Pending && row.columns.Blank() && row.error.None?)
    && RowAdded(before.outbox, after.outbox, messageId, Imagery, d.sceneId, now, digest)
    && after.events == before.events && after.correlations == before.correlations && after.analyses == before.analyses
    && after.attempts == before.attempts && after.deadLetters == before.deadLetters
  }

  /** It commits exactly when the id, the key and the message id are unused. */
  lemma {:induction false} EventPersisted(db: Db, e: NewEvent, messageId: nat, now: int)
    ensures var after := PersistEvent(db, e, messageId, now);
      && (after.None? <==> e.eventId in db.events || messageId in db.outbox || exists id :: id in db.events && db.events[id].key == e.key)
      && (after.Some? ==> EventAdded(db, after.value, e, messageId, now))
  {
  }

  /** It commits exactly when the id, the digest and the message id are unused. */
  lemma {:induction false} ScenePersisted(db: Db, d: Declared, digest: string, messageId: nat, now: int)
    ensures var after := PersistScene(db, d, digest, messageId, now);
      && (after.None? <==> d.sceneId in db.scenes || messageId in db.outbox || exists id :: id in db.scenes && db.scenes[id].sha256 == digest)
      && (after.Some? ==> SceneAdded(db, after.value, d, digest, messageId, now))
  {
  }

  function MarkRowPublished(row: OutboxRow, now: int): OutboxRow {
    row.(publishedAt := Some(now), lastError := None)
  }

  function MarkRowFailed(row: OutboxRow, error: string): OutboxRow {
    row.(attempts := row.attempts + 1, lastError := Some(error))
  }

  /** A row after a successful publish: marked, its error cleared, nothing else changed. */
  predicate IsMarked(before: OutboxRow, after: OutboxRow, now: int) {
    && after.envelope == before.envelope && after.createdAt == before.createdAt && after.attempts == before.attempts
    && after.publishedAt == Some(now) && after.lastError.None?
  }

  /** A row after a failed publish: one more attempt and an error, still as unpublished or published as it was. */
  predicate IsNoted(before: OutboxRow, after: OutboxRow, error: string) {
    && after.envelope == before.envelope && after.createdAt == before.createdAt && after.attempts == before.attempts + 1
    && after.publishedAt == before.publishedAt && after.lastError == Some(error)
  }

  predicate OnlyRowChanged(before: Db, after: Db, id: nat) {
    && after == before.(outbox := after.outbox) && after.outbox.Keys == before.outbox.Keys
    && forall other | other in before.outbox && other != id :: after.outbox[other] == before.outbox[other]
  }

  /** `mark_published` and `mark_failed` change the one row, if it is there, in just these columns. */
  lemma {:induction false} MarksTell(db: Db, id: nat, now: int, error: string)
    ensures OnlyRowChanged(db, MarkPublished(db, id, now), id)
    ensures id in db.outbox ==> IsMarked(db.outbox[id], MarkPublished(db, id, now).outbox[id], now)
    ensures OnlyRowChanged(db, MarkFailed(db, id, error), id)
    ensures id in db.outbox ==> IsNoted(db.outbox[id], MarkFailed(db, id, error).outbox[id], error)
  {
  }

  function MarkPublished(db: Db, id: nat, now: int): Db {
    if id in db.outbox then db.(outbox := db.outbox[id := MarkRowPublished(db.outbox[id], now)]) else db
  }

  function MarkFailed(db: Db, id: nat, error: string): Db {
    if id in db.outbox then db.(outbox := db.outbox[id := MarkRowFailed(db.outbox[id], error)]) else db
  }

  function ColumnsOf(sceneId: string, scene: Scene, raster: Raster): Columns {
    Columns(Some(raster.crs), Some(raster.bbox), Some(raster.bbox), Some(raster.width), Some(raster.height),
            Some(raster.resolution), Some(StacItemOf(sceneId, scene.source, scene.sha256, raster)))
  }

  // Sessions that change a row they read: the commit writes only the columns they changed.

  function MergeColumn<T(==)>(base: T, written: T, current: T): T {
    if written == base then current else written
  }

  function MergeColumns(base: Columns, written: Columns, current: Columns): Columns {
    Columns(MergeColumn(base.crs, written.crs, current.crs), MergeColumn(base.bbox, written.bbox, current.bbox),
            MergeColumn(base.footprint, written.footprint, current.footprint),
            MergeColumn(base.width, written.width, current.width), MergeColumn(base.height, written.height, current.height),
            MergeColumn(base.resolution, written.resolution, current.resolution),
            MergeColumn(base.stacItem, written.stacItem, current.stacItem))
  }

  function MergeScene(base: Scene, written: Scene, current: Scene): Scene {
    current.(columns := MergeColumns(base.columns, written.columns, current.columns),
             status := MergeColumn(base.status, written.status, current.status),
             error := MergeColumn(base.error, written.error, current.error))
  }

  /** A commit leaves each column as its session set it, except where the session set what it had read. */
  ghost predicate Merges(base: Scene, written: Scene, current: Scene, after: Scene) {
    && after.source == current.source && after.captureTime == current.captureTime && after.sha256 == current.sha256
    && (written.status != base.status ==> after.status == written.status)
    && (written.status == base.status ==> after.status == current.status)
    && (written.error != base.error ==> after.error == written.error)
    && (written.error == base.error ==> after.error == current.error)
  }

  lemma {:induction false} MergeTells(base: Scene, written: Scene, current: Scene)
    ensures Merges(base, written, current, MergeScene(base, written, current))
  {
  }

  /** The row as a completion sets it. */
  function CompletedScene(sceneId: string, scene: Scene, raster: Raster): Scene {
    scene.(columns := ColumnsOf(sceneId, scene, raster), status := Accepted, error := None)
  }

  /** The row as a rejection sets it. */
  function RejectedScene(scene: Scene, error: string): Scene {
    scene.(status := Rejected, error := Some(error))
  }

  /** The commit of `_complete_scene`, on the row its session read. */
  function CommitCompletion(db: Db, sceneId: string, base: Scene, raster: Raster): Option<Db> {
    if sceneId !in db.scenes then None
    else Some(db.(scenes := db.scenes[sceneId := MergeScene(base, CompletedScene(sceneId, base, raster), db.scenes[sceneId])]))
  }

  /** `_complete_scene` undisturbed; the digest it was handed is the one read from this row. */
  function CompleteScene(db: Db, sceneId: string, raster: Raster): Option<Db> {
    if sceneId !in db.scenes then None
    else Some(db.(scenes := db.scenes[sceneId := CompletedScene(sceneId, db.scenes[sceneId], raster)]))
  }

  /** A completion that nothing overlaps commits the row as it set it. */
  lemma {:induction false} UndisturbedCompletion(db: Db, sceneId: string, raster: Raster)
    requires sceneId in db.scenes
    ensures CommitCompletion(db, sceneId, db.scenes[sceneId], raster) == CompleteScene(db, sceneId, raster)
  {
    MergedAlone(db.scenes[sceneId], CompletedScene(sceneId, db.scenes[sceneId], raster));
  }

  lemma {:induction false} MergedAlone(base: Scene, written: Scene)
    requires written == base.(columns := written.columns, status := written.status, error := written.error)
    ensures MergeScene(base, written, base) == written
  {
    assert MergeColumns(base.columns, written.columns, base.columns) == written.columns;
  }

  function RecordAttempt(db: Db, row: Attempt): Db {
    db.(attempts := db.attempts + [row])
  }

  predicate DeadLettered(db: Db, messageId: nat, service: Lane) {
    exists row :: row in db.deadLetters && row.messageId == messageId && row.service == service
  }

  /**
   The commit of `_record_dead_letter`. `sawNone` is what its own SELECT saw, and `base` the
   scene row it read. Another session may have inserted the letter since, and then the unique
   constraint fails and the whole transaction, the scene's rejection included, is rolled back.
   */
  function CommitBurial(db: Db, row: DeadLetter, sawNone: bool, sceneId: Option<string>, base: Option<Scene>): Option<Db>
  {
    if sawNone && DeadLettered(db, row.messageId, row.service) then None
    else
      var db' := if sawNone then db.(deadLetters := db.deadLetters + [row]) else db;
      if sceneId.Some? && base.Some? && sceneId.value in db.scenes then
        Some(db'.(scenes := db.scenes[sceneId.value :=
          MergeScene(base.value, RejectedScene(base.value, row.error), db.scenes[sceneId.value])]))
      else Some(db')
  }

  function SceneRead(db: Db, sceneId: Option<string>): Option<Scene> {
    if sceneId.Some? && sceneId.value in db.scenes then Some(db.scenes[sceneId.value]) else None
  }

  /** `_record_dead_letter` undisturbed. */
  function RecordDeadLetter(db: Db, row: DeadLetter, sawNone: bool, sceneId: Option<string>): Option<Db>
  {
    if sawNone && DeadLettered(db, row.messageId, row.service) then None
    else
      var db' := if sawNone then db.(deadLetters := db.deadLetters + [row]) else db;
      if sceneId.Some? && sceneId.value in db.scenes then
        Some(db'.(scenes := db.scenes[sceneId.value := RejectedScene(db.scenes[sceneId.value], row.error)]))
      else Some(db')
  }

  /** A burial that nothing overlaps commits the rejection as it set it. */
  lemma {:induction false} UndisturbedBurial(db: Db, row: DeadLetter, sawNone: bool, sceneId: Option<string>)
    ensures CommitBurial(db, row, sawNone, sceneId, SceneRead(db, sceneId)) == RecordDeadLetter(db, row, sawNone, sceneId)
  {
    if sceneId.Some? && sceneId.value in db.scenes {
      MergedAlone(db.scenes[sceneId.value], RejectedScene(db.scenes[sceneId.value], row.error));
    }
  }
}
