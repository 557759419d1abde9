/**
 What every step of the protocol keeps: rows are never deleted, identities never change,
 publication and acknowledgement are never undone, and catalog columns are written once.
 The facts one process relies on are stable under these changes, whoever makes them.
 */
module Growth {
  import opened Common
  import opened Schema
  import opened Evaluation
  import opened Protocol

  // ----------------------------------------------------------- the relation

  ghost predicate RowGrows(r: OutboxRow, r': OutboxRow) {
    r'.envelope == r.envelope && r'.createdAt == r.createdAt && (r.publishedAt.Some? ==> r'.publishedAt.Some?)
  }

  ghost predicate EventGrows(e: Event, e': Event) {
    e' == e.(status := e'.status) && (e.status == Processed ==> e'.status == Processed)
  }

  ghost predicate SceneGrows(x: Scene, x': Scene) {
    && x'.source == x.source && x'.captureTime == x.captureTime && x'.sha256 == x.sha256
    && (x.columns != BLANK_COLUMNS ==> x'.columns == x.columns) && (x.status != Pending ==> x'.status != Pending)
  }

  ghost predicate EntryGrows(e: Entry, e': Entry) {
    && e'.header == e.header && e'.envelope == e.envelope
    && e.delivered <= e'.delivered && (e.acked ==> e'.acked) && e.naks <= e'.naks
  }

  ghost predicate ThreadGrows(t: Thread, t': Thread) {
    t'.job == t.job && (t.pc.Returned? ==> t' == t)
  }

  ghost predicate RowsGrow(m: map<nat, OutboxRow>, m': map<nat, OutboxRow>) {
    forall id | id in m :: id in m' && RowGrows(m[id], m'[id])
  }

  ghost predicate EventsGrow(m: map<string, Event>, m': map<string, Event>) {
    forall id | id in m :: id in m' && EventGrows(m[id], m'[id])
  }

  ghost predicate ScenesGrow(m: map<string, Scene>, m': map<string, Scene>) {
    forall id | id in m :: id in m' && SceneGrows(m[id], m'[id])
  }

  ghost predicate ThreadsGrow(m: map<nat, Thread>, m': map<nat, Thread>) {
    forall t | t in m :: t in m' && ThreadGrows(m[t], m'[t])
  }

  ghost predicate CorrelationsGrow(m: map<string, Correlation>, m': map<string, Correlation>) {
    forall id | id in m :: id in m' && m'[id] == m[id]
  }

  ghost predicate StreamGrows(q: seq<Entry>, q': seq<Entry>) {
    |q| <= |q'| && forall i | 0 <= i < |q| :: EntryGrows(q[i], q'[i])
  }

  ghost predicate DbGrows(db: Db, db': Db) {
    && RowsGrow(db.outbox, db'.outbox) && EventsGrow(db.events, db'.events) && ScenesGrow(db.scenes, db'.scenes)
    && CorrelationsGrow(db.correlations, db'.correlations) && db.analyses.Keys <= db'.analyses.Keys
    && db.attempts <= db'.attempts && db.deadLetters <= db'.deadLetters
  }

  ghost predicate Grows(sh: Shared, sh': Shared) {
    && DbGrows(sh.db, sh'.db) && StreamGrows(sh.stream, sh'.stream) && sh.dlq <= sh'.dlq
    && ThreadsGrow(sh.threads, sh'.threads)
  }

  lemma {:induction false} DbGrowsReflexive(db: Db)
    ensures DbGrows(db, db)
  {
  }

  lemma {:induction false} GrowsReflexive(sh: Shared)
    ensures Grows(sh, sh)
  {
    DbGrowsReflexive(sh.db);
  }

  lemma {:induction false} GrowsTransitive(a: Shared, b: Shared, c: Shared)
    requires Grows(a, b) && Grows(b, c)
    ensures Grows(a, c)
  {
    assert DbGrows(a.db, c.db) by {
      assert RowsGrow(a.db.outbox, c.db.outbox);
      assert EventsGrow(a.db.events, c.db.events);
      assert ScenesGrow(a.db.scenes, c.db.scenes);
    }
    assert StreamGrows(a.stream, c.stream) by {
      forall i | 0 <= i < |a.stream| ensures EntryGrows(a.stream[i], c.stream[i]) {
        assert EntryGrows(a.stream[i], b.stream[i]) && EntryGrows(b.stream[i], c.stream[i]);
        PrefixTransitive(a.stream[i].naks, b.stream[i].naks, c.stream[i].naks);
      }
    }
  }

  lemma {:induction false} PrefixTransitive<T>(xs: seq<T>, ys: seq<T>, zs: seq<T>)
    requires xs <= ys <= zs
    ensures xs <= zs
  {
  }

  // --------------------------------------------------- catalogued content

  /** Some stored bytes with this digest inspect, under the row's declaration, to `raster`. */
  ghost predicate ReadsAs(env: Env, sceneId: string, scene: Scene, raster: Raster) {
    exists bytes :: env.hash(bytes) == scene.sha256
                 && env.inspect(bytes, Some(DeclaredOf(sceneId, scene))) == Some(raster)
  }

  lemma {:induction false} ReadsAsUnique(env: Env, sceneId: string, scene: Scene, a: Raster, b: Raster)
    requires env.CollisionFree() && ReadsAs(env, sceneId, scene, a) && ReadsAs(env, sceneId, scene, b)
    ensures a == b
  {
  }

  /** Catalog columns are empty, or exactly what the bytes of that digest read as. */
  ghost predicate RowCatalogued(env: Env, id: string, scene: Scene) {
    || scene.columns == BLANK_COLUMNS
    || exists raster :: ReadsAs(env, id, scene, raster) && scene.columns == ColumnsOf(id, scene, raster)
  }

  ghost predicate ScenesCatalogued(env: Env, scenes: map<string, Scene>) {
    forall id | id in scenes :: RowCatalogued(env, id, scenes[id])
  }

  ghost predicate JobCatalogued(env: Env, scenes: map<string, Scene>, job: Job) {
    job.CompleteJob? ==> job.sceneId in scenes && ReadsAs(env, job.sceneId, scenes[job.sceneId], job.raster)
  }

  /** A row a session read is an earlier form of the row now in the table. */
  ghost predicate ReadEarlier(scenes: map<string, Scene>, id: string, read: Scene) {
    id in scenes && SceneGrows(read, scenes[id])
  }

  ghost predicate ThreadCatalogued(env: Env, scenes: map<string, Scene>, t: Thread) {
    && JobCatalogued(env, scenes, t.job)
    && match t.pc
       case Loaded(base) => t.job.CompleteJob? && ReadEarlier(scenes, t.job.sceneId, base)
       case Noted(_, seen) => t.job.BuryJob? && (seen.Some? ==> t.job.scene.Some? && ReadEarlier(scenes, t.job.scene.value, seen.value))
       case _ => true
  }

  ghost predicate ThreadsCatalogued(env: Env, scenes: map<string, Scene>, threads: map<nat, Thread>) {
    forall t | t in threads :: ThreadCatalogued(env, scenes, threads[t])
  }

  ghost predicate Catalogued(env: Env, sh: Shared) {
    ScenesCatalogued(env, sh.db.scenes) && ThreadsCatalogued(env, sh.db.scenes, sh.threads)
  }

  lemma {:induction false} ThreadCataloguedStable(env: Env, scenes: map<string, Scene>, scenes': map<string, Scene>, t: Thread)
    requires ScenesGrow(scenes, scenes') && ThreadCatalogued(env, scenes, t)
    ensures ThreadCatalogued(env, scenes', t)
  {
    match t.job
    case CompleteJob(id, _, _) => assert SceneGrows(scenes[id], scenes'[id]);
    case BuryJob(_, Some(id)) => assert id in scenes ==> SceneGrows(scenes[id], scenes'[id]);
    case _ =>
  }

  /** Columns set on blank ones, or set again to what they were, leave the row with the values set. */
  lemma {:induction false} MergedColumns(base: Columns, written: Columns, current: Columns)
    requires written.Complete() && base in {BLANK_COLUMNS, written} && current in {BLANK_COLUMNS, written}
    requires base == written ==> current == written
    ensures MergeColumns(base, written, current) == written
  {
  }

  /** What a completion leaves of the row, whatever happened to it since it was read. */
  lemma {:induction false} CompletedRow(env: Env, id: string, base: Scene, current: Scene, raster: Raster)
    requires env.CollisionFree() && SceneGrows(base, current) && RowCatalogued(env, id, current) && ReadsAs(env, id, current, raster)
    ensures var after := MergeScene(base, CompletedScene(id, base, raster), current);
      && SceneGrows(current, after) && after.columns == ColumnsOf(id, after, raster) && RowCatalogued(env, id, after)
  {
    var written := ColumnsOf(id, base, raster);
    assert written == ColumnsOf(id, current, raster);
    if current.columns != BLANK_COLUMNS {
      var stored :| ReadsAs(env, id, current, stored) && current.columns == ColumnsOf(id, current, stored);
      ReadsAsUnique(env, id, current, stored, raster);
    }
    MergedColumns(base.columns, written, current.columns);
    var after := MergeScene(base, CompletedScene(id, base, raster), current);
    assert ReadsAs(env, id, after, raster);
  }

  lemma {:induction false} CompletedGrows(env: Env, sh: Shared, t: nat)
    requires env.CollisionFree() && Catalogued(env, sh)
    requires t in sh.threads && sh.threads[t].job.CompleteJob? && sh.threads[t].pc.Loaded?
    ensures var job := sh.threads[t].job;
            var after := CommitCompletion(sh.db, job.sceneId, sh.threads[t].pc.base, job.raster);
            && after.Some? && DbGrows(sh.db, after.value) && ScenesCatalogued(env, after.value.scenes)
            && after.value.scenes[job.sceneId].columns != BLANK_COLUMNS
  {
    hide RowsGrow, EventsGrow, CorrelationsGrow, RowCatalogued, ReadsAs, SceneGrows;
    var job, base := sh.threads[t].job, sh.threads[t].pc.base;
    assert ThreadCatalogued(env, sh.db.scenes, sh.threads[t]);
    CompletedRow(env, job.sceneId, base, sh.db.scenes[job.sceneId], job.raster);
    DbGrowsReflexive(sh.db);
    var after := CommitCompletion(sh.db, job.sceneId, base, job.raster).value;
    forall id | id in sh.db.scenes ensures SceneGrows(sh.db.scenes[id], after.scenes[id]) && RowCatalogued(env, id, after.scenes[id]) {
      assert RowCatalogued(env, id, sh.db.scenes[id]) && SceneGrows(sh.db.scenes[id], sh.db.scenes[id]);
    }
  }

  /** What a rejection leaves of the row: columns and identity as they were. */
  lemma {:induction false} RejectedRow(env: Env, id: string, base: Scene, current: Scene, error: string)
    requires SceneGrows(base, current) && RowCatalogued(env, id, current)
    ensures var after := MergeScene(base, RejectedScene(base, error), current);
      && SceneGrows(current, after) && RowCatalogued(env, id, after) && after.columns == current.columns
  {
    var after := MergeScene(base, RejectedScene(base, error), current);
    assert after.columns == current.columns;
    if current.columns != BLANK_COLUMNS {
      var raster :| ReadsAs(env, id, current, raster) && current.columns == ColumnsOf(id, current, raster);
      assert ReadsAs(env, id, after, raster) && after.columns == ColumnsOf(id, after, raster);
    }
  }

  lemma {:induction false} BurialGrows(env: Env, sh: Shared, t: nat)
    requires Catalogued(env, sh) && t in sh.threads && sh.threads[t].job.BuryJob? && sh.threads[t].pc.Noted?
    ensures var x := sh.threads[t];
            var after := CommitBurial(sh.db, x.job.letter, x.pc.sawNone, x.job.scene, x.pc.seen);
            after.Some? ==> DbGrows(sh.db, after.value) && ScenesCatalogued(env, after.value.scenes)
  {
    hide RowsGrow, EventsGrow, CorrelationsGrow, RowCatalogued, SceneGrows;
    var x := sh.threads[t];
    assert ThreadCatalogued(env, sh.db.scenes, x);
    DbGrowsReflexive(sh.db);
    var after := CommitBurial(sh.db, x.job.letter, x.pc.sawNone, x.job.scene, x.pc.seen);
    if after.Some? && x.job.scene.Some? && x.pc.seen.Some? {
      var id := x.job.scene.value;
      RejectedRow(env, id, x.pc.seen.value, sh.db.scenes[id], x.job.letter.error);
      forall k | k in sh.db.scenes
        ensures SceneGrows(sh.db.scenes[k], after.value.scenes[k]) && RowCatalogued(env, k, after.value.scenes[k])
      {
        assert RowCatalogued(env, k, sh.db.scenes[k]) && SceneGrows(sh.db.scenes[k], sh.db.scenes[k]);
      }
    }
  }

  // ------------------------------------------------- every step is growth

  lemma {:induction false} SubmissionGrows(sh: Shared, sh': Shared, x: Submission, x': Submission, m: SubmissionMove)
    requires SubmissionMoves(sh, sh', x, x', m)
    ensures Grows(sh, sh')
  {
  }

  lemma {:induction false} UploadGrows(env: Env, sh: Shared, sh': Shared, x: Upload, x': Upload, m: UploadMove)
    requires UploadMoves(env, sh, sh', x, x', m)
    ensures Grows(sh, sh')
  {
  }

  lemma {:induction false} DispatcherGrows(sh: Shared, sh': Shared, x: Dispatcher, x': Dispatcher, m: DispatcherMove)
    requires DispatcherMoves(sh, sh', x, x', m)
    ensures Grows(sh, sh')
  {
  }

  lemma {:induction false} ThreadMoveGrows(env: Env, sh: Shared, sh': Shared, t: nat, m: ThreadMove)
    requires env.CollisionFree() && ThreadMoves(env, sh, sh', t, m) && Catalogued(env, sh)
    ensures Grows(sh, sh')
  {
    hide DbGrows, CommitEvaluation, Evaluate, IsListing, CommitCompletion, CommitBurial, ScenesCatalogued, Catalogued;
    DbGrowsReflexive(sh.db);
    match m
    case CompleteRow => CompletedGrows(env, sh, t);
    case CommitWrites => CommitGrows(sh.db, sh.threads[t].pc.writes);
    case CommitLetter => BurialGrows(env, sh, t);
    case _ =>
  }

  lemma {:induction false} CommitGrows(db: Db, w: Writes)
    ensures var after := CommitEvaluation(db, w); after.Some? ==> DbGrows(db, after.value)
  {
    hide RowsGrow, ScenesGrow;
    DbGrowsReflexive(db);
  }

  lemma {:induction false} RecordGrows(db: Db, db': Db, rows: seq<Attempt>)
    requires db' == db.(attempts := db.attempts + rows)
    ensures DbGrows(db, db')
  {
  }

  lemma {:induction false} WorkerGrows(env: Env, sh: Shared, sh': Shared, x: Worker, x': Worker, m: WorkerMove)
    requires WorkerMoves(env, sh, sh', x, x', m)
    ensures Grows(sh, sh')
  {
    hide DbGrows;
    DbGrowsReflexive(sh.db);
    if (m.RecordPassed? || m.RecordFailed?) && sh'.db != sh.db {
      RecordGrows(sh.db, sh'.db, [sh'.db.attempts[|sh.db.attempts|]]);
    }
  }
}
