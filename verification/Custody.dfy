/**
 Nothing accepted is silently lost: from its commit on, every event and every scene is in
 the custody of its outbox row, of an unacknowledged stream message, of its result, or of
 a dead-letter copy; and no message leaves the stream's custody for less.
 */
module Custody {
  import opened Common
  import opened Schema
  import opened Evaluation
  import opened Protocol
  import opened Growth

  // ------------------------------------------------------ the ledger (db)

  ghost predicate Known(db: Db, envelope: Envelope) {
    match envelope.lane
    case Telemetry => envelope.aggregateId in db.events
    case Imagery => envelope.aggregateId in db.scenes
  }

  ghost predicate RowsNamed(db: Db) {
    forall id | id in db.outbox :: db.outbox[id].envelope.messageId == id && Known(db, db.outbox[id].envelope)
  }

  ghost predicate IsRowOf(db: Db, id: nat, lane: Lane, aggregateId: string) {
    id in db.outbox && db.outbox[id].envelope.lane == lane && db.outbox[id].envelope.aggregateId == aggregateId
  }

  ghost predicate RowsUnique(db: Db) {
    forall id, id', lane, a | IsRowOf(db, id, lane, a) && IsRowOf(db, id', lane, a) :: id == id'
  }

  ghost predicate HasRow(db: Db, lane: Lane, aggregateId: string) {
    exists id :: IsRowOf(db, id, lane, aggregateId)
  }

  ghost predicate AllListed(db: Db) {
    && (forall e | e in db.events :: HasRow(db, Telemetry, e))
    && (forall x | x in db.scenes :: HasRow(db, Imagery, x))
  }

  /** Exactly one outbox row for every event and every scene, and none for anything else. */
  ghost predicate Ledger(db: Db) {
    RowsNamed(db) && RowsUnique(db) && AllListed(db)
  }

  /** The same rows, as far as the ledger looks. */
  ghost predicate SameLedger(db: Db, db': Db) {
    && db'.events.Keys == db.events.Keys && db'.scenes.Keys == db.scenes.Keys && db'.outbox.Keys == db.outbox.Keys
    && forall id | id in db.outbox :: db'.outbox[id].envelope == db.outbox[id].envelope
  }

  lemma {:induction false} LedgerFrame(db: Db, db': Db)
    requires Ledger(db) && SameLedger(db, db')
    ensures Ledger(db')
  {
    forall id, lane, a ensures IsRowOf(db', id, lane, a) <==> IsRowOf(db, id, lane, a) {
    }
    forall lane, a | HasRow(db, lane, a) ensures HasRow(db', lane, a) {
      var id :| IsRowOf(db, id, lane, a);
      assert IsRowOf(db', id, lane, a);
    }
  }

  lemma {:induction false} RowsStayUnique(db: Db, db': Db, id: nat, lane: Lane, a: string)
    requires Ledger(db) && id !in db.outbox && db'.outbox.Keys == db.outbox.Keys + {id}
    requires forall k | k in db.outbox :: db'.outbox[k] == db.outbox[k]
    requires db'.outbox[id].envelope.messageId == id && IsRowOf(db', id, lane, a)
    requires db'.events.Keys == db.events.Keys + (if lane == Telemetry then {a} else {})
    requires db'.scenes.Keys == db.scenes.Keys + (if lane == Imagery then {a} else {})
    requires if lane == Telemetry then a !in db.events else a !in db.scenes
    ensures RowsNamed(db') && RowsUnique(db')
  {
    hide HasRow;
    assert RowsNamed(db');
    forall k, k', lane', b | IsRowOf(db', k, lane', b) && IsRowOf(db', k', lane', b) ensures k == k' {
      if k != id {
        assert IsRowOf(db, k, lane', b) && Known(db, db.outbox[k].envelope);
      }
      if k' != id {
        assert IsRowOf(db, k', lane', b) && Known(db, db.outbox[k'].envelope);
      }
    }
  }

  lemma {:induction false} ListingGrows(db: Db, db': Db, id: nat, lane: Lane, a: string)
    requires Ledger(db) && id !in db.outbox && db'.outbox.Keys == db.outbox.Keys + {id}
    requires forall k | k in db.outbox :: db'.outbox[k] == db.outbox[k]
    requires db'.outbox[id].envelope.messageId == id && IsRowOf(db', id, lane, a)
    requires db'.events.Keys == db.events.Keys + (if lane == Telemetry then {a} else {})
    requires db'.scenes.Keys == db.scenes.Keys + (if lane == Imagery then {a} else {})
    requires if lane == Telemetry then a !in db.events else a !in db.scenes
    ensures AllListed(db')
  {
    hide RowsUnique, RowsNamed;
    forall lane', b | HasRow(db, lane', b) ensures HasRow(db', lane', b) {
      var k :| IsRowOf(db, k, lane', b);
      assert IsRowOf(db', k, lane', b);
    }
    assert HasRow(db', lane, a);
  }

  lemma {:induction false} LedgerGrows(db: Db, db': Db, id: nat, lane: Lane, a: string)
    requires Ledger(db) && id !in db.outbox && db'.outbox.Keys == db.outbox.Keys + {id}
    requires forall k | k in db.outbox :: db'.outbox[k] == db.outbox[k]
    requires db'.outbox[id].envelope.messageId == id && IsRowOf(db', id, lane, a)
    requires db'.events.Keys == db.events.Keys + (if lane == Telemetry then {a} else {})
    requires db'.scenes.Keys == db.scenes.Keys + (if lane == Imagery then {a} else {})
    requires if lane == Telemetry then a !in db.events else a !in db.scenes
    ensures Ledger(db')
  {
    hide RowsUnique, RowsNamed, AllListed;
    RowsStayUnique(db, db', id, lane, a);
    ListingGrows(db, db', id, lane, a);
  }

  lemma {:induction false} LedgerPersistEvent(db: Db, e: NewEvent, messageId: nat, now: int)
    requires Ledger(db)
    ensures var after := PersistEvent(db, e, messageId, now); after.Some? ==> Ledger(after.value)
  {
    var after := PersistEvent(db, e, messageId, now);
    if after.Some? {
      LedgerGrows(db, after.value, messageId, Telemetry, e.eventId);
    }
  }

  lemma {:induction false} LedgerPersistScene(db: Db, d: Declared, digest: string, messageId: nat, now: int)
    requires Ledger(db)
    ensures var after := PersistScene(db, d, digest, messageId, now); after.Some? ==> Ledger(after.value)
  {
    var after := PersistScene(db, d, digest, messageId, now);
    if after.Some? {
      LedgerGrows(db, after.value, messageId, Imagery, d.sceneId);
    }
  }

  // ----------------------------------------------- messages and their rows

  /** The outbox still holds, unchanged, the row this message was made from. */
  ghost predicate FromOutbox(db: Db, envelope: Envelope) {
    envelope.messageId in db.outbox && db.outbox[envelope.messageId].envelope == envelope
  }

  ghost predicate EntryFromOutbox(db: Db, entry: Entry) {
    FromOutbox(db, entry.envelope) && (entry.header.RowId? ==> entry.header.id == entry.envelope.messageId)
  }

  ghost predicate StreamFromOutbox(db: Db, stream: seq<Entry>) {
    forall i | 0 <= i < |stream| :: EntryFromOutbox(db, stream[i])
  }

  /** A row is only ever marked once its message is on the stream. */
  ghost predicate PublishedOnStream(db: Db, stream: seq<Entry>) {
    forall id | id in db.outbox && db.outbox[id].publishedAt.Some? :: HasHeader(stream, RowId(id))
  }

  ghost predicate DlqFromOutbox(env: Env, db: Db, dlq: seq<Copy>) {
    forall c | c in dlq :: FromOutbox(db, c.envelope) && c.attempt >= env.maxAttempts
  }

  // -------------------------------------------------------------- outcomes

  /** The work a message asks for has been committed. */
  ghost predicate Done(db: Db, envelope: Envelope) {
    match envelope.lane
    case Telemetry => envelope.aggregateId in db.analyses
    case Imagery => envelope.aggregateId in db.scenes && db.scenes[envelope.aggregateId].columns != BLANK_COLUMNS
  }

  ghost predicate PassRecorded(db: Db, messageId: nat, service: Lane) {
    exists row :: row in db.attempts && row.messageId == messageId && row.service == service && row.passed
  }

  /** What an acknowledgement may rest on. */
  ghost predicate Settled(sh: Shared, envelope: Envelope) {
    || (Done(sh.db, envelope) && PassRecorded(sh.db, envelope.messageId, envelope.lane))
    || InDlq(sh.dlq, envelope.messageId)
  }

  ghost predicate AcksSettled(sh: Shared) {
    forall i | 0 <= i < |sh.stream| && sh.stream[i].acked :: Settled(sh, sh.stream[i].envelope)
  }

  ghost predicate JobDone(db: Db, job: Job) {
    match job
    case EvaluateJob(e) => e in db.analyses
    case CompleteJob(x, _, _) => x in db.scenes && db.scenes[x].columns != BLANK_COLUMNS
    case BuryJob(_, _) => true
  }

  ghost predicate ThreadOk(db: Db, t: Thread) {
    && (t.pc.Ready? ==> t.job == EvaluateJob(t.pc.writes.eventId))
    && (t.pc == Returned(true) ==> JobDone(db, t.job))
  }

  ghost predicate ThreadsOk(sh: Shared) {
    forall t | t in sh.threads :: ThreadOk(sh.db, sh.threads[t])
  }

  ghost predicate SharedInv(env: Env, sh: Shared) {
    && Ledger(sh.db) && StreamFromOutbox(sh.db, sh.stream) && PublishedOnStream(sh.db, sh.stream)
    && DlqFromOutbox(env, sh.db, sh.dlq) && Catalogued(env, sh) && ThreadsOk(sh) && AcksSettled(sh)
  }

  // --------------------------------------------------- what processes know

  ghost predicate DispatcherOk(sh: Shared, x: Dispatcher) {
    !x.Idle? ==>
      && (forall k | 0 <= k < |x.batch| :: x.batch[k].envelope.messageId == x.batch[k].id && FromOutbox(sh.db, x.batch[k].envelope))
      && (x.Marking? && x.batch != [] ==> HasHeader(sh.stream, RowId(x.batch[0].id)))
  }

  ghost predicate JobFor(job: Job, envelope: Envelope) {
    match envelope.lane
    case Telemetry => job == EvaluateJob(envelope.aggregateId)
    case Imagery => job.CompleteJob? && job.sceneId == envelope.aggregateId
  }

  ghost predicate WorkerOk(env: Env, sh: Shared, x: Worker) {
    !x.pc.Polling? ==>
      && x.pc.delivery.index < |sh.stream|
      && var entry := sh.stream[x.pc.delivery.index];
      && entry.envelope.lane == x.lane && 1 <= x.pc.delivery.attempt <= entry.delivered
      && match x.pc
         case Located(_, declared, digest) =>
           && x.lane == Imagery
           && declared.sceneId == entry.envelope.aggregateId && declared.sceneId in sh.db.scenes
           && declared == DeclaredOf(declared.sceneId, sh.db.scenes[declared.sceneId])
           && digest == sh.db.scenes[declared.sceneId].sha256
         case Running(_, t) => t in sh.threads && JobFor(sh.threads[t].job, entry.envelope)
         case Succeeded(_) => Done(sh.db, entry.envelope)
         case Acking(_) => Done(sh.db, entry.envelope) && PassRecorded(sh.db, entry.envelope.messageId, x.lane)
         case Copying(d) => d.attempt >= env.maxAttempts
         case Burying(d) => d.attempt >= env.maxAttempts && InDlq(sh.dlq, entry.envelope.messageId)
         case Interring(d) => d.attempt >= env.maxAttempts && InDlq(sh.dlq, entry.envelope.messageId)
         case Closing(d) => d.attempt >= env.maxAttempts && InDlq(sh.dlq, entry.envelope.messageId)
         case Declining(d) => d.attempt < env.maxAttempts
         case _ => true
  }

  ghost predicate Inv(env: Env, s: State) {
    && SharedInv(env, s.sh)
    && (forall p | p in s.dispatchers :: DispatcherOk(s.sh, s.dispatchers[p]))
    && (forall p | p in s.workers :: WorkerOk(env, s.sh, s.workers[p]))
  }

  // --------------------------------------------------- stability under growth

  lemma {:induction false} FromOutboxStable(db: Db, db': Db, envelope: Envelope)
    requires DbGrows(db, db') && FromOutbox(db, envelope)
    ensures FromOutbox(db', envelope)
  {
    assert RowGrows(db.outbox[envelope.messageId], db'.outbox[envelope.messageId]);
  }

  lemma {:induction false} HasHeaderStable(q: seq<Entry>, q': seq<Entry>, header: Header)
    requires StreamGrows(q, q') && HasHeader(q, header)
    ensures HasHeader(q', header)
  {
    var i :| 0 <= i < |q| && q[i].header == header;
    assert EntryGrows(q[i], q'[i]);
  }

  lemma {:induction false} InDlqStable(q: seq<Copy>, q': seq<Copy>, messageId: nat)
    requires q <= q' && InDlq(q, messageId)
    ensures InDlq(q', messageId)
  {
    var c :| c in q && c.envelope.messageId == messageId;
    assert c in q';
  }

  lemma {:induction false} PassRecordedStable(db: Db, db': Db, messageId: nat, service: Lane)
    requires DbGrows(db, db') && PassRecorded(db, messageId, service)
    ensures PassRecorded(db', messageId, service)
  {
    var row :| row in db.attempts && row.messageId == messageId && row.service == service && row.passed;
    assert row in db'.attempts;
  }

  lemma {:induction false} DoneStable(db: Db, db': Db, envelope: Envelope)
    requires DbGrows(db, db') && Done(db, envelope)
    ensures Done(db', envelope)
  {
    if envelope.lane == Imagery {
      assert SceneGrows(db.scenes[envelope.aggregateId], db'.scenes[envelope.aggregateId]);
    }
  }

  lemma {:induction false} SettledStable(sh: Shared, sh': Shared, envelope: Envelope)
    requires Grows(sh, sh') && Settled(sh, envelope)
    ensures Settled(sh', envelope)
  {
    if InDlq(sh.dlq, envelope.messageId) {
      InDlqStable(sh.dlq, sh'.dlq, envelope.messageId);
    } else {
      DoneStable(sh.db, sh'.db, envelope);
      PassRecordedStable(sh.db, sh'.db, envelope.messageId, envelope.lane);
    }
  }

  lemma {:induction false} ThreadOkStable(db: Db, db': Db, t: Thread)
    requires DbGrows(db, db') && ThreadOk(db, t)
    ensures ThreadOk(db', t)
  {
    if t.pc == Returned(true) && t.job.CompleteJob? {
      assert SceneGrows(db.scenes[t.job.sceneId], db'.scenes[t.job.sceneId]);
    }
  }

  lemma {:induction false} DispatcherOkStable(sh: Shared, sh': Shared, x: Dispatcher)
    requires Grows(sh, sh') && DispatcherOk(sh, x)
    ensures DispatcherOk(sh', x)
  {
    if !x.Idle? {
      forall k | 0 <= k < |x.batch| ensures FromOutbox(sh'.db, x.batch[k].envelope) {
        FromOutboxStable(sh.db, sh'.db, x.batch[k].envelope);
      }
      if x.Marking? && x.batch != [] {
        HasHeaderStable(sh.stream, sh'.stream, RowId(x.batch[0].id));
      }
    }
  }

  lemma {:induction false} WorkerOkStable(env: Env, sh: Shared, sh': Shared, x: Worker)
    requires Grows(sh, sh') && WorkerOk(env, sh, x)
    ensures WorkerOk(env, sh', x)
  {
    if !x.pc.Polling? {
      var envelope := sh.stream[x.pc.delivery.index].envelope;
      assert EntryGrows(sh.stream[x.pc.delivery.index], sh'.stream[x.pc.delivery.index]);
      match x.pc
      case Located(_, declared, _) =>
        assert SceneGrows(sh.db.scenes[declared.sceneId], sh'.db.scenes[declared.sceneId]);
      case Running(_, t) =>
        assert ThreadGrows(sh.threads[t], sh'.threads[t]);
      case Succeeded(_) =>
        DoneStable(sh.db, sh'.db, envelope);
      case Acking(_) =>
        DoneStable(sh.db, sh'.db, envelope);
        PassRecordedStable(sh.db, sh'.db, envelope.messageId, x.lane);
      case Burying(_) =>
        InDlqStable(sh.dlq, sh'.dlq, envelope.messageId);
      case Interring(_) =>
        InDlqStable(sh.dlq, sh'.dlq, envelope.messageId);
      case Closing(_) =>
        InDlqStable(sh.dlq, sh'.dlq, envelope.messageId);
      case _ =>
    }
  }

  // ------------------------------------------------------ what a step adds

  /** Everything new in `sh'` has what the invariant asks of it. */
  ghost predicate Justified(env: Env, sh: Shared, sh': Shared) {
    && Ledger(sh'.db) && ScenesCatalogued(env, sh'.db.scenes)
    && (forall i | |sh.stream| <= i < |sh'.stream| :: EntryFromOutbox(sh'.db, sh'.stream[i]) && !sh'.stream[i].acked)
    && (forall i | 0 <= i < |sh.stream| && i < |sh'.stream| && sh'.stream[i].acked ::
          sh.stream[i].acked || Settled(sh', sh'.stream[i].envelope))
    && (forall id | id in sh'.db.outbox && sh'.db.outbox[id].publishedAt.Some? ::
          (id in sh.db.outbox && sh.db.outbox[id].publishedAt.Some?) || HasHeader(sh'.stream, RowId(id)))
    && (forall k | |sh.dlq| <= k < |sh'.dlq| :: FromOutbox(sh'.db, sh'.dlq[k].envelope) && sh'.dlq[k].attempt >= env.maxAttempts)
    && (forall t | t in sh'.threads && (t !in sh.threads || sh'.threads[t] != sh.threads[t]) ::
          ThreadOk(sh'.db, sh'.threads[t]) && ThreadCatalogued(env, sh'.db.scenes, sh'.threads[t]))
  }

  lemma {:induction false} MessagesKept(env: Env, sh: Shared, sh': Shared)
    requires SharedInv(env, sh) && Grows(sh, sh') && Justified(env, sh, sh')
    ensures StreamFromOutbox(sh'.db, sh'.stream) && PublishedOnStream(sh'.db, sh'.stream)
    ensures DlqFromOutbox(env, sh'.db, sh'.dlq)
  {
    forall i | 0 <= i < |sh.stream| ensures EntryFromOutbox(sh'.db, sh'.stream[i]) {
      assert EntryGrows(sh.stream[i], sh'.stream[i]) && EntryFromOutbox(sh.db, sh.stream[i]);
      FromOutboxStable(sh.db, sh'.db, sh.stream[i].envelope);
    }
    forall id | id in sh.db.outbox && sh.db.outbox[id].publishedAt.Some? ensures HasHeader(sh'.stream, RowId(id)) {
      HasHeaderStable(sh.stream, sh'.stream, RowId(id));
    }
    forall c | c in sh'.dlq ensures FromOutbox(sh'.db, c.envelope) && c.attempt >= env.maxAttempts {
      var k :| 0 <= k < |sh'.dlq| && sh'.dlq[k] == c;
      if k < |sh.dlq| {
        assert sh.dlq[k] in sh.dlq;
        FromOutboxStable(sh.db, sh'.db, c.envelope);
      }
    }
  }

  lemma {:induction false} ThreadsKept(env: Env, sh: Shared, sh': Shared)
    requires SharedInv(env, sh) && Grows(sh, sh') && Justified(env, sh, sh')
    ensures ThreadsOk(sh') && Catalogued(env, sh')
  {
    forall t | t in sh'.threads
      ensures ThreadOk(sh'.db, sh'.threads[t]) && ThreadCatalogued(env, sh'.db.scenes, sh'.threads[t])
    {
      if t in sh.threads && sh'.threads[t] == sh.threads[t] {
        assert ThreadOk(sh.db, sh.threads[t]) && ThreadCatalogued(env, sh.db.scenes, sh.threads[t]);
        ThreadOkStable(sh.db, sh'.db, sh.threads[t]);
        ThreadCataloguedStable(env, sh.db.scenes, sh'.db.scenes, sh.threads[t]);
      }
    }
  }

  lemma {:induction false} AcksKept(env: Env, sh: Shared, sh': Shared)
    requires SharedInv(env, sh) && Grows(sh, sh') && Justified(env, sh, sh')
    ensures AcksSettled(sh')
  {
    forall i | 0 <= i < |sh'.stream| && sh'.stream[i].acked ensures Settled(sh', sh'.stream[i].envelope) {
      if i < |sh.stream| && sh.stream[i].acked {
        assert EntryGrows(sh.stream[i], sh'.stream[i]);
        SettledStable(sh, sh', sh.stream[i].envelope);
      }
    }
  }

  lemma {:induction false} SharedKept(env: Env, sh: Shared, sh': Shared)
    requires SharedInv(env, sh) && Grows(sh, sh') && Justified(env, sh, sh')
    ensures SharedInv(env, sh')
  {
    MessagesKept(env, sh, sh');
    ThreadsKept(env, sh, sh');
    AcksKept(env, sh, sh');
  }

  // ----------------------------------------------------------- each mover

  lemma {:induction false} SubmissionJustified(env: Env, sh: Shared, sh': Shared, x: Submission, x': Submission, m: SubmissionMove)
    requires SharedInv(env, sh) && SubmissionMoves(sh, sh', x, x', m)
    ensures Justified(env, sh, sh')
  {
    if m.InsertEvent? {
      LedgerPersistEvent(sh.db, x.event, x.messageId, m.now);
    }
  }

  lemma {:induction false} UploadJustified(env: Env, sh: Shared, sh': Shared, x: Upload, x': Upload, m: UploadMove)
    requires SharedInv(env, sh) && UploadMoves(env, sh, sh', x, x', m)
    ensures Justified(env, sh, sh')
  {
    if m.InsertScene? {
      LedgerPersistScene(sh.db, x.declared, env.hash(x.bytes), x.messageId, m.now);
    }
  }

  lemma {:induction false} PublishJustified(env: Env, sh: Shared, sh': Shared, x: Dispatcher, x': Dispatcher, m: DispatcherMove)
    requires SharedInv(env, sh) && DispatcherOk(sh, x) && DispatcherMoves(sh, sh', x, x', m)
    requires m.PublishRow? || m.ReadBatch?
    ensures Justified(env, sh, sh') && DispatcherOk(sh', x')
  {
    if m.PublishRow? {
      assert FromOutbox(sh.db, x.batch[0].envelope);
      if m.stored {
        assert sh'.stream[|sh.stream|].header == RowId(x.batch[0].id);
      }
    } else {
      assert RowsNamed(sh.db);
    }
  }

  lemma {:induction false} MarkJustified(env: Env, sh: Shared, sh': Shared, x: Dispatcher, x': Dispatcher, m: DispatcherMove)
    requires SharedInv(env, sh) && DispatcherOk(sh, x) && DispatcherMoves(sh, sh', x, x', m)
    requires !m.PublishRow? && !m.ReadBatch?
    ensures Justified(env, sh, sh')
  {
    hide Ledger, ScenesCatalogued, ThreadsCatalogued, ThreadsOk, DlqFromOutbox, StreamFromOutbox, AcksSettled;
    if sh' != sh {
      LedgerFrame(sh.db, sh'.db);
    }
  }

  lemma {:induction false} DispatcherJustified(env: Env, sh: Shared, sh': Shared, x: Dispatcher, x': Dispatcher, m: DispatcherMove)
    requires SharedInv(env, sh) && DispatcherOk(sh, x) && DispatcherMoves(sh, sh', x, x', m)
    ensures Justified(env, sh, sh') && DispatcherOk(sh', x')
  {
    if m.PublishRow? || m.ReadBatch? {
      PublishJustified(env, sh, sh', x, x', m);
    } else {
      MarkJustified(env, sh, sh', x, x', m);
      DispatcherGrows(sh, sh', x, x', m);
      DispatcherOkStable(sh, sh', x);
    }
  }

  /** What a completion leaves as it was. */
  lemma {:induction false} CompletionFrame(env: Env, sh: Shared, sh': Shared, t: nat, m: ThreadMove)
    requires ThreadMoves(env, sh, sh', t, m) && m.CompleteRow?
    ensures SameLedger(sh.db, sh'.db) && sh'.db.outbox == sh.db.outbox && sh'.stream == sh.stream && sh'.dlq == sh.dlq
    ensures t in sh.threads && sh.threads[t].job.CompleteJob? && sh.threads[t].pc.Loaded?
    ensures sh'.threads == sh.threads[t := sh.threads[t].(pc := Returned(true))]
    ensures CommitCompletion(sh.db, sh.threads[t].job.sceneId, sh.threads[t].pc.base, sh.threads[t].job.raster) == Some(sh'.db)
  {
    hide MergeScene;
  }

  lemma {:induction false} CompletionJustified(env: Env, sh: Shared, sh': Shared, t: nat, m: ThreadMove)
    requires env.CollisionFree() && SharedInv(env, sh) && ThreadMoves(env, sh, sh', t, m) && m.CompleteRow?
    ensures Justified(env, sh, sh')
  {
    hide ScenesCatalogued, ThreadsOk, PublishedOnStream, AcksSettled, StreamFromOutbox, DlqFromOutbox, SceneGrows,
      ThreadMoves, Ledger, SameLedger, CommitCompletion, JobCatalogued;
    CompletionFrame(env, sh, sh', t, m);
    assert ThreadCatalogued(env, sh.db.scenes, sh.threads[t]);
    CompletedGrows(env, sh, t);
    ThreadCataloguedStable(env, sh.db.scenes, sh'.db.scenes, sh.threads[t]);
    LedgerFrame(sh.db, sh'.db);
  }

  lemma {:induction false} EvaluationJustified(env: Env, sh: Shared, sh': Shared, t: nat, m: ThreadMove)
    requires env.CollisionFree() && SharedInv(env, sh) && ThreadMoves(env, sh, sh', t, m) && m.CommitWrites?
    ensures Justified(env, sh, sh')
  {
    hide ScenesCatalogued, PublishedOnStream, AcksSettled, StreamFromOutbox, DlqFromOutbox, Ledger;
    assert ThreadOk(sh.db, sh.threads[t]) && ThreadCatalogued(env, sh.db.scenes, sh.threads[t]);
    LedgerFrame(sh.db, sh'.db);
  }

  lemma {:induction false} BurialKeepsLedger(db: Db, row: DeadLetter, sawNone: bool, sceneId: Option<string>, seen: Option<Scene>)
    requires Ledger(db)
    ensures var after := CommitBurial(db, row, sawNone, sceneId, seen);
            after.Some? ==> Ledger(after.value) && after.value.outbox == db.outbox
  {
    hide Ledger;
    var after := CommitBurial(db, row, sawNone, sceneId, seen);
    if after.Some? {
      LedgerFrame(db, after.value);
    }
  }

  lemma {:induction false} BurialJustified(env: Env, sh: Shared, sh': Shared, t: nat, m: ThreadMove)
    requires env.CollisionFree() && SharedInv(env, sh) && ThreadMoves(env, sh, sh', t, m) && m.CommitLetter?
    ensures Justified(env, sh, sh')
  {
    hide ScenesCatalogued, ThreadsOk, PublishedOnStream, AcksSettled, StreamFromOutbox, DlqFromOutbox, SceneGrows, Ledger, CommitBurial;
    var x := sh.threads[t];
    assert ThreadCatalogued(env, sh.db.scenes, x);
    BurialGrows(env, sh, t);
    ThreadCataloguedStable(env, sh.db.scenes, sh'.db.scenes, x);
    BurialKeepsLedger(sh.db, x.job.letter, x.pc.sawNone, x.job.scene, x.pc.seen);
  }

  lemma {:induction false} SilentThreadJustified(env: Env, sh: Shared, sh': Shared, t: nat, m: ThreadMove)
    requires env.CollisionFree() && SharedInv(env, sh) && ThreadMoves(env, sh, sh', t, m)
    requires m.ReadFacts? || m.LoadRow? || m.ReadLetter? || m.AbortThread?
    ensures Justified(env, sh, sh')
  {
    hide Ledger, ScenesCatalogued, PublishedOnStream, AcksSettled, StreamFromOutbox, DlqFromOutbox, IsListing;
    hide CommitEvaluation, CommitCompletion, CommitBurial, Inserts, AnalysisOf, BaseOf, ThreadsOk;
    assert ThreadCatalogued(env, sh.db.scenes, sh.threads[t]);
  }

  lemma {:induction false} ThreadJustified(env: Env, sh: Shared, sh': Shared, t: nat, m: ThreadMove)
    requires env.CollisionFree() && SharedInv(env, sh) && ThreadMoves(env, sh, sh', t, m)
    ensures Justified(env, sh, sh')
  {
    hide ThreadMoves, Justified, SharedInv;
    match m
    case CompleteRow => CompletionJustified(env, sh, sh', t, m);
    case CommitWrites => EvaluationJustified(env, sh, sh', t, m);
    case CommitLetter => BurialJustified(env, sh, sh', t, m);
    case _ => SilentThreadJustified(env, sh, sh', t, m);
  }

  lemma {:induction false} SilentWorkerJustified(env: Env, sh: Shared, sh': Shared, x: Worker, x': Worker, m: WorkerMove)
    requires env.CollisionFree() && SharedInv(env, sh) && WorkerOk(env, sh, x) && WorkerMoves(env, sh, sh', x, x', m)
    requires m.LocateScene? || m.FailBeforeThread? || m.Join? || m.TimeOut? || m.Decide? || m.LeaveBurial? || m.LoseWorker?
    ensures Justified(env, sh, sh') && WorkerOk(env, sh', x')
  {
    hide Ledger, ScenesCatalogued, PublishedOnStream, AcksSettled, StreamFromOutbox, DlqFromOutbox;
    if m.Join? {
      assert ThreadOk(sh.db, sh.threads[x.pc.thread]);
    }
  }

  lemma {:induction false} ConsumerJustified(env: Env, sh: Shared, sh': Shared, x: Worker, x': Worker, m: WorkerMove)
    requires env.CollisionFree() && SharedInv(env, sh) && WorkerOk(env, sh, x) && WorkerMoves(env, sh, sh', x, x', m)
    requires m.Deliver? || m.Acknowledge? || m.Close? || m.Decline?
    ensures Justified(env, sh, sh') && WorkerOk(env, sh', x')
  {
    hide Ledger, ScenesCatalogued, Done, PassRecorded, InDlq, StreamFromOutbox, PublishedOnStream, DlqFromOutbox, ThreadsOk, ThreadsCatalogued;
  }

  lemma {:induction false} SpawnJustified(env: Env, sh: Shared, sh': Shared, x: Worker, x': Worker, m: WorkerMove)
    requires env.CollisionFree() && SharedInv(env, sh) && WorkerOk(env, sh, x) && WorkerMoves(env, sh, sh', x, x', m)
    requires m.StartEvaluation? || m.FetchAndComplete? || m.StartBurial?
    ensures Justified(env, sh, sh') && WorkerOk(env, sh', x')
  {
    hide Ledger, ScenesCatalogued, PublishedOnStream, AcksSettled, StreamFromOutbox, DlqFromOutbox;
  }

  lemma {:induction false} RecordJustified(env: Env, sh: Shared, sh': Shared, x: Worker, x': Worker, m: WorkerMove)
    requires env.CollisionFree() && SharedInv(env, sh) && WorkerOk(env, sh, x) && WorkerMoves(env, sh, sh', x, x', m)
    requires m.RecordPassed? || m.RecordFailed?
    ensures Justified(env, sh, sh') && WorkerOk(env, sh', x')
  {
    if sh' != sh {
      LedgerFrame(sh.db, sh'.db);
      assert sh'.db.attempts[|sh.db.attempts|] in sh'.db.attempts;
    }
  }

  lemma {:induction false} CopyJustified(env: Env, sh: Shared, sh': Shared, x: Worker, x': Worker, m: WorkerMove)
    requires env.CollisionFree() && SharedInv(env, sh) && WorkerOk(env, sh, x) && WorkerMoves(env, sh, sh', x, x', m)
    requires m.CopyToDlq?
    ensures Justified(env, sh, sh') && WorkerOk(env, sh', x')
  {
    hide Ledger, ScenesCatalogued, ThreadsCatalogued, ThreadsOk, PublishedOnStream, AcksSettled;
    var envelope := sh.stream[x.pc.delivery.index].envelope;
    assert EntryFromOutbox(sh.db, sh.stream[x.pc.delivery.index]);
    if m.stored {
      assert sh'.dlq[|sh.dlq|] in sh'.dlq;
    }
  }

  lemma {:induction false} WorkerJustified(env: Env, sh: Shared, sh': Shared, x: Worker, x': Worker, m: WorkerMove)
    requires env.CollisionFree() && SharedInv(env, sh) && WorkerOk(env, sh, x) && WorkerMoves(env, sh, sh', x, x', m)
    ensures Justified(env, sh, sh') && WorkerOk(env, sh', x')
  {
    hide WorkerMoves, Justified, WorkerOk, SharedInv;
    match m
    case Deliver(_) => ConsumerJustified(env, sh, sh', x, x', m);
    case Acknowledge(_, _) => ConsumerJustified(env, sh, sh', x, x', m);
    case Close(_) => ConsumerJustified(env, sh, sh', x, x', m);
    case Decline => ConsumerJustified(env, sh, sh', x, x', m);
    case StartEvaluation(_) => SpawnJustified(env, sh, sh', x, x', m);
    case FetchAndComplete(_) => SpawnJustified(env, sh, sh', x, x', m);
    case RecordPassed(_) => RecordJustified(env, sh, sh', x, x', m);
    case RecordFailed(_, _) => RecordJustified(env, sh, sh', x, x', m);
    case CopyToDlq(_, _) => CopyJustified(env, sh, sh', x, x', m);
    case StartBurial(_, _) => SpawnJustified(env, sh, sh', x, x', m);
    case _ => SilentWorkerJustified(env, sh, sh', x, x', m);
  }

  // ------------------------------------------------------------------ runs

  lemma {:induction false} StepGrows(env: Env, s: State, s': State, step: Step)
    requires env.CollisionFree() && Inv(env, s) && Next(env, s, s', step)
    ensures Grows(s.sh, s'.sh)
  {
    hide SubmissionMoves, UploadMoves, DispatcherMoves, ThreadMoves, WorkerMoves, Ledger, StreamFromOutbox;
    match step
    case BySubmission(p, m) => SubmissionGrows(s.sh, s'.sh, s.submissions[p], s'.submissions[p], m);
    case ByUpload(p, m) => UploadGrows(env, s.sh, s'.sh, s.uploads[p], s'.uploads[p], m);
    case ByDispatcher(p, m) => DispatcherGrows(s.sh, s'.sh, s.dispatchers[p], s'.dispatchers[p], m);
    case ByThread(p, m) => ThreadMoveGrows(env, s.sh, s'.sh, p, m);
    case ByWorker(p, m) => WorkerGrows(env, s.sh, s'.sh, s.workers[p], s'.workers[p], m);
    case _ => DbGrowsReflexive(s.sh.db);
  }

  lemma {:induction false} StepJustified(env: Env, s: State, s': State, step: Step)
    requires env.CollisionFree() && Inv(env, s) && Next(env, s, s', step)
    ensures Justified(env, s.sh, s'.sh)
  {
    hide SubmissionMoves, UploadMoves, DispatcherMoves, ThreadMoves, WorkerMoves, DispatcherOk, WorkerOk;
    match step
    case BySubmission(p, m) => SubmissionJustified(env, s.sh, s'.sh, s.submissions[p], s'.submissions[p], m);
    case ByUpload(p, m) => UploadJustified(env, s.sh, s'.sh, s.uploads[p], s'.uploads[p], m);
    case ByDispatcher(p, m) => DispatcherJustified(env, s.sh, s'.sh, s.dispatchers[p], s'.dispatchers[p], m);
    case ByThread(p, m) => ThreadJustified(env, s.sh, s'.sh, p, m);
    case ByWorker(p, m) => WorkerJustified(env, s.sh, s'.sh, s.workers[p], s'.workers[p], m);
    case DuplicateEvent(id, tag) => assert RowsNamed(s.sh.db);
    case _ =>
  }

  lemma {:induction false} StepDispatchers(env: Env, s: State, s': State, step: Step)
    requires env.CollisionFree() && Inv(env, s) && Next(env, s, s', step) && Grows(s.sh, s'.sh)
    ensures forall p | p in s'.dispatchers :: DispatcherOk(s'.sh, s'.dispatchers[p])
  {
    forall p | p in s'.dispatchers ensures DispatcherOk(s'.sh, s'.dispatchers[p]) {
      if step.ByDispatcher? && step.p == p {
        DispatcherJustified(env, s.sh, s'.sh, s.dispatchers[p], s'.dispatchers[p], step.dispatcherMove);
      } else if p in s.dispatchers {
        assert s'.dispatchers[p] == s.dispatchers[p];
        DispatcherOkStable(s.sh, s'.sh, s.dispatchers[p]);
      }
    }
  }

  lemma {:induction false} StepWorkers(env: Env, s: State, s': State, step: Step)
    requires env.CollisionFree() && Inv(env, s) && Next(env, s, s', step) && Grows(s.sh, s'.sh)
    ensures forall p | p in s'.workers :: WorkerOk(env, s'.sh, s'.workers[p])
  {
    forall p | p in s'.workers ensures WorkerOk(env, s'.sh, s'.workers[p]) {
      if step.ByWorker? && step.p == p {
        WorkerJustified(env, s.sh, s'.sh, s.workers[p], s'.workers[p], step.workerMove);
      } else if p in s.workers {
        assert s'.workers[p] == s.workers[p];
        WorkerOkStable(env, s.sh, s'.sh, s.workers[p]);
      }
    }
  }

  lemma {:induction false} StepInv(env: Env, s: State, s': State, step: Step)
    requires env.CollisionFree() && Inv(env, s) && Next(env, s, s', step)
    ensures Inv(env, s') && Grows(s.sh, s'.sh)
  {
    StepGrows(env, s, s', step);
    StepJustified(env, s, s', step);
    SharedKept(env, s.sh, s'.sh);
    StepDispatchers(env, s, s', step);
    StepWorkers(env, s, s', step);
  }

  /** The invariant holds in every reachable state. */
  lemma {:induction false} RunInv(env: Env, run: seq<State>, steps: seq<Step>, i: nat)
    requires env.CollisionFree() && IsRun(env, run, steps) && i < |run|
    ensures Inv(env, run[i])
  {
    if i > 0 {
      RunInv(env, run, steps, i - 1);
      assert StepAt(env, run, steps, i - 1);
      StepInv(env, run[i - 1], run[i], steps[i - 1]);
    }
  }

  lemma {:induction false} RunStepGrows(env: Env, run: seq<State>, steps: seq<Step>, i: nat)
    requires env.CollisionFree() && IsRun(env, run, steps) && i < |steps|
    ensures Grows(run[i].sh, run[i + 1].sh)
  {
    RunInv(env, run, steps, i);
    assert StepAt(env, run, steps, i);
    StepInv(env, run[i], run[i + 1], steps[i]);
  }

  /** Over any stretch of a run the shared state only grows. */
  lemma {:induction false} RunGrows(env: Env, run: seq<State>, steps: seq<Step>, i: nat, j: nat)
    requires env.CollisionFree() && IsRun(env, run, steps) && i <= j < |run|
    ensures Grows(run[i].sh, run[j].sh)
  {
    if i == j {
      GrowsReflexive(run[i].sh);
    } else {
      RunGrows(env, run, steps, i, j - 1);
      RunStepGrows(env, run, steps, j - 1);
      GrowsTransitive(run[i].sh, run[j - 1].sh, run[j].sh);
    }
  }

  // -------------------------------------------------------------- theorems

  ghost predicate UnackedOnStream(sh: Shared, envelope: Envelope) {
    exists i :: 0 <= i < |sh.stream| && sh.stream[i].envelope == envelope && !sh.stream[i].acked
  }

  ghost predicate InDlqWhole(sh: Shared, envelope: Envelope) {
    exists c :: c in sh.dlq && c.envelope == envelope
  }

  /** Who has custody of the work a row announces. */
  ghost predicate InCustody(sh: Shared, id: nat)
    requires id in sh.db.outbox
  {
    var row := sh.db.outbox[id];
    || row.publishedAt.None?
    || UnackedOnStream(sh, row.envelope)
    || Done(sh.db, row.envelope)
    || InDlqWhole(sh, row.envelope)
  }

  lemma {:induction false} RowInCustody(env: Env, sh: Shared, id: nat)
    requires SharedInv(env, sh) && id in sh.db.outbox
    ensures InCustody(sh, id)
  {
    var row := sh.db.outbox[id];
    if row.publishedAt.Some? {
      var i :| 0 <= i < |sh.stream| && sh.stream[i].header == RowId(id);
      assert EntryFromOutbox(sh.db, sh.stream[i]);
      assert sh.stream[i].envelope == row.envelope;
      if sh.stream[i].acked {
        assert Settled(sh, row.envelope);
        if InDlq(sh.dlq, row.envelope.messageId) {
          var c :| c in sh.dlq && c.envelope.messageId == row.envelope.messageId;
          assert FromOutbox(sh.db, c.envelope) && RowsNamed(sh.db);
          assert c.envelope == row.envelope;
        }
      }
    }
  }

  /**
   No silent loss. At every moment of every run, a committed event has exactly one outbox
   row, and that row is still unpublished, or its message is on the stream unacknowledged,
   or the event has its analysis, or the dead-letter stream holds the same payload.
   */
  lemma {:induction false} NoSilentLoss(env: Env, run: seq<State>, steps: seq<Step>, i: nat, eventId: string)
    requires env.CollisionFree() && IsRun(env, run, steps) && i < |run| && eventId in run[i].sh.db.events
    ensures exists id :: IsRowOf(run[i].sh.db, id, Telemetry, eventId) && InCustody(run[i].sh, id)
    ensures forall id, id' | IsRowOf(run[i].sh.db, id, Telemetry, eventId)
                          && IsRowOf(run[i].sh.db, id', Telemetry, eventId) :: id == id'
  {
    RunInv(env, run, steps, i);
    assert HasRow(run[i].sh.db, Telemetry, eventId);
    var id :| IsRowOf(run[i].sh.db, id, Telemetry, eventId);
    RowInCustody(env, run[i].sh, id);
  }

  /** The same for scenes, whose result is their catalog columns. */
  lemma {:induction false} NoSceneLost(env: Env, run: seq<State>, steps: seq<Step>, i: nat, sceneId: string)
    requires env.CollisionFree() && IsRun(env, run, steps) && i < |run| && sceneId in run[i].sh.db.scenes
    ensures exists id :: IsRowOf(run[i].sh.db, id, Imagery, sceneId) && InCustody(run[i].sh, id)
    ensures forall id, id' | IsRowOf(run[i].sh.db, id, Imagery, sceneId)
                          && IsRowOf(run[i].sh.db, id', Imagery, sceneId) :: id == id'
  {
    RunInv(env, run, steps, i);
    assert HasRow(run[i].sh.db, Imagery, sceneId);
    var id :| IsRowOf(run[i].sh.db, id, Imagery, sceneId);
    RowInCustody(env, run[i].sh, id);
  }

  /** Publication is never undone, and from then on the message is on the stream with its row's payload. */
  lemma {:induction false} PublishedStaysPublished(env: Env, run: seq<State>, steps: seq<Step>, i: nat, j: nat, id: nat)
    requires env.CollisionFree() && IsRun(env, run, steps) && i <= j < |run|
    requires id in run[i].sh.db.outbox && run[i].sh.db.outbox[id].publishedAt.Some?
    ensures id in run[j].sh.db.outbox && run[j].sh.db.outbox[id].publishedAt.Some?
    ensures exists k :: 0 <= k < |run[j].sh.stream| && run[j].sh.stream[k].header == RowId(id)
                     && run[j].sh.stream[k].envelope == run[i].sh.db.outbox[id].envelope
  {
    RunGrows(env, run, steps, i, j);
    RunInv(env, run, steps, j);
    var sh, sh' := run[i].sh, run[j].sh;
    assert RowGrows(sh.db.outbox[id], sh'.db.outbox[id]);
    var k :| 0 <= k < |sh'.stream| && sh'.stream[k].header == RowId(id);
    assert EntryFromOutbox(sh'.db, sh'.stream[k]);
  }

  /**
   Ack discipline. An acknowledged message has had its work committed and a passed attempt
   recorded for it, or the dead-letter stream holds the same payload, put there by a
   delivery that had used up every attempt.
   */
  lemma {:induction false} AckDiscipline(env: Env, run: seq<State>, steps: seq<Step>, i: nat, k: nat)
    requires env.CollisionFree() && IsRun(env, run, steps) && i < |run|
    requires k < |run[i].sh.stream| && run[i].sh.stream[k].acked
    ensures var sh, envelope := run[i].sh, run[i].sh.stream[k].envelope;
      || (Done(sh.db, envelope) && PassRecorded(sh.db, envelope.messageId, envelope.lane))
      || exists c :: c in sh.dlq && c.envelope == envelope && c.attempt >= env.maxAttempts
  {
    RunInv(env, run, steps, i);
    var sh, envelope := run[i].sh, run[i].sh.stream[k].envelope;
    assert Settled(sh, envelope) && EntryFromOutbox(sh.db, sh.stream[k]);
    if InDlq(sh.dlq, envelope.messageId) {
      var c :| c in sh.dlq && c.envelope.messageId == envelope.messageId;
      assert FromOutbox(sh.db, c.envelope);
    }
  }
}
