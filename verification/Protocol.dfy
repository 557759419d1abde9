/**
 The delivery protocol as a step system: event submissions, scene uploads, outbox
 dispatchers, the two durable workers, and the database threads they start.

 Everything that can interleave is a separate step: each transaction, each broker or
 store operation, each control decision. Every step that leaves the process may fail, with
 or without having taken effect; any process may be lost between two steps; and a worker
 that times out leaves its thread running, free to commit later.
 */
module Protocol {
  import opened Common
  import opened Schema
  import opened Evaluation

  // --------------------------------------------------------- shared state

  /** Deduplication ids: an outbox row's own, or one made up by the duplicate-event fault. */
  datatype Header = RowId(id: nat) | FaultId(tag: nat)

  /** A stream message with the state of its one durable consumer. */
  datatype Entry = Entry(header: Header, envelope: Envelope, delivered: nat, acked: bool, naks: seq<nat>)

  /** A dead-letter stream message, deduplicated by the id of the message it copies. */
  datatype Copy = Copy(envelope: Envelope, attempt: nat)

  datatype Job =
    | EvaluateJob(eventId: string)
    | CompleteJob(sceneId: string, digest: string, raster: Raster)
    | BuryJob(letter: DeadLetter, scene: Option<string>)

  /** Between its reads and its commit a session holds what it read. */
  datatype ThreadPc =
    | Begun
    | Ready(writes: Writes)
    | Loaded(base: Scene)
    | Noted(sawNone: bool, seen: Option<Scene>)
    | Returned(ok: bool)

  /** A database call running in its own thread; nothing stops it but its own end. */
  datatype Thread = Thread(job: Job, pc: ThreadPc)

  datatype Shared = Shared(db: Db, objects: map<string, Bytes>, stream: seq<Entry>, dlq: seq<Copy>,
                           threads: map<nat, Thread>)

  // ------------------------------------------------------------ processes

  datatype Reply = Accepted202 | Replayed200 | IdConflict409 | KeyConflict409 | Invalid422 | Failed500

  datatype SubmissionPc = Looking | Persisting | Publishing | Answered(reply: Reply) | Lost

  /** One POST of a valid event; `inserted` remembers whether its own transaction committed. */
  datatype Submission = Submission(event: NewEvent, messageId: nat, inserted: bool, pc: SubmissionPc)

  datatype UploadPc = Checking | Putting | Storing | Compensating | Announcing | Replied(reply: Reply) | Dropped

  /** One POST of a readable raster. */
  datatype Upload = Upload(declared: Declared, bytes: Bytes, messageId: nat, inserted: bool, pc: UploadPc)

  datatype Item = Item(id: nat, envelope: Envelope)

  /** One run of `publish_pending`; the head of the batch is the row being handled. */
  datatype Dispatcher =
    | Idle
    | Sending(batch: seq<Item>)
    | Marking(batch: seq<Item>)
    | Noting(batch: seq<Item>)

  /** Stream position and delivery count, as the message's metadata show them. */
  datatype Delivery = Delivery(index: nat, attempt: nat)

  datatype WorkerPc =
    | Polling
    | Started(delivery: Delivery)
    | Located(delivery: Delivery, declared: Declared, digest: string)
    | Running(delivery: Delivery, thread: nat)
    | Succeeded(delivery: Delivery)
    | Acking(delivery: Delivery)
    | Failing(delivery: Delivery)
    | Deciding(delivery: Delivery)
    | Copying(delivery: Delivery)
    | Burying(delivery: Delivery)
    | Interring(delivery: Delivery)
    | Closing(delivery: Delivery)
    | Declining(delivery: Delivery)

  datatype Worker = Worker(lane: Lane, pc: WorkerPc)

  datatype State = State(sh: Shared, submissions: map<nat, Submission>, uploads: map<nat, Upload>,
                         dispatchers: map<nat, Dispatcher>, workers: map<nat, Worker>)

  // ----------------------------------------------------- event submissions

  ghost function KeyHolder(db: Db, key: string): (holder: Option<string>)
    ensures holder.Some? <==> KeyTaken(db, key)
    ensures holder.Some? ==> holder.value in db.events && db.events[holder.value].key == key
  {
    if KeyTaken(db, key) then
      var id :| id in db.events && db.events[id].key == key;
      Some(id)
    else None
  }

  /** The decision table of `ingest_event`, on what `_existing_events` returned. */
  ghost function DecideEvent(db: Db, e: NewEvent): SubmissionPc {
    var byId := if e.eventId in db.events then Some(e.eventId) else None;
    var byKey := KeyHolder(db, e.key);
    if byId.Some? && byKey.Some? && byId == byKey && db.events[e.eventId].payloadHash == e.payloadHash
    then Answered(Replayed200)
    else if byKey.Some? then Answered(KeyConflict409)
    else if byId.Some? then Answered(IdConflict409)
    else Persisting
  }

  datatype SubmissionMove = LookUpEvent | InsertEvent(now: int) | InsertEventFails | AnswerEvent | LoseSubmission

  ghost predicate SubmissionMoves(sh: Shared, sh': Shared, x: Submission, x': Submission, m: SubmissionMove) {
    match m
    case LookUpEvent => x.pc == Looking && sh' == sh && x' == x.(pc := DecideEvent(sh.db, x.event))
    case InsertEvent(now) =>
      var committed := PersistEvent(sh.db, x.event, x.messageId, now);
      && x.pc == Persisting && committed.Some?
      && sh' == sh.(db := committed.value) && x' == x.(inserted := true, pc := Publishing)
    case InsertEventFails => x.pc == Persisting && sh' == sh && x' == x.(pc := Answered(Failed500))
    case AnswerEvent => x.pc == Publishing && sh' == sh && x' == x.(pc := Answered(Accepted202))
    case LoseSubmission => !x.pc.Answered? && sh' == sh && x' == x.(pc := Lost)
  }

  // --------------------------------------------------------- scene uploads

  /** The decisions of `ingest_scene` up to the first effect. */
  ghost function DecideScene(env: Env, db: Db, u: Upload): UploadPc {
    var id, digest := u.declared.sceneId, env.hash(u.bytes);
    if id in db.scenes && db.scenes[id].sha256 != digest then Replied(IdConflict409)
    else if id in db.scenes || DigestTaken(db, digest) then Replied(Replayed200)
    else if env.inspect(u.bytes, Some(u.declared)).None? then Replied(Invalid422)
    else Putting
  }

  datatype UploadMove = LookUpScene | PutObject(stored: bool, ok: bool) | InsertScene(now: int) | InsertSceneFails
                      | Compensate(removed: bool) | AnswerScene | LoseUpload

  ghost predicate UploadMoves(env: Env, sh: Shared, sh': Shared, x: Upload, x': Upload, m: UploadMove) {
    var digest := env.hash(x.bytes);
    match m
    case LookUpScene => x.pc == Checking && sh' == sh && x' == x.(pc := DecideScene(env, sh.db, x))
    case PutObject(stored, ok) =>
      && x.pc == Putting && (ok ==> stored)
      && sh' == (if stored then sh.(objects := sh.objects[digest := x.bytes]) else sh)
      && x' == x.(pc := if ok then Storing else Replied(Failed500))
    case InsertScene(now) =>
      var committed := PersistScene(sh.db, x.declared, digest, x.messageId, now);
      && x.pc == Storing && committed.Some?
      && sh' == sh.(db := committed.value) && x' == x.(inserted := true, pc := Announcing)
    case InsertSceneFails => x.pc == Storing && sh' == sh && x' == x.(pc := Compensating)
    case Compensate(removed) =>
      && x.pc == Compensating
      && sh' == (if removed then sh.(objects := sh.objects - {digest}) else sh)
      && x' == x.(pc := Replied(Failed500))
    case AnswerScene => x.pc == Announcing && sh' == sh && x' == x.(pc := Replied(Accepted202))
    case LoseUpload => !x.pc.Replied? && sh' == sh && x' == x.(pc := Dropped)
  }

  // ----------------------------------------------------------- dispatchers

  const BATCH_LIMIT := 25

  predicate Pending(db: Db, id: nat) {
    id in db.outbox && db.outbox[id].publishedAt.None?
  }

  /** What `pending_outbox` may return: the oldest unpublished rows, oldest first, up to the limit. */
  ghost predicate IsPendingBatch(db: Db, batch: seq<Item>, limit: nat) {
    && |batch| <= limit
    && (forall k | 0 <= k < |batch| :: Pending(db, batch[k].id) && batch[k].envelope == db.outbox[batch[k].id].envelope)
    && (forall j, k | 0 <= j < k < |batch| ::
          batch[j].id != batch[k].id && db.outbox[batch[j].id].createdAt <= db.outbox[batch[k].id].createdAt)
    && (forall id | Pending(db, id) && (forall k | 0 <= k < |batch| :: batch[k].id != id) ::
          |batch| == limit && forall k | 0 <= k < |batch| :: db.outbox[batch[k].id].createdAt <= db.outbox[id].createdAt)
  }

  datatype DispatcherMove = ReadBatch(batch: seq<Item>) | PublishRow(stored: bool, ok: bool)
                          | MarkRow(now: int) | MarkRowFails | NoteFailure(error: string) | LoseDispatcher

  ghost predicate HasHeader(stream: seq<Entry>, header: Header) {
    exists i :: 0 <= i < |stream| && stream[i].header == header
  }

  ghost predicate DispatcherMoves(sh: Shared, sh': Shared, x: Dispatcher, x': Dispatcher, m: DispatcherMove) {
    match m
    case ReadBatch(batch) => x.Idle? && IsPendingBatch(sh.db, batch, BATCH_LIMIT) && sh' == sh && x' == Sending(batch)
    case PublishRow(stored, ok) =>
      && x.Sending? && x.batch != []
      && (ok ==> stored || HasHeader(sh.stream, RowId(x.batch[0].id)))
      && sh' == (if stored
                 then sh.(stream := sh.stream + [Entry(RowId(x.batch[0].id), x.batch[0].envelope, 0, false, [])])
                 else sh)
      && x' == (if ok then Marking(x.batch) else Noting(x.batch))
    case MarkRow(now) =>
      && x.Marking? && x.batch != []
      && sh' == sh.(db := MarkPublished(sh.db, x.batch[0].id, now)) && x' == Sending(x.batch[1..])
    case MarkRowFails => x.Marking? && sh' == sh && x' == Noting(x.batch)
    case NoteFailure(error) =>
      && x.Noting? && x.batch != []
      && sh' == sh.(db := MarkFailed(sh.db, x.batch[0].id, error)) && x' == Sending(x.batch[1..])
    case LoseDispatcher => sh' == sh && x' == Idle
  }

  // --------------------------------------------------------------- threads

  datatype ThreadMove = ReadFacts(rows: seq<string>) | CommitWrites | LoadRow | CompleteRow
                      | ReadLetter(sawNone: bool) | CommitLetter | AbortThread

  ghost predicate ThreadMoves(env: Env, sh: Shared, sh': Shared, t: nat, m: ThreadMove)
  {
    && t in sh.threads
    && var x := sh.threads[t];
    match m
    case ReadFacts(rows) =>
      && x.job.EvaluateJob? && x.pc == Begun && x.job.eventId in sh.db.events && IsListing(sh.db, rows)
      && sh' == sh.(threads := sh.threads[t := x.(pc := Ready(Evaluate(env, sh.db, x.job.eventId, rows)))])
    case CommitWrites =>
      && x.pc.Ready?
      && var committed := CommitEvaluation(sh.db, x.pc.writes);
      && committed.Some?
      && sh' == sh.(db := committed.value, threads := sh.threads[t := x.(pc := Returned(true))])
    case LoadRow =>
      && x.job.CompleteJob? && x.pc == Begun && x.job.sceneId in sh.db.scenes
      && sh' == sh.(threads := sh.threads[t := x.(pc := Loaded(sh.db.scenes[x.job.sceneId]))])
    case CompleteRow =>
      && x.job.CompleteJob? && x.pc.Loaded?
      && var committed := CommitCompletion(sh.db, x.job.sceneId, x.pc.base, x.job.raster);
      && committed.Some?
      && sh' == sh.(db := committed.value, threads := sh.threads[t := x.(pc := Returned(true))])
    case ReadLetter(sawNone) =>
      // The letter is looked up before the scene is read; by then another may have been inserted.
      && x.job.BuryJob? && x.pc == Begun
      && (!sawNone ==> DeadLettered(sh.db, x.job.letter.messageId, x.job.letter.service))
      && sh' == sh.(threads := sh.threads[t := x.(pc := Noted(sawNone, SceneRead(sh.db, x.job.scene)))])
    case CommitLetter =>
      && x.job.BuryJob? && x.pc.Noted?
      && var committed := CommitBurial(sh.db, x.job.letter, x.pc.sawNone, x.job.scene, x.pc.seen);
      && committed.Some?
      && sh' == sh.(db := committed.value, threads := sh.threads[t := x.(pc := Returned(true))])
    case AbortThread =>
      !x.pc.Returned? && sh' == sh.(threads := sh.threads[t := x.(pc := Returned(false))])
  }

  // --------------------------------------------------------------- workers

  function DeclaredOf(sceneId: string, scene: Scene): Declared {
    Declared(sceneId, scene.source, scene.captureTime)
  }

  datatype WorkerMove =
    | Deliver(index: nat)
    | StartEvaluation(t: nat)
    | LocateScene
    | FetchAndComplete(t: nat)
    | FailBeforeThread
    | Join
    | TimeOut
    | RecordPassed(ok: bool)
    | Acknowledge(effective: bool, ok: bool)
    | RecordFailed(error: string, ok: bool)
    | Decide
    | CopyToDlq(stored: bool, ok: bool)
    | StartBurial(t: nat, error: string)
    | LeaveBurial
    | Close(effective: bool)
    | Decline
    | LoseWorker

  ghost predicate InDlq(dlq: seq<Copy>, messageId: nat) {
    exists c :: c in dlq && c.envelope.messageId == messageId
  }

  function AckEntry(sh: Shared, index: nat): Shared
    requires index < |sh.stream|
  {
    sh.(stream := sh.stream[index := sh.stream[index].(acked := true)])
  }

  ghost predicate WorkerMoves(env: Env, sh: Shared, sh': Shared, x: Worker, x': Worker, m: WorkerMove) {
    var at := (pc: WorkerPc) => x' == x.(pc := pc);
    && (!x.pc.Polling? ==> x.pc.delivery.index < |sh.stream|)
    && match m
    case Deliver(index) =>
      && x.pc.Polling? && index < |sh.stream|
      && var entry := sh.stream[index];
      && entry.envelope.lane == x.lane && !entry.acked
      && sh' == sh.(stream := sh.stream[index := entry.(delivered := entry.delivered + 1)])
      && at(Started(Delivery(index, entry.delivered + 1)))
    case StartEvaluation(t) =>
      && x.pc.Started? && x.lane == Telemetry && t !in sh.threads
      && var eventId := sh.stream[x.pc.delivery.index].envelope.aggregateId;
      && sh' == sh.(threads := sh.threads[t := Thread(EvaluateJob(eventId), Begun)])
      && at(Running(x.pc.delivery, t))
    case LocateScene =>
      && x.pc.Started? && x.lane == Imagery && sh' == sh
      && var sceneId := sh.stream[x.pc.delivery.index].envelope.aggregateId;
      && sceneId in sh.db.scenes
      && var scene := sh.db.scenes[sceneId];
      at(Located(x.pc.delivery, DeclaredOf(sceneId, scene), scene.sha256))
    case FetchAndComplete(t) =>
      && x.pc.Located? && t !in sh.threads && x.pc.digest in sh.objects
      && var bytes := sh.objects[x.pc.digest];
      && var raster := env.inspect(bytes, Some(x.pc.declared));
      && env.hash(bytes) == x.pc.digest && raster.Some?
      && var job := CompleteJob(x.pc.declared.sceneId, x.pc.digest, raster.value);
      && sh' == sh.(threads := sh.threads[t := Thread(job, Begun)])
      && at(Running(x.pc.delivery, t))
    case FailBeforeThread => (x.pc.Started? || x.pc.Located?) && sh' == sh && at(Failing(x.pc.delivery))
    case Join =>
      && x.pc.Running? && x.pc.thread in sh.threads && sh.threads[x.pc.thread].pc.Returned? && sh' == sh
      && at(if sh.threads[x.pc.thread].pc.ok then Succeeded(x.pc.delivery) else Failing(x.pc.delivery))
    case TimeOut => x.pc.Running? && sh' == sh && at(Failing(x.pc.delivery))
    case RecordPassed(ok) =>
      && x.pc.Succeeded?
      && var row := Attempt(sh.stream[x.pc.delivery.index].envelope.messageId, x.lane, x.pc.delivery.attempt, true, None);
      && sh' == (if ok then sh.(db := RecordAttempt(sh.db, row)) else sh)
      && at(if ok then Acking(x.pc.delivery) else Failing(x.pc.delivery))
    case Acknowledge(effective, ok) =>
      && x.pc.Acking?
      && sh' == (if effective then AckEntry(sh, x.pc.delivery.index) else sh)
      && at(if ok then Polling else Failing(x.pc.delivery))
    case RecordFailed(error, ok) =>
      && x.pc.Failing?
      && var messageId := sh.stream[x.pc.delivery.index].envelope.messageId;
      && var row := Attempt(messageId, x.lane, x.pc.delivery.attempt, false, Some(error));
      && sh' == (if ok then sh.(db := RecordAttempt(sh.db, row)) else sh)
      && at(Deciding(x.pc.delivery))
    case Decide =>
      && x.pc.Deciding? && sh' == sh
      && at(if x.pc.delivery.attempt >= env.maxAttempts then Copying(x.pc.delivery) else Declining(x.pc.delivery))
    case CopyToDlq(stored, ok) =>
      && x.pc.Copying?
      && var envelope := sh.stream[x.pc.delivery.index].envelope;
      && (ok ==> stored || InDlq(sh.dlq, envelope.messageId))
      && sh' == (if stored then sh.(dlq := sh.dlq + [Copy(envelope, x.pc.delivery.attempt)]) else sh)
      && at(if ok then Burying(x.pc.delivery) else Polling)
    case StartBurial(t, error) =>
      && x.pc.Burying? && t !in sh.threads
      && var envelope := sh.stream[x.pc.delivery.index].envelope;
      && var job := BuryJob(DeadLetter(envelope.messageId, x.lane, error, x.pc.delivery.attempt),
                            if x.lane == Imagery then Some(envelope.aggregateId) else None);
      && sh' == sh.(threads := sh.threads[t := Thread(job, Begun)])
      && at(Interring(x.pc.delivery))
    case LeaveBurial =>
      // The burial ended, failed, or is abandoned by a worker shutting down; the ack follows all the same.
      (x.pc.Burying? || x.pc.Interring?) && sh' == sh && at(Closing(x.pc.delivery))
    case Close(effective) =>
      && x.pc.Closing?
      && sh' == (if effective then AckEntry(sh, x.pc.delivery.index) else sh)
      && at(Polling)
    case Decline =>
      && x.pc.Declining?
      && var entry := sh.stream[x.pc.delivery.index];
      && sh' == sh.(stream := sh.stream[x.pc.delivery.index := entry.(naks := entry.naks + [x.pc.delivery.attempt])])
      && at(Polling)
    case LoseWorker => sh' == sh && at(Polling)
  }

  // ----------------------------------------------------------------- steps

  datatype Step =
    | ArriveEvent(p: nat, event: NewEvent, messageId: nat)
    | ArriveScene(p: nat, declared: Declared, bytes: Bytes, messageId: nat)
    | StartDispatcher(p: nat)
    | StartWorker(p: nat, lane: Lane)
    | BySubmission(p: nat, submissionMove: SubmissionMove)
    | ByUpload(p: nat, uploadMove: UploadMove)
    | ByDispatcher(p: nat, dispatcherMove: DispatcherMove)
    | ByThread(p: nat, threadMove: ThreadMove)
    | ByWorker(p: nat, workerMove: WorkerMove)
    | DuplicateEvent(id: nat, tag: nat)

  ghost predicate Next(env: Env, s: State, s': State, step: Step)
  {
    match step
    case ArriveEvent(p, event, messageId) =>
      p !in s.submissions && s' == s.(submissions := s.submissions[p := Submission(event, messageId, false, Looking)])
    case ArriveScene(p, declared, bytes, messageId) =>
      && p !in s.uploads && env.inspect(bytes, None).Some?
      && s' == s.(uploads := s.uploads[p := Upload(declared, bytes, messageId, false, Checking)])
    case StartDispatcher(p) =>
      p !in s.dispatchers && s' == s.(dispatchers := s.dispatchers[p := Idle])
    case StartWorker(p, lane) =>
      p !in s.workers && s' == s.(workers := s.workers[p := Worker(lane, Polling)])
    case BySubmission(p, m) =>
      && p in s.submissions && p in s'.submissions
      && SubmissionMoves(s.sh, s'.sh, s.submissions[p], s'.submissions[p], m)
      && s' == s.(sh := s'.sh, submissions := s.submissions[p := s'.submissions[p]])
    case ByUpload(p, m) =>
      && p in s.uploads && p in s'.uploads
      && UploadMoves(env, s.sh, s'.sh, s.uploads[p], s'.uploads[p], m)
      && s' == s.(sh := s'.sh, uploads := s.uploads[p := s'.uploads[p]])
    case ByDispatcher(p, m) =>
      && p in s.dispatchers && p in s'.dispatchers
      && DispatcherMoves(s.sh, s'.sh, s.dispatchers[p], s'.dispatchers[p], m)
      && s' == s.(sh := s'.sh, dispatchers := s.dispatchers[p := s'.dispatchers[p]])
    case ByThread(p, m) =>
      ThreadMoves(env, s.sh, s'.sh, p, m) && s' == s.(sh := s'.sh)
    case ByWorker(p, m) =>
      && p in s.workers && p in s'.workers
      && WorkerMoves(env, s.sh, s'.sh, s.workers[p], s'.workers[p], m)
      && s' == s.(sh := s'.sh, workers := s.workers[p := s'.workers[p]])
    case DuplicateEvent(id, tag) =>
      && id in s.sh.db.outbox && s.sh.db.outbox[id].envelope.lane == Telemetry
      && s' == s.(sh := s.sh.(stream := s.sh.stream + [Entry(FaultId(tag), s.sh.db.outbox[id].envelope, 0, false, [])]))
  }

  const INITIAL := State(Shared(EMPTY_DB, map[], [], [], map[]), map[], map[], map[], map[])

  ghost predicate StepAt(env: Env, run: seq<State>, steps: seq<Step>, i: nat)
    requires |run| == |steps| + 1 && i < |steps|
  {
    Next(env, run[i], run[i + 1], steps[i])
  }

  /** A run: a sequence of states, each reached from the one before by one step. */
  ghost predicate IsRun(env: Env, run: seq<State>, steps: seq<Step>)
  {
    && |run| == |steps| + 1 && run[0] == INITIAL
    && forall i | 0 <= i < |steps| :: StepAt(env, run, steps, i)
  }
}
