/** A run in which a completion that timed out commits after its scene was rejected. */
module Overtaking {
  import opened Common
  import opened Schema
  import opened Protocol

  /** A readable scene, one delivery allowed, and the error its rejection records. */
  datatype Story = Story(env: Env, declared: Declared, bytes: Bytes, error: string)
  {
    ghost predicate Valid() {
      && env.maxAttempts == 1
      && env.inspect(bytes, None).Some? && env.inspect(bytes, Some(declared)).Some?
    }

    function Digest(): string {
      env.hash(bytes)
    }

    function Row(): Scene {
      Scene(declared.source, declared.captureTime, Digest(), BLANK_COLUMNS, Pending, None)
    }

    function Message(): Envelope {
      Envelope(0, Imagery, declared.sceneId, 0, Digest())
    }

    function Letter(): DeadLetter {
      DeadLetter(0, Imagery, error, 1)
    }
  }

  function RasterOf(s: Story): Raster
    requires s.env.inspect(s.bytes, Some(s.declared)).Some?
  {
    s.env.inspect(s.bytes, Some(s.declared)).value
  }

  function Stored(s: Story, scene: Scene, letters: seq<DeadLetter>): Db {
    EMPTY_DB.(scenes := map[s.declared.sceneId := scene], outbox := map[0 := FreshRow(s.Message())], deadLetters := letters)
  }

  function Completion(s: Story, pc: ThreadPc): Thread
    requires s.env.inspect(s.bytes, Some(s.declared)).Some?
  {
    Thread(CompleteJob(s.declared.sceneId, s.Digest(), RasterOf(s)), pc)
  }

  function Burial(s: Story, pc: ThreadPc): Thread {
    Thread(BuryJob(s.Letter(), Some(s.declared.sceneId)), pc)
  }

  function Rejection(s: Story): Scene {
    RejectedScene(s.Row(), s.error)
  }

  /** The row at the end: accepted, and still carrying the error. */
  function Overtaken(s: Story): Scene
    requires s.env.inspect(s.bytes, Some(s.declared)).Some?
  {
    MergeScene(s.Row(), CompletedScene(s.declared.sceneId, s.Row(), RasterOf(s)), Rejection(s))
  }

  // -------------------------------------------- before the worker starts

  function Uploading(s: Story, pc: UploadPc): map<nat, Upload> {
    map[0 := Upload(s.declared, s.bytes, 0, pc == Announcing, pc)]
  }

  function Early(s: Story, i: nat): State {
    var none: Shared := INITIAL.sh;
    var put := none.(objects := map[s.Digest() := s.bytes]);
    var stored := put.(db := Stored(s, s.Row(), []));
    var sent := stored.(stream := [Entry(RowId(0), s.Message(), 0, false, [])]);
    var batch := [Item(0, s.Message())];
    if i == 0 then INITIAL
    else if i == 1 then State(none, map[], Uploading(s, Checking), map[], map[])
    else if i == 2 then State(none, map[], Uploading(s, Putting), map[], map[])
    else if i == 3 then State(put, map[], Uploading(s, Storing), map[], map[])
    else if i == 4 then State(stored, map[], Uploading(s, Announcing), map[], map[])
    else if i == 5 then State(stored, map[], Uploading(s, Announcing), map[0 := Idle], map[])
    else if i == 6 then State(stored, map[], Uploading(s, Announcing), map[0 := Sending(batch)], map[])
    else State(sent, map[], Uploading(s, Announcing), map[0 := Marking(batch)], map[])
  }

  function EarlyStep(s: Story, i: nat): Step {
    if i == 0 then ArriveScene(0, s.declared, s.bytes, 0)
    else if i == 1 then ByUpload(0, LookUpScene)
    else if i == 2 then ByUpload(0, PutObject(true, true))
    else if i == 3 then ByUpload(0, InsertScene(0))
    else if i == 4 then StartDispatcher(0)
    else if i == 5 then ByDispatcher(0, ReadBatch([Item(0, s.Message())]))
    else ByDispatcher(0, PublishRow(true, true))
  }

  lemma {:induction false} Uploaded(s: Story, i: nat)
    requires s.Valid() && i < 4
    ensures Next(s.env, Early(s, i), Early(s, i + 1), EarlyStep(s, i))
  {
    hide WorkerMoves, ThreadMoves, DispatcherMoves, SubmissionMoves;
  }

  lemma {:induction false} Published(s: Story, i: nat)
    requires s.Valid() && 4 <= i < 7
    ensures Next(s.env, Early(s, i), Early(s, i + 1), EarlyStep(s, i))
  {
    hide WorkerMoves, ThreadMoves, UploadMoves, SubmissionMoves;
    OnlyRow(s, [Item(0, s.Message())]);
  }

  lemma {:induction false} OnlyRow(s: Story, batch: seq<Item>)
    requires batch == [Item(0, s.Message())]
    ensures IsPendingBatch(Stored(s, s.Row(), []), batch, BATCH_LIMIT)
  {
    assert batch[0].id == 0;
  }

  // --------------------------------------------------- worker and threads

  function Delivered(s: Story, db: Db, copied: bool, threads: map<nat, Thread>): Shared {
    Shared(db, map[s.Digest() := s.bytes], [Entry(RowId(0), s.Message(), 1, false, [])],
           if copied then [Copy(s.Message(), 1)] else [], threads)
  }

  function Working(s: Story, sh: Shared, pc: WorkerPc): State {
    State(sh, map[], Uploading(s, Announcing), map[0 := Marking([Item(0, s.Message())])], map[0 := Worker(Imagery, pc)])
  }

  function Late(s: Story, i: nat): State
    requires s.env.inspect(s.bytes, Some(s.declared)).Some?
  {
    var d := Delivery(0, 1);
    var pending, rejected := Stored(s, s.Row(), []), Stored(s, Rejection(s), [s.Letter()]);
    var loaded := Completion(s, Loaded(s.Row()));
    if i == 0 then Early(s, 7)
    else if i == 1 then Early(s, 7).(workers := map[0 := Worker(Imagery, Polling)])
    else if i == 2 then Working(s, Delivered(s, pending, false, map[]), Started(d))
    else if i == 3 then Working(s, Delivered(s, pending, false, map[]), Located(d, s.declared, s.Digest()))
    else if i == 4 then Working(s, Delivered(s, pending, false, map[0 := Completion(s, Begun)]), Running(d, 0))
    else if i == 5 then Working(s, Delivered(s, pending, false, map[0 := loaded]), Running(d, 0))
    else if i == 6 then Working(s, Delivered(s, pending, false, map[0 := loaded]), Failing(d))
    else if i == 7 then Working(s, Delivered(s, pending, false, map[0 := loaded]), Deciding(d))
    else if i == 8 then Working(s, Delivered(s, pending, false, map[0 := loaded]), Copying(d))
    else if i == 9 then Working(s, Delivered(s, pending, true, map[0 := loaded]), Burying(d))
    else if i == 10 then Working(s, Delivered(s, pending, true, map[0 := loaded, 1 := Burial(s, Begun)]), Interring(d))
    else if i == 11 then
      Working(s, Delivered(s, pending, true, map[0 := loaded, 1 := Burial(s, Noted(true, Some(s.Row())))]), Interring(d))
    else if i == 12 then
      Working(s, Delivered(s, rejected, true, map[0 := loaded, 1 := Burial(s, Returned(true))]), Interring(d))
    else
      Working(s, Delivered(s, Stored(s, Overtaken(s), [s.Letter()]), true,
                           map[0 := Completion(s, Returned(true)), 1 := Burial(s, Returned(true))]), Interring(d))
  }

  function LateStep(s: Story, i: nat): Step {
    if i == 0 then StartWorker(0, Imagery)
    else if i == 1 then ByWorker(0, Deliver(0))
    else if i == 2 then ByWorker(0, LocateScene)
    else if i == 3 then ByWorker(0, FetchAndComplete(0))
    else if i == 4 then ByThread(0, LoadRow)
    else if i == 5 then ByWorker(0, TimeOut)
    else if i == 6 then ByWorker(0, RecordFailed("TimeoutError", false))
    else if i == 7 then ByWorker(0, Decide)
    else if i == 8 then ByWorker(0, CopyToDlq(true, true))
    else if i == 9 then ByWorker(0, StartBurial(1, s.error))
    else if i == 10 then ByThread(1, ReadLetter(true))
    else if i == 11 then ByThread(1, CommitLetter)
    else ByThread(0, CompleteRow)
  }

  lemma {:induction false} Begins(s: Story, i: nat)
    requires s.Valid() && i < 2
    ensures Next(s.env, Late(s, i), Late(s, i + 1), LateStep(s, i))
  {
    hide ThreadMoves, UploadMoves, SubmissionMoves, DispatcherMoves;
  }

  lemma {:induction false} Locates(s: Story, i: nat)
    requires s.Valid() && 2 <= i < 4
    ensures Next(s.env, Late(s, i), Late(s, i + 1), LateStep(s, i))
  {
    hide ThreadMoves, UploadMoves, SubmissionMoves, DispatcherMoves, Early;
  }

  /** A worker's move is a step of the whole system. */
  lemma {:induction false} WorkerStep(s: Story, sh: Shared, sh': Shared, pc: WorkerPc, pc': WorkerPc, m: WorkerMove)
    requires WorkerMoves(s.env, sh, sh', Worker(Imagery, pc), Worker(Imagery, pc'), m)
    ensures Next(s.env, Working(s, sh, pc), Working(s, sh', pc'), ByWorker(0, m))
  {
    hide WorkerMoves, Uploading;
    var x, y := Working(s, sh, pc), Working(s, sh', pc');
    assert y.workers == x.workers[0 := Worker(Imagery, pc')];
  }

  lemma {:induction false} TimesOut(s: Story, i: nat)
    requires s.Valid() && 5 <= i < 8
    ensures Next(s.env, Late(s, i), Late(s, i + 1), LateStep(s, i))
  {
    var d := Delivery(0, 1);
    var sh := Delivered(s, Stored(s, s.Row(), []), false, map[0 := Completion(s, Loaded(s.Row()))]);
    hide Next, Early, Stored, Completion, Working;
    if i == 5 {
      WorkerStep(s, sh, sh, Running(d, 0), Failing(d), TimeOut);
    } else if i == 6 {
      WorkerStep(s, sh, sh, Failing(d), Deciding(d), RecordFailed("TimeoutError", false));
    } else {
      WorkerStep(s, sh, sh, Deciding(d), Copying(d), Decide);
    }
  }

  lemma {:induction false} LateIs(s: Story)
    requires s.Valid()
    ensures var d, db, loaded := Delivery(0, 1), Stored(s, s.Row(), []), Completion(s, Loaded(s.Row()));
      && Late(s, 8) == Working(s, Delivered(s, db, false, map[0 := loaded]), Copying(d))
      && Late(s, 9) == Working(s, Delivered(s, db, true, map[0 := loaded]), Burying(d))
      && Late(s, 10) == Working(s, Delivered(s, db, true, map[0 := loaded, 1 := Burial(s, Begun)]), Interring(d))
    ensures LateStep(s, 8) == ByWorker(0, CopyToDlq(true, true)) && LateStep(s, 9) == ByWorker(0, StartBurial(1, s.error))
  {
  }

  lemma {:induction false} CopiesOut(s: Story)
    requires s.Valid()
    ensures Next(s.env, Late(s, 8), Late(s, 9), LateStep(s, 8))
  {
    var d := Delivery(0, 1);
    var db, loaded := Stored(s, s.Row(), []), Completion(s, Loaded(s.Row()));
    LateIs(s);
    hide Next, Early, Stored, Completion, Working, Late, LateStep;
    assert [] + [Copy(s.Message(), 1)] == [Copy(s.Message(), 1)];
    WorkerStep(s, Delivered(s, db, false, map[0 := loaded]), Delivered(s, db, true, map[0 := loaded]),
               Copying(d), Burying(d), CopyToDlq(true, true));
  }

  lemma {:induction false} StartsBurial(s: Story)
    requires s.Valid()
    ensures Next(s.env, Late(s, 9), Late(s, 10), LateStep(s, 9))
  {
    var d := Delivery(0, 1);
    var db, loaded := Stored(s, s.Row(), []), Completion(s, Loaded(s.Row()));
    LateIs(s);
    hide Next, Early, Stored, Completion, Working, Late, LateStep;
    var started := map[0 := loaded, 1 := Burial(s, Begun)];
    assert map[0 := loaded][1 := Burial(s, Begun)] == started;
    WorkerStep(s, Delivered(s, db, true, map[0 := loaded]), Delivered(s, db, true, started),
               Burying(d), Interring(d), StartBurial(1, s.error));
  }

  lemma {:induction false} Reads(s: Story, i: nat)
    requires s.Valid() && (i == 4 || i == 10)
    ensures Next(s.env, Late(s, i), Late(s, i + 1), LateStep(s, i))
  {
    hide WorkerMoves, UploadMoves, SubmissionMoves, DispatcherMoves, Early, CommitCompletion, CommitBurial, Uploading;
  }

  lemma {:induction false} RejectionCommits(s: Story)
    ensures CommitBurial(Stored(s, s.Row(), []), s.Letter(), true, Some(s.declared.sceneId), Some(s.Row()))
         == Some(Stored(s, Rejection(s), [s.Letter()]))
  {
    hide MergeScene;
    MergedAlone(s.Row(), Rejection(s));
    var id := s.declared.sceneId;
    assert map[id := s.Row()][id := Rejection(s)] == map[id := Rejection(s)];
    assert [] + [s.Letter()] == [s.Letter()];
  }

  lemma {:induction false} Rejects(s: Story, i: nat)
    requires s.Valid() && i == 11
    ensures Next(s.env, Late(s, i), Late(s, i + 1), LateStep(s, i))
  {
    hide WorkerMoves, UploadMoves, SubmissionMoves, DispatcherMoves, Early;
    RejectionCommits(s);
    hide CommitBurial;
  }

  lemma {:induction false} Commits(s: Story, i: nat)
    requires s.Valid() && i == 12
    ensures Next(s.env, Late(s, i), Late(s, i + 1), LateStep(s, i))
  {
    hide WorkerMoves, UploadMoves, SubmissionMoves, DispatcherMoves, Early, MergeScene;
  }

  lemma {:induction false} Continues(s: Story, i: nat)
    requires s.Valid() && i < 13
    ensures Next(s.env, Late(s, i), Late(s, i + 1), LateStep(s, i))
  {
    hide Next, Late;
    if i < 2 {
      Begins(s, i);
    } else if i < 4 {
      Locates(s, i);
    } else if i == 4 || i == 10 {
      Reads(s, i);
    } else if i < 8 {
      TimesOut(s, i);
    } else if i == 8 {
      CopiesOut(s);
    } else if i == 9 {
      StartsBurial(s);
    } else if i == 11 {
      Rejects(s, i);
    } else {
      Commits(s, i);
    }
  }

  function StateAt(s: Story, i: nat): State
    requires s.env.inspect(s.bytes, Some(s.declared)).Some?
  {
    if i < 7 then Early(s, i) else Late(s, i - 7)
  }

  function StepOf(s: Story, i: nat): Step {
    if i < 7 then EarlyStep(s, i) else LateStep(s, i - 7)
  }

  lemma {:induction false} Follows(s: Story, i: nat)
    requires s.Valid() && i < 20
    ensures Next(s.env, StateAt(s, i), StateAt(s, i + 1), StepOf(s, i))
  {
    hide Next, Early, Late;
    assert StateAt(s, 7) == Early(s, 7) by {
      LateStarts(s);
    }
    if i < 4 {
      Uploaded(s, i);
    } else if i < 7 {
      Published(s, i);
    } else {
      Continues(s, i - 7);
    }
  }

  lemma {:induction false} LateStarts(s: Story)
    requires s.Valid()
    ensures Late(s, 0) == Early(s, 7)
  {
  }

  lemma {:induction false} EndsInconsistent(s: Story)
    requires s.Valid()
    ensures var db := Late(s, 13).sh.db;
      && s.declared.sceneId in db.scenes
      && db.scenes[s.declared.sceneId].status == Accepted && db.scenes[s.declared.sceneId].error == Some(s.error)
  {
  }

  /**
   What the condition of `ErrorsAgreeIff` excludes does happen: the scene is read pending, the
   worker times out and rejects it, and then the completion commits. Its error was empty when
   it was read, so emptying it changes nothing and is not written.
   */
  lemma {:induction false} AcceptedWithError(s: Story) returns (run: seq<State>, steps: seq<Step>)
    requires s.Valid()
    ensures IsRun(s.env, run, steps)
    ensures var db := run[|run| - 1].sh.db;
      && s.declared.sceneId in db.scenes
      && db.scenes[s.declared.sceneId].status == Accepted && db.scenes[s.declared.sceneId].error == Some(s.error)
  {
    hide Next, StepOf, Early, Late;
    run := seq(21, i requires 0 <= i < 21 => StateAt(s, i));
    steps := seq(20, i requires 0 <= i < 20 => StepOf(s, i));
    assert StateAt(s, 0) == Early(s, 0) == INITIAL by {
      Starts(s);
    }
    forall i | 0 <= i < |steps| ensures StepAt(s.env, run, steps, i) {
      Follows(s, i);
    }
    EndsInconsistent(s);
  }

  lemma {:induction false} Starts(s: Story)
    ensures Early(s, 0) == INITIAL
  {
  }
}
