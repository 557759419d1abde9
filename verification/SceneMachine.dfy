/** The states of a scene, and its catalog columns, in every reachable state. */
module SceneMachine {
  import opened Common
  import opened Schema
  import opened Evaluation
  import opened Protocol
  import opened Growth
  import opened Custody

  // ------------------------------------------------ what always holds

  ghost predicate Written(scene: Scene) {
    match scene.status
    case Pending => scene.columns == BLANK_COLUMNS && scene.error.None?
    case Accepted => scene.columns != BLANK_COLUMNS
    case Rejected => true
  }

  ghost predicate ScenesWritten(scenes: map<string, Scene>) {
    forall id | id in scenes :: Written(scenes[id])
  }

  lemma {:induction false} CompletionWritten(env: Env, sh: Shared, sh': Shared, t: nat, m: ThreadMove)
    requires env.CollisionFree() && ThreadMoves(env, sh, sh', t, m) && m.CompleteRow?
    requires Catalogued(env, sh) && ScenesWritten(sh.db.scenes)
    ensures ScenesWritten(sh'.db.scenes)
  {
    hide ScenesCatalogued, RowCatalogued, ReadsAs;
    assert ThreadCatalogued(env, sh.db.scenes, sh.threads[t]);
    CompletedGrows(env, sh, t);
  }

  lemma {:induction false} BurialWritten(env: Env, sh: Shared, sh': Shared, t: nat, m: ThreadMove)
    requires ThreadMoves(env, sh, sh', t, m) && m.CommitLetter? && Catalogued(env, sh) && ScenesWritten(sh.db.scenes)
    ensures ScenesWritten(sh'.db.scenes)
  {
    hide ScenesCatalogued, RowCatalogued, ReadsAs;
    assert ThreadCatalogued(env, sh.db.scenes, sh.threads[t]);
    BurialGrows(env, sh, t);
    var x := sh.threads[t];
    if x.job.scene.Some? && x.pc.seen.Some? {
      var id := x.job.scene.value;
      assert Written(sh.db.scenes[id]);
    }
  }

  lemma {:induction false} SilentScenes(env: Env, sh: Shared, sh': Shared, t: nat, m: ThreadMove)
    requires ThreadMoves(env, sh, sh', t, m) && !m.CompleteRow? && !m.CommitLetter?
    ensures sh'.db.scenes == sh.db.scenes
  {
    hide Evaluate, IsListing;
  }

  lemma {:induction false} WorkerScenes(env: Env, sh: Shared, sh': Shared, x: Worker, x': Worker, m: WorkerMove)
    requires WorkerMoves(env, sh, sh', x, x', m)
    ensures sh'.db.scenes == sh.db.scenes
  {
  }

  lemma {:induction false} SubmissionScenes(sh: Shared, sh': Shared, x: Submission, x': Submission, m: SubmissionMove)
    requires SubmissionMoves(sh, sh', x, x', m)
    ensures sh'.db.scenes == sh.db.scenes && sh'.threads == sh.threads
  {
  }

  lemma {:induction false} DispatcherScenes(sh: Shared, sh': Shared, x: Dispatcher, x': Dispatcher, m: DispatcherMove)
    requires DispatcherMoves(sh, sh', x, x', m)
    ensures sh'.db.scenes == sh.db.scenes && sh'.threads == sh.threads
  {
    hide IsPendingBatch;
  }

  /** An upload adds at most its own pending scene. */
  ghost predicate OnlyPendingAdded(scenes: map<string, Scene>, scenes': map<string, Scene>) {
    forall id | id in scenes' :: (id in scenes && scenes'[id] == scenes[id])
      || (scenes'[id].status == Pending && scenes'[id].columns == BLANK_COLUMNS && scenes'[id].error.None?)
  }

  lemma {:induction false} UploadScenes(env: Env, sh: Shared, sh': Shared, x: Upload, x': Upload, m: UploadMove)
    requires UploadMoves(env, sh, sh', x, x', m)
    ensures OnlyPendingAdded(sh.db.scenes, sh'.db.scenes) && sh'.threads == sh.threads
  {
    hide DecideScene;
  }

  /** Only the two commits change a scene that exists. */
  lemma {:induction false} OtherScenes(env: Env, s: State, s': State, step: Step)
    requires Next(env, s, s', step)
    requires !(step.ByThread? && (step.threadMove.CompleteRow? || step.threadMove.CommitLetter?))
    ensures OnlyPendingAdded(s.sh.db.scenes, s'.sh.db.scenes)
  {
    hide WorkerMoves, ThreadMoves, UploadMoves, SubmissionMoves, DispatcherMoves;
    match step
    case ByWorker(p, m) => WorkerScenes(env, s.sh, s'.sh, s.workers[p], s'.workers[p], m);
    case ByThread(t, m) => SilentScenes(env, s.sh, s'.sh, t, m);
    case ByUpload(p, m) => UploadScenes(env, s.sh, s'.sh, s.uploads[p], s'.uploads[p], m);
    case BySubmission(p, m) => SubmissionScenes(s.sh, s'.sh, s.submissions[p], s'.submissions[p], m);
    case ByDispatcher(p, m) => DispatcherScenes(s.sh, s'.sh, s.dispatchers[p], s'.dispatchers[p], m);
    case _ =>
  }

  lemma {:induction false} StepWritten(env: Env, s: State, s': State, step: Step)
    requires env.CollisionFree() && Inv(env, s) && Next(env, s, s', step) && ScenesWritten(s.sh.db.scenes)
    ensures ScenesWritten(s'.sh.db.scenes)
  {
    hide ThreadMoves, ThreadsCatalogued, ScenesCatalogued;
    if step.ByThread? && step.threadMove.CompleteRow? {
      CompletionWritten(env, s.sh, s'.sh, step.p, step.threadMove);
    } else if step.ByThread? && step.threadMove.CommitLetter? {
      BurialWritten(env, s.sh, s'.sh, step.p, step.threadMove);
    } else {
      hide Next;
      OtherScenes(env, s, s', step);
    }
  }

  lemma {:induction false} RunScenes(env: Env, run: seq<State>, steps: seq<Step>, i: nat)
    requires env.CollisionFree() && IsRun(env, run, steps) && i < |run|
    ensures ScenesWritten(run[i].sh.db.scenes)
  {
    hide ScenesWritten;
    if i > 0 {
      RunScenes(env, run, steps, i - 1);
      RunInv(env, run, steps, i - 1);
      assert StepAt(env, run, steps, i - 1);
      StepWritten(env, run[i - 1], run[i], steps[i - 1]);
    } else {
      NoScenesYet();
    }
  }

  lemma {:induction false} NoScenesYet()
    ensures ScenesWritten(INITIAL.sh.db.scenes)
  {
  }

  /** Every column is what inspection read. */
  predicate ColumnsTell(columns: Columns, raster: Raster) {
    && columns.crs == Some(raster.crs) && columns.width == Some(raster.width) && columns.height == Some(raster.height)
    && columns.bbox == Some(raster.bbox) && columns.footprint == Some(raster.bbox) && columns.resolution == Some(raster.resolution)
    && columns.stacItem.Some? && columns.stacItem.value.datetime == raster.capture
  }

  /**
   An accepted scene has every catalog column, footprint and STAC item set, all read from
   bytes of its own digest; a pending one has none and no error; columns are set together.
   */
  lemma {:induction false} SceneStates(env: Env, run: seq<State>, steps: seq<Step>, i: nat, id: string)
    requires env.CollisionFree() && IsRun(env, run, steps) && i < |run| && id in run[i].sh.db.scenes
    ensures var scene := run[i].sh.db.scenes[id];
      && (scene.status == Accepted ==>
            && scene.columns.Complete()
            && exists raster :: ReadsAs(env, id, scene, raster) && ColumnsTell(scene.columns, raster))
      && (scene.status == Pending ==> scene.columns.Blank() && scene.error.None?)
      && (scene.columns.Blank() || scene.columns.Complete())
  {
    RunScenes(env, run, steps, i);
    RunInv(env, run, steps, i);
    var scene := run[i].sh.db.scenes[id];
    assert Written(scene) && RowCatalogued(env, id, scene);
    if scene.status == Accepted {
      var raster :| ReadsAs(env, id, scene, raster) && scene.columns == ColumnsOf(id, scene, raster);
      assert ColumnsTell(scene.columns, raster);
    }
  }

  // ---------------------------------------------- statuses and errors

  /** Accepted without an error, rejected with one. */
  ghost predicate Consistent(scene: Scene) {
    (scene.status == Accepted ==> scene.error.None?) && (scene.status == Rejected ==> scene.error.Some?)
  }

  ghost predicate ScenesConsistent(scenes: map<string, Scene>) {
    forall id | id in scenes :: Consistent(scenes[id])
  }

  ghost predicate Sound(scene: Scene) {
    Written(scene) && Consistent(scene)
  }

  /** Every row a session has read and not yet committed was sound when it read it. */
  ghost predicate ReadSound(t: Thread) {
    (t.pc.Loaded? ==> Sound(t.pc.base)) && (t.pc.Noted? && t.pc.seen.Some? ==> Sound(t.pc.seen.value))
  }

  ghost predicate ReadsSound(threads: map<nat, Thread>) {
    forall t | t in threads :: ReadSound(threads[t])
  }

  /** A completion that read the scene pending, and commits when it has been rejected. */
  ghost predicate LateCompletion(base: Scene, current: Scene) {
    base.status == Pending && current.status == Rejected
  }

  /** A rejection that read the scene rejected with another error, and commits when it has been accepted. */
  ghost predicate LateRejection(base: Scene, current: Scene, error: string) {
    base.status == Rejected && base.error != Some(error) && current.status == Accepted
  }

  lemma {:induction false} CompletionConsistentIff(id: string, base: Scene, current: Scene, raster: Raster)
    requires SceneGrows(base, current) && Sound(base) && Sound(current)
    ensures Consistent(MergeScene(base, CompletedScene(id, base, raster), current)) <==> !LateCompletion(base, current)
  {
  }

  lemma {:induction false} RejectionConsistentIff(base: Scene, current: Scene, error: string)
    requires SceneGrows(base, current) && Sound(base) && Sound(current)
    ensures Consistent(MergeScene(base, RejectedScene(base, error), current)) <==> !LateRejection(base, current, error)
  {
  }

  /** A commit that another session's commit overtook since it read the row, in one of the two ways that matter. */
  ghost predicate Overtaken(sh: Shared, t: nat, m: ThreadMove) {
    && t in sh.threads
    && var x := sh.threads[t];
    match m
    case CompleteRow =>
      x.job.CompleteJob? && x.pc.Loaded? && x.job.sceneId in sh.db.scenes
      && LateCompletion(x.pc.base, sh.db.scenes[x.job.sceneId])
    case CommitLetter =>
      x.job.BuryJob? && x.pc.Noted? && x.pc.seen.Some? && x.job.scene.Some? && x.job.scene.value in sh.db.scenes
      && LateRejection(x.pc.seen.value, sh.db.scenes[x.job.scene.value], x.job.letter.error)
    case _ => false
  }

  ghost predicate Overtakes(s: State, step: Step) {
    step.ByThread? && Overtaken(s.sh, step.p, step.threadMove)
  }

  lemma {:induction false} OneRowChanged(scenes: map<string, Scene>, id: string, row: Scene)
    requires ScenesConsistent(scenes)
    ensures ScenesConsistent(scenes[id := row]) <==> Consistent(row)
  {
    if ScenesConsistent(scenes[id := row]) {
      assert Consistent(scenes[id := row][id]);
    }
  }

  lemma {:induction false} CompletionIff(env: Env, sh: Shared, sh': Shared, t: nat, m: ThreadMove)
    requires ThreadMoves(env, sh, sh', t, m) && m.CompleteRow? && Catalogued(env, sh)
    requires ScenesWritten(sh.db.scenes) && ScenesConsistent(sh.db.scenes) && ReadsSound(sh.threads)
    ensures ScenesConsistent(sh'.db.scenes) <==> !Overtaken(sh, t, m)
  {
    hide ScenesConsistent, SceneGrows, LateCompletion, MergeScene, ScenesCatalogued;
    var x := sh.threads[t];
    assert ThreadCatalogued(env, sh.db.scenes, x) && ReadSound(x);
    var id := x.job.sceneId;
    SoundRow(sh.db.scenes, id);
    CompletionConsistentIff(id, x.pc.base, sh.db.scenes[id], x.job.raster);
    OneRowChanged(sh.db.scenes, id, MergeScene(x.pc.base, CompletedScene(id, x.pc.base, x.job.raster), sh.db.scenes[id]));
  }

  lemma {:induction false} SoundRow(scenes: map<string, Scene>, id: string)
    requires ScenesWritten(scenes) && ScenesConsistent(scenes) && id in scenes
    ensures Sound(scenes[id])
  {
  }

  lemma {:induction false} RejectionIff(env: Env, sh: Shared, sh': Shared, t: nat, m: ThreadMove)
    requires ThreadMoves(env, sh, sh', t, m) && m.CommitLetter? && Catalogued(env, sh)
    requires ScenesWritten(sh.db.scenes) && ScenesConsistent(sh.db.scenes) && ReadsSound(sh.threads)
    ensures ScenesConsistent(sh'.db.scenes) <==> !Overtaken(sh, t, m)
  {
    hide ScenesConsistent, SceneGrows, LateRejection, MergeScene, ScenesCatalogued;
    var x := sh.threads[t];
    assert ThreadCatalogued(env, sh.db.scenes, x) && ReadSound(x);
    if x.job.scene.Some? && x.pc.seen.Some? {
      var id, seen := x.job.scene.value, x.pc.seen.value;
      SoundRow(sh.db.scenes, id);
      RejectionConsistentIff(seen, sh.db.scenes[id], x.job.letter.error);
      OneRowChanged(sh.db.scenes, id, MergeScene(seen, RejectedScene(seen, x.job.letter.error), sh.db.scenes[id]));
    }
  }

  /** What a step reads, it reads from the tables as they are. */
  lemma {:induction false} StepReads(env: Env, s: State, s': State, step: Step)
    requires Next(env, s, s', step) && ReadsSound(s.sh.threads)
    requires ScenesWritten(s.sh.db.scenes) && ScenesConsistent(s.sh.db.scenes)
    ensures ReadsSound(s'.sh.threads)
  {
    hide WorkerMoves, ThreadMoves, UploadMoves, SubmissionMoves, DispatcherMoves, ReadsSound, ScenesConsistent, ScenesWritten;
    match step
    case ByWorker(p, m) => WorkerReads(env, s.sh, s'.sh, s.workers[p], s'.workers[p], m);
    case ByThread(t, m) => ThreadReads(env, s.sh, s'.sh, t, m);
    case ByUpload(p, m) => UploadScenes(env, s.sh, s'.sh, s.uploads[p], s'.uploads[p], m);
    case BySubmission(p, m) => SubmissionScenes(s.sh, s'.sh, s.submissions[p], s'.submissions[p], m);
    case ByDispatcher(p, m) => DispatcherScenes(s.sh, s'.sh, s.dispatchers[p], s'.dispatchers[p], m);
    case _ =>
  }

  lemma {:induction false} WorkerReads(env: Env, sh: Shared, sh': Shared, x: Worker, x': Worker, m: WorkerMove)
    requires WorkerMoves(env, sh, sh', x, x', m) && ReadsSound(sh.threads)
    ensures ReadsSound(sh'.threads)
  {
    hide Sound;
  }

  lemma {:induction false} ThreadReads(env: Env, sh: Shared, sh': Shared, t: nat, m: ThreadMove)
    requires ThreadMoves(env, sh, sh', t, m) && ReadsSound(sh.threads)
    requires ScenesWritten(sh.db.scenes) && ScenesConsistent(sh.db.scenes)
    ensures ReadsSound(sh'.threads)
  {
    hide CommitEvaluation, CommitCompletion, CommitBurial, Evaluate, IsListing, Sound, ScenesWritten, ScenesConsistent;
    forall id | id in sh.db.scenes ensures Sound(sh.db.scenes[id]) {
      SoundRow(sh.db.scenes, id);
    }
    assert forall u | u in sh'.threads && u != t :: u in sh.threads && sh'.threads[u] == sh.threads[u];
  }

  lemma {:induction false} StepConsistentIff(env: Env, s: State, s': State, step: Step)
    requires env.CollisionFree() && Inv(env, s) && Next(env, s, s', step)
    requires ScenesWritten(s.sh.db.scenes) && ScenesConsistent(s.sh.db.scenes) && ReadsSound(s.sh.threads)
    ensures ScenesConsistent(s'.sh.db.scenes) <==> !Overtakes(s, step)
  {
    hide ThreadMoves, ThreadsCatalogued, ScenesCatalogued, ReadsSound, ScenesWritten;
    if step.ByThread? && step.threadMove.CompleteRow? {
      hide ScenesConsistent, Overtaken;
      CompletionIff(env, s.sh, s'.sh, step.p, step.threadMove);
    } else if step.ByThread? && step.threadMove.CommitLetter? {
      hide ScenesConsistent, Overtaken;
      RejectionIff(env, s.sh, s'.sh, step.p, step.threadMove);
    } else {
      hide Next;
      OtherScenes(env, s, s', step);
    }
  }

  ghost predicate ConsistentUpTo(run: seq<State>, n: nat)
    requires n < |run|
  {
    forall i | 0 <= i <= n :: ScenesConsistent(run[i].sh.db.scenes)
  }

  ghost predicate NoneOvertaken(run: seq<State>, steps: seq<Step>, n: nat)
    requires n <= |steps| < |run|
  {
    forall i | 0 <= i < n :: !Overtakes(run[i], steps[i])
  }

  /**
   Exactly when statuses and errors agree. All scenes are accepted without an error or
   rejected with one in every state of a run, if and only if no completion that read its scene
   pending commits onto a rejection, and no rejection that read its scene rejected with another
   error commits onto an acceptance.
   */
  lemma {:induction false} ErrorsAgreeIff(env: Env, run: seq<State>, steps: seq<Step>, n: nat)
    requires env.CollisionFree() && IsRun(env, run, steps) && n < |run|
    ensures ConsistentUpTo(run, n) <==> NoneOvertaken(run, steps, n)
    ensures ConsistentUpTo(run, n) ==> ReadsSound(run[n].sh.threads)
  {
    hide ScenesConsistent, ReadsSound, ScenesWritten, Overtakes;
    if n == 0 {
      NothingToRead();
    } else {
      ErrorsAgreeIff(env, run, steps, n - 1);
      if ConsistentUpTo(run, n - 1) {
        RunScenes(env, run, steps, n - 1);
        RunInv(env, run, steps, n - 1);
        assert StepAt(env, run, steps, n - 1);
        StepConsistentIff(env, run[n - 1], run[n], steps[n - 1]);
        StepReads(env, run[n - 1], run[n], steps[n - 1]);
      }
    }
  }

  lemma {:induction false} NothingToRead()
    ensures ScenesConsistent(INITIAL.sh.db.scenes) && ReadsSound(INITIAL.sh.threads)
  {
  }

  /** The catalog columns of an accepted scene and its STAC item tell the same story, under the row's own id, source and digest. */
  lemma {:induction false} ItemAgreesWithColumns(env: Env, run: seq<State>, steps: seq<Step>, i: nat, id: string)
    requires env.CollisionFree() && IsRun(env, run, steps) && i < |run| && id in run[i].sh.db.scenes
    requires run[i].sh.db.scenes[id].status == Accepted
    ensures var scene := run[i].sh.db.scenes[id];
      && scene.columns.Complete()
      && var item := scene.columns.stacItem.value;
      && item.id == id && item.source == scene.source
      && Some(item.bbox) == scene.columns.bbox == scene.columns.footprint
      && item.shape == (scene.columns.height.value, scene.columns.width.value)
      && (item.epsg.Some? ==> scene.columns.crs == Some("EPSG:" + item.epsg.value))
      && (item.epsg.None? ==> forall code: string :: scene.columns.crs != Some("EPSG:" + code))
      && item.checksum == "1220" + scene.sha256 && item.href == "s3://scenes/" + ObjectName(scene.sha256)
      && |item.ring| == 5 && item.ring[0] == item.ring[4] == Point(item.bbox.west, item.bbox.south)
      && item.ring[1] == Point(item.bbox.east, item.bbox.south)
      && item.ring[2] == Point(item.bbox.east, item.bbox.north)
      && item.ring[3] == Point(item.bbox.west, item.bbox.north)
  {
    RunScenes(env, run, steps, i);
    RunInv(env, run, steps, i);
    var scene := run[i].sh.db.scenes[id];
    assert Written(scene) && RowCatalogued(env, id, scene);
    var raster :| ReadsAs(env, id, scene, raster) && scene.columns == ColumnsOf(id, scene, raster);
    ItemCode(id, scene.source, scene.sha256, raster);
  }

  lemma {:induction false} ItemCode(sceneId: string, source: string, digest: string, raster: Raster)
    ensures var item := StacItemOf(sceneId, source, digest, raster);
      && (item.epsg.Some? ==> raster.crs == "EPSG:" + item.epsg.value)
      && (item.epsg.None? ==> forall code: string :: raster.crs != "EPSG:" + code)
  {
    forall code: string | raster.crs == "EPSG:" + code ensures StacItemOf(sceneId, source, digest, raster).epsg.Some? {
      assert "EPSG:" <= raster.crs;
    }
  }

  /** No redelivery, late completion or rejection ever changes catalog columns once written. */
  lemma {:induction false} CatalogWrittenOnce(env: Env, run: seq<State>, steps: seq<Step>, i: nat, j: nat, id: string)
    requires env.CollisionFree() && IsRun(env, run, steps) && i <= j < |run|
    requires id in run[i].sh.db.scenes && !run[i].sh.db.scenes[id].columns.Blank()
    ensures id in run[j].sh.db.scenes
    ensures run[j].sh.db.scenes[id].columns == run[i].sh.db.scenes[id].columns
    ensures run[j].sh.db.scenes[id].sha256 == run[i].sh.db.scenes[id].sha256
  {
    RunGrows(env, run, steps, i, j);
    assert SceneGrows(run[i].sh.db.scenes[id], run[j].sh.db.scenes[id]);
  }
}
