/** Object store and catalog: what uploads, rejections and crashes leave behind. */
module Store {
  import opened Common
  import opened Schema
  import opened Protocol

  /** Between its lookup and the end of its transaction or compensation. */
  predicate InFlight(x: Upload) {
    x.pc in {Putting, Storing, Compensating}
  }

  /** No two uploads of the same bytes are in flight together. */
  ghost predicate DistinctUploads(env: Env, s: State) {
    forall p, q | p in s.uploads && q in s.uploads && p != q && InFlight(s.uploads[p]) && InFlight(s.uploads[q]) ::
      env.hash(s.uploads[p].bytes) != env.hash(s.uploads[q].bytes)
  }

  ghost predicate ObjectsHashed(env: Env, objects: map<string, Bytes>) {
    forall k | k in objects :: env.hash(objects[k]) == k
  }

  /** Every scene row's object exists (and, by `ObjectsHashed`, hashes to the row's digest). */
  ghost predicate ScenesStored(sh: Shared) {
    forall id | id in sh.db.scenes :: sh.db.scenes[id].sha256 in sh.objects
  }

  ghost predicate UploadOk(env: Env, sh: Shared, x: Upload) {
    && (InFlight(x) ==> !DigestTaken(sh.db, env.hash(x.bytes)))
    && (x.pc == Storing ==> env.hash(x.bytes) in sh.objects)
  }

  ghost predicate UploadsOk(env: Env, s: State) {
    forall p | p in s.uploads :: UploadOk(env, s.sh, s.uploads[p])
  }

  ghost predicate StoreInv(env: Env, s: State) {
    ObjectsHashed(env, s.sh.objects) && ScenesStored(s.sh) && UploadsOk(env, s)
  }

  /** Only an upload's insert adds a scene row, and no row's digest ever changes. */
  ghost predicate SceneRowsKept(sh: Shared, sh': Shared) {
    && sh'.db.scenes.Keys == sh.db.scenes.Keys
    && forall id | id in sh.db.scenes :: sh'.db.scenes[id].sha256 == sh.db.scenes[id].sha256
  }

  lemma {:induction false} WorkerKeepsStore(env: Env, sh: Shared, sh': Shared, x: Worker, x': Worker, m: WorkerMove)
    requires WorkerMoves(env, sh, sh', x, x', m)
    ensures SceneRowsKept(sh, sh') && sh'.objects == sh.objects
  {
  }

  lemma {:induction false} ThreadKeepsStore(env: Env, sh: Shared, sh': Shared, t: nat, m: ThreadMove)
    requires ThreadMoves(env, sh, sh', t, m)
    ensures SceneRowsKept(sh, sh') && sh'.objects == sh.objects
  {
  }

  lemma {:induction false} OthersKeepStore(env: Env, s: State, s': State, step: Step)
    requires Next(env, s, s', step) && !step.ByUpload?
    ensures SceneRowsKept(s.sh, s'.sh) && s'.sh.objects == s.sh.objects
    ensures forall p | p in s'.uploads :: if p in s.uploads then s'.uploads[p] == s.uploads[p] else s'.uploads[p].pc == Checking && !s'.uploads[p].inserted
    ensures forall p | p in s.uploads :: p in s'.uploads
  {
    hide WorkerMoves, ThreadMoves, IsPendingBatch, DecideEvent, UploadMoves, SubmissionMoves, DispatcherMoves;
    match step
    case ByWorker(p, m) => WorkerKeepsStore(env, s.sh, s'.sh, s.workers[p], s'.workers[p], m);
    case ByThread(p, m) => ThreadKeepsStore(env, s.sh, s'.sh, p, m);
    case BySubmission(p, m) => SubmissionKeepsStore(s.sh, s'.sh, s.submissions[p], s'.submissions[p], m);
    case ByDispatcher(p, m) => DispatcherKeepsStore(s.sh, s'.sh, s.dispatchers[p], s'.dispatchers[p], m);
    case _ =>
  }

  lemma {:induction false} SubmissionKeepsStore(sh: Shared, sh': Shared, x: Submission, x': Submission, m: SubmissionMove)
    requires SubmissionMoves(sh, sh', x, x', m)
    ensures sh'.db.scenes == sh.db.scenes && sh'.objects == sh.objects
  {
    hide DecideEvent;
  }

  lemma {:induction false} DispatcherKeepsStore(sh: Shared, sh': Shared, x: Dispatcher, x': Dispatcher, m: DispatcherMove)
    requires DispatcherMoves(sh, sh', x, x', m)
    ensures sh'.db.scenes == sh.db.scenes && sh'.objects == sh.objects
  {
    hide IsPendingBatch;
  }

  lemma {:induction false} DigestTakenKept(sh: Shared, sh': Shared, digest: string)
    requires SceneRowsKept(sh, sh')
    ensures DigestTaken(sh'.db, digest) <==> DigestTaken(sh.db, digest)
  {
    if DigestTaken(sh.db, digest) {
      var id :| id in sh.db.scenes && sh.db.scenes[id].sha256 == digest;
      assert id in sh'.db.scenes && sh'.db.scenes[id].sha256 == digest;
    }
    if DigestTaken(sh'.db, digest) {
      var id :| id in sh'.db.scenes && sh'.db.scenes[id].sha256 == digest;
      assert id in sh.db.scenes && sh.db.scenes[id].sha256 == digest;
    }
  }

  lemma {:induction false} StoreInvOthers(env: Env, s: State, s': State, step: Step)
    requires Next(env, s, s', step) && !step.ByUpload? && StoreInv(env, s)
    ensures StoreInv(env, s')
  {
    OthersKeepStore(env, s, s', step);
    forall p | p in s'.uploads ensures UploadOk(env, s'.sh, s'.uploads[p]) {
      if p in s.uploads {
        assert UploadOk(env, s.sh, s.uploads[p]);
        DigestTakenKept(s.sh, s'.sh, env.hash(s.uploads[p].bytes));
      }
    }
  }

  lemma {:induction false} UploadKeepsStore(env: Env, sh: Shared, sh': Shared, x: Upload, x': Upload, m: UploadMove)
    requires UploadMoves(env, sh, sh', x, x', m) && UploadOk(env, sh, x)
    requires ObjectsHashed(env, sh.objects) && ScenesStored(sh)
    ensures ObjectsHashed(env, sh'.objects) && ScenesStored(sh') && UploadOk(env, sh', x')
  {
    if m.Compensate? {
      forall id | id in sh.db.scenes ensures sh.db.scenes[id].sha256 != env.hash(x.bytes) {
      }
    }
  }

  lemma {:induction false} UploadKeepsOthers(env: Env, sh: Shared, sh': Shared, x: Upload, x': Upload, m: UploadMove, y: Upload)
    requires UploadMoves(env, sh, sh', x, x', m) && UploadOk(env, sh, y)
    requires InFlight(x) && InFlight(y) ==> env.hash(x.bytes) != env.hash(y.bytes)
    ensures UploadOk(env, sh', y)
  {
  }

  lemma {:induction false} StoreInvUpload(env: Env, s: State, s': State, step: Step)
    requires Next(env, s, s', step) && step.ByUpload? && StoreInv(env, s) && DistinctUploads(env, s)
    ensures StoreInv(env, s')
  {
    var p := step.p;
    UploadKeepsStore(env, s.sh, s'.sh, s.uploads[p], s'.uploads[p], step.uploadMove);
    forall q | q in s'.uploads && q != p ensures UploadOk(env, s'.sh, s'.uploads[q]) {
      assert UploadOk(env, s.sh, s.uploads[q]);
      UploadKeepsOthers(env, s.sh, s'.sh, s.uploads[p], s'.uploads[p], step.uploadMove, s.uploads[q]);
    }
  }

  ghost predicate AllDistinct(env: Env, run: seq<State>) {
    forall i | 0 <= i < |run| :: DistinctUploads(env, run[i])
  }

  lemma {:induction false} RunStore(env: Env, run: seq<State>, steps: seq<Step>, i: nat)
    requires IsRun(env, run, steps) && i < |run| && AllDistinct(env, run)
    ensures StoreInv(env, run[i])
  {
    if i > 0 {
      RunStore(env, run, steps, i - 1);
      assert StepAt(env, run, steps, i - 1) && DistinctUploads(env, run[i - 1]);
      if steps[i - 1].ByUpload? {
        StoreInvUpload(env, run[i - 1], run[i], steps[i - 1]);
      } else {
        StoreInvOthers(env, run[i - 1], run[i], steps[i - 1]);
      }
    }
  }

  /**
   At every point of every run in which no two uploads of the same bytes are in flight
   together, each scene row's object exists and hashes to the digest in the row.
   */
  lemma {:induction false} SceneObjectExists(env: Env, run: seq<State>, steps: seq<Step>, i: nat, id: string)
    requires IsRun(env, run, steps) && i < |run| && AllDistinct(env, run)
    requires id in run[i].sh.db.scenes
    ensures var sh := run[i].sh;
      && sh.db.scenes[id].sha256 in sh.objects
      && env.hash(sh.objects[sh.db.scenes[id].sha256]) == sh.db.scenes[id].sha256
  {
    RunStore(env, run, steps, i);
  }

  // ---------------------------------------------------------- conservation

  /** Puts are all-or-nothing, compensation succeeds, and no upload is lost while it owns an object. */
  ghost predicate CleanStep(s: State, step: Step) {
    step.ByUpload? ==>
      match step.uploadMove
      case PutObject(stored, ok) => stored == ok
      case Compensate(removed) => removed
      case LoseUpload => step.p in s.uploads && !Owns(s.uploads[step.p])
      case _ => true
  }

  /** It has put its object and neither committed nor removed it. */
  predicate Owns(x: Upload) {
    x.pc in {Storing, Compensating}
  }

  ghost predicate Owned(env: Env, uploads: map<nat, Upload>, digest: string) {
    exists p :: p in uploads && Owns(uploads[p]) && env.hash(uploads[p].bytes) == digest
  }

  /** The object set is exactly the digests of the scenes and of the uploads that own an object. */
  ghost predicate NoOrphans(env: Env, s: State) {
    forall k :: k in s.sh.objects <==> DigestTaken(s.sh.db, k) || Owned(env, s.uploads, k)
  }

  lemma {:induction false} NoOrphansOthers(env: Env, s: State, s': State, step: Step)
    requires Next(env, s, s', step) && !step.ByUpload? && NoOrphans(env, s)
    ensures NoOrphans(env, s')
  {
    OthersKeepStore(env, s, s', step);
    forall k ensures k in s'.sh.objects <==> DigestTaken(s'.sh.db, k) || Owned(env, s'.uploads, k) {
      DigestTakenKept(s.sh, s'.sh, k);
      assert k in s.sh.objects <==> DigestTaken(s.sh.db, k) || Owned(env, s.uploads, k);
      if Owned(env, s.uploads, k) {
        var p :| p in s.uploads && Owns(s.uploads[p]) && env.hash(s.uploads[p].bytes) == k;
        assert p in s'.uploads && Owns(s'.uploads[p]) && env.hash(s'.uploads[p].bytes) == k;
      }
    }
  }

  lemma {:induction false} DigestTakenAfter(env: Env, sh: Shared, sh': Shared, x: Upload, x': Upload, m: UploadMove, k: string)
    requires UploadMoves(env, sh, sh', x, x', m)
    ensures DigestTaken(sh'.db, k) <==> DigestTaken(sh.db, k) || (m.InsertScene? && k == env.hash(x.bytes))
  {
    if m.InsertScene? {
      var id := x.declared.sceneId;
      assert id in sh'.db.scenes && sh'.db.scenes[id].sha256 == env.hash(x.bytes);
      if DigestTaken(sh.db, k) {
        var other :| other in sh.db.scenes && sh.db.scenes[other].sha256 == k;
        assert other in sh'.db.scenes && sh'.db.scenes[other].sha256 == k;
      }
    }
  }

  lemma {:induction false} OwnedAfter(env: Env, s: State, s': State, p: nat, k: string)
    requires p in s.uploads && p in s'.uploads && s'.uploads == s.uploads[p := s'.uploads[p]]
    requires s'.uploads[p].bytes == s.uploads[p].bytes && DistinctUploads(env, s)
    requires k == env.hash(s.uploads[p].bytes) ==> InFlight(s.uploads[p])
    ensures Owned(env, s'.uploads, k)
       <==> if k == env.hash(s.uploads[p].bytes) then Owns(s'.uploads[p]) else Owned(env, s.uploads, k)
  {
    if Owned(env, s'.uploads, k) {
      var q :| q in s'.uploads && Owns(s'.uploads[q]) && env.hash(s'.uploads[q].bytes) == k;
      assert q != p ==> InFlight(s.uploads[q]);
    }
    if Owned(env, s.uploads, k) {
      var q :| q in s.uploads && Owns(s.uploads[q]) && env.hash(s.uploads[q].bytes) == k;
      if q != p {
        assert Owns(s'.uploads[q]);
      }
    }
  }

  lemma {:induction false} OwnedElsewhere(env: Env, s: State, s': State, p: nat, k: string)
    requires p in s.uploads && p in s'.uploads && s'.uploads == s.uploads[p := s'.uploads[p]]
    requires !Owns(s.uploads[p]) && !Owns(s'.uploads[p])
    ensures Owned(env, s'.uploads, k) <==> Owned(env, s.uploads, k)
  {
    if Owned(env, s'.uploads, k) {
      var q :| q in s'.uploads && Owns(s'.uploads[q]) && env.hash(s'.uploads[q].bytes) == k;
      assert q in s.uploads && Owns(s.uploads[q]);
    }
    if Owned(env, s.uploads, k) {
      var q :| q in s.uploads && Owns(s.uploads[q]) && env.hash(s.uploads[q].bytes) == k;
      assert q in s'.uploads && Owns(s'.uploads[q]);
    }
  }

  lemma {:induction false} NoOrphansUpload(env: Env, s: State, s': State, step: Step)
    requires Next(env, s, s', step) && step.ByUpload? && CleanStep(s, step)
    requires NoOrphans(env, s) && StoreInv(env, s) && DistinctUploads(env, s)
    ensures NoOrphans(env, s')
  {
    hide ObjectsHashed, ScenesStored;
    var p, m := step.p, step.uploadMove;
    var x, x' := s.uploads[p], s'.uploads[p];
    assert UploadOk(env, s.sh, x);
    forall k ensures k in s'.sh.objects <==> DigestTaken(s'.sh.db, k) || Owned(env, s'.uploads, k) {
      assert k in s.sh.objects <==> DigestTaken(s.sh.db, k) || Owned(env, s.uploads, k);
      DigestTakenAfter(env, s.sh, s'.sh, x, x', m, k);
      if InFlight(x) {
        OwnedAfter(env, s, s', p, k);
      } else {
        OwnedElsewhere(env, s, s', p, k);
      }
    }
  }

  ghost predicate CleanAt(run: seq<State>, steps: seq<Step>, i: nat)
    requires i < |steps| < |run|
  {
    CleanStep(run[i], steps[i])
  }

  lemma {:induction false} RunNoOrphans(env: Env, run: seq<State>, steps: seq<Step>, i: nat)
    requires IsRun(env, run, steps) && i < |run| && AllDistinct(env, run)
    requires forall k | 0 <= k < |steps| :: CleanAt(run, steps, k)
    ensures NoOrphans(env, run[i])
  {
    if i > 0 {
      RunNoOrphans(env, run, steps, i - 1);
      RunStore(env, run, steps, i - 1);
      assert StepAt(env, run, steps, i - 1) && CleanAt(run, steps, i - 1) && DistinctUploads(env, run[i - 1]);
      if steps[i - 1].ByUpload? {
        NoOrphansUpload(env, run[i - 1], run[i], steps[i - 1]);
      } else {
        NoOrphansOthers(env, run[i - 1], run[i], steps[i - 1]);
      }
    } else {
      assert forall k :: k in run[0].sh.objects <==> DigestTaken(run[0].sh.db, k) || Owned(env, run[0].uploads, k);
    }
  }

  /** Whenever no upload owns an object, the store holds exactly the catalogued digests: rejections leave none behind. */
  lemma {:induction false} StoreMatchesCatalog(env: Env, run: seq<State>, steps: seq<Step>, i: nat)
    requires IsRun(env, run, steps) && i < |run| && AllDistinct(env, run)
    requires forall k | 0 <= k < |steps| :: CleanAt(run, steps, k)
    requires forall p | p in run[i].uploads :: !Owns(run[i].uploads[p])
    ensures forall k :: k in run[i].sh.objects <==> DigestTaken(run[i].sh.db, k)
  {
    RunNoOrphans(env, run, steps, i);
    assert forall k :: !Owned(env, run[i].uploads, k);
  }

  ghost predicate UploadInserted(x: Upload) {
    && (x.pc.Replied? ==> (x.pc.reply == Accepted202 <==> x.inserted))
    && (x.pc == Announcing ==> x.inserted)
    && (x.inserted ==> x.pc in {Announcing, Replied(Accepted202), Dropped})
  }

  lemma {:induction false} RunUploadInserted(env: Env, run: seq<State>, steps: seq<Step>, i: nat, p: nat)
    requires IsRun(env, run, steps) && i < |run| && p in run[i].uploads
    ensures UploadInserted(run[i].uploads[p])
  {
    if i > 0 {
      assert StepAt(env, run, steps, i - 1);
      if p in run[i - 1].uploads {
        RunUploadInserted(env, run, steps, i - 1, p);
        UploadInsertedAfter(env, run[i - 1], run[i], steps[i - 1], p);
      }
    }
  }

  lemma {:induction false} UploadInsertedAfter(env: Env, s: State, s': State, step: Step, p: nat)
    requires Next(env, s, s', step) && p in s.uploads && UploadInserted(s.uploads[p])
    ensures p in s'.uploads && UploadInserted(s'.uploads[p])
    ensures s.uploads[p].inserted ==> s'.uploads[p].inserted
  {
  }

  lemma {:induction false} UploadInsertedStays(env: Env, run: seq<State>, steps: seq<Step>, i: nat, j: nat, p: nat)
    requires IsRun(env, run, steps) && i <= j < |run|
    requires p in run[i].uploads && run[i].uploads[p].inserted
    ensures p in run[j].uploads && run[j].uploads[p].inserted
  {
    if i < j {
      UploadInsertedStays(env, run, steps, i, j - 1, p);
      RunUploadInserted(env, run, steps, j - 1, p);
      assert StepAt(env, run, steps, j - 1);
      UploadInsertedAfter(env, run[j - 1], run[j], steps[j - 1], p);
    }
  }

  /** An upload answered anything but 202 never changed a scene or outbox row. */
  lemma {:induction false} RejectedUploadWritesNoRow(env: Env, run: seq<State>, steps: seq<Step>, i: nat, j: nat, p: nat)
    requires IsRun(env, run, steps) && i < j < |run|
    requires steps[i].ByUpload? && steps[i].p == p
    requires p in run[j].uploads && run[j].uploads[p].pc.Replied? && run[j].uploads[p].pc.reply != Accepted202
    ensures run[i + 1].sh.db == run[i].sh.db
  {
    assert StepAt(env, run, steps, i);
    if steps[i].uploadMove.InsertScene? {
      UploadInsertedStays(env, run, steps, i + 1, j, p);
      RunUploadInserted(env, run, steps, j, p);
      assert false;
    }
  }

  // --------------------------------------- the cases the assumption excludes

  /** A compensating remove whose digest a scene row holds, or an insert whose object is gone. */
  ghost predicate Loses(env: Env, s: State, step: Step) {
    && step.ByUpload? && step.p in s.uploads
    && var digest := env.hash(s.uploads[step.p].bytes);
    match step.uploadMove
    case Compensate(removed) => removed && DigestTaken(s.sh.db, digest)
    case InsertScene(_) => digest !in s.sh.objects
    case _ => false
  }

  /** One remove keeps every scene stored exactly when no scene row holds its digest. */
  lemma {:induction false} CompensationSafeIff(env: Env, sh: Shared, sh': Shared, x: Upload, x': Upload)
    requires ScenesStored(sh) && UploadMoves(env, sh, sh', x, x', Compensate(true))
    ensures ScenesStored(sh') <==> !DigestTaken(sh.db, env.hash(x.bytes))
  {
    var digest := env.hash(x.bytes);
    if DigestTaken(sh.db, digest) {
      var id :| id in sh.db.scenes && sh.db.scenes[id].sha256 == digest;
      assert sh'.db.scenes[id].sha256 !in sh'.objects;
    }
  }

  lemma {:induction false} UploadLosesIff(env: Env, s: State, s': State, step: Step)
    requires Next(env, s, s', step) && step.ByUpload? && ScenesStored(s.sh)
    ensures ScenesStored(s'.sh) <==> !Loses(env, s, step)
  {
    hide DecideScene;
    var x := s.uploads[step.p];
    var digest := env.hash(x.bytes);
    match step.uploadMove {
      case Compensate(true) =>
        CompensationSafeIff(env, s.sh, s'.sh, x, s'.uploads[step.p]);
      case InsertScene(_) =>
        assert s'.sh.db.scenes[x.declared.sceneId].sha256 == digest;
      case _ =>
        assert s'.sh.db.scenes == s.sh.db.scenes;
    }
  }

  lemma {:induction false} StepLosesIff(env: Env, s: State, s': State, step: Step)
    requires Next(env, s, s', step) && ScenesStored(s.sh)
    ensures ScenesStored(s'.sh) <==> !Loses(env, s, step)
  {
    if step.ByUpload? {
      UploadLosesIff(env, s, s', step);
    } else {
      hide Next;
      OthersKeepStore(env, s, s', step);
    }
  }

  ghost predicate StoredUpTo(run: seq<State>, n: nat)
    requires n < |run|
  {
    forall i | 0 <= i <= n :: ScenesStored(run[i].sh)
  }

  ghost predicate NoneLost(env: Env, run: seq<State>, steps: seq<Step>, n: nat)
    requires n <= |steps| < |run|
  {
    forall i | 0 <= i < n :: !Loses(env, run[i], steps[i])
  }

  /**
   Exactly when the store holds what the catalog names, in any run at all: every scene row has
   its object in every state, if and only if every compensating remove so far met a digest that
   no row held, and every insert so far found its object still in the store.
   */
  lemma {:induction false} ScenesStoredIff(env: Env, run: seq<State>, steps: seq<Step>, n: nat)
    requires IsRun(env, run, steps) && n < |run|
    ensures StoredUpTo(run, n) <==> NoneLost(env, run, steps, n)
  {
    hide ScenesStored, Loses;
    if n == 0 {
      NothingStored();
    } else {
      ScenesStoredIff(env, run, steps, n - 1);
      assert StepAt(env, run, steps, n - 1);
      if StoredUpTo(run, n - 1) {
        StepLosesIff(env, run[n - 1], run[n], steps[n - 1]);
      }
    }
  }

  lemma {:induction false} NothingStored()
    ensures ScenesStored(INITIAL.sh)
  {
  }

  /** `a` then `b` as declared for the same readable bytes, at a given point of their two uploads. */
  function Duel(env: Env, sh: Shared, a: Declared, b: Declared, bytes: Bytes, pa: UploadPc, pb: UploadPc): State {
    State(sh, map[], map[0 := Upload(a, bytes, 0, pa == Announcing, pa), 1 := Upload(b, bytes, 1, false, pb)], map[], map[])
  }

  function AfterWinner(env: Env, a: Declared, bytes: Bytes): Option<Db> {
    PersistScene(EMPTY_DB, a, env.hash(bytes), 0, 0)
  }

  /** The states of a run in which the loser of a race between identical bytes undoes the winner's put. */
  function DuelState(env: Env, a: Declared, b: Declared, bytes: Bytes, i: nat): State
    requires AfterWinner(env, a, bytes).Some?
  {
    var digest, sh := env.hash(bytes), INITIAL.sh;
    var put := sh.(objects := map[digest := bytes]);
    var won := put.(db := AfterWinner(env, a, bytes).value);
    if i == 0 then INITIAL
    else if i == 1 then State(sh, map[], map[0 := Upload(a, bytes, 0, false, Checking)], map[], map[])
    else if i == 2 then Duel(env, sh, a, b, bytes, Checking, Checking)
    else if i == 3 then Duel(env, sh, a, b, bytes, Putting, Checking)
    else if i == 4 then Duel(env, sh, a, b, bytes, Putting, Putting)
    else if i == 5 then Duel(env, put, a, b, bytes, Storing, Putting)
    else if i == 6 then Duel(env, put, a, b, bytes, Storing, Storing)
    else if i == 7 then Duel(env, won, a, b, bytes, Announcing, Storing)
    else if i == 8 then Duel(env, won, a, b, bytes, Announcing, Compensating)
    else Duel(env, won.(objects := map[]), a, b, bytes, Announcing, Replied(Failed500))
  }

  function DuelStep(a: Declared, b: Declared, bytes: Bytes, i: nat): Step {
    if i == 0 then ArriveScene(0, a, bytes, 0)
    else if i == 1 then ArriveScene(1, b, bytes, 1)
    else if i == 2 then ByUpload(0, LookUpScene)
    else if i == 3 then ByUpload(1, LookUpScene)
    else if i == 4 then ByUpload(0, PutObject(true, true))
    else if i == 5 then ByUpload(1, PutObject(true, true))
    else if i == 6 then ByUpload(0, InsertScene(0))
    else if i == 7 then ByUpload(1, InsertSceneFails)
    else ByUpload(1, Compensate(true))
  }

  /** Any bytes readable under two declarations; the second declares another scene. */
  ghost predicate CanDuel(env: Env, a: Declared, b: Declared, bytes: Bytes) {
    && env.inspect(bytes, None).Some? && env.inspect(bytes, Some(a)).Some? && env.inspect(bytes, Some(b)).Some?
    && a.sceneId != b.sceneId
  }

  lemma {:induction false} DuelArrivals(env: Env, a: Declared, b: Declared, bytes: Bytes, i: nat)
    requires CanDuel(env, a, b, bytes) && i < 2
    ensures AfterWinner(env, a, bytes).Some?
    ensures Next(env, DuelState(env, a, b, bytes, i), DuelState(env, a, b, bytes, i + 1), DuelStep(a, b, bytes, i))
  {
    hide WorkerMoves, ThreadMoves, DispatcherMoves, SubmissionMoves;
  }

  lemma {:induction false} DuelLookups(env: Env, a: Declared, b: Declared, bytes: Bytes, i: nat)
    requires CanDuel(env, a, b, bytes) && 2 <= i < 4
    ensures AfterWinner(env, a, bytes).Some?
    ensures Next(env, DuelState(env, a, b, bytes, i), DuelState(env, a, b, bytes, i + 1), DuelStep(a, b, bytes, i))
  {
    hide WorkerMoves, ThreadMoves, DispatcherMoves, SubmissionMoves;
  }

  lemma {:induction false} DuelPuts(env: Env, a: Declared, b: Declared, bytes: Bytes, i: nat)
    requires CanDuel(env, a, b, bytes) && 4 <= i < 6
    ensures AfterWinner(env, a, bytes).Some?
    ensures Next(env, DuelState(env, a, b, bytes, i), DuelState(env, a, b, bytes, i + 1), DuelStep(a, b, bytes, i))
  {
    hide WorkerMoves, ThreadMoves, DispatcherMoves, SubmissionMoves;
  }

  lemma {:induction false} DuelInsert(env: Env, a: Declared, b: Declared, bytes: Bytes, i: nat)
    requires CanDuel(env, a, b, bytes) && 6 <= i < 8
    ensures AfterWinner(env, a, bytes).Some?
    ensures Next(env, DuelState(env, a, b, bytes, i), DuelState(env, a, b, bytes, i + 1), DuelStep(a, b, bytes, i))
  {
    hide WorkerMoves, ThreadMoves, DispatcherMoves, SubmissionMoves;
  }

  lemma {:induction false} DuelEnd(env: Env, a: Declared, b: Declared, bytes: Bytes, i: nat)
    requires CanDuel(env, a, b, bytes) && i == 8
    ensures AfterWinner(env, a, bytes).Some?
    ensures Next(env, DuelState(env, a, b, bytes, i), DuelState(env, a, b, bytes, i + 1), DuelStep(a, b, bytes, i))
  {
    hide WorkerMoves, ThreadMoves, DispatcherMoves, SubmissionMoves;
    assert map[env.hash(bytes) := bytes] - {env.hash(bytes)} == map[];
  }

  /** Without the assumption the property is false: here a scene row outlives its object. */
  lemma {:induction false} LoserDeletesWinnersObject(env: Env, a: Declared, b: Declared, bytes: Bytes)
    returns (run: seq<State>, steps: seq<Step>)
    requires CanDuel(env, a, b, bytes)
    ensures IsRun(env, run, steps)
    ensures var sh := run[|run| - 1].sh; a.sceneId in sh.db.scenes && sh.db.scenes[a.sceneId].sha256 !in sh.objects
  {
    hide Next;
    run := seq(10, i requires 0 <= i < 10 => DuelState(env, a, b, bytes, i));
    steps := seq(9, i requires 0 <= i < 9 => DuelStep(a, b, bytes, i));
    forall i | 0 <= i < |steps| ensures StepAt(env, run, steps, i) {
      if i < 2 {
        DuelArrivals(env, a, b, bytes, i);
      } else if i < 4 {
        DuelLookups(env, a, b, bytes, i);
      } else if i < 6 {
        DuelPuts(env, a, b, bytes, i);
      } else if i < 8 {
        DuelInsert(env, a, b, bytes, i);
      } else {
        DuelEnd(env, a, b, bytes, i);
      }
    }
  }

  /** A run in which an upload undoes its own put, and a second upload of the same bytes then inserts its row. */
  function RelayState(env: Env, a: Declared, b: Declared, bytes: Bytes, i: nat): State
    requires AfterWinner(env, b, bytes).Some?
  {
    var sh := INITIAL.sh;
    var put := sh.(objects := map[env.hash(bytes) := bytes]);
    var failed := (x: UploadPc) => Upload(a, bytes, 1, false, x);
    var relay := (s: Shared, x: UploadPc, y: UploadPc) =>
      State(s, map[], map[0 := Upload(b, bytes, 0, y == Announcing, y), 1 := failed(x)], map[], map[]);
    if i == 0 then INITIAL
    else if i == 1 then State(sh, map[], map[0 := Upload(b, bytes, 0, false, Checking)], map[], map[])
    else if i == 2 then relay(sh, Checking, Checking)
    else if i == 3 then relay(sh, Checking, Putting)
    else if i == 4 then relay(sh, Putting, Putting)
    else if i == 5 then relay(put, Storing, Putting)
    else if i == 6 then relay(put, Storing, Storing)
    else if i == 7 then relay(put, Compensating, Storing)
    else if i == 8 then relay(sh, Replied(Failed500), Storing)
    else relay(sh.(db := AfterWinner(env, b, bytes).value), Replied(Failed500), Announcing)
  }

  function RelayStep(a: Declared, b: Declared, bytes: Bytes, i: nat): Step {
    if i == 0 then ArriveScene(0, b, bytes, 0)
    else if i == 1 then ArriveScene(1, a, bytes, 1)
    else if i == 2 then ByUpload(0, LookUpScene)
    else if i == 3 then ByUpload(1, LookUpScene)
    else if i == 4 then ByUpload(1, PutObject(true, true))
    else if i == 5 then ByUpload(0, PutObject(true, true))
    else if i == 6 then ByUpload(1, InsertSceneFails)
    else if i == 7 then ByUpload(1, Compensate(true))
    else ByUpload(0, InsertScene(0))
  }

  /** Any bytes readable under both declarations. */
  ghost predicate CanRelay(env: Env, a: Declared, b: Declared, bytes: Bytes) {
    env.inspect(bytes, None).Some? && env.inspect(bytes, Some(a)).Some? && env.inspect(bytes, Some(b)).Some?
  }

  lemma {:induction false} RelayBegins(env: Env, a: Declared, b: Declared, bytes: Bytes, i: nat)
    requires CanRelay(env, a, b, bytes) && i < 4
    ensures AfterWinner(env, b, bytes).Some?
    ensures Next(env, RelayState(env, a, b, bytes, i), RelayState(env, a, b, bytes, i + 1), RelayStep(a, b, bytes, i))
  {
    hide WorkerMoves, ThreadMoves, DispatcherMoves, SubmissionMoves;
  }

  lemma {:induction false} RelayPuts(env: Env, a: Declared, b: Declared, bytes: Bytes, i: nat)
    requires CanRelay(env, a, b, bytes) && 4 <= i < 7
    ensures AfterWinner(env, b, bytes).Some?
    ensures Next(env, RelayState(env, a, b, bytes, i), RelayState(env, a, b, bytes, i + 1), RelayStep(a, b, bytes, i))
  {
    hide WorkerMoves, ThreadMoves, DispatcherMoves, SubmissionMoves;
  }

  lemma {:induction false} RelayEnds(env: Env, a: Declared, b: Declared, bytes: Bytes, i: nat)
    requires CanRelay(env, a, b, bytes) && 7 <= i < 9
    ensures AfterWinner(env, b, bytes).Some?
    ensures Next(env, RelayState(env, a, b, bytes, i), RelayState(env, a, b, bytes, i + 1), RelayStep(a, b, bytes, i))
  {
    hide WorkerMoves, ThreadMoves, DispatcherMoves, SubmissionMoves;
    assert map[env.hash(bytes) := bytes] - {env.hash(bytes)} == map[];
  }

  /** And without a remove ever meeting a row: here the row comes after the remove. */
  lemma {:induction false} RowAfterRemove(env: Env, a: Declared, b: Declared, bytes: Bytes)
    returns (run: seq<State>, steps: seq<Step>)
    requires CanRelay(env, a, b, bytes)
    ensures IsRun(env, run, steps)
    ensures forall i | 0 <= i < |steps| && steps[i].ByUpload? && steps[i].uploadMove.Compensate? ::
      !DigestTaken(run[i].sh.db, env.hash(bytes))
    ensures var sh := run[|run| - 1].sh; b.sceneId in sh.db.scenes && sh.db.scenes[b.sceneId].sha256 !in sh.objects
  {
    hide Next;
    RelayBegins(env, a, b, bytes, 0);
    run := seq(10, i requires 0 <= i < 10 => RelayState(env, a, b, bytes, i));
    steps := seq(9, i requires 0 <= i < 9 => RelayStep(a, b, bytes, i));
    forall i | 0 <= i < |steps| ensures StepAt(env, run, steps, i) {
      if i < 4 {
        RelayBegins(env, a, b, bytes, i);
      } else if i < 7 {
        RelayPuts(env, a, b, bytes, i);
      } else {
        RelayEnds(env, a, b, bytes, i);
      }
    }
  }
}
