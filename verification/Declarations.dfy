/** What an upload declared stays in the catalog, over every run: who catalogued a row, and that its worker can check it. */
module Declarations {
  import opened Common
  import opened Schema
  import opened Protocol
  import opened Growth
  import opened Custody
  import opened Store

  /** The row says what the upload declared, and names its bytes. */
  ghost predicate Declares(env: Env, db: Db, x: Upload) {
    && x.declared.sceneId in db.scenes
    && var row := db.scenes[x.declared.sceneId];
    row.source == x.declared.source && row.captureTime == x.declared.captureTime && row.sha256 == env.hash(x.bytes)
  }

  ghost predicate Inspected(env: Env, x: Upload) {
    env.inspect(x.bytes, Some(x.declared)).Some?
  }

  ghost predicate UploadDeclares(env: Env, db: Db, x: Upload) {
    && (x.pc in {Putting, Storing} ==> Inspected(env, x))
    && (x.inserted ==> Inspected(env, x) && Declares(env, db, x))
    && (x.pc in {Announcing, Replied(Accepted202)} ==> x.inserted)
    && (x.inserted ==> x.pc in {Announcing, Replied(Accepted202), Dropped})
  }

  ghost predicate UploadsDeclare(env: Env, s: State) {
    forall p | p in s.uploads :: UploadDeclares(env, s.sh.db, s.uploads[p])
  }

  ghost predicate CataloguedBy(env: Env, s: State, id: string, p: nat) {
    p in s.uploads && s.uploads[p].inserted && s.uploads[p].declared.sceneId == id
  }

  /** Every scene was catalogued by some upload. */
  ghost predicate AllCatalogued(env: Env, s: State) {
    forall id | id in s.sh.db.scenes :: exists p :: CataloguedBy(env, s, id, p)
  }

  ghost predicate DeclarationInv(env: Env, s: State) {
    UploadsDeclare(env, s) && AllCatalogued(env, s) && ObjectsHashed(env, s.sh.objects)
  }

  lemma {:induction false} DeclaresStable(env: Env, db: Db, db': Db, x: Upload)
    requires DbGrows(db, db') && UploadDeclares(env, db, x)
    ensures UploadDeclares(env, db', x)
  {
    if x.inserted {
      assert SceneGrows(db.scenes[x.declared.sceneId], db'.scenes[x.declared.sceneId]);
    }
  }

  lemma {:induction false} UploadDeclaresAfter(env: Env, sh: Shared, sh': Shared, x: Upload, x': Upload, m: UploadMove)
    requires UploadMoves(env, sh, sh', x, x', m) && UploadDeclares(env, sh.db, x)
    ensures UploadDeclares(env, sh'.db, x') && x'.declared == x.declared && (x.inserted ==> x'.inserted)
    ensures sh'.db.scenes.Keys == sh.db.scenes.Keys || (sh'.db.scenes.Keys == sh.db.scenes.Keys + {x.declared.sceneId} && x'.inserted)
    ensures ObjectsHashed(env, sh.objects) ==> ObjectsHashed(env, sh'.objects)
  {
    if m.InsertScene? {
      ScenePersisted(sh.db, x.declared, env.hash(x.bytes), x.messageId, m.now);
    }
    hide PersistScene;
  }

  lemma {:induction false} StepDeclares(env: Env, s: State, s': State, step: Step)
    requires env.CollisionFree() && Inv(env, s) && Next(env, s, s', step) && DeclarationInv(env, s)
    ensures DeclarationInv(env, s')
  {
    StepGrows(env, s, s', step);
    if step.ByUpload? {
      var p := step.p;
      assert UploadDeclares(env, s.sh.db, s.uploads[p]);
      UploadDeclaresAfter(env, s.sh, s'.sh, s.uploads[p], s'.uploads[p], step.uploadMove);
      UploadStepDeclares(env, s, s', step);
    } else {
      OthersKeepStore(env, s, s', step);
      OtherStepDeclares(env, s, s', step);
    }
  }

  lemma {:induction false} UploadStepDeclares(env: Env, s: State, s': State, step: Step)
    requires Next(env, s, s', step) && DeclarationInv(env, s) && step.ByUpload? && DbGrows(s.sh.db, s'.sh.db)
    requires var x, x' := s.uploads[step.p], s'.uploads[step.p];
      && UploadDeclares(env, s'.sh.db, x') && x'.declared == x.declared && (x.inserted ==> x'.inserted)
      && (s'.sh.db.scenes.Keys == s.sh.db.scenes.Keys || (s'.sh.db.scenes.Keys == s.sh.db.scenes.Keys + {x.declared.sceneId} && x'.inserted))
      && ObjectsHashed(env, s'.sh.objects)
    ensures DeclarationInv(env, s')
  {
    hide UploadMoves, DbGrows, ObjectsHashed, UploadDeclares;
    var p := step.p;
    assert s'.uploads == s.uploads[p := s'.uploads[p]];
    forall q | q in s'.uploads ensures UploadDeclares(env, s'.sh.db, s'.uploads[q]) {
      if q != p {
        DeclaresStable(env, s.sh.db, s'.sh.db, s.uploads[q]);
      }
    }
    forall id | id in s'.sh.db.scenes ensures exists q :: CataloguedBy(env, s', id, q) {
      if id in s.sh.db.scenes {
        var q :| CataloguedBy(env, s, id, q);
        assert CataloguedBy(env, s', id, q);
      } else {
        assert CataloguedBy(env, s', id, p);
      }
    }
  }

  lemma {:induction false} OtherStepDeclares(env: Env, s: State, s': State, step: Step)
    requires DeclarationInv(env, s) && DbGrows(s.sh.db, s'.sh.db) && SceneRowsKept(s.sh, s'.sh) && s'.sh.objects == s.sh.objects
    requires forall p | p in s'.uploads :: if p in s.uploads then s'.uploads[p] == s.uploads[p] else s'.uploads[p].pc == Checking && !s'.uploads[p].inserted
    requires forall p | p in s.uploads :: p in s'.uploads
    ensures DeclarationInv(env, s')
  {
    hide DbGrows, ObjectsHashed;
    forall q | q in s'.uploads ensures UploadDeclares(env, s'.sh.db, s'.uploads[q]) {
      if q in s.uploads {
        DeclaresStable(env, s.sh.db, s'.sh.db, s.uploads[q]);
      }
    }
    forall id | id in s'.sh.db.scenes ensures exists q :: CataloguedBy(env, s', id, q) {
      var q :| CataloguedBy(env, s, id, q);
      assert CataloguedBy(env, s', id, q);
    }
  }

  lemma {:induction false} RunDeclares(env: Env, run: seq<State>, steps: seq<Step>, i: nat)
    requires env.CollisionFree() && IsRun(env, run, steps) && i < |run|
    ensures DeclarationInv(env, run[i])
  {
    if i > 0 {
      RunDeclares(env, run, steps, i - 1);
      RunInv(env, run, steps, i - 1);
      assert StepAt(env, run, steps, i - 1);
      StepDeclares(env, run[i - 1], run[i], steps[i - 1]);
    }
  }

  /** The answer a lookup settles on, for each way the id and the bytes can be catalogued; otherwise it goes on to put. */
  lemma {:induction false} LookupDecides(env: Env, db: Db, x: Upload)
    ensures var pc, id, digest := DecideScene(env, db, x), x.declared.sceneId, env.hash(x.bytes);
      var stored := exists other :: other in db.scenes && db.scenes[other].sha256 == digest;
      && (pc == Replied(IdConflict409) <==> id in db.scenes && db.scenes[id].sha256 != digest)
      && (pc == Replied(Replayed200) <==> (id in db.scenes && db.scenes[id].sha256 == digest) || (id !in db.scenes && stored))
      && (pc == Replied(Invalid422) <==> id !in db.scenes && !stored && env.inspect(x.bytes, Some(x.declared)).None?)
      && (pc == Putting <==> id !in db.scenes && !stored && env.inspect(x.bytes, Some(x.declared)).Some?)
  {
  }

  // -------------------------------------------------------------- theorems

  /** An upload answered 202 has inserted, and what it declared is in the catalog at every later moment. */
  lemma {:induction false} DeclaredForEver(env: Env, run: seq<State>, steps: seq<Step>, i: nat, j: nat, p: nat)
    requires env.CollisionFree() && IsRun(env, run, steps) && i <= j < |run| && p in run[i].uploads
    ensures run[i].uploads[p].pc == Replied(Accepted202) ==> run[i].uploads[p].inserted
    ensures run[i].uploads[p].inserted ==> Declares(env, run[j].sh.db, run[i].uploads[p])
  {
    RunDeclares(env, run, steps, i);
    RunGrows(env, run, steps, i, j);
    assert UploadDeclares(env, run[i].sh.db, run[i].uploads[p]);
    DeclaresStable(env, run[i].sh.db, run[j].sh.db, run[i].uploads[p]);
  }

  /** Every scene row was declared as it stands by an upload whose bytes were inspected against that declaration. */
  lemma {:induction false} EveryRowDeclared(env: Env, run: seq<State>, steps: seq<Step>, i: nat, id: string) returns (p: nat)
    requires env.CollisionFree() && IsRun(env, run, steps) && i < |run| && id in run[i].sh.db.scenes
    ensures p in run[i].uploads
    ensures var x, row := run[i].uploads[p], run[i].sh.db.scenes[id];
      && x.inserted && x.declared == Declared(id, row.source, row.captureTime)
      && env.hash(x.bytes) == row.sha256 && env.inspect(x.bytes, Some(x.declared)).Some?
  {
    RunDeclares(env, run, steps, i);
    p :| CataloguedBy(env, run[i], id, p);
    assert UploadDeclares(env, run[i].sh.db, run[i].uploads[p]);
  }

  /**
   So while the object of a scene is stored, the worker's digest check and its inspection
   against the catalogued declaration both succeed.
   */
  lemma {:induction false} ChecksSucceed(env: Env, run: seq<State>, steps: seq<Step>, i: nat, id: string)
    requires env.CollisionFree() && IsRun(env, run, steps) && i < |run| && id in run[i].sh.db.scenes
    requires run[i].sh.db.scenes[id].sha256 in run[i].sh.objects
    ensures var row, objects := run[i].sh.db.scenes[id], run[i].sh.objects;
      && env.hash(objects[row.sha256]) == row.sha256
      && env.inspect(objects[row.sha256], Some(Declared(id, row.source, row.captureTime))).Some?
  {
    var p := EveryRowDeclared(env, run, steps, i, id);
    RunDeclares(env, run, steps, i);
  }

  /** And the worker that has located the scene can go on to complete it. */
  lemma {:induction false} CompletionEnabled(env: Env, run: seq<State>, steps: seq<Step>, i: nat, q: nat, t: nat)
    requires env.CollisionFree() && IsRun(env, run, steps) && i < |run| && q in run[i].workers && t !in run[i].sh.threads
    requires run[i].workers[q].pc.Located? && run[i].workers[q].pc.digest in run[i].sh.objects
    ensures var sh, x := run[i].sh, run[i].workers[q];
      var raster := env.inspect(sh.objects[x.pc.digest], Some(x.pc.declared));
      && raster.Some?
      && var job := CompleteJob(x.pc.declared.sceneId, x.pc.digest, raster.value);
      WorkerMoves(env, sh, sh.(threads := sh.threads[t := Thread(job, Begun)]), x, x.(pc := Running(x.pc.delivery, t)), FetchAndComplete(t))
  {
    RunInv(env, run, steps, i);
    var sh, x := run[i].sh, run[i].workers[q];
    assert WorkerOk(env, sh, x);
    ChecksSucceed(env, run, steps, i, x.pc.declared.sceneId);
  }
}
