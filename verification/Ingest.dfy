/** The ingest API serving one upload after another: staging, the decisions, and the compensation. */
module Ingest {
  import opened Common
  import opened Schema

  const MAX_UPLOAD_BYTES := 16 * 1024 * 1024
  const CHUNK_BYTES := 1024 * 1024

  /** One POST: metadata that parsed or not, the lower-cased file suffix, and the body. */
  datatype Request = Request(metadata: Option<Declared>, checksum: Option<string>, suffix: string, content: Bytes)

  /** What happens outside this process while it is served. */
  datatype Effects = Effects(reachable: bool, putStored: bool, putReturns: bool, commits: bool, removes: bool)

  /** The error codes of the API. */
  datatype Code = InvalidSceneMetadata | UnsupportedMediaType | UploadTooLarge | EmptyUpload | InvalidRaster
                | ChecksumMismatch | SceneIdConflict | IngestFailed

  /** An error, or the id of the scene that a 200 or a 202 reports. */
  datatype Answer = Error(status: nat, code: Code) | Payload(status: nat, sceneId: string)

  datatype Staged = Staged(path: nat) | Refused(code: Code)

  predicate Staging(r: Request) {
    r.suffix in {".tif", ".tiff"} && 0 < |r.content| <= MAX_UPLOAD_BYTES
  }

  /** Readable, and not contradicting a declared checksum. */
  predicate Sound(env: Env, r: Request) {
    && r.metadata.Some? && Staging(r) && env.inspect(r.content, None).Some?
    && (r.checksum.Some? && r.checksum.value != "" ==> r.checksum.value == env.hash(r.content))
  }

  /** Its scene id already identifies other content. */
  predicate Conflicts(env: Env, db: Db, r: Request)
    requires r.metadata.Some?
  {
    var id := r.metadata.value.sceneId;
    id in db.scenes && db.scenes[id].sha256 != env.hash(r.content)
  }

  /** Neither its scene id nor its content is catalogued. */
  predicate Novel(env: Env, db: Db, r: Request)
    requires r.metadata.Some?
  {
    r.metadata.value.sceneId !in db.scenes && !DigestTaken(db, env.hash(r.content))
  }

  predicate Admissible(env: Env, db: Db, r: Request) {
    Sound(env, r) && Novel(env, db, r) && env.inspect(r.content, Some(r.metadata.value)).Some?
  }

  predicate Mismatch(env: Env, r: Request) {
    r.checksum.Some? && r.checksum.value != "" && r.checksum.value != env.hash(r.content)
  }

  /** Which code goes with which reason, and which scene is reported: for a replay, one catalogued with the uploaded bytes. */
  ghost predicate AnswerTells(env: Env, before: Db, r: Request, a: Answer) {
    match a
    case Error(status, code) =>
      && (code == InvalidSceneMetadata <==> r.metadata.None?)
      && (code == UnsupportedMediaType <==> status == 415) && (code == UploadTooLarge <==> status == 413)
      && (code == EmptyUpload <==> r.metadata.Some? && r.suffix in {".tif", ".tiff"} && r.content == [])
      && (code == ChecksumMismatch <==> r.metadata.Some? && Staging(r) && env.inspect(r.content, None).Some? && Mismatch(env, r))
      && (code == SceneIdConflict <==> status == 409) && (code == IngestFailed <==> status == 500)
      && status !in {200, 202}
    case Payload(status, sceneId) => status in {200, 202} && ReportTells(env, before, r, status, sceneId)
  }

  ghost predicate ReportTells(env: Env, before: Db, r: Request, status: nat, scene: string) {
    && r.metadata.Some?
    && (status == 202 || r.metadata.value.sceneId in before.scenes ==> scene == r.metadata.value.sceneId)
    && (status == 200 ==> scene in before.scenes && before.scenes[scene].sha256 == env.hash(r.content))
  }

  /** Every scene row's object exists, and every object hashes to its name. */
  ghost predicate Stored(env: Env, db: Db, objects: map<string, Bytes>) {
    && (forall k | k in objects :: env.hash(objects[k]) == k)
    && (forall id | id in db.scenes :: db.scenes[id].sha256 in objects)
  }

  ghost predicate Exact(db: Db, objects: map<string, Bytes>) {
    forall k :: k in objects <==> DigestTaken(db, k)
  }

  /** All-or-nothing put, and a remove that works. */
  predicate Clean(e: Effects) {
    e.putStored == e.putReturns && e.removes
  }

  lemma {:induction false} DigestsAfterInsert(db: Db, d: Declared, digest: string, messageId: nat, now: int, k: string)
    requires PersistScene(db, d, digest, messageId, now).Some?
    ensures DigestTaken(PersistScene(db, d, digest, messageId, now).value, k) <==> DigestTaken(db, k) || k == digest
  {
    var after := PersistScene(db, d, digest, messageId, now).value;
    assert d.sceneId in after.scenes && after.scenes[d.sceneId].sha256 == digest;
    if DigestTaken(db, k) {
      var id :| id in db.scenes && db.scenes[id].sha256 == k;
      assert id in after.scenes && after.scenes[id].sha256 == k;
    }
  }

  /** After an insert, the new object is stored and the old ones still are. */
  lemma {:induction false} InsertKeepsStored(env: Env, db: Db, objects: map<string, Bytes>, d: Declared, content: Bytes,
                                             messageId: nat, now: int)
    requires Stored(env, db, objects) && d.sceneId !in db.scenes && !DigestTaken(db, env.hash(content)) && messageId !in db.outbox
    ensures PersistScene(db, d, env.hash(content), messageId, now).Some?
    ensures var db', objects' := PersistScene(db, d, env.hash(content), messageId, now).value, objects[env.hash(content) := content];
      Stored(env, db', objects') && (Exact(db, objects) ==> Exact(db', objects'))
  {
    var digest := env.hash(content);
    var db', objects' := PersistScene(db, d, digest, messageId, now).value, objects[digest := content];
    forall k ensures Exact(db, objects) ==> (k in objects' <==> DigestTaken(db', k)) {
      DigestsAfterInsert(db, d, digest, messageId, now, k);
    }
  }

  /** The store after an upload that got as far as its put and then failed. */
  function Leftover(env: Env, objects: map<string, Bytes>, content: Bytes, e: Effects): map<string, Bytes> {
    var digest := env.hash(content);
    var put := if e.putStored then objects[digest := content] else objects;
    if e.putReturns && e.removes then put - {digest} else put
  }

  lemma {:induction false} LeftoverKeepsStored(env: Env, db: Db, objects: map<string, Bytes>, content: Bytes, e: Effects)
    requires Stored(env, db, objects) && !DigestTaken(db, env.hash(content)) && (e.putReturns ==> e.putStored)
    ensures Stored(env, db, Leftover(env, objects, content, e))
    ensures Exact(db, objects) && Clean(e) ==> Leftover(env, objects, content, e) == objects
  {
    var digest := env.hash(content);
    if Exact(db, objects) && Clean(e) {
      assert digest !in objects;
      assert objects[digest := content] - {digest} == objects;
    }
  }

  class IngestApi {
    const env: Env
    var db: Db
    var objects: map<string, Bytes>
    /** Temporary files, by path. */
    var temporary: map<nat, Bytes>

    constructor (env: Env)
      ensures this.env == env && db == EMPTY_DB && objects == map[] && temporary == map[]
    {
      this.env, db, objects, temporary := env, EMPTY_DB, map[], map[];
    }

    /** `_stage_upload`: copy the body to a temporary file a chunk at a time, or leave none. */
    method StageUpload(suffix: string, content: Bytes, path: nat) returns (staged: Staged)
      requires path !in temporary
      modifies this`temporary
      ensures staged == Staged(path) || staged.Refused?
      ensures staged.Staged? <==> suffix in {".tif", ".tiff"} && 0 < |content| <= 16_777_216
      ensures staged == Refused(UnsupportedMediaType) <==> suffix !in {".tif", ".tiff"}
      ensures staged == Refused(UploadTooLarge) <==> suffix in {".tif", ".tiff"} && |content| > 16_777_216
      ensures staged == Refused(EmptyUpload) <==> suffix in {".tif", ".tiff"} && content == []
      ensures temporary == if staged.Staged? then old(temporary)[path := content] else old(temporary)
    {
      if suffix !in {".tif", ".tiff"} {
        return Refused(UnsupportedMediaType);
      }
      temporary := temporary[path := []];
      var total := 0;
      while total < |content|
        invariant 0 <= total <= |content| && total <= MAX_UPLOAD_BYTES
        invariant temporary == old(temporary)[path := content[..total]]
      {
        var chunk := content[total..Min(total + CHUNK_BYTES, |content|)];
        total := total + |chunk|;
        if total > MAX_UPLOAD_BYTES {
          temporary := temporary - {path};
          return Refused(UploadTooLarge);
        }
        assert content[..total] == content[..total - |chunk|] + chunk;
        temporary := temporary[path := temporary[path] + chunk];
      }
      assert content[..total] == content;
      if total == 0 {
        temporary := temporary - {path};
        return Refused(EmptyUpload);
      }
      staged := Staged(path);
    }

    /** `_existing_scenes`: the scene with this id, and a scene with this content. */
    method ExistingScenes(sceneId: string, digest: string) returns (byId: Option<string>, byDigest: Option<string>)
      ensures byId == if sceneId in db.scenes then Some(sceneId) else None
      ensures byDigest.Some? <==> DigestTaken(db, digest)
      ensures byDigest.Some? ==> byDigest.value in db.scenes && db.scenes[byDigest.value].sha256 == digest
    {
      byId := if sceneId in db.scenes then Some(sceneId) else None;
      byDigest := None;
      if id :| id in db.scenes && db.scenes[id].sha256 == digest {
        byDigest := Some(id);
      }
    }

    /**
     `ingest_scene`. The answer is fixed by the request, the catalog and the effects; the
     temporary file never survives; a scene is catalogued only with its object stored.
     */
    method IngestScene(r: Request, e: Effects, messageId: nat, now: int, path: nat) returns (answer: Answer)
      requires path !in temporary && messageId !in db.outbox && (e.putReturns ==> e.putStored)
      requires Stored(env, db, objects)
      modifies this
      ensures temporary == old(temporary) && Stored(env, db, objects)
      ensures answer.status == 415 <==> r.metadata.Some? && r.suffix !in {".tif", ".tiff"}
      ensures answer.status == 413 <==> r.metadata.Some? && r.suffix in {".tif", ".tiff"} && |r.content| > 16_777_216
      ensures answer.status == 409 <==> Sound(env, r) && e.reachable && Conflicts(env, old(db), r)
      ensures answer.status == 200 <==> Sound(env, r) && e.reachable && !Conflicts(env, old(db), r) && !Novel(env, old(db), r)
      ensures answer.status == 202 <==> Admissible(env, old(db), r) && e.reachable && e.putReturns && e.commits
      ensures answer.status == 500 <==> Sound(env, r) && (!e.reachable || (Admissible(env, old(db), r) && !(e.putReturns && e.commits)))
      ensures answer.status in {200, 202, 409, 413, 415, 422, 500} && AnswerTells(env, old(db), r, answer)
      ensures answer.status == 202 ==>
        && PersistScene(old(db), r.metadata.value, env.hash(r.content), messageId, now) == Some(db)
        && SceneAdded(old(db), db, r.metadata.value, env.hash(r.content), messageId, now)
        && objects == old(objects)[env.hash(r.content) := r.content]
      ensures answer.status != 202 ==> db == old(db)
      ensures answer.status !in {202, 500} ==> objects == old(objects)
      ensures answer.status == 500 ==>
        objects == if e.reachable then Leftover(env, old(objects), r.content, e) else old(objects)
      ensures old(Exact(db, objects)) && Clean(e) ==> Exact(db, objects) && (answer.status == 500 ==> objects == old(objects))
    {
      hide Stored, Exact, PersistScene, SceneAdded, Leftover;
      if r.metadata.None? {
        return Error(422, InvalidSceneMetadata);
      }
      var declared := r.metadata.value;
      var staged := StageUpload(r.suffix, r.content, path);
      if staged.Refused? {
        var status := if staged.code == UnsupportedMediaType then 415 else 413;
        if staged.code !in {UnsupportedMediaType, UploadTooLarge} {
          status := 422;
        }
        return Error(status, staged.code);
      }
      SuffixDropped(env, db, r);
      answer := Decide(declared, r.checksum, path, e, messageId, now);
      temporary := temporary - {path};
      assert temporary == old(temporary);
    }

    /** Past staging, which of the two suffixes it has makes no difference. */
    static lemma {:induction false} SuffixDropped(env: Env, db: Db, r: Request)
      requires r.metadata.Some? && r.suffix in {".tif", ".tiff"}
      ensures var s := Request(r.metadata, r.checksum, ".tif", r.content);
        && Sound(env, s) == Sound(env, r) && Conflicts(env, db, s) == Conflicts(env, db, r) && Novel(env, db, s) == Novel(env, db, r)
        && Admissible(env, db, s) == Admissible(env, db, r)
        && forall a :: AnswerTells(env, db, s, a) == AnswerTells(env, db, r, a)
    {
    }

    /** The body of `ingest_scene` between staging and its `finally`. */
    method Decide(declared: Declared, checksum: Option<string>, path: nat, e: Effects, messageId: nat, now: int)
      returns (answer: Answer)
      requires path in temporary && messageId !in db.outbox && (e.putReturns ==> e.putStored)
      requires Stored(env, db, objects)
      requires 0 < |temporary[path]| <= MAX_UPLOAD_BYTES
      modifies this`db, this`objects
      ensures Stored(env, db, objects)
      ensures var r := Request(Some(declared), checksum, ".tif", temporary[path]);
        && (answer.status == 409 <==> Sound(env, r) && e.reachable && Conflicts(env, old(db), r))
        && (answer.status == 200 <==> Sound(env, r) && e.reachable && !Conflicts(env, old(db), r) && !Novel(env, old(db), r))
        && (answer.status == 202 <==> Admissible(env, old(db), r) && e.reachable && e.putReturns && e.commits)
        && (answer.status == 500 <==> Sound(env, r) && (!e.reachable || (Admissible(env, old(db), r) && !(e.putReturns && e.commits))))
        && answer.status in {200, 202, 409, 422, 500} && AnswerTells(env, old(db), r, answer)
      ensures var content := temporary[path];
        && (answer.status == 202 ==> PersistScene(old(db), declared, env.hash(content), messageId, now) == Some(db)
                                     && SceneAdded(old(db), db, declared, env.hash(content), messageId, now)
                                     && objects == old(objects)[env.hash(content) := content])
        && (answer.status != 202 ==> db == old(db))
        && (answer.status !in {202, 500} ==> objects == old(objects))
        && (answer.status == 500 ==> objects == if e.reachable then Leftover(env, old(objects), content, e) else old(objects))
      ensures old(Exact(db, objects)) && Clean(e) ==> Exact(db, objects) && (answer.status == 500 ==> objects == old(objects))
    {
      hide Stored, Exact, PersistScene, SceneAdded;
      var content := temporary[path];
      if env.inspect(content, None).None? {
        return Error(422, InvalidRaster);
      }
      var digest := env.hash(content);
      if checksum.Some? && checksum.value != "" && checksum.value != digest {
        return Error(422, ChecksumMismatch);
      }
      if !e.reachable {
        return Error(500, IngestFailed);
      }
      var byId, byDigest := ExistingScenes(declared.sceneId, digest);
      if byId.Some? && db.scenes[byId.value].sha256 != digest {
        return Error(409, SceneIdConflict);
      }
      if byId.Some? || byDigest.Some? {
        return Payload(200, if byId.Some? then byId.value else byDigest.value);
      }
      if env.inspect(content, Some(declared)).None? {
        return Error(422, InvalidRaster);
      }
      answer := Store(declared, content, e, messageId, now);
    }

    /** The end of `ingest_scene`: put, persist, and compensate when only the put happened. */
    method Store(declared: Declared, content: Bytes, e: Effects, messageId: nat, now: int) returns (answer: Answer)
      requires declared.sceneId !in db.scenes && !DigestTaken(db, env.hash(content)) && messageId !in db.outbox
      requires Stored(env, db, objects) && (e.putReturns ==> e.putStored)
      modifies this`db, this`objects
      ensures Stored(env, db, objects) && answer.status in {202, 500}
      ensures answer.status == 202 <==> e.putReturns && e.commits
      ensures answer.status == 202 ==>
        && PersistScene(old(db), declared, env.hash(content), messageId, now) == Some(db)
        && SceneAdded(old(db), db, declared, env.hash(content), messageId, now)
        && objects == old(objects)[env.hash(content) := content]
      ensures answer.status != 202 ==> db == old(db) && objects == Leftover(env, old(objects), content, e)
      ensures answer == if answer.status == 202 then Payload(202, declared.sceneId) else Error(500, IngestFailed)
      ensures old(Exact(db, objects)) && Clean(e) ==> Exact(db, objects) && (answer.status == 500 ==> objects == old(objects))
    {
      hide Stored, Exact, PersistScene, SceneAdded;
      var digest, objectCreated := env.hash(content), false;
      ghost var before := objects;
      if e.putStored {
        objects := objects[digest := content];
      }
      objectCreated := e.putReturns;
      if objectCreated && e.commits {
        InsertKeepsStored(env, db, before, declared, content, messageId, now);
        ScenePersisted(db, declared, digest, messageId, now);
        db := PersistScene(db, declared, digest, messageId, now).value;
        return Payload(202, declared.sceneId);
      }
      if objectCreated && e.removes {
        objects := objects - {digest};
      }
      LeftoverKeepsStored(env, db, before, content, e);
      answer := Error(500, IngestFailed);
    }

    /** Any number of uploads, each with any effects: nothing catalogued without its object, no file left behind. */
    method Serve(requests: seq<Request>, effects: seq<Effects>, now: int) returns (answers: seq<Answer>)
      requires db == EMPTY_DB && objects == map[] && temporary == map[] && |effects| == |requests|
      requires forall e | e in effects :: e.putReturns ==> e.putStored
      modifies this
      ensures |answers| == |requests| && temporary == map[] && Stored(env, db, objects)
      ensures (forall e | e in effects :: Clean(e)) ==> Exact(db, objects)
      ensures forall id :: id in db.scenes <==> FromUpload(requests, answers, id)
      ensures forall i | 0 <= i < |requests| && answers[i].status == 202 :: Kept(env, db, requests[i])
      ensures forall i, j | 0 <= i < j < |requests| && answers[i].status == 202 && answers[j].status == 202 ::
        Apart(env, requests[i], requests[j])
    {
      answers := [];
      var n := 0;
      while n < |requests|
        invariant 0 <= n <= |requests| && |answers| == n && temporary == map[] && Stored(env, db, objects)
        invariant forall id | id in db.outbox :: id < n
        invariant (forall e | e in effects :: Clean(e)) ==> Exact(db, objects)
        invariant Tells(env, db, requests, answers)
        invariant Separate(env, requests, answers)
      {
        ghost var before := db;
        var answer := IngestScene(requests[n], effects[n], n, now, 0);
        TellsNext(env, before, db, requests, answers, answer, now);
        answers := answers + [answer];
        n := n + 1;
      }
    }

    static predicate Catalogues(r: Request, a: Answer, id: string) {
      a.status == 202 && r.metadata.Some? && r.metadata.value.sceneId == id
    }

    /** The upload is catalogued under its scene id as it was declared and with its own content. */
    static ghost predicate Kept(env: Env, db: Db, r: Request) {
      && r.metadata.Some? && r.metadata.value.sceneId in db.scenes
      && var d, row := r.metadata.value, db.scenes[r.metadata.value.sceneId];
      row.source == d.source && row.captureTime == d.captureTime && row.sha256 == env.hash(r.content)
    }

    static ghost predicate FromUpload(requests: seq<Request>, answers: seq<Answer>, id: string)
      requires |answers| <= |requests|
    {
      exists i | 0 <= i < |answers| :: Catalogues(requests[i], answers[i], id)
    }

    /** The catalog is exactly the uploads answered 202. */
    static ghost predicate Tells(env: Env, db: Db, requests: seq<Request>, answers: seq<Answer>)
      requires |answers| <= |requests|
    {
      && (forall i | 0 <= i < |answers| && answers[i].status == 202 :: Kept(env, db, requests[i]))
      && (forall id | id in db.scenes :: FromUpload(requests, answers, id))
    }

    static ghost predicate Separate(env: Env, requests: seq<Request>, answers: seq<Answer>)
      requires |answers| <= |requests|
    {
      forall i, j | 0 <= i < j < |answers| && answers[i].status == 202 && answers[j].status == 202 ::
        Apart(env, requests[i], requests[j])
    }

    /** What one more answer does to the catalog. */
    static ghost predicate Recorded(env: Env, before: Db, db: Db, r: Request, answer: Answer, messageId: nat, now: int) {
      if answer.status == 202 then
        && r.metadata.Some? && Novel(env, before, r)
        && PersistScene(before, r.metadata.value, env.hash(r.content), messageId, now) == Some(db)
      else db == before
    }

    static lemma {:induction false} CatalogueNext(env: Env, before: Db, db: Db, requests: seq<Request>, answers: seq<Answer>,
                                                  answer: Answer, now: int, id: string)
      requires |answers| < |requests| && Tells(env, before, requests, answers) && id in db.scenes
      requires Recorded(env, before, db, requests[|answers|], answer, |answers|, now)
      ensures FromUpload(requests, answers + [answer], id)
    {
      var n, more := |answers|, answers + [answer];
      if id in before.scenes {
        assert FromUpload(requests, answers, id);
        var i :| 0 <= i < n && Catalogues(requests[i], answers[i], id);
        assert more[i] == answers[i];
        assert Catalogues(requests[i], more[i], id);
      } else {
        assert Catalogues(requests[n], more[n], id);
      }
    }

    static lemma {:induction false} KeptNext(env: Env, before: Db, db: Db, r: Request, s: Request, answer: Answer, n: nat, now: int)
      requires Recorded(env, before, db, s, answer, n, now)
      requires Kept(env, before, r) || (r == s && answer.status == 202)
      ensures Kept(env, db, r)
    {
    }

    static ghost predicate Apart(env: Env, r: Request, s: Request) {
      && r.metadata.Some? && s.metadata.Some?
      && r.metadata.value.sceneId != s.metadata.value.sceneId && env.hash(r.content) != env.hash(s.content)
    }

    static lemma {:induction false} ApartNext(env: Env, before: Db, db: Db, r: Request, s: Request, answer: Answer, n: nat, now: int)
      requires Recorded(env, before, db, s, answer, n, now) && answer.status == 202 && Kept(env, before, r)
      ensures Apart(env, r, s)
    {
    }

    static lemma {:induction false} AcceptedKept(env: Env, before: Db, db: Db, requests: seq<Request>, answers: seq<Answer>,
                                                 answer: Answer, now: int)
      requires |answers| < |requests| && Tells(env, before, requests, answers)
      requires Recorded(env, before, db, requests[|answers|], answer, |answers|, now)
      ensures forall i | 0 <= i < |answers| + 1 && (answers + [answer])[i].status == 202 :: Kept(env, db, requests[i])
    {
      forall i | 0 <= i < |answers| + 1 && (answers + [answer])[i].status == 202 ensures Kept(env, db, requests[i]) {
        KeptNext(env, before, db, requests[i], requests[|answers|], answer, |answers|, now);
      }
    }

    static lemma {:induction false} SeparateNext(env: Env, before: Db, db: Db, requests: seq<Request>, answers: seq<Answer>,
                                                 answer: Answer, now: int)
      requires |answers| < |requests| && Tells(env, before, requests, answers) && Separate(env, requests, answers)
      requires Recorded(env, before, db, requests[|answers|], answer, |answers|, now)
      ensures Separate(env, requests, answers + [answer])
    {
      var n, more := |answers|, answers + [answer];
      forall i, j | 0 <= i < j < |more| && more[i].status == 202 && more[j].status == 202
        ensures Apart(env, requests[i], requests[j])
      {
        if j == n {
          ApartNext(env, before, db, requests[i], requests[n], answer, n, now);
        }
      }
    }

    static lemma {:induction false} TellsNext(env: Env, before: Db, db: Db, requests: seq<Request>, answers: seq<Answer>,
                                              answer: Answer, now: int)
      requires |answers| < |requests| && Tells(env, before, requests, answers) && Separate(env, requests, answers)
      requires Recorded(env, before, db, requests[|answers|], answer, |answers|, now)
      ensures Tells(env, db, requests, answers + [answer]) && Separate(env, requests, answers + [answer])
    {
      AcceptedKept(env, before, db, requests, answers, answer, now);
      SeparateNext(env, before, db, requests, answers, answer, now);
      forall id | id in db.scenes ensures FromUpload(requests, answers + [answer], id) {
        CatalogueNext(env, before, db, requests, answers, answer, now, id);
      }
    }
  }
}
