/** Agreement of the correlation, analysis and event tables over every history of evaluations. */
module Agreement {
  import opened Common
  import opened Schema
  import opened Evaluation
  import opened Protocol
  import opened Growth
  import opened Custody
  import opened SceneMachine

  /** The row is what evaluating its scene and event now would compute, filed under its own id. */
  ghost predicate RowAgrees(env: Env, db: Db, id: string, row: Correlation) {
    && row.sceneId in db.scenes && row.eventId in db.events && db.scenes[row.sceneId].columns != BLANK_COLUMNS
    && id == env.correlationId(row.sceneId, row.eventId)
    && row == CorrelationOf(env, row.sceneId, db.scenes[row.sceneId], row.eventId, db.events[row.eventId])
  }

  ghost predicate IsMatch(stored: map<string, Correlation>, eventId: string, id: string) {
    id in stored && stored[id].eventId == eventId && stored[id].verdict == Matched
  }

  ghost predicate AllMatches(stored: map<string, Correlation>, eventId: string, ids: seq<string>) {
    forall id | id in ids :: IsMatch(stored, eventId, id)
  }

  ghost predicate CorrelationsAgree(env: Env, db: Db, rows: map<string, Correlation>) {
    forall id | id in rows :: RowAgrees(env, db, id, rows[id])
  }

  ghost predicate AnalysesAgree(db: Db) {
    forall e | e in db.analyses :: AllMatches(db.correlations, e, db.analyses[e].matched)
  }

  ghost predicate ProcessedExactly(db: Db) {
    && (forall e | e in db.analyses :: e in db.events)
    && (forall e | e in db.events :: e in db.analyses <==> db.events[e].status == Processed)
  }

  /** Listed matches are accounted for as long as no two pairs in the tables share an id. */
  ghost predicate TablesAgree(env: Env, db: Db) {
    CorrelationsAgree(env, db, db.correlations) && ProcessedExactly(db) && (IdsApart(env, db) ==> AnalysesAgree(db))
  }

  /** What a thread holds between its reads and its commit still fits when the commit comes. */
  ghost predicate WritesAgree(env: Env, db: Db, w: Writes) {
    && CorrelationsAgree(env, db, w.inserts)
    && (IdsApart(env, db) ==> MatchesAccounted(db, w))
  }

  ghost predicate MatchesAccounted(db: Db, w: Writes) {
    forall id | id in w.analysis.matched :: IsMatch(db.correlations, w.eventId, id) || IsMatch(w.inserts, w.eventId, id)
  }

  ghost predicate ThreadAgrees(env: Env, db: Db, t: Thread) {
    t.pc.Ready? ==> WritesAgree(env, db, t.pc.writes)
  }

  ghost predicate AgreementInv(env: Env, sh: Shared) {
    TablesAgree(env, sh.db) && forall t | t in sh.threads :: ThreadAgrees(env, sh.db, sh.threads[t])
  }

  // -------------------------------------------------------------- stability

  lemma {:induction false} RowAgreesStable(env: Env, db: Db, db': Db, id: string, row: Correlation)
    requires DbGrows(db, db') && RowAgrees(env, db, id, row)
    ensures RowAgrees(env, db', id, row)
  {
    assert SceneGrows(db.scenes[row.sceneId], db'.scenes[row.sceneId]);
    assert EventGrows(db.events[row.eventId], db'.events[row.eventId]);
  }

  lemma {:induction false} ApartEarlier(env: Env, db: Db, db': Db)
    requires DbGrows(db, db') && IdsApart(env, db')
    ensures IdsApart(env, db)
  {
  }

  lemma {:induction false} CorrelationsAgreeStable(env: Env, db: Db, db': Db, rows: map<string, Correlation>)
    requires DbGrows(db, db') && CorrelationsAgree(env, db, rows)
    ensures CorrelationsAgree(env, db', rows)
  {
    forall id | id in rows ensures RowAgrees(env, db', id, rows[id]) {
      RowAgreesStable(env, db, db', id, rows[id]);
    }
  }

  lemma {:induction false} WritesAgreeStable(env: Env, db: Db, db': Db, w: Writes)
    requires DbGrows(db, db') && WritesAgree(env, db, w)
    ensures WritesAgree(env, db', w)
  {
    CorrelationsAgreeStable(env, db, db', w.inserts);
    if IdsApart(env, db') {
      ApartEarlier(env, db, db');
      MatchesStable(db, db', w);
    }
  }

  lemma {:induction false} MatchesStable(db: Db, db': Db, w: Writes)
    requires DbGrows(db, db') && MatchesAccounted(db, w)
    ensures MatchesAccounted(db', w)
  {
  }

  lemma {:induction false} ThreadsAgreeStable(env: Env, sh: Shared, sh': Shared)
    requires Grows(sh, sh') && AgreementInv(env, sh)
    requires forall t | t in sh'.threads && sh'.threads[t].pc.Ready? ::
               (t in sh.threads && sh'.threads[t] == sh.threads[t]) || WritesAgree(env, sh'.db, sh'.threads[t].pc.writes)
    ensures forall t | t in sh'.threads :: ThreadAgrees(env, sh'.db, sh'.threads[t])
  {
    forall t | t in sh'.threads ensures ThreadAgrees(env, sh'.db, sh'.threads[t]) {
      if t in sh.threads && sh'.threads[t] == sh.threads[t] && sh.threads[t].pc.Ready? {
        assert ThreadAgrees(env, sh.db, sh.threads[t]);
        WritesAgreeStable(env, sh.db, sh'.db, sh.threads[t].pc.writes);
      }
    }
  }

  // ------------------------------------------------------ reading the facts

  lemma {:induction false} FreshRowAgrees(env: Env, db: Db, eventId: string, sceneId: string)
    requires eventId in db.events && sceneId in db.scenes && db.scenes[sceneId].columns != BLANK_COLUMNS
    ensures var row := Judge(env, db, eventId)(sceneId);
            && row.eventId == eventId && row.sceneId == sceneId
            && RowAgrees(env, db, Namer(env, eventId)(sceneId), row)
  {
  }

  lemma {:induction false} StoredIsJudged(env: Env, db: Db, eventId: string, sceneId: string)
    requires IdsApart(env, db) && CorrelationsAgree(env, db, db.correlations)
    requires eventId in db.events && sceneId in db.scenes && Namer(env, eventId)(sceneId) in db.correlations
    ensures db.correlations[Namer(env, eventId)(sceneId)] == Judge(env, db, eventId)(sceneId)
  {
    var id := Namer(env, eventId)(sceneId);
    var row := db.correlations[id];
    assert RowAgrees(env, db, id, row);
    assert env.correlationId(row.sceneId, row.eventId) == env.correlationId(sceneId, eventId);
  }

  /** An evaluation recomputes what is stored: its matches are stored matches or its own inserts. */
  lemma {:induction false} EvaluationAgrees(env: Env, db: Db, eventId: string, rows: seq<string>)
    requires TablesAgree(env, db) && ScenesWritten(db.scenes)
    requires eventId in db.events && IsListing(db, rows)
    ensures WritesAgree(env, db, Evaluate(env, db, eventId, rows))
  {
    var name, judge := Namer(env, eventId), Judge(env, db, eventId);
    forall sceneId | sceneId in rows
      ensures RowAgrees(env, db, name(sceneId), judge(sceneId)) && judge(sceneId).eventId == eventId
    {
      assert Written(db.scenes[sceneId]);
      FreshRowAgrees(env, db, eventId, sceneId);
    }
    InsertsAgree(env, db, name, judge, rows);
    if IdsApart(env, db) {
      EvaluationMatches(env, db, eventId, rows);
    }
  }

  lemma {:induction false} EvaluationMatches(env: Env, db: Db, eventId: string, rows: seq<string>)
    requires IdsApart(env, db) && CorrelationsAgree(env, db, db.correlations)
    requires eventId in db.events && IsListing(db, rows)
    ensures MatchesAccounted(db, Evaluate(env, db, eventId, rows))
  {
    hide CorrelationsAgree, IdsApart;
    var name, judge, w := Namer(env, eventId), Judge(env, db, eventId), Evaluate(env, db, eventId, rows);
    forall id | id in w.analysis.matched
      ensures IsMatch(db.correlations, eventId, id) || IsMatch(w.inserts, eventId, id)
    {
      var sceneId := MatchedFrom(name, judge, rows, id);
      assert judge(sceneId).eventId == eventId;
      if id in db.correlations {
        StoredIsJudged(env, db, eventId, sceneId);
      } else {
        NamesApart(env, db, eventId, rows);
        InsertedRow(name, judge, db.correlations.Keys, rows, sceneId);
      }
    }
  }

  ghost predicate NamedApart(name: string -> string, rows: seq<string>) {
    forall a, b | a in rows && b in rows && name(a) == name(b) :: a == b
  }

  lemma {:induction false} NamesApart(env: Env, db: Db, eventId: string, rows: seq<string>)
    requires IdsApart(env, db) && eventId in db.events && IsListing(db, rows)
    ensures NamedApart(Namer(env, eventId), rows)
  {
    var name := Namer(env, eventId);
    forall a, b | a in rows && b in rows && name(a) == name(b) ensures a == b {
      assert env.correlationId(a, eventId) == env.correlationId(b, eventId);
    }
  }

  lemma {:induction false} InsertsAgree(env: Env, db: Db, name: string -> string, judge: string -> Correlation, rows: seq<string>)
    requires forall sceneId | sceneId in rows :: RowAgrees(env, db, name(sceneId), judge(sceneId))
    ensures CorrelationsAgree(env, db, Inserts(name, judge, db.correlations.Keys, rows))
  {
    hide RowAgrees;
    InsertsFrom(name, judge, db.correlations.Keys, rows);
  }

  lemma {:induction false} InsertedRow(name: string -> string, judge: string -> Correlation, stored: set<string>,
                                       rows: seq<string>, sceneId: string)
    requires NamedApart(name, rows) && sceneId in rows && name(sceneId) !in stored
    ensures var inserts := Inserts(name, judge, stored, rows);
            name(sceneId) in inserts && inserts[name(sceneId)] == judge(sceneId)
  {
    InsertsFrom(name, judge, stored, rows);
  }

  /** A matched id comes from a row judged a match. */
  lemma {:induction false} MatchedFrom(name: string -> string, judge: string -> Correlation, rows: seq<string>, id: string)
    returns (sceneId: string)
    requires id in Map(name, Filter(MatchedBy(judge), rows))
    ensures sceneId in rows && name(sceneId) == id && judge(sceneId).verdict == Matched
  {
    var kept := Filter(MatchedBy(judge), rows);
    var k :| 0 <= k < |kept| && Map(name, kept)[k] == id;
    sceneId := kept[k];
    assert sceneId in kept;
  }

  // -------------------------------------------------------------- the commit

  lemma {:induction false} CommitKeepsAgreement(env: Env, db: Db, w: Writes)
    requires TablesAgree(env, db) && WritesAgree(env, db, w) && CommitEvaluation(db, w).Some?
    ensures TablesAgree(env, CommitEvaluation(db, w).value)
  {
    CommittedCorrelations(env, db, w);
    var db' := CommitEvaluation(db, w).value;
    if IdsApart(env, db') {
      CommitGrows(db, w);
      ApartEarlier(env, db, db');
      CommittedAnalyses(db, w);
    }
  }

  lemma {:induction false} CommittedCorrelations(env: Env, db: Db, w: Writes)
    requires TablesAgree(env, db) && WritesAgree(env, db, w) && CommitEvaluation(db, w).Some?
    ensures var db' := CommitEvaluation(db, w).value; CorrelationsAgree(env, db', db'.correlations)
  {
    var db' := CommitEvaluation(db, w).value;
    CommitGrows(db, w);
    CorrelationsAgreeStable(env, db, db', db.correlations);
    CorrelationsAgreeStable(env, db, db', w.inserts);
  }

  /** The merged analysis lists either what this session matched or what the row already listed. */
  lemma {:induction false} CommittedAnalyses(db: Db, w: Writes)
    requires AnalysesAgree(db) && MatchesAccounted(db, w) && CommitEvaluation(db, w).Some?
    ensures AnalysesAgree(CommitEvaluation(db, w).value)
  {
    var db' := CommitEvaluation(db, w).value;
    forall e | e in db'.analyses ensures AllMatches(db'.correlations, e, db'.analyses[e].matched) {
      if e in db.analyses {
        assert AllMatches(db.correlations, e, db.analyses[e].matched);
        MatchesKept(db.correlations, db'.correlations, e, db.analyses[e].matched);
      }
      if e == w.eventId {
        WrittenMatches(db, w);
      }
    }
  }

  lemma {:induction false} WrittenMatches(db: Db, w: Writes)
    requires Insertable(db.correlations, w.inserts)
    requires forall id | id in w.analysis.matched :: IsMatch(db.correlations, w.eventId, id) || IsMatch(w.inserts, w.eventId, id)
    ensures AllMatches(db.correlations + w.inserts, w.eventId, w.analysis.matched)
  {
  }

  lemma {:induction false} MatchesKept(stored: map<string, Correlation>, stored': map<string, Correlation>, e: string, ids: seq<string>)
    requires CorrelationsGrow(stored, stored') && AllMatches(stored, e, ids)
    ensures AllMatches(stored', e, ids)
  {
  }

  /** Tables that only grew, with the same correlations, analyses and processed events, still agree. */
  lemma {:induction false} TablesFrame(env: Env, db: Db, db': Db)
    requires DbGrows(db, db') && TablesAgree(env, db)
    requires db'.correlations == db.correlations && db'.analyses == db.analyses
    requires forall e | e in db'.events :: db'.events[e].status == Received || (e in db.events && db.events[e].status == Processed)
    ensures TablesAgree(env, db')
  {
    CorrelationsAgreeStable(env, db, db', db.correlations);
    if IdsApart(env, db') {
      ApartEarlier(env, db, db');
    }
    forall e | e in db'.events ensures e in db'.analyses <==> db'.events[e].status == Processed {
      if e in db.events {
        assert EventGrows(db.events[e], db'.events[e]);
      }
    }
  }

  ghost predicate TablesUntouched(db: Db, db': Db) {
    && db'.correlations == db.correlations && db'.analyses == db.analyses
    && forall e | e in db'.events :: db'.events[e].status == Received || (e in db.events && db.events[e].status == Processed)
  }

  lemma {:induction false} WorkerUntouched(env: Env, sh: Shared, sh': Shared, x: Worker, x': Worker, m: WorkerMove)
    requires WorkerMoves(env, sh, sh', x, x', m)
    ensures TablesUntouched(sh.db, sh'.db)
  {
    hide TablesUntouched;
    assert sh'.db.events == sh.db.events && sh'.db.correlations == sh.db.correlations && sh'.db.analyses == sh.db.analyses;
    SameTables(sh.db, sh'.db);
  }

  lemma {:induction false} WorkerKeepsReady(env: Env, sh: Shared, sh': Shared, x: Worker, x': Worker, m: WorkerMove)
    requires WorkerMoves(env, sh, sh', x, x', m)
    ensures forall t | t in sh'.threads && sh'.threads[t].pc.Ready? :: t in sh.threads && sh'.threads[t] == sh.threads[t]
  {
  }

  lemma {:induction false} SameTables(db: Db, db': Db)
    requires db'.events == db.events && db'.correlations == db.correlations && db'.analyses == db.analyses
    ensures TablesUntouched(db, db')
  {
  }

  lemma {:induction false} OthersUntouched(env: Env, s: State, s': State, step: Step)
    requires Next(env, s, s', step) && !step.ByThread? && !step.ByWorker?
    ensures TablesUntouched(s.sh.db, s'.sh.db) && s'.sh.threads == s.sh.threads
  {
    match step
    case BySubmission(p, m) => SubmissionUntouched(s.sh, s'.sh, s.submissions[p], s'.submissions[p], m);
    case ByUpload(p, m) => UploadUntouched(env, s.sh, s'.sh, s.uploads[p], s'.uploads[p], m);
    case ByDispatcher(p, m) => DispatcherUntouched(s.sh, s'.sh, s.dispatchers[p], s'.dispatchers[p], m);
    case _ =>
  }

  lemma {:induction false} SubmissionUntouched(sh: Shared, sh': Shared, x: Submission, x': Submission, m: SubmissionMove)
    requires SubmissionMoves(sh, sh', x, x', m)
    ensures TablesUntouched(sh.db, sh'.db) && sh'.threads == sh.threads
  {
  }

  lemma {:induction false} UploadUntouched(env: Env, sh: Shared, sh': Shared, x: Upload, x': Upload, m: UploadMove)
    requires UploadMoves(env, sh, sh', x, x', m)
    ensures TablesUntouched(sh.db, sh'.db) && sh'.threads == sh.threads
  {
  }

  lemma {:induction false} DispatcherUntouched(sh: Shared, sh': Shared, x: Dispatcher, x': Dispatcher, m: DispatcherMove)
    requires DispatcherMoves(sh, sh', x, x', m)
    ensures TablesUntouched(sh.db, sh'.db) && sh'.threads == sh.threads
  {
  }

  /** Threads that evaluate nothing leave the tables alone. */
  lemma {:induction false} ThreadUntouched(env: Env, sh: Shared, sh': Shared, t: nat, m: ThreadMove)
    requires ThreadMoves(env, sh, sh', t, m) && !m.ReadFacts? && !m.CommitWrites?
    ensures TablesUntouched(sh.db, sh'.db)
  {
    hide TablesUntouched, MergeScene;
    SameTables(sh.db, sh'.db);
  }

  lemma {:induction false} ThreadAgreement(env: Env, sh: Shared, sh': Shared, t: nat, m: ThreadMove)
    requires ThreadMoves(env, sh, sh', t, m) && Grows(sh, sh')
    requires ScenesWritten(sh.db.scenes) && AgreementInv(env, sh)
    ensures AgreementInv(env, sh')
  {
    hide TablesAgree, WritesAgree, Evaluate, CommitEvaluation, CommitCompletion, CommitBurial, ScenesWritten;
    match m {
      case ReadFacts(rows) =>
        EvaluationAgrees(env, sh.db, sh.threads[t].job.eventId, rows);
      case CommitWrites =>
        assert ThreadAgrees(env, sh.db, sh.threads[t]);
        CommitKeepsAgreement(env, sh.db, sh.threads[t].pc.writes);
      case _ =>
        ThreadUntouched(env, sh, sh', t, m);
        TablesFrame(env, sh.db, sh'.db);
    }
    ThreadsAgreeStable(env, sh, sh');
  }

  lemma {:induction false} StepAgreement(env: Env, s: State, s': State, step: Step)
    requires env.CollisionFree() && Inv(env, s) && Next(env, s, s', step)
    requires ScenesWritten(s.sh.db.scenes) && AgreementInv(env, s.sh)
    ensures AgreementInv(env, s'.sh)
  {
    hide WorkerMoves, ThreadMoves, SubmissionMoves, UploadMoves, DispatcherMoves;
    StepGrows(env, s, s', step);
    if step.ByThread? {
      ThreadAgreement(env, s.sh, s'.sh, step.p, step.threadMove);
    } else {
      if step.ByWorker? {
        WorkerUntouched(env, s.sh, s'.sh, s.workers[step.p], s'.workers[step.p], step.workerMove);
        WorkerKeepsReady(env, s.sh, s'.sh, s.workers[step.p], s'.workers[step.p], step.workerMove);
      } else {
        OthersUntouched(env, s, s', step);
      }
      TablesFrame(env, s.sh.db, s'.sh.db);
      ThreadsAgreeStable(env, s.sh, s'.sh);
    }
  }

  lemma {:induction false} RunAgreement(env: Env, run: seq<State>, steps: seq<Step>, i: nat)
    requires env.CollisionFree() && IsRun(env, run, steps) && i < |run|
    ensures AgreementInv(env, run[i].sh)
  {
    if i > 0 {
      RunAgreement(env, run, steps, i - 1);
      RunScenes(env, run, steps, i - 1);
      RunInv(env, run, steps, i - 1);
      assert StepAt(env, run, steps, i - 1);
      StepAgreement(env, run[i - 1], run[i], steps[i - 1]);
    }
  }

  // -------------------------------------------------------------- theorems

  /** At most one correlation per scene, event and algorithm, whatever was redelivered or overlapped. */
  lemma {:induction false} OneCorrelationEach(env: Env, run: seq<State>, steps: seq<Step>, i: nat, id: string, id': string)
    requires env.CollisionFree() && IsRun(env, run, steps) && i < |run|
    requires id in run[i].sh.db.correlations && id' in run[i].sh.db.correlations
    requires var row, row' := run[i].sh.db.correlations[id], run[i].sh.db.correlations[id'];
             row.sceneId == row'.sceneId && row.eventId == row'.eventId && row.algorithm == row'.algorithm
    ensures id == id'
  {
    RunAgreement(env, run, steps, i);
    var db := run[i].sh.db;
    assert RowAgrees(env, db, id, db.correlations[id]) && RowAgrees(env, db, id', db.correlations[id']);
  }

  /** Every stored correlation is what evaluating its scene and event at any later moment computes. */
  lemma {:induction false} StoredStatusRecomputed(env: Env, run: seq<State>, steps: seq<Step>, i: nat, j: nat, id: string)
    requires env.CollisionFree() && IsRun(env, run, steps) && i <= j < |run| && id in run[i].sh.db.correlations
    ensures var row, db := run[i].sh.db.correlations[id], run[j].sh.db;
      && id in db.correlations && db.correlations[id] == row
      && row.sceneId in db.scenes && row.eventId in db.events
      && row == CorrelationOf(env, row.sceneId, db.scenes[row.sceneId], row.eventId, db.events[row.eventId])
      && Tells(env, row.sceneId, db.scenes[row.sceneId], row.eventId, db.events[row.eventId], row)
  {
    RunGrows(env, run, steps, i, j);
    RunAgreement(env, run, steps, j);
    assert RowAgrees(env, run[j].sh.db, id, run[j].sh.db.correlations[id]);
    var row, db := run[j].sh.db.correlations[id], run[j].sh.db;
    RowTells(env, row.sceneId, db.scenes[row.sceneId], row.eventId, db.events[row.eventId]);
  }

  /**
   Every id an analysis lists as matched is a stored correlation of that event with status
   matched, as long as no two pairs seen so far share an id.
   */
  lemma {:induction false} MatchedIdsExist(env: Env, run: seq<State>, steps: seq<Step>, i: nat, eventId: string, id: string)
    requires env.CollisionFree() && IsRun(env, run, steps) && i < |run|
    requires eventId in run[i].sh.db.analyses && id in run[i].sh.db.analyses[eventId].matched
    requires IdsApart(env, run[i].sh.db)
    ensures IsMatch(run[i].sh.db.correlations, eventId, id)
  {
    RunAgreement(env, run, steps, i);
    assert AllMatches(run[i].sh.db.correlations, eventId, run[i].sh.db.analyses[eventId].matched);
  }

  /** An event is processed exactly when it has an analysis. */
  lemma {:induction false} ProcessedIffAnalysed(env: Env, run: seq<State>, steps: seq<Step>, i: nat, eventId: string)
    requires env.CollisionFree() && IsRun(env, run, steps) && i < |run|
    ensures eventId in run[i].sh.db.analyses
       <==> eventId in run[i].sh.db.events && run[i].sh.db.events[eventId].status == Processed
  {
    RunAgreement(env, run, steps, i);
  }
}
