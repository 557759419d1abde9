/** Event ingestion under concurrency: who may be answered what, over every interleaving. */
module Idempotency {
  import opened Schema
  import opened Protocol
  import opened Growth
  import opened Custody

  ghost predicate RecordedAs(db: Db, e: NewEvent) {
    e.eventId in db.events && db.events[e.eventId].key == e.key && db.events[e.eventId].payloadHash == e.payloadHash
  }

  /** The record holds what the submission said, in every column but the status. */
  ghost predicate KeepsRecord(db: Db, e: NewEvent) {
    && e.eventId in db.events
    && var record := db.events[e.eventId];
    record.key == e.key && record.payloadHash == e.payloadHash && record.observedAt == e.observedAt && record.location == e.location
  }

  /** What the record and outbox row of an inserting submission look like ever after. */
  ghost predicate SubmissionOk(db: Db, x: Submission) {
    && (x.inserted ==> KeepsRecord(db, x.event) && IsRowOf(db, x.messageId, Telemetry, x.event.eventId))
    && (x.inserted ==> x.pc in {Publishing, Answered(Accepted202), Lost})
    && (x.pc in {Publishing, Answered(Accepted202)} ==> x.inserted)
    && (x.pc == Answered(Replayed200) ==> RecordedAs(db, x.event))
  }

  ghost predicate KeysUnique(db: Db) {
    forall e, e' | e in db.events && e' in db.events && db.events[e].key == db.events[e'].key :: e == e'
  }

  ghost predicate WinnersApart(submissions: map<nat, Submission>) {
    forall p, q | p in submissions && q in submissions && p != q && submissions[p].inserted && submissions[q].inserted ::
      submissions[p].messageId != submissions[q].messageId
  }

  ghost predicate IngestInv(s: State) {
    && KeysUnique(s.sh.db)
    && (forall p | p in s.submissions :: SubmissionOk(s.sh.db, s.submissions[p]))
    && WinnersApart(s.submissions)
  }

  lemma {:induction false} SubmissionOkStable(db: Db, db': Db, x: Submission)
    requires DbGrows(db, db') && SubmissionOk(db, x)
    ensures SubmissionOk(db', x)
  {
    if x.event.eventId in db.events {
      assert EventGrows(db.events[x.event.eventId], db'.events[x.event.eventId]);
    }
    if x.messageId in db.outbox {
      assert RowGrows(db.outbox[x.messageId], db'.outbox[x.messageId]);
    }
  }

  lemma {:induction false} SubmissionOkAfter(sh: Shared, sh': Shared, x: Submission, x': Submission, m: SubmissionMove)
    requires SubmissionMoves(sh, sh', x, x', m) && SubmissionOk(sh.db, x) && KeysUnique(sh.db)
    ensures SubmissionOk(sh'.db, x')
  {
  }

  lemma {:induction false} KeysUniqueAfter(env: Env, s: State, s': State, step: Step)
    requires Next(env, s, s', step) && KeysUnique(s.sh.db) && Grows(s.sh, s'.sh)
    ensures KeysUnique(s'.sh.db)
  {
    EventsAdded(env, s, s', step);
    forall e | e in s.sh.db.events ensures s'.sh.db.events[e].key == s.sh.db.events[e].key {
      assert EventGrows(s.sh.db.events[e], s'.sh.db.events[e]);
    }
  }

  /** Event records appear in no other way than by a submission's own insert. */
  lemma {:induction false} EventsAdded(env: Env, s: State, s': State, step: Step)
    requires Next(env, s, s', step)
    ensures s'.sh.db.events.Keys == s.sh.db.events.Keys
         || (&& step.BySubmission? && step.submissionMove.InsertEvent?
             && var x := s.submissions[step.p];
             && x.event.eventId !in s.sh.db.events && !KeyTaken(s.sh.db, x.event.key)
             && s'.sh.db.events.Keys == s.sh.db.events.Keys + {x.event.eventId}
             && s'.sh.db.events[x.event.eventId].key == x.event.key
             && x.messageId !in s.sh.db.outbox)
  {
    match step
    case ByWorker(p, m) => WorkerEvents(env, s.sh, s'.sh, s.workers[p], s'.workers[p], m);
    case ByThread(p, m) => ThreadEvents(env, s.sh, s'.sh, p, m);
    case ByUpload(p, m) => UploadEvents(env, s.sh, s'.sh, s.uploads[p], s'.uploads[p], m);
    case _ =>
  }

  lemma {:induction false} WorkerEvents(env: Env, sh: Shared, sh': Shared, x: Worker, x': Worker, m: WorkerMove)
    requires WorkerMoves(env, sh, sh', x, x', m)
    ensures sh'.db.events == sh.db.events
  {
  }

  lemma {:induction false} ThreadEvents(env: Env, sh: Shared, sh': Shared, t: nat, m: ThreadMove)
    requires ThreadMoves(env, sh, sh', t, m)
    ensures sh'.db.events.Keys == sh.db.events.Keys
  {
  }

  lemma {:induction false} UploadEvents(env: Env, sh: Shared, sh': Shared, x: Upload, x': Upload, m: UploadMove)
    requires UploadMoves(env, sh, sh', x, x', m)
    ensures sh'.db.events == sh.db.events
  {
  }

  lemma {:induction false} WinnersApartAfter(env: Env, s: State, s': State, step: Step)
    requires Next(env, s, s', step) && IngestInv(s)
    ensures WinnersApart(s'.submissions)
  {
    forall p, q | p in s'.submissions && q in s'.submissions && p != q
               && s'.submissions[p].inserted && s'.submissions[q].inserted
      ensures s'.submissions[p].messageId != s'.submissions[q].messageId
    {
      WinnerSource(env, s, s', step, p);
      WinnerSource(env, s, s', step, q);
    }
  }

  /** A submission that has inserted had done so before, or does so now under an unused message id. */
  lemma {:induction false} WinnerSource(env: Env, s: State, s': State, step: Step, p: nat)
    requires Next(env, s, s', step) && IngestInv(s)
    requires p in s'.submissions && s'.submissions[p].inserted
    ensures p in s.submissions && s'.submissions[p].messageId == s.submissions[p].messageId
    ensures if s.submissions[p].inserted then s.submissions[p].messageId in s.sh.db.outbox
            else step.BySubmission? && step.p == p && s.submissions[p].messageId !in s.sh.db.outbox
  {
    if p in s.submissions {
      assert SubmissionOk(s.sh.db, s.submissions[p]);
    }
  }

  lemma {:induction false} StepIngest(env: Env, s: State, s': State, step: Step)
    requires env.CollisionFree() && Inv(env, s) && Next(env, s, s', step) && IngestInv(s)
    ensures IngestInv(s')
  {
    StepGrows(env, s, s', step);
    KeysUniqueAfter(env, s, s', step);
    WinnersApartAfter(env, s, s', step);
    forall p | p in s'.submissions ensures SubmissionOk(s'.sh.db, s'.submissions[p]) {
      if step.BySubmission? && step.p == p {
        SubmissionOkAfter(s.sh, s'.sh, s.submissions[p], s'.submissions[p], step.submissionMove);
      } else if p in s.submissions {
        assert s'.submissions[p] == s.submissions[p];
        SubmissionOkStable(s.sh.db, s'.sh.db, s.submissions[p]);
      }
    }
  }

  lemma {:induction false} RunIngest(env: Env, run: seq<State>, steps: seq<Step>, i: nat)
    requires env.CollisionFree() && IsRun(env, run, steps) && i < |run|
    ensures IngestInv(run[i])
  {
    if i > 0 {
      RunIngest(env, run, steps, i - 1);
      RunInv(env, run, steps, i - 1);
      assert StepAt(env, run, steps, i - 1);
      StepIngest(env, run[i - 1], run[i], steps[i - 1]);
    }
  }

  /** The answer a lookup settles on, for each way the id and the key can be recorded; otherwise it goes on to insert. */
  lemma {:induction false} LookupDecides(db: Db, e: NewEvent)
    requires KeysUnique(db)
    ensures var pc, keyed := DecideEvent(db, e), exists id :: id in db.events && db.events[id].key == e.key;
      && (pc == Answered(Replayed200) <==> RecordedAs(db, e))
      && (pc == Answered(KeyConflict409) <==> keyed && !RecordedAs(db, e))
      && (pc == Answered(IdConflict409) <==> !keyed && e.eventId in db.events)
      && (pc == Persisting <==> !keyed && e.eventId !in db.events)
  {
    if id :| id in db.events && db.events[id].key == e.key {
      assert KeyTaken(db, e.key);
    }
  }

  // -------------------------------------------------------------- theorems

  /** Each event id and each idempotency key is accepted at most once. */
  lemma {:induction false} AcceptedOnce(env: Env, run: seq<State>, steps: seq<Step>, i: nat, p: nat, q: nat)
    requires env.CollisionFree() && IsRun(env, run, steps) && i < |run|
    requires p in run[i].submissions && q in run[i].submissions && p != q
    requires run[i].submissions[p].pc == Answered(Accepted202) && run[i].submissions[q].pc == Answered(Accepted202)
    ensures run[i].submissions[p].event.eventId != run[i].submissions[q].event.eventId
    ensures run[i].submissions[p].event.key != run[i].submissions[q].event.key
  {
    RunIngest(env, run, steps, i);
    RunInv(env, run, steps, i);
    var db, x, y := run[i].sh.db, run[i].submissions[p], run[i].submissions[q];
    assert SubmissionOk(db, x) && SubmissionOk(db, y);
  }

  /** 202 is the answer exactly of the submissions whose own transaction committed both rows. */
  lemma {:induction false} AcceptedIffInserted(env: Env, run: seq<State>, steps: seq<Step>, i: nat, p: nat)
    requires env.CollisionFree() && IsRun(env, run, steps) && i < |run|
    requires p in run[i].submissions && run[i].submissions[p].pc.Answered?
    ensures var x, db := run[i].submissions[p], run[i].sh.db;
      && (x.pc.reply == Accepted202 <==> x.inserted)
      && (x.inserted ==> KeepsRecord(db, x.event) && IsRowOf(db, x.messageId, Telemetry, x.event.eventId))
  {
    RunIngest(env, run, steps, i);
    assert SubmissionOk(run[i].sh.db, run[i].submissions[p]);
  }

  /** A replay is answered 200 only when id, key and payload hash all equal the stored record's. */
  lemma {:induction false} ReplayMatchesRecord(env: Env, run: seq<State>, steps: seq<Step>, i: nat, p: nat)
    requires env.CollisionFree() && IsRun(env, run, steps) && i < |run|
    requires p in run[i].submissions && run[i].submissions[p].pc == Answered(Replayed200)
    ensures RecordedAs(run[i].sh.db, run[i].submissions[p].event)
  {
    RunIngest(env, run, steps, i);
    assert SubmissionOk(run[i].sh.db, run[i].submissions[p]);
  }

  lemma {:induction false} InsertedStays(env: Env, run: seq<State>, steps: seq<Step>, i: nat, j: nat, p: nat)
    requires env.CollisionFree() && IsRun(env, run, steps) && i <= j < |run|
    requires p in run[i].submissions && run[i].submissions[p].inserted
    ensures p in run[j].submissions && run[j].submissions[p].inserted
  {
    if i < j {
      InsertedStays(env, run, steps, i, j - 1, p);
      assert StepAt(env, run, steps, j - 1);
    }
  }

  /** A submission answered anything but 202 never changed the database or the stream. */
  lemma {:induction false} OtherAnswersChangeNothing(env: Env, run: seq<State>, steps: seq<Step>, i: nat, j: nat, p: nat)
    requires env.CollisionFree() && IsRun(env, run, steps) && i < j < |run|
    requires steps[i].BySubmission? && steps[i].p == p
    requires p in run[j].submissions && run[j].submissions[p].pc.Answered?
    requires run[j].submissions[p].pc.reply != Accepted202
    ensures run[i + 1].sh == run[i].sh
  {
    assert StepAt(env, run, steps, i);
    if steps[i].submissionMove.InsertEvent? {
      InsertedStays(env, run, steps, i + 1, j, p);
      AcceptedIffInserted(env, run, steps, j, p);
      assert false;
    }
  }
}
