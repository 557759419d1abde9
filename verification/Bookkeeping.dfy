/** What the attempt rows and dead-letter rows say is true, over every run. */
module Bookkeeping {
  import opened Common
  import opened Schema
  import opened Evaluation
  import opened Protocol
  import opened Growth
  import opened Custody

  /** The i-th message on the stream is the one meant, and it has been delivered at least `attempt` times. */
  ghost predicate DeliveredAt(sh: Shared, i: nat, messageId: nat, service: Lane, attempt: nat) {
    && i < |sh.stream| && sh.stream[i].envelope.messageId == messageId && sh.stream[i].envelope.lane == service
    && 1 <= attempt <= sh.stream[i].delivered
  }

  /** The row is about a delivery that took place; it passed if it has no error, and then the work is in the database. */
  ghost predicate AttemptTells(sh: Shared, row: Attempt) {
    && (row.passed <==> row.error.None?)
    && exists i: nat :: DeliveredAt(sh, i, row.messageId, row.service, row.attempt) && (row.passed ==> Done(sh.db, sh.stream[i].envelope))
  }

  /** The letter is about a delivery that took place and that no retry was left after. */
  ghost predicate LetterTells(env: Env, sh: Shared, letter: DeadLetter) {
    letter.attempts >= env.maxAttempts && exists i: nat :: DeliveredAt(sh, i, letter.messageId, letter.service, letter.attempts)
  }

  ghost predicate AttemptsTell(sh: Shared) {
    forall row | row in sh.db.attempts :: AttemptTells(sh, row)
  }

  ghost predicate LettersTell(env: Env, sh: Shared) {
    forall letter | letter in sh.db.deadLetters :: LetterTells(env, sh, letter)
  }

  /** A burial under way carries a letter that tells. */
  ghost predicate JobsTell(env: Env, sh: Shared) {
    forall t | t in sh.threads && sh.threads[t].job.BuryJob? :: LetterTells(env, sh, sh.threads[t].job.letter)
  }

  ghost predicate Books(env: Env, sh: Shared) {
    AttemptsTell(sh) && LettersTell(env, sh) && JobsTell(env, sh)
  }

  lemma {:induction false} DeliveredStable(sh: Shared, sh': Shared, i: nat, messageId: nat, service: Lane, attempt: nat)
    requires Grows(sh, sh') && DeliveredAt(sh, i, messageId, service, attempt)
    ensures DeliveredAt(sh', i, messageId, service, attempt) && sh'.stream[i].envelope == sh.stream[i].envelope
  {
    assert EntryGrows(sh.stream[i], sh'.stream[i]);
  }

  lemma {:induction false} AttemptStable(sh: Shared, sh': Shared, row: Attempt)
    requires Grows(sh, sh') && AttemptTells(sh, row)
    ensures AttemptTells(sh', row)
  {
    hide Grows, Done;
    var i: nat :| i < |sh.stream| && DeliveredAt(sh, i, row.messageId, row.service, row.attempt) && (row.passed ==> Done(sh.db, sh.stream[i].envelope));
    DeliveredStable(sh, sh', i, row.messageId, row.service, row.attempt);
    if row.passed {
      DbPart(sh, sh');
      DoneStable(sh.db, sh'.db, sh.stream[i].envelope);
    }
  }

  lemma {:induction false} DbPart(sh: Shared, sh': Shared)
    requires Grows(sh, sh')
    ensures DbGrows(sh.db, sh'.db)
  {
  }

  lemma {:induction false} LetterStable(env: Env, sh: Shared, sh': Shared, letter: DeadLetter)
    requires Grows(sh, sh') && LetterTells(env, sh, letter)
    ensures LetterTells(env, sh', letter)
  {
    hide Grows, DeliveredAt;
    var i: nat :| DeliveredAt(sh, i, letter.messageId, letter.service, letter.attempts);
    DeliveredStable(sh, sh', i, letter.messageId, letter.service, letter.attempts);
  }

  /** What a step may add: rows, letters and burials that tell. */
  ghost predicate AddsTrue(env: Env, sh: Shared, sh': Shared) {
    && (forall row | row in sh'.db.attempts && row !in sh.db.attempts :: AttemptTells(sh', row))
    && (forall letter | letter in sh'.db.deadLetters && letter !in sh.db.deadLetters :: LetterTells(env, sh', letter))
    && (forall t | t in sh'.threads && sh'.threads[t].job.BuryJob? ::
          (t in sh.threads && sh'.threads[t].job == sh.threads[t].job) || LetterTells(env, sh', sh'.threads[t].job.letter))
  }

  lemma {:induction false} BooksKept(env: Env, sh: Shared, sh': Shared)
    requires Books(env, sh) && Grows(sh, sh') && AddsTrue(env, sh, sh')
    ensures Books(env, sh')
  {
    hide Grows, AttemptTells, LetterTells;
    forall row | row in sh'.db.attempts ensures AttemptTells(sh', row) {
      if row in sh.db.attempts {
        AttemptStable(sh, sh', row);
      }
    }
    forall letter | letter in sh'.db.deadLetters ensures LetterTells(env, sh', letter) {
      if letter in sh.db.deadLetters {
        LetterStable(env, sh, sh', letter);
      }
    }
    forall t | t in sh'.threads && sh'.threads[t].job.BuryJob? ensures LetterTells(env, sh', sh'.threads[t].job.letter) {
      if t in sh.threads && sh'.threads[t].job == sh.threads[t].job {
        LetterStable(env, sh, sh', sh.threads[t].job.letter);
      }
    }
  }

  lemma {:induction false} WorkerAdds(env: Env, sh: Shared, sh': Shared, x: Worker, x': Worker, m: WorkerMove)
    requires WorkerMoves(env, sh, sh', x, x', m) && WorkerOk(env, sh, x)
    ensures AddsTrue(env, sh, sh')
  {
    if m.RecordPassed? || m.RecordFailed? {
      AttemptAdded(env, sh, sh', x, x', m);
    } else if m.StartBurial? {
      BurialAdded(env, sh, sh', x, x', m);
    } else {
      assert sh'.db == sh.db;
    }
  }

  lemma {:induction false} AttemptAdded(env: Env, sh: Shared, sh': Shared, x: Worker, x': Worker, m: WorkerMove)
    requires WorkerMoves(env, sh, sh', x, x', m) && WorkerOk(env, sh, x) && (m.RecordPassed? || m.RecordFailed?)
    ensures AddsTrue(env, sh, sh')
  {
    var i, d := x.pc.delivery.index, x.pc.delivery;
    assert DeliveredAt(sh', i, sh.stream[i].envelope.messageId, x.lane, d.attempt);
  }

  lemma {:induction false} BurialAdded(env: Env, sh: Shared, sh': Shared, x: Worker, x': Worker, m: WorkerMove)
    requires WorkerMoves(env, sh, sh', x, x', m) && WorkerOk(env, sh, x) && m.StartBurial?
    ensures AddsTrue(env, sh, sh')
  {
    var i, d := x.pc.delivery.index, x.pc.delivery;
    assert DeliveredAt(sh', i, sh.stream[i].envelope.messageId, x.lane, d.attempt);
  }

  lemma {:induction false} ThreadAdds(env: Env, sh: Shared, sh': Shared, t: nat, m: ThreadMove)
    requires ThreadMoves(env, sh, sh', t, m) && JobsTell(env, sh)
    ensures sh'.stream == sh.stream && AddsTrue(env, sh, sh')
  {
    hide Evaluate, IsListing, MergeScene, CommitEvaluation, CommitCompletion;
    CommitsKeep(env, sh, sh', t, m);
    if m.CommitLetter? {
      var letter := sh.threads[t].job.letter;
      assert LetterTells(env, sh, letter);
      assert forall i: nat, n, l, a | DeliveredAt(sh, i, n, l, a) :: DeliveredAt(sh', i, n, l, a);
    }
  }

  /** Commits of evaluations and completions write neither table. */
  lemma {:induction false} CommitsKeep(env: Env, sh: Shared, sh': Shared, t: nat, m: ThreadMove)
    requires ThreadMoves(env, sh, sh', t, m)
    ensures sh'.db.attempts == sh.db.attempts && sh'.stream == sh.stream
    ensures m.CommitLetter? || sh'.db.deadLetters == sh.db.deadLetters
    ensures m.CommitLetter? ==> t in sh.threads && sh.threads[t].job.BuryJob?
    ensures forall letter | m.CommitLetter? && letter in sh'.db.deadLetters :: letter in sh.db.deadLetters || letter == sh.threads[t].job.letter
    ensures forall u | u in sh'.threads :: u in sh.threads && sh'.threads[u].job == sh.threads[u].job
  {
    hide Evaluate, IsListing, MergeScene;
  }

  lemma {:induction false} OthersAdd(env: Env, s: State, s': State, step: Step)
    requires Next(env, s, s', step) && !step.ByWorker? && !step.ByThread?
    ensures s'.sh.db.attempts == s.sh.db.attempts && s'.sh.db.deadLetters == s.sh.db.deadLetters && s'.sh.threads == s.sh.threads
  {
    hide SubmissionMoves, UploadMoves, DispatcherMoves;
    match step
    case BySubmission(p, m) => SubmissionAdds(s.sh, s'.sh, s.submissions[p], s'.submissions[p], m);
    case ByUpload(p, m) => UploadAdds(env, s.sh, s'.sh, s.uploads[p], s'.uploads[p], m);
    case ByDispatcher(p, m) => DispatcherAdds(s.sh, s'.sh, s.dispatchers[p], s'.dispatchers[p], m);
    case _ =>
  }

  lemma {:induction false} SubmissionAdds(sh: Shared, sh': Shared, x: Submission, x': Submission, m: SubmissionMove)
    requires SubmissionMoves(sh, sh', x, x', m)
    ensures sh'.db.attempts == sh.db.attempts && sh'.db.deadLetters == sh.db.deadLetters && sh'.threads == sh.threads
  {
    hide DecideEvent;
  }

  lemma {:induction false} UploadAdds(env: Env, sh: Shared, sh': Shared, x: Upload, x': Upload, m: UploadMove)
    requires UploadMoves(env, sh, sh', x, x', m)
    ensures sh'.db.attempts == sh.db.attempts && sh'.db.deadLetters == sh.db.deadLetters && sh'.threads == sh.threads
  {
    hide DecideScene;
  }

  lemma {:induction false} DispatcherAdds(sh: Shared, sh': Shared, x: Dispatcher, x': Dispatcher, m: DispatcherMove)
    requires DispatcherMoves(sh, sh', x, x', m)
    ensures sh'.db.attempts == sh.db.attempts && sh'.db.deadLetters == sh.db.deadLetters && sh'.threads == sh.threads
  {
    hide IsPendingBatch;
  }

  lemma {:induction false} StepBooks(env: Env, s: State, s': State, step: Step)
    requires env.CollisionFree() && Inv(env, s) && Next(env, s, s', step) && Books(env, s.sh)
    ensures Books(env, s'.sh)
  {
    hide WorkerMoves, ThreadMoves, SharedInv, WorkerOk, Grows, AttemptsTell, LettersTell, JobsTell, AddsTrue;
    StepGrows(env, s, s', step);
    match step
    case ByWorker(p, m) =>
      WorkerAdds(env, s.sh, s'.sh, s.workers[p], s'.workers[p], m);
      BooksKept(env, s.sh, s'.sh);
    case ByThread(t, m) =>
      ThreadAdds(env, s.sh, s'.sh, t, m);
      BooksKept(env, s.sh, s'.sh);
    case _ =>
      OthersAdd(env, s, s', step);
      NothingAdded(env, s.sh, s'.sh);
      BooksKept(env, s.sh, s'.sh);
  }

  lemma {:induction false} NothingAdded(env: Env, sh: Shared, sh': Shared)
    requires sh'.db.attempts == sh.db.attempts && sh'.db.deadLetters == sh.db.deadLetters && sh'.threads == sh.threads
    ensures AddsTrue(env, sh, sh')
  {
  }

  lemma {:induction false} RunBooks(env: Env, run: seq<State>, steps: seq<Step>, i: nat)
    requires env.CollisionFree() && IsRun(env, run, steps) && i < |run|
    ensures Books(env, run[i].sh)
  {
    hide Inv;
    if i > 0 {
      RunBooks(env, run, steps, i - 1);
      RunInv(env, run, steps, i - 1);
      assert StepAt(env, run, steps, i - 1);
      StepBooks(env, run[i - 1], run[i], steps[i - 1]);
    }
  }

  // -------------------------------------------------------------- theorems

  /** Every attempt row is about a delivery that took place, and a passed one about work that is in the database. */
  lemma {:induction false} AttemptsTrue(env: Env, run: seq<State>, steps: seq<Step>, i: nat, row: Attempt)
    requires env.CollisionFree() && IsRun(env, run, steps) && i < |run| && row in run[i].sh.db.attempts
    ensures AttemptTells(run[i].sh, row)
  {
    RunBooks(env, run, steps, i);
  }

  /** Every dead-letter row is about a delivery that took place and had used up every attempt. */
  lemma {:induction false} LettersTrue(env: Env, run: seq<State>, steps: seq<Step>, i: nat, letter: DeadLetter)
    requires env.CollisionFree() && IsRun(env, run, steps) && i < |run| && letter in run[i].sh.db.deadLetters
    ensures LetterTells(env, run[i].sh, letter)
  {
    RunBooks(env, run, steps, i);
  }
}
